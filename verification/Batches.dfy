/** How one pass shares promoted interactions out among batches: leaders acquire participants,
    interactions that touch go together, and small batches are merged. */
module Batches {
  import opened Foundation
  import opened Interactions

  const BATCH_LIMIT: nat := 100
  const MAX_BATCHES: nat := 20
  const MAX_HASHES: nat := 4

  datatype Batch = Batch(ixs: seq<Ix>, hashes: set<Hash>)

  /** The promoted interactions of one sender and key, in ascending order. */
  datatype Lane = Lane(key: QKey, ixs: seq<Ix>)

  /** One pass: who acquired whom, the hashes each leader holds, where participants are, the batches. */
  datatype Pass = Pass(
    acquirer: map<Identifier, Identifier>,
    held: map<Identifier, set<Hash>>,
    lookup: map<Identifier, nat>,
    batches: seq<Batch>)

  /** The consensus-node hashes of what an interaction locks; `nodes` holds the accounts that resolve. */
  function HashesOf(ix: Ix, nodes: map<Identifier, Hash>): set<Hash> {
    set id | id in LockedIds(ix) && id in nodes :: nodes[id]
  }

  function Spanned(ixs: seq<Ix>, nodes: map<Identifier, Hash>): set<Hash> {
    set x, id | x in ixs && id in LockedIds(x) && id in nodes :: nodes[id]
  }

  /** A batch takes one more as long as it has at most a hundred. */
  function Add(b: Batch, ix: Ix, nodes: map<Identifier, Hash>): Option<Batch> {
    if |b.ixs| > BATCH_LIMIT then None else Some(Batch(b.ixs + [ix], b.hashes + HashesOf(ix, nodes)))
  }

  /******* Acquiring participants *******/

  function Held(p: Pass, leader: Identifier): set<Hash> {
    if leader in p.held then p.held[leader] else {}
  }

  function Unbound(p: Pass, ix: Ix): set<Identifier> {
    set id | id in LockedIds(ix) && id !in p.acquirer
  }

  /** The unbound participants that would bring a new hash; two may bring the same one. */
  function Newcomers(p: Pass, ix: Ix, nodes: map<Identifier, Hash>): set<Identifier> {
    set id | id in Unbound(p, ix) && id in nodes && nodes[id] !in Held(p, ix.leader)
  }

  predicate Eligible(p: Pass, ix: Ix, nodes: map<Identifier, Hash>) {
    && (forall id :: id in LockedIds(ix) && id in p.acquirer ==> p.acquirer[id] == ix.leader)
    && (forall id :: id in Unbound(p, ix) ==> id in nodes)
    && |Held(p, ix.leader)| + |Newcomers(p, ix, nodes)| <= MAX_HASHES
  }

  function Acquire(p: Pass, ix: Ix, nodes: map<Identifier, Hash>): Pass {
    p.(acquirer := p.acquirer + (map id | id in LockedIds(ix) :: ix.leader),
       held := p.held[ix.leader := Held(p, ix.leader) + HashesOf(ix, nodes)])
  }

  /******* Placing an interaction *******/

  datatype Found = NotFound | Conflict | At(id: nat)

  /** Every participant counts here, locked or not. */
  ghost function FindBatch(lookup: map<Identifier, nat>, ix: Ix): Found {
    if forall id :: id in ix.participants ==> id !in lookup then NotFound
    else
      var id :| id in ix.participants && id in lookup;
      if forall other :: other in ix.participants && other in lookup ==> lookup[other] == lookup[id]
      then At(lookup[id]) else Conflict
  }

  /** Puts the interaction into batch `n` and its locked participants on the lookup. */
  function PlaceAt(p: Pass, n: nat, ix: Ix, nodes: map<Identifier, Hash>): Option<Pass>
    requires n < |p.batches|
  {
    var b := Add(p.batches[n], ix, nodes);
    if b.None? then None
    else Some(p.(batches := p.batches[n := b.value],
                 lookup := p.lookup + (map id | id in LockedIds(ix) :: n)))
  }

  ghost function AddIx(p: Pass, ix: Ix, nodes: map<Identifier, Hash>): Option<Pass>
    requires LookupBounded(p)
  {
    match FindBatch(p.lookup, ix)
    case Conflict => None
    case NotFound => PlaceAt(p.(batches := p.batches + [Batch([], {})]), |p.batches|, ix, nodes)
    case At(n) => PlaceAt(p, n, ix, nodes)
  }

  predicate LookupBounded(p: Pass) {
    forall id :: id in p.lookup ==> p.lookup[id] < |p.batches|
  }

  datatype Outcome = Outcome(pass: Pass, added: bool)

  /** One turn of the loop; `ready` are the interactions that may be proposed in the current view. */
  ghost function Schedule(p: Pass, ix: Ix, nodes: map<Identifier, Hash>, ready: set<Ix>): Outcome
    requires LookupBounded(p)
  {
    if !Eligible(p, ix, nodes) then Outcome(p, false)
    else
      var p1 := Acquire(p, ix, nodes);
      if ix !in ready then Outcome(p1, false)
      else
        var p2 := AddIx(p1, ix, nodes);
        if p2.None? then Outcome(p1, false) else Outcome(p2.value, true)
  }

  /** Walks a lane from its `n`-th interaction until one is not added. */
  ghost function RunLane(p: Pass, lane: Lane, n: nat, nodes: map<Identifier, Hash>, ready: set<Ix>): Pass
    requires PassInv(p, nodes) && n <= |lane.ixs|
    decreases |lane.ixs| - n
  {
    if n == |lane.ixs| then p
    else
      var r := Schedule(p, lane.ixs[n], nodes, ready);
      ScheduleKeeps(p, lane.ixs[n], nodes, ready);
      if r.added then RunLane(r.pass, lane, n + 1, nodes, ready) else r.pass
  }

  ghost function RunLanes(p: Pass, lanes: seq<Lane>, nodes: map<Identifier, Hash>, ready: set<Ix>): Pass
    requires PassInv(p, nodes)
    decreases |lanes|
  {
    if lanes == [] then p
    else
      RunLaneKeeps(p, lanes[0], 0, nodes, ready);
      RunLanes(RunLane(p, lanes[0], 0, nodes, ready), lanes[1..], nodes, ready)
  }

  function NewPass(): Pass {
    Pass(map[], map[], map[], [])
  }

  /******* What every turn keeps *******/

  /** A bound participant's hash is among its leader's, and no leader holds more than four. */
  predicate AcquiredOk(p: Pass, nodes: map<Identifier, Hash>) {
    && (forall id :: id in p.acquirer ==> id in nodes && nodes[id] in Held(p, p.acquirer[id]))
    && (forall leader :: leader in p.held ==> |p.held[leader]| <= MAX_HASHES)
  }

  /** What a batch's interaction locks is bound to its leader and on the lookup under that batch. */
  predicate BatchOk(p: Pass, i: nat)
    requires i < |p.batches|
  {
    forall x, id :: x in p.batches[i].ixs && id in LockedIds(x) ==>
      && id in p.lookup && p.lookup[id] == i
      && id in p.acquirer && p.acquirer[id] == x.leader
  }

  /** Everything on the lookup is locked by an interaction of the batch it leads to. */
  ghost predicate LookupEarned(p: Pass) {
    forall id :: id in p.lookup ==>
      && p.lookup[id] < |p.batches|
      && exists y :: y in p.batches[p.lookup[id]].ixs && id in LockedIds(y)
  }

  ghost predicate PassInv(p: Pass, nodes: map<Identifier, Hash>) {
    && AcquiredOk(p, nodes)
    && (forall i :: 0 <= i < |p.batches| ==> BatchOk(p, i))
    && (forall i :: 0 <= i < |p.batches| ==> p.batches[i].hashes == Spanned(p.batches[i].ixs, nodes))
    && LookupEarned(p)
  }

  lemma {:induction false} ImageCount(s: set<Identifier>, nodes: map<Identifier, Hash>)
    requires s <= nodes.Keys
    ensures |set id | id in s :: nodes[id]| <= |s|
  {
    var image := set id | id in s :: nodes[id];
    if s != {} {
      var x :| x in s;
      ImageCount(s - {x}, nodes);
      var rest := set id | id in s - {x} :: nodes[id];
      assert image <= rest + {nodes[x]};
      SubsetCount(image, rest + {nodes[x]});
    } else {
      assert image == {};
    }
  }

  /** Participants bound to the leader bring no new hash, and newcomers at most one each. */
  lemma HeldStaysSmall(p: Pass, ix: Ix, nodes: map<Identifier, Hash>)
    requires AcquiredOk(p, nodes) && Eligible(p, ix, nodes)
    ensures |Held(p, ix.leader) + HashesOf(ix, nodes)| <= MAX_HASHES
  {
    var held := Held(p, ix.leader);
    var newcomers := Newcomers(p, ix, nodes);
    var arrivals := set id | id in newcomers :: nodes[id];
    forall h | h in HashesOf(ix, nodes)
      ensures h in held + arrivals
    {
      var id :| id in LockedIds(ix) && id in nodes && nodes[id] == h;
      assert id in p.acquirer || id in Unbound(p, ix);
    }
    hide AcquiredOk, Newcomers, HashesOf, Held;
    SubsetCount(held + HashesOf(ix, nodes), held + arrivals);
    ImageCount(newcomers, nodes);
    UnionCount(held, arrivals);
  }

  lemma UnionCount<T>(s: set<T>, t: set<T>)
    ensures |s + t| <= |s| + |t|
  {
  }

  /** Acquiring never rebinds a participant and keeps every leader within four hashes. */
  lemma AcquireKeeps(p: Pass, ix: Ix, nodes: map<Identifier, Hash>)
    requires AcquiredOk(p, nodes) && Eligible(p, ix, nodes)
    ensures AcquiredOk(Acquire(p, ix, nodes), nodes)
    ensures forall id :: id in p.acquirer ==>
              id in Acquire(p, ix, nodes).acquirer && Acquire(p, ix, nodes).acquirer[id] == p.acquirer[id]
  {
    HeldStaysSmall(p, ix, nodes);
    hide Newcomers;
    var q := Acquire(p, ix, nodes);
    forall id | id in q.acquirer
      ensures id in nodes && nodes[id] in Held(q, q.acquirer[id])
    {
      if id in LockedIds(ix) {
        assert id in p.acquirer || id in Unbound(p, ix);
        assert nodes[id] in HashesOf(ix, nodes);
      } else {
        assert nodes[id] in Held(p, p.acquirer[id]);
      }
    }
  }

  lemma SameBatches(p: Pass, q: Pass)
    requires LookupEarned(p) && q.batches == p.batches && q.lookup == p.lookup
    ensures LookupEarned(q)
  {
  }

  lemma AcquireInv(p: Pass, ix: Ix, nodes: map<Identifier, Hash>)
    requires PassInv(p, nodes) && Eligible(p, ix, nodes)
    ensures PassInv(Acquire(p, ix, nodes), nodes)
  {
    AcquireKeeps(p, ix, nodes);
    hide AcquiredOk, Newcomers, Spanned, HashesOf, LookupEarned;
    var q := Acquire(p, ix, nodes);
    SameBatches(p, q);
    forall i | 0 <= i < |q.batches|
      ensures BatchOk(q, i)
    {
      assert BatchOk(p, i);
    }
  }

  lemma SpannedSnoc(ixs: seq<Ix>, ix: Ix, nodes: map<Identifier, Hash>)
    ensures Spanned(ixs + [ix], nodes) == Spanned(ixs, nodes) + HashesOf(ix, nodes)
  {
  }

  lemma PlaceEarns(p: Pass, n: nat, ix: Ix, nodes: map<Identifier, Hash>)
    requires LookupEarned(p) && n < |p.batches| && PlaceAt(p, n, ix, nodes).Some?
    requires forall id :: id in LockedIds(ix) && id in p.lookup ==> p.lookup[id] == n
    ensures LookupEarned(PlaceAt(p, n, ix, nodes).value)
  {
    hide LockedIds, HashesOf;
    var q := PlaceAt(p, n, ix, nodes).value;
    forall id | id in q.lookup
      ensures q.lookup[id] < |q.batches| && exists y :: y in q.batches[q.lookup[id]].ixs && id in LockedIds(y)
    {
      if id in LockedIds(ix) {
        assert ix in q.batches[n].ixs;
      } else {
        var y :| y in p.batches[p.lookup[id]].ixs && id in LockedIds(y);
        assert y in q.batches[q.lookup[id]].ixs;
      }
    }
  }

  lemma PlaceBatchOk(p: Pass, n: nat, ix: Ix, nodes: map<Identifier, Hash>, i: nat)
    requires n < |p.batches| && PlaceAt(p, n, ix, nodes).Some? && i < |p.batches| && BatchOk(p, i)
    requires forall id :: id in LockedIds(ix) ==> id in p.acquirer && p.acquirer[id] == ix.leader
    requires forall id :: id in LockedIds(ix) && id in p.lookup ==> p.lookup[id] == n
    ensures BatchOk(PlaceAt(p, n, ix, nodes).value, i)
  {
    hide LockedIds, HashesOf;
    var q := PlaceAt(p, n, ix, nodes).value;
    forall x, id | x in q.batches[i].ixs && id in LockedIds(x)
      ensures id in q.lookup && q.lookup[id] == i && id in q.acquirer && q.acquirer[id] == x.leader
    {
      if x in p.batches[i].ixs {
        assert p.lookup[id] == i;
      }
    }
  }

  /** Placing is safe where the interaction's participants on the lookup all agree on the batch. */
  lemma PlaceInv(p: Pass, n: nat, ix: Ix, nodes: map<Identifier, Hash>)
    requires PassInv(p, nodes) && n < |p.batches| && PlaceAt(p, n, ix, nodes).Some?
    requires forall id :: id in LockedIds(ix) ==> id in p.acquirer && p.acquirer[id] == ix.leader
    requires forall id :: id in LockedIds(ix) && id in p.lookup ==> p.lookup[id] == n
    ensures PassInv(PlaceAt(p, n, ix, nodes).value, nodes)
  {
    hide LookupEarned, BatchOk, Spanned, HashesOf;
    var q := PlaceAt(p, n, ix, nodes).value;
    SpannedSnoc(p.batches[n].ixs, ix, nodes);
    forall i | 0 <= i < |q.batches|
      ensures BatchOk(q, i)
    {
      PlaceBatchOk(p, n, ix, nodes, i);
    }
    PlaceEarns(p, n, ix, nodes);
  }

  lemma AddIxInv(p: Pass, ix: Ix, nodes: map<Identifier, Hash>)
    requires PassInv(p, nodes) && AddIx(p, ix, nodes).Some?
    requires forall id :: id in LockedIds(ix) ==> id in p.acquirer && p.acquirer[id] == ix.leader
    ensures PassInv(AddIx(p, ix, nodes).value, nodes)
  {
    match FindBatch(p.lookup, ix)
    case Conflict =>
    case NotFound =>
      AppendInv(p, nodes);
      PlaceInv(p.(batches := p.batches + [Batch([], {})]), |p.batches|, ix, nodes);
    case At(n) => PlaceInv(p, n, ix, nodes);
  }

  lemma AppendInv(p: Pass, nodes: map<Identifier, Hash>)
    requires PassInv(p, nodes)
    ensures PassInv(p.(batches := p.batches + [Batch([], {})]), nodes)
  {
    var q := p.(batches := p.batches + [Batch([], {})]);
    forall i | 0 <= i < |q.batches|
      ensures BatchOk(q, i)
    {
      if i < |p.batches| {
        assert BatchOk(p, i);
      }
    }
    forall id | id in q.lookup
      ensures q.lookup[id] < |q.batches| && exists y :: y in q.batches[q.lookup[id]].ixs && id in LockedIds(y)
    {
      var y :| y in p.batches[p.lookup[id]].ixs && id in LockedIds(y);
      assert y in q.batches[q.lookup[id]].ixs;
    }
  }

  lemma ScheduleKeeps(p: Pass, ix: Ix, nodes: map<Identifier, Hash>, ready: set<Ix>)
    requires PassInv(p, nodes)
    ensures PassInv(Schedule(p, ix, nodes, ready).pass, nodes)
  {
    if Eligible(p, ix, nodes) {
      AcquireInv(p, ix, nodes);
      var p1 := Acquire(p, ix, nodes);
      if ix in ready && AddIx(p1, ix, nodes).Some? {
        AddIxInv(p1, ix, nodes);
      }
    }
  }

  lemma {:induction false} RunLaneKeeps(p: Pass, lane: Lane, n: nat, nodes: map<Identifier, Hash>, ready: set<Ix>)
    requires PassInv(p, nodes) && n <= |lane.ixs|
    ensures PassInv(RunLane(p, lane, n, nodes, ready), nodes)
    decreases |lane.ixs| - n
  {
    if n < |lane.ixs| {
      ScheduleKeeps(p, lane.ixs[n], nodes, ready);
      var r := Schedule(p, lane.ixs[n], nodes, ready);
      if r.added {
        RunLaneKeeps(r.pass, lane, n + 1, nodes, ready);
      }
    }
  }

  lemma {:induction false} RunLanesKeeps(p: Pass, lanes: seq<Lane>, nodes: map<Identifier, Hash>, ready: set<Ix>)
    requires PassInv(p, nodes)
    ensures PassInv(RunLanes(p, lanes, nodes, ready), nodes)
    decreases |lanes|
  {
    if lanes != [] {
      RunLaneKeeps(p, lanes[0], 0, nodes, ready);
      RunLanesKeeps(RunLane(p, lanes[0], 0, nodes, ready), lanes[1..], nodes, ready);
    }
  }

  /** Nobody bound in `p` is bound otherwise in `q`. */
  predicate BindingsKept(p: Pass, q: Pass) {
    forall id :: id in p.acquirer ==> id in q.acquirer && q.acquirer[id] == p.acquirer[id]
  }

  lemma AddIxBinds(p: Pass, ix: Ix, nodes: map<Identifier, Hash>)
    requires LookupBounded(p) && AddIx(p, ix, nodes).Some?
    ensures AddIx(p, ix, nodes).value.acquirer == p.acquirer
  {
    hide FindBatch, HashesOf, LockedIds;
  }

  lemma ScheduleBinds(p: Pass, ix: Ix, nodes: map<Identifier, Hash>, ready: set<Ix>)
    requires PassInv(p, nodes)
    ensures BindingsKept(p, Schedule(p, ix, nodes, ready).pass)
  {
    if Eligible(p, ix, nodes) {
      AcquireKeeps(p, ix, nodes);
      var p1 := Acquire(p, ix, nodes);
      assert LookupBounded(p1);
      if AddIx(p1, ix, nodes).Some? {
        AddIxBinds(p1, ix, nodes);
      }
      hide PassInv, Eligible, AddIx, Acquire, LookupBounded;
    }
  }

  lemma {:induction false} RunLaneBinds(p: Pass, lane: Lane, n: nat, nodes: map<Identifier, Hash>, ready: set<Ix>)
    requires PassInv(p, nodes) && n <= |lane.ixs|
    ensures BindingsKept(p, RunLane(p, lane, n, nodes, ready))
    decreases |lane.ixs| - n
  {
    if n < |lane.ixs| {
      hide PassInv, Schedule;
      ScheduleKeeps(p, lane.ixs[n], nodes, ready);
      ScheduleBinds(p, lane.ixs[n], nodes, ready);
      var r := Schedule(p, lane.ixs[n], nodes, ready);
      if r.added {
        RunLaneBinds(r.pass, lane, n + 1, nodes, ready);
      }
    }
  }

  /** From any point of a pass to its end nobody is rebound, and no leader ever holds more than four hashes. */
  lemma {:induction false} PassNeverRebinds(p: Pass, lanes: seq<Lane>, nodes: map<Identifier, Hash>, ready: set<Ix>)
    requires PassInv(p, nodes)
    ensures var q := RunLanes(p, lanes, nodes, ready);
            && BindingsKept(p, q)
            && forall leader :: leader in q.held ==> |q.held[leader]| <= MAX_HASHES
    decreases |lanes|
  {
    RunLanesKeeps(p, lanes, nodes, ready);
    if lanes != [] {
      RunLaneKeeps(p, lanes[0], 0, nodes, ready);
      RunLaneBinds(p, lanes[0], 0, nodes, ready);
      PassNeverRebinds(RunLane(p, lanes[0], 0, nodes, ready), lanes[1..], nodes, ready);
    }
  }
}
