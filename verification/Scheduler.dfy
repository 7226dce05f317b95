/** The pass that picks what this node proposes in the current view. */
module Scheduler {
  import opened Foundation
  import opened Interactions
  import opened BatchRegistry
  import B = Batches
  import M = Merging
  import P = Placement
  import V = Views
  import Q = AccountQueues

  /******* Only ready interactions are returned *******/

  ghost predicate Within(batches: seq<B.Batch>, all: set<Ix>) {
    forall i, x :: 0 <= i < |batches| && x in batches[i].ixs ==> x in all
  }

  lemma ScheduleWithin(p: B.Pass, ix: Ix, nodes: map<Identifier, Hash>, ready: set<Ix>)
    requires B.LookupBounded(p) && Within(p.batches, ready)
    ensures Within(B.Schedule(p, ix, nodes, ready).pass.batches, ready)
  {
    var m := P.ScheduleAppends(p, ix, nodes, ready);
    var r := B.Schedule(p, ix, nodes, ready);
    if r.added {
      hide B.AddIx, B.Eligible, B.Acquire;
      assert ix in ready;
    }
  }

  lemma {:induction false} RunLaneWithin(p: B.Pass, lane: B.Lane, n: nat, nodes: map<Identifier, Hash>, ready: set<Ix>)
    requires B.PassInv(p, nodes) && n <= |lane.ixs| && Within(p.batches, ready)
    ensures Within(B.RunLane(p, lane, n, nodes, ready).batches, ready)
    decreases |lane.ixs| - n
  {
    if n < |lane.ixs| {
      hide Within, B.Schedule;
      ScheduleWithin(p, lane.ixs[n], nodes, ready);
      B.ScheduleKeeps(p, lane.ixs[n], nodes, ready);
      var r := B.Schedule(p, lane.ixs[n], nodes, ready);
      if r.added {
        RunLaneWithin(r.pass, lane, n + 1, nodes, ready);
      }
    }
  }

  lemma {:induction false} RunLanesWithin(p: B.Pass, lanes: seq<B.Lane>, nodes: map<Identifier, Hash>, ready: set<Ix>)
    requires B.PassInv(p, nodes) && Within(p.batches, ready)
    ensures Within(B.RunLanes(p, lanes, nodes, ready).batches, ready)
    decreases |lanes|
  {
    if lanes != [] {
      hide Within;
      B.RunLaneKeeps(p, lanes[0], 0, nodes, ready);
      RunLaneWithin(p, lanes[0], 0, nodes, ready);
      RunLanesWithin(B.RunLane(p, lanes[0], 0, nodes, ready), lanes[1..], nodes, ready);
    }
  }

  lemma MergePairWithin(batches: seq<B.Batch>, i: nat, j: nat, nodes: map<Identifier, Hash>, all: set<Ix>)
    requires i < j < |batches| && Within(batches, all)
    ensures Within(M.MergePair(batches, i, j, nodes), all)
  {
    var m := M.AbsorbIs(batches[i], batches[j].ixs, nodes);
    var r := M.MergePair(batches, i, j, nodes);
    hide M.Absorb;
    forall k, x | 0 <= k < |r| && x in r[k].ixs
      ensures x in all
    {
      assert k == i ==> x in batches[i].ixs || x in batches[j].ixs;
    }
  }

  lemma {:induction false} MergeFromWithin(batches: seq<B.Batch>, i: nat, count: nat, done: nat,
                                           nodes: map<Identifier, Hash>, all: set<Ix>)
    requires Within(batches, all)
    ensures Within(M.MergeFrom(batches, i, count, done, nodes).batches, all)
    decreases |batches| - i
  {
    hide Within, M.MergePair;
    if i < |batches| {
      var j := M.NextWith(batches, i + 1, count);
      if |batches[i].hashes| != count {
        MergeFromWithin(batches, i + 1, count, done, nodes, all);
      } else if j < |batches| {
        MergePairWithin(batches, i, j, nodes, all);
        if done + 1 != B.MAX_BATCHES {
          MergeFromWithin(M.MergePair(batches, i, j, nodes), i + 1, count, done + 1, nodes, all);
        }
      }
    }
  }

  lemma SelectedWithin(batches: seq<B.Batch>, result: seq<B.Batch>, sel: seq<nat>, all: set<Ix>)
    requires M.SelectedFrom(batches, result, sel) && Within(batches, all)
    ensures Within(result, all)
  {
    forall i, x | 0 <= i < |result| && x in result[i].ixs
      ensures x in all
    {
      assert x in batches[sel[i]].ixs;
    }
  }

  lemma ReturnedAreReady(lanes: seq<B.Lane>, nodes: map<Identifier, Hash>, ready: set<Ix>, result: seq<B.Batch>)
    requires M.Chosen(B.RunLanes(B.NewPass(), lanes, nodes, ready).batches, nodes, result)
    ensures Within(result, ready)
  {
    var p := B.RunLanes(B.NewPass(), lanes, nodes, ready);
    RunLanesWithin(B.NewPass(), lanes, nodes, ready);
    hide B.RunLanes, Within, M.SelectedFrom, M.MergeFrom;
    var sorted, order, sel := M.ChosenSelects(p.batches, nodes, result);
    SelectedWithin(p.batches, sorted, order, ready);
    MergeFromWithin(sorted, 0, 1, 0, nodes, ready);
    MergeFromWithin(M.MergeFrom(sorted, 0, 1, 0, nodes).batches, 0, 2, 0, nodes, ready);
    SelectedWithin(M.MergeBoth(sorted, nodes), result, sel, ready);
  }

  type Positions = p: map<Identifier, int> | forall id :: id in p ==> p[id] >= V.NODE_NOT_FOUND

  predicate IsReady(ix: Ix, view: nat, allotted: map<Ix, V.Allotment>, positions: Positions) {
    V.Ready(view, ix.leader, positions, V.AllottedTo(allotted, ix))
  }

  function ReadySet(lanes: seq<B.Lane>, view: nat, allotted: map<Ix, V.Allotment>, positions: Positions): set<Ix> {
    set x | x in M.AllOf(lanes) && IsReady(x, view, allotted, positions)
  }

  /** Every leader in the batches is in its turn. */
  predicate InTurn(result: seq<B.Batch>, positions: Positions, view: nat) {
    forall b, x :: b in result && x in b.ixs ==> V.OperatorEligible(x.leader, positions, view)
  }

  /** As long as every allotment has kept its turn, a pass returns only what this node may propose. */
  lemma ReturnedInTurn(lanes: seq<B.Lane>, nodes: map<Identifier, Hash>, view: nat, allotted: map<Ix, V.Allotment>,
                       positions: Positions, result: seq<B.Batch>)
    requires M.Chosen(B.RunLanes(B.NewPass(), lanes, nodes, ReadySet(lanes, view, allotted, positions)).batches,
                      nodes, result)
    requires V.Placed(positions) && V.TurnsKept(view, allotted, positions)
    ensures InTurn(result, positions, view)
  {
    var ready := ReadySet(lanes, view, allotted, positions);
    ReturnedAreReady(lanes, nodes, ready, result);
    hide M.Chosen, B.RunLanes, V.OperatorEligible;
    forall b, x | b in result && x in b.ixs
      ensures V.OperatorEligible(x.leader, positions, view)
    {
      var k :| 0 <= k < |result| && result[k] == b;
      assert x in ready;
      V.ReadyMeansOwnTurn(view, x, positions, allotted);
    }
  }

  /** Every batch a pass returns may be proposed by this node in the current view, as long as every
      allotment has kept its turn. */
  lemma ReturnedPassOperatorCheck(
    lanes: seq<B.Lane>, nodes: map<Identifier, Hash>, view: nat, allotted: map<Ix, V.Allotment>, positions: Positions,
    result: seq<B.Batch>, kind: Identifier -> V.Kind, b: B.Batch, leader: Identifier)
    requires M.Chosen(B.RunLanes(B.NewPass(), lanes, nodes, ReadySet(lanes, view, allotted, positions)).batches,
                      nodes, result)
    requires V.Placed(positions) && V.TurnsKept(view, allotted, positions)
    requires b in result && V.IsBatchLeader(b.ixs, kind, leader)
    ensures V.OperatorEligible(leader, positions, view)
  {
    ReturnedInTurn(lanes, nodes, view, allotted, positions, result);
    hide M.Chosen, B.RunLanes, V.OperatorEligible;
    var i :| 0 <= i < |b.ixs| && b.ixs[i].leader == leader;
    assert b.ixs[i] in b.ixs;
  }

  /******* Lanes *******/

  predicate Ascending(ixs: seq<Ix>) {
    forall i, j :: 0 <= i < j < |ixs| ==> ixs[i].seqId < ixs[j].seqId
  }

  lemma {:induction false} Spread(ixs: seq<Ix>, i: nat, j: nat)
    requires Ascending(ixs) && i <= j < |ixs|
    ensures ixs[j].seqId - ixs[i].seqId >= j - i
    decreases j - i
  {
    if i < j {
      Spread(ixs, i, j - 1);
      assert ixs[j - 1].seqId < ixs[j].seqId;
    }
  }

  lemma {:induction false} AscendingCount(ixs: seq<Ix>)
    requires Ascending(ixs)
    ensures |set x | x in ixs| == |ixs|
  {
    if ixs != [] {
      var last := |ixs| - 1;
      AscendingCount(ixs[..last]);
      assert (set x | x in ixs) == (set x | x in ixs[..last]) + {ixs[last]};
      assert ixs[last] !in ixs[..last];
    }
  }

  /** The lane of a queue: its promoted interactions in ascending order. */
  predicate IsLaneOf(lane: B.Lane, q: Q.AccQ) {
    Ascending(lane.ixs) && (set x | x in lane.ixs) == q.promoted
  }

  /** A lane lists the promoted ids of a valid queue without a gap, up to its next id. */
  lemma LaneIsInterval(lane: B.Lane, q: Q.AccQ)
    requires Q.Valid(q) && IsLaneOf(lane, q)
    ensures |lane.ixs| == |q.promoted|
    ensures forall i :: 0 <= i < |lane.ixs| ==> lane.ixs[i].seqId == q.next - |q.promoted| + i
  {
    var ixs, n := lane.ixs, |q.promoted|;
    AscendingCount(ixs);
    Q.PromotedIsInterval(q);
    forall i | 0 <= i < n
      ensures ixs[i].seqId == q.next - n + i
    {
      assert ixs[0] in q.promoted && ixs[n - 1] in q.promoted;
      assert ixs[0].seqId in Q.Ids(q.promoted) && ixs[n - 1].seqId in Q.Ids(q.promoted);
      Spread(ixs, 0, i);
      Spread(ixs, i, n - 1);
    }
  }

  /** What a pass returns of a queue that locks its sender sits in one batch and starts at the queue's
      first promoted id, in order and without a gap. */
  lemma ReturnedFormRun(lanes: seq<B.Lane>, nodes: map<Identifier, Hash>, ready: set<Ix>, result: seq<B.Batch>,
                        j: nat, q: Q.AccQ)
    requires M.Chosen(B.RunLanes(B.NewPass(), lanes, nodes, ready).batches, nodes, result)
    requires P.DistinctKeys(lanes) && (forall lane :: lane in lanes ==> P.Keyed(lane))
    requires j < |lanes| && P.Pinned(lanes[j]) && Q.Valid(q) && IsLaneOf(lanes[j], q)
    ensures forall i, k :: 0 <= i < |result| && 0 <= k < |P.Restrict(result[i].ixs, lanes[j].key)| ==>
              P.Restrict(result[i].ixs, lanes[j].key)[k].seqId == q.next - |q.promoted| + k
    ensures forall i, i' :: 0 <= i < i' < |result| ==>
              P.Restrict(result[i].ixs, lanes[j].key) == [] || P.Restrict(result[i'].ixs, lanes[j].key) == []
  {
    var n := M.ReturnedKeepOrder(lanes, nodes, ready, result, j);
    LaneIsInterval(lanes[j], q);
    hide M.Chosen, B.RunLanes, P.Restrict, Q.Valid, P.Pinned, P.Keyed, P.DistinctKeys, IsLaneOf;
    forall i, k | 0 <= i < |result| && 0 <= k < |P.Restrict(result[i].ixs, lanes[j].key)|
      ensures P.Restrict(result[i].ixs, lanes[j].key)[k].seqId == q.next - |q.promoted| + k
    {
      assert P.Restrict(result[i].ixs, lanes[j].key) == lanes[j].ixs[..n];
    }
  }

  /******* The pass itself *******/

  lemma TakeOut(s: set<Identifier>, todo: set<Identifier>, id: Identifier)
    requires id in todo
    ensures |s - (todo - {id})| == |s - todo| + (if id in s then 1 else 0)
  {
    if id in s {
      assert s - (todo - {id}) == (s - todo) + {id};
    } else {
      assert s - (todo - {id}) == s - todo;
    }
  }

  /** The participant is bound to the leader, or unbound and can be looked up. */
  predicate Fits(p: B.Pass, ix: Ix, nodes: map<Identifier, Hash>, id: Identifier) {
    Locks(ix, id) ==> if id in p.acquirer then p.acquirer[id] == ix.leader else id in nodes
  }

  /** The hashes recorded once `todo` is left. */
  ghost predicate Recorded(ix: Ix, p: B.Pass, nodes: map<Identifier, Hash>, todo: set<Identifier>,
                           recorded: map<Identifier, Hash>) {
    AllAgree(recorded, nodes) && p.acquirer.Keys <= recorded.Keys && LockedIds(ix) - todo <= recorded.Keys
  }

  /** The newcomers counted once `todo` is left. */
  ghost predicate Numbered(ix: Ix, p: B.Pass, nodes: map<Identifier, Hash>, todo: set<Identifier>, count: nat) {
    && (forall id :: id in ix.participants && id !in todo ==> Fits(p, ix, nodes, id))
    && count == |B.Newcomers(p, ix, nodes) - todo|
  }

  ghost predicate Counting(ix: Ix, p: B.Pass, nodes: map<Identifier, Hash>, todo: set<Identifier>,
                           count: nat, recorded: map<Identifier, Hash>) {
    Recorded(ix, p, nodes, todo, recorded) && Numbered(ix, p, nodes, todo, count)
  }

  predicate IsNewcomer(p: B.Pass, ix: Ix, nodes: map<Identifier, Hash>, id: Identifier) {
    Locks(ix, id) && id !in p.acquirer && id in nodes && nodes[id] !in B.Held(p, ix.leader)
  }

  lemma RecordOne(ix: Ix, p: B.Pass, nodes: map<Identifier, Hash>, todo: set<Identifier>,
                  recorded: map<Identifier, Hash>, id: Identifier)
    requires Recorded(ix, p, nodes, todo, recorded) && id in todo && Fits(p, ix, nodes, id)
    requires todo <= ix.participants.Keys
    ensures Recorded(ix, p, nodes, todo - {id},
                     if Locks(ix, id) && id !in p.acquirer then recorded[id := nodes[id]] else recorded)
  {
    TakenOut(ix, todo, id);
    hide LockedIds;
  }

  lemma NumberOne(ix: Ix, p: B.Pass, nodes: map<Identifier, Hash>, todo: set<Identifier>, count: nat, id: Identifier)
    requires Numbered(ix, p, nodes, todo, count) && id in todo && Fits(p, ix, nodes, id)
    ensures Numbered(ix, p, nodes, todo - {id}, count + if IsNewcomer(p, ix, nodes, id) then 1 else 0)
  {
    TakeOut(B.Newcomers(p, ix, nodes), todo, id);
    assert id in B.Newcomers(p, ix, nodes) <==> IsNewcomer(p, ix, nodes, id);
  }

  lemma CountOne(ix: Ix, p: B.Pass, nodes: map<Identifier, Hash>, todo: set<Identifier>,
                 count: nat, recorded: map<Identifier, Hash>, id: Identifier)
    requires Counting(ix, p, nodes, todo, count, recorded) && id in todo && Fits(p, ix, nodes, id)
    requires todo <= ix.participants.Keys
    ensures Counting(ix, p, nodes, todo - {id}, count + (if IsNewcomer(p, ix, nodes, id) then 1 else 0),
                     if Locks(ix, id) && id !in p.acquirer then recorded[id := nodes[id]] else recorded)
  {
    RecordOne(ix, p, nodes, todo, recorded, id);
    NumberOne(ix, p, nodes, todo, count, id);
    hide Recorded, Numbered, IsNewcomer;
  }

  lemma CountStart(ix: Ix, p: B.Pass, nodes: map<Identifier, Hash>, known: map<Identifier, Hash>)
    requires AllAgree(known, nodes) && p.acquirer.Keys <= known.Keys
    ensures Counting(ix, p, nodes, ix.participants.Keys, 0, known)
  {
    assert B.Newcomers(p, ix, nodes) - ix.participants.Keys == {};
  }

  lemma CountEnd(ix: Ix, p: B.Pass, nodes: map<Identifier, Hash>, todo: set<Identifier>,
                 count: nat, recorded: map<Identifier, Hash>)
    requires Counting(ix, p, nodes, todo, count, recorded)
    ensures AllAgree(recorded, nodes)
    ensures todo == {} ==> && (forall id :: id in ix.participants ==> Fits(p, ix, nodes, id))
                           && count == |B.Newcomers(p, ix, nodes)| && LockedIds(ix) <= recorded.Keys
  {
    if todo == {} {
      assert B.Newcomers(p, ix, nodes) - todo == B.Newcomers(p, ix, nodes);
      assert LockedIds(ix) - todo == LockedIds(ix);
    }
  }

  /** Counts the unbound participants that bring a new hash and records the hashes looked up, in any
      order; `None` if a participant is bound to another leader or cannot be looked up. */
  method CountNew(ix: Ix, p: B.Pass, known: map<Identifier, Hash>, nodes: map<Identifier, Hash>)
    returns (r: Option<nat>, recorded: map<Identifier, Hash>)
    requires AllAgree(known, nodes) && p.acquirer.Keys <= known.Keys
    ensures AllAgree(recorded, nodes) && known.Keys <= recorded.Keys
    ensures r.Some? <==> forall id :: id in ix.participants ==> Fits(p, ix, nodes, id)
    ensures r.Some? ==> r.value == |B.Newcomers(p, ix, nodes)| && LockedIds(ix) <= recorded.Keys
  {
    hide Counting, AllAgree, B.Newcomers, B.Held, LockedIds;
    var count: nat, todo: set<Identifier> := 0, ix.participants.Keys;
    recorded := known;
    CountStart(ix, p, nodes, recorded);
    while todo != {}
      invariant todo <= ix.participants.Keys && known.Keys <= recorded.Keys
      invariant Counting(ix, p, nodes, todo, count, recorded)
      decreases |todo|
    {
      var id :| id in todo;
      if Locks(ix, id) && id in p.acquirer && p.acquirer[id] != ix.leader {
        assert !Fits(p, ix, nodes, id);
        r := None;
        break;
      }
      if Locks(ix, id) && id !in p.acquirer && id !in nodes {
        assert !Fits(p, ix, nodes, id);
        r := None;
        break;
      }
      CountOne(ix, p, nodes, todo, count, recorded, id);
      if Locks(ix, id) && id !in p.acquirer {
        recorded := recorded[id := nodes[id]];
        if nodes[id] !in B.Held(p, ix.leader) {
          count := count + 1;
        }
      }
      todo := todo - {id};
    }
    CountEnd(ix, p, nodes, todo, count, recorded);
    if todo == {} {
      r := Some(count);
    }
  }

  lemma FitsIsEligible(p: B.Pass, ix: Ix, nodes: map<Identifier, Hash>)
    ensures B.Eligible(p, ix, nodes) <==>
              && (forall id :: id in ix.participants ==> Fits(p, ix, nodes, id))
              && |B.Held(p, ix.leader)| + |B.Newcomers(p, ix, nodes)| <= B.MAX_HASHES
  {
    assert forall id :: id in B.Unbound(p, ix) <==> Locks(ix, id) && id !in p.acquirer;
  }

  /** What binding has done once `todo` is left. */
  ghost predicate Binding(ix: Ix, p: B.Pass, nodes: map<Identifier, Hash>, todo: set<Identifier>, q: B.Pass) {
    var done := LockedIds(ix) - todo;
    && q.lookup == p.lookup && q.batches == p.batches
    && q.acquirer.Keys == p.acquirer.Keys + done
    && (forall id :: id in q.acquirer ==> q.acquirer[id] == if id in done then ix.leader else p.acquirer[id])
    && q.held.Keys == p.held.Keys + {ix.leader}
    && (forall l :: l in p.held && l != ix.leader ==> q.held[l] == p.held[l])
    && (forall h :: h in q.held[ix.leader] <==>
          h in B.Held(p, ix.leader) || exists id :: id in done && id in nodes && nodes[id] == h)
  }

  lemma BindStart(ix: Ix, p: B.Pass, nodes: map<Identifier, Hash>)
    ensures Binding(ix, p, nodes, ix.participants.Keys, p.(held := p.held[ix.leader := B.Held(p, ix.leader)]))
  {
    assert LockedIds(ix) - ix.participants.Keys == {};
  }

  function BindId(q: B.Pass, leader: Identifier, id: Identifier, hash: Hash): B.Pass {
    q.(acquirer := q.acquirer[id := leader], held := q.held[leader := B.Held(q, leader) + {hash}])
  }

  lemma BindOne(ix: Ix, p: B.Pass, nodes: map<Identifier, Hash>, todo: set<Identifier>, q: B.Pass, id: Identifier)
    requires Binding(ix, p, nodes, todo, q) && id in todo && todo <= ix.participants.Keys
    requires Locks(ix, id) ==> id in nodes
    ensures Binding(ix, p, nodes, todo - {id}, if Locks(ix, id) then BindId(q, ix.leader, id, nodes[id]) else q)
  {
    TakenOut(ix, todo, id);
    assert !Locks(ix, id) ==> LockedIds(ix) - (todo - {id}) == LockedIds(ix) - todo;
  }

  lemma BoundAcquirer(ix: Ix, p: B.Pass, nodes: map<Identifier, Hash>, q: B.Pass)
    requires Binding(ix, p, nodes, {}, q)
    ensures q.acquirer == B.Acquire(p, ix, nodes).acquirer
  {
    assert LockedIds(ix) - {} == LockedIds(ix);
    hide LockedIds, B.Held;
  }

  lemma BoundHashes(ix: Ix, p: B.Pass, nodes: map<Identifier, Hash>, q: B.Pass)
    requires Binding(ix, p, nodes, {}, q)
    ensures q.held == B.Acquire(p, ix, nodes).held
  {
    assert LockedIds(ix) - {} == LockedIds(ix);
    hide LockedIds, B.Held;
    assert q.held[ix.leader] == B.Held(p, ix.leader) + B.HashesOf(ix, nodes);
  }

  lemma BindEnd(ix: Ix, p: B.Pass, nodes: map<Identifier, Hash>, q: B.Pass)
    requires Binding(ix, p, nodes, {}, q)
    ensures q == B.Acquire(p, ix, nodes)
  {
    hide LockedIds, B.Held, B.HashesOf;
    BoundAcquirer(ix, p, nodes, q);
    BoundHashes(ix, p, nodes, q);
  }

  /** Binds every locked participant to the leader and gives the leader their hashes, in any order. */
  method Bind(ix: Ix, p: B.Pass, nodes: map<Identifier, Hash>) returns (q: B.Pass)
    requires LockedIds(ix) <= nodes.Keys
    ensures q == B.Acquire(p, ix, nodes)
  {
    hide Binding, B.Acquire, B.Held, BindId;
    var todo: set<Identifier> := ix.participants.Keys;
    q := p.(held := p.held[ix.leader := B.Held(p, ix.leader)]);
    BindStart(ix, p, nodes);
    while todo != {}
      invariant todo <= ix.participants.Keys && Binding(ix, p, nodes, todo, q)
      decreases |todo|
    {
      var id :| id in todo;
      BindOne(ix, p, nodes, todo, q, id);
      if Locks(ix, id) {
        q := BindId(q, ix.leader, id, nodes[id]);
      }
      todo := todo - {id};
    }
    BindEnd(ix, p, nodes, q);
  }

  class PassState {
    var acquirer: map<Identifier, Identifier>
    var held: map<Identifier, set<Hash>>
    const registry: Registry

    function State(): B.Pass
      reads this, registry
    {
      B.Pass(acquirer, held, registry.lookup, registry.batches)
    }

    /** Hashes are recorded for everything acquired and everything in a batch. */
    ghost predicate Consistent(nodes: map<Identifier, Hash>)
      reads this, registry
    {
      AllAgree(registry.known, nodes) && registry.Covered() && acquirer.Keys <= registry.known.Keys
    }

    constructor ()
      ensures fresh(registry) && State() == B.NewPass() && registry.known == map[]
    {
      acquirer, held := map[], map[];
      registry := new Registry();
    }

    method IsEligibleForProposal(ix: Ix, nodes: map<Identifier, Hash>) returns (ok: bool)
      requires Consistent(nodes)
      modifies this, registry`known
      ensures Consistent(nodes)
      ensures ok <==> B.Eligible(old(State()), ix, nodes)
      ensures State() == if ok then B.Acquire(old(State()), ix, nodes) else old(State())
      ensures ok ==> LockedIds(ix) <= registry.known.Keys
    {
      hide B.Eligible, B.Newcomers, LockedIds, Fits;
      var r, recorded := CountNew(ix, State(), registry.known, nodes);
      FitsIsEligible(State(), ix, nodes);
      CoveredMore(registry.batches, registry.known.Keys, recorded.Keys);
      registry.known := recorded;
      if r.None? || |B.Held(State(), ix.leader)| + r.value > B.MAX_HASHES {
        return false;
      }
      assert recorded.Keys <= nodes.Keys;
      var q := Bind(ix, State(), nodes);
      acquirer, held := q.acquirer, q.held;
      ok := true;
    }

    method AddIx(ix: Ix, nodes: map<Identifier, Hash>) returns (added: bool)
      requires Consistent(nodes) && B.LookupBounded(State()) && LockedIds(ix) <= registry.known.Keys
      modifies registry
      ensures Consistent(nodes)
      ensures added <==> B.AddIx(old(State()), ix, nodes).Some?
      ensures State() == B.AddIx(old(State()), ix, nodes).GetOr(old(State()))
    {
      hide LockedIds, B.AddIx;
      ghost var p := State();
      added := registry.AddIx(ix, p, nodes);
      if added {
        StaysCovered(p, ix, nodes, registry.known.Keys);
      }
    }
  }

  lemma StaysCovered(p: B.Pass, ix: Ix, nodes: map<Identifier, Hash>, ids: set<Identifier>)
    requires B.LookupBounded(p) && AllCovered(p.batches, ids) && LockedIds(ix) <= ids
    requires B.AddIx(p, ix, nodes).Some?
    ensures AllCovered(B.AddIx(p, ix, nodes).value.batches, ids)
  {
    var m := P.AddAppends(p, ix, nodes);
    hide B.AddIx, LockedIds;
  }

  lemma CoveredMore(batches: seq<B.Batch>, ids: set<Identifier>, more: set<Identifier>)
    requires AllCovered(batches, ids) && ids <= more
    ensures AllCovered(batches, more)
  {
  }

  /** The pool's view and the views it has allotted. */
  class Proposer {
    var view: nat
    var allotted: map<Ix, V.Allotment>

    constructor ()
      ensures view == 0 && allotted == map[]
    {
      view, allotted := 0, map[];
    }

    function Clock(): V.Clock
      reads this
    {
      V.Clock(view, allotted)
    }

    method UpdateCurrentView(to: nat)
      modifies this`view
      ensures Clock() == V.Advance(old(Clock()), V.Tick(to), map[])
    {
      view := to;
    }

    /** Allots the next turn from a view on to each interaction whose leader can be looked up. */
    method AllocateView(from: nat, ixs: seq<Ix>, positions: Positions)
      modifies this`allotted
      ensures Clock() == V.AdvanceAll(old(Clock()), Allots(ixs, from), positions)
    {
      for i := 0 to |ixs|
        invariant Clock() == V.AdvanceAll(old(Clock()), Allots(ixs[..i], from), positions)
      {
        assert Allots(ixs[..i + 1], from)[..i] == Allots(ixs[..i], from);
        allotted := allotted[ixs[i] := V.Allocate(from, ixs[i].leader, positions, V.AllottedTo(allotted, ixs[i]))];
      }
      assert ixs[..|ixs|] == ixs;
    }

    /** Renews a stale allotment in the current view. */
    method Renew(ix: Ix, positions: Positions) returns (ghost steps: seq<V.ClockStep>)
      requires V.AllottedTo(allotted, ix).propose
      modifies this`allotted
      ensures V.AllottedTo(allotted, ix) == V.Refresh(view, ix.leader, positions, V.AllottedTo(old(allotted), ix))
      ensures SameReady(old(allotted), allotted, view, positions)
      ensures Renewals(steps, view, {ix}) && Clock() == V.AdvanceAll(old(Clock()), steps, positions)
    {
      hide V.Allocate, IsReady;
      steps := [];
      var a := V.AllottedTo(allotted, ix);
      if a.view < view {
        RefreshIsSame(allotted, view, positions, ix);
        steps := [V.Allot(ix, view)];
        OneStep(Clock(), steps[0], positions);
        allotted := allotted[ix := V.Allocate(view, ix.leader, positions, a)];
      }
    }

    /** One turn of the inner loop; false ends the lane. A stale allotment is renewed in the current view. */
    method Turn(pass: PassState, ix: Ix, nodes: map<Identifier, Hash>, positions: Positions, ghost ready: set<Ix>)
      returns (added: bool, ghost steps: seq<V.ClockStep>)
      requires pass.Consistent(nodes) && B.PassInv(pass.State(), nodes)
      requires ix in ready <==> IsReady(ix, view, allotted, positions)
      modifies this`allotted, pass, pass.registry
      ensures pass.Consistent(nodes) && B.PassInv(pass.State(), nodes)
      ensures B.Outcome(pass.State(), added) == B.Schedule(old(pass.State()), ix, nodes, ready)
      ensures SameReady(old(allotted), allotted, view, positions)
      ensures Renewals(steps, view, {ix}) && Clock() == V.AdvanceAll(old(Clock()), steps, positions)
    {
      B.ScheduleKeeps(pass.State(), ix, nodes, ready);
      hide B.PassInv, B.Eligible, B.Acquire, LockedIds, B.AddIx, V.Refresh, V.AdvanceAll, Renewals;
      steps := [];
      NoSteps(Clock(), view, {ix}, positions);
      added := pass.IsEligibleForProposal(ix, nodes);
      var a := V.AllottedTo(allotted, ix);
      if !added || !a.propose {
        return false, [];
      }
      steps := Renew(ix, positions);
      if V.AllottedTo(allotted, ix).view > view {
        return false, steps;
      }
      added := pass.AddIx(ix, nodes);
    }

    method WalkLane(pass: PassState, lane: B.Lane, nodes: map<Identifier, Hash>, positions: Positions,
                    ghost ready: set<Ix>) returns (ghost steps: seq<V.ClockStep>)
      requires pass.Consistent(nodes) && B.PassInv(pass.State(), nodes)
      requires forall x :: x in lane.ixs ==> (x in ready <==> IsReady(x, view, allotted, positions))
      modifies this`allotted, pass, pass.registry
      ensures pass.Consistent(nodes) && B.PassInv(pass.State(), nodes)
      ensures pass.State() == B.RunLane(old(pass.State()), lane, 0, nodes, ready)
      ensures SameReady(old(allotted), allotted, view, positions)
      ensures Renewals(steps, view, InLane(lane)) && Clock() == V.AdvanceAll(old(Clock()), steps, positions)
    {
      hide B.PassInv, B.Schedule, IsReady, V.AdvanceAll, Renewals;
      var n := 0;
      ghost var p := pass.State();
      steps := [];
      NoSteps(Clock(), view, InLane(lane), positions);
      while n < |lane.ixs|
        invariant n <= |lane.ixs| && view == old(view)
        invariant pass.Consistent(nodes) && B.PassInv(pass.State(), nodes)
        invariant B.RunLane(pass.State(), lane, n, nodes, ready) == B.RunLane(p, lane, 0, nodes, ready)
        invariant SameReady(old(allotted), allotted, view, positions)
        invariant Renewals(steps, view, InLane(lane)) && Clock() == V.AdvanceAll(old(Clock()), steps, positions)
      {
        ghost var more;
        var added;
        added, more := Turn(pass, lane.ixs[n], nodes, positions, ready);
        MoreSteps(old(Clock()), steps, more, view, {lane.ixs[n]}, InLane(lane), positions);
        steps := steps + more;
        if !added {
          break;
        }
        n := n + 1;
      }
    }

    /** Walks the lanes in the given order and selects among the batches they fill; what it does to the
        allotments is a run of renewals in the current view. */
    method ProcessableBatches(lanes: seq<B.Lane>, nodes: map<Identifier, Hash>, positions: Positions)
      returns (result: seq<B.Batch>, ghost steps: seq<V.ClockStep>)
      modifies this`allotted
      ensures M.Chosen(B.RunLanes(B.NewPass(), lanes, nodes, ReadySet(lanes, view, old(allotted), positions)).batches,
                       nodes, result)
      ensures M.Sorted(result) && |result| <= 20 && forall b :: b in result ==> b.ixs != []
      ensures SameReady(old(allotted), allotted, view, positions)
      ensures Renewals(steps, view, M.AllOf(lanes)) && Clock() == V.AdvanceAll(old(Clock()), steps, positions)
      ensures V.Placed(positions) && V.OwnTurns(old(allotted), positions) ==> V.OwnTurns(allotted, positions)
    {
      hide B.PassInv, IsReady, B.RunLane, M.Chosen, M.Sorted, V.AdvanceAll, Renewals, V.OwnTurns;
      var pass := new PassState();
      ghost var ready := ReadySet(lanes, view, allotted, positions);
      NewPassIsValid(nodes);
      steps := [];
      NoSteps(Clock(), view, M.AllOf(lanes), positions);
      for i := 0 to |lanes|
        invariant pass.Consistent(nodes) && B.PassInv(pass.State(), nodes)
        invariant B.RunLanes(pass.State(), lanes[i..], nodes, ready) == B.RunLanes(B.NewPass(), lanes, nodes, ready)
        invariant SameReady(old(allotted), allotted, view, positions)
        invariant Renewals(steps, view, M.AllOf(lanes)) && Clock() == V.AdvanceAll(old(Clock()), steps, positions)
      {
        assert lanes[i..][1..] == lanes[i + 1..];
        ghost var more := WalkLane(pass, lanes[i], nodes, positions, ready);
        assert InLane(lanes[i]) <= M.AllOf(lanes);
        MoreSteps(old(Clock()), steps, more, view, InLane(lanes[i]), M.AllOf(lanes), positions);
        steps := steps + more;
      }
      result := pass.registry.SelectOptimalBatches(nodes);
      if V.Placed(positions) && V.OwnTurns(old(allotted), positions) {
        V.RunsAllotOwnTurns(old(Clock()), steps, positions);
      }
    }

    /** One event of a run. */
    method Handle(e: Event, positions: Positions) returns (result: seq<B.Batch>)
      modifies this
      ensures Handled(old(Clock()), e, Clock(), result, positions)
    {
      hide V.AdvanceAll, M.Chosen, B.RunLanes;
      match e
      case Tell(Tick(to)) =>
        UpdateCurrentView(to);
        result := [];
      case Tell(Allot(ix, from)) =>
        AllocateView(from, [ix], positions);
        OneStep(old(Clock()), V.Allot(ix, from), positions);
        assert Allots([ix], from) == [V.Allot(ix, from)];
        result := [];
      case Pass(lanes, nodes) =>
        ghost var steps;
        result, steps := ProcessableBatches(lanes, nodes, positions);
    }

    /** A run of view updates, allotments and passes: every pass returns only batches this node may propose
        in the view it is made in. */
    method Follow(events: seq<Event>, positions: Positions)
      returns (results: seq<seq<B.Batch>>, ghost clocks: seq<V.Clock>)
      requires V.Placed(positions) && V.OwnTurns(allotted, positions)
      modifies this
      ensures |results| == |events| == |clocks| - 1 && clocks[0] == old(Clock()) && clocks[|events|] == Clock()
      ensures forall i :: 0 <= i < |events| ==> Handled(clocks[i], events[i], clocks[i + 1], results[i], positions)
      ensures forall i :: 0 <= i < |events| ==> InTurn(results[i], positions, clocks[i].view)
      ensures forall i :: 0 <= i <= |events| ==> V.OwnTurns(clocks[i].allotted, positions)
    {
      hide V.OwnTurns, V.Placed, InTurn, Handled;
      results, clocks := [], [Clock()];
      for i := 0 to |events|
        invariant |results| == i == |clocks| - 1 && clocks[0] == old(Clock()) && clocks[i] == Clock()
        invariant forall k :: 0 <= k < i ==> Handled(clocks[k], events[k], clocks[k + 1], results[k], positions)
        invariant forall k :: 0 <= k < i ==> InTurn(results[k], positions, clocks[k].view)
        invariant forall k :: 0 <= k <= i ==> V.OwnTurns(clocks[k].allotted, positions)
      {
        ghost var before := Clock();
        var result := Handle(events[i], positions);
        HandledInTurn(before, events[i], Clock(), result, positions);
        results, clocks := results + [result], clocks + [Clock()];
      }
    }
  }

  /** The pool is told something, or a pass is made. */
  datatype Event = Tell(step: V.ClockStep) | Pass(lanes: seq<B.Lane>, nodes: map<Identifier, Hash>)

  /** What an event does: what is told happens, and a pass selects among the batches of its ready
      interactions and renews allotments in its view. */
  ghost predicate Handled(before: V.Clock, e: Event, after: V.Clock, result: seq<B.Batch>, positions: Positions) {
    match e
    case Tell(s) => result == [] && after == V.Advance(before, s, positions)
    case Pass(lanes, nodes) =>
      var ready := ReadySet(lanes, before.view, before.allotted, positions);
      && M.Chosen(B.RunLanes(B.NewPass(), lanes, nodes, ready).batches, nodes, result)
      && exists steps :: Renewals(steps, before.view, M.AllOf(lanes)) && after == V.AdvanceAll(before, steps, positions)
  }

  /** With own turns before, an event returns only what is in turn and leaves own turns. */
  lemma HandledInTurn(before: V.Clock, e: Event, after: V.Clock, result: seq<B.Batch>, positions: Positions)
    requires Handled(before, e, after, result, positions)
    requires V.Placed(positions) && V.OwnTurns(before.allotted, positions)
    ensures V.OwnTurns(after.allotted, positions) && InTurn(result, positions, before.view)
  {
    hide V.OwnTurns, V.Placed, V.AdvanceAll, V.Advance, M.Chosen, B.RunLanes;
    match e
    case Tell(s) =>
      OneStep(before, s, positions);
      V.RunsAllotOwnTurns(before, [s], positions);
    case Pass(lanes, nodes) =>
      var steps :| Renewals(steps, before.view, M.AllOf(lanes)) && after == V.AdvanceAll(before, steps, positions);
      V.RunsAllotOwnTurns(before, steps, positions);
      V.OwnTurnsAreKept(before.view, before.allotted, positions);
      ReturnedInTurn(lanes, nodes, before.view, before.allotted, positions, result);
  }

  function InLane(lane: B.Lane): set<Ix> {
    set x | x in lane.ixs
  }

  /** Allotments of the given interactions from the given view on. */
  predicate Renewals(steps: seq<V.ClockStep>, view: nat, ixs: set<Ix>) {
    forall s :: s in steps ==> s.Allot? && s.from == view && s.ix in ixs
  }

  lemma OneStep(c: V.Clock, s: V.ClockStep, positions: Positions)
    ensures V.AdvanceAll(c, [s], positions) == V.Advance(c, s, positions)
  {
    assert [s][..0] == [];
  }

  lemma NoSteps(c: V.Clock, view: nat, ixs: set<Ix>, positions: Positions)
    ensures Renewals([], view, ixs) && V.AdvanceAll(c, [], positions) == c
  {
  }

  lemma MoreSteps(c: V.Clock, steps: seq<V.ClockStep>, more: seq<V.ClockStep>, view: nat, part: set<Ix>, ixs: set<Ix>,
                  positions: Positions)
    requires Renewals(steps, view, ixs) && Renewals(more, view, part) && part <= ixs
    ensures Renewals(steps + more, view, ixs)
    ensures V.AdvanceAll(V.AdvanceAll(c, steps, positions), more, positions) == V.AdvanceAll(c, steps + more, positions)
  {
    V.AdvanceOn(c, steps, more, positions);
  }

  lemma NewPassIsValid(nodes: map<Identifier, Hash>)
    ensures B.PassInv(B.NewPass(), nodes)
  {
  }

  function Allots(ixs: seq<Ix>, from: nat): seq<V.ClockStep> {
    seq(|ixs|, i requires 0 <= i < |ixs| => V.Allot(ixs[i], from))
  }

  /** The same interactions are ready. */
  ghost predicate SameReady(was: map<Ix, V.Allotment>, now: map<Ix, V.Allotment>, view: nat, positions: Positions) {
    forall x :: IsReady(x, view, was, positions) == IsReady(x, view, now, positions)
  }

  lemma RefreshIsSame(allotted: map<Ix, V.Allotment>, view: nat, positions: Positions, ix: Ix)
    requires V.AllottedTo(allotted, ix).propose && V.AllottedTo(allotted, ix).view < view
    ensures SameReady(allotted, allotted[ix := V.Allocate(view, ix.leader, positions, V.AllottedTo(allotted, ix))],
                      view, positions)
  {
    V.RefreshKeepsReady(view, ix.leader, positions, V.AllottedTo(allotted, ix));
  }
}
