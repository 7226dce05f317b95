/** What a pass takes in, and that what it takes in is returned. */
module Intake {
  import opened Foundation
  import opened Interactions
  import opened Batches
  import opened Placement
  import opened Merging

  /******* One interaction *******/

  /** The participant is neither created by the interaction nor left unlocked. */
  predicate LockedBy(ix: Ix, id: Identifier) {
    id in ix.participants && ix.participants[id].lock != NoLock && !ix.participants[id].isGenesis
  }

  /** One interaction more in batch `m`: its locked participants are looked up there and bring their hashes. */
  ghost predicate JoinedAt(p: Pass, r: Pass, m: nat, ix: Ix, nodes: map<Identifier, Hash>)
    requires m < |r.batches|
  {
    && r.acquirer == p.acquirer && r.held == p.held
    && (forall id :: id in r.lookup <==> id in p.lookup || LockedBy(ix, id))
    && (forall id :: id in r.lookup ==> r.lookup[id] == if LockedBy(ix, id) then m else p.lookup[id])
    && (forall h :: h in r.batches[m].hashes <==>
          || (m < |p.batches| && h in p.batches[m].hashes)
          || exists id :: id in nodes && LockedBy(ix, id) && nodes[id] == h)
  }

  /** An interaction joins the batch all its looked-up participants are in exactly if that has at most a
      hundred interactions. */
  lemma JoinsItsBatch(p: Pass, ix: Ix, nodes: map<Identifier, Hash>, m: nat)
    requires LookupBounded(p) && m < |p.batches| && (exists id :: id in ix.participants && id in p.lookup)
    requires forall id :: id in ix.participants && id in p.lookup ==> p.lookup[id] == m
    ensures AddIx(p, ix, nodes).Some? <==> |p.batches[m].ixs| <= 100
    ensures AddIx(p, ix, nodes).Some? ==>
              var r := AddIx(p, ix, nodes).value;
              && |r.batches| == |p.batches| && r.batches[m].ixs == p.batches[m].ixs + [ix]
              && (forall i :: 0 <= i < |p.batches| && i != m ==> r.batches[i] == p.batches[i])
              && JoinedAt(p, r, m, ix, nodes)
  {
    assert FindBatch(p.lookup, ix) == At(m);
  }

  /** Without a looked-up participant it opens a batch. */
  lemma OpensBatch(p: Pass, ix: Ix, nodes: map<Identifier, Hash>)
    requires LookupBounded(p) && forall id :: id in ix.participants ==> id !in p.lookup
    ensures AddIx(p, ix, nodes).Some?
    ensures var r := AddIx(p, ix, nodes).value;
            && |r.batches| == |p.batches| + 1 && r.batches[|p.batches|].ixs == [ix]
            && (forall i :: 0 <= i < |p.batches| ==> r.batches[i] == p.batches[i])
            && JoinedAt(p, r, |p.batches|, ix, nodes)
  {
    assert FindBatch(p.lookup, ix) == NotFound;
  }

  /** With participants in two batches it is left out. */
  lemma StaysOut(p: Pass, ix: Ix, nodes: map<Identifier, Hash>, a: Identifier, b: Identifier)
    requires LookupBounded(p) && a in ix.participants && b in ix.participants && a in p.lookup && b in p.lookup
    requires p.lookup[a] != p.lookup[b]
    ensures AddIx(p, ix, nodes).None?
  {
    assert FindBatch(p.lookup, ix) == Conflict;
  }

  /** A leader may acquire what an interaction locks: nobody bound elsewhere, every unbound one's hash known,
      and with the newcomers at most four hashes. */
  lemma EligibleIff(p: Pass, ix: Ix, nodes: map<Identifier, Hash>, newcomers: set<Identifier>)
    requires forall id :: id in newcomers <==>
               LockedBy(ix, id) && id !in p.acquirer && id in nodes
               && (ix.leader in p.held ==> nodes[id] !in p.held[ix.leader])
    ensures Eligible(p, ix, nodes) <==>
            && (forall id :: LockedBy(ix, id) && id in p.acquirer ==> p.acquirer[id] == ix.leader)
            && (forall id :: LockedBy(ix, id) && id !in p.acquirer ==> id in nodes)
            && (if ix.leader in p.held then |p.held[ix.leader]| else 0) + |newcomers| <= 4
  {
    assert newcomers == Newcomers(p, ix, nodes);
  }

  /** It then binds exactly these and holds exactly their hashes besides. */
  lemma AcquiresLocked(p: Pass, ix: Ix, nodes: map<Identifier, Hash>)
    ensures var r := Acquire(p, ix, nodes);
            && r.batches == p.batches && r.lookup == p.lookup
            && (forall id :: id in r.acquirer <==> id in p.acquirer || LockedBy(ix, id))
            && (forall id :: id in r.acquirer ==>
                  r.acquirer[id] == if LockedBy(ix, id) then ix.leader else p.acquirer[id])
            && (forall l :: l in r.held <==> l in p.held || l == ix.leader)
            && (forall l :: l in p.held && l != ix.leader ==> r.held[l] == p.held[l])
            && (forall h :: h in r.held[ix.leader] <==>
                  || (ix.leader in p.held && h in p.held[ix.leader])
                  || exists id :: id in nodes && LockedBy(ix, id) && nodes[id] == h)
  {
  }

  /** Where an interaction belongs: the batch all its looked-up participants are in, or a new one. */
  ghost predicate BelongsAt(p: Pass, ix: Ix, m: nat) {
    && m <= |p.batches|
    && (m < |p.batches| ==> exists id :: id in ix.participants && id in p.lookup)
    && (forall id :: id in ix.participants && id in p.lookup ==> m < |p.batches| && p.lookup[id] == m)
  }

  /** An eligible and ready interaction is appended where it belongs, unless that batch has more than a
      hundred; what it locks is bound and looked up. */
  lemma TurnTakes(p: Pass, ix: Ix, nodes: map<Identifier, Hash>, ready: set<Ix>, m: nat)
    requires LookupBounded(p) && Eligible(p, ix, nodes) && ix in ready && BelongsAt(p, ix, m)
    ensures var r := Schedule(p, ix, nodes, ready);
            && (r.added <==> m == |p.batches| || |p.batches[m].ixs| <= 100)
            && (r.added ==> Appended(p.batches, r.pass.batches, m, ix))
            && r.pass.acquirer == Acquire(p, ix, nodes).acquirer && r.pass.held == Acquire(p, ix, nodes).held
            && (r.added ==> forall id :: id in r.pass.lookup <==> id in p.lookup || LockedBy(ix, id))
            && (r.added ==> forall id :: id in r.pass.lookup ==>
                              r.pass.lookup[id] == if LockedBy(ix, id) then m else p.lookup[id])
  {
    var q := Acquire(p, ix, nodes);
    if m < |p.batches| {
      JoinsItsBatch(q, ix, nodes, m);
    } else {
      OpensBatch(q, ix, nodes);
    }
    hide Eligible, AddIx, HashesOf;
  }

  /** One that is not eligible changes nothing, and one that is not ready is only bound. */
  lemma TurnRefuses(p: Pass, ix: Ix, nodes: map<Identifier, Hash>, ready: set<Ix>)
    requires LookupBounded(p) && (!Eligible(p, ix, nodes) || ix !in ready)
    ensures var r := Schedule(p, ix, nodes, ready);
            && !r.added && r.pass.batches == p.batches && r.pass.lookup == p.lookup
            && (!Eligible(p, ix, nodes) ==> r.pass == p)
            && (Eligible(p, ix, nodes) ==>
                  forall id :: LockedBy(ix, id) ==> id in r.pass.acquirer && r.pass.acquirer[id] == ix.leader)
  {
    AcquiresLocked(p, ix, nodes);
    hide Eligible, Acquire;
  }

  /******* One lane *******/

  /** A lane whose interactions lock their sender and have no other participant, under one leader. */
  predicate OwnLane(lane: Lane, nodes: map<Identifier, Hash>) {
    && lane.ixs != [] && lane.key.0 in nodes
    && forall x :: x in lane.ixs ==>
         && x.participants.Keys == {lane.key.0} && LockedBy(x, lane.key.0) && x.leader == lane.ixs[0].leader
  }

  function LeaderOf(lane: Lane): Identifier
    requires lane.ixs != []
  {
    lane.ixs[0].leader
  }

  /** The pass has not met the lane's sender, and its leader can hold the sender's hash. */
  predicate Untouched(p: Pass, lane: Lane, nodes: map<Identifier, Hash>)
    requires OwnLane(lane, nodes)
  {
    && lane.key.0 !in p.lookup && lane.key.0 !in p.acquirer
    && (LeaderOf(lane) in p.held ==>
          nodes[lane.key.0] in p.held[LeaderOf(lane)] || |p.held[LeaderOf(lane)]| < 4)
  }

  /** The first `n` interactions of the lane make up batch `home`, and the sender is bound and found there. */
  predicate TakenUpTo(p: Pass, lane: Lane, n: nat, home: nat, nodes: map<Identifier, Hash>)
    requires OwnLane(lane, nodes)
  {
    && n <= |lane.ixs| && home < |p.batches| && p.batches[home].ixs == lane.ixs[..n]
    && lane.key.0 in p.lookup && p.lookup[lane.key.0] == home
    && lane.key.0 in p.acquirer && p.acquirer[lane.key.0] == LeaderOf(lane)
  }

  /** Nothing but the lane's sender, its leader and its batch has changed. */
  ghost predicate OnlyOwn(p: Pass, r: Pass, lane: Lane, home: nat)
    requires lane.ixs != []
  {
    && (forall id :: id != lane.key.0 ==>
          (id in r.lookup <==> id in p.lookup) && (id in r.acquirer <==> id in p.acquirer))
    && (forall id :: id in p.held && id != LeaderOf(lane) ==> id in r.held && r.held[id] == p.held[id])
    && (forall id :: id in r.held && id != LeaderOf(lane) ==> id in p.held)
    && |p.batches| <= |r.batches| && (forall i :: 0 <= i < |p.batches| && i != home ==> r.batches[i] == p.batches[i])
    && |r.batches| == (if home < |p.batches| then |p.batches| else |p.batches| + 1)
  }

  lemma OwnLocks(lane: Lane, n: nat, nodes: map<Identifier, Hash>)
    requires OwnLane(lane, nodes) && n < |lane.ixs|
    ensures forall id :: LockedBy(lane.ixs[n], id) <==> id == lane.key.0
    ensures lane.ixs[n].participants.Keys == {lane.key.0} && lane.ixs[n].leader == LeaderOf(lane)
  {
    assert lane.ixs[n] in lane.ixs;
    assert forall id :: id in lane.ixs[n].participants <==> id in lane.ixs[n].participants.Keys;
  }

  lemma FirstIsEligible(p: Pass, lane: Lane, nodes: map<Identifier, Hash>)
    requires PassInv(p, nodes) && OwnLane(lane, nodes) && Untouched(p, lane, nodes)
    ensures Eligible(p, lane.ixs[0], nodes) && BelongsAt(p, lane.ixs[0], |p.batches|)
  {
    var ix, s, l := lane.ixs[0], lane.key.0, LeaderOf(lane);
    OwnLocks(lane, 0, nodes);
    HeldAreFew(p, nodes);
    var newcomers := if l in p.held && nodes[s] in p.held[l] then {} else {s};
    EligibleIff(p, ix, nodes, newcomers);
    hide Eligible, PassInv;
    assert |newcomers| <= 1;
    assert forall id :: id in ix.participants ==> id == s;
  }

  lemma HeldAreFew(p: Pass, nodes: map<Identifier, Hash>)
    requires PassInv(p, nodes)
    ensures LookupBounded(p) && forall l :: l in p.held ==> |p.held[l]| <= 4
  {
  }

  lemma NextIsEligible(p: Pass, lane: Lane, n: nat, home: nat, nodes: map<Identifier, Hash>)
    requires PassInv(p, nodes) && OwnLane(lane, nodes) && n < |lane.ixs| && TakenUpTo(p, lane, n, home, nodes)
    ensures Eligible(p, lane.ixs[n], nodes) && BelongsAt(p, lane.ixs[n], home)
  {
    var ix, s, l := lane.ixs[n], lane.key.0, LeaderOf(lane);
    OwnLocks(lane, n, nodes);
    HeldAreFew(p, nodes);
    EligibleIff(p, ix, nodes, {});
    hide Eligible, PassInv;
    assert s in ix.participants;
  }

  /** The pass before the lane's `n`-th interaction. */
  predicate Walking(p: Pass, lane: Lane, n: nat, home: nat, nodes: map<Identifier, Hash>)
    requires OwnLane(lane, nodes)
  {
    if n == 0 then Untouched(p, lane, nodes) && home == |p.batches| else TakenUpTo(p, lane, n, home, nodes)
  }

  lemma WalkingIsEligible(p: Pass, lane: Lane, n: nat, home: nat, nodes: map<Identifier, Hash>)
    requires PassInv(p, nodes) && OwnLane(lane, nodes) && n < |lane.ixs| && Walking(p, lane, n, home, nodes)
    ensures LookupBounded(p) && Eligible(p, lane.ixs[n], nodes) && BelongsAt(p, lane.ixs[n], home)
    ensures home <= |p.batches| && (home < |p.batches| <==> n > 0)
    ensures home < |p.batches| ==> p.batches[home].ixs == lane.ixs[..n]
  {
    HeldAreFew(p, nodes);
    if n == 0 {
      FirstIsEligible(p, lane, nodes);
    } else {
      NextIsEligible(p, lane, n, home, nodes);
    }
    hide PassInv, Eligible, BelongsAt;
  }

  /** A turn on the lane's `n`-th interaction, at most the hundred and first of its batch, takes it. */
  lemma TurnTakesOwn(p: Pass, lane: Lane, n: nat, home: nat, nodes: map<Identifier, Hash>, ready: set<Ix>)
    requires PassInv(p, nodes) && OwnLane(lane, nodes) && n < |lane.ixs| <= 101 && lane.ixs[n] in ready
    requires Walking(p, lane, n, home, nodes)
    ensures LookupBounded(p)
    ensures var r := Schedule(p, lane.ixs[n], nodes, ready);
            r.added && TakenUpTo(r.pass, lane, n + 1, home, nodes)
  {
    hide PassInv, Eligible, Schedule, Acquire, BelongsAt, LookupBounded, LockedBy, Untouched;
    WalkingIsEligible(p, lane, n, home, nodes);
    OwnLocks(lane, n, nodes);
    TurnTakes(p, lane.ixs[n], nodes, ready, home);
    AcquiresLocked(p, lane.ixs[n], nodes);
    assert lane.ixs[..n + 1] == lane.ixs[..n] + [lane.ixs[n]];
  }

  lemma TurnTouchesOwn(p: Pass, lane: Lane, n: nat, home: nat, nodes: map<Identifier, Hash>, ready: set<Ix>)
    requires PassInv(p, nodes) && OwnLane(lane, nodes) && n < |lane.ixs| <= 101 && lane.ixs[n] in ready
    requires Walking(p, lane, n, home, nodes)
    ensures LookupBounded(p) && OnlyOwn(p, Schedule(p, lane.ixs[n], nodes, ready).pass, lane, home)
  {
    hide PassInv, Eligible, Schedule, Acquire, BelongsAt, LookupBounded, LockedBy, Untouched;
    WalkingIsEligible(p, lane, n, home, nodes);
    OwnLocks(lane, n, nodes);
    TurnTakes(p, lane.ixs[n], nodes, ready, home);
    AcquiresLocked(p, lane.ixs[n], nodes);
    hide TakenUpTo, OwnLane;
  }

  lemma OnlyOwnTwice(p: Pass, q: Pass, r: Pass, lane: Lane, home: nat)
    requires lane.ixs != [] && OnlyOwn(p, q, lane, home) && OnlyOwn(q, r, lane, home)
    requires home < |q.batches| && home <= |p.batches|
    ensures OnlyOwn(p, r, lane, home)
  {
  }

  lemma WalksOn(p: Pass, lane: Lane, n: nat, home: nat, nodes: map<Identifier, Hash>, ready: set<Ix>) returns (q: Pass)
    requires PassInv(p, nodes) && OwnLane(lane, nodes) && n < |lane.ixs| <= 101 && lane.ixs[n] in ready
    requires Walking(p, lane, n, home, nodes)
    ensures PassInv(q, nodes) && Walking(q, lane, n + 1, home, nodes) && OnlyOwn(p, q, lane, home)
    ensures home <= |p.batches| && home < |q.batches|
    ensures RunLane(p, lane, n, nodes, ready) == RunLane(q, lane, n + 1, nodes, ready)
  {
    hide PassInv, OwnLane, Untouched, OnlyOwn, Schedule;
    TurnTakesOwn(p, lane, n, home, nodes, ready);
    TurnTouchesOwn(p, lane, n, home, nodes, ready);
    ScheduleKeeps(p, lane.ixs[n], nodes, ready);
    q := Schedule(p, lane.ixs[n], nodes, ready).pass;
  }

  /** The lane's walk takes in all of it. */
  lemma {:induction false} LaneIsTaken(p: Pass, lane: Lane, n: nat, home: nat, nodes: map<Identifier, Hash>,
                                       ready: set<Ix>)
    requires PassInv(p, nodes) && OwnLane(lane, nodes) && n <= |lane.ixs| <= 101
    requires Walking(p, lane, n, home, nodes) && forall x :: x in lane.ixs ==> x in ready
    ensures var r := RunLane(p, lane, n, nodes, ready);
            TakenUpTo(r, lane, |lane.ixs|, home, nodes) && OnlyOwn(p, r, lane, home)
    decreases |lane.ixs| - n
  {
    hide PassInv, Untouched, OnlyOwn, Schedule;
    if n < |lane.ixs| {
      hide OwnLane, RunLane, TakenUpTo, Walking;
      var q := WalksOn(p, lane, n, home, nodes, ready);
      LaneIsTaken(q, lane, n + 1, home, nodes, ready);
      OnlyOwnTwice(p, q, RunLane(p, lane, n, nodes, ready), lane, home);
    } else {
      NothingChanged(p, lane, home);
    }
  }

  lemma NothingChanged(p: Pass, lane: Lane, home: nat)
    requires lane.ixs != [] && home < |p.batches|
    ensures OnlyOwn(p, p, lane, home)
  {
  }

  /******* A whole pass *******/

  /** Lanes of different senders under different leaders. */
  predicate Apart(lanes: seq<Lane>, nodes: map<Identifier, Hash>) {
    && (forall i :: 0 <= i < |lanes| ==> OwnLane(lanes[i], nodes))
    && (forall i, j :: 0 <= i < j < |lanes| ==>
          lanes[i].key.0 != lanes[j].key.0 && LeaderOf(lanes[i]) != LeaderOf(lanes[j]))
  }

  /** Nothing of the lanes has been met. */
  predicate AllUntouched(p: Pass, lanes: seq<Lane>, nodes: map<Identifier, Hash>)
    requires Apart(lanes, nodes)
  {
    forall i :: 0 <= i < |lanes| ==>
      lanes[i].key.0 !in p.lookup && lanes[i].key.0 !in p.acquirer && LeaderOf(lanes[i]) !in p.held
  }

  /** The lanes in full, each as a batch, in order, behind the batches there were. */
  predicate InFull(was: seq<Batch>, now: seq<Batch>, lanes: seq<Lane>) {
    && |now| == |was| + |lanes|
    && (forall i :: 0 <= i < |was| ==> now[i] == was[i])
    && (forall i :: 0 <= i < |lanes| ==> now[|was| + i].ixs == lanes[i].ixs)
  }

  lemma FirstInFull(p: Pass, lanes: seq<Lane>, nodes: map<Identifier, Hash>, ready: set<Ix>)
    requires PassInv(p, nodes) && Apart(lanes, nodes) && AllUntouched(p, lanes, nodes) && lanes != []
    requires |lanes[0].ixs| <= 101 && forall x :: x in lanes[0].ixs ==> x in ready
    ensures var q := RunLane(p, lanes[0], 0, nodes, ready);
            InFull(p.batches, q.batches, lanes[..1]) && Apart(lanes[1..], nodes) && AllUntouched(q, lanes[1..], nodes)
  {
    hide PassInv;
    var lane := lanes[0];
    LaneIsTaken(p, lane, 0, |p.batches|, nodes, ready);
    assert lane.ixs[..|lane.ixs|] == lane.ixs;
    RestUntouched(p, RunLane(p, lane, 0, nodes, ready), lanes, nodes);
    hide OwnLane, RunLane, Apart, AllUntouched;
  }

  lemma InFullTwice(a: seq<Batch>, b: seq<Batch>, c: seq<Batch>, lanes: seq<Lane>)
    requires lanes != [] && InFull(a, b, lanes[..1]) && InFull(b, c, lanes[1..])
    ensures InFull(a, c, lanes)
  {
    forall i | 0 <= i < |lanes|
      ensures c[|a| + i].ixs == lanes[i].ixs
    {
      if i > 0 {
        assert c[|b| + (i - 1)].ixs == lanes[1..][i - 1].ixs;
      } else {
        assert b[|a| + 0].ixs == lanes[..1][0].ixs;
      }
    }
  }

  /** A pass takes in every ready lane of its own in full, each as a batch, in order. */
  lemma {:induction false} PassTakesAll(p: Pass, lanes: seq<Lane>, nodes: map<Identifier, Hash>, ready: set<Ix>)
    requires PassInv(p, nodes) && Apart(lanes, nodes) && AllUntouched(p, lanes, nodes)
    requires forall i :: 0 <= i < |lanes| ==> |lanes[i].ixs| <= 101
    requires forall i, x :: 0 <= i < |lanes| && x in lanes[i].ixs ==> x in ready
    ensures InFull(p.batches, RunLanes(p, lanes, nodes, ready).batches, lanes)
    decreases |lanes|
  {
    hide PassInv, Apart, AllUntouched;
    if lanes != [] {
      var rest := lanes[1..];
      FirstInFull(p, lanes, nodes, ready);
      RunLaneKeeps(p, lanes[0], 0, nodes, ready);
      var q := RunLane(p, lanes[0], 0, nodes, ready);
      assert forall i :: 0 <= i < |rest| ==> rest[i] == lanes[i + 1];
      PassTakesAll(q, rest, nodes, ready);
      InFullTwice(p.batches, q.batches, RunLanes(q, rest, nodes, ready).batches, lanes);
    }
  }

  lemma RestUntouched(p: Pass, q: Pass, lanes: seq<Lane>, nodes: map<Identifier, Hash>)
    requires lanes != [] && Apart(lanes, nodes) && AllUntouched(p, lanes, nodes) && OnlyOwn(p, q, lanes[0], |p.batches|)
    ensures Apart(lanes[1..], nodes) && AllUntouched(q, lanes[1..], nodes)
  {
    assert forall i :: 0 <= i < |lanes| - 1 ==> lanes[1..][i] == lanes[i + 1];
  }

  /******* What is taken in comes back *******/

  predicate WithinAt(part: seq<Ix>, whole: seq<Ix>, at: nat) {
    at + |part| <= |whole| && whole[at..at + |part|] == part
  }

  /** The list stands in the other without a gap, in order. */
  ghost predicate Within(part: seq<Ix>, whole: seq<Ix>) {
    exists at: nat :: WithinAt(part, whole, at)
  }

  lemma WithinTwice(a: seq<Ix>, b: seq<Ix>, c: seq<Ix>)
    requires Within(a, b) && Within(b, c)
    ensures Within(a, c)
  {
    var i: nat, j: nat :| WithinAt(a, b, i) && WithinAt(b, c, j);
    forall k | 0 <= k < |a|
      ensures c[j + i..j + i + |a|][k] == a[k]
    {
      assert c[j..j + |b|][i + k] == b[i..i + |a|][k];
    }
    assert WithinAt(a, c, j + i);
  }

  predicate NoneAbove(batches: seq<Batch>, size: nat) {
    forall i :: 0 <= i < |batches| ==> |batches[i].ixs| <= size
  }

  /** Two lists that fit together are joined whole. */
  lemma JoinedWhole(a: Batch, b: Batch, now: Batch, left: Batch, nodes: map<Identifier, Hash>)
    requires Joined(a, b, now, left, nodes) && |a.ixs| + |b.ixs| <= 101
    ensures Within(a.ixs, now.ixs) && Within(b.ixs, now.ixs) && |now.ixs| == |a.ixs| + |b.ixs| && left.ixs == []
  {
    var m: nat :| m <= |b.ixs| && JoinedUpTo(a, b, now, m, nodes);
    assert b.ixs[..m] == b.ixs;
    assert WithinAt(a.ixs, now.ixs, 0) && WithinAt(b.ixs, now.ixs, |a.ixs|);
  }

  lemma PairWhole(was: seq<Batch>, now: seq<Batch>, places: seq<nat>, pairs: nat, nodes: map<Identifier, Hash>,
                  size: nat, u: nat)
    returns (t: nat)
    requires 2 * pairs <= |places| && (forall t :: 0 <= t < |places| ==> places[t] < |was|)
    requires PairedAlong(was, now, places, pairs, nodes) && NoneAbove(was, size) && 2 * size <= 101 && u < 2 * pairs
    ensures |now| == |was| && t < |now| && Within(was[places[u]].ixs, now[t].ixs) && |now[places[u]].ixs| <= 2 * size
  {
    hide Within, Joined;
    var h := u / 2;
    var a, b := places[2 * h], places[2 * h + 1];
    assert places[u] == a || places[u] == b;
    assert Joined(was[a], was[b], now[a], now[b], nodes);
    JoinedWhole(was[a], was[b], now[a], now[b], nodes);
    t := a;
  }

  lemma PairedWhole(was: seq<Batch>, now: seq<Batch>, count: nat, nodes: map<Identifier, Hash>, size: nat, k: nat)
    returns (t: nat)
    requires Paired(was, now, count, nodes) && NoneAbove(was, size) && 2 * size <= 101 && k < |was|
    ensures |now| == |was| && t < |now| && Within(was[k].ixs, now[t].ixs) && |now[k].ixs| <= 2 * size
  {
    var places: seq<nat>, pairs: nat :|
      && PlacesOf(was, 0, count, places) && 2 * pairs <= |places| && pairs <= 20
      && (pairs < 20 ==> |places| < 2 * pairs + 2)
      && PairedAlong(was, now, places, pairs, nodes);
    hide Within, Joined;
    if k in places[..2 * pairs] {
      hide PairedAlong;
      var u: nat :| u < 2 * pairs && places[..2 * pairs][u] == k;
      t := PairWhole(was, now, places, pairs, nodes, size, u);
    } else {
      t := k;
      WithinItself(was[k].ixs);
    }
  }

  lemma WithinItself(a: seq<Ix>)
    ensures Within(a, a)
  {
    assert WithinAt(a, a, 0);
  }

  lemma PairedSizes(was: seq<Batch>, now: seq<Batch>, count: nat, nodes: map<Identifier, Hash>, size: nat)
    requires Paired(was, now, count, nodes) && NoneAbove(was, size) && 2 * size <= 101
    ensures |now| == |was| && NoneAbove(now, 2 * size)
  {
    hide Paired;
    SameCount(was, now, count, nodes);
    forall k | 0 <= k < |now|
      ensures |now[k].ixs| <= 2 * size
    {
      var t := PairedWhole(was, now, count, nodes, size, k);
    }
  }

  lemma SameCount(was: seq<Batch>, now: seq<Batch>, count: nat, nodes: map<Identifier, Hash>)
    requires Paired(was, now, count, nodes)
    ensures |now| == |was|
  {
  }

  /** With at most twenty batches of at most twenty-five interactions, each batch of a pass comes back whole. */
  lemma BatchesComeBack(batches: seq<Batch>, nodes: map<Identifier, Hash>, result: seq<Batch>, k: nat) returns (t: nat)
    requires Chosen(batches, nodes, result) && |batches| <= 20 && NoneAbove(batches, 25)
    requires k < |batches| && batches[k].ixs != []
    ensures t < |result| && Within(batches[k].ixs, result[t].ixs)
  {
    hide Chosen, Paired, Within, Sorted;
    var sorted, order, once, twice, sel := ChosenPairs(batches, nodes, result);
    var s := Reached(order, k);
    PairedSizes(sorted, once, 1, nodes, 25);
    var o := PairedWhole(sorted, once, 1, nodes, 25, s);
    PairedSizes(once, twice, 2, nodes, 50);
    var w := PairedWhole(once, twice, 2, nodes, 50, o);
    WithinTwice(batches[k].ixs, once[o].ixs, twice[w].ixs);
    NotEmpty(batches[k].ixs, twice[w].ixs);
    t := PlaceInSelection(twice, result, sel, w);
  }

  lemma NotEmpty(a: seq<Ix>, b: seq<Ix>)
    requires Within(a, b) && a != []
    ensures b != []
  {
  }

  lemma PlaceInSelection(batches: seq<Batch>, result: seq<Batch>, sel: seq<nat>, k: nat) returns (t: nat)
    requires SelectedFrom(batches, result, sel) && k < |batches| <= 20 && |result| <= 20
    requires |result| < 20 ==> k in sel
    ensures t < |result| && result[t] == batches[k]
  {
    if |result| < 20 {
      t :| t < |sel| && sel[t] == k;
    } else {
      FewerThan(sel, |batches|);
      t := Reached(sel, k);
    }
  }

  lemma FewerThan(sel: seq<nat>, n: nat)
    requires (forall i :: 0 <= i < |sel| ==> sel[i] < n) && forall i, j :: 0 <= i < j < |sel| ==> sel[i] != sel[j]
    ensures |sel| <= n
  {
    AllDifferent(sel);
    SubsetCount(Elements(sel), Numbers(n));
  }

  lemma FromNothing(batches: seq<Batch>, lanes: seq<Lane>)
    requires InFull([], batches, lanes)
    ensures |batches| == |lanes| && forall i :: 0 <= i < |batches| ==> batches[i].ixs == lanes[i].ixs
  {
    var none: seq<Batch> := [];
    forall i | 0 <= i < |batches|
      ensures batches[i].ixs == lanes[i].ixs
    {
      assert batches[|none| + i].ixs == lanes[i].ixs;
    }
  }

  /** A pass over at most twenty ready lanes of their own, of at most twenty-five interactions each, returns every
      lane whole and in order in one batch. */
  lemma LanesComeBack(lanes: seq<Lane>, nodes: map<Identifier, Hash>, ready: set<Ix>, result: seq<Batch>, j: nat)
    returns (t: nat)
    requires Chosen(RunLanes(NewPass(), lanes, nodes, ready).batches, nodes, result)
    requires Apart(lanes, nodes) && |lanes| <= 20 && (forall i :: 0 <= i < |lanes| ==> |lanes[i].ixs| <= 25)
    requires j < |lanes| && forall i, x :: 0 <= i < |lanes| && x in lanes[i].ixs ==> x in ready
    ensures t < |result| && Within(lanes[j].ixs, result[t].ixs)
  {
    hide Chosen, Within, RunLanes, LockedBy;
    var p := RunLanes(NewPass(), lanes, nodes, ready);
    PassTakesAll(NewPass(), lanes, nodes, ready);
    FromNothing(p.batches, lanes);
    assert OwnLane(lanes[j], nodes);
    t := BatchesComeBack(p.batches, nodes, result, j);
  }

  /** A ready lane of at most a hundred and one interactions that lock their sender and nothing else, walked alone,
      comes back in full as the only batch. */
  lemma LaneComesBack(lane: Lane, nodes: map<Identifier, Hash>, ready: set<Ix>, result: seq<Batch>)
    requires Chosen(RunLanes(NewPass(), [lane], nodes, ready).batches, nodes, result)
    requires OwnLane(lane, nodes) && |lane.ixs| <= 101 && forall x :: x in lane.ixs ==> x in ready
    ensures result == [Batch(lane.ixs, {nodes[lane.key.0]})]
  {
    var p := RunLanes(NewPass(), [lane], nodes, ready);
    PassTakesAll(NewPass(), [lane], nodes, ready);
    FromNothing(p.batches, [lane]);
    ReturnedAreDisjoint([lane], nodes, ready, result);
    hide RunLanes, PassInv, Chosen, DisjointLocks;
    OnlyBatchComesBack(p.batches, nodes, result);
    SpansOwn(lane, nodes);
  }

  lemma SpansOwn(lane: Lane, nodes: map<Identifier, Hash>)
    requires OwnLane(lane, nodes)
    ensures Spanned(lane.ixs, nodes) == {nodes[lane.key.0]}
  {
    assert lane.ixs[0] in lane.ixs;
    forall x | x in lane.ixs
      ensures LockedIds(x) == {lane.key.0}
    {
      assert forall id :: id in x.participants <==> id in x.participants.Keys;
    }
  }

  lemma OnlyBatchComesBack(batches: seq<Batch>, nodes: map<Identifier, Hash>, result: seq<Batch>)
    requires Chosen(batches, nodes, result) && |batches| == 1 && batches[0].ixs != []
    ensures result == batches
  {
    hide Chosen, Sorted;
    var sorted, order, once, twice, sel := ChosenPairs(batches, nodes, result);
    OnlyBatchStays(sorted, once, 1, nodes);
    OnlyBatchStays(once, twice, 2, nodes);
    FewerThan(sel, 1);
    assert order[0] == 0 && 0 in sel;
  }

  lemma OnlyBatchStays(was: seq<Batch>, now: seq<Batch>, count: nat, nodes: map<Identifier, Hash>)
    requires Paired(was, now, count, nodes) && |was| == 1
    ensures now == was
  {
    var places: seq<nat>, pairs: nat :|
      && PlacesOf(was, 0, count, places) && 2 * pairs <= |places| && pairs <= 20
      && (pairs < 20 ==> |places| < 2 * pairs + 2)
      && PairedAlong(was, now, places, pairs, nodes);
    FewerThan(places, 1);
  }
}
