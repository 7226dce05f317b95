/** Merging and selecting batches, and what that keeps of the pass. */
module Merging {
  import opened Foundation
  import opened Interactions
  import opened Batches
  import opened Placement

  /** Adds a list to a batch; what no longer fits is left behind. */
  function Absorb(b: Batch, ixs: seq<Ix>, nodes: map<Identifier, Hash>): Batch {
    if ixs == [] then b
    else
      var c := Absorb(b, ixs[..|ixs| - 1], nodes);
      Add(c, ixs[|ixs| - 1], nodes).GetOr(c)
  }

  function MergePair(batches: seq<Batch>, i: nat, j: nat, nodes: map<Identifier, Hash>): (r: seq<Batch>)
    requires i < j < |batches|
    ensures |r| == |batches|
  {
    batches[i := Absorb(batches[i], batches[j].ixs, nodes)][j := Batch([], {})]
  }

  /** The first batch from `from` on with `count` hashes, or the number of batches. */
  function NextWith(batches: seq<Batch>, from: nat, count: nat): (j: nat)
    requires from <= |batches|
    ensures from <= j <= |batches| && (j < |batches| ==> |batches[j].hashes| == count)
    ensures forall i :: from <= i < j ==> |batches[i].hashes| != count
    decreases |batches| - from
  {
    if from == |batches| || |batches[from].hashes| == count then from
    else NextWith(batches, from + 1, count)
  }

  datatype Merged = Merged(batches: seq<Batch>, count: nat)

  /** The outer loop from batch `i` on, after `done` merges. */
  function MergeFrom(batches: seq<Batch>, i: nat, count: nat, done: nat, nodes: map<Identifier, Hash>): (r: Merged)
    ensures |r.batches| == |batches| && r.count >= done
    decreases |batches| - i
  {
    if i >= |batches| then Merged(batches, done)
    else if |batches[i].hashes| != count then MergeFrom(batches, i + 1, count, done, nodes)
    else
      var j := NextWith(batches, i + 1, count);
      if j == |batches| then Merged(batches, done)
      else
        var merged := MergePair(batches, i, j, nodes);
        if done + 1 == MAX_BATCHES then Merged(merged, done + 1)
        else MergeFrom(merged, i + 1, count, done + 1, nodes)
  }

  /** No participant is locked from two batches. */
  ghost predicate DisjointLocks(batches: seq<Batch>) {
    forall i, j, x, y :: 0 <= i < j < |batches| && x in batches[i].ixs && y in batches[j].ixs ==>
      LockedIds(x) !! LockedIds(y)
  }

  /** At most one batch holds interactions of the lane, and it holds exactly its first `n`, in order. */
  ghost predicate PrefixInOne(batches: seq<Batch>, lane: Lane, n: nat) {
    && n <= |lane.ixs|
    && (forall i :: 0 <= i < |batches| ==>
          Restrict(batches[i].ixs, lane.key) == [] || Restrict(batches[i].ixs, lane.key) == lane.ixs[..n])
    && (forall i, j :: 0 <= i < j < |batches| ==>
          Restrict(batches[i].ixs, lane.key) == [] || Restrict(batches[j].ixs, lane.key) == [])
  }

  predicate Exact(batches: seq<Batch>, nodes: map<Identifier, Hash>) {
    forall i :: 0 <= i < |batches| ==> batches[i].hashes == Spanned(batches[i].ixs, nodes)
  }

  predicate FewHashes(batches: seq<Batch>) {
    forall i :: 0 <= i < |batches| ==> |batches[i].hashes| <= MAX_HASHES
  }

  /** A sub-list: each result is a different one of the batches. */
  predicate SelectedFrom(batches: seq<Batch>, result: seq<Batch>, sel: seq<nat>) {
    && |sel| == |result|
    && (forall i :: 0 <= i < |sel| ==> sel[i] < |batches| && result[i] == batches[sel[i]])
    && (forall i, j :: 0 <= i < j < |sel| ==> sel[i] != sel[j])
  }

  /******* The pass establishes them *******/

  lemma PassIsDisjoint(p: Pass, nodes: map<Identifier, Hash>)
    requires PassInv(p, nodes)
    ensures DisjointLocks(p.batches) && Exact(p.batches, nodes)
  {
    forall i, j, x, y | 0 <= i < j < |p.batches| && x in p.batches[i].ixs && y in p.batches[j].ixs
      ensures LockedIds(x) !! LockedIds(y)
    {
      assert BatchOk(p, i) && BatchOk(p, j);
      forall id | id in LockedIds(x)
        ensures id !in LockedIds(y)
      {
        assert p.lookup[id] == i;
      }
    }
  }

  lemma PlacedInOne(batches: seq<Batch>, lane: Lane, n: nat)
    requires Placed(batches, lane, n)
    ensures PrefixInOne(batches, lane, n)
  {
    var home :| HomeAt(batches, lane, n, home);
  }

  /** No participant is unlocked in one interaction and locked in another. */
  predicate SeparateLocks(all: set<Ix>) {
    forall x, y, id :: x in all && y in all && id in x.participants && id in LockedIds(y) ==> id in LockedIds(x)
  }

  /** All interactions of a batch are known and share their leader. */
  ghost predicate OneLeader(batches: seq<Batch>, all: set<Ix>) {
    && (forall i, x :: 0 <= i < |batches| && x in batches[i].ixs ==> x in all)
    && (forall i, x, y :: 0 <= i < |batches| && x in batches[i].ixs && y in batches[i].ixs ==> x.leader == y.leader)
  }

  /** An interaction joins a batch only under that batch's leader. */
  lemma JoinsItsLeader(p: Pass, ix: Ix, nodes: map<Identifier, Hash>, m: nat, all: set<Ix>)
    requires PassInv(p, nodes) && SeparateLocks(all) && ix in all && OneLeader(p.batches, all)
    requires FindBatch(p.lookup, ix) == At(m) && m < |p.batches|
    requires forall id :: id in LockedIds(ix) ==> id in p.acquirer && p.acquirer[id] == ix.leader
    ensures forall x :: x in p.batches[m].ixs ==> x.leader == ix.leader
  {
    var id :| id in ix.participants && id in p.lookup && p.lookup[id] == m;
    var y :| y in p.batches[m].ixs && id in LockedIds(y);
    assert BatchOk(p, m);
    assert id in LockedIds(ix);
  }

  lemma AppendedOneLeader(was: seq<Batch>, now: seq<Batch>, m: nat, ix: Ix, all: set<Ix>)
    requires Appended(was, now, m, ix) && OneLeader(was, all) && ix in all
    requires m < |was| ==> forall x :: x in was[m].ixs ==> x.leader == ix.leader
    ensures OneLeader(now, all)
  {
    forall i, x, y | 0 <= i < |now| && x in now[i].ixs && y in now[i].ixs
      ensures x in all && x.leader == y.leader
    {
      if i != m {
        assert x in was[i].ixs && y in was[i].ixs;
      } else {
        var before := if m < |was| then was[m].ixs else [];
        assert x in before + [ix] && y in before + [ix];
        assert x in before ==> x in was[m].ixs;
        assert y in before ==> y in was[m].ixs;
      }
    }
  }

  lemma ScheduleOneLeader(p: Pass, ix: Ix, nodes: map<Identifier, Hash>, ready: set<Ix>, all: set<Ix>)
    requires PassInv(p, nodes) && SeparateLocks(all) && ix in all && OneLeader(p.batches, all)
    ensures OneLeader(Schedule(p, ix, nodes, ready).pass.batches, all)
  {
    var r := Schedule(p, ix, nodes, ready);
    if r.added {
      AcquireInv(p, ix, nodes);
      var p1 := Acquire(p, ix, nodes);
      hide PassInv, OneLeader, Appended, AddIx;
      var m := AddAppends(p1, ix, nodes);
      if m < |p1.batches| {
        JoinsItsLeader(p1, ix, nodes, m, all);
      }
      AppendedOneLeader(p.batches, r.pass.batches, m, ix, all);
    }
  }

  lemma {:induction false} RunLaneOneLeader(p: Pass, lane: Lane, n: nat, nodes: map<Identifier, Hash>,
                                            ready: set<Ix>, all: set<Ix>)
    requires PassInv(p, nodes) && n <= |lane.ixs|
    requires SeparateLocks(all) && (forall x :: x in lane.ixs ==> x in all) && OneLeader(p.batches, all)
    ensures OneLeader(RunLane(p, lane, n, nodes, ready).batches, all)
    decreases |lane.ixs| - n
  {
    if n < |lane.ixs| {
      hide SeparateLocks, OneLeader, Schedule;
      ScheduleKeeps(p, lane.ixs[n], nodes, ready);
      ScheduleOneLeader(p, lane.ixs[n], nodes, ready, all);
      var r := Schedule(p, lane.ixs[n], nodes, ready);
      if r.added {
        RunLaneOneLeader(r.pass, lane, n + 1, nodes, ready, all);
      }
    }
  }

  lemma {:induction false} RunLanesOneLeader(p: Pass, lanes: seq<Lane>, nodes: map<Identifier, Hash>,
                                             ready: set<Ix>, all: set<Ix>)
    requires PassInv(p, nodes) && SeparateLocks(all) && OneLeader(p.batches, all)
    requires forall lane, x :: lane in lanes && x in lane.ixs ==> x in all
    ensures OneLeader(RunLanes(p, lanes, nodes, ready).batches, all)
    decreases |lanes|
  {
    if lanes != [] {
      hide SeparateLocks, OneLeader;
      RunLaneKeeps(p, lanes[0], 0, nodes, ready);
      RunLaneOneLeader(p, lanes[0], 0, nodes, ready, all);
      RunLanesOneLeader(RunLane(p, lanes[0], 0, nodes, ready), lanes[1..], nodes, ready, all);
    }
  }

  /** A batch under one leader spans no more hashes than that leader holds. */
  lemma OneLeaderFewHashes(p: Pass, nodes: map<Identifier, Hash>, all: set<Ix>)
    requires PassInv(p, nodes) && OneLeader(p.batches, all)
    ensures FewHashes(p.batches)
  {
    forall i | 0 <= i < |p.batches|
      ensures |p.batches[i].hashes| <= MAX_HASHES
    {
      var b := p.batches[i];
      if b.ixs == [] {
        assert b.hashes == {};
      } else {
        var leader := b.ixs[0].leader;
        assert BatchOk(p, i);
        assert b.hashes <= Held(p, leader);
        SubsetCount(b.hashes, Held(p, leader));
      }
    }
  }

  /******* Merging keeps them *******/

  lemma {:induction false} AbsorbIs(b: Batch, ixs: seq<Ix>, nodes: map<Identifier, Hash>) returns (m: nat)
    ensures m <= |ixs| && Absorb(b, ixs, nodes).ixs == b.ixs + ixs[..m]
    ensures Absorb(b, ixs, nodes).hashes == b.hashes + Spanned(ixs[..m], nodes)
    ensures m < |ixs| ==> |b.ixs| + m > 100
    ensures m > 0 ==> |b.ixs| + m <= 101
    decreases |ixs|
  {
    if ixs == [] {
      m := 0;
      assert Spanned([], nodes) == {};
    } else {
      var n := |ixs| - 1;
      m := AbsorbIs(b, ixs[..n], nodes);
      assert ixs[..n][..m] == ixs[..m];
      if |b.ixs| + m <= BATCH_LIMIT {
        SpannedSnoc(ixs[..n], ixs[n], nodes);
        m := n + 1;
        assert ixs[..m] == ixs[..n] + [ixs[n]];
      }
    }
  }

  lemma MergePairDisjoint(batches: seq<Batch>, i: nat, j: nat, nodes: map<Identifier, Hash>)
    requires i < j < |batches| && DisjointLocks(batches) && Exact(batches, nodes)
    ensures DisjointLocks(MergePair(batches, i, j, nodes)) && Exact(MergePair(batches, i, j, nodes), nodes)
  {
    var m := AbsorbIs(batches[i], batches[j].ixs, nodes);
    var r := MergePair(batches, i, j, nodes);
    forall a, b, x, y | 0 <= a < b < |r| && x in r[a].ixs && y in r[b].ixs
      ensures LockedIds(x) !! LockedIds(y)
    {
      var a' := if a == i && x !in batches[i].ixs then j else a;
      var b' := if b == i && y !in batches[i].ixs then j else b;
      assert x in batches[a'].ixs && y in batches[b'].ixs && a' != b';
    }
    assert Spanned(batches[i].ixs + batches[j].ixs[..m], nodes) ==
           Spanned(batches[i].ixs, nodes) + Spanned(batches[j].ixs[..m], nodes);
  }

  lemma MergePairFew(batches: seq<Batch>, i: nat, j: nat, nodes: map<Identifier, Hash>)
    requires i < j < |batches| && FewHashes(batches) && Exact(batches, nodes)
    requires |batches[i].hashes| + |batches[j].hashes| <= MAX_HASHES
    ensures FewHashes(MergePair(batches, i, j, nodes))
  {
    hide Absorb, Spanned;
    var m := AbsorbIs(batches[i], batches[j].ixs, nodes);
    var h := Spanned(batches[j].ixs[..m], nodes);
    SpannedPrefix(batches[j].ixs, m, nodes);
    SubsetCount(h, batches[j].hashes);
    UnionCount(batches[i].hashes, h);
  }

  lemma SpannedPrefix(ixs: seq<Ix>, m: nat, nodes: map<Identifier, Hash>)
    requires m <= |ixs|
    ensures Spanned(ixs[..m], nodes) <= Spanned(ixs, nodes)
  {
  }

  /** What each batch holds of a lane. */
  function View(batches: seq<Batch>, key: QKey): seq<seq<Ix>> {
    seq(|batches|, i requires 0 <= i < |batches| => Restrict(batches[i].ixs, key))
  }

  ghost predicate PrefixView(view: seq<seq<Ix>>, ixs: seq<Ix>, n: nat) {
    && n <= |ixs|
    && (forall i :: 0 <= i < |view| ==> view[i] == [] || view[i] == ixs[..n])
    && (forall i, j :: 0 <= i < j < |view| ==> view[i] == [] || view[j] == [])
  }

  lemma PrefixIsView(batches: seq<Batch>, lane: Lane, n: nat)
    ensures PrefixInOne(batches, lane, n) <==> PrefixView(View(batches, lane.key), lane.ixs, n)
  {
    var view := View(batches, lane.key);
    assert forall i :: 0 <= i < |view| ==> view[i] == Restrict(batches[i].ixs, lane.key);
    hide Restrict;
    if PrefixView(view, lane.ixs, n) {
      forall i, j | 0 <= i < j < |batches|
        ensures Restrict(batches[i].ixs, lane.key) == [] || Restrict(batches[j].ixs, lane.key) == []
      {
        assert view[i] == [] || view[j] == [];
      }
    }
  }

  lemma MergeView(view: seq<seq<Ix>>, i: nat, j: nat, m: nat, ixs: seq<Ix>, n: nat) returns (n': nat)
    requires i < j < |view| && PrefixView(view, ixs, n) && m <= |view[j]|
    ensures PrefixView(view[i := view[i] + view[j][..m]][j := []], ixs, n')
  {
    var r := view[i := view[i] + view[j][..m]][j := []];
    if view[j] == [] {
      n' := n;
      assert r[i] == view[i];
    } else {
      n' := m;
      assert view[i] == [] && r[i] == ixs[..m];
      assert forall k :: 0 <= k < |r| && k != i ==> r[k] == [];
    }
  }

  /** Merging takes at most the tail off a lane's prefix. */
  lemma MergePairPrefix(batches: seq<Batch>, i: nat, j: nat, nodes: map<Identifier, Hash>, lane: Lane, n: nat)
    returns (n': nat)
    requires i < j < |batches| && PrefixInOne(batches, lane, n)
    ensures PrefixInOne(MergePair(batches, i, j, nodes), lane, n')
  {
    var view, r := View(batches, lane.key), MergePair(batches, i, j, nodes);
    var m := MergedView(batches, i, j, nodes, lane.key);
    hide PrefixInOne, PrefixView, View, MergePair;
    PrefixIsView(batches, lane, n);
    n' := MergeView(view, i, j, m, lane.ixs, n);
    PrefixIsView(r, lane, n');
  }

  lemma MergedView(batches: seq<Batch>, i: nat, j: nat, nodes: map<Identifier, Hash>, key: QKey) returns (m: nat)
    requires i < j < |batches|
    ensures var view := View(batches, key);
            && m <= |view[j]|
            && View(MergePair(batches, i, j, nodes), key) == view[i := view[i] + view[j][..m]][j := []]
  {
    var k := AbsorbIs(batches[i], batches[j].ixs, nodes);
    RestrictPrefix(batches[j].ixs, k, key);
    RestrictAppend(batches[i].ixs, batches[j].ixs[..k], key);
    var view, r := View(batches, key), MergePair(batches, i, j, nodes);
    m := |Restrict(batches[j].ixs[..k], key)|;
    assert view[j][..m] == Restrict(batches[j].ixs[..k], key);
    assert r[j].ixs == [];
    var now := view[i := view[i] + view[j][..m]][j := []];
    hide Absorb;
    forall t | 0 <= t < |r|
      ensures View(r, key)[t] == now[t]
    {
      assert t != i && t != j ==> r[t] == batches[t];
    }
  }

  lemma {:induction false} MergeFromKeeps(batches: seq<Batch>, i: nat, count: nat, done: nat,
                                          nodes: map<Identifier, Hash>)
    requires DisjointLocks(batches) && Exact(batches, nodes)
    ensures var r := MergeFrom(batches, i, count, done, nodes).batches;
            DisjointLocks(r) && Exact(r, nodes) && (FewHashes(batches) && 2 * count <= MAX_HASHES ==> FewHashes(r))
    decreases |batches| - i
  {
    hide DisjointLocks, Exact, FewHashes, MergePair;
    if i >= |batches| {
    } else if |batches[i].hashes| != count {
      MergeFromKeeps(batches, i + 1, count, done, nodes);
    } else {
      var j := NextWith(batches, i + 1, count);
      if j < |batches| {
        var merged := MergePair(batches, i, j, nodes);
        MergePairDisjoint(batches, i, j, nodes);
        if FewHashes(batches) && 2 * count <= MAX_HASHES {
          MergePairFew(batches, i, j, nodes);
        }
        if done + 1 != MAX_BATCHES {
          MergeFromKeeps(merged, i + 1, count, done + 1, nodes);
        }
      }
    }
  }

  lemma {:induction false} MergeFromPrefix(batches: seq<Batch>, i: nat, count: nat, done: nat,
                                           nodes: map<Identifier, Hash>, lane: Lane, n: nat) returns (n': nat)
    requires PrefixInOne(batches, lane, n)
    ensures PrefixInOne(MergeFrom(batches, i, count, done, nodes).batches, lane, n')
    decreases |batches| - i
  {
    hide PrefixInOne, MergePair;
    n' := n;
    if i >= |batches| {
    } else if |batches[i].hashes| != count {
      n' := MergeFromPrefix(batches, i + 1, count, done, nodes, lane, n);
    } else {
      var j := NextWith(batches, i + 1, count);
      if j < |batches| {
        n' := MergePairPrefix(batches, i, j, nodes, lane, n);
        if done + 1 != MAX_BATCHES {
          n' := MergeFromPrefix(MergePair(batches, i, j, nodes), i + 1, count, done + 1, nodes, lane, n');
        }
      }
    }
  }

  /******* What is merged *******/

  /** The places of the batches with `count` hashes from `from` on, in order. */
  predicate PlacesOf(batches: seq<Batch>, from: nat, count: nat, places: seq<nat>) {
    && (forall t :: 0 <= t < |places| ==> from <= places[t] < |batches| && |batches[places[t]].hashes| == count)
    && (forall t, u :: 0 <= t < u < |places| ==> places[t] < places[u])
    && (forall k: nat {:trigger k in places} :: from <= k < |batches| && |batches[k].hashes| == count ==> k in places)
  }

  /** One batch takes in the interactions of another in order, up to a hundred and one, and the other is left empty. */
  ghost predicate Joined(a: Batch, b: Batch, now: Batch, left: Batch, nodes: map<Identifier, Hash>) {
    && left == Batch([], {})
    && exists m: nat :: m <= |b.ixs| && JoinedUpTo(a, b, now, m, nodes)
  }

  predicate JoinedUpTo(a: Batch, b: Batch, now: Batch, m: nat, nodes: map<Identifier, Hash>)
    requires m <= |b.ixs|
  {
    && now.ixs == a.ixs + b.ixs[..m] && now.hashes == a.hashes + Spanned(b.ixs[..m], nodes)
    && (m < |b.ixs| ==> |a.ixs| + m > 100) && (m > 0 ==> |a.ixs| + m <= 101)
  }

  /** The batches at the first `2 * pairs` places are joined two by two, and the others stay. */
  ghost predicate PairedAlong(was: seq<Batch>, now: seq<Batch>, places: seq<nat>, pairs: nat,
                              nodes: map<Identifier, Hash>)
    requires 2 * pairs <= |places| && forall t :: 0 <= t < |places| ==> places[t] < |was|
  {
    && |now| == |was|
    && (forall t :: 0 <= t < pairs ==>
          var a, b := places[2 * t], places[2 * t + 1];
          Joined(was[a], was[b], now[a], now[b], nodes))
    && (forall k: nat :: k < |was| && k !in places[..2 * pairs] ==> now[k] == was[k])
  }

  function Pairs(n: nat, most: nat): (m: nat)
    ensures 2 * m <= n && m <= most && (m < most ==> n < 2 * m + 2)
  {
    if n / 2 <= most then n / 2 else most
  }

  /** The batches with `count` hashes are merged two by two in order, up to twenty times. */
  ghost predicate Paired(was: seq<Batch>, now: seq<Batch>, count: nat, nodes: map<Identifier, Hash>) {
    exists places: seq<nat>, pairs: nat ::
      && PlacesOf(was, 0, count, places) && 2 * pairs <= |places| && pairs <= 20
      && (pairs < 20 ==> |places| < 2 * pairs + 2)
      && PairedAlong(was, now, places, pairs, nodes)
  }

  lemma MergedIsJoined(batches: seq<Batch>, i: nat, j: nat, nodes: map<Identifier, Hash>)
    requires i < j < |batches|
    ensures var r := MergePair(batches, i, j, nodes);
            && Joined(batches[i], batches[j], r[i], r[j], nodes)
            && forall k :: 0 <= k < |batches| && k != i && k != j ==> r[k] == batches[k]
  {
    var m := AbsorbIs(batches[i], batches[j].ixs, nodes);
    hide Absorb;
    assert JoinedUpTo(batches[i], batches[j], MergePair(batches, i, j, nodes)[i], m, nodes);
  }

  /** The first two places are where the loop and its inner loop stop. */
  lemma FirstPlaces(batches: seq<Batch>, i: nat, count: nat, places: seq<nat>)
    requires i < |batches| && |batches[i].hashes| == count && PlacesOf(batches, i, count, places)
    ensures places != [] && places[0] == i
    ensures NextWith(batches, i + 1, count) == if |places| > 1 then places[1] else |batches|
  {
    var j := NextWith(batches, i + 1, count);
    assert i in places;
    if |places| > 1 {
      assert places[0] < places[1];
      if j < |batches| {
        assert j in places;
      }
    } else {
      assert j < |batches| ==> j in places;
    }
  }

  lemma NoPlacesBeyond(batches: seq<Batch>, i: nat, count: nat, places: seq<nat>)
    requires PlacesOf(batches, i, count, places)
    ensures places != [] ==> i < |batches|
  {
    assert places != [] ==> i <= places[0] < |batches|;
  }

  lemma RestOfPlaces(batches: seq<Batch>, i: nat, count: nat, places: seq<nat>, merged: seq<Batch>)
    requires i < |batches| && count > 0 && PlacesOf(batches, i, count, places) && |places| > 1 && places[0] == i
    requires |merged| == |batches| && merged[places[1]] == Batch([], {})
    requires forall k :: 0 <= k < |batches| && k != i && k != places[1] ==> merged[k] == batches[k]
    ensures PlacesOf(merged, i + 1, count, places[2..])
  {
    var rest := places[2..];
    assert forall t :: 0 <= t < |rest| ==> rest[t] == places[t + 2];
    forall k: nat | i + 1 <= k < |merged| && |merged[k].hashes| == count
      ensures k in rest
    {
      assert k in places;
      var t :| 0 <= t < |places| && places[t] == k;
      assert t >= 2;
      assert rest[t - 2] == k;
    }
  }

  lemma PairedOnce(was: seq<Batch>, mid: seq<Batch>, now: seq<Batch>, places: seq<nat>, pairs: nat,
                   nodes: map<Identifier, Hash>)
    requires |places| >= 2 * pairs + 2 && (forall t :: 0 <= t < |places| ==> places[t] < |was|)
    requires forall t, u :: 0 <= t < u < |places| ==> places[t] < places[u]
    requires |mid| == |was| && Joined(was[places[0]], was[places[1]], mid[places[0]], mid[places[1]], nodes)
    requires forall k: nat :: k < |was| && k != places[0] && k != places[1] ==> mid[k] == was[k]
    requires PairedAlong(mid, now, places[2..], pairs, nodes)
    ensures PairedAlong(was, now, places, pairs + 1, nodes)
  {
    hide Joined;
    var rest := places[2..];
    assert forall t :: 0 <= t < |rest| ==> rest[t] == places[t + 2];
    forall t | 0 <= t < pairs + 1
      ensures Joined(was[places[2 * t]], was[places[2 * t + 1]], now[places[2 * t]], now[places[2 * t + 1]], nodes)
    {
      if t > 0 {
        var a, b := rest[2 * (t - 1)], rest[2 * (t - 1) + 1];
        assert Joined(mid[a], mid[b], now[a], now[b], nodes);
        assert places[1] < places[2 * t] < places[2 * t + 1];
      } else {
        assert places[0] !in rest[..2 * pairs] && places[1] !in rest[..2 * pairs];
      }
    }
    forall k: nat | k < |was| && k !in places[..2 * (pairs + 1)]
      ensures now[k] == was[k]
    {
      assert k != places[..2 * (pairs + 1)][0] && k != places[..2 * (pairs + 1)][1];
      assert forall t :: 0 <= t < 2 * pairs ==> rest[..2 * pairs][t] == places[..2 * (pairs + 1)][t + 2];
    }
  }

  lemma {:induction false} MergeFromPairs(batches: seq<Batch>, i: nat, count: nat, done: nat,
                                          nodes: map<Identifier, Hash>, places: seq<nat>)
    requires count > 0 && done < 20 && i <= |batches| && PlacesOf(batches, i, count, places)
    ensures var r := MergeFrom(batches, i, count, done, nodes);
            var pairs := Pairs(|places|, 20 - done);
            r.count == done + pairs && PairedAlong(batches, r.batches, places, pairs, nodes)
    decreases |batches| - i
  {
    hide PairedAlong, MergePair, Joined;
    if i < |batches| && |batches[i].hashes| != count {
      assert forall t :: 0 <= t < |places| ==> places[t] != i;
      MergeFromPairs(batches, i + 1, count, done, nodes, places);
    } else if i < |batches| && |places| > 1 {
      FirstPlaces(batches, i, count, places);
      var j := places[1];
      var merged := MergePair(batches, i, j, nodes);
      MergedIsJoined(batches, i, j, nodes);
      assert merged[j] == Batch([], {}) by {
        Emptied(batches[i], batches[j], merged[i], merged[j], nodes);
      }
      RestOfPlaces(batches, i, count, places, merged);
      if done + 1 < 20 {
        MergeFromPairs(merged, i + 1, count, done + 1, nodes, places[2..]);
        PairedOnce(batches, merged, MergeFrom(batches, i, count, done, nodes).batches, places,
                   Pairs(|places| - 2, 19 - done), nodes);
      } else {
        NothingPaired(merged, places[2..], nodes);
        PairedOnce(batches, merged, merged, places, 0, nodes);
      }
    } else {
      if i < |batches| {
        FirstPlaces(batches, i, count, places);
      }
      assert places == [] || i < |batches| by {
        NoPlacesBeyond(batches, i, count, places);
      }
      NothingPaired(batches, places, nodes);
    }
  }

  lemma Emptied(a: Batch, b: Batch, now: Batch, left: Batch, nodes: map<Identifier, Hash>)
    requires Joined(a, b, now, left, nodes)
    ensures left == Batch([], {})
  {
  }

  /** The places of the batches with `count` hashes among the first `n`. */
  function Places(batches: seq<Batch>, count: nat, n: nat): seq<nat>
    requires n <= |batches|
  {
    if n == 0 then []
    else if |batches[n - 1].hashes| == count then Places(batches, count, n - 1) + [n - 1]
    else Places(batches, count, n - 1)
  }

  lemma {:induction false} PlacesAre(batches: seq<Batch>, count: nat, n: nat)
    requires n <= |batches|
    ensures PlacesOf(batches[..n], 0, count, Places(batches, count, n))
  {
    hide PlacesOf;
    if n == 0 {
      NoPlaces(count);
      assert batches[..n] == [];
    } else {
      PlacesAre(batches, count, n - 1);
      OnePlaceMore(batches[..n - 1], batches[n - 1], count, Places(batches, count, n - 1));
      assert batches[..n] == batches[..n - 1] + [batches[n - 1]];
    }
  }

  lemma NoPlaces(count: nat)
    ensures PlacesOf([], 0, count, [])
  {
  }

  lemma OnePlaceMore(batches: seq<Batch>, b: Batch, count: nat, places: seq<nat>)
    requires PlacesOf(batches, 0, count, places)
    ensures PlacesOf(batches + [b], 0, count, if |b.hashes| == count then places + [|batches|] else places)
  {
    var now := batches + [b];
    var more := if |b.hashes| == count then places + [|batches|] else places;
    assert forall k :: 0 <= k < |batches| ==> now[k] == batches[k];
    forall k: nat | k < |now| && |now[k].hashes| == count
      ensures k in more
    {
      assert k < |batches| ==> k in places;
      assert k == |batches| ==> more[|places|] == k;
    }
  }

  /** A round of merges joins the batches of one or of two hashes two by two. */
  lemma MergesPairs(batches: seq<Batch>, count: nat, nodes: map<Identifier, Hash>)
    requires count > 0
    ensures Paired(batches, MergeFrom(batches, 0, count, 0, nodes).batches, count, nodes)
  {
    hide PairedAlong, MergeFrom, Places;
    var places := Places(batches, count, |batches|);
    PlacesAre(batches, count, |batches|);
    assert batches[..|batches|] == batches;
    MergeFromPairs(batches, 0, count, 0, nodes, places);
    var pairs := Pairs(|places|, 20);
    assert PairedAlong(batches, MergeFrom(batches, 0, count, 0, nodes).batches, places, pairs, nodes);
  }

  lemma NothingPaired(batches: seq<Batch>, places: seq<nat>, nodes: map<Identifier, Hash>)
    requires forall t :: 0 <= t < |places| ==> places[t] < |batches|
    ensures PairedAlong(batches, batches, places, 0, nodes)
  {
  }

  /******* Sorting and cutting keep them *******/

  lemma SelectionKeeps(batches: seq<Batch>, result: seq<Batch>, sel: seq<nat>, nodes: map<Identifier, Hash>)
    requires SelectedFrom(batches, result, sel) && DisjointLocks(batches) && Exact(batches, nodes)
    ensures DisjointLocks(result) && Exact(result, nodes) && (FewHashes(batches) ==> FewHashes(result))
  {
    forall i, j, x, y | 0 <= i < j < |result| && x in result[i].ixs && y in result[j].ixs
      ensures LockedIds(x) !! LockedIds(y)
    {
      assert x in batches[sel[i]].ixs && y in batches[sel[j]].ixs && sel[i] != sel[j];
    }
  }

  lemma SelectionPrefix(batches: seq<Batch>, result: seq<Batch>, sel: seq<nat>, lane: Lane, n: nat)
    requires SelectedFrom(batches, result, sel) && PrefixInOne(batches, lane, n)
    ensures PrefixInOne(result, lane, n)
  {
    forall i, j | 0 <= i < j < |result|
      ensures Restrict(result[i].ixs, lane.key) == [] || Restrict(result[j].ixs, lane.key) == []
    {
      assert sel[i] != sel[j];
      assert result[i] == batches[sel[i]] && result[j] == batches[sel[j]];
    }
  }

  /** Larger batches first; among equals, those that span fewer hashes. */
  predicate Before(a: Batch, b: Batch) {
    if |a.ixs| == |b.ixs| then |a.hashes| <= |b.hashes| else |a.ixs| > |b.ixs|
  }

  predicate Sorted(batches: seq<Batch>) {
    forall i, j :: 0 <= i < j < |batches| ==> Before(batches[i], batches[j])
  }

  /** The places among the first `n` that are not empty. */
  function Live(batches: seq<Batch>, n: nat): seq<nat>
    requires n <= |batches|
  {
    if n == 0 then []
    else if batches[n - 1].ixs == [] then Live(batches, n - 1)
    else Live(batches, n - 1) + [n - 1]
  }

  lemma {:induction false} LiveIs(batches: seq<Batch>, n: nat)
    requires n <= |batches|
    ensures forall i :: 0 <= i < |Live(batches, n)| ==>
              Live(batches, n)[i] < n && batches[Live(batches, n)[i]].ixs != []
    ensures forall i, j :: 0 <= i < j < |Live(batches, n)| ==> Live(batches, n)[i] < Live(batches, n)[j]
    ensures forall k :: 0 <= k < n && batches[k].ixs != [] ==> k in Live(batches, n)
  {
    if n > 0 {
      LiveIs(batches, n - 1);
    }
  }

  /** All batches, each once, in sorted order; `order` says which went where. */
  predicate Arranged(batches: seq<Batch>, sorted: seq<Batch>, order: seq<nat>) {
    SelectedFrom(batches, sorted, order) && |sorted| == |batches| && Sorted(sorted)
  }

  /** The batches that are not empty among the first `n`, in order: twenty of them, or all there are. */
  predicate FirstLive(batches: seq<Batch>, result: seq<Batch>, n: nat) {
    && n <= |batches| && SelectedFrom(batches, result, Live(batches, n))
    && |result| <= MAX_BATCHES && (n < |batches| ==> |result| == MAX_BATCHES)
  }

  /** The steps from the batches of a pass to what it returns: sort, merge by one and two hashes, sort, cut. */
  ghost predicate Chosen(batches: seq<Batch>, nodes: map<Identifier, Hash>, result: seq<Batch>) {
    exists sorted: seq<Batch>, order: seq<nat>, again: seq<Batch>, reorder: seq<nat>, n: nat ::
      && Arranged(batches, sorted, order)
      && Arranged(MergeBoth(sorted, nodes), again, reorder)
      && FirstLive(again, result, n)
  }

  /** Two selections in a row are one. */
  lemma SelectedTwice(a: seq<Batch>, b: seq<Batch>, s: seq<nat>, c: seq<Batch>, t: seq<nat>) returns (u: seq<nat>)
    requires SelectedFrom(a, b, s) && SelectedFrom(b, c, t)
    ensures SelectedFrom(a, c, u) && (forall i :: 0 <= i < |u| ==> t[i] < |s| && u[i] == s[t[i]])
  {
    u := seq(|t|, i requires 0 <= i < |t| => s[t[i]]);
    forall i, j | 0 <= i < j < |u|
      ensures u[i] != u[j]
    {
      assert t[i] < t[j] || t[j] < t[i];
    }
  }

  lemma KeptTwice(s: seq<nat>, t: seq<nat>, u: seq<nat>, k: nat)
    requires |u| == |t| && forall i :: 0 <= i < |u| ==> t[i] < |s| && u[i] == s[t[i]]
    requires k in t
    ensures k < |s| && s[k] in u
  {
    var i :| 0 <= i < |t| && t[i] == k;
    assert u[i] == s[k];
  }

  /** What is returned is a selection of the merged batches of an arrangement. */
  lemma ChosenSelects(batches: seq<Batch>, nodes: map<Identifier, Hash>, result: seq<Batch>)
    returns (sorted: seq<Batch>, order: seq<nat>, sel: seq<nat>)
    requires Chosen(batches, nodes, result)
    ensures SelectedFrom(batches, sorted, order) && SelectedFrom(MergeBoth(sorted, nodes), result, sel)
  {
    var again, reorder, n;
    sorted, order, again, reorder, n :|
      && Arranged(batches, sorted, order)
      && Arranged(MergeBoth(sorted, nodes), again, reorder)
      && FirstLive(again, result, n);
    hide MergeBoth, Sorted, Live;
    sel := SelectedTwice(MergeBoth(sorted, nodes), again, reorder, result, Live(again, n));
  }

  /** Returned batches are sorted, at most twenty, and none is empty. */
  lemma ReturnedAreSorted(batches: seq<Batch>, nodes: map<Identifier, Hash>, result: seq<Batch>)
    requires Chosen(batches, nodes, result)
    ensures |result| <= 20 && Sorted(result) && forall b :: b in result ==> b.ixs != []
    ensures forall i, j :: 0 <= i < j < |result| ==>
              || |result[i].ixs| > |result[j].ixs|
              || (|result[i].ixs| == |result[j].ixs| && |result[i].hashes| <= |result[j].hashes|)
  {
    var sorted, order, again, reorder, n :|
      && Arranged(batches, sorted, order)
      && Arranged(MergeBoth(sorted, nodes), again, reorder)
      && FirstLive(again, result, n);
    LiveIs(again, n);
    hide MergeBoth, Live;
    forall i, j | 0 <= i < j < |result|
      ensures Before(result[i], result[j])
    {
      assert Live(again, n)[i] < Live(again, n)[j];
    }
  }

  function MergeBoth(batches: seq<Batch>, nodes: map<Identifier, Hash>): seq<Batch> {
    MergeFrom(MergeFrom(batches, 0, 1, 0, nodes).batches, 0, 2, 0, nodes).batches
  }

  /** The batches of a pass are sorted, merged by one hash, merged by two, sorted again and cut at twenty. */
  lemma ChosenPairs(batches: seq<Batch>, nodes: map<Identifier, Hash>, result: seq<Batch>)
    returns (sorted: seq<Batch>, order: seq<nat>, once: seq<Batch>, twice: seq<Batch>, sel: seq<nat>)
    requires Chosen(batches, nodes, result)
    ensures Arranged(batches, sorted, order) && Paired(sorted, once, 1, nodes) && Paired(once, twice, 2, nodes)
    ensures SelectedFrom(twice, result, sel) && |result| <= 20
    ensures |result| < 20 ==> forall k: nat :: k < |twice| && twice[k].ixs != [] ==> k in sel
  {
    var again, reorder, n;
    sorted, order, again, reorder, n :|
      && Arranged(batches, sorted, order)
      && Arranged(MergeBoth(sorted, nodes), again, reorder)
      && FirstLive(again, result, n);
    once := MergeFrom(sorted, 0, 1, 0, nodes).batches;
    twice := MergeFrom(once, 0, 2, 0, nodes).batches;
    MergesPairs(sorted, 1, nodes);
    MergesPairs(once, 2, nodes);
    hide MergeFrom, Sorted, Live, Paired;
    sel := SelectedTwice(twice, again, reorder, result, Live(again, n));
    if |result| < 20 {
      LiveIs(again, n);
      forall k: nat | k < |twice| && twice[k].ixs != []
        ensures k in sel
      {
        var t := Reached(reorder, k);
        assert t in Live(again, n);
        KeptTwice(reorder, Live(again, n), sel, t);
      }
    }
  }

  function Numbers(n: nat): (r: set<nat>)
    ensures |r| == n && forall i: nat :: i in r <==> i < n
  {
    if n == 0 then {} else Numbers(n - 1) + {n - 1}
  }

  function Elements(s: seq<nat>): set<nat> {
    set k | k in s
  }

  lemma {:induction false} AllDifferent(s: seq<nat>)
    requires forall i, j :: 0 <= i < j < |s| ==> s[i] != s[j]
    ensures |Elements(s)| == |s|
  {
    if s != [] {
      var n := |s| - 1;
      AllDifferent(s[..n]);
      assert s[n] !in Elements(s[..n]);
      assert Elements(s) == Elements(s[..n]) + {s[n]};
    }
  }

  /** As many different numbers below `|order|` as that are all of them. */
  lemma Reached(order: seq<nat>, k: nat) returns (t: nat)
    requires k < |order| && (forall i :: 0 <= i < |order| ==> order[i] < |order|)
    requires forall i, j :: 0 <= i < j < |order| ==> order[i] != order[j]
    ensures t < |order| && order[t] == k
  {
    AllDifferent(order);
    var others := Numbers(|order|) - {k};
    if k !in order {
      assert Elements(order) <= others;
      SubsetCount(Elements(order), others);
      assert false;
    }
    t :| t < |order| && order[t] == k;
  }

  lemma ChosenKeeps(batches: seq<Batch>, nodes: map<Identifier, Hash>, result: seq<Batch>)
    requires Chosen(batches, nodes, result) && DisjointLocks(batches) && Exact(batches, nodes)
    ensures DisjointLocks(result) && Exact(result, nodes) && (FewHashes(batches) ==> FewHashes(result))
  {
    hide Chosen, DisjointLocks, Exact, FewHashes, SelectedFrom, MergeFrom;
    var sorted, order, sel := ChosenSelects(batches, nodes, result);
    SelectionKeeps(batches, sorted, order, nodes);
    MergeFromKeeps(sorted, 0, 1, 0, nodes);
    MergeFromKeeps(MergeFrom(sorted, 0, 1, 0, nodes).batches, 0, 2, 0, nodes);
    SelectionKeeps(MergeBoth(sorted, nodes), result, sel, nodes);
  }

  /** Whatever the order of lanes, sorts and cuts, no participant is locked from two returned batches. */
  lemma ReturnedAreDisjoint(lanes: seq<Lane>, nodes: map<Identifier, Hash>, ready: set<Ix>, result: seq<Batch>)
    requires Chosen(RunLanes(NewPass(), lanes, nodes, ready).batches, nodes, result)
    ensures DisjointLocks(result) && Exact(result, nodes)
  {
    hide Chosen, DisjointLocks, Exact, FewHashes;
    var p := RunLanes(NewPass(), lanes, nodes, ready);
    RunLanesKeeps(NewPass(), lanes, nodes, ready);
    PassIsDisjoint(p, nodes);
    ChosenKeeps(p.batches, nodes, result);
  }

  /** If nothing is unlocked here and locked there, every returned batch spans at most four hashes. */
  lemma ReturnedSpanFew(lanes: seq<Lane>, nodes: map<Identifier, Hash>, ready: set<Ix>, result: seq<Batch>)
    requires Chosen(RunLanes(NewPass(), lanes, nodes, ready).batches, nodes, result)
    requires SeparateLocks(AllOf(lanes))
    ensures forall b :: b in result ==> |Spanned(b.ixs, nodes)| <= 4
  {
    hide Chosen, DisjointLocks, SeparateLocks, Spanned;
    var p := RunLanes(NewPass(), lanes, nodes, ready);
    RunLanesKeeps(NewPass(), lanes, nodes, ready);
    PassIsDisjoint(p, nodes);
    RunLanesOneLeader(NewPass(), lanes, nodes, ready, AllOf(lanes));
    hide RunLanes;
    OneLeaderFewHashes(p, nodes, AllOf(lanes));
    ChosenKeeps(p.batches, nodes, result);
    hide PassInv, OneLeader;
  }

  function AllOf(lanes: seq<Lane>): set<Ix> {
    set lane, x | lane in lanes && x in lane.ixs :: x
  }

  /** A lane that locks its sender appears in one returned batch only, as a gap-free prefix in order. */
  lemma ReturnedKeepOrder(lanes: seq<Lane>, nodes: map<Identifier, Hash>, ready: set<Ix>, result: seq<Batch>,
                          j: nat) returns (n: nat)
    requires Chosen(RunLanes(NewPass(), lanes, nodes, ready).batches, nodes, result)
    requires DistinctKeys(lanes) && (forall lane :: lane in lanes ==> Keyed(lane))
    requires j < |lanes| && Pinned(lanes[j])
    ensures PrefixInOne(result, lanes[j], n)
  {
    var p := RunLanes(NewPass(), lanes, nodes, ready);
    assert HomeAt([], lanes[j], 0, 0);
    n := RunLanesPlaces(NewPass(), lanes, nodes, ready, j);
    PlacedInOne(p.batches, lanes[j], n);
    hide RunLanes, PrefixInOne, SelectedFrom, MergeFrom;
    var sorted, order, sel := ChosenSelects(p.batches, nodes, result);
    SelectionPrefix(p.batches, sorted, order, lanes[j], n);
    n := MergeFromPrefix(sorted, 0, 1, 0, nodes, lanes[j], n);
    n := MergeFromPrefix(MergeFrom(sorted, 0, 1, 0, nodes).batches, 0, 2, 0, nodes, lanes[j], n);
    SelectionPrefix(MergeBoth(sorted, nodes), result, sel, lanes[j], n);
  }

  /******* The size cap *******/

  predicate Capped(batches: seq<Batch>) {
    forall i :: 0 <= i < |batches| ==> |batches[i].ixs| <= BATCH_LIMIT + 1
  }

  lemma ScheduleCapped(p: Pass, ix: Ix, nodes: map<Identifier, Hash>, ready: set<Ix>)
    requires LookupBounded(p) && Capped(p.batches)
    ensures Capped(Schedule(p, ix, nodes, ready).pass.batches)
  {
    hide Eligible, HashesOf, LockedIds;
  }

  lemma {:induction false} RunLaneCapped(p: Pass, lane: Lane, n: nat, nodes: map<Identifier, Hash>, ready: set<Ix>)
    requires PassInv(p, nodes) && n <= |lane.ixs| && Capped(p.batches)
    ensures Capped(RunLane(p, lane, n, nodes, ready).batches)
    decreases |lane.ixs| - n
  {
    if n < |lane.ixs| {
      ScheduleKeeps(p, lane.ixs[n], nodes, ready);
      ScheduleCapped(p, lane.ixs[n], nodes, ready);
      hide PassInv, Schedule, Capped;
      var r := Schedule(p, lane.ixs[n], nodes, ready);
      if r.added {
        RunLaneCapped(r.pass, lane, n + 1, nodes, ready);
      }
    }
  }

  lemma {:induction false} RunLanesCapped(p: Pass, lanes: seq<Lane>, nodes: map<Identifier, Hash>, ready: set<Ix>)
    requires PassInv(p, nodes) && Capped(p.batches)
    ensures Capped(RunLanes(p, lanes, nodes, ready).batches)
    decreases |lanes|
  {
    hide PassInv, Capped;
    if lanes != [] {
      RunLaneKeeps(p, lanes[0], 0, nodes, ready);
      RunLaneCapped(p, lanes[0], 0, nodes, ready);
      RunLanesCapped(RunLane(p, lanes[0], 0, nodes, ready), lanes[1..], nodes, ready);
    }
  }

  lemma {:induction false} AbsorbCapped(b: Batch, ixs: seq<Ix>, nodes: map<Identifier, Hash>)
    requires |b.ixs| <= BATCH_LIMIT + 1
    ensures |Absorb(b, ixs, nodes).ixs| <= BATCH_LIMIT + 1
  {
    if ixs != [] {
      AbsorbCapped(b, ixs[..|ixs| - 1], nodes);
    }
  }

  lemma {:induction false} MergeFromCapped(batches: seq<Batch>, i: nat, count: nat, done: nat,
                                           nodes: map<Identifier, Hash>)
    requires Capped(batches)
    ensures Capped(MergeFrom(batches, i, count, done, nodes).batches)
    decreases |batches| - i
  {
    if i < |batches| {
      var j := NextWith(batches, i + 1, count);
      if |batches[i].hashes| != count {
        MergeFromCapped(batches, i + 1, count, done, nodes);
      } else if j < |batches| {
        AbsorbCapped(batches[i], batches[j].ixs, nodes);
        assert Capped(MergePair(batches, i, j, nodes));
        if done + 1 != MAX_BATCHES {
          MergeFromCapped(MergePair(batches, i, j, nodes), i + 1, count, done + 1, nodes);
        }
      }
    }
  }

  /** No returned batch has more than a hundred and one interactions, merged or not. */
  lemma ReturnedAreCapped(lanes: seq<Lane>, nodes: map<Identifier, Hash>, ready: set<Ix>, result: seq<Batch>)
    requires Chosen(RunLanes(NewPass(), lanes, nodes, ready).batches, nodes, result)
    ensures forall b :: b in result ==> |b.ixs| <= 101
  {
    var p := RunLanes(NewPass(), lanes, nodes, ready);
    RunLanesCapped(NewPass(), lanes, nodes, ready);
    hide RunLanes, MergeFrom;
    var sorted, order, sel := ChosenSelects(p.batches, nodes, result);
    MergeFromCapped(sorted, 0, 1, 0, nodes);
    MergeFromCapped(MergeFrom(sorted, 0, 1, 0, nodes).batches, 0, 2, 0, nodes);
  }
}
