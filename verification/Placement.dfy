/** A lane's interactions all land in one batch, in order and without gaps. */
module Placement {
  import opened Foundation
  import opened Interactions
  import opened Batches

  /** The interactions of one lane in a list, in list order. */
  function Restrict(ixs: seq<Ix>, key: QKey): seq<Ix> {
    if ixs == [] then []
    else Restrict(ixs[..|ixs| - 1], key) + (if KeyOf(ixs[|ixs| - 1]) == key then [ixs[|ixs| - 1]] else [])
  }

  lemma RestrictSnoc(ixs: seq<Ix>, ix: Ix, key: QKey)
    ensures Restrict(ixs + [ix], key) == Restrict(ixs, key) + (if KeyOf(ix) == key then [ix] else [])
  {
    assert (ixs + [ix])[..|ixs|] == ixs;
  }

  lemma {:induction false} RestrictAppend(a: seq<Ix>, b: seq<Ix>, key: QKey)
    ensures Restrict(a + b, key) == Restrict(a, key) + Restrict(b, key)
    decreases |b|
  {
    if b == [] {
      assert a + b == a;
    } else {
      var n := |b| - 1;
      RestrictAppend(a, b[..n], key);
      RestrictSnoc(a + b[..n], b[n], key);
      assert a + b == (a + b[..n]) + [b[n]];
      assert b == b[..n] + [b[n]];
    }
  }

  /** A prefix of a list holds a prefix of each lane. */
  lemma RestrictPrefix(ixs: seq<Ix>, n: nat, key: QKey)
    requires n <= |ixs|
    ensures Restrict(ixs[..n], key) <= Restrict(ixs, key)
  {
    RestrictAppend(ixs[..n], ixs[n..], key);
    assert ixs == ixs[..n] + ixs[n..];
  }

  lemma {:induction false} RestrictMember(ixs: seq<Ix>, x: Ix, key: QKey)
    requires x in Restrict(ixs, key)
    ensures x in ixs && KeyOf(x) == key
  {
    var n := |ixs| - 1;
    if x in Restrict(ixs[..n], key) {
      RestrictMember(ixs[..n], x, key);
    }
  }

  /** Batch `home` holds exactly the lane's first `n` interactions, in order; no other batch holds any. */
  predicate HomeAt(batches: seq<Batch>, lane: Lane, n: nat, home: nat) {
    && n <= |lane.ixs| && (n > 0 ==> home < |batches|)
    && forall i :: 0 <= i < |batches| ==>
         Restrict(batches[i].ixs, lane.key) == if i == home then lane.ixs[..n] else []
  }

  ghost predicate Placed(batches: seq<Batch>, lane: Lane, n: nat) {
    exists home: nat :: HomeAt(batches, lane, n, home)
  }

  predicate Keyed(lane: Lane) {
    forall x :: x in lane.ixs ==> KeyOf(x) == lane.key
  }

  /** Every interaction of the lane locks its sender. */
  predicate Pinned(lane: Lane) {
    forall x :: x in lane.ixs ==> x.sender in LockedIds(x)
  }

  /** One interaction more in batch `m`, which may be new; the rest as before. */
  predicate Appended(was: seq<Batch>, now: seq<Batch>, m: nat, ix: Ix) {
    && m <= |was| && |now| == (if m < |was| then |was| else m + 1)
    && (forall i :: 0 <= i < |was| && i != m ==> now[i] == was[i])
    && now[m].ixs == (if m < |was| then was[m].ixs else []) + [ix]
  }

  lemma AddAppends(p: Pass, ix: Ix, nodes: map<Identifier, Hash>) returns (m: nat)
    requires LookupBounded(p) && AddIx(p, ix, nodes).Some?
    ensures Appended(p.batches, AddIx(p, ix, nodes).value.batches, m, ix)
    ensures m < |p.batches| ==> FindBatch(p.lookup, ix) == At(m)
    ensures forall id :: id in ix.participants && id in p.lookup ==> p.lookup[id] == m
  {
    hide HashesOf, LockedIds;
    m := if FindBatch(p.lookup, ix).At? then FindBatch(p.lookup, ix).id else |p.batches|;
  }

  /** What a turn does to the batches: nothing, or one append to the batch its participants are in. */
  lemma ScheduleAppends(p: Pass, ix: Ix, nodes: map<Identifier, Hash>, ready: set<Ix>) returns (m: nat)
    requires LookupBounded(p)
    ensures var r := Schedule(p, ix, nodes, ready);
            if !r.added then r.pass.batches == p.batches
            else Appended(p.batches, r.pass.batches, m, ix) &&
                 forall id :: id in ix.participants && id in p.lookup ==> p.lookup[id] == m
  {
    hide Eligible, AddIx, HashesOf, LockedIds;
    m := 0;
    if Schedule(p, ix, nodes, ready).added {
      m := AddAppends(Acquire(p, ix, nodes), ix, nodes);
    }
  }

  lemma AppendedOther(was: seq<Batch>, now: seq<Batch>, m: nat, ix: Ix, lane: Lane, n: nat, home: nat)
    requires Appended(was, now, m, ix) && KeyOf(ix) != lane.key && HomeAt(was, lane, n, home)
    ensures HomeAt(now, lane, n, home)
  {
    RestrictSnoc(if m < |was| then was[m].ixs else [], ix, lane.key);
    forall i | 0 <= i < |now|
      ensures Restrict(now[i].ixs, lane.key) == if i == home then lane.ixs[..n] else []
    {
      assert i < |was| ==> Restrict(was[i].ixs, lane.key) == if i == home then lane.ixs[..n] else [];
    }
    hide Restrict;
  }

  lemma AppendedOwn(was: seq<Batch>, now: seq<Batch>, m: nat, lane: Lane, n: nat, home: nat)
    requires Keyed(lane) && n < |lane.ixs| && HomeAt(was, lane, n, home) && (n > 0 ==> m == home)
    requires Appended(was, now, m, lane.ixs[n])
    ensures HomeAt(now, lane, n + 1, m)
  {
    RestrictSnoc(if m < |was| then was[m].ixs else [], lane.ixs[n], lane.key);
    assert lane.ixs[..n + 1] == lane.ixs[..n] + [lane.ixs[n]];
    forall i | 0 <= i < |now|
      ensures Restrict(now[i].ixs, lane.key) == if i == m then lane.ixs[..n + 1] else []
    {
      assert i < |was| ==> Restrict(was[i].ixs, lane.key) == if i == home then lane.ixs[..n] else [];
    }
    hide Restrict;
  }

  lemma ScheduleOther(p: Pass, ix: Ix, nodes: map<Identifier, Hash>, ready: set<Ix>, lane: Lane, n: nat, home: nat)
    requires LookupBounded(p) && KeyOf(ix) != lane.key && HomeAt(p.batches, lane, n, home)
    ensures HomeAt(Schedule(p, ix, nodes, ready).pass.batches, lane, n, home)
  {
    hide Schedule, Appended, HomeAt;
    var m := ScheduleAppends(p, ix, nodes, ready);
    if Schedule(p, ix, nodes, ready).added {
      AppendedOther(p.batches, Schedule(p, ix, nodes, ready).pass.batches, m, ix, lane, n, home);
    }
  }

  lemma ScheduleOwn(p: Pass, lane: Lane, n: nat, nodes: map<Identifier, Hash>, ready: set<Ix>, home: nat)
    returns (home': nat)
    requires PassInv(p, nodes) && Keyed(lane) && Pinned(lane)
    requires n < |lane.ixs| && HomeAt(p.batches, lane, n, home)
    ensures var r := Schedule(p, lane.ixs[n], nodes, ready);
            HomeAt(r.pass.batches, lane, if r.added then n + 1 else n, home')
  {
    var ix := lane.ixs[n];
    if n > 0 {
      FirstIsHome(p, lane, n, nodes, home);
      assert KeyOf(lane.ixs[0]) == KeyOf(ix);
    }
    assert ix.sender in ix.participants;
    assert LookupBounded(p);
    hide Schedule, Appended, HomeAt, PassInv;
    var m := ScheduleAppends(p, ix, nodes, ready);
    home' := home;
    if Schedule(p, ix, nodes, ready).added {
      AppendedOwn(p.batches, Schedule(p, ix, nodes, ready).pass.batches, m, lane, n, home);
      home' := m;
    }
  }

  /** Once a lane has a home, the lookup sends its sender there. */
  lemma FirstIsHome(p: Pass, lane: Lane, n: nat, nodes: map<Identifier, Hash>, home: nat)
    requires PassInv(p, nodes) && Pinned(lane) && 0 < n && HomeAt(p.batches, lane, n, home)
    ensures lane.ixs[0].sender in p.lookup && p.lookup[lane.ixs[0].sender] == home
  {
    assert lane.ixs[0] in Restrict(p.batches[home].ixs, lane.key);
    RestrictMember(p.batches[home].ixs, lane.ixs[0], lane.key);
    assert BatchOk(p, home);
  }

  lemma {:induction false} RunLanePlaces(p: Pass, lane: Lane, n: nat, nodes: map<Identifier, Hash>, ready: set<Ix>)
    returns (m: nat)
    requires PassInv(p, nodes) && Keyed(lane) && Pinned(lane) && n <= |lane.ixs| && Placed(p.batches, lane, n)
    ensures Placed(RunLane(p, lane, n, nodes, ready).batches, lane, m)
    decreases |lane.ixs| - n
  {
    m := n;
    if n < |lane.ixs| {
      ScheduleKeeps(p, lane.ixs[n], nodes, ready);
      var home :| HomeAt(p.batches, lane, n, home);
      var home' := ScheduleOwn(p, lane, n, nodes, ready, home);
      var r := Schedule(p, lane.ixs[n], nodes, ready);
      if r.added {
        m := RunLanePlaces(r.pass, lane, n + 1, nodes, ready);
      }
    }
  }

  lemma {:induction false} RunLaneElsewhere(p: Pass, lane: Lane, n: nat, nodes: map<Identifier, Hash>,
                                            ready: set<Ix>, other: Lane, m: nat)
    requires PassInv(p, nodes) && Keyed(lane) && n <= |lane.ixs|
    requires lane.key != other.key && Placed(p.batches, other, m)
    ensures Placed(RunLane(p, lane, n, nodes, ready).batches, other, m)
    decreases |lane.ixs| - n
  {
    if n < |lane.ixs| {
      ScheduleKeeps(p, lane.ixs[n], nodes, ready);
      var home :| HomeAt(p.batches, other, m, home);
      ScheduleOther(p, lane.ixs[n], nodes, ready, other, m, home);
      var r := Schedule(p, lane.ixs[n], nodes, ready);
      if r.added {
        RunLaneElsewhere(r.pass, lane, n + 1, nodes, ready, other, m);
      }
    }
  }

  predicate DistinctKeys(lanes: seq<Lane>) {
    forall i, j :: 0 <= i < j < |lanes| ==> lanes[i].key != lanes[j].key
  }

  lemma {:induction false} RunLanesElsewhere(p: Pass, lanes: seq<Lane>, nodes: map<Identifier, Hash>,
                                             ready: set<Ix>, other: Lane, m: nat)
    requires PassInv(p, nodes) && Placed(p.batches, other, m)
    requires forall lane :: lane in lanes ==> Keyed(lane) && lane.key != other.key
    ensures Placed(RunLanes(p, lanes, nodes, ready).batches, other, m)
    decreases |lanes|
  {
    if lanes != [] {
      RunLaneKeeps(p, lanes[0], 0, nodes, ready);
      RunLaneElsewhere(p, lanes[0], 0, nodes, ready, other, m);
      RunLanesElsewhere(RunLane(p, lanes[0], 0, nodes, ready), lanes[1..], nodes, ready, other, m);
    }
  }

  /** After the pass, every pinned lane has a home that holds a prefix of it. */
  lemma {:induction false} RunLanesPlaces(p: Pass, lanes: seq<Lane>, nodes: map<Identifier, Hash>,
                                          ready: set<Ix>, j: nat) returns (n: nat)
    requires PassInv(p, nodes) && DistinctKeys(lanes) && (forall lane :: lane in lanes ==> Keyed(lane))
    requires j < |lanes| && Pinned(lanes[j]) && Placed(p.batches, lanes[j], 0)
    ensures Placed(RunLanes(p, lanes, nodes, ready).batches, lanes[j], n)
    decreases |lanes|
  {
    RunLaneKeeps(p, lanes[0], 0, nodes, ready);
    var p1 := RunLane(p, lanes[0], 0, nodes, ready);
    if j == 0 {
      n := RunLanePlaces(p, lanes[0], 0, nodes, ready);
      RunLanesElsewhere(p1, lanes[1..], nodes, ready, lanes[0], n);
    } else {
      RunLaneElsewhere(p, lanes[0], 0, nodes, ready, lanes[j], 0);
      n := RunLanesPlaces(p1, lanes[1..], nodes, ready, j - 1);
    }
  }
}
