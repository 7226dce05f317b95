/** An account's queue as the source keeps it: two heaps, a map and a counter. */
module HeapQueues {
  import opened Foundation
  import opened Interactions
  import MinSeqHeap
  import Q = AccountQueues

  function Elems(queue: seq<Ix>): set<Ix> {
    set x | x in queue
  }

  /** The heap holds each element of the set once. */
  ghost predicate Holds(queue: seq<Ix>, s: set<Ix>) {
    MinSeqHeap.IsHeap(queue) && multiset(queue) == multiset(s)
  }

  lemma HoldsSame(queue: seq<Ix>, s: set<Ix>)
    requires Holds(queue, s)
    ensures Elems(queue) == s
  {
    assert forall x :: x in queue <==> x in multiset(queue);
  }

  lemma SameElems(queue: seq<Ix>, s: set<Ix>)
    requires multiset(queue) == multiset(s)
    ensures Elems(queue) == s
  {
    assert forall x :: x in queue <==> x in multiset(queue);
  }

  lemma IdsListed(queue: seq<Ix>)
    ensures (set x | x in queue :: x.seqId) == Q.Ids(Elems(queue))
  {
  }

  method PushTo(queue: seq<Ix>, ghost s: set<Ix>, ix: Ix) returns (r: seq<Ix>)
    requires Holds(queue, s) && ix !in s
    ensures Holds(r, s + {ix})
  {
    r := MinSeqHeap.Push(queue, ix);
    assert multiset(s + {ix}) == multiset(s) + multiset{ix};
  }

  method PopFrom(queue: seq<Ix>, ghost s: set<Ix>) returns (r: seq<Ix>, top: Ix)
    requires Holds(queue, s) && queue != []
    ensures Holds(r, s - {top}) && top in s && top == queue[0]
    ensures forall x :: x in s ==> top.seqId <= x.seqId
  {
    HoldsSame(queue, s);
    r, top := MinSeqHeap.Pop(queue);
    assert multiset(s - {top}) == multiset(s) - multiset{top};
  }

  /** Pops everything below `seqId`. */
  method Prune(queue: seq<Ix>, ghost s: set<Ix>, seqId: nat) returns (r: seq<Ix>, pruned: seq<Ix>)
    requires Holds(queue, s)
    ensures Holds(r, s - Q.Pruned(s, seqId))
    ensures multiset(pruned) == multiset(Q.Pruned(s, seqId))
  {
    r, pruned := queue, [];
    ghost var rest, gone := s, {};
    while r != [] && r[0].seqId < seqId
      invariant rest == s - gone && gone <= Q.Pruned(s, seqId)
      invariant Holds(r, rest) && multiset(pruned) == multiset(gone)
      decreases |r|
    {
      var top;
      ghost var was := r;
      HoldsSame(r, rest);
      r, top := PopFrom(r, rest);
      assert |multiset(was)| == |rest| && |multiset(r)| == |rest - {top}|;
      pruned := pruned + [top];
      rest, gone := rest - {top}, gone + {top};
    }
    HoldsSame(r, rest);
    forall x | x in rest
      ensures x.seqId >= seqId
    {
      var i :| 0 <= i < |r| && r[i] == x;
      MinSeqHeap.RootIsLeast(r, i);
    }
    assert gone == Q.Pruned(s, seqId);
  }

  lemma ReplaceHolds(queue: seq<Ix>, s: set<Ix>, i: nat, ix: Ix)
    requires Holds(queue, s) && Q.DistinctIds(s) && i < |queue| && queue[i].seqId == ix.seqId
    ensures Holds(queue[i := ix], Q.Replaced(s, ix)) && ix.seqId in Q.Ids(s)
  {
    var x := queue[i];
    HoldsSame(queue, s);
    assert x in s;
    assert Q.Replaced(s, ix) == s - {x} + {ix};
    assert multiset(s - {x} + {ix}) == multiset(s) - multiset{x} + multiset{ix};
  }

  /** Replaces the element with ix's id, where there is one. */
  method ReplaceIn(queue: seq<Ix>, ghost s: set<Ix>, ix: Ix) returns (r: seq<Ix>, found: bool)
    requires Holds(queue, s) && Q.DistinctIds(s)
    ensures found <==> ix.seqId in Q.Ids(s)
    ensures Holds(r, if found then Q.Replaced(s, ix) else s)
  {
    for i := 0 to |queue|
      invariant forall j :: 0 <= j < i ==> queue[j].seqId != ix.seqId
    {
      if queue[i].seqId == ix.seqId {
        ReplaceHolds(queue, s, i, ix);
        return queue[i := ix], true;
      }
    }
    HoldsSame(queue, s);
    r, found := queue, false;
  }

  /** Part way through a promotion: everything below `next` plus what has moved has moved, in order, and
      the 64-bit counter has kept up, wrapping at the end. */
  ghost predicate Moving(q: Q.AccQ, e: set<Ix>, p: set<Ix>, moved: seq<Ix>, current: nat) {
    && q.next + |moved| <= U64
    && current == (if q.next + |moved| < U64 then q.next + |moved| else 0)
    && (forall x :: x in e <==> x in q.enqueued && x.seqId >= q.next + |moved|)
    && (forall x :: x in moved <==> x in q.enqueued && x.seqId < q.next + |moved|)
    && p == q.promoted + Elems(moved)
    && (forall i :: 0 <= i < |moved| ==> moved[i].seqId == q.next + i)
  }

  /** The heap's root is the next id: the run can start. */
  lemma MoveStart(q: Q.AccQ, queue: seq<Ix>)
    requires Q.Settling(q) && Holds(queue, q.enqueued) && queue != [] && queue[0].seqId <= q.next
    ensures queue[0].seqId == q.next && Moving(q, q.enqueued, q.promoted, [], q.next)
  {
    HoldsSame(queue, q.enqueued);
  }

  lemma MoveOne(q: Q.AccQ, e: set<Ix>, p: set<Ix>, moved: seq<Ix>, current: nat, ix: Ix)
    requires Q.Settling(q) && Moving(q, e, p, moved, current) && ix in e && ix.seqId == current
    ensures Moving(q, e - {ix}, p + {ix}, moved + [ix], Add64(current, 1)) && ix !in p
  {
    assert forall x :: x in Q.Content(q) && x.seqId == current ==> x == ix;
  }

  lemma MoveDone(q: Q.AccQ, e: set<Ix>, p: set<Ix>, moved: seq<Ix>, current: nat, queue: seq<Ix>)
    requires Q.Settling(q) && Moving(q, e, p, moved, current)
    requires Holds(queue, e) && (queue == [] || queue[0].seqId != current)
    ensures Q.AccQ(e, p, q.seqToIx, if current > q.next then current else q.next) == Q.Promote(q)
    ensures p == q.promoted + Elems(moved)
    ensures forall i :: 0 <= i < |moved| ==> moved[i].seqId == q.next + i
  {
    HoldsSame(queue, e);
    if queue != [] {
      assert queue[0] in e;
    }
    RootAbsent(queue, e, q.next + |moved|);
    MoveEnd(q, e, p, moved, current);
  }

  lemma MoveEnd(q: Q.AccQ, e: set<Ix>, p: set<Ix>, moved: seq<Ix>, current: nat)
    requires Q.Settling(q) && Moving(q, e, p, moved, current) && q.next + |moved| !in Q.Ids(e)
    ensures Q.AccQ(e, p, q.seqToIx, if current > q.next then current else q.next) == Q.Promote(q)
  {
    var reach := q.next + |moved|;
    var end := Q.RunEnd(Q.Ids(q.enqueued), q.next);
    assert forall x :: x in q.enqueued && x.seqId == reach ==> x in e;
    assert forall i :: q.next <= i < reach ==> i in Q.Ids(q.enqueued) by {
      forall i | q.next <= i < reach ensures i in Q.Ids(q.enqueued) { assert moved[i - q.next] in moved; }
    }
    assert reach !in Q.Ids(q.enqueued);
    assert end == reach;
    assert Elems(moved) == set x | x in q.enqueued && q.next <= x.seqId < end;
  }

  lemma NothingToMove(q: Q.AccQ, queue: seq<Ix>)
    requires Q.Settling(q) && Holds(queue, q.enqueued) && (queue == [] || queue[0].seqId > q.next)
    ensures Q.Promote(q) == q
  {
    RootAbsent(queue, q.enqueued, q.next);
    Q.PromoteMoves(q);
  }

  /** A heap whose least id is not below `i` and not `i` does not hold `i`. */
  lemma RootAbsent(queue: seq<Ix>, s: set<Ix>, i: nat)
    requires Holds(queue, s) && (queue == [] || queue[0].seqId > i)
    ensures i !in Q.Ids(s)
  {
    HoldsSame(queue, s);
    forall x | x in s
      ensures x.seqId != i
    {
      var j :| 0 <= j < |queue| && queue[j] == x;
      MinSeqHeap.RootIsLeast(queue, j);
    }
  }

  /** The promotion loop: pops while the ids run on, pushing each to the promoted heap; `current` is
      where the counter ends. */
  method MoveRun(enqueued: seq<Ix>, promoted: seq<Ix>, next: nat, ghost q: Q.AccQ)
    returns (waiting: seq<Ix>, ready: seq<Ix>, moved: seq<Ix>, current: nat)
    requires Q.Settling(q) && Holds(enqueued, q.enqueued) && Holds(promoted, q.promoted) && next == q.next
    ensures Holds(waiting, Q.Promote(q).enqueued) && Holds(ready, Q.Promote(q).promoted)
    ensures Q.Promote(q).next == (if current > next then current else next)
    ensures Q.Promote(q).seqToIx == q.seqToIx && Q.Promote(q).promoted == q.promoted + Elems(moved)
    ensures forall i :: 0 <= i < |moved| ==> moved[i].seqId == next + i
  {
    hide Q.Settling, Q.Promote, Moving, Holds;
    waiting, ready, moved, current := enqueued, promoted, [], next;
    if waiting == [] || waiting[0].seqId > next {
      NothingToMove(q, waiting);
      return;
    }
    MoveStart(q, waiting);
    ghost var e, p := q.enqueued, q.promoted;
    current := waiting[0].seqId;
    while waiting != [] && waiting[0].seqId == current
      invariant Moving(q, e, p, moved, current)
      invariant Holds(waiting, e) && Holds(ready, p)
      decreases |e|
    {
      var ix;
      waiting, ix := PopFrom(waiting, e);
      MoveOne(q, e, p, moved, current, ix);
      ready := PushTo(ready, p, ix);
      moved := moved + [ix];
      e, p := e - {ix}, p + {ix};
      current := Add64(current, 1);
    }
    MoveDone(q, e, p, moved, current, waiting);
  }

  /** The next id waits exactly when it is at the root. */
  lemma LeastIsNext(queue: seq<Ix>, q: Q.AccQ)
    requires Holds(queue, q.enqueued) && Q.Settling(q)
    ensures q.next in Q.Ids(q.enqueued) <==> queue != [] && queue[0].seqId == q.next
  {
    HoldsSame(queue, q.enqueued);
    if !(queue != [] && queue[0].seqId == q.next) {
      RootAbsent(queue, q.enqueued, q.next);
    }
  }

  class AccountQueue {
    var enqueued: seq<Ix>
    var promoted: seq<Ix>
    var seqToIx: map<nat, Ix>
    var next: nat

    ghost function State(): Q.AccQ
      reads this
    {
      Q.AccQ(Elems(enqueued), Elems(promoted), seqToIx, next)
    }

    ghost predicate WellFormed()
      reads this
    {
      Holds(enqueued, State().enqueued) && Holds(promoted, State().promoted)
    }

    constructor (start: nat)
      ensures WellFormed() && State() == Q.Dropped(start)
    {
      enqueued, promoted, seqToIx, next := [], [], map[], start;
    }

    method Enqueue(ix: Ix, replace: bool) returns (replacedInPromoted: bool)
      requires WellFormed() && Q.Valid(State())
      requires replace <==> ix.seqId in seqToIx
      modifies this
      ensures WellFormed() && State() == Q.Enqueue(old(State()), ix, replace)
      ensures replacedInPromoted <==> replace && ix.seqId !in Q.Ids(old(State()).enqueued)
    {
      hide MinSeqHeap.IsHeap, Q.Settling;
      ghost var q := State();
      Q.ValidParts(q);
      seqToIx := seqToIx[ix.seqId := ix];
      replacedInPromoted := false;
      if !replace {
        enqueued := PushTo(enqueued, q.enqueued, ix);
        HoldsSame(enqueued, q.enqueued + {ix});
        return;
      }
      var found;
      enqueued, found := ReplaceIn(enqueued, q.enqueued, ix);
      if !found {
        promoted, replacedInPromoted := ReplaceIn(promoted, q.promoted, ix);
      }
      HoldsSame(enqueued, if found then Q.Replaced(q.enqueued, ix) else q.enqueued);
      HoldsSame(promoted, if replacedInPromoted then Q.Replaced(q.promoted, ix) else q.promoted);
    }

    /** Moves the run that starts at `next` and reports it in ascending order. */
    method Promote() returns (count: nat, moved: seq<Ix>)
      requires WellFormed() && Q.Settling(State())
      modifies this
      ensures WellFormed() && State() == Q.Promote(old(State()))
      ensures count == |moved| && State().promoted == old(State()).promoted + Elems(moved)
      ensures forall i :: 0 <= i < |moved| ==> moved[i].seqId == old(next) + i
    {
      hide Q.Settling, Q.RunEnd, Q.Promote;
      ghost var q := State();
      var current;
      enqueued, promoted, moved, current := MoveRun(enqueued, promoted, next, q);
      count := |moved|;
      if current > next {
        next := current;
      }
      HoldsSame(enqueued, Q.Promote(q).enqueued);
      HoldsSame(promoted, Q.Promote(q).promoted);
    }

    /** Removes what a commit up to `latest` has settled from the promoted heap and the index. */
    method PrunePromoted(latest: nat) returns (pruned: seq<Ix>)
      requires WellFormed()
      modifies this
      ensures WellFormed() && Elems(pruned) == Q.Pruned(old(State()).promoted, latest)
      ensures multiset(pruned) == multiset(Elems(pruned))
      ensures State() == Q.Committed(old(State()), latest)
    {
      hide Holds, Q.Pruned, Q.Ids, Elems;
      ghost var s := State().promoted;
      promoted, pruned := Prune(promoted, s, latest);
      HoldsSame(promoted, s - Q.Pruned(s, latest));
      SameElems(pruned, Q.Pruned(s, latest));
      IdsListed(pruned);
      seqToIx := seqToIx - (set x | x in pruned :: x.seqId);
    }

    method PruneEnqueued(latest: nat) returns (pruned: seq<Ix>)
      requires WellFormed()
      modifies this
      ensures WellFormed() && Elems(pruned) == Q.Pruned(old(State()).enqueued, latest)
      ensures multiset(pruned) == multiset(Elems(pruned))
      ensures State() == Q.Overtaken(old(State()), latest)
    {
      hide Holds, Q.Pruned, Q.Ids, Elems;
      ghost var s := State().enqueued;
      enqueued, pruned := Prune(enqueued, s, latest);
      HoldsSame(enqueued, s - Q.Pruned(s, latest));
      SameElems(pruned, Q.Pruned(s, latest));
      IdsListed(pruned);
      seqToIx := seqToIx - (set x | x in pruned :: x.seqId);
    }

    /** Moves the counter on and promotes what it now reaches. */
    method Restart(latest: nat)
      requires WellFormed() && Q.Settling(State().(next := latest))
      modifies this
      ensures WellFormed() && State() == Q.Restarted(old(State()), latest)
    {
      hide Q.Settling, Q.Promote, MinSeqHeap.IsHeap;
      ghost var q := State().(next := latest);
      next := latest;
      LeastIsNext(enqueued, q);
      if enqueued != [] && enqueued[0].seqId == latest {
        var count, moved := Promote();
      }
    }

    /** Empties the waiting heap; the index forgets what was in it. */
    method ClearEnqueued() returns (dropped: seq<Ix>)
      requires WellFormed()
      modifies this
      ensures WellFormed() && Elems(dropped) == old(State()).enqueued
      ensures multiset(dropped) == multiset(Elems(dropped))
      ensures State() == Q.Cleared(old(State()))
    {
      dropped := enqueued;
      enqueued := [];
      seqToIx := seqToIx - (set x | x in dropped :: x.seqId);
    }

    /** Empties both heaps and the index and restarts at `seqId`. */
    method DropAll(seqId: nat) returns (ready: seq<Ix>, waiting: seq<Ix>)
      requires WellFormed()
      modifies this
      ensures WellFormed() && State() == Q.Dropped(seqId)
      ensures Elems(ready) == old(State()).promoted && multiset(ready) == multiset(Elems(ready))
      ensures Elems(waiting) == old(State()).enqueued && multiset(waiting) == multiset(Elems(waiting))
    {
      next, seqToIx := seqId, map[];
      ready, promoted := promoted, [];
      waiting, enqueued := enqueued, [];
    }
  }
}
