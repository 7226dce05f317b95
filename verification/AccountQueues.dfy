/** One queue per sender and key: what waits (`enqueued`), what can be proposed (`promoted`), and
    the index by sequence id. The contents of a heap are described by the set it holds. */
module AccountQueues {
  import opened Foundation
  import opened Interactions

  datatype AccQ = AccQ(enqueued: set<Ix>, promoted: set<Ix>, seqToIx: map<nat, Ix>, next: nat)

  function Ids(s: set<Ix>): set<nat> {
    set x | x in s :: x.seqId
  }

  function Content(q: AccQ): set<Ix> {
    q.enqueued + q.promoted
  }

  predicate DistinctIds(s: set<Ix>) {
    forall x, y :: x in s && y in s && x.seqId == y.seqId ==> x == y
  }

  /** From any of its ids up to `next`, the set has every id. */
  ghost predicate GapFree(s: set<Ix>, next: nat) {
    && (forall x :: x in s ==> x.seqId < next)
    && (forall x, i :: x in s && x.seqId <= i < next ==> i in Ids(s))
  }

  /** The index maps exactly the queued ids to the queued interactions. */
  ghost predicate Indexed(q: AccQ) {
    && (forall x :: x in Content(q) ==> x.seqId in q.seqToIx && q.seqToIx[x.seqId] == x)
    && (forall i :: i in q.seqToIx ==> q.seqToIx[i].seqId == i && q.seqToIx[i] in Content(q))
  }

  /** What holds between the steps of an operation: the next id itself may still be waiting. */
  ghost predicate Settling(q: AccQ) {
    && q.next < U64
    && GapFree(q.promoted, q.next)
    && (forall x :: x in q.enqueued ==> q.next <= x.seqId < U64)
    && DistinctIds(Content(q))
    && Indexed(q)
  }

  ghost predicate Valid(q: AccQ) {
    Settling(q) && q.next !in Ids(q.enqueued)
  }

  lemma ValidParts(q: AccQ)
    requires Valid(q)
    ensures DistinctIds(q.enqueued) && DistinctIds(q.promoted)
    ensures forall i :: i in q.seqToIx <==> i in Ids(q.enqueued) || i in Ids(q.promoted)
  {
    assert forall x :: x in q.enqueued ==> x in Content(q);
    assert forall x :: x in q.promoted ==> x in Content(q);
  }

  lemma PromotedIsInterval(q: AccQ)
    requires Settling(q)
    ensures PromotedInterval(q)
  {
    GapFreeIsInterval(q.promoted, q.next);
  }

  lemma {:induction false} GapFreeIsInterval(s: set<Ix>, next: nat)
    requires GapFree(s, next) && DistinctIds(s)
    ensures |s| <= next
    ensures forall i: nat :: i in Ids(s) <==> next - |s| <= i < next
    decreases |s|
  {
    if s != {} {
      var y :| y in s;
      assert next - 1 in Ids(s);
      var x :| x in s && x.seqId == next - 1;
      var t := s - {x};
      assert forall z :: z in s ==> z == x || (z in t && z.seqId < next - 1);
      forall z, i | z in t && z.seqId <= i < next - 1
        ensures i in Ids(t)
      {
        assert i in Ids(s);
      }
      GapFreeIsInterval(t, next - 1);
      assert forall i: nat :: i in Ids(s) <==> i in Ids(t) || i == next - 1;
    }
  }

  /** The first id from `from` on that is not in `ids`. */
  function RunEnd(ids: set<nat>, from: nat): (e: nat)
    ensures from <= e && e !in ids
    ensures forall i :: from <= i < e ==> i in ids
    decreases |ids|
  {
    if from in ids then
      assert |ids - {from}| < |ids|;
      var e := RunEnd(ids - {from}, from + 1);
      assert forall i :: from < i < e ==> i in ids by {
        forall i | from < i < e ensures i in ids { assert i in ids - {from}; }
      }
      e
    else from
  }

  /** Moves the run of consecutive ids that starts at `next`. The counter is 64 bits wide: a run that
      takes in the last id wraps it to 0, and a counter that did not grow is not stored. */
  function Promote(q: AccQ): AccQ {
    var e := RunEnd(Ids(q.enqueued), q.next);
    var moved := set x | x in q.enqueued && q.next <= x.seqId < e;
    AccQ(q.enqueued - moved, q.promoted + moved, q.seqToIx, if e < U64 then e else q.next)
  }

  /** The run that waits at the next id ends before the last id a counter can name. */
  predicate RunFits(q: AccQ) {
    RunEnd(Ids(q.enqueued), q.next) < U64
  }

  lemma PromoteMoves(q: AccQ)
    requires q.next < U64
    ensures Content(Promote(q)) == Content(q)
    ensures q.next !in Ids(q.enqueued) ==> RunFits(q) && Promote(q) == q
  {
    assert Content(Promote(q)) == Content(q);
  }

  lemma PromoteKeeps(q: AccQ)
    requires Settling(q) && RunFits(q)
    ensures Valid(Promote(q)) && Content(Promote(q)) == Content(q)
  {
    var p := Promote(q);
    PromoteMoves(q);
    forall x, i | x in p.promoted && x.seqId <= i < p.next
      ensures i in Ids(p.promoted)
    {
      if i >= q.next {
        assert i in Ids(q.enqueued);
        var y :| y in q.enqueued && y.seqId == i;
        assert y in p.promoted;
      } else {
        assert i in Ids(q.promoted);
        var y :| y in q.promoted && y.seqId == i;
        assert y in p.promoted;
      }
    }
  }

  /** Promotion keeps the queue in order exactly if the run does not take in the last id: otherwise the
      counter wraps, is not stored, and the queue's own next id ends up promoted. */
  lemma PromoteInOrderIff(q: AccQ)
    requires Settling(q)
    ensures InOrder(Promote(q)) <==> RunFits(q)
    ensures Valid(Promote(q)) <==> RunFits(q)
  {
    if RunFits(q) {
      PromoteKeeps(q);
      ValidIsInOrder(Promote(q));
    } else {
      assert q.next in Ids(q.enqueued);
      var x :| x in q.enqueued && x.seqId == q.next;
      assert x in Promote(q).promoted && Promote(q).next == q.next;
      assert q.next in Ids(Promote(q).promoted);
    }
  }

  /** The shortest failing run: only the id 2^64 - 1, and expected. */
  lemma LastIdIsLost(ix: Ix)
    requires ix.seqId == U64 - 1
    ensures var q := AccQ({ix}, {}, map[U64 - 1 := ix], U64 - 1);
            Settling(q) && !InOrder(Promote(q))
  {
    var q := AccQ({ix}, {}, map[U64 - 1 := ix], U64 - 1);
    assert ix.seqId in Ids(q.enqueued);
    PromoteInOrderIff(q);
  }

  /** The set with the element of ix's id replaced by ix. */
  function Replaced(s: set<Ix>, ix: Ix): set<Ix> {
    (set x | x in s && x.seqId != ix.seqId) + {ix}
  }

  function Enqueue(q: AccQ, ix: Ix, replace: bool): AccQ {
    var index := q.seqToIx[ix.seqId := ix];
    if !replace then q.(enqueued := q.enqueued + {ix}, seqToIx := index)
    else if ix.seqId in Ids(q.enqueued) then q.(enqueued := Replaced(q.enqueued, ix), seqToIx := index)
    else if ix.seqId in Ids(q.promoted) then q.(promoted := Replaced(q.promoted, ix), seqToIx := index)
    else q.(seqToIx := index)
  }

  /** An interaction is admitted when it replaces a queued one or is not below `next`. */
  predicate Admissible(q: AccQ, ix: Ix) {
    ix.seqId < U64 && (ix.seqId in q.seqToIx || q.next <= ix.seqId)
  }

  /** The interaction does not complete a run that takes in the last id. */
  predicate AdmitFits(q: AccQ, ix: Ix) {
    ix.seqId == q.next ==> RunEnd(Ids(q.enqueued) + {ix.seqId}, q.next) < U64
  }

  function Admit(q: AccQ, ix: Ix): AccQ {
    var q1 := Enqueue(q, ix, ix.seqId in q.seqToIx);
    if ix.seqId == q1.next then Promote(q1) else q1
  }

  lemma ReplacedKeepsIds(s: set<Ix>, ix: Ix)
    requires ix.seqId in Ids(s)
    ensures Ids(Replaced(s, ix)) == Ids(s)
  {
    var y :| y in s && y.seqId == ix.seqId;
    forall i | i in Ids(s)
      ensures i in Ids(Replaced(s, ix))
    {
      var x :| x in s && x.seqId == i;
      assert x in Replaced(s, ix) || ix.seqId == i;
    }
  }

  /** Index and ids follow when the content has one element replaced. */
  lemma IndexFollows(q: AccQ, q1: AccQ, ix: Ix)
    requires Indexed(q) && DistinctIds(Content(q))
    requires Content(q1) == Replaced(Content(q), ix) && q1.seqToIx == q.seqToIx[ix.seqId := ix]
    ensures Indexed(q1) && DistinctIds(Content(q1))
  {
  }

  lemma EnqueueNew(q: AccQ, ix: Ix)
    requires Valid(q) && Admissible(q, ix) && ix.seqId !in q.seqToIx
    ensures Settling(Enqueue(q, ix, false))
    ensures Content(Enqueue(q, ix, false)) == Replaced(Content(q), ix)
  {
    var q1 := Enqueue(q, ix, false);
    assert forall x :: x in Content(q) ==> x.seqId != ix.seqId;
    assert Content(q1) == Replaced(Content(q), ix);
    IndexFollows(q, q1, ix);
  }

  lemma ReplaceWaiting(q: AccQ, ix: Ix)
    requires Valid(q) && Admissible(q, ix) && ix.seqId in Ids(q.enqueued)
    ensures Valid(Enqueue(q, ix, true))
    ensures Content(Enqueue(q, ix, true)) == Replaced(Content(q), ix)
  {
    var q1 := Enqueue(q, ix, true);
    ReplacedKeepsIds(q.enqueued, ix);
    var y :| y in q.enqueued && y.seqId == ix.seqId;
    assert forall x :: x in q.promoted ==> x.seqId != ix.seqId;
    assert Content(q1) == Replaced(Content(q), ix);
    IndexFollows(q, q1, ix);
  }

  lemma GapFreeReplaced(s: set<Ix>, next: nat, ix: Ix)
    requires GapFree(s, next) && ix.seqId in Ids(s)
    ensures GapFree(Replaced(s, ix), next)
  {
    ReplacedKeepsIds(s, ix);
    var y :| y in s && y.seqId == ix.seqId;
    forall x, i | x in Replaced(s, ix) && x.seqId <= i < next
      ensures i in Ids(Replaced(s, ix))
    {
      var z := if x == ix then y else x;
      assert z in s && z.seqId == x.seqId;
      assert i in Ids(s);
    }
  }

  lemma ReplacePromoted(q: AccQ, ix: Ix)
    requires Valid(q) && Admissible(q, ix) && ix.seqId in Ids(q.promoted)
    ensures ix.seqId !in Ids(q.enqueued)
    ensures Valid(Enqueue(q, ix, true))
    ensures Content(Enqueue(q, ix, true)) == Replaced(Content(q), ix)
  {
    var q1 := Enqueue(q, ix, true);
    EnqueuedAreAbove(q);
    assert forall x :: x in q.promoted ==> x.seqId < q.next;
    assert ix.seqId !in Ids(q.enqueued);
    assert Content(q1) == Replaced(Content(q), ix);
    IndexFollows(q, q1, ix);
    GapFreeReplaced(q.promoted, q.next, ix);
    hide GapFree, Indexed, DistinctIds, Replaced;
  }

  /** What enqueueing leaves can be promoted. */
  lemma EnqueueSettles(q: AccQ, ix: Ix)
    requires Valid(q) && Admissible(q, ix)
    ensures Settling(Enqueue(q, ix, ix.seqId in q.seqToIx))
    ensures Content(Enqueue(q, ix, ix.seqId in q.seqToIx)) == Replaced(Content(q), ix)
  {
    hide Settling;
    ValidParts(q);
    if ix.seqId !in q.seqToIx {
      EnqueueNew(q, ix);
    } else if ix.seqId in Ids(q.enqueued) {
      ReplaceWaiting(q, ix);
    } else {
      ReplacePromoted(q, ix);
    }
  }

  lemma AdmitContent(q: AccQ, ix: Ix)
    requires Valid(q) && Admissible(q, ix)
    ensures Content(Admit(q, ix)) == Replaced(Content(q), ix)
  {
    EnqueueSettles(q, ix);
    PromoteMoves(Enqueue(q, ix, ix.seqId in q.seqToIx));
  }

  lemma EnqueuedRun(q: AccQ, ix: Ix)
    requires Valid(q) && ix.seqId == q.next
    ensures RunFits(Enqueue(q, ix, ix.seqId in q.seqToIx)) <==> AdmitFits(q, ix)
  {
    ValidParts(q);
    assert ix.seqId !in q.seqToIx;
    assert Ids(q.enqueued + {ix}) == Ids(q.enqueued) + {ix.seqId};
  }

  /** Admission swaps at most one interaction and keeps the rest; it restores the invariant exactly if it
      does not complete a run that takes in the last id. */
  lemma AdmitKeeps(q: AccQ, ix: Ix)
    requires Valid(q) && Admissible(q, ix)
    ensures Content(Admit(q, ix)) == Replaced(Content(q), ix)
    ensures Valid(Admit(q, ix)) <==> AdmitFits(q, ix)
    ensures InOrder(Admit(q, ix)) <==> AdmitFits(q, ix)
  {
    AdmitContent(q, ix);
    EnqueueSettles(q, ix);
    if ix.seqId != q.next {
      EnqueuedNext(q, ix);
      ValidIsInOrder(Admit(q, ix));
    } else {
      EnqueuedRun(q, ix);
      PromoteInOrderIff(Enqueue(q, ix, ix.seqId in q.seqToIx));
    }
    hide Settling, Promote, Enqueue, InOrder;
  }

  /** Unless the next id itself came in, enqueueing leaves nothing to promote. */
  lemma EnqueuedNext(q: AccQ, ix: Ix)
    requires Valid(q) && ix.seqId != q.next
    ensures q.next !in Ids(Enqueue(q, ix, ix.seqId in q.seqToIx).enqueued)
  {
  }

  /** Drops what lies below `seqId`, from the promoted side or from both. */
  function Pruned(s: set<Ix>, seqId: nat): set<Ix> {
    set x | x in s && x.seqId < seqId
  }

  /** The queue without the promoted interactions that a commit up to `latest` has settled. */
  function Committed(q: AccQ, latest: nat): AccQ {
    var p := Pruned(q.promoted, latest);
    q.(promoted := q.promoted - p, seqToIx := q.seqToIx - Ids(p))
  }

  /** The queue without the waiting interactions below `latest`. */
  function Overtaken(q: AccQ, latest: nat): AccQ {
    var e := Pruned(q.enqueued, latest);
    q.(enqueued := q.enqueued - e, seqToIx := q.seqToIx - Ids(e))
  }

  function Restarted(q: AccQ, latest: nat): AccQ {
    var q1 := q.(next := latest);
    if latest in Ids(q1.enqueued) then Promote(q1) else q1
  }

  /** What a commit up to `latest` leaves: a shorter promoted run, or a restart at `latest`. */
  function Reset(q: AccQ, latest: nat): AccQ {
    var q1 := Committed(q, latest);
    if latest <= q.next then q1 else Restarted(Overtaken(q1, latest), latest)
  }

  lemma CommittedKeeps(q: AccQ, latest: nat)
    requires Valid(q)
    ensures Valid(Committed(q, latest))
    ensures Content(Committed(q, latest)) == Content(q) - Pruned(q.promoted, latest)
    ensures Content(q) - Content(Committed(q, latest)) == Pruned(q.promoted, latest)
    ensures Committed(q, latest).next == q.next
    ensures latest > q.next ==> Committed(q, latest).promoted == {}
  {
    var q1 := Committed(q, latest);
    forall x, i | x in q1.promoted && x.seqId <= i < q.next
      ensures i in Ids(q1.promoted)
    {
      assert i in Ids(q.promoted);
      var y :| y in q.promoted && y.seqId == i;
      assert y in q1.promoted;
    }
  }

  lemma OvertakenKeeps(q: AccQ, latest: nat)
    requires Valid(q) && q.promoted == {} && q.next < latest < U64
    ensures Settling(Overtaken(q, latest).(next := latest))
    ensures Content(Overtaken(q, latest)) == Content(q) - Pruned(q.enqueued, latest)
    ensures Content(q) - Content(Overtaken(q, latest)) == Pruned(q.enqueued, latest)
  {
  }

  /** The run that waits at the committed id ends before the last id. */
  predicate RestartFits(q: AccQ, latest: nat) {
    latest > q.next ==> RunEnd(Ids(q.enqueued), latest) < U64
  }

  lemma RestartedKeeps(q: AccQ, latest: nat)
    requires Settling(q.(next := latest))
    ensures Content(Restarted(q, latest)) == Content(q)
    ensures Valid(Restarted(q, latest)) <==> RunFits(q.(next := latest))
    ensures InOrder(Restarted(q, latest)) <==> RunFits(q.(next := latest))
  {
    var q1 := q.(next := latest);
    PromoteMoves(q1);
    PromoteInOrderIff(q1);
  }

  /** Where a run ends depends only on the ids from its start on. */
  lemma SameRun(a: set<nat>, b: set<nat>, from: nat)
    requires forall i :: i >= from ==> (i in a <==> i in b)
    ensures RunEnd(a, from) == RunEnd(b, from)
  {
    var x, y := RunEnd(a, from), RunEnd(b, from);
    assert x < y ==> x in b;
    assert y < x ==> y in a;
  }

  lemma OvertakenRun(q: AccQ, latest: nat)
    ensures RunEnd(Ids(Overtaken(q, latest).enqueued), latest) == RunEnd(Ids(q.enqueued), latest)
  {
    var e := Overtaken(q, latest).enqueued;
    forall i | i >= latest
      ensures i in Ids(e) <==> i in Ids(q.enqueued)
    {
      if i in Ids(q.enqueued) {
        var x :| x in q.enqueued && x.seqId == i;
        assert x in e;
      }
    }
    SameRun(Ids(e), Ids(q.enqueued), latest);
  }

  lemma ResetContent(q: AccQ, latest: nat)
    requires Valid(q) && latest < U64
    ensures Content(Reset(q, latest)) ==
            Content(q) - Pruned(if latest <= q.next then q.promoted else Content(q), latest)
  {
    CommittedKeeps(q, latest);
    var q1 := Committed(q, latest);
    if latest > q.next {
      OvertakenKeeps(q1, latest);
      RestartedKeeps(Overtaken(q1, latest), latest);
    }
    hide Settling, Restarted, Valid, InOrder;
  }

  /** A commit keeps the queue in order exactly if the run it reaches does not take in the last id. */
  lemma ResetKeeps(q: AccQ, latest: nat)
    requires Valid(q) && latest < U64
    ensures Content(Reset(q, latest)) ==
            Content(q) - Pruned(if latest <= q.next then q.promoted else Content(q), latest)
    ensures Valid(Reset(q, latest)) <==> RestartFits(q, latest)
    ensures InOrder(Reset(q, latest)) <==> RestartFits(q, latest)
  {
    ResetContent(q, latest);
    CommittedKeeps(q, latest);
    var q1 := Committed(q, latest);
    assert q1.next == q.next && q1.enqueued == q.enqueued;
    if latest > q.next {
      OvertakenKeeps(q1, latest);
      OvertakenRun(q1, latest);
      RestartedKeeps(Overtaken(q1, latest), latest);
    } else {
      ValidIsInOrder(q1);
    }
    hide Settling, Restarted, Valid, InOrder, Committed, Overtaken, Content, Pruned, Ids, RunEnd;
  }

  /** A commit up to `latest` leaves exactly the interactions from `latest` on, and the queue expects an
      id no lower than before and no lower than that. */
  lemma ResetLeavesTheRest(q: AccQ, latest: nat)
    requires Valid(q) && latest < U64
    ensures Content(Reset(q, latest)) == set x | x in Content(q) && x.seqId >= latest
    ensures Reset(q, latest).next >= q.next && Reset(q, latest).next >= latest
  {
    ResetKeeps(q, latest);
    EnqueuedAreAbove(q);
    RestartsNoLower(Overtaken(Committed(q, latest), latest), latest);
    hide Valid, Restarted, Overtaken;
  }

  lemma RestartsNoLower(q: AccQ, latest: nat)
    ensures Restarted(q, latest).next >= latest
  {
  }

  /** Hearing of the same commit again changes nothing. */
  lemma ResetTwice(q: AccQ, latest: nat)
    requires Valid(q) && latest < U64
    ensures Reset(Reset(q, latest), latest) == Reset(q, latest)
  {
    var r := Reset(q, latest);
    ResetLeavesTheRest(q, latest);
    hide Valid, Reset;
    assert forall x :: x in r.promoted ==> x in Content(r);
    assert Pruned(r.promoted, latest) == {};
    CommittedNothing(r, latest);
  }

  lemma CommittedNothing(q: AccQ, latest: nat)
    requires Pruned(q.promoted, latest) == {} && latest <= q.next
    ensures Reset(q, latest) == q
  {
    assert q.promoted - {} == q.promoted;
    assert Ids({}) == {};
    assert q.seqToIx - {} == q.seqToIx;
  }

  /** Everything dropped; the queue restarts at `seqId`. */
  function Dropped(seqId: nat): AccQ {
    AccQ({}, {}, map[], seqId)
  }

  lemma DroppedIsValid(seqId: nat)
    requires seqId < U64
    ensures Valid(Dropped(seqId)) && Content(Dropped(seqId)) == {}
  {
  }

  /** What hole pruning leaves: waiting interactions go unless the next id is among them. */
  function Unholed(q: AccQ): AccQ {
    if q.enqueued == {} || q.next in Ids(q.enqueued) then q else Cleared(q)
  }

  function Cleared(q: AccQ): AccQ {
    q.(enqueued := {}, seqToIx := q.seqToIx - Ids(q.enqueued))
  }

  lemma ClearedKeeps(q: AccQ)
    requires Valid(q)
    ensures Valid(Cleared(q)) && Content(Cleared(q)) == q.promoted <= Content(q)
    ensures Content(q) - Content(Cleared(q)) == q.enqueued
  {
  }

  lemma UnholedKeeps(q: AccQ)
    requires Valid(q)
    ensures Valid(Unholed(q)) && Content(Unholed(q)) == q.promoted <= Content(q)
  {
    ClearedKeeps(q);
  }

  /** Promoted ids are exactly the interval of length |promoted| that ends at `next`. */
  ghost predicate PromotedInterval(q: AccQ) {
    && |q.promoted| <= q.next
    && (forall i: nat :: i in Ids(q.promoted) <==> q.next - |q.promoted| <= i < q.next)
  }

  /** The index has exactly the queued ids, and leads to the queued interactions. */
  ghost predicate IndexExact(q: AccQ) {
    && (forall i :: i in q.seqToIx <==> i in Ids(q.enqueued) || i in Ids(q.promoted))
    && (forall x :: x in Content(q) ==> x.seqId in q.seqToIx && q.seqToIx[x.seqId] == x)
  }

  /** The invariant in the words of the queue's documentation. */
  ghost predicate InOrder(q: AccQ) {
    && PromotedInterval(q)
    && (forall x :: x in q.enqueued ==> q.next < x.seqId)
    && DistinctIds(Content(q))
    && IndexExact(q)
  }

  lemma ValidIsInOrder(q: AccQ)
    requires Valid(q)
    ensures InOrder(q)
  {
    PromotedIsInterval(q);
    IndexIsExact(q);
    EnqueuedAreAbove(q);
    hide GapFree, PromotedInterval, IndexExact, Indexed, DistinctIds, Ids;
  }

  lemma EnqueuedAreAbove(q: AccQ)
    requires Valid(q)
    ensures forall x :: x in q.enqueued ==> q.next < x.seqId
  {
    hide GapFree, Indexed, DistinctIds;
    forall x | x in q.enqueued
      ensures q.next < x.seqId
    {
      assert x.seqId in Ids(q.enqueued);
    }
  }

  lemma IndexIsExact(q: AccQ)
    requires Valid(q)
    ensures IndexExact(q)
  {
    ValidParts(q);
  }
}
