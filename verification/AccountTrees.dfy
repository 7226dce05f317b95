/** The tree of accounts a pass walks, beside the pool: an account enters it when interactions are promoted
    and leaves it when a commit empties one of its promoted queues. */
module AccountTrees {
  import opened Foundation
  import opened Interactions
  import opened AccountQueues
  import B = Batches
  import M = Merging
  import P = Pools
  import SlotGauge

  /** The pool and the accounts in the tree. */
  datatype Walk = Walk(pool: P.Pool, tree: set<Identifier>)

  /** Admission promotes something. */
  predicate Promotes(q: AccQ, ix: Ix) {
    ix.seqId == q.next && q.next in Ids(Enqueue(q, ix, ix.seqId in q.seqToIx).enqueued)
  }

  /** A commit prunes promoted interactions and leaves none. */
  predicate Empties(q: AccQ, latest: nat) {
    Pruned(q.promoted, latest) != {} && q.promoted - Pruned(q.promoted, latest) == {}
  }

  /** A commit moves the queue on to an id that waits. */
  predicate Restarts(q: AccQ, latest: nat) {
    latest > q.next && latest in Ids(q.enqueued)
  }

  /** The tree after a commit to one queue of the account. */
  function Replanted(tree: set<Identifier>, id: Identifier, q: AccQ, latest: nat): set<Identifier> {
    var pruned := if Empties(q, latest) then tree - {id} else tree;
    if Restarts(q, latest) then pruned + {id} else pruned
  }

  ghost function ResetSender(w: Walk, ix: Ix, states: map<QKey, nat>): (r: Walk)
    requires P.HasAccount(w.pool, ix.sender) ==> KeyOf(ix) in w.pool.queues
    ensures r.pool == P.ResetSender(w.pool, ix, states)
  {
    Walk(P.ResetSender(w.pool, ix, states),
         if P.HasAccount(w.pool, ix.sender)
         then Replanted(w.tree, ix.sender, w.pool.queues[KeyOf(ix)], P.Latest(ix, states)) else w.tree)
  }

  ghost function ResetFrom(w: Walk, ixs: seq<Ix>, states: map<QKey, nat>, done: set<Identifier>): (r: Walk)
    requires P.KeysKnown(w.pool, ixs, done)
    ensures r.pool == P.ResetFrom(w.pool, ixs, states, done)
    decreases |ixs|
  {
    if ixs == [] then w
    else if ixs[0].sender in done then ResetFrom(w, ixs[1..], states, done)
    else
      var w1 := ResetSender(w, ixs[0], states);
      P.SameAccounts(w.pool, w1.pool, ixs[1..], done + {ixs[0].sender});
      ResetFrom(w1, ixs[1..], states, done + {ixs[0].sender})
  }

  ghost function Apply(w: Walk, s: P.Step): (r: Walk)
    requires P.Enabled(w.pool, s)
    ensures r.pool == P.Apply(w.pool, s)
  {
    match s
    case AddStep(ix, checksPass, stateSeq) =>
      var accepted := P.AddIx(w.pool, ix, checksPass, stateSeq).error.None?;
      var added := accepted && Promotes(P.Target(w.pool, ix, stateSeq), ix);
      Walk(P.Apply(w.pool, s), if added then w.tree + {ix.sender} else w.tree)
    case ResetStep(ixs, states) =>
      var w1 := w.(pool := w.pool.(lookup := w.pool.lookup - (set ix | ix in ixs :: ix.hash)));
      P.SameAccounts(w.pool, w1.pool, ixs, {});
      ResetFrom(w1, ixs, states, {})
    case _ => w.(pool := P.Apply(w.pool, s))
  }

  /** Every queue of the account that has promoted interactions is walked. */
  predicate WalkedFor(w: Walk, id: Identifier) {
    forall k :: k in w.pool.queues && k.0 == id && w.pool.queues[k].promoted != {} ==> id in w.tree
  }

  ghost predicate Walked(w: Walk) {
    forall id :: WalkedFor(w, id)
  }

  /** Another key of the account has promoted interactions. */
  predicate OtherPromoted(p: P.Pool, k: QKey) {
    exists j :: j in p.queues && j != k && j.0 == k.0 && p.queues[j].promoted != {}
  }

  /** A commit to the queue takes its account out of the tree while another of its queues needs it. */
  predicate Unwalks(p: P.Pool, k: QKey, latest: nat)
    requires k in p.queues
  {
    Empties(p.queues[k], latest) && !Restarts(p.queues[k], latest) && OtherPromoted(p, k)
  }

  /** None of the senders' first interactions does so. */
  predicate ResetWalks(p: P.Pool, ixs: seq<Ix>, states: map<QKey, nat>, done: set<Identifier>)
    decreases |ixs|
  {
    if ixs == [] then true
    else if ixs[0].sender in done then ResetWalks(p, ixs[1..], states, done)
    else
      && (KeyOf(ixs[0]) in p.queues ==> !Unwalks(p, KeyOf(ixs[0]), P.Latest(ixs[0], states)))
      && ResetWalks(p, ixs[1..], states, done + {ixs[0].sender})
  }

  predicate Walks(p: P.Pool, s: P.Step) {
    s.ResetStep? ==> ResetWalks(p, s.ixs, s.states, {})
  }

  /******* One queue *******/

  lemma PromoteAny(q: AccQ)
    ensures Promote(q).promoted == {} <==> q.promoted == {} && q.next !in Ids(q.enqueued)
  {
    if q.next in Ids(q.enqueued) {
      var x :| x in q.enqueued && x.seqId == q.next;
      assert x in Promote(q).promoted;
    }
  }

  lemma AdmitAny(q: AccQ, ix: Ix)
    ensures Admit(q, ix).promoted != {} ==> q.promoted != {} || Promotes(q, ix)
  {
    var q1 := Enqueue(q, ix, ix.seqId in q.seqToIx);
    assert ix.seqId in Ids(q.promoted) ==> q.promoted != {};
    assert q1.promoted != {} ==> q.promoted != {};
    PromoteAny(q1);
    hide Promote, Enqueue;
  }

  lemma ResetAny(q: AccQ, latest: nat)
    ensures AccountQueues.Reset(q, latest).promoted != {} <==>
            q.promoted - Pruned(q.promoted, latest) != {} || Restarts(q, latest)
  {
    if latest > q.next {
      var q1 := Overtaken(Committed(q, latest), latest).(next := latest);
      PromoteAny(q1);
      assert latest in Ids(q1.enqueued) <==> latest in Ids(q.enqueued) by {
        if latest in Ids(q.enqueued) {
          var x :| x in q.enqueued && x.seqId == latest;
          assert x in q1.enqueued;
        }
      }
      hide Promote, Ids;
    }
  }

  /******* One account *******/

  /** What a commit to one queue leaves the account walked: everything but what it unwalks. */
  lemma ResetQueueWalks(w: Walk, k: QKey, latest: nat)
    requires k in w.pool.queues && WalkedFor(w, k.0)
    ensures WalkedFor(Walk(P.ResetQueue(w.pool, k, latest), Replanted(w.tree, k.0, w.pool.queues[k], latest)), k.0) <==>
            !Unwalks(w.pool, k, latest)
  {
    var q := w.pool.queues[k];
    var r := Walk(P.ResetQueue(w.pool, k, latest), Replanted(w.tree, k.0, q, latest));
    ResetAny(q, latest);
    assert r.pool.queues[k].promoted == AccountQueues.Reset(q, latest).promoted;
    hide AccountQueues.Reset, Pruned, Restarts, SlotGauge.SlotSum, SlotGauge.Decrease;
    assert forall j :: j in w.pool.queues && j != k ==> r.pool.queues[j] == w.pool.queues[j];
    if Unwalks(w.pool, k, latest) {
      var j :| j in w.pool.queues && j != k && j.0 == k.0 && w.pool.queues[j].promoted != {};
      assert k.0 !in r.tree && j in r.pool.queues;
    }
  }

  lemma SameWalked(w: Walk, r: Walk, id: Identifier)
    requires r.pool.queues.Keys == w.pool.queues.Keys && (id in r.tree <==> id in w.tree)
    requires forall k :: k in w.pool.queues && k.0 == id ==> r.pool.queues[k].promoted == w.pool.queues[k].promoted
    ensures WalkedFor(r, id) <==> WalkedFor(w, id)
  {
    assert forall k :: k in w.pool.queues <==> k in r.pool.queues;
  }

  /** A commit concerns the sender's account only. */
  lemma ResetOthers(w: Walk, ix: Ix, states: map<QKey, nat>)
    requires P.HasAccount(w.pool, ix.sender) ==> KeyOf(ix) in w.pool.queues
    ensures var r := ResetSender(w, ix, states);
            && r.pool.queues.Keys == w.pool.queues.Keys
            && (forall k :: k in w.pool.queues && k.0 != ix.sender ==> r.pool.queues[k] == w.pool.queues[k])
            && (forall id :: id != ix.sender ==> (id in r.tree <==> id in w.tree))
  {
    hide AccountQueues.Reset, SlotGauge.SlotSum, SlotGauge.Decrease, Empties, Restarts;
  }

  /** Accounts of senders already handled stay walked or not, as they are. */
  lemma {:induction false} ResetLeaves(w: Walk, ixs: seq<Ix>, states: map<QKey, nat>, done: set<Identifier>,
                                       id: Identifier)
    requires P.KeysKnown(w.pool, ixs, done) && id in done
    ensures WalkedFor(ResetFrom(w, ixs, states, done), id) <==> WalkedFor(w, id)
    decreases |ixs|
  {
    hide WalkedFor, ResetSender;
    if ixs == [] {
    } else if ixs[0].sender in done {
      ResetLeaves(w, ixs[1..], states, done, id);
    } else {
      var w1 := ResetSender(w, ixs[0], states);
      P.SameAccounts(w.pool, w1.pool, ixs[1..], done + {ixs[0].sender});
      ResetLeaves(w1, ixs[1..], states, done + {ixs[0].sender}, id);
      ResetOthers(w, ixs[0], states);
      SameWalked(w, w1, id);
    }
  }

  lemma SameOther(p: P.Pool, r: P.Pool, k: QKey)
    requires r.queues.Keys == p.queues.Keys
    requires forall j :: j in p.queues && j.0 == k.0 ==> r.queues[j] == p.queues[j]
    ensures OtherPromoted(r, k) <==> OtherPromoted(p, k)
  {
    if OtherPromoted(p, k) {
      var j :| j in p.queues && j != k && j.0 == k.0 && p.queues[j].promoted != {};
      assert j in r.queues;
    }
    if OtherPromoted(r, k) {
      var j :| j in r.queues && j != k && j.0 == k.0 && r.queues[j].promoted != {};
      assert j in p.queues;
    }
  }

  /** What the rest of a reset unwalks does not depend on the accounts of senders already handled. */
  lemma {:induction false} SameWalks(p: P.Pool, r: P.Pool, ixs: seq<Ix>, states: map<QKey, nat>, done: set<Identifier>)
    requires r.queues.Keys == p.queues.Keys
    requires forall k :: k in p.queues && k.0 !in done ==> r.queues[k] == p.queues[k]
    ensures ResetWalks(r, ixs, states, done) <==> ResetWalks(p, ixs, states, done)
    decreases |ixs|
  {
    hide OtherPromoted, Empties, Restarts;
    if ixs != [] {
      SameWalks(p, r, ixs[1..], states, done + {ixs[0].sender});
      SameWalks(p, r, ixs[1..], states, done);
      if ixs[0].sender !in done {
        SameOther(p, r, KeyOf(ixs[0]));
        assert KeyOf(ixs[0]) in p.queues <==> KeyOf(ixs[0]) in r.queues;
      }
    }
  }

  lemma ResetSenderWalks(w: Walk, ix: Ix, states: map<QKey, nat>)
    requires (P.HasAccount(w.pool, ix.sender) ==> KeyOf(ix) in w.pool.queues) && WalkedFor(w, ix.sender)
    ensures WalkedFor(ResetSender(w, ix, states), ix.sender) <==>
            (KeyOf(ix) in w.pool.queues ==> !Unwalks(w.pool, KeyOf(ix), P.Latest(ix, states)))
  {
    hide WalkedFor, Unwalks, Replanted, P.ResetQueue;
    if KeyOf(ix) in w.pool.queues {
      assert P.HasAccount(w.pool, ix.sender);
      ResetQueueWalks(w, KeyOf(ix), P.Latest(ix, states));
    }
  }

  ghost predicate WalkedBut(w: Walk, done: set<Identifier>) {
    forall id :: id !in done ==> WalkedFor(w, id)
  }

  /** A reset leaves every account walked exactly if no sender's commit unwalks its own. */
  lemma {:induction false} ResetFromWalks(w: Walk, ixs: seq<Ix>, states: map<QKey, nat>, done: set<Identifier>)
    requires P.KeysKnown(w.pool, ixs, done) && WalkedBut(w, done)
    ensures WalkedBut(ResetFrom(w, ixs, states, done), done) <==> ResetWalks(w.pool, ixs, states, done)
    decreases |ixs|
  {
    hide WalkedFor, ResetSender, Unwalks;
    if ixs == [] {
    } else if ixs[0].sender in done {
      ResetFromWalks(w, ixs[1..], states, done);
    } else {
      var h := ixs[0].sender;
      var w1 := ResetSender(w, ixs[0], states);
      P.SameAccounts(w.pool, w1.pool, ixs[1..], done + {ixs[0].sender});
      ResetOthers(w, ixs[0], states);
      forall id | id !in done + {h}
        ensures WalkedFor(w1, id)
      {
        SameWalked(w, w1, id);
      }
      ResetSenderWalks(w, ixs[0], states);
      SameWalks(w.pool, w1.pool, ixs[1..], states, done + {h});
      ResetFromWalks(w1, ixs[1..], states, done + {h});
      ResetLeaves(w1, ixs[1..], states, done + {h}, h);
      SplitWalked(ResetFrom(w, ixs, states, done), done, h);
    }
  }

  lemma SplitWalked(w: Walk, done: set<Identifier>, h: Identifier)
    requires h !in done
    ensures WalkedBut(w, done) <==> WalkedBut(w, done + {h}) && WalkedFor(w, h)
  {
    hide WalkedFor;
  }

  /******* All steps *******/

  lemma AddWalks(w: Walk, ix: Ix, checksPass: bool, stateSeq: Option<nat>)
    requires P.Enabled(w.pool, P.AddStep(ix, checksPass, stateSeq)) && Walked(w)
    ensures Walked(Apply(w, P.AddStep(ix, checksPass, stateSeq)))
  {
    var r := Apply(w, P.AddStep(ix, checksPass, stateSeq));
    var q := P.Target(w.pool, ix, stateSeq);
    AdmitAny(q, ix);
    AddQueues(w.pool, ix, checksPass, stateSeq);
    forall id
      ensures WalkedFor(r, id)
    {
      assert WalkedFor(w, id);
    }
  }

  lemma AddQueues(p: P.Pool, ix: Ix, checksPass: bool, stateSeq: Option<nat>)
    ensures var r := P.AddIx(p, ix, checksPass, stateSeq);
            forall k :: k in r.pool.queues ==>
              || (k in p.queues && r.pool.queues[k] == p.queues[k])
              || r.pool.queues[k].promoted == {}
              || (k == KeyOf(ix) && r.error.None? && r.pool.queues[k] == Admit(P.Target(p, ix, stateSeq), ix)
                  && (k in p.queues || P.Target(p, ix, stateSeq).promoted == {}))
  {
    hide Admit, SlotGauge.Raised, SlotGauge.Undone, SlotGauge.Lowered, SlotGauge.HighPressure, P.Refusal;
  }

  lemma PruneWalks(w: Walk, k: QKey)
    requires Walked(w)
    ensures Walked(w.(pool := P.PruneHole(w.pool, k)))
  {
    var r := w.(pool := P.PruneHole(w.pool, k));
    forall id
      ensures WalkedFor(r, id)
    {
      assert WalkedFor(w, id);
    }
  }

  lemma {:induction false} PruneAllWalks(w: Walk, order: seq<QKey>)
    requires Walked(w)
    ensures Walked(w.(pool := P.PruneHoles(w.pool, order)))
    decreases |order|
  {
    if order != [] {
      PruneWalks(w, order[0]);
      PruneAllWalks(w.(pool := P.PruneHole(w.pool, order[0])), order[1..]);
    }
  }

  lemma DropWalks(w: Walk, ix: Ix, stateSeq: Option<nat>)
    requires Walked(w)
    ensures Walked(w.(pool := P.Drop(w.pool, ix, stateSeq)))
  {
    var r := w.(pool := P.Drop(w.pool, ix, stateSeq));
    forall id
      ensures WalkedFor(r, id)
    {
      assert WalkedFor(w, id);
    }
  }

  /** Every step keeps all promoted queues walked, but a commit that takes a sender out of the tree while
      another of its keys has promoted interactions. */
  lemma StepWalks(w: Walk, s: P.Step)
    requires P.Enabled(w.pool, s) && Walked(w)
    ensures Walked(Apply(w, s)) <==> Walks(w.pool, s)
  {
    match s
    case AddStep(ix, checksPass, stateSeq) => AddWalks(w, ix, checksPass, stateSeq);
    case ResetStep(ixs, states) =>
      var w1 := w.(pool := w.pool.(lookup := w.pool.lookup - (set ix | ix in ixs :: ix.hash)));
      forall id
        ensures WalkedFor(w1, id)
      {
        SameWalked(w, w1, id);
      }
      P.SameAccounts(w.pool, w1.pool, ixs, {});
      SameWalks(w.pool, w1.pool, ixs, states, {});
      ResetFromWalks(w1, ixs, states, {});
      hide WalkedFor, ResetFrom, ResetWalks;
      assert Walked(Apply(w, s)) <==> WalkedBut(Apply(w, s), {});
    case DropStep(ix, stateSeq) => DropWalks(w, ix, stateSeq);
    case PruneStep(order) => PruneAllWalks(w, order);
  }

  ghost predicate IsRun(states: seq<Walk>, steps: seq<P.Step>) {
    && |states| == |steps| + 1
    && forall i :: 0 <= i < |steps| ==>
         P.Enabled(states[i].pool, steps[i]) && states[i + 1] == Apply(states[i], steps[i])
  }

  /** A run keeps every promoted queue walked throughout exactly if none of its steps unwalks one. */
  lemma {:induction false} WalkedIff(states: seq<Walk>, steps: seq<P.Step>, n: nat)
    requires IsRun(states, steps) && n <= |steps| && Walked(states[0])
    ensures (forall i :: 0 <= i <= n ==> Walked(states[i])) <==>
            forall i :: 0 <= i < n ==> Walks(states[i].pool, steps[i])
  {
    hide Walked, Walks, Apply, P.Enabled;
    if n > 0 {
      var last := n - 1;
      WalkedIff(states, steps, last);
      assert states[last + 1] == Apply(states[last], steps[last]);
      if Walked(states[last]) {
        StepWalks(states[last], steps[last]);
      }
    }
  }

  /** The lanes of a pass are the promoted interactions of the accounts in the tree. */
  ghost predicate IsWalk(lanes: seq<B.Lane>, w: Walk) {
    && (forall lane :: lane in lanes ==>
          lane.key in w.pool.queues && lane.key.0 in w.tree &&
          (set x | x in lane.ixs) == w.pool.queues[lane.key].promoted)
    && (forall k :: k in w.pool.queues && k.0 in w.tree ==> exists lane :: lane in lanes && lane.key == k)
  }

  /** So a pass takes every promoted interaction into account exactly if every promoted queue is walked. */
  lemma PassSeesAll(lanes: seq<B.Lane>, w: Walk)
    requires IsWalk(lanes, w)
    requires forall k, x :: k in w.pool.queues && x in w.pool.queues[k].promoted ==> KeyOf(x) == k
    ensures (forall k, x :: k in w.pool.queues && x in w.pool.queues[k].promoted ==> x in M.AllOf(lanes)) <==> Walked(w)
  {
    if Walked(w) {
      forall k, x | k in w.pool.queues && x in w.pool.queues[k].promoted
        ensures x in M.AllOf(lanes)
      {
        assert WalkedFor(w, k.0);
        var lane :| lane in lanes && lane.key == k;
        assert x in set y | y in lane.ixs;
      }
    } else {
      var id :| !WalkedFor(w, id);
      var k :| k in w.pool.queues && k.0 == id && w.pool.queues[k].promoted != {} && id !in w.tree;
      var x :| x in w.pool.queues[k].promoted;
      assert KeyOf(x) == k;
      forall lane | lane in lanes
        ensures x !in lane.ixs
      {
        assert lane.key.0 in w.tree && lane.key != k;
        assert x in lane.ixs <==> x in set y | y in lane.ixs;
        assert x in lane.ixs <==> x in w.pool.queues[lane.key].promoted;
      }
      assert x !in M.AllOf(lanes);
    }
  }

  /** The smallest run: one sender adds one interaction under each of two keys, and both are promoted. A
      commit of the first takes the sender out of the tree, and the second is no longer walked. */
  lemma SecondKeyIsForgotten(x: Ix, y: Ix)
    requires P.IsFirst(x) && P.IsFirst(y) && x.sender == y.sender && x.key != y.key && x.hash != y.hash
    ensures var w0 := Walk(P.Empty(1000), {});
            var w1 := Apply(w0, P.AddStep(x, true, None));
            var w2 := Apply(w1, P.AddStep(y, true, None));
            && P.Enabled(w2.pool, P.ResetStep([x], map[]))
            && Walked(w0) && Walked(w1) && Walked(w2) && !Walked(Apply(w2, P.ResetStep([x], map[])))
  {
    var w0 := Walk(P.Empty(1000), {});
    P.FirstAdded(w0.pool, x);
    AddWalks(w0, x, true, None);
    var w1 := Apply(w0, P.AddStep(x, true, None));
    P.FirstAdded(w1.pool, y);
    AddWalks(w1, y, true, None);
    var w2 := Apply(w1, P.AddStep(y, true, None));
    FirstIsCommitted(w2.pool, x, y);
    StepWalks(w2, P.ResetStep([x], map[]));
    hide Apply, Walked;
  }

  lemma FirstIsCommitted(p: P.Pool, x: Ix, y: Ix)
    requires P.IsFirst(x) && P.IsFirst(y) && x.sender == y.sender && KeyOf(x) != KeyOf(y)
    requires KeyOf(x) in p.queues && p.queues[KeyOf(x)] == P.FirstQueue(x)
    requires KeyOf(y) in p.queues && p.queues[KeyOf(y)] == P.FirstQueue(y)
    ensures P.Enabled(p, P.ResetStep([x], map[])) && !Walks(p, P.ResetStep([x], map[]))
  {
    assert x in Pruned(p.queues[KeyOf(x)].promoted, 1);
    assert y in p.queues[KeyOf(y)].promoted;
    assert OtherPromoted(p, KeyOf(x)) && Unwalks(p, KeyOf(x), P.Latest(x, map[]));
    assert [x][1..] == [];
    assert P.KeysKnown(p, [x], {});
  }

  /******* How accounts come and go *******/

  /** An interaction of the account is promoted in `r` that was not in `p`. */
  ghost predicate NewlyPromoted(p: P.Pool, r: P.Pool, id: Identifier) {
    exists k, x :: k in r.queues && k.0 == id && x in r.queues[k].promoted &&
      (k !in p.queues || x !in p.queues[k].promoted)
  }

  /** A queue of the account had promoted interactions in `p` and has none in `r`. */
  ghost predicate Emptied(p: P.Pool, r: P.Pool, id: Identifier) {
    exists k :: k in p.queues && k in r.queues && k.0 == id && p.queues[k].promoted != {} && r.queues[k].promoted == {}
  }

  lemma RestartPromotes(q: AccQ, latest: nat)
    requires Valid(q) && Restarts(q, latest)
    ensures exists x :: x in AccountQueues.Reset(q, latest).promoted && x !in q.promoted
  {
    var q1 := Overtaken(Committed(q, latest), latest).(next := latest);
    var x :| x in q.enqueued && x.seqId == latest;
    assert x in q1.enqueued && latest in Ids(q1.enqueued);
    assert x in Promote(q1).promoted;
  }

  lemma EmptiedHadSome(q: AccQ, latest: nat)
    requires Empties(q, latest) && !Restarts(q, latest)
    ensures q.promoted != {} && AccountQueues.Reset(q, latest).promoted == {}
  {
    ResetAny(q, latest);
  }

  lemma ResetSenderMoves(w: Walk, ix: Ix, states: map<QKey, nat>)
    requires P.HasAccount(w.pool, ix.sender) ==> KeyOf(ix) in w.pool.queues && Valid(w.pool.queues[KeyOf(ix)])
    ensures var r := ResetSender(w, ix, states);
            && (ix.sender in r.tree && ix.sender !in w.tree ==> NewlyPromoted(w.pool, r.pool, ix.sender))
            && (ix.sender !in r.tree && ix.sender in w.tree ==> Emptied(w.pool, r.pool, ix.sender))
  {
    if P.HasAccount(w.pool, ix.sender) {
      var k, q, n := KeyOf(ix), w.pool.queues[KeyOf(ix)], P.Latest(ix, states);
      var r := ResetSender(w, ix, states);
      assert r.pool.queues[k] == AccountQueues.Reset(q, n);
      hide AccountQueues.Reset, Valid, SlotGauge.SlotSum, SlotGauge.Decrease;
      if Restarts(q, n) {
        RestartPromotes(q, n);
        var x :| x in AccountQueues.Reset(q, n).promoted && x !in q.promoted;
        assert k in r.pool.queues && k.0 == ix.sender;
      } else if Empties(q, n) {
        EmptiedHadSome(q, n);
        assert k in r.pool.queues && k.0 == ix.sender;
      }
      hide Restarts, Empties;
    }
  }

  lemma SameMoves(p: P.Pool, q: P.Pool, r: P.Pool, t: P.Pool, id: Identifier)
    requires p.queues.Keys == q.queues.Keys == r.queues.Keys == t.queues.Keys
    requires forall k :: k in p.queues && k.0 == id ==> p.queues[k] == q.queues[k] && r.queues[k] == t.queues[k]
    ensures NewlyPromoted(p, r, id) <==> NewlyPromoted(q, t, id)
    ensures Emptied(p, r, id) <==> Emptied(q, t, id)
  {
    assert forall k :: k in p.queues <==> k in q.queues;
    assert forall k :: k in p.queues <==> k in r.queues;
    assert forall k :: k in p.queues <==> k in t.queues;
  }

  lemma {:induction false} ResetFromLeaves(w: Walk, ixs: seq<Ix>, states: map<QKey, nat>, done: set<Identifier>,
                                           id: Identifier)
    requires P.KeysKnown(w.pool, ixs, done) && id in done
    ensures var r := ResetFrom(w, ixs, states, done);
            && r.pool.queues.Keys == w.pool.queues.Keys && (id in r.tree <==> id in w.tree)
            && forall k :: k in w.pool.queues && k.0 == id ==> r.pool.queues[k] == w.pool.queues[k]
    decreases |ixs|
  {
    hide ResetSender;
    if ixs == [] {
    } else if ixs[0].sender in done {
      ResetFromLeaves(w, ixs[1..], states, done, id);
    } else {
      var w1 := ResetSender(w, ixs[0], states);
      P.SameAccounts(w.pool, w1.pool, ixs[1..], done + {ixs[0].sender});
      ResetOthers(w, ixs[0], states);
      ResetFromLeaves(w1, ixs[1..], states, done + {ixs[0].sender}, id);
    }
  }

  ghost predicate MovesWithQueues(w: Walk, r: Walk, id: Identifier) {
    && (id in r.tree && id !in w.tree ==> NewlyPromoted(w.pool, r.pool, id))
    && (id !in r.tree && id in w.tree ==> Emptied(w.pool, r.pool, id))
  }

  lemma {:induction false} ResetFromMoves(w: Walk, ixs: seq<Ix>, states: map<QKey, nat>, done: set<Identifier>,
                                          id: Identifier)
    requires P.KeysKnown(w.pool, ixs, done) && P.Resettable(w.pool, done) && id !in done
    requires forall k :: k in states ==> states[k] < U64
    ensures ResetFrom(w, ixs, states, done).pool.queues.Keys == w.pool.queues.Keys
    ensures MovesWithQueues(w, ResetFrom(w, ixs, states, done), id)
    decreases |ixs|
  {
    hide ResetSender, NewlyPromoted, Emptied, Valid;
    if ixs == [] {
    } else if ixs[0].sender in done {
      ResetFromMoves(w, ixs[1..], states, done, id);
    } else {
      var h := ixs[0].sender;
      var w1 := ResetSender(w, ixs[0], states);
      P.SameAccounts(w.pool, w1.pool, ixs[1..], done + {h});
      P.ResetSenderCounts(w.pool, ixs[0], states, done);
      ResetOthers(w, ixs[0], states);
      var r := ResetFrom(w, ixs, states, done);
      if id == h {
        ResetFromLeaves(w1, ixs[1..], states, done + {h}, h);
        ResetSenderMoves(w, ixs[0], states);
        SameMoves(w.pool, w.pool, w1.pool, r.pool, h);
      } else {
        ResetFromMoves(w1, ixs[1..], states, done + {h}, id);
        SameMoves(w.pool, w1.pool, r.pool, r.pool, id);
      }
    }
  }

  lemma PromotesOne(q: AccQ, ix: Ix)
    requires Valid(q) && Promotes(q, ix)
    ensures exists x :: x in Admit(q, ix).promoted && x !in q.promoted
  {
    var q1 := Enqueue(q, ix, ix.seqId in q.seqToIx);
    ValidParts(q);
    var x :| x in q1.enqueued && x.seqId == q1.next;
    assert x in Promote(q1).promoted;
    assert x !in q.promoted;
  }

  lemma AddMoves(w: Walk, ix: Ix, checksPass: bool, stateSeq: Option<nat>, id: Identifier)
    requires P.Inv(w.pool) && P.Enabled(w.pool, P.AddStep(ix, checksPass, stateSeq))
    ensures MovesWithQueues(w, Apply(w, P.AddStep(ix, checksPass, stateSeq)), id)
  {
    var s := P.AddStep(ix, checksPass, stateSeq);
    var r, q, k := Apply(w, s), P.Target(w.pool, ix, stateSeq), KeyOf(ix);
    if id in r.tree && id !in w.tree {
      TargetIsValid(w.pool, ix, stateSeq);
      AcceptedQueue(w.pool, ix, checksPass, stateSeq);
      PromotesOne(q, ix);
      var x :| x in Admit(q, ix).promoted && x !in q.promoted;
      assert k in r.pool.queues && x in r.pool.queues[k].promoted && k.0 == id;
    }
    hide P.Inv, Admit, Promotes, P.Target, P.AddIx;
  }

  lemma TargetIsValid(p: P.Pool, ix: Ix, stateSeq: Option<nat>)
    requires P.Inv(p) && P.Enabled(p, P.AddStep(ix, true, stateSeq))
    ensures Valid(P.Target(p, ix, stateSeq))
  {
    if KeyOf(ix) in p.queues {
      P.InvParts(p, KeyOf(ix));
    } else {
      DroppedIsValid(stateSeq.GetOr(ix.seqId));
    }
  }

  lemma AcceptedQueue(p: P.Pool, ix: Ix, checksPass: bool, stateSeq: Option<nat>)
    requires P.AddIx(p, ix, checksPass, stateSeq).error.None?
    ensures var r := P.AddIx(p, ix, checksPass, stateSeq).pool;
            KeyOf(ix) in r.queues && r.queues[KeyOf(ix)] == Admit(P.Target(p, ix, stateSeq), ix)
  {
    hide Admit, SlotGauge.Raised, SlotGauge.Undone, SlotGauge.Lowered, SlotGauge.HighPressure, P.Refusal;
  }

  /** An account enters the tree only as an interaction of it is promoted, and leaves it only as a commit
      empties one of its promoted queues. */
  lemma TreeMovesWithQueues(w: Walk, s: P.Step, id: Identifier)
    requires P.Inv(w.pool) && P.Enabled(w.pool, s)
    ensures MovesWithQueues(w, Apply(w, s), id)
    ensures id in w.tree && id !in Apply(w, s).tree ==> s.ResetStep?
  {
    match s
    case AddStep(ix, checksPass, stateSeq) => AddMoves(w, ix, checksPass, stateSeq, id);
    case ResetStep(ixs, states) =>
      var w1 := w.(pool := w.pool.(lookup := w.pool.lookup - (set ix | ix in ixs :: ix.hash)));
      P.SameAccounts(w.pool, w1.pool, ixs, {});
      P.LookupShrinks(w.pool, set ix | ix in ixs :: ix.hash);
      P.InvResettable(w1.pool);
      ResetFromMoves(w1, ixs, states, {}, id);
      SameMoves(w.pool, w1.pool, Apply(w, s).pool, Apply(w, s).pool, id);
      hide P.Inv, ResetFrom, NewlyPromoted, Emptied;
    case DropStep(ix, stateSeq) =>
    case PruneStep(order) =>
  }
}
