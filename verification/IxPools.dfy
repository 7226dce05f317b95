/** The pool object: every operation keeps it valid and does what the state machine's step does. */
module IxPools {
  import opened Foundation
  import opened Interactions
  import opened SlotGauge
  import opened HeapQueues
  import Q = AccountQueues
  import P = Pools

  /** The keys in some order. */
  method Listing(keys: set<QKey>) returns (order: seq<QKey>)
    ensures multiset(order) == multiset(keys)
    ensures forall k :: k in order <==> k in keys
  {
    order := [];
    var todo := keys;
    while todo != {}
      invariant todo <= keys && multiset(order) == multiset(keys - todo)
    {
      var k :| k in todo;
      assert keys - (todo - {k}) == (keys - todo) + {k};
      todo, order := todo - {k}, order + [k];
    }
    assert keys - todo == keys;
    assert forall k :: k in order <==> k in multiset(order);
  }

  class IxPool {
    var accounts: map<QKey, AccountQueue>
    var lookup: map<Hash, Ix>
    var total: nat
    const max: nat

    ghost function Queues(): map<QKey, Q.AccQ>
      reads this`accounts, accounts.Values
    {
      map k | k in accounts :: accounts[k].State()
    }

    ghost function State(): P.Pool
      reads this, accounts.Values
    {
      P.Pool(Queues(), lookup, total, max)
    }

    /** Every key has its own queue object, and each object's heaps are heaps. */
    ghost predicate Separate()
      reads this`accounts, accounts.Values
    {
      && (forall k :: k in accounts ==> accounts[k].WellFormed())
      && (forall j, k :: j in accounts && k in accounts && j != k ==> accounts[j] != accounts[k])
    }

    ghost predicate Valid()
      reads this, accounts.Values
    {
      Separate() && P.Inv(State())
    }

    constructor (max: nat)
      requires RoomToCount(max)
      ensures Valid() && State() == P.Empty(max) && accounts == map[]
    {
      accounts, lookup, total := map[], map[], 0;
      this.max := max;
      new;
      assert Queues() == map[];
      P.EmptyIsValid(max);
    }

    method GetOrCreateQueue(k: QKey, start: nat) returns (q: AccountQueue)
      requires Valid() && start < U64
      modifies this`accounts
      ensures Valid() && State() == P.GetOrCreate(old(State()), k, start)
      ensures k in accounts && accounts[k] == q
      ensures q in old(accounts.Values) || fresh(q)
    {
      hide P.Inv, Holds, Q.Dropped;
      P.GetOrCreateKeeps(State(), k, start);
      if k in accounts {
        q := accounts[k];
        return;
      }
      q := new AccountQueue(start);
      accounts := accounts[k := q];
      assert Queues() == old(Queues())[k := Q.Dropped(start)];
    }

    method AddIx(ix: Ix, checksPass: bool, stateSeq: Option<nat>) returns (error: Option<P.PoolError>)
      requires Valid() && P.Enabled(State(), P.AddStep(ix, checksPass, stateSeq))
      modifies this, accounts.Values
      ensures Separate() && P.AddResult(State(), error) == P.AddIx(old(State()), ix, checksPass, stateSeq)
      ensures Valid() <==> P.Fits(old(State()), P.AddStep(ix, checksPass, stateSeq))
    {
      hide P.Inv, P.AddValid, P.Fits;
      P.AddKeeps(State(), ix, checksPass, stateSeq);
      if ix.size > IX_MAX_SIZE {
        return Some(P.Oversized);
      }
      if stateSeq.GetOr(0) > ix.seqId {
        return Some(P.SequenceIdTooLow);
      }
      if !checksPass {
        return Some(P.Rejected);
      }
      var q := GetOrCreateQueue(KeyOf(ix), stateSeq.GetOr(ix.seqId));
      error := AddTo(q, ix);
    }

    method AddTo(q: AccountQueue, ix: Ix) returns (error: Option<P.PoolError>)
      requires Valid() && ix.size <= IX_MAX_SIZE && ix.seqId < U64
      requires KeyOf(ix) in accounts && accounts[KeyOf(ix)] == q
      modifies this`lookup, this`total, q
      ensures Separate() && P.AddResult(State(), error) == P.AddValid(old(State()), ix)
    {
      hide P.Inv, Q.Valid, Holds, P.Place;
      ghost var p := State();
      P.QueueIsValid(p, KeyOf(ix));
      assert p.queues[KeyOf(ix)] == q.State();
      if HighPressure(total, max) && ix.seqId > q.next {
        return Some(P.FutureIx);
      }
      if ix.seqId in q.seqToIx {
        if q.seqToIx[ix.seqId].hash == ix.hash {
          return Some(P.AlreadyKnown);
        }
        if q.seqToIx[ix.seqId].fuelPrice > ix.fuelPrice {
          return Some(P.Underpriced);
        }
      } else if ix.seqId < q.next {
        return Some(P.SequenceIdTooLow);
      }
      error := PlaceIn(q, ix);
    }

    /** Takes the slots that a replacement of `freed` slots still needs. */
    method Reserve(slots: nat, freed: nat) returns (ok: bool)
      modifies this`total
      ensures ok <==> Raised(old(total), max, slots, freed).Some?
      ensures total == if ok then Raised(old(total), max, slots, freed).value else old(total)
    {
      if slots > freed {
        var height := IncreaseWithinLimit(total, max, slots - freed);
        if height.None? {
          return false;
        }
        total := height.value;
      }
      ok := true;
    }

    method PlaceIn(q: AccountQueue, ix: Ix) returns (error: Option<P.PoolError>)
      requires Separate() && KeyOf(ix) in accounts && accounts[KeyOf(ix)] == q
      requires Q.Valid(q.State()) && Q.Admissible(q.State(), ix)
      modifies this`lookup, this`total, q
      ensures Separate() && P.AddResult(State(), error) == P.Place(old(State()), ix)
    {
      hide Q.Valid, Q.Admissible, Q.Admit, Slots, Decrease, Raised, Separate;
      ghost var p := State();
      assert q.State() == p.queues[KeyOf(ix)];
      var slots, freed := Slots(ix), 0;
      var gone := {};
      if ix.seqId in q.seqToIx {
        freed, gone := Slots(q.seqToIx[ix.seqId]), {q.seqToIx[ix.seqId].hash};
      }
      var ok := Reserve(slots, freed);
      if !ok {
        return Some(P.PoolOverflow);
      }
      if ix.hash in lookup {
        total := Undone(total, slots, freed);
        return Some(P.AlreadyKnown);
      }
      total := Lowered(total, slots, freed);
      lookup := lookup[ix.hash := ix];
      if gone != {} {
        lookup := lookup - gone;
      }
      AdmitAt(q, ix);
      error := None;
    }

    method AdmitAt(q: AccountQueue, ix: Ix)
      requires Separate() && KeyOf(ix) in accounts && accounts[KeyOf(ix)] == q
      requires Q.Valid(q.State()) && Q.Admissible(q.State(), ix)
      modifies q
      ensures Separate() && Queues() == old(Queues())[KeyOf(ix) := Q.Admit(old(q.State()), ix)]
    {
      hide Q.Valid, Q.Admit, Q.Admissible, Holds;
      AdmitTo(q, ix);
      assert forall j :: j in accounts && j != KeyOf(ix) ==> accounts[j].State() == old(accounts[j].State());
    }

    /** Enqueues, and promotes when the next id came in. */
    static method AdmitTo(q: AccountQueue, ix: Ix)
      requires q.WellFormed() && Q.Valid(q.State()) && Q.Admissible(q.State(), ix)
      modifies q
      ensures q.WellFormed() && q.State() == Q.Admit(old(q.State()), ix)
    {
      hide Q.Settling, Holds, Q.Enqueue, Q.Promote;
      ghost var s := q.State();
      Q.EnqueueSettles(s, ix);
      var replacedInPromoted := q.Enqueue(ix, ix.seqId in q.seqToIx);
      if ix.seqId == q.next {
        var count, moved := q.Promote();
      }
    }

    /** Removes interactions from the lookup and gives their slots back. */
    method Forget(ixs: seq<Ix>)
      modifies this`lookup, this`total
      ensures lookup == old(lookup) - P.Hashes(Elems(ixs))
      ensures total == Decrease(old(total), SlotsOf(ixs))
    {
      lookup := lookup - (set x | x in ixs :: x.hash);
      var slots := SlotsRequired(ixs);
      DecreaseWraps(total, SlotsOf(ixs));
      total := Decrease(total, slots);
      assert (set x | x in ixs :: x.hash) == P.Hashes(Elems(ixs));
    }

    /** The queue at `k` went from `p.queues[k]` to its present, smaller content: forget the rest. */
    method Settle(ghost p: P.Pool, k: QKey, gone: seq<Ix>)
      requires Separate() && k in accounts && k in p.queues && P.Counted(p)
      requires State() == p.(queues := p.queues[k := accounts[k].State()])
      requires Q.Content(accounts[k].State()) <= Q.Content(p.queues[k])
      requires Elems(gone) == Q.Content(p.queues[k]) - Q.Content(accounts[k].State())
      requires multiset(gone) == multiset(Elems(gone))
      modifies this`lookup, this`total
      ensures State() == P.Shrink(p, k, accounts[k].State())
    {
      hide P.Counted, Q.Content, Decrease;
      SlotsOfIsSum(gone, Elems(gone));
      Forget(gone);
    }

    method ResetSender(k: QKey, latest: nat)
      requires Separate() && k in accounts && P.Counted(State()) && Q.Valid(accounts[k].State()) && latest < U64
      modifies this`lookup, this`total, accounts[k]
      ensures State() == P.ResetQueue(old(State()), k, latest) && Separate()
    {
      hide Q.Valid, Q.Committed, Q.Restarted, Q.Overtaken, P.Shrink, Separate, Q.Settling, Q.Content, Q.Pruned,
           P.Counted;
      ghost var p := State();
      ghost var q := p.queues[k];
      ghost var q1 := Q.Committed(q, latest);
      Q.CommittedKeeps(q, latest);
      CommitAt(k, latest);
      if latest <= accounts[k].next {
        return;
      }
      P.ShrinkCounts(p, k, q1);
      Q.OvertakenKeeps(q1, latest);
      Q.RestartedKeeps(Q.Overtaken(q1, latest), latest);
      PassAt(k, latest);
      P.ShrinkTwice(p, k, q1, Q.Reset(q, latest));
    }

    /** Leaves ids behind that the state has passed, and promotes from there. */
    method PassAt(k: QKey, latest: nat)
      requires Separate() && k in accounts && P.Counted(State()) && Q.Valid(accounts[k].State())
      requires accounts[k].State().promoted == {} && accounts[k].next < latest < U64
      modifies this`lookup, this`total, accounts[k]
      ensures Separate()
      ensures State() == P.Shrink(old(State()), k, Q.Restarted(Q.Overtaken(old(accounts[k].State()), latest), latest))
    {
      hide Q.Valid, Q.Restarted, Q.Overtaken, P.Shrink, Separate, Q.Settling, Q.Content, Q.Pruned, P.Counted;
      ghost var p := State();
      ghost var q := p.queues[k];
      Q.OvertakenKeeps(q, latest);
      OvertakeAt(k, latest);
      Q.RestartedKeeps(Q.Overtaken(q, latest), latest);
      RestartAt(k, latest);
      P.ShrinkRearranged(p, k, Q.Overtaken(q, latest), Q.Restarted(Q.Overtaken(q, latest), latest));
    }

    /** Prunes one promoted heap and leaves the other queues alone. */
    method PrunePromotedAt(k: QKey, latest: nat) returns (gone: seq<Ix>)
      requires Separate() && k in accounts
      modifies accounts[k]
      ensures Separate() && Elems(gone) == Q.Pruned(old(accounts[k].State()).promoted, latest)
      ensures multiset(gone) == multiset(Elems(gone))
      ensures accounts[k].State() == Q.Committed(old(accounts[k].State()), latest)
      ensures Queues() == old(Queues())[k := accounts[k].State()]
    {
      hide Holds, Q.Committed;
      gone := accounts[k].PrunePromoted(latest);
      assert forall j :: j in accounts && j != k ==> accounts[j].State() == old(accounts[j].State());
    }

    method CommitAt(k: QKey, latest: nat)
      requires Separate() && k in accounts && P.Counted(State()) && Q.Valid(accounts[k].State())
      modifies this`lookup, this`total, accounts[k]
      ensures Separate() && accounts[k].State() == Q.Committed(old(accounts[k].State()), latest)
      ensures State() == P.Shrink(old(State()), k, Q.Committed(old(accounts[k].State()), latest))
    {
      hide Q.Valid, P.Shrink, P.Counted, Q.Committed, Separate, Q.Content;
      ghost var p := State();
      Q.CommittedKeeps(p.queues[k], latest);
      var pruned := PrunePromotedAt(k, latest);
      Settle(p, k, pruned);
    }

    /** Prunes one waiting heap and leaves the other queues alone. */
    method PruneEnqueuedAt(k: QKey, latest: nat) returns (gone: seq<Ix>)
      requires Separate() && k in accounts
      modifies accounts[k]
      ensures Separate() && Elems(gone) == Q.Pruned(old(accounts[k].State()).enqueued, latest)
      ensures multiset(gone) == multiset(Elems(gone))
      ensures accounts[k].State() == Q.Overtaken(old(accounts[k].State()), latest)
      ensures Queues() == old(Queues())[k := accounts[k].State()]
    {
      hide Holds, Q.Overtaken;
      gone := accounts[k].PruneEnqueued(latest);
      assert forall j :: j in accounts && j != k ==> accounts[j].State() == old(accounts[j].State());
    }

    method OvertakeAt(k: QKey, latest: nat)
      requires Separate() && k in accounts && P.Counted(State()) && Q.Valid(accounts[k].State())
      requires accounts[k].State().promoted == {} && accounts[k].next < latest < U64
      modifies this`lookup, this`total, accounts[k]
      ensures Separate() && accounts[k].State() == Q.Overtaken(old(accounts[k].State()), latest)
      ensures State() == P.Shrink(old(State()), k, Q.Overtaken(old(accounts[k].State()), latest))
    {
      hide Q.Valid, P.Shrink, P.Counted, Q.Overtaken, Q.Settling, Separate, Q.Content;
      ghost var p := State();
      Q.OvertakenKeeps(p.queues[k], latest);
      var pruned := PruneEnqueuedAt(k, latest);
      Settle(p, k, pruned);
    }

    method RestartAt(k: QKey, latest: nat)
      requires Separate() && k in accounts && Q.Settling(accounts[k].State().(next := latest))
      modifies accounts[k]
      ensures Separate() && Queues() == old(Queues())[k := Q.Restarted(old(accounts[k].State()), latest)]
    {
      hide Q.Restarted, Q.Settling, Holds;
      accounts[k].Restart(latest);
      assert forall j :: j in accounts && j != k ==> accounts[j].State() == old(accounts[j].State());
    }

    /** Stops where the sender has an account but no queue for the key. */
    method ResetIx(ix: Ix, states: map<QKey, nat>, ghost done: set<Identifier>) returns (ok: bool)
      requires Separate() && P.Resettable(State(), done) && ix.sender !in done
      requires forall k :: k in states ==> states[k] < U64
      modifies this`lookup, this`total, accounts.Values
      ensures ok <==> (P.HasAccount(old(State()), ix.sender) ==> KeyOf(ix) in old(State()).queues)
      ensures ok ==> State() == P.ResetSender(old(State()), ix, states) && P.Resettable(State(), done + {ix.sender})
      ensures Separate() && accounts == old(accounts)
    {
      hide P.ResetQueue, Separate, Q.Valid, P.Counted;
      ghost var p := State();
      if !(exists k :: k in accounts && k.0 == ix.sender) {
        assert forall k :: k in p.queues <==> k in accounts;
        assert !P.HasAccount(p, ix.sender);
        P.ResetSenderCounts(p, ix, states, done);
        return true;
      }
      assert P.HasAccount(p, ix.sender);
      if KeyOf(ix) !in accounts {
        return false;
      }
      P.ResetSenderCounts(p, ix, states, done);
      assert Q.Valid(p.queues[KeyOf(ix)]);
      ResetSender(KeyOf(ix), P.Latest(ix, states));
      ok := true;
    }

    /** Goes through exactly if every sender's first interaction names a queue that is there, and keeps the
        pool valid exactly if no queue promotes a run that takes in the last id. */
    method ResetWithHeaders(ixs: seq<Ix>, states: map<QKey, nat>) returns (ok: bool)
      requires Valid() && forall k :: k in states ==> states[k] < U64
      modifies this`lookup, this`total, accounts.Values
      ensures ok <==> P.KeysKnown(old(State()), ixs, {})
      ensures ok ==> State() == P.ResetWithHeaders(old(State()), ixs, states)
      ensures ok ==> (Valid() <==> P.Fits(old(State()), P.ResetStep(ixs, states)))
      ensures Separate()
    {
      hide State, P.HasAccount, P.ResetFrom, P.Inv, Separate, P.Fits, P.KeysKnown;
      ghost var p := State();
      if P.KeysKnown(p, ixs, {}) {
        P.StepKeeps(p, P.ResetStep(ixs, states));
      }
      var hashes := set ix | ix in ixs :: ix.hash;
      ForgetHashes(hashes);
      P.SameAccounts(p, State(), ixs, {});
      ok := ResetAll(ixs, states);
    }

    method ForgetHashes(hashes: set<Hash>)
      requires Valid()
      modifies this`lookup
      ensures State() == old(State()).(lookup := old(State()).lookup - hashes) && Valid()
    {
      hide P.Inv, Separate, Queues;
      P.LookupShrinks(State(), hashes);
      lookup := lookup - hashes;
    }

    method ResetAll(ixs: seq<Ix>, states: map<QKey, nat>) returns (ok: bool)
      requires Valid() && forall k :: k in states ==> states[k] < U64
      modifies this`lookup, this`total, accounts.Values
      ensures ok <==> P.KeysKnown(old(State()), ixs, {})
      ensures ok ==> State() == P.ResetFrom(old(State()), ixs, states, {})
      ensures Separate()
    {
      hide State, P.ResetSender, P.HasAccount, P.Inv, Separate, P.Resettable;
      var done: set<Identifier> := {};
      ghost var p := State();
      P.InvResettable(p);
      assert ixs[0..] == ixs;
      for i := 0 to |ixs|
        invariant accounts == old(accounts) && Separate() && P.Resettable(State(), done)
        invariant P.KeysKnown(State(), ixs[i..], done) <==> P.KeysKnown(p, ixs, {})
        invariant P.KeysKnown(p, ixs, {}) ==>
                    P.ResetFrom(State(), ixs[i..], states, done) == P.ResetFrom(p, ixs, states, {})
      {
        assert ixs[i..][0] == ixs[i] && ixs[i..][1..] == ixs[i + 1..];
        if ixs[i].sender !in done {
          ghost var before := State();
          ok := ResetIx(ixs[i], states, done);
          if !ok {
            return;
          }
          done := done + {ixs[i].sender};
          P.SameAccounts(before, State(), ixs[i + 1..], done);
        }
      }
      ok := true;
    }

    method Drop(ix: Ix, stateSeq: Option<nat>)
      requires Valid() && P.Enabled(State(), P.DropStep(ix, stateSeq))
      modifies this`lookup, this`total, accounts.Values
      ensures State() == P.Drop(old(State()), ix, stateSeq) && Valid()
    {
      hide P.Inv, P.Shrink, Q.Dropped, Holds;
      ghost var p := State();
      var k := KeyOf(ix);
      P.DropKeeps(p, ix, stateSeq);
      if k !in accounts || stateSeq.GetOr(0) > ix.seqId {
        return;
      }
      P.InvParts(p, k);
      Q.DroppedIsValid(ix.seqId);
      P.DropTwice(p, k, Q.Dropped(ix.seqId));
      DropAt(k, ix.seqId);
    }

    method DropAt(k: QKey, seqId: nat)
      requires Separate() && k in accounts
      modifies this`lookup, this`total, accounts[k]
      ensures Separate() && Queues() == old(Queues())[k := Q.Dropped(seqId)]
      ensures var q := old(accounts[k].State());
              && lookup == old(lookup) - P.Hashes(q.promoted) - P.Hashes(q.enqueued)
              && total == Decrease(Decrease(old(total), SlotSum(q.promoted)), SlotSum(q.enqueued))
    {
      hide SlotSum, Decrease, Separate, Q.Dropped, P.Hashes, Elems;
      var ready, waiting := EmptyAt(k, seqId);
      SlotsOfIsSum(ready, Elems(ready));
      SlotsOfIsSum(waiting, Elems(waiting));
      Forget(ready);
      Forget(waiting);
    }

    method EmptyAt(k: QKey, seqId: nat) returns (ready: seq<Ix>, waiting: seq<Ix>)
      requires Separate() && k in accounts
      modifies accounts[k]
      ensures Separate() && Queues() == old(Queues())[k := Q.Dropped(seqId)]
      ensures Elems(ready) == old(accounts[k].State()).promoted && multiset(ready) == multiset(Elems(ready))
      ensures Elems(waiting) == old(accounts[k].State()).enqueued && multiset(waiting) == multiset(Elems(waiting))
    {
      hide Holds, Q.Dropped;
      ready, waiting := accounts[k].DropAll(seqId);
      assert forall j :: j in accounts && j != k ==> accounts[j].State() == old(accounts[j].State());
    }

    /** Visits every queue once, in any order. */
    method RemoveSequenceIdHoles() returns (order: seq<QKey>)
      requires Valid()
      modifies this`lookup, this`total, accounts.Values
      ensures multiset(order) == multiset(accounts.Keys) && accounts == old(accounts)
      ensures State() == P.PruneHoles(old(State()), order) && Valid()
    {
      hide Valid, State;
      order := Listing(accounts.Keys);
      PruneHolesIn(order);
    }

    method PruneHolesIn(order: seq<QKey>)
      requires Valid() && forall k :: k in order ==> k in accounts
      modifies this`lookup, this`total, accounts.Values
      ensures State() == P.PruneHoles(old(State()), order) && Valid() && accounts == old(accounts)
    {
      hide Valid, State, P.PruneHole;
      assert order[..0] == [];
      for i := 0 to |order|
        invariant accounts == old(accounts) && Valid()
        invariant State() == P.PruneHoles(old(State()), order[..i])
      {
        P.PruneHolesSnoc(old(State()), order[..i], order[i]);
        assert order[..i + 1] == order[..i] + [order[i]];
        PruneHoleAt(order[i]);
      }
      assert order[..|order|] == order;
    }

    method PruneHoleAt(k: QKey)
      requires Valid() && k in accounts
      modifies this`lookup, this`total, accounts.Values
      ensures State() == P.PruneHole(old(State()), k) && Valid()
    {
      hide P.Inv, P.Shrink, Separate, Q.Valid, Q.Unholed;
      ghost var p := State();
      P.PruneHoleKeeps(p, k);
      P.InvParts(p, k);
      UnholeAt(k);
    }

    method UnholeAt(k: QKey)
      requires Separate() && k in accounts && P.Counted(State()) && Q.Valid(accounts[k].State())
      modifies this`lookup, this`total, accounts[k]
      ensures Separate() && State() == P.Shrink(old(State()), k, Q.Unholed(old(accounts[k].State())))
    {
      hide P.Shrink, P.Counted, Q.Settling, Separate, Q.Content, Q.Cleared;
      ghost var p := State();
      var q := accounts[k];
      HeadTest(k);
      if q.enqueued == [] || q.enqueued[0].seqId == q.next {
        P.ShrinkNothing(p, k);
        return;
      }
      ClearAt(k);
    }

    /** Looking at the head of the waiting heap tells whether there is a hole. */
    lemma HeadTest(k: QKey)
      requires Separate() && k in accounts && Q.Valid(accounts[k].State())
      ensures var q := accounts[k];
              Q.Unholed(q.State()) ==
              if q.enqueued == [] || q.enqueued[0].seqId == q.next then q.State() else Q.Cleared(q.State())
    {
      var q := accounts[k];
      LeastIsNext(q.enqueued, q.State());
      if q.enqueued != [] {
        assert q.enqueued[0] in q.State().enqueued;
      }
    }

    /** Empties one waiting heap and leaves the other queues alone. */
    method ClearQueueAt(k: QKey) returns (gone: seq<Ix>)
      requires Separate() && k in accounts
      modifies accounts[k]
      ensures Separate() && Elems(gone) == old(accounts[k].State()).enqueued && multiset(gone) == multiset(Elems(gone))
      ensures accounts[k].State() == Q.Cleared(old(accounts[k].State()))
      ensures Queues() == old(Queues())[k := accounts[k].State()]
    {
      hide Holds, Q.Cleared;
      gone := accounts[k].ClearEnqueued();
      assert forall j :: j in accounts && j != k ==> accounts[j].State() == old(accounts[j].State());
    }

    method ClearAt(k: QKey)
      requires Separate() && k in accounts && P.Counted(State()) && Q.Valid(accounts[k].State())
      modifies this`lookup, this`total, accounts[k]
      ensures Separate() && State() == P.Shrink(old(State()), k, Q.Cleared(old(accounts[k].State())))
    {
      hide Q.Valid, P.Shrink, P.Counted, Q.Cleared, Separate, Q.Content;
      ghost var p := State();
      Q.ClearedKeeps(p.queues[k]);
      var dropped := ClearQueueAt(k);
      Settle(p, k, dropped);
    }
  }
}
