/** The pool as a state machine: queues by sender and key, the lookup by hash, and the gauge. */
module Pools {
  import opened Foundation
  import opened Interactions
  import opened AccountQueues
  import opened SlotGauge

  datatype Pool = Pool(queues: map<QKey, AccQ>, lookup: map<Hash, Ix>, gauge: nat, max: nat)

  datatype PoolError =
    | Oversized | Rejected | SequenceIdTooLow | FutureIx | AlreadyKnown | Underpriced | PoolOverflow

  datatype AddResult = AddResult(pool: Pool, error: Option<PoolError>)

  function Hashes(s: set<Ix>): set<Hash> {
    set x | x in s :: x.hash
  }

  ghost function SlotTable(queues: map<QKey, AccQ>): map<QKey, int> {
    map k | k in queues :: SlotSum(Content(queues[k]))
  }

  ghost function TotalSlots(queues: map<QKey, AccQ>): int {
    SumMap(SlotTable(queues))
  }

  /** The queue keeps its own invariant and holds only its key's interactions. */
  ghost predicate QueueOk(q: AccQ, k: QKey) {
    AccountQueues.Valid(q) && (forall x :: x in Content(q) ==> KeyOf(x) == k)
  }

  ghost predicate QueuesOk(queues: map<QKey, AccQ>) {
    forall k :: k in queues ==> QueueOk(queues[k], k)
  }

  /** The gauge is the number of slots the queued interactions need, within the limit. */
  ghost predicate Counted(p: Pool) {
    p.gauge == TotalSlots(p.queues) <= p.max && RoomToCount(p.max)
  }

  /** A hash leads only to an interaction that is still queued. */
  predicate LookupSound(p: Pool) {
    forall h :: h in p.lookup ==>
      var ix := p.lookup[h];
      ix.hash == h && KeyOf(ix) in p.queues && ix in Content(p.queues[KeyOf(ix)])
  }

  ghost predicate Inv(p: Pool) {
    QueuesOk(p.queues) && Counted(p) && LookupSound(p)
  }

  lemma InvParts(p: Pool, k: QKey)
    requires Inv(p) && k in p.queues
    ensures AccountQueues.Valid(p.queues[k]) && Counted(p)
  {
    assert QueueOk(p.queues[k], k);
  }

  lemma QueueIsValid(p: Pool, k: QKey)
    requires Inv(p) && k in p.queues
    ensures AccountQueues.Valid(p.queues[k])
  {
    assert QueueOk(p.queues[k], k);
  }

  /******* Steps *******/

  /** Finds the queue, or creates an empty one at the state's sequence id. */
  function GetOrCreate(p: Pool, k: QKey, start: nat): Pool {
    if k in p.queues then p else p.(queues := p.queues[k := Dropped(start)])
  }

  /** Validation and enqueueing. `stateSeq` is the state's answer for the sender's key, `checksPass`
      the outcome of the checks made outside the pool (price, funds, signatures, payloads). */
  function AddIx(p: Pool, ix: Ix, checksPass: bool, stateSeq: Option<nat>): AddResult {
    if ix.size > IX_MAX_SIZE then AddResult(p, Some(Oversized))
    else if stateSeq.GetOr(0) > ix.seqId then AddResult(p, Some(SequenceIdTooLow))
    else if !checksPass then AddResult(p, Some(Rejected))
    else AddValid(GetOrCreate(p, KeyOf(ix), stateSeq.GetOr(ix.seqId)), ix)
  }

  /** Why the queue does not take the interaction, if it does not. */
  function Refusal(q: AccQ, ix: Ix, pressed: bool): Option<PoolError> {
    if pressed && ix.seqId > q.next then Some(FutureIx)
    else if ix.seqId in q.seqToIx then
      if q.seqToIx[ix.seqId].hash == ix.hash then Some(AlreadyKnown)
      else if q.seqToIx[ix.seqId].fuelPrice > ix.fuelPrice then Some(Underpriced)
      else None
    else if ix.seqId < q.next then Some(SequenceIdTooLow)
    else None
  }

  /** The slots that replacing would free. */
  function Freed(q: AccQ, ix: Ix): nat {
    if ix.seqId in q.seqToIx then Slots(q.seqToIx[ix.seqId]) else 0
  }

  function AddValid(p: Pool, ix: Ix): AddResult
    requires KeyOf(ix) in p.queues
  {
    var refusal := Refusal(p.queues[KeyOf(ix)], ix, HighPressure(p.gauge, p.max));
    if refusal.Some? then AddResult(p, refusal) else Place(p, ix)
  }

  /** Takes the slots, the lookup entry and the place in the queue. */
  function Place(p: Pool, ix: Ix): AddResult
    requires KeyOf(ix) in p.queues
  {
    var q := p.queues[KeyOf(ix)];
    var height := Raised(p.gauge, p.max, Slots(ix), Freed(q, ix));
    if height.None? then AddResult(p, Some(PoolOverflow))
    else if ix.hash in p.lookup then
      AddResult(p.(gauge := Undone(height.value, Slots(ix), Freed(q, ix))), Some(AlreadyKnown))
    else
      var lookup := p.lookup[ix.hash := ix];
      AddResult(
        Pool(p.queues[KeyOf(ix) := Admit(q, ix)],
             if ix.seqId in q.seqToIx then lookup - {q.seqToIx[ix.seqId].hash} else lookup,
             Lowered(height.value, Slots(ix), Freed(q, ix)),
             p.max),
        None)
  }

  /** Replaces one queue and forgets what left it. */
  ghost function Shrink(p: Pool, k: QKey, q: AccQ): Pool
    requires k in p.queues
  {
    var gone := Content(p.queues[k]) - Content(q);
    Pool(p.queues[k := q], p.lookup - Hashes(gone), Decrease(p.gauge, SlotSum(gone)), p.max)
  }

  ghost function ResetQueue(p: Pool, k: QKey, latest: nat): Pool
    requires k in p.queues
  {
    Shrink(p, k, AccountQueues.Reset(p.queues[k], latest))
  }

  predicate HasAccount(p: Pool, id: Identifier) {
    exists k :: k in p.queues && k.0 == id
  }

  /** The state's sequence id for an interaction's key, or the id after it. */
  function Latest(ix: Ix, states: map<QKey, nat>): nat {
    if KeyOf(ix) in states then states[KeyOf(ix)] else Add64(ix.seqId, 1)
  }

  /** The first interaction of every sender with an account names a queue of that account. */
  predicate KeysKnown(p: Pool, ixs: seq<Ix>, done: set<Identifier>)
    decreases |ixs|
  {
    if ixs == [] then true
    else if ixs[0].sender in done then KeysKnown(p, ixs[1..], done)
    else (HasAccount(p, ixs[0].sender) ==> KeyOf(ixs[0]) in p.queues) && KeysKnown(p, ixs[1..], done + {ixs[0].sender})
  }

  ghost function ResetSender(p: Pool, ix: Ix, states: map<QKey, nat>): (r: Pool)
    requires HasAccount(p, ix.sender) ==> KeyOf(ix) in p.queues
    ensures r.queues.Keys == p.queues.Keys
  {
    if HasAccount(p, ix.sender) then ResetQueue(p, KeyOf(ix), Latest(ix, states)) else p
  }

  lemma {:induction false} SameAccounts(p: Pool, r: Pool, ixs: seq<Ix>, done: set<Identifier>)
    requires r.queues.Keys == p.queues.Keys
    ensures KeysKnown(r, ixs, done) <==> KeysKnown(p, ixs, done)
    decreases |ixs|
  {
    if ixs != [] {
      SameAccounts(p, r, ixs[1..], done);
      SameAccounts(p, r, ixs[1..], done + {ixs[0].sender});
      assert HasAccount(r, ixs[0].sender) <==> HasAccount(p, ixs[0].sender) by {
        assert forall k :: k in p.queues <==> k in r.queues;
      }
      assert KeyOf(ixs[0]) in p.queues <==> KeyOf(ixs[0]) in r.queues;
    }
  }

  /** The loop over a tesseract's interactions: each sender is handled once. */
  ghost function ResetFrom(p: Pool, ixs: seq<Ix>, states: map<QKey, nat>, done: set<Identifier>): Pool
    requires KeysKnown(p, ixs, done)
    decreases |ixs|
  {
    if ixs == [] then p
    else if ixs[0].sender in done then ResetFrom(p, ixs[1..], states, done)
    else
      var p1 := ResetSender(p, ixs[0], states);
      SameAccounts(p, p1, ixs[1..], done + {ixs[0].sender});
      ResetFrom(p1, ixs[1..], states, done + {ixs[0].sender})
  }

  ghost function ResetWithHeaders(p: Pool, ixs: seq<Ix>, states: map<QKey, nat>): Pool
    requires KeysKnown(p, ixs, {})
  {
    var p1 := p.(lookup := p.lookup - (set ix | ix in ixs :: ix.hash));
    SameAccounts(p, p1, ixs, {});
    ResetFrom(p1, ixs, states, {})
  }

  ghost function Drop(p: Pool, ix: Ix, stateSeq: Option<nat>): Pool {
    if KeyOf(ix) in p.queues && stateSeq.GetOr(0) <= ix.seqId
    then Shrink(p, KeyOf(ix), Dropped(ix.seqId))
    else p
  }

  ghost function PruneHole(p: Pool, k: QKey): Pool {
    if k in p.queues then Shrink(p, k, Unholed(p.queues[k])) else p
  }

  /** Hole pruning visits the queues in some order. */
  ghost function PruneHoles(p: Pool, order: seq<QKey>): Pool
    decreases |order|
  {
    if order == [] then p else PruneHoles(PruneHole(p, order[0]), order[1..])
  }

  datatype Step =
    | AddStep(ix: Ix, checksPass: bool, stateSeq: Option<nat>)
    | ResetStep(ixs: seq<Ix>, states: map<QKey, nat>)
    | DropStep(ix: Ix, stateSeq: Option<nat>)
    | PruneStep(order: seq<QKey>)

  /** Ids are 64-bit, and a reset finds the queues it names. */
  ghost predicate Enabled(p: Pool, s: Step) {
    match s
    case AddStep(ix, _, stateSeq) => ix.seqId < U64 && (stateSeq.Some? ==> stateSeq.value < U64)
    case ResetStep(ixs, states) => KeysKnown(p, ixs, {}) && (forall k :: k in states ==> states[k] < U64)
    case DropStep(ix, _) => ix.seqId < U64
    case PruneStep(_) => true
  }

  ghost function Apply(p: Pool, s: Step): Pool
    requires Enabled(p, s)
  {
    match s
    case AddStep(ix, checksPass, stateSeq) => AddIx(p, ix, checksPass, stateSeq).pool
    case ResetStep(ixs, states) => ResetWithHeaders(p, ixs, states)
    case DropStep(ix, stateSeq) => Drop(p, ix, stateSeq)
    case PruneStep(order) => PruneHoles(p, order)
  }

  /** The queue an interaction would go to. */
  function Target(p: Pool, ix: Ix, stateSeq: Option<nat>): AccQ {
    if KeyOf(ix) in p.queues then p.queues[KeyOf(ix)] else Dropped(stateSeq.GetOr(ix.seqId))
  }

  /** What takes an interaction in, once the outside checks have passed: while the pool is under pressure
      only the expected id or a lower one, a replacement only at no lower a price, a new id only from the
      expected one on, an unknown hash, and slots that fit without those it frees. */
  predicate Welcome(p: Pool, q: AccQ, ix: Ix) {
    && (HighPressure(p.gauge, p.max) ==> ix.seqId <= q.next)
    && (if ix.seqId in q.seqToIx
        then ix.hash != q.seqToIx[ix.seqId].hash && ix.fuelPrice >= q.seqToIx[ix.seqId].fuelPrice
        else ix.seqId >= q.next)
    && (p.gauge - Freed(q, ix) + Slots(ix) <= p.max || Slots(ix) <= Freed(q, ix))
    && ix.hash !in p.lookup
  }

  predicate Accepts(p: Pool, ix: Ix, checksPass: bool, stateSeq: Option<nat>) {
    ix.size <= IX_MAX_SIZE && stateSeq.GetOr(0) <= ix.seqId && checksPass && Welcome(p, Target(p, ix, stateSeq), ix)
  }

  /** Each sender's first interaction restarts its queue short of a run that takes in the last id. */
  predicate ResetFits(p: Pool, ixs: seq<Ix>, states: map<QKey, nat>, done: set<Identifier>)
    decreases |ixs|
  {
    if ixs == [] then true
    else if ixs[0].sender in done then ResetFits(p, ixs[1..], states, done)
    else
      && (KeyOf(ixs[0]) in p.queues ==> RestartFits(p.queues[KeyOf(ixs[0])], Latest(ixs[0], states)))
      && ResetFits(p, ixs[1..], states, done + {ixs[0].sender})
  }

  /** The step promotes no run that takes in the id 2^64 - 1. */
  predicate Fits(p: Pool, s: Step) {
    match s
    case AddStep(ix, checksPass, stateSeq) =>
      Accepts(p, ix, checksPass, stateSeq) ==> AdmitFits(Target(p, ix, stateSeq), ix)
    case ResetStep(ixs, states) => ResetFits(p, ixs, states, {})
    case _ => true
  }

  ghost predicate AllInOrder(p: Pool) {
    forall k :: k in p.queues ==> InOrder(p.queues[k])
  }

  function Empty(max: nat): Pool {
    Pool(map[], map[], 0, max)
  }

  /** A run: every step is enabled in the state before it. */
  ghost predicate IsRun(states: seq<Pool>, steps: seq<Step>) {
    && |states| == |steps| + 1
    && forall i :: 0 <= i < |steps| ==> Enabled(states[i], steps[i]) && states[i + 1] == Apply(states[i], steps[i])
  }

  /** The first `n` steps promote no run that takes in the last id. */
  ghost predicate AllFit(states: seq<Pool>, steps: seq<Step>, n: nat)
    requires IsRun(states, steps) && n <= |steps|
  {
    forall i :: 0 <= i < n ==> Fits(states[i], steps[i])
  }

  /******* What every step keeps *******/

  lemma TotalUpdate(queues: map<QKey, AccQ>, k: QKey, q: AccQ)
    ensures TotalSlots(queues[k := q]) ==
            TotalSlots(queues) + SlotSum(Content(q)) - (if k in queues then SlotSum(Content(queues[k])) else 0)
  {
    hide SumMap, SlotSum, Content;
    SumMapUpdate(SlotTable(queues), k, SlotSum(Content(q)));
    assert SlotTable(queues[k := q]) == SlotTable(queues)[k := SlotSum(Content(q))];
  }

  /** No queue, and no part of one, counts more than the gauge. */
  lemma GaugeCovers(p: Pool, k: QKey, s: set<Ix>)
    requires Counted(p) && k in p.queues && s <= Content(p.queues[k])
    ensures SlotSum(s) <= p.gauge
  {
    var table := SlotTable(p.queues);
    SumMapBounds(table);
    assert table[k] <= SumMap(table);
    SlotSumSplit(Content(p.queues[k]), s);
  }

  lemma ShrinkCounts(p: Pool, k: QKey, q: AccQ)
    requires Counted(p) && k in p.queues && Content(q) <= Content(p.queues[k])
    ensures Counted(Shrink(p, k, q))
  {
    var was := Content(p.queues[k]);
    var gone := was - Content(q);
    GaugeCovers(p, k, gone);
    DecreaseExact(p.gauge, SlotSum(gone));
    SlotSumSplit(was, gone);
    assert was - gone == Content(q);
    TotalUpdate(p.queues, k, q);
  }

  lemma ShrinkFinds(p: Pool, k: QKey, q: AccQ)
    requires LookupSound(p) && k in p.queues && Content(q) <= Content(p.queues[k])
    ensures LookupSound(Shrink(p, k, q))
  {
    var gone := Content(p.queues[k]) - Content(q);
    var r := Shrink(p, k, q);
    forall h | h in r.lookup
      ensures var ix := r.lookup[h];
              ix.hash == h && KeyOf(ix) in r.queues && ix in Content(r.queues[KeyOf(ix)])
    {
      var ix := p.lookup[h];
      assert ix in gone ==> ix.hash in Hashes(gone);
    }
  }

  lemma ShrinkKeeps(p: Pool, k: QKey, q: AccQ)
    requires Inv(p) && k in p.queues
    requires AccountQueues.Valid(q) && Content(q) <= Content(p.queues[k])
    ensures Inv(Shrink(p, k, q))
  {
    ShrinkCounts(p, k, q);
    ShrinkFinds(p, k, q);
    assert QueueOk(p.queues[k], k);
    assert QueueOk(q, k);
  }

  /** Two decreases are one, as long as the gauge covers both. */
  lemma DecreaseTwice(p: Pool, k: QKey, first: set<Ix>, second: set<Ix>)
    requires Counted(p) && k in p.queues && first + second <= Content(p.queues[k]) && first !! second
    ensures Decrease(Decrease(p.gauge, SlotSum(first)), SlotSum(second)) == Decrease(p.gauge, SlotSum(first + second))
  {
    hide SlotSum, TotalSlots;
    SlotSumSplit(first + second, first);
    assert first + second - first == second;
    GaugeCovers(p, k, first + second);
    DecreaseExact(p.gauge, SlotSum(first));
    DecreaseExact(p.gauge - SlotSum(first), SlotSum(second));
    DecreaseExact(p.gauge, SlotSum(first + second));
  }

  /** Shrinking a queue in two goes is shrinking it once. */
  lemma ShrinkTwice(p: Pool, k: QKey, q: AccQ, r: AccQ)
    requires Counted(p) && k in p.queues && Content(r) <= Content(q) <= Content(p.queues[k])
    ensures Shrink(Shrink(p, k, q), k, r) == Shrink(p, k, r)
  {
    var was := Content(p.queues[k]);
    var first, second := was - Content(q), Content(q) - Content(r);
    assert was - Content(r) == first + second;
    DecreaseTwice(p, k, first, second);
    HashesUnion(first, second);
    assert p.lookup - Hashes(first) - Hashes(second) == p.lookup - Hashes(first + second);
    assert p.queues[k := q][k := r] == p.queues[k := r];
  }

  lemma ShrinkNothing(p: Pool, k: QKey)
    requires Counted(p) && k in p.queues
    ensures Shrink(p, k, p.queues[k]) == p
  {
    SlotSumEmpty();
    assert p.lookup - {} == p.lookup;
    assert Content(p.queues[k]) - Content(p.queues[k]) == {};
    assert p.queues[k := p.queues[k]] == p.queues;
  }

  /** Only what left the queue matters, not how the rest is arranged. */
  lemma ShrinkRearranged(p: Pool, k: QKey, q: AccQ, r: AccQ)
    requires k in p.queues && Content(q) == Content(r)
    ensures Shrink(p, k, q).(queues := p.queues[k := r]) == Shrink(p, k, r)
  {
  }

  /** Emptying a queue in two goes, promoted first. */
  lemma DropTwice(p: Pool, k: QKey, q: AccQ)
    requires Counted(p) && k in p.queues && AccountQueues.Valid(p.queues[k]) && Content(q) == {}
    ensures var promoted, enqueued := p.queues[k].promoted, p.queues[k].enqueued;
            Shrink(p, k, q) ==
            Pool(p.queues[k := q], p.lookup - Hashes(promoted) - Hashes(enqueued),
                 Decrease(Decrease(p.gauge, SlotSum(promoted)), SlotSum(enqueued)), p.max)
  {
    hide SlotSum;
    var promoted, enqueued := p.queues[k].promoted, p.queues[k].enqueued;
    assert Content(p.queues[k]) - Content(q) == promoted + enqueued;
    assert promoted !! enqueued;
    DecreaseTwice(p, k, promoted, enqueued);
    HashesUnion(promoted, enqueued);
    assert p.lookup - Hashes(promoted) - Hashes(enqueued) == p.lookup - Hashes(promoted + enqueued);
  }

  lemma HashesUnion(s: set<Ix>, t: set<Ix>)
    ensures Hashes(s + t) == Hashes(s) + Hashes(t)
  {
  }

  lemma GetOrCreateKeeps(p: Pool, k: QKey, start: nat)
    requires Inv(p) && start < U64
    ensures Inv(GetOrCreate(p, k, start))
  {
    hide SumMap, SlotSum, TotalSlots, AccountQueues.Valid;
    var q := Dropped(start);
    DroppedIsValid(start);
    assert QueueOk(q, k);
    SlotSumEmpty();
    TotalUpdate(p.queues, k, q);
  }

  /** Admission trades the old interaction's slots for the new one's. */
  lemma AdmitSlots(q: AccQ, ix: Ix)
    requires AccountQueues.Valid(q) && Admissible(q, ix)
    ensures SlotSum(Content(Admit(q, ix))) == SlotSum(Content(q)) + Slots(ix) - Freed(q, ix)
    ensures Freed(q, ix) <= SlotSum(Content(q))
  {
    AdmitKeeps(q, ix);
    var c := Content(q);
    var r := Replaced(c, ix);
    ReplacedRest(q, ix);
    hide Content, Replaced, AccountQueues.Valid, Admit;
    SlotSumRemove(r, ix);
    if ix.seqId in q.seqToIx {
      SlotSumRemove(c, q.seqToIx[ix.seqId]);
    }
  }

  lemma ReplacedRest(q: AccQ, ix: Ix)
    requires AccountQueues.Valid(q) && Admissible(q, ix)
    ensures ix in Replaced(Content(q), ix)
    ensures if ix.seqId in q.seqToIx then q.seqToIx[ix.seqId] in Content(q)
            && Replaced(Content(q), ix) - {ix} == Content(q) - {q.seqToIx[ix.seqId]}
            else Replaced(Content(q), ix) - {ix} == Content(q)
  {
  }

  /** An accepted interaction is admissible; a refused one leaves the pool as it was. */
  lemma AddOutcome(p: Pool, ix: Ix)
    requires Counted(p) && KeyOf(ix) in p.queues && ix.size <= IX_MAX_SIZE && ix.seqId < U64
    requires Freed(p.queues[KeyOf(ix)], ix) <= p.gauge
    ensures var r := AddValid(p, ix);
            && (r.error.Some? ==> r.pool == p)
            && (r.error.None? ==>
                  && Admissible(p.queues[KeyOf(ix)], ix) && r.pool.max == p.max
                  && r.pool.queues == p.queues[KeyOf(ix) := Admit(p.queues[KeyOf(ix)], ix)]
                  && r.pool.gauge == p.gauge + Slots(ix) - Freed(p.queues[KeyOf(ix)], ix) <= p.max)
  {
    SwapExact(p.gauge, p.max, Slots(ix), Freed(p.queues[KeyOf(ix)], ix));
  }

  lemma AddFinds(p: Pool, ix: Ix)
    requires LookupSound(p) && KeyOf(ix) in p.queues && QueueOk(p.queues[KeyOf(ix)], KeyOf(ix))
    requires AddValid(p, ix).error.None? && ix.seqId < U64
    ensures LookupSound(AddValid(p, ix).pool)
  {
    var k := KeyOf(ix);
    var q := p.queues[k];
    AdmitKeeps(q, ix);
    var r := AddValid(p, ix).pool;
    assert r.queues == p.queues[k := Admit(q, ix)];
    PlacedInLookup(p, ix);
    ReplacedIsGone(p, ix);
    hide AddValid, Admit, AccountQueues.Valid, InOrder, AdmitFits;
    forall h | h in r.lookup
      ensures var x := r.lookup[h];
              x.hash == h && KeyOf(x) in r.queues && x in Content(r.queues[KeyOf(x)])
    {
      hide Content;
    }
  }

  /** The hash of what is replaced is off the lookup. */
  lemma ReplacedIsGone(p: Pool, ix: Ix)
    requires KeyOf(ix) in p.queues && AddValid(p, ix).error.None? && QueueOk(p.queues[KeyOf(ix)], KeyOf(ix))
    ensures forall x :: x in Content(p.queues[KeyOf(ix)]) && x.seqId == ix.seqId ==>
              x.hash !in AddValid(p, ix).pool.lookup
  {
    hide Admit, Raised, Lowered, Undone, HighPressure;
  }

  lemma RefusedIsSame(p: Pool, ix: Ix)
    requires Inv(p) && KeyOf(ix) in p.queues && ix.size <= IX_MAX_SIZE && ix.seqId < U64
    ensures AddValid(p, ix).error.Some? ==> AddValid(p, ix).pool == p
  {
    InvParts(p, KeyOf(ix));
    FreedIsCounted(p, ix);
    AddOutcome(p, ix);
  }

  /** An accepted interaction keeps the invariant exactly if it completes no run to the last id. */
  lemma AddValidKeeps(p: Pool, ix: Ix)
    requires Inv(p) && KeyOf(ix) in p.queues && ix.size <= IX_MAX_SIZE && ix.seqId < U64
    requires AddValid(p, ix).error.None?
    ensures Inv(AddValid(p, ix).pool) <==> AdmitFits(p.queues[KeyOf(ix)], ix)
    ensures KeyOf(ix) in AddValid(p, ix).pool.queues
    ensures InOrder(AddValid(p, ix).pool.queues[KeyOf(ix)]) <==> AdmitFits(p.queues[KeyOf(ix)], ix)
  {
    var k := KeyOf(ix);
    var q := p.queues[k];
    var r := AddValid(p, ix).pool;
    assert QueueOk(q, k);
    FreedIsCounted(p, ix);
    AddOutcome(p, ix);
    AdmitOk(q, ix);
    if AdmitFits(q, ix) {
      AddFinds(p, ix);
      AdmitSlots(q, ix);
      QueueReplaced(p, r, k, Admit(q, ix));
    } else {
      assert !QueueOk(r.queues[k], k);
    }
    hide AddValid, AdmitFits, Admit, InOrder, Counted, LookupSound, AccountQueues.Valid;
  }

  /** One queue changes and the gauge follows it. */
  lemma QueueReplaced(p: Pool, r: Pool, k: QKey, q: AccQ)
    requires QueuesOk(p.queues) && Counted(p) && k in p.queues && QueueOk(q, k) && LookupSound(r)
    requires r.queues == p.queues[k := q] && r.max == p.max && r.gauge <= r.max
    requires r.gauge == p.gauge + SlotSum(Content(q)) - SlotSum(Content(p.queues[k]))
    ensures Inv(r)
  {
    hide QueueOk, LookupSound, TotalSlots, SlotSum;
    TotalUpdate(p.queues, k, q);
  }

  lemma FreedIsCounted(p: Pool, ix: Ix)
    requires Counted(p) && KeyOf(ix) in p.queues && AccountQueues.Valid(p.queues[KeyOf(ix)])
    ensures Freed(p.queues[KeyOf(ix)], ix) <= p.gauge
  {
    var q := p.queues[KeyOf(ix)];
    if ix.seqId in q.seqToIx {
      SlotSumRemove(Content(q), q.seqToIx[ix.seqId]);
      GaugeCovers(p, KeyOf(ix), Content(q));
    }
  }

  lemma AdmitOk(q: AccQ, ix: Ix)
    requires QueueOk(q, KeyOf(ix)) && Admissible(q, ix)
    ensures QueueOk(Admit(q, ix), KeyOf(ix)) <==> AdmitFits(q, ix)
    ensures InOrder(Admit(q, ix)) <==> AdmitFits(q, ix)
  {
    AdmitKeeps(q, ix);
  }

  lemma AddKeeps(p: Pool, ix: Ix, checksPass: bool, stateSeq: Option<nat>)
    requires Inv(p) && Enabled(p, AddStep(ix, checksPass, stateSeq))
    ensures var s := AddStep(ix, checksPass, stateSeq);
            (Inv(Apply(p, s)) <==> Fits(p, s)) && (AllInOrder(Apply(p, s)) <==> Fits(p, s))
  {
    hide Inv, AddValid, InOrder, AdmitFits, Dropped, Welcome;
    AddAcceptedIff(p, ix, checksPass, stateSeq);
    var r := AddIx(p, ix, checksPass, stateSeq);
    var p1 := GetOrCreate(p, KeyOf(ix), stateSeq.GetOr(ix.seqId));
    GetOrCreateKeeps(p, KeyOf(ix), stateSeq.GetOr(ix.seqId));
    if r.error.Some? {
      if r.pool != p {
        RefusedIsSame(p1, ix);
      }
      InvInOrder(r.pool);
    } else {
      AddValidKeeps(p1, ix);
      assert r == AddValid(p1, ix) && p1.queues[KeyOf(ix)] == Target(p, ix, stateSeq);
      if AdmitFits(Target(p, ix, stateSeq), ix) {
        InvInOrder(r.pool);
      }
    }
  }

  lemma InvInOrder(p: Pool)
    requires Inv(p)
    ensures AllInOrder(p)
  {
    forall k | k in p.queues
      ensures InOrder(p.queues[k])
    {
      assert QueueOk(p.queues[k], k);
      ValidIsInOrder(p.queues[k]);
    }
  }

  lemma DropKeeps(p: Pool, ix: Ix, stateSeq: Option<nat>)
    requires Inv(p) && ix.seqId < U64
    ensures Inv(Drop(p, ix, stateSeq))
  {
    if KeyOf(ix) in p.queues && stateSeq.GetOr(0) <= ix.seqId {
      DroppedIsValid(ix.seqId);
      hide Dropped, AccountQueues.Valid;
      ShrinkKeeps(p, KeyOf(ix), Dropped(ix.seqId));
    }
  }

  lemma PruneHoleKeeps(p: Pool, k: QKey)
    requires Inv(p)
    ensures Inv(PruneHole(p, k)) && PruneHole(p, k).queues.Keys == p.queues.Keys
  {
    if k in p.queues {
      assert QueueOk(p.queues[k], k);
      UnholedKeeps(p.queues[k]);
      ShrinkKeeps(p, k, Unholed(p.queues[k]));
    }
  }

  lemma {:induction false} PruneHolesSnoc(p: Pool, order: seq<QKey>, k: QKey)
    ensures PruneHoles(p, order + [k]) == PruneHole(PruneHoles(p, order), k)
    decreases |order|
  {
    if order != [] {
      assert (order + [k])[1..] == order[1..] + [k];
      PruneHolesSnoc(PruneHole(p, order[0]), order[1..], k);
    }
  }

  lemma {:induction false} PruneHolesKeeps(p: Pool, order: seq<QKey>)
    requires Inv(p)
    ensures Inv(PruneHoles(p, order))
    decreases |order|
  {
    if order != [] {
      PruneHoleKeeps(p, order[0]);
      PruneHolesKeeps(PruneHole(p, order[0]), order[1..]);
    }
  }

  lemma ResetOk(q: AccQ, k: QKey, latest: nat)
    requires QueueOk(q, k) && latest < U64
    ensures Content(AccountQueues.Reset(q, latest)) <= Content(q)
    ensures QueueOk(AccountQueues.Reset(q, latest), k) <==> RestartFits(q, latest)
    ensures InOrder(AccountQueues.Reset(q, latest)) <==> RestartFits(q, latest)
  {
    hide AccountQueues.Reset, RestartFits, InOrder, AccountQueues.Valid;
    ResetKeeps(q, latest);
  }

  lemma ResetQueueKeeps(p: Pool, k: QKey, latest: nat)
    requires Inv(p) && k in p.queues && latest < U64
    ensures Inv(ResetQueue(p, k, latest)) <==> RestartFits(p.queues[k], latest)
    ensures InOrder(ResetQueue(p, k, latest).queues[k]) <==> RestartFits(p.queues[k], latest)
  {
    hide AccountQueues.Reset, RestartFits, InOrder, Content, Counted, LookupSound, AccountQueues.Valid;
    var q := AccountQueues.Reset(p.queues[k], latest);
    assert QueueOk(p.queues[k], k);
    ResetOk(p.queues[k], k, latest);
    if RestartFits(p.queues[k], latest) {
      ShrinkKeeps(p, k, q);
    } else {
      assert !QueueOk(ResetQueue(p, k, latest).queues[k], k);
    }
  }

  /** The gauge counts and every queue whose sender is still to come is valid. */
  ghost predicate Resettable(p: Pool, done: set<Identifier>) {
    Counted(p) && forall k :: k in p.queues && k.0 !in done ==> AccountQueues.Valid(p.queues[k])
  }

  lemma InvResettable(p: Pool)
    requires Inv(p)
    ensures Resettable(p, {})
  {
    forall k | k in p.queues
      ensures AccountQueues.Valid(p.queues[k])
    {
      assert QueueOk(p.queues[k], k);
    }
  }

  /** Resetting a queue keeps the count whether or not the queue stays in order. */
  lemma ResetCounts(p: Pool, k: QKey, latest: nat)
    requires Counted(p) && k in p.queues && AccountQueues.Valid(p.queues[k]) && latest < U64
    ensures Counted(ResetQueue(p, k, latest))
  {
    ResetKeeps(p.queues[k], latest);
    ShrinkCounts(p, k, AccountQueues.Reset(p.queues[k], latest));
  }

  lemma ResetSenderCounts(p: Pool, ix: Ix, states: map<QKey, nat>, done: set<Identifier>)
    requires Resettable(p, done) && ix.sender !in done && (HasAccount(p, ix.sender) ==> KeyOf(ix) in p.queues)
    requires forall k :: k in states ==> states[k] < U64
    ensures Resettable(ResetSender(p, ix, states), done + {ix.sender})
  {
    if HasAccount(p, ix.sender) {
      ResetCounts(p, KeyOf(ix), Latest(ix, states));
    }
    hide Counted, AccountQueues.Valid, AccountQueues.Reset;
  }

  /** Whether the rest of a reset fits does not depend on queues of senders already handled. */
  lemma {:induction false} SameFits(p: Pool, r: Pool, ixs: seq<Ix>, states: map<QKey, nat>, done: set<Identifier>)
    requires r.queues.Keys == p.queues.Keys
    requires forall k :: k in p.queues && k.0 !in done ==> r.queues[k] == p.queues[k]
    ensures ResetFits(r, ixs, states, done) <==> ResetFits(p, ixs, states, done)
    decreases |ixs|
  {
    if ixs != [] {
      SameFits(p, r, ixs[1..], states, done + {ixs[0].sender});
      SameFits(p, r, ixs[1..], states, done);
    }
  }

  /** Queues of senders already handled are left alone. */
  lemma {:induction false} ResetLeaves(p: Pool, ixs: seq<Ix>, states: map<QKey, nat>, done: set<Identifier>, k: QKey)
    requires KeysKnown(p, ixs, done) && k in p.queues && k.0 in done
    ensures k in ResetFrom(p, ixs, states, done).queues && ResetFrom(p, ixs, states, done).queues[k] == p.queues[k]
    decreases |ixs|
  {
    if ixs == [] {
    } else if ixs[0].sender in done {
      ResetLeaves(p, ixs[1..], states, done, k);
    } else {
      var p1 := ResetSender(p, ixs[0], states);
      SameAccounts(p, p1, ixs[1..], done + {ixs[0].sender});
      ResetLeaves(p1, ixs[1..], states, done + {ixs[0].sender}, k);
    }
  }

  lemma {:induction false} ResetFromKeeps(p: Pool, ixs: seq<Ix>, states: map<QKey, nat>, done: set<Identifier>)
    requires Inv(p) && KeysKnown(p, ixs, done) && (forall k :: k in states ==> states[k] < U64)
    ensures ResetFits(p, ixs, states, done) ==> Inv(ResetFrom(p, ixs, states, done))
    ensures !ResetFits(p, ixs, states, done) ==> !AllInOrder(ResetFrom(p, ixs, states, done))
    decreases |ixs|
  {
    hide Inv, InOrder, RestartFits, Shrink;
    if ixs == [] {
    } else if ixs[0].sender in done {
      ResetFromKeeps(p, ixs[1..], states, done);
    } else {
      var k := KeyOf(ixs[0]);
      var p1 := ResetSender(p, ixs[0], states);
      var done1 := done + {ixs[0].sender};
      ResetFirst(p, ixs[0], states);
      SameAccounts(p, p1, ixs[1..], done1);
      SameFits(p, p1, ixs[1..], states, done1);
      if k in p.queues && !RestartFits(p.queues[k], Latest(ixs[0], states)) {
        ResetLeaves(p1, ixs[1..], states, done1, k);
      } else {
        ResetFromKeeps(p1, ixs[1..], states, done1);
      }
    }
  }

  lemma ResetFirst(p: Pool, ix: Ix, states: map<QKey, nat>)
    requires Inv(p) && (HasAccount(p, ix.sender) ==> KeyOf(ix) in p.queues)
    requires forall k :: k in states ==> states[k] < U64
    ensures var r := ResetSender(p, ix, states);
            && (forall k :: k in p.queues && k != KeyOf(ix) ==> r.queues[k] == p.queues[k])
            && if KeyOf(ix) in p.queues && !RestartFits(p.queues[KeyOf(ix)], Latest(ix, states))
               then !InOrder(r.queues[KeyOf(ix)])
               else Inv(r)
  {
    hide Inv, InOrder, RestartFits, AccountQueues.Reset, Content, Hashes, Decrease, SlotSum;
    if KeyOf(ix) in p.queues {
      assert HasAccount(p, ix.sender);
      ResetQueueKeeps(p, KeyOf(ix), Latest(ix, states));
    }
  }

  lemma LookupShrinks(p: Pool, hashes: set<Hash>)
    requires Inv(p)
    ensures Inv(p.(lookup := p.lookup - hashes))
  {
  }

  lemma ResetStepKeeps(p: Pool, ixs: seq<Ix>, states: map<QKey, nat>)
    requires Inv(p) && Enabled(p, ResetStep(ixs, states))
    ensures ResetFits(p, ixs, states, {}) ==> Inv(ResetWithHeaders(p, ixs, states))
    ensures !ResetFits(p, ixs, states, {}) ==> !AllInOrder(ResetWithHeaders(p, ixs, states))
  {
    var p1 := p.(lookup := p.lookup - (set ix | ix in ixs :: ix.hash));
    LookupShrinks(p, set ix | ix in ixs :: ix.hash);
    SameFits(p, p1, ixs, states, {});
    SameAccounts(p, p1, ixs, {});
    ResetFromKeeps(p1, ixs, states, {});
    hide Inv, ResetFits, ResetFrom, AllInOrder;
  }

  /** Every step keeps the invariant exactly if it promotes no run that takes in the last id; a step that
      does leaves a queue out of order. */
  lemma StepKeeps(p: Pool, s: Step)
    requires Inv(p) && Enabled(p, s)
    ensures Inv(Apply(p, s)) <==> Fits(p, s)
    ensures AllInOrder(Apply(p, s)) <==> Fits(p, s)
  {
    match s {
      case AddStep(ix, checksPass, stateSeq) => AddKeeps(p, ix, checksPass, stateSeq);
      case ResetStep(ixs, states) => ResetStepKeeps(p, ixs, states);
      case DropStep(ix, stateSeq) => DropKeeps(p, ix, stateSeq);
      case PruneStep(order) => PruneHolesKeeps(p, order);
    }
    if Inv(Apply(p, s)) {
      InvInOrder(Apply(p, s));
    }
    hide Inv, AllInOrder, ResetFits, ResetWithHeaders, AddIx, AdmitFits;
  }

  /******* What adding does *******/

  function ContentAt(p: Pool, k: QKey): set<Ix> {
    if k in p.queues then Content(p.queues[k]) else {}
  }

  /** An accepted interaction is queued in the place of the one with its id, and nothing else in the queues
      moves. */
  lemma AcceptedIsQueued(p: Pool, ix: Ix, checksPass: bool, stateSeq: Option<nat>)
    requires Inv(p) && Enabled(p, AddStep(ix, checksPass, stateSeq)) && AddIx(p, ix, checksPass, stateSeq).error.None?
    ensures var r := AddIx(p, ix, checksPass, stateSeq).pool;
            && (forall x :: x in ContentAt(r, KeyOf(ix)) <==>
                  x == ix || (x in ContentAt(p, KeyOf(ix)) && x.seqId != ix.seqId))
            && (forall k :: k != KeyOf(ix) ==> ContentAt(r, k) == ContentAt(p, k))
  {
    hide Inv, AddValid, ContentAt, GetOrCreate;
    var k := KeyOf(ix);
    GetOrCreateKeeps(p, k, stateSeq.GetOr(ix.seqId));
    SameContents(p, k, stateSeq.GetOr(ix.seqId));
    PlacedInQueue(GetOrCreate(p, k, stateSeq.GetOr(ix.seqId)), ix);
  }

  /** It is found under its hash; only the hash of the one it replaced is forgotten. */
  lemma AcceptedIsFound(p: Pool, ix: Ix, checksPass: bool, stateSeq: Option<nat>)
    requires Inv(p) && Enabled(p, AddStep(ix, checksPass, stateSeq)) && AddIx(p, ix, checksPass, stateSeq).error.None?
    ensures var r := AddIx(p, ix, checksPass, stateSeq).pool;
            && ix.hash in r.lookup && r.lookup[ix.hash] == ix
            && (forall h :: h in r.lookup && h != ix.hash ==> h in p.lookup && r.lookup[h] == p.lookup[h])
            && (forall h :: h in p.lookup && h !in r.lookup ==>
                  exists x :: x in ContentAt(p, KeyOf(ix)) && x.seqId == ix.seqId && x.hash == h)
  {
    hide Inv, AddValid, GetOrCreate, AccountQueues.Valid, Content;
    var k := KeyOf(ix);
    var p1 := GetOrCreate(p, k, stateSeq.GetOr(ix.seqId));
    GetOrCreateKeeps(p, k, stateSeq.GetOr(ix.seqId));
    SameContents(p, k, stateSeq.GetOr(ix.seqId));
    PlacedInLookup(p1, ix);
    InvParts(p1, k);
    IndexFinds(p1.queues[k], ix.seqId);
    assert ContentAt(p1, k) == Content(p1.queues[k]);
    hide ContentAt;
  }

  lemma SameContents(p: Pool, k: QKey, start: nat)
    ensures var r := GetOrCreate(p, k, start);
            k in r.queues && r.lookup == p.lookup && r.gauge == p.gauge && r.max == p.max
            && forall j :: ContentAt(r, j) == ContentAt(p, j)
  {
    assert Content(Dropped(start)) == {};
  }

  lemma PlacedInQueue(p: Pool, ix: Ix)
    requires Inv(p) && KeyOf(ix) in p.queues && ix.size <= IX_MAX_SIZE && ix.seqId < U64 && AddValid(p, ix).error.None?
    ensures var r := AddValid(p, ix).pool;
            && ContentAt(r, KeyOf(ix)) == Replaced(ContentAt(p, KeyOf(ix)), ix)
            && (forall k :: k != KeyOf(ix) ==> ContentAt(r, k) == ContentAt(p, k))
  {
    InvParts(p, KeyOf(ix));
    FreedIsCounted(p, ix);
    AddOutcome(p, ix);
    AdmitKeeps(p.queues[KeyOf(ix)], ix);
    hide Inv, AddValid, Counted, AccountQueues.Valid, Admit, Content, Replaced, Admissible, Freed;
  }

  lemma PlacedInLookup(p: Pool, ix: Ix)
    requires KeyOf(ix) in p.queues && AddValid(p, ix).error.None?
    ensures var r := AddValid(p, ix).pool;
            && ix.hash in r.lookup && r.lookup[ix.hash] == ix
            && (forall h :: h in r.lookup && h != ix.hash ==> h in p.lookup && r.lookup[h] == p.lookup[h])
            && (forall h :: h in p.lookup && h !in r.lookup ==>
                  ix.seqId in p.queues[KeyOf(ix)].seqToIx && p.queues[KeyOf(ix)].seqToIx[ix.seqId].hash == h)
  {
    hide Admit, Raised, Lowered, Undone, HighPressure;
  }

  /** The tests and the gauge take an interaction in exactly if it is welcome, with the gauge at the slots
      the queues need. */
  lemma AcceptedIff(p: Pool, ix: Ix)
    requires Inv(p) && KeyOf(ix) in p.queues && ix.size <= IX_MAX_SIZE
    ensures AddValid(p, ix).error.None? <==> Welcome(p, p.queues[KeyOf(ix)], ix)
    ensures p.gauge == TotalSlots(p.queues)
  {
    hide HighPressure, Admit, AccountQueues.Valid, QueuesOk, LookupSound, TotalSlots;
    InvParts(p, KeyOf(ix));
    FreedIsCounted(p, ix);
    SwapExact(p.gauge, p.max, Slots(ix), Freed(p.queues[KeyOf(ix)], ix));
    hide Raised, Lowered, Undone;
  }

  /** Adding as a whole, read off the pool before the call. */
  lemma AddAcceptedIff(p: Pool, ix: Ix, checksPass: bool, stateSeq: Option<nat>)
    requires Inv(p) && Enabled(p, AddStep(ix, checksPass, stateSeq))
    ensures AddIx(p, ix, checksPass, stateSeq).error.None? <==> Accepts(p, ix, checksPass, stateSeq)
  {
    hide Inv, AddValid, Dropped;
    if ix.size <= IX_MAX_SIZE && stateSeq.GetOr(0) <= ix.seqId && checksPass {
      GetOrCreateKeeps(p, KeyOf(ix), stateSeq.GetOr(ix.seqId));
      AcceptedIff(GetOrCreate(p, KeyOf(ix), stateSeq.GetOr(ix.seqId)), ix);
    }
  }

  /** A refused interaction leaves the pool as it was, but for an empty queue. */
  lemma RefusedChangesNothing(p: Pool, ix: Ix, checksPass: bool, stateSeq: Option<nat>)
    requires Inv(p) && Enabled(p, AddStep(ix, checksPass, stateSeq)) && AddIx(p, ix, checksPass, stateSeq).error.Some?
    ensures var r, k := AddIx(p, ix, checksPass, stateSeq).pool, (ix.sender, ix.key);
            || r == p
            || (k !in p.queues && r == p.(queues := p.queues[k := AccQ({}, {}, map[], ExpectedId(p, ix, stateSeq))]))
  {
    hide Inv, AddValid;
    if ix.size <= IX_MAX_SIZE && stateSeq.GetOr(0) <= ix.seqId && checksPass {
      var k := KeyOf(ix);
      var p1 := GetOrCreate(p, k, stateSeq.GetOr(ix.seqId));
      GetOrCreateKeeps(p, k, stateSeq.GetOr(ix.seqId));
      RefusedIsSame(p1, ix);
    }
  }

  lemma EmptyIsValid(max: nat)
    requires RoomToCount(max)
    ensures Inv(Empty(max))
  {
    assert SlotTable(map[]) == map[];
  }

  /** Every state of a run from an empty pool satisfies the invariant while the steps before it fit. */
  lemma {:induction false} RunKeeps(states: seq<Pool>, steps: seq<Step>, n: nat)
    requires IsRun(states, steps) && n <= |steps| && AllFit(states, steps, n)
    requires exists max :: states[0] == Empty(max) && RoomToCount(max)
    ensures Inv(states[n])
  {
    if n == 0 {
      EmptyIsValid(states[0].max);
    } else {
      RunKeeps(states, steps, n - 1);
      StepKeeps(states[n - 1], steps[n - 1]);
    }
  }

  /** In every state of every run from an empty pool that promotes no run to the last id: each queue is in
      order, the gauge counts the queued slots within its limit, and the lookup finds only queued
      interactions. */
  lemma ReachableStates(states: seq<Pool>, steps: seq<Step>, n: nat)
    requires IsRun(states, steps) && n <= |steps| && AllFit(states, steps, n)
    requires exists max :: states[0] == Empty(max) && RoomToCount(max)
    ensures forall k :: k in states[n].queues ==> InOrder(states[n].queues[k])
    ensures states[n].gauge == TotalSlots(states[n].queues) <= states[n].max
    ensures LookupSound(states[n])
  {
    RunKeeps(states, steps, n);
    InvInOrder(states[n]);
  }

  /** A run from an empty pool keeps every queue in order throughout exactly if no step promotes a run
      that takes in the last id. */
  lemma {:induction false} InOrderIff(states: seq<Pool>, steps: seq<Step>, n: nat)
    requires IsRun(states, steps) && n <= |steps|
    requires exists max :: states[0] == Empty(max) && RoomToCount(max)
    ensures (forall i :: 0 <= i <= n ==> AllInOrder(states[i])) <==> AllFit(states, steps, n)
  {
    hide AllInOrder, Fits, Inv, Apply, Enabled;
    if n == 0 {
      EmptyIsValid(states[0].max);
      InvInOrder(states[0]);
    } else {
      var last := n - 1;
      InOrderIff(states, steps, last);
      assert states[last + 1] == Apply(states[last], steps[last]);
      if AllFit(states, steps, last) {
        RunKeeps(states, steps, last);
        StepKeeps(states[last], steps[last]);
      }
    }
  }

  /******* First interactions *******/

  /** A small interaction with the id 0. */
  predicate IsFirst(ix: Ix) {
    ix.seqId == 0 && 0 < ix.size <= IX_SLOT_SIZE
  }

  /** The queue that has only promoted it. */
  function FirstQueue(ix: Ix): AccQ {
    AccQ({}, {ix}, map[0 := ix], 1)
  }

  lemma FirstAdmitted(ix: Ix)
    requires ix.seqId == 0
    ensures Admit(Dropped(0), ix) == FirstQueue(ix)
  {
    var q := Enqueue(Dropped(0), ix, false);
    assert q == AccQ({ix}, {}, map[0 := ix], 0);
    assert Ids(q.enqueued) == {0};
    assert RunEnd({0}, 0) == 1;
    assert Promote(q).promoted == {ix};
    assert Promote(q).enqueued == {};
  }

  /** Where there is room for it, the first interaction under a key is promoted at once. */
  lemma FirstAdded(p: Pool, ix: Ix)
    requires IsFirst(ix) && KeyOf(ix) !in p.queues && ix.hash !in p.lookup
    requires p.max == 1000 && p.gauge < 800
    ensures AddIx(p, ix, true, None) ==
            AddResult(Pool(p.queues[KeyOf(ix) := FirstQueue(ix)], p.lookup[ix.hash := ix], p.gauge + 1, p.max), None)
  {
    FirstAdmitted(ix);
    assert Slots(ix) == 1;
    var q := GetOrCreate(p, KeyOf(ix), 0);
    assert q.queues[KeyOf(ix)] == Dropped(0);
    assert q.queues[KeyOf(ix) := FirstQueue(ix)] == p.queues[KeyOf(ix) := FirstQueue(ix)];
    hide Admit, FirstQueue;
  }

  lemma FirstKeeps(x: Ix)
    requires IsFirst(x)
    ensures Inv(AddIx(Empty(1000), x, true, None).pool)
  {
    hide Inv, AllInOrder;
    EmptyIsValid(1000);
    assert RunEnd(Ids({}) + {0}, 0) == 1;
    assert AdmitFits(Target(Empty(1000), x, None), x);
    hide AddIx, AdmitFits, Target, Accepts;
    AddKeeps(Empty(1000), x, true, None);
  }

  /** A sender with a queue under one key only: a commit under another does not find its queue. */
  lemma UnknownKeyStops(x: Ix, y: Ix)
    requires IsFirst(x) && x.sender == y.sender && x.key != y.key
    ensures var p := AddIx(Empty(1000), x, true, None).pool;
            Inv(p) && !KeysKnown(p, [y], {})
  {
    hide Inv, AddIx;
    FirstKeeps(x);
    FirstAdded(Empty(1000), x);
    var p := AddIx(Empty(1000), x, true, None).pool;
    assert KeyOf(x) in p.queues && HasAccount(p, y.sender);
  }

  /******* What an add answers *******/

  /** The id expected under the interaction's key: the queue's, or else the state's, or else its own. */
  function ExpectedId(p: Pool, ix: Ix, stateSeq: Option<nat>): nat {
    if (ix.sender, ix.key) in p.queues then p.queues[(ix.sender, ix.key)].next
    else match stateSeq case Some(n) => n case None => ix.seqId
  }

  /** The queued interaction with the id, if there is one. */
  ghost predicate QueuedWith(p: Pool, ix: Ix, prior: Ix) {
    (ix.sender, ix.key) in p.queues && prior in Content(p.queues[(ix.sender, ix.key)]) && prior.seqId == ix.seqId
  }

  ghost predicate NoneWith(p: Pool, ix: Ix) {
    (ix.sender, ix.key) in p.queues ==> forall x :: x in Content(p.queues[(ix.sender, ix.key)]) ==> x.seqId != ix.seqId
  }

  /** Every answer before the gauge is asked, in the order of the tests, where eighty times the limit fits 64
      bits: size, the state's id, the outside checks, and under pressure nothing above the expected id. */
  lemma EarlyAnswers(p: Pool, ix: Ix, checksPass: bool, stateSeq: Option<nat>)
    requires Inv(p) && 80 * p.max < U64
    ensures var error := AddIx(p, ix, checksPass, stateSeq).error;
            if ix.size > 131072 then error == Some(Oversized)
            else if stateSeq.Some? && stateSeq.value > ix.seqId then error == Some(SequenceIdTooLow)
            else if !checksPass then error == Some(Rejected)
            else if 100 * p.gauge > 80 * p.max && ix.seqId > ExpectedId(p, ix, stateSeq) then error == Some(FutureIx)
            else error != Some(FutureIx) && error != Some(Oversized) && error != Some(Rejected)
  {
    hide Place, HighPressure, Inv;
    PressureIs(p.gauge, p.max);
    PlaceAnswers(GetOrCreate(p, KeyOf(ix), stateSeq.GetOr(ix.seqId)), ix);
  }

  lemma PlaceAnswers(p: Pool, ix: Ix)
    requires KeyOf(ix) in p.queues
    ensures Place(p, ix).error in {None, Some(PoolOverflow), Some(AlreadyKnown)}
  {
    hide Admit, Raised, Lowered, Undone;
  }

  /** Where the slots fit the interaction is placed, unless its hash is known. */
  lemma PlaceAnswersIff(p: Pool, ix: Ix)
    requires Inv(p) && KeyOf(ix) in p.queues && ix.size <= IX_MAX_SIZE
    ensures var error, freed := Place(p, ix).error, Freed(p.queues[KeyOf(ix)], ix);
            if Slots(ix) > freed && p.gauge + Slots(ix) > p.max + freed then error == Some(PoolOverflow)
            else if ix.hash in p.lookup then error == Some(AlreadyKnown)
            else error == None
  {
    hide Admit, AccountQueues.Valid, QueuesOk, LookupSound, TotalSlots;
    InvParts(p, KeyOf(ix));
    FreedIsCounted(p, ix);
    SwapExact(p.gauge, p.max, Slots(ix), Freed(p.queues[KeyOf(ix)], ix));
    hide Raised, Lowered, Undone;
  }

  /** And the answers after them: the same hash or a higher price under the id, an id below the expected one,
      slots that do not fit without those freed, a known hash; otherwise it is taken in. */
  lemma LateAnswers(p: Pool, ix: Ix, stateSeq: Option<nat>, prior: Ix)
    requires Inv(p) && 80 * p.max < U64 && Enabled(p, AddStep(ix, true, stateSeq))
    requires ix.size <= 131072 && (stateSeq.Some? ==> stateSeq.value <= ix.seqId)
    requires 100 * p.gauge > 80 * p.max ==> ix.seqId <= ExpectedId(p, ix, stateSeq)
    requires QueuedWith(p, ix, prior) || NoneWith(p, ix)
    ensures var error := AddIx(p, ix, true, stateSeq).error;
            var freed := if QueuedWith(p, ix, prior) then Slots(prior) else 0;
            if QueuedWith(p, ix, prior) && prior.hash == ix.hash then error == Some(AlreadyKnown)
            else if QueuedWith(p, ix, prior) && prior.fuelPrice > ix.fuelPrice then error == Some(Underpriced)
            else if NoneWith(p, ix) && ix.seqId < ExpectedId(p, ix, stateSeq) then error == Some(SequenceIdTooLow)
            else if Slots(ix) > freed && p.gauge + Slots(ix) > p.max + freed then error == Some(PoolOverflow)
            else if ix.hash in p.lookup then error == Some(AlreadyKnown)
            else error == None
  {
    hide AddValid, HighPressure, Inv, AccountQueues.Valid, Slots;
    var k := KeyOf(ix);
    var p1 := GetOrCreate(p, k, stateSeq.GetOr(ix.seqId));
    GetOrCreateKeeps(p, k, stateSeq.GetOr(ix.seqId));
    PressureIs(p.gauge, p.max);
    InvParts(p1, k);
    IndexFinds(p1.queues[k], ix.seqId);
    assert Content(Dropped(stateSeq.GetOr(ix.seqId))) == {};
    ValidAnswers(p1, ix);
  }

  lemma ValidAnswers(p: Pool, ix: Ix)
    requires Inv(p) && KeyOf(ix) in p.queues && ix.size <= IX_MAX_SIZE
    requires HighPressure(p.gauge, p.max) ==> ix.seqId <= p.queues[KeyOf(ix)].next
    ensures var error, q := AddValid(p, ix).error, p.queues[KeyOf(ix)];
            var freed := if ix.seqId in q.seqToIx then Slots(q.seqToIx[ix.seqId]) else 0;
            if ix.seqId in q.seqToIx && q.seqToIx[ix.seqId].hash == ix.hash then error == Some(AlreadyKnown)
            else if ix.seqId in q.seqToIx && q.seqToIx[ix.seqId].fuelPrice > ix.fuelPrice
            then error == Some(Underpriced)
            else if ix.seqId !in q.seqToIx && ix.seqId < q.next then error == Some(SequenceIdTooLow)
            else if Slots(ix) > freed && p.gauge + Slots(ix) > p.max + freed then error == Some(PoolOverflow)
            else if ix.hash in p.lookup then error == Some(AlreadyKnown)
            else error == None
  {
    hide Place, HighPressure, Inv, Slots;
    PlaceAnswersIff(p, ix);
  }

  lemma IndexFinds(q: AccQ, i: nat)
    requires AccountQueues.Valid(q)
    ensures i in q.seqToIx <==> exists x :: x in Content(q) && x.seqId == i
    ensures forall x :: x in Content(q) && x.seqId == i ==> i in q.seqToIx && q.seqToIx[i] == x
  {
  }

  /** The id expected after an interaction was taken in: the same, unless it was the expected one; then the
      first id from there on that is not queued. */
  lemma AcceptedExpects(p: Pool, ix: Ix, checksPass: bool, stateSeq: Option<nat>)
    requires Inv(p) && Enabled(p, AddStep(ix, checksPass, stateSeq)) && Fits(p, AddStep(ix, checksPass, stateSeq))
    requires AddIx(p, ix, checksPass, stateSeq).error.None?
    ensures var r, k, n := AddIx(p, ix, checksPass, stateSeq).pool, (ix.sender, ix.key), ExpectedId(p, ix, stateSeq);
            && k in r.queues
            && if ix.seqId != n then r.queues[k].next == n
               else
                 && r.queues[k].next > n && !HasId(r.queues[k], r.queues[k].next)
                 && forall i :: n <= i < r.queues[k].next ==> HasId(r.queues[k], i)
  {
    hide Inv, AddValid, AccountQueues.Valid, Admit, Admissible, AdmitFits, HasId, Accepts;
    var k := KeyOf(ix);
    var p1 := GetOrCreate(p, k, stateSeq.GetOr(ix.seqId));
    GetOrCreateKeeps(p, k, stateSeq.GetOr(ix.seqId));
    AddAcceptedIff(p, ix, checksPass, stateSeq);
    PlacedExpects(p1, ix);
  }

  lemma PlacedExpects(p: Pool, ix: Ix)
    requires Inv(p) && KeyOf(ix) in p.queues && ix.size <= IX_MAX_SIZE && ix.seqId < U64
    requires AddValid(p, ix).error.None? && AdmitFits(p.queues[KeyOf(ix)], ix)
    ensures var r, q := AddValid(p, ix).pool, p.queues[KeyOf(ix)];
            && KeyOf(ix) in r.queues
            && if ix.seqId != q.next then r.queues[KeyOf(ix)].next == q.next
               else
                 && r.queues[KeyOf(ix)].next > q.next && !HasId(r.queues[KeyOf(ix)], r.queues[KeyOf(ix)].next)
                 && forall i :: q.next <= i < r.queues[KeyOf(ix)].next ==> HasId(r.queues[KeyOf(ix)], i)
  {
    hide Inv, AddValid, AccountQueues.Valid, Admit, Admissible, AdmitFits, HasId;
    InvParts(p, KeyOf(ix));
    FreedIsCounted(p, ix);
    AddOutcome(p, ix);
    AdmitExpects(p.queues[KeyOf(ix)], ix);
  }

  lemma AdmitExpects(q: AccQ, ix: Ix)
    requires AccountQueues.Valid(q) && Admissible(q, ix) && AdmitFits(q, ix)
    ensures var r := Admit(q, ix);
            if ix.seqId != q.next then r.next == q.next
            else r.next > q.next && !HasId(r, r.next) && forall i :: q.next <= i < r.next ==> HasId(r, i)
  {
    if ix.seqId == q.next {
      EnqueueSettles(q, ix);
      EnqueuedRun(q, ix);
      var q1 := Enqueue(q, ix, ix.seqId in q.seqToIx);
      AdmitKeeps(q, ix);
      assert ix in q1.enqueued && q.next in Ids(q1.enqueued) by {
        ValidParts(q);
      }
      PromotedHave(q1);
    }
  }

  lemma PromotedHave(q: AccQ)
    requires Settling(q) && RunFits(q)
    ensures var r := Promote(q);
            && (q.next in Ids(q.enqueued) ==> r.next > q.next) && !HasId(r, r.next)
            && forall i :: q.next <= i < r.next ==> HasId(r, i)
  {
    var r := Promote(q);
    PromoteMoves(q);
    forall i | q.next <= i < r.next
      ensures HasId(r, i)
    {
      assert i in Ids(q.enqueued);
      var x :| x in q.enqueued && x.seqId == i;
      assert x in Content(r);
    }
  }

  /******* What a commit and a drop remove *******/

  /** The first interaction of its sender. */
  predicate FirstOf(ixs: seq<Ix>, i: nat) {
    i < |ixs| && forall j :: 0 <= j < i ==> ixs[j].sender != ixs[i].sender
  }

  /** Exactly the interactions from the id on are left. */
  ghost predicate KeptFrom(was: AccQ, now: AccQ, n: nat) {
    forall x :: x in Content(now) <==> x in Content(was) && x.seqId >= n
  }

  lemma ResetKeepsFrom(q: AccQ, latest: nat)
    requires AccountQueues.Valid(q) && latest < U64
    ensures KeptFrom(q, AccountQueues.Reset(q, latest), latest)
  {
    ResetLeavesTheRest(q, latest);
    hide AccountQueues.Reset, AccountQueues.Valid;
  }

  /** The next id after a commit: unchanged if the queue is there already, otherwise the first id from the
      committed one on that is not queued. */
  ghost predicate ExpectsFrom(was: AccQ, now: AccQ, n: nat) {
    if n <= was.next then now.next == was.next
    else
      && now.next >= n && !HasId(was, now.next)
      && forall i :: n <= i < now.next ==> HasId(was, i)
  }

  ghost predicate HasId(q: AccQ, i: nat) {
    exists x :: x in Content(q) && x.seqId == i
  }

  lemma ResetExpects(q: AccQ, latest: nat)
    requires AccountQueues.Valid(q) && latest < U64 && RestartFits(q, latest)
    ensures ExpectsFrom(q, AccountQueues.Reset(q, latest), latest)
  {
    CommittedKeeps(q, latest);
    if latest > q.next {
      OvertakenRun(Committed(q, latest), latest);
      WaitingIds(q, latest);
      hide HasId;
    }
  }

  /** Above the next id only waiting interactions count. */
  lemma WaitingIds(q: AccQ, latest: nat)
    requires AccountQueues.Valid(q) && latest > q.next
    ensures forall i: nat :: i >= latest ==> (HasId(q, i) <==> i in Ids(q.enqueued))
  {
    forall i: nat | i >= latest
      ensures HasId(q, i) <==> i in Ids(q.enqueued)
    {
      if HasId(q, i) {
        var x :| x in Content(q) && x.seqId == i;
        assert x in q.enqueued;
      }
      if i in Ids(q.enqueued) {
        var x :| x in q.enqueued && x.seqId == i;
        assert x in Content(q);
      }
    }
  }

  /** The id the state gives for the interaction's key, or the one after it in 64 bits. */
  function CommittedId(ix: Ix, states: map<QKey, nat>): nat {
    if (ix.sender, ix.key) in states then states[(ix.sender, ix.key)]
    else (ix.seqId + 1) % 0x1_0000_0000_0000_0000
  }

  /** What the first interaction of a sender does to the queues. */
  lemma ResetSenderQueues(p: Pool, ix: Ix, states: map<QKey, nat>)
    requires HasAccount(p, ix.sender) ==> KeyOf(ix) in p.queues
    ensures var r := ResetSender(p, ix, states);
            && r.queues.Keys == p.queues.Keys && r.max == p.max
            && (KeyOf(ix) in p.queues ==>
                  r.queues[KeyOf(ix)] == AccountQueues.Reset(p.queues[KeyOf(ix)], CommittedId(ix, states)))
            && (forall k :: k in p.queues && k != KeyOf(ix) ==> r.queues[k] == p.queues[k])
            && (forall h :: h in r.lookup ==> h in p.lookup && r.lookup[h] == p.lookup[h])
  {
    hide AccountQueues.Reset, SlotSum, Decrease;
    if KeyOf(ix) in p.queues {
      assert HasAccount(p, ix.sender);
    }
  }

  /** What a reset does to one queue, if the sender's first interaction is `ixs[i]`. */
  lemma {:induction false} ResetFromRemoves(p: Pool, ixs: seq<Ix>, states: map<QKey, nat>, done: set<Identifier>,
                                            i: nat)
    requires KeysKnown(p, ixs, done) && FirstOf(ixs, i) && ixs[i].sender !in done && KeyOf(ixs[i]) in p.queues
    ensures KeyOf(ixs[i]) in ResetFrom(p, ixs, states, done).queues
    ensures ResetFrom(p, ixs, states, done).queues[KeyOf(ixs[i])] ==
            AccountQueues.Reset(p.queues[KeyOf(ixs[i])], CommittedId(ixs[i], states))
    decreases |ixs|
  {
    hide AccountQueues.Reset, CommittedId, ResetSender;
    var rest := ixs[1..];
    if i > 0 {
      RestFirst(ixs, i);
    }
    if ixs[0].sender in done {
      ResetFromRemoves(p, rest, states, done, i - 1);
    } else {
      var p1 := ResetSender(p, ixs[0], states);
      ResetSenderQueues(p, ixs[0], states);
      SameAccounts(p, p1, rest, done + {ixs[0].sender});
      if i == 0 {
        ResetLeaves(p1, rest, states, done + {ixs[0].sender}, KeyOf(ixs[0]));
      } else {
        ResetFromRemoves(p1, rest, states, done + {ixs[0].sender}, i - 1);
      }
    }
  }

  lemma RestFirst(ixs: seq<Ix>, i: nat)
    requires 0 < i && FirstOf(ixs, i)
    ensures FirstOf(ixs[1..], i - 1) && ixs[1..][i - 1] == ixs[i] && ixs[0].sender != ixs[i].sender
  {
    assert forall j :: 0 <= j < i - 1 ==> ixs[1..][j] == ixs[j + 1];
  }

  /** A reset leaves alone every queue that is not under the key of its sender's first interaction. */
  lemma {:induction false} ResetFromSpares(p: Pool, ixs: seq<Ix>, states: map<QKey, nat>, done: set<Identifier>,
                                           k: QKey)
    requires KeysKnown(p, ixs, done) && k in p.queues
    requires forall i: nat :: FirstOf(ixs, i) ==> KeyOf(ixs[i]) != k
    ensures k in ResetFrom(p, ixs, states, done).queues && ResetFrom(p, ixs, states, done).queues[k] == p.queues[k]
    decreases |ixs|
  {
    if ixs == [] {
    } else {
      assert FirstOf(ixs, 0);
      var rest := ixs[1..];
      if k.0 in done {
        ResetLeaves(p, ixs, states, done, k);
      } else if ixs[0].sender in done {
        RestFirsts(ixs, k, done);
        ResetFromSpares(p, rest, states, done, k);
      } else {
        var p1 := ResetSender(p, ixs[0], states);
        var done1 := done + {ixs[0].sender};
        ResetSenderQueues(p, ixs[0], states);
        SameAccounts(p, p1, rest, done1);
        if ixs[0].sender == k.0 {
          ResetLeaves(p1, rest, states, done1, k);
        } else {
          RestFirsts(ixs, k, done1);
          ResetFromSpares(p1, rest, states, done1, k);
        }
      }
    }
  }

  lemma RestFirsts(ixs: seq<Ix>, k: QKey, done: set<Identifier>)
    requires ixs != [] && ixs[0].sender in done && k.0 !in done
    requires forall i: nat :: FirstOf(ixs, i) ==> KeyOf(ixs[i]) != k
    ensures forall i: nat :: FirstOf(ixs[1..], i) ==> KeyOf(ixs[1..][i]) != k
  {
    var rest := ixs[1..];
    forall i: nat | FirstOf(rest, i)
      ensures KeyOf(rest[i]) != k
    {
      if rest[i].sender != ixs[0].sender {
        assert forall j :: 0 < j < i + 1 ==> ixs[j] == rest[j - 1];
        assert FirstOf(ixs, i + 1);
      }
    }
  }

  /** The hash of something that left a queue between the two pools. */
  ghost predicate LeftUnder(p: Pool, r: Pool, h: Hash) {
    exists k, x :: k in p.queues && k in r.queues &&
      x in Content(p.queues[k]) && x !in Content(r.queues[k]) && x.hash == h
  }

  /** Exactly the hashes of what left are forgotten. */
  ghost predicate ForgetsLeft(p: Pool, r: Pool) {
    && r.queues.Keys == p.queues.Keys
    && (forall h :: h in r.lookup <==> h in p.lookup && !LeftUnder(p, r, h))
    && (forall h :: h in r.lookup ==> r.lookup[h] == p.lookup[h])
  }

  lemma ShrinkForgets(p: Pool, k: QKey, q: AccQ)
    requires k in p.queues && Content(q) <= Content(p.queues[k])
    ensures ForgetsLeft(p, Shrink(p, k, q))
  {
    var r := Shrink(p, k, q);
    var gone := Content(p.queues[k]) - Content(q);
    forall h
      ensures LeftUnder(p, r, h) <==> h in Hashes(gone)
    {
      if h in Hashes(gone) {
        var x :| x in gone && x.hash == h;
        assert k in r.queues && x !in Content(r.queues[k]);
      }
    }
  }

  lemma ForgetsTwice(p: Pool, q: Pool, r: Pool)
    requires ForgetsLeft(p, q) && ForgetsLeft(q, r)
    requires forall k :: k in p.queues ==> Content(r.queues[k]) <= Content(q.queues[k]) <= Content(p.queues[k])
    ensures ForgetsLeft(p, r)
  {
    forall h
      ensures LeftUnder(p, r, h) <==> LeftUnder(p, q, h) || LeftUnder(q, r, h)
    {
      if LeftUnder(p, q, h) {
        var k, x :| k in p.queues && k in q.queues &&
                    x in Content(p.queues[k]) && x !in Content(q.queues[k]) && x.hash == h;
        assert k in r.queues && x !in Content(r.queues[k]);
      }
      if LeftUnder(q, r, h) {
        var k, x :| k in q.queues && k in r.queues &&
                    x in Content(q.queues[k]) && x !in Content(r.queues[k]) && x.hash == h;
        assert k in p.queues && x in Content(p.queues[k]);
      }
      if LeftUnder(p, r, h) {
        var k, x :| k in p.queues && k in r.queues &&
                    x in Content(p.queues[k]) && x !in Content(r.queues[k]) && x.hash == h;
        assert k in q.queues;
      }
    }
    hide LeftUnder;
  }

  lemma ForgetsNothing(p: Pool)
    ensures ForgetsLeft(p, p)
  {
  }

  lemma ResetSenderForgets(p: Pool, ix: Ix, states: map<QKey, nat>, done: set<Identifier>)
    requires Resettable(p, done) && ix.sender !in done && (HasAccount(p, ix.sender) ==> KeyOf(ix) in p.queues)
    requires forall k :: k in states ==> states[k] < U64
    ensures var r := ResetSender(p, ix, states);
            ForgetsLeft(p, r) && forall k :: k in p.queues ==> Content(r.queues[k]) <= Content(p.queues[k])
  {
    if HasAccount(p, ix.sender) {
      var k := KeyOf(ix);
      ResetKeeps(p.queues[k], Latest(ix, states));
      ShrinkForgets(p, k, AccountQueues.Reset(p.queues[k], Latest(ix, states)));
    } else {
      ForgetsNothing(p);
    }
    hide AccountQueues.Reset, ForgetsLeft, AccountQueues.Valid, InOrder, RestartFits, Latest, Pruned;
  }

  lemma {:induction false} ResetFromForgets(p: Pool, ixs: seq<Ix>, states: map<QKey, nat>, done: set<Identifier>)
    requires KeysKnown(p, ixs, done) && Resettable(p, done) && forall k :: k in states ==> states[k] < U64
    ensures var r := ResetFrom(p, ixs, states, done);
            ForgetsLeft(p, r) && forall k :: k in p.queues ==> Content(r.queues[k]) <= Content(p.queues[k])
    decreases |ixs|
  {
    hide ResetSender, LeftUnder, Resettable, Content;
    if ixs == [] {
      ForgetsNothing(p);
    } else if ixs[0].sender in done {
      ResetFromForgets(p, ixs[1..], states, done);
    } else {
      var p1 := ResetSender(p, ixs[0], states);
      ResetSenderForgets(p, ixs[0], states, done);
      ResetSenderCounts(p, ixs[0], states, done);
      SameAccounts(p, p1, ixs[1..], done + {ixs[0].sender});
      ResetFromForgets(p1, ixs[1..], states, done + {ixs[0].sender});
      ForgetsTwice(p, p1, ResetFrom(p, ixs, states, done));
    }
  }

  /** A tesseract's interactions leave the pool: under the key of each sender's first one exactly the
      interactions from the committed id on are left, and the next id is that id or the end of the run there. */
  lemma ResetRemoves(p: Pool, ixs: seq<Ix>, states: map<QKey, nat>, i: nat)
    requires Inv(p) && Enabled(p, ResetStep(ixs, states)) && FirstOf(ixs, i) && KeyOf(ixs[i]) in p.queues
    ensures var r, k, n := ResetWithHeaders(p, ixs, states), KeyOf(ixs[i]), CommittedId(ixs[i], states);
            && k in r.queues && KeptFrom(p.queues[k], r.queues[k], n)
            && (Fits(p, ResetStep(ixs, states)) ==> ExpectsFrom(p.queues[k], r.queues[k], n))
  {
    var p1 := p.(lookup := p.lookup - (set ix | ix in ixs :: ix.hash));
    var k, n := KeyOf(ixs[i]), CommittedId(ixs[i], states);
    SameAccounts(p, p1, ixs, {});
    ResetFromRemoves(p1, ixs, states, {}, i);
    InvParts(p, k);
    ResetKeepsFrom(p.queues[k], n);
    if ResetFits(p, ixs, states, {}) {
      FirstFits(p, ixs, states, {}, i);
      ResetExpects(p.queues[k], n);
    }
    hide Inv, KeptFrom, ExpectsFrom, ResetFrom, FirstOf, CommittedId, ResetFits, RestartFits, AccountQueues.Reset;
  }

  /** Every other queue stays as it is. */
  lemma ResetSpares(p: Pool, ixs: seq<Ix>, states: map<QKey, nat>, k: QKey)
    requires Enabled(p, ResetStep(ixs, states)) && k in p.queues
    requires forall i: nat :: FirstOf(ixs, i) ==> KeyOf(ixs[i]) != k
    ensures k in ResetWithHeaders(p, ixs, states).queues && ResetWithHeaders(p, ixs, states).queues[k] == p.queues[k]
  {
    var p1 := p.(lookup := p.lookup - (set ix | ix in ixs :: ix.hash));
    SameAccounts(p, p1, ixs, {});
    ResetFromSpares(p1, ixs, states, {}, k);
    hide ResetFrom, FirstOf;
  }

  /** Exactly the hashes of the tesseract and of what leaves a queue are forgotten. */
  lemma ResetForgets(p: Pool, ixs: seq<Ix>, states: map<QKey, nat>)
    requires Inv(p) && Enabled(p, ResetStep(ixs, states))
    ensures var r := ResetWithHeaders(p, ixs, states);
            && r.queues.Keys == p.queues.Keys
            && (forall h :: h in r.lookup ==> h in p.lookup && r.lookup[h] == p.lookup[h])
            && (forall h :: h in p.lookup ==>
                  (h !in r.lookup <==> (exists ix :: ix in ixs && ix.hash == h) || LeftUnder(p, r, h)))
  {
    var hashes := set ix | ix in ixs :: ix.hash;
    var p1 := p.(lookup := p.lookup - hashes);
    var r := ResetWithHeaders(p, ixs, states);
    SameAccounts(p, p1, ixs, {});
    LookupShrinks(p, hashes);
    InvResettable(p1);
    ResetFromForgets(p1, ixs, states, {});
    assert forall h :: LeftUnder(p, r, h) <==> LeftUnder(p1, r, h);
    hide ResetFrom, LeftUnder, Inv;
  }

  lemma {:induction false} FirstFits(p: Pool, ixs: seq<Ix>, states: map<QKey, nat>, done: set<Identifier>, i: nat)
    requires ResetFits(p, ixs, states, done) && FirstOf(ixs, i) && ixs[i].sender !in done && KeyOf(ixs[i]) in p.queues
    ensures RestartFits(p.queues[KeyOf(ixs[i])], CommittedId(ixs[i], states))
    decreases |ixs|
  {
    if i > 0 {
      var rest := ixs[1..];
      RestFirst(ixs, i);
      FirstFits(p, rest, states, if ixs[0].sender in done then done else done + {ixs[0].sender}, i - 1);
    }
  }

  /** A drop empties the interaction's queue and expects its id there, unless the state is past that id or
      there is no such queue; then and everywhere else nothing changes. */
  lemma DropEmpties(p: Pool, ix: Ix, stateSeq: Option<nat>)
    requires Inv(p) && ix.seqId < U64
    ensures var r, k := Drop(p, ix, stateSeq), (ix.sender, ix.key);
            if k in p.queues && (stateSeq.Some? ==> stateSeq.value <= ix.seqId)
            then && r.queues.Keys == p.queues.Keys && Content(r.queues[k]) == {} && r.queues[k].seqToIx == map[]
                 && r.queues[k].next == ix.seqId && (forall j :: j in p.queues && j != k ==> r.queues[j] == p.queues[j])
                 && (forall h :: h in r.lookup <==>
                       h in p.lookup && forall x :: x in Content(p.queues[k]) ==> x.hash != h)
            else r == p
  {
    hide SlotSum, Decrease, TotalSlots;
  }

  /** Hole pruning leaves a queue its promoted interactions and its next id, and no other queue is touched. */
  lemma PruneHoleClears(p: Pool, k: QKey, j: QKey)
    requires Inv(p) && j in p.queues
    ensures var r := PruneHole(p, k);
            && j in r.queues && r.queues[j].next == p.queues[j].next && r.queues[j].promoted == p.queues[j].promoted
            && r.queues[j].enqueued == (if j == k then {} else p.queues[j].enqueued)
  {
    assert QueueOk(p.queues[j], j);
    hide SlotSum, Decrease, TotalSlots, Hashes;
  }

  lemma PruneHoleForgets(p: Pool, k: QKey)
    requires Inv(p)
    ensures var r := PruneHole(p, k);
            ForgetsLeft(p, r) && forall j :: j in p.queues ==> Content(r.queues[j]) <= Content(p.queues[j])
  {
    if k in p.queues {
      InvParts(p, k);
      UnholedKeeps(p.queues[k]);
      ShrinkForgets(p, k, Unholed(p.queues[k]));
    } else {
      ForgetsNothing(p);
    }
    hide Unholed, ForgetsLeft, AccountQueues.Valid, Inv;
  }

  /** Visited in whatever order, exactly the waiting interactions of the queues visited leave the pool. */
  lemma {:induction false} PruneHolesClear(p: Pool, order: seq<QKey>, j: QKey)
    requires Inv(p) && j in p.queues
    ensures var r := PruneHoles(p, order);
            && j in r.queues && r.queues[j].next == p.queues[j].next && r.queues[j].promoted == p.queues[j].promoted
            && r.queues[j].enqueued == (if j in order then {} else p.queues[j].enqueued)
    decreases |order|
  {
    hide Inv, PruneHole;
    if order != [] {
      PruneHoleClears(p, order[0], j);
      PruneHoleKeeps(p, order[0]);
      PruneHolesClear(PruneHole(p, order[0]), order[1..], j);
      assert j in order <==> j == order[0] || j in order[1..];
    }
  }

  /** And exactly their hashes are forgotten. */
  lemma {:induction false} PruneHolesForget(p: Pool, order: seq<QKey>)
    requires Inv(p)
    ensures var r := PruneHoles(p, order);
            ForgetsLeft(p, r) && forall j :: j in p.queues ==> Content(r.queues[j]) <= Content(p.queues[j])
    decreases |order|
  {
    hide Inv, PruneHole, LeftUnder, Content;
    if order == [] {
      ForgetsNothing(p);
    } else {
      PruneHoleForgets(p, order[0]);
      PruneHoleKeeps(p, order[0]);
      PruneHolesForget(PruneHole(p, order[0]), order[1..]);
      ForgetsTwice(p, PruneHole(p, order[0]), PruneHoles(p, order));
    }
  }
}
