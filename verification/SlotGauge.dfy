/** Pool capacity, counted in slots with 64-bit unsigned arithmetic. */
module SlotGauge {
  import opened Foundation
  import opened Interactions

  const IX_SLOT_SIZE: nat := 1024
  const IX_MAX_SIZE: nat := 128 * 1024
  const HIGH_PRESSURE_MARK: nat := 80

  function Slots(ix: Ix): nat {
    (ix.size + IX_SLOT_SIZE - 1) / IX_SLOT_SIZE
  }

  function SlotMap(s: set<Ix>): map<Ix, int> {
    map x | x in s :: Slots(x)
  }

  ghost function SlotSum(s: set<Ix>): nat {
    SumMapBounds(SlotMap(s));
    SumMap(SlotMap(s))
  }

  lemma SlotSumEmpty()
    ensures SlotSum({}) == 0
  {
    assert SlotMap({}) == map[];
  }

  lemma SlotSumRemove(s: set<Ix>, x: Ix)
    requires x in s
    ensures SlotSum(s) == Slots(x) + SlotSum(s - {x})
  {
    SumMapRemove(SlotMap(s), x);
    assert SlotMap(s) - {x} == SlotMap(s - {x});
  }

  /** Slots are shared out between any part of a set and the rest. */
  lemma {:induction false} SlotSumSplit(s: set<Ix>, t: set<Ix>)
    requires t <= s
    ensures SlotSum(s) == SlotSum(t) + SlotSum(s - t)
    decreases |t|
  {
    if t == {} {
      assert s - t == s;
      SlotSumEmpty();
    } else {
      var x :| x in t;
      SlotSumRemove(s, x);
      SlotSumRemove(t, x);
      SlotSumSplit(s - {x}, t - {x});
      assert (s - {x}) - (t - {x}) == s - t;
    }
  }

  /** The sum over a list, as the source accumulates it. */
  function SlotsOf(ixs: seq<Ix>): nat {
    if ixs == [] then 0 else SlotsOf(ixs[..|ixs| - 1]) + Slots(ixs[|ixs| - 1])
  }

  lemma {:induction false} SlotsOfIsSum(ixs: seq<Ix>, s: set<Ix>)
    requires multiset(ixs) == multiset(s)
    ensures SlotsOf(ixs) == SlotSum(s)
    decreases |ixs|
  {
    if ixs == [] {
      assert multiset(s) == multiset{};
      assert forall x :: x in s ==> x in multiset(s);
      assert s == {};
      SlotSumEmpty();
    } else {
      var n := |ixs| - 1;
      var x := ixs[n];
      assert ixs == ixs[..n] + [x];
      assert x in multiset(ixs);
      assert x in s;
      assert multiset(s - {x}) == multiset(s) - multiset{x};
      assert multiset(ixs[..n]) == multiset(ixs) - multiset{x};
      SlotsOfIsSum(ixs[..n], s - {x});
      SlotSumRemove(s, x);
    }
  }

  lemma AddAfterWrap(a: nat, b: nat)
    ensures Add64(a % U64, b) == (a + b) % U64
  {
  }

  /** The wrapping loop computes the sum of the list modulo 2^64. */
  method SlotsRequired(ixs: seq<Ix>) returns (slots: nat)
    ensures slots == SlotsOf(ixs) % U64
  {
    hide Slots, Add64;
    slots := 0;
    for i := 0 to |ixs|
      invariant slots == SlotsOf(ixs[..i]) % U64
    {
      assert ixs[..i + 1][..i] == ixs[..i];
      AddAfterWrap(SlotsOf(ixs[..i]), Slots(ixs[i]));
      slots := Add64(slots, Slots(ixs[i]));
    }
    assert ixs[..|ixs|] == ixs;
  }

  /** The new height, when the wrapped sum is within the limit. */
  function IncreaseWithinLimit(total: nat, max: nat, slots: nat): Option<nat> {
    var height := Add64(total, slots);
    if height > max then None else Some(height)
  }

  /** Subtraction as the source does it: adding the bitwise complement of slots - 1. */
  function Decrease(total: nat, slots: nat): nat {
    Add64(total, U64 - 1 - (slots + U64 - 1) % U64)
  }

  /** Only the amount modulo 2^64 matters. */
  lemma DecreaseWraps(total: nat, slots: nat)
    ensures Decrease(total, slots % U64) == Decrease(total, slots)
  {
    assert (slots % U64 + (U64 - 1)) % U64 == (slots + (U64 - 1)) % U64;
  }

  /** The complement trick subtracts exactly when it does not borrow. */
  lemma DecreaseExact(total: nat, slots: nat)
    requires total < U64 && slots < U64
    ensures Decrease(total, slots) == total - slots <==> slots <= total
    ensures Decrease(total, slots) < U64
  {
  }

  /** The limit test is exact for gauges that leave room for one interaction below 2^64. */
  lemma IncreaseExact(total: nat, max: nat, slots: nat)
    requires total <= max && max + slots < U64
    ensures IncreaseWithinLimit(total, max, slots) ==
            if total + slots <= max then Some(total + slots) else None
  {
  }

  /** The limit leaves room for the largest interaction below 2^64. */
  predicate RoomToCount(max: nat) {
    max + IX_MAX_SIZE / IX_SLOT_SIZE < U64
  }

  /** The limit test at one gauge height: take the slots exactly if they fit. */
  predicate TestsExactly(total: nat, max: nat, slots: nat) {
    IncreaseWithinLimit(total, max, slots) == if total + slots <= max then Some(total + slots) else None
  }

  /** Below 2^64 the limit test is exact for every height and every interaction exactly if the limit
      leaves that room: otherwise the largest interaction wraps past a full gauge. */
  lemma TestExactIff(max: nat)
    requires max < U64
    ensures RoomToCount(max) <==>
            forall total: nat, slots: nat ::
              total <= max && slots <= IX_MAX_SIZE / IX_SLOT_SIZE ==> TestsExactly(total, max, slots)
  {
    if !RoomToCount(max) {
      assert !TestsExactly(max, max, IX_MAX_SIZE / IX_SLOT_SIZE);
    }
  }

  /** The largest limit there is: a wrapped sum passes the test. */
  lemma IncreaseCanWrap()
    ensures IncreaseWithinLimit(U64 - 1, U64 - 1, 128) == Some(127)
  {
  }

  /** The height once the slots a replacement still needs have been taken. */
  function Raised(total: nat, max: nat, slots: nat, freed: nat): Option<nat> {
    if slots > freed then IncreaseWithinLimit(total, max, slots - freed) else Some(total)
  }

  /** Gives back what was just taken. */
  function Undone(height: nat, slots: nat, freed: nat): nat {
    if slots > freed then Decrease(height, slots - freed) else height
  }

  /** Gives back what a smaller replacement no longer needs. */
  function Lowered(height: nat, slots: nat, freed: nat): nat {
    if freed > slots then Decrease(height, freed - slots) else height
  }

  /** A replacement changes the gauge by the difference in slots, and undoing it restores the gauge. */
  lemma SwapExact(total: nat, max: nat, slots: nat, freed: nat)
    requires freed <= total <= max && max + slots < U64
    ensures Raised(total, max, slots, freed).Some? <==> total + slots <= max + freed || slots <= freed
    ensures Raised(total, max, slots, freed).Some? ==>
              var height := Raised(total, max, slots, freed).value;
              && Lowered(height, slots, freed) == total + slots - freed <= max
              && Undone(height, slots, freed) == total
  {
    if slots > freed {
      IncreaseExact(total, max, slots - freed);
      if total + slots - freed <= max {
        DecreaseExact(total + slots - freed, slots - freed);
      }
    } else if freed > slots {
      DecreaseExact(total, freed - slots);
    }
  }

  predicate HighPressure(total: nat, max: nat) {
    total > HIGH_PRESSURE_MARK * max % U64 / 100
  }

  /** An interaction takes the least number of slots of 1024 bytes that hold it. */
  lemma SlotsHold(ix: Ix)
    ensures ix.size <= 1024 * Slots(ix) < ix.size + 1024
  {
  }

  /** High pressure is more than eighty percent of the limit, for every gauge, exactly if eighty times the
      limit fits 64 bits. */
  lemma PressureExactIff(max: nat)
    ensures 80 * max < U64 <==> forall total: nat :: HighPressure(total, max) <==> 100 * total > 80 * max
  {
    if 80 * max < U64 {
      forall total: nat
        ensures HighPressure(total, max) <==> 100 * total > 80 * max
      {
        PressureIs(total, max);
      }
    } else {
      var rest := 80 * max % U64;
      var total := rest / 100 + 1;
      assert rest + U64 <= 80 * max;
      assert HighPressure(total, max) && 100 * total <= 80 * max;
    }
  }

  lemma PressureIs(total: nat, max: nat)
    requires 80 * max < U64
    ensures HighPressure(total, max) <==> 100 * total > 80 * max
  {
    assert 80 * max % U64 == 80 * max;
  }

  /** The least limit whose product wraps: a single slot is high pressure. */
  lemma PressureWraps()
    ensures HighPressure(1, U64 / 80 + 1) && 100 < 80 * (U64 / 80 + 1)
  {
  }
}
