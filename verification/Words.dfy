/** 64-bit words: integers below 2 to the 64 whose binary digits are the bits. */
module Words {
  const BITS: nat := 64

  function Pow2(j: nat): (r: nat)
    ensures r >= 1
  {
    if j == 0 then 1 else 2 * Pow2(j - 1)
  }

  /** The range of a word. */
  type Word = w: nat | w < 0x1_0000_0000_0000_0000

  predicate Has(w: nat, j: nat) {
    if j == 0 then w % 2 == 1 else Has(w / 2, j - 1)
  }

  /******* The operators, digit by digit *******/

  function Digit(b: bool): nat {
    if b then 1 else 0
  }

  function And(x: nat, y: nat): (r: nat)
    ensures r <= x && r <= y
  {
    if x == 0 then 0 else 2 * And(x / 2, y / 2) + Digit(x % 2 == 1 && y % 2 == 1)
  }

  function AndNot(x: nat, y: nat): (r: nat)
    ensures r <= x
  {
    if x == 0 then 0 else 2 * AndNot(x / 2, y / 2) + Digit(x % 2 == 1 && y % 2 == 0)
  }

  function Or(x: nat, y: nat): nat {
    if x == 0 then y else 2 * Or(x / 2, y / 2) + Digit(x % 2 == 1 || y % 2 == 1)
  }

  lemma {:induction false} HasAnd(x: nat, y: nat, j: nat)
    ensures Has(And(x, y), j) <==> Has(x, j) && Has(y, j)
  {
    if x == 0 {
      NoneSet(j);
    } else if j > 0 {
      HasAnd(x / 2, y / 2, j - 1);
    }
  }

  lemma {:induction false} HasAndNot(x: nat, y: nat, j: nat)
    ensures Has(AndNot(x, y), j) <==> Has(x, j) && !Has(y, j)
  {
    if x == 0 {
      NoneSet(j);
    } else if j > 0 {
      HasAndNot(x / 2, y / 2, j - 1);
    }
  }

  lemma {:induction false} HasOr(x: nat, y: nat, j: nat)
    ensures Has(Or(x, y), j) <==> Has(x, j) || Has(y, j)
  {
    if x == 0 {
      NoneSet(j);
    } else if j > 0 {
      HasOr(x / 2, y / 2, j - 1);
    }
  }

  lemma {:induction false} NoneSet(j: nat)
    ensures !Has(0, j)
  {
    if j > 0 {
      NoneSet(j - 1);
    }
  }

  lemma {:induction false} HasPow(i: nat, j: nat)
    ensures Has(Pow2(i), j) <==> i == j
  {
    if i == 0 {
      if j > 0 {
        NoneSet(j - 1);
      }
    } else if j > 0 {
      assert Pow2(i) / 2 == Pow2(i - 1);
      HasPow(i - 1, j - 1);
    }
  }

  /** Testing against a mask of one bit finds that bit. */
  lemma {:induction false} Test(w: nat, j: nat)
    ensures And(w, Pow2(j)) > 0 <==> Has(w, j)
  {
    if w == 0 {
      NoneSet(j);
    } else if j > 0 {
      assert Pow2(j) / 2 == Pow2(j - 1) && Pow2(j) % 2 == 0;
      Test(w / 2, j - 1);
    } else {
      assert And(w / 2, 0) == 0;
    }
  }

  /** The lowest `k` digits. */
  function Ones(k: nat): nat {
    Pow2(k) - 1
  }

  ghost predicate LowSet(x: nat, k: nat) {
    forall j :: 0 <= j < k ==> Has(x, j)
  }

  lemma LowSetHalves(x: nat, k: nat)
    requires k > 0
    ensures LowSet(x, k) <==> x % 2 == 1 && LowSet(x / 2, k - 1)
  {
    if LowSet(x, k) {
      assert Has(x, 0);
      forall j | 0 <= j < k - 1
        ensures Has(x / 2, j)
      {
        assert Has(x, j + 1);
      }
    } else {
      var j :| 0 <= j < k && !Has(x, j);
      assert j > 0 ==> !Has(x / 2, j - 1);
    }
  }

  /** Adding one clears the lowest `k` digits exactly if all of them were set, whatever lies above. */
  lemma {:induction false} CarryClears(x: nat, k: nat)
    ensures And(x + 1, Ones(k)) == 0 <==> LowSet(x, k)
  {
    if k > 0 {
      assert Ones(k) / 2 == Ones(k - 1) && Ones(k) % 2 == 1;
      CarryClears(x / 2, k - 1);
      LowSetHalves(x, k);
      assert x % 2 == 1 ==> (x + 1) / 2 == x / 2 + 1;
    }
  }

  lemma {:induction false} OnesAreSet(k: nat)
    ensures LowSet(Ones(k), k)
  {
    if k > 0 {
      assert Ones(k) / 2 == Ones(k - 1) && Ones(k) % 2 == 1;
      OnesAreSet(k - 1);
      LowSetHalves(Ones(k), k);
    }
  }

  const MAX: nat := 0xFFFF_FFFF_FFFF_FFFF

  lemma MaxIsOnes()
    ensures Ones(BITS) == MAX
  {
    hide Pow2;
    PowZero();
    PowUp(0);
    PowUp(8);
    PowUp(16);
    PowUp(24);
    PowUp(32);
    PowUp(40);
    PowUp(48);
    PowUp(56);
  }

  lemma PowZero()
    ensures Pow2(0) == 1
  {
  }

  lemma PowUp(j: nat)
    ensures Pow2(j + 8) == 256 * Pow2(j)
  {
    assert Pow2(j + 2) == 4 * Pow2(j);
    assert Pow2(j + 4) == 16 * Pow2(j);
    assert Pow2(j + 6) == 64 * Pow2(j);
  }

  /** The same with the sum wrapped to 64 bits. */
  lemma FullLow(x: Word, k: nat)
    requires k <= BITS
    ensures And((x + 1) % (MAX + 1), Ones(k)) == 0 <==> LowSet(x, k)
  {
    CarryClears(x, k);
    hide And, Pow2, Ones;
    if x == MAX {
      MaxIsOnes();
      OnesAreSet(BITS);
      NothingAnd(Ones(k));
    }
  }

  lemma NothingAnd(y: nat)
    ensures And(0, y) == 0
  {
  }

  lemma {:induction false} SetBelow(x: nat, k: nat)
    requires x < Pow2(k)
    ensures LowSet(x, k) <==> x == Ones(k)
  {
    if k > 0 {
      LowSetHalves(x, k);
      SetBelow(x / 2, k - 1);
    }
  }

  /** The complement is zero exactly if every digit is set. */
  lemma AllSet(x: Word)
    ensures MAX - x == 0 <==> LowSet(x, BITS)
  {
    MaxIsOnes();
    SetBelow(x, BITS);
  }

  lemma {:induction false} OrFits(x: nat, y: nat, k: nat)
    requires x < Pow2(k) && y < Pow2(k)
    ensures Or(x, y) < Pow2(k)
  {
    if k > 0 && x > 0 {
      OrFits(x / 2, y / 2, k - 1);
    }
  }

  lemma {:induction false} PowFits(j: nat, k: nat)
    requires j < k
    ensures Pow2(j) < Pow2(k)
  {
    if j < k - 1 {
      PowFits(j, k - 1);
    }
  }

  /** Setting one bit of a word stays in its range. */
  lemma SetFits(x: Word, j: nat)
    requires j < BITS
    ensures Or(x, Pow2(j)) <= MAX
  {
    MaxIsOnes();
    PowFits(j, BITS);
    OrFits(x, Pow2(j), BITS);
  }
}
