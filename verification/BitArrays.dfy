/** Bit arrays packed into 64-bit words, against the set of indices they stand for. */
module BitArrays {
  import opened Words

  function WordsFor(size: nat): nat {
    (size + 63) / 64
  }

  /** The indices below the size whose bit is set. */
  ghost function Indices(size: nat, words: seq<Word>): set<nat>
    requires |words| == WordsFor(size)
  {
    set i | 0 <= i < size && Has(words[i / 64], i % 64)
  }

  class BitArray {
    const size: nat
    const words: array<Word>

    ghost predicate Valid()
    {
      size >= 1 && words.Length == WordsFor(size)
    }

    ghost function Set(): set<nat>
      requires Valid()
      reads words
    {
      Indices(size, words[..])
    }

    constructor (size: nat)
      requires size >= 1
      ensures Valid() && this.size == size && fresh(words) && Set() == {}
    {
      this.size := size;
      words := new Word[WordsFor(size)](i => 0);
      new;
      forall i: nat | i < size
        ensures !Has(words[i / 64], i % 64)
      {
        NoneSet(i % 64);
      }
    }

    method GetIndex(i: nat) returns (r: bool)
      requires Valid()
      ensures r <==> i in Set()
    {
      if i >= size {
        return false;
      }
      Test(words[i / 64], i % 64);
      r := And(words[i / 64], Pow2(i % 64)) > 0;
    }

    method SetIndex(i: nat, v: bool) returns (ok: bool)
      requires Valid()
      modifies words
      ensures ok <==> i < size
      ensures Set() == if !ok then old(Set()) else if v then old(Set()) + {i} else old(Set()) - {i}
    {
      if i >= size {
        return false;
      }
      var w, j := words[i / 64], i % 64;
      SetFits(w, j);
      words[i / 64] := if v then Or(w, Pow2(j)) else AndNot(w, Pow2(j));
      forall k | 0 <= k < size
        ensures Has(words[k / 64], k % 64) <==> if k == i then v else old(Has(words[k / 64], k % 64))
      {
        if k / 64 == i / 64 {
          HasOr(w, Pow2(j), k % 64);
          HasAndNot(w, Pow2(j), k % 64);
          HasPow(j, k % 64);
        }
      }
      ok := true;
    }

    method Intersect(input: BitArray) returns (c: BitArray)
      requires Valid() && input.Valid()
      ensures c.Valid() && fresh(c) && fresh(c.words)
      ensures c.size == (if size < input.size then size else input.size) && c.Set() == Set() * input.Set()
    {
      c := new BitArray(if size < input.size then size else input.size);
      var n := c.words.Length;
      for k := 0 to n
        invariant forall j :: 0 <= j < k ==> c.words[j] == And(words[j], input.words[j])
      {
        c.words[k] := And(words[k], input.words[k]);
      }
      forall i | 0 <= i < c.size
        ensures Has(c.words[i / 64], i % 64) <==> Has(words[i / 64], i % 64) && Has(input.words[i / 64], i % 64)
      {
        HasAnd(words[i / 64], input.words[i / 64], i % 64);
      }
    }

    /** Bit `i` of the words, wherever the size ends. */
    ghost predicate Raw(i: nat)
      reads words
    {
      i / 64 < words.Length && Has(words[i / 64], i % 64)
    }

    /** The difference, provided no bit of the input beyond its size hits an index of this array. */
    method Subtract(input: BitArray) returns (c: BitArray)
      requires Valid() && input.Valid()
      ensures c.Valid() && fresh(c) && fresh(c.words) && c.size == size
      ensures forall i :: i in c.Set() <==> i in Set() && !input.Raw(i)
      ensures c.Set() == Set() - input.Set() <==> forall i :: i in Set() && i >= input.size ==> !input.Raw(i)
    {
      c := new BitArray(size);
      var n := words.Length;
      for k := 0 to n
        invariant forall j :: 0 <= j < k ==>
                    c.words[j] == if j < input.words.Length then AndNot(words[j], input.words[j]) else words[j]
      {
        c.words[k] := if k < input.words.Length then AndNot(words[k], input.words[k]) else words[k];
      }
      forall i | 0 <= i < c.size
        ensures Has(c.words[i / 64], i % 64) <==> Has(words[i / 64], i % 64) && !input.Raw(i)
      {
        if i / 64 < input.words.Length {
          HasAndNot(words[i / 64], input.words[i / 64], i % 64);
        }
      }
      assert forall i: nat :: i in input.Set() <==> i < input.size && input.Raw(i);
      hide Has;
    }

    /** Every index is set, whatever bits lie beyond the size. */
    method IsFull() returns (r: bool)
      requires Valid()
      ensures r <==> forall i :: 0 <= i < size ==> i in Set()
    {
      hide Indices, LowSet;
      var n := words.Length - 1;
      for k := 0 to n
        invariant forall j :: 0 <= j < k ==> LowSet(words[j], BITS)
      {
        AllSet(words[k]);
        if MAX - words[k] != 0 {
          var j := SomeClear(words[k], BITS);
          NotAt(size, words[..], k, j);
          assert 64 * k + j !in Set();
          return false;
        }
      }
      var last := (size + 63) % 64 + 1;
      FullLow(words[n], last);
      r := And((words[n] + 1) % (MAX + 1), Ones(last)) == 0;
      if r {
        WholeSet(size, words[..]);
      } else {
        var j := SomeClear(words[n], last);
        NotAt(size, words[..], n, j);
        assert 64 * n + j !in Set();
      }
    }

    /** Bit `i` is read as an index: every bit of the words before the last counts, whatever the size. */
    ghost predicate Reads(i: nat)
      reads words
    {
      Raw(i) && (i < size || i < 64 * (words.Length - 1))
    }

    /** Where the words match the size, the bits read are the set. */
    lemma ReadsIsSet()
      requires Valid()
      ensures forall i :: i in Set() <==> i >= 0 && Reads(i)
    {
      hide Has;
    }

    /** The indices read, in ascending order, words of zero skipped; the words need not match the size. */
    method GetTrueIndices() returns (r: seq<nat>)
      requires words.Length >= 1
      ensures Ascending(r) && forall i :: i in r <==> Reads(i)
    {
      r := [];
      var cur, n := 0, words.Length;
      for k := 0 to n - 1
        invariant cur == 64 * k && Lists(r, words[..], cur)
      {
        var w := words[k];
        if w == 0 {
          SkipZero(r, words[..], k);
          cur := cur + 64;
          continue;
        }
        for j := 0 to 64
          invariant cur == 64 * k + j && Lists(r, words[..], cur)
        {
          r := AddIfSet(r, words[..], cur);
          cur := cur + 1;
        }
      }
      var rest, j := size - cur, 0;
      while j < rest
        invariant 0 <= j && (j <= rest || j == 0) && cur == 64 * (n - 1) + j
        invariant Lists(r, words[..], if j < 64 then cur else 64 * n)
      {
        if j < 64 {
          r := AddIfSet(r, words[..], cur);
        }
        cur, j := cur + 1, j + 1;
      }
      ghost var end := if j < 64 then cur else 64 * n;
      forall i: nat
        ensures i in r <==> i < end && Raw(i)
      {
        assert i < end ==> i / 64 < n && words[..][i / 64] == words[i / 64];
      }
      assert forall i: nat :: Raw(i) ==> i < 64 * n;
    }
  }

  /** A bit of the subtracted array beyond its size takes an index away that is not in it. */
  method StrayBit() returns (a: BitArray, b: BitArray, c: BitArray)
    ensures a.Valid() && b.Valid() && c.Valid() && a.Set() == {1} && b.Set() == {} && c.Set() == {}
  {
    a := new BitArray(2);
    var ok := a.SetIndex(1, true);
    b := new BitArray(1);
    b.words[0] := Pow2(1);
    HasPow(1, 0);
    HasPow(1, 1);
    c := a.Subtract(b);
    assert b.Raw(1);
  }

  predicate Ascending(r: seq<nat>) {
    forall i, j :: 0 <= i < j < |r| ==> r[i] < r[j]
  }

  /** The set indices below `n`, in order. */
  ghost predicate Lists(r: seq<nat>, words: seq<Word>, n: nat) {
    && n <= 64 * |words| && Ascending(r)
    && (forall i :: i in r ==> i < n && Has(words[i / 64], i % 64))
    && (forall i: nat :: i < n && Has(words[i / 64], i % 64) ==> i in r)
  }

  lemma SkipZero(r: seq<nat>, words: seq<Word>, k: nat)
    requires k < |words| && words[k] == 0 && Lists(r, words, 64 * k)
    ensures Lists(r, words, 64 * k + 64)
  {
    forall i: nat | 64 * k <= i < 64 * k + 64
      ensures !Has(words[i / 64], i % 64)
    {
      NoneSet(i % 64);
    }
  }

  method AddIfSet(r: seq<nat>, words: seq<Word>, cur: nat) returns (r': seq<nat>)
    requires cur < 64 * |words| && Lists(r, words, cur)
    ensures Lists(r', words, cur + 1)
  {
    r' := r;
    Test(words[cur / 64], cur % 64);
    if And(words[cur / 64], Pow2(cur % 64)) > 0 {
      assert forall k :: 0 <= k < |r| ==> r[k] in r;
      r' := r + [cur];
    }
  }

  lemma SomeClear(w: Word, k: nat) returns (j: nat)
    requires !LowSet(w, k)
    ensures j < k && !Has(w, j)
  {
    j :| 0 <= j < k && !Has(w, j);
  }

  lemma NotAt(size: nat, words: seq<Word>, k: nat, j: nat)
    requires |words| == WordsFor(size) && k < |words| && j < 64 && 64 * k + j < size && !Has(words[k], j)
    ensures 64 * k + j !in Indices(size, words)
  {
    var i := 64 * k + j;
    assert i / 64 == k && i % 64 == j;
  }

  lemma WholeSet(size: nat, words: seq<Word>)
    requires size >= 1 && |words| == WordsFor(size)
    requires forall j :: 0 <= j < |words| - 1 ==> LowSet(words[j], BITS)
    requires LowSet(words[|words| - 1], (size + 63) % 64 + 1)
    ensures forall i :: 0 <= i < size ==> i in Indices(size, words)
  {
    forall i: nat | i < size
      ensures Has(words[i / 64], i % 64)
    {
    }
  }
}
