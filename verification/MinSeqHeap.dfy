/** The min-heap on sequence ids behind an account's two queues. */
module MinSeqHeap {
  import opened Interactions

  function Parent(i: nat): nat
    requires 0 < i
  {
    (i - 1) / 2
  }

  predicate IsHeap(q: seq<Ix>) {
    forall i :: 0 < i < |q| ==> q[Parent(i)].seqId <= q[i].seqId
  }

  /** The root of a heap is a least element. */
  lemma {:induction false} RootIsLeast(q: seq<Ix>, i: nat)
    requires IsHeap(q) && i < |q|
    ensures q[0].seqId <= q[i].seqId
  {
    if i > 0 {
      RootIsLeast(q, Parent(i));
    }
  }

  function Swap(q: seq<Ix>, i: nat, j: nat): (r: seq<Ix>)
    requires i < |q| && j < |q|
  {
    q[i := q[j]][j := q[i]]
  }

  lemma SwapPermutes(q: seq<Ix>, i: nat, j: nat)
    requires i < |q| && j < |q|
    ensures multiset(Swap(q, i, j)) == multiset(q)
  {
  }

  /** Every parent below `n` is in order except above `hole`, whose subtree its parent still bounds. */
  predicate HeapBut(q: seq<Ix>, hole: nat, n: nat) {
    && n <= |q|
    && (forall i :: 0 < i < n && i != hole ==> q[Parent(i)].seqId <= q[i].seqId)
    && (forall i :: 0 < i < n && 0 < hole < n && Parent(i) == hole ==> q[Parent(hole)].seqId <= q[i].seqId)
  }

  /** Every parent below `n` is in order except below `hole`, whose children its parent still bounds. */
  predicate HeapUnder(q: seq<Ix>, hole: nat, n: nat) {
    && n <= |q|
    && (forall i :: 0 < i < n && Parent(i) != hole ==> q[Parent(i)].seqId <= q[i].seqId)
    && (forall i :: 0 < i < n && 0 < hole < n && Parent(i) == hole ==> q[Parent(hole)].seqId <= q[i].seqId)
  }

  lemma SiftUp(q: seq<Ix>, j: nat)
    requires 0 < j < |q| && HeapBut(q, j, |q|) && q[j].seqId < q[Parent(j)].seqId
    ensures HeapBut(Swap(q, Parent(j), j), Parent(j), |q|)
  {
    var p := Parent(j);
    var r := Swap(q, p, j);
    forall i | 0 < i < |q| && i != p
      ensures r[Parent(i)].seqId <= r[i].seqId
    {
      if i != j && Parent(i) != j && Parent(i) != p {
        assert r[i] == q[i] && r[Parent(i)] == q[Parent(i)];
      }
    }
    forall i | 0 < i < |q| && 0 < p && Parent(i) == p
      ensures r[Parent(p)].seqId <= r[i].seqId
    {
      assert q[Parent(p)].seqId <= q[p].seqId <= (if i == j then q[p] else q[i]).seqId;
    }
  }

  lemma SiftDown(q: seq<Ix>, i: nat, j: nat, n: nat)
    requires HeapUnder(q, i, n) && i < j < n && Parent(j) == i && q[j].seqId < q[i].seqId
    requires forall k :: 0 < k < n && Parent(k) == i ==> q[j].seqId <= q[k].seqId
    ensures HeapUnder(Swap(q, i, j), j, n)
  {
    var r := Swap(q, i, j);
    forall k | 0 < k < n && Parent(k) != j
      ensures r[Parent(k)].seqId <= r[k].seqId
    {
      if k != i && k != j && Parent(k) != i {
        assert r[k] == q[k] && r[Parent(k)] == q[Parent(k)];
      }
    }
    forall k | 0 < k < n && Parent(k) == j
      ensures r[Parent(j)].seqId <= r[k].seqId
    {
      assert q[Parent(k)].seqId <= q[k].seqId;
    }
  }

  /** A heap order with a hole that is in place, or has no children, is a heap order. */
  lemma HoleClosed(q: seq<Ix>, i: nat, n: nat)
    requires HeapUnder(q, i, n)
    requires forall k :: 0 < k < n && Parent(k) == i ==> q[i].seqId <= q[k].seqId
    ensures IsHeap(q[..n])
  {
  }

  method Push(q: seq<Ix>, ix: Ix) returns (r: seq<Ix>)
    requires IsHeap(q)
    ensures IsHeap(r)
    ensures multiset(r) == multiset(q) + multiset{ix}
  {
    r := q + [ix];
    var j: nat := |q|;
    while j != 0 && r[j].seqId < r[Parent(j)].seqId
      invariant j < |r| == |q| + 1
      invariant HeapBut(r, j, |r|)
      invariant multiset(r) == multiset(q) + multiset{ix}
    {
      SwapPermutes(r, Parent(j), j);
      SiftUp(r, j);
      r := Swap(r, Parent(j), j);
      j := Parent(j);
    }
  }

  /** The index of the smaller child of `i`. */
  function Smaller(q: seq<Ix>, i: nat, n: nat): (j: nat)
    requires 2 * i + 1 < n <= |q|
    ensures i < j < n && Parent(j) == i
    ensures forall k :: 0 < k < n && Parent(k) == i ==> q[j].seqId <= q[k].seqId
  {
    var j := 2 * i + 1;
    assert forall k :: 0 < k && Parent(k) == i ==> k == j || k == j + 1;
    if j + 1 < n && q[j + 1].seqId < q[j].seqId then j + 1 else j
  }

  /** Moves the root down until the first `n` elements are a heap; the rest stay put. */
  method Down(q: seq<Ix>, n: nat) returns (h: seq<Ix>)
    requires HeapUnder(q, 0, n) && n < |q|
    ensures |h| == |q| && h[n..] == q[n..]
    ensures IsHeap(h[..n]) && multiset(h) == multiset(q)
  {
    h := q;
    var i := 0;
    while 2 * i + 1 < n && h[Smaller(h, i, n)].seqId < h[i].seqId
      invariant |h| == |q| && h[n..] == q[n..]
      invariant HeapUnder(h, i, n)
      invariant multiset(h) == multiset(q)
      decreases n - i
    {
      var j := Smaller(h, i, n);
      SwapPermutes(h, i, j);
      SiftDown(h, i, j, n);
      h := Swap(h, i, j);
      i := j;
    }
    HoleClosed(h, i, n);
  }

  method Pop(q: seq<Ix>) returns (r: seq<Ix>, top: Ix)
    requires IsHeap(q) && q != []
    ensures IsHeap(r) && top == q[0]
    ensures multiset(q) == multiset(r) + multiset{top}
    ensures forall x :: x in q ==> top.seqId <= x.seqId
  {
    var n := |q| - 1;
    var h := Swap(q, 0, n);
    SwapPermutes(q, 0, n);
    assert HeapUnder(h, 0, n) by {
      assert forall i :: 0 < i < n ==> h[i] == q[i];
    }
    assert h[n..][0] == q[0];
    h := Down(h, n);
    assert h[n] == h[n..][0];
    r, top := h[..n], h[n];
    assert h == r + [top];
    forall x | x in q
      ensures top.seqId <= x.seqId
    {
      var k :| 0 <= k < |q| && q[k] == x;
      RootIsLeast(q, k);
    }
  }
}
