/** The registry of one pass, and the loops that fill, merge, sort and cut its batches. */
module BatchRegistry {
  import opened Foundation
  import opened Interactions
  import B = Batches
  import M = Merging

  /** Appends and collects the hashes of the locked participants, in any order. */
  method AddToBatch(b: B.Batch, ix: Ix, known: map<Identifier, Hash>) returns (r: Option<B.Batch>)
    requires LockedIds(ix) <= known.Keys
    ensures r == B.Add(b, ix, known)
  {
    if |b.ixs| > B.BATCH_LIMIT {
      return None;
    }
    var hashes := b.hashes;
    var todo := ix.participants.Keys;
    while todo != {}
      invariant todo <= ix.participants.Keys
      invariant forall h :: h in hashes <==> h in b.hashes || exists id :: id in LockedIds(ix) - todo && known[id] == h
      decreases |todo|
    {
      var id :| id in todo;
      if Locks(ix, id) {
        hashes := hashes + {known[id]};
      }
      TakenOut(ix, todo, id);
      todo := todo - {id};
    }
    assert LockedIds(ix) - todo == LockedIds(ix);
    assert hashes == b.hashes + B.HashesOf(ix, known);
    r := Some(B.Batch(b.ixs + [ix], hashes));
  }

  lemma TakenOut(ix: Ix, todo: set<Identifier>, id: Identifier)
    requires id in todo && todo <= ix.participants.Keys
    ensures LockedIds(ix) - (todo - {id}) == LockedIds(ix) - todo + (if Locks(ix, id) then {id} else {})
  {
  }

  /** The hashes recorded are those of the table. */
  predicate AllAgree(known: map<Identifier, Hash>, nodes: map<Identifier, Hash>) {
    forall id :: id in known ==> id in nodes && nodes[id] == known[id]
  }

  /** Known hashes give the same batch as the full table. */
  lemma KnownSuffice(ix: Ix, known: map<Identifier, Hash>, nodes: map<Identifier, Hash>)
    requires LockedIds(ix) <= known.Keys && AllAgree(known, nodes)
    ensures B.HashesOf(ix, known) == B.HashesOf(ix, nodes)
  {
  }

  method InsertSorted(sorted: seq<B.Batch>, b: B.Batch) returns (k: nat)
    requires M.Sorted(sorted)
    ensures k <= |sorted| && M.Sorted(sorted[..k] + [b] + sorted[k..])
  {
    k := 0;
    while k < |sorted| && M.Before(sorted[k], b)
      invariant k <= |sorted|
      invariant forall i :: 0 <= i < k ==> M.Before(sorted[i], b)
    {
      k := k + 1;
    }
  }

  /** Some sorted arrangement; `order` says which batch went where. */
  method Sort(batches: seq<B.Batch>) returns (sorted: seq<B.Batch>, ghost order: seq<nat>)
    ensures M.Arranged(batches, sorted, order)
  {
    sorted, order := [], [];
    for i := 0 to |batches|
      invariant M.Sorted(sorted) && |sorted| == i && M.SelectedFrom(batches, sorted, order)
      invariant forall j :: 0 <= j < |order| ==> order[j] < i
    {
      var k := InsertSorted(sorted, batches[i]);
      sorted := sorted[..k] + [batches[i]] + sorted[k..];
      order := order[..k] + [i] + order[k..];
    }
  }

  /** The first twenty batches that are not empty: those among the first `n`. */
  method Cut(batches: seq<B.Batch>) returns (result: seq<B.Batch>, ghost n: nat)
    ensures M.FirstLive(batches, result, n)
  {
    result, n := [], 0;
    for i := 0 to |batches|
      invariant n == i && |result| == |M.Live(batches, i)| < B.MAX_BATCHES
      invariant forall k :: 0 <= k < |result| ==>
                  M.Live(batches, i)[k] < |batches| && result[k] == batches[M.Live(batches, i)[k]]
    {
      n := i + 1;
      if batches[i].ixs != [] {
        result := result + [batches[i]];
        if |result| == B.MAX_BATCHES {
          break;
        }
      }
    }
    M.LiveIs(batches, n);
  }

  predicate AllCovered(batches: seq<B.Batch>, ids: set<Identifier>) {
    forall i, x :: 0 <= i < |batches| && x in batches[i].ixs ==> LockedIds(x) <= ids
  }

  lemma SelectedCovered(batches: seq<B.Batch>, result: seq<B.Batch>, sel: seq<nat>, ids: set<Identifier>)
    requires AllCovered(batches, ids) && M.SelectedFrom(batches, result, sel)
    ensures AllCovered(result, ids)
  {
    forall i, x | 0 <= i < |result| && x in result[i].ixs
      ensures LockedIds(x) <= ids
    {
      assert x in batches[sel[i]].ixs;
    }
  }

  lemma ChosenBy(a: seq<B.Batch>, first: seq<B.Batch>, order: seq<nat>, nodes: map<Identifier, Hash>,
                 c: seq<B.Batch>, again: seq<nat>, result: seq<B.Batch>, n: nat)
    requires M.Arranged(a, first, order) && M.Arranged(M.MergeBoth(first, nodes), c, again)
    requires M.FirstLive(c, result, n)
    ensures M.Chosen(a, nodes, result)
  {
  }

  lemma Everything(batches: seq<B.Batch>) returns (sel: seq<nat>)
    ensures M.SelectedFrom(batches, batches, sel)
  {
    sel := seq(|batches|, i => i);
  }

  lemma {:induction false} NothingMerged(batches: seq<B.Batch>, i: nat, count: nat, done: nat,
                                         nodes: map<Identifier, Hash>)
    ensures M.MergeFrom(batches, i, count, done, nodes).count == done ==>
              M.MergeFrom(batches, i, count, done, nodes).batches == batches
    decreases |batches| - i
  {
    if i < |batches| && |batches[i].hashes| != count {
      NothingMerged(batches, i + 1, count, done, nodes);
    }
  }

  class Registry {
    var lookup: map<Identifier, nat>
    var batches: seq<B.Batch>
    var known: map<Identifier, Hash>

    constructor ()
      ensures lookup == map[] && batches == [] && known == map[]
    {
      lookup, batches, known := map[], [], map[];
    }

    predicate Agrees(nodes: map<Identifier, Hash>)
      reads this`known
    {
      AllAgree(known, nodes)
    }

    /** Looks at every participant, in any order, twice. */
    method FindBatchId(ix: Ix) returns (found: B.Found)
      ensures found == B.FindBatch(lookup, ix)
      ensures found.At? ==> exists id :: id in lookup && lookup[id] == found.id
    {
      found := B.NotFound;
      var todo := ix.participants.Keys;
      while todo != {}
        invariant todo <= ix.participants.Keys
        invariant forall id :: id in ix.participants && id !in todo ==> id !in lookup
        decreases |todo|
      {
        var id :| id in todo;
        if id in lookup {
          var rest := ix.participants.Keys;
          while rest != {}
            invariant rest <= ix.participants.Keys
            invariant forall other :: other in ix.participants && other !in rest && other in lookup ==>
                        lookup[other] == lookup[id]
            decreases |rest|
          {
            var other :| other in rest;
            if other in lookup && lookup[other] != lookup[id] {
              return B.Conflict;
            }
            rest := rest - {other};
          }
          return B.At(lookup[id]);
        }
        todo := todo - {id};
      }
    }

    /** Every locked participant of a registered interaction has its hash recorded. */
    predicate Covered()
      reads this
    {
      AllCovered(batches, known.Keys)
    }

    method AddIxToBatch(n: nat, ix: Ix, ghost p: B.Pass, nodes: map<Identifier, Hash>) returns (added: bool)
      requires p.lookup == lookup && p.batches == batches && n < |batches|
      requires Agrees(nodes) && LockedIds(ix) <= known.Keys
      modifies this`lookup, this`batches
      ensures added <==> B.PlaceAt(p, n, ix, nodes).Some?
      ensures B.Pass(p.acquirer, p.held, lookup, batches) == B.PlaceAt(p, n, ix, nodes).GetOr(p)
    {
      hide B.HashesOf, LockedIds;
      KnownSuffice(ix, known, nodes);
      var r := AddToBatch(batches[n], ix, known);
      if r.None? {
        return false;
      }
      batches := batches[n := r.value];
      lookup := lookup + (map id | id in LockedIds(ix) :: n);
      added := true;
    }

    method AddIx(ix: Ix, ghost p: B.Pass, nodes: map<Identifier, Hash>) returns (added: bool)
      requires p.lookup == lookup && p.batches == batches && B.LookupBounded(p)
      requires Agrees(nodes) && LockedIds(ix) <= known.Keys
      modifies this`lookup, this`batches
      ensures added <==> B.AddIx(p, ix, nodes).Some?
      ensures B.Pass(p.acquirer, p.held, lookup, batches) == B.AddIx(p, ix, nodes).GetOr(p)
    {
      hide B.FindBatch, B.HashesOf, LockedIds, Agrees;
      var found := FindBatchId(ix);
      match found
      case Conflict => added := false;
      case NotFound =>
        batches := batches + [B.Batch([], {})];
        added := AddIxToBatch(|batches| - 1, ix, p.(batches := p.batches + [B.Batch([], {})]), nodes);
      case At(n) => added := AddIxToBatch(n, ix, p, nodes);
    }

    /** Adds batch `j` to batch `i` and empties it. */
    method MergePair(i: nat, j: nat, nodes: map<Identifier, Hash>)
      requires i < j < |batches| && Agrees(nodes) && Covered()
      modifies this`batches
      ensures batches == M.MergePair(old(batches), i, j, nodes) && Covered()
    {
      hide B.HashesOf, LockedIds;
      var b, ixs := batches[i], batches[j].ixs;
      for k := 0 to |ixs|
        invariant batches == old(batches)
        invariant b == M.Absorb(batches[i], ixs[..k], nodes)
        invariant forall x :: x in b.ixs ==> x in batches[i].ixs || x in ixs
      {
        KnownSuffice(ixs[k], known, nodes);
        var r := AddToBatch(b, ixs[k], known);
        assert ixs[..k + 1][..k] == ixs[..k];
        if r.Some? {
          b := r.value;
        }
      }
      assert ixs[..|ixs|] == ixs;
      batches := batches[i := b][j := B.Batch([], {})];
    }

    method FindNext(from: nat, count: nat) returns (j: nat)
      requires from <= |batches|
      ensures j == M.NextWith(batches, from, count)
    {
      j := from;
      while j < |batches| && |batches[j].hashes| != count
        invariant from <= j <= |batches| && M.NextWith(batches, from, count) == M.NextWith(batches, j, count)
      {
        j := j + 1;
      }
    }

    method MergeBatches(count: nat, nodes: map<Identifier, Hash>) returns (merged: bool)
      requires Agrees(nodes) && Covered()
      modifies this`batches
      ensures batches == M.MergeFrom(old(batches), 0, count, 0, nodes).batches && Covered()
      ensures merged <==> M.MergeFrom(old(batches), 0, count, 0, nodes).count > 0
    {
      hide M.MergePair, Covered;
      var i, done := 0, 0;
      while i < |batches|
        invariant M.MergeFrom(batches, i, count, done, nodes) == M.MergeFrom(old(batches), 0, count, 0, nodes)
        invariant Covered()
        decreases |batches| - i
      {
        if |batches[i].hashes| == count {
          var j := FindNext(i + 1, count);
          if j == |batches| {
            break;
          }
          MergePair(i, j, nodes);
          done := done + 1;
          if done == B.MAX_BATCHES {
            break;
          }
        }
        i := i + 1;
      }
      merged := done != 0;
    }

    method MergeSmall(nodes: map<Identifier, Hash>) returns (merged: bool)
      requires Agrees(nodes) && Covered()
      modifies this`batches
      ensures batches == M.MergeBoth(old(batches), nodes) && (!merged ==> batches == old(batches))
    {
      hide M.MergeFrom, Agrees, Covered;
      var merge1 := MergeBatches(1, nodes);
      NothingMerged(old(batches), 0, 1, 0, nodes);
      NothingMerged(batches, 0, 2, 0, nodes);
      var merge2 := MergeBatches(2, nodes);
      merged := merge1 || merge2;
    }

    /** Sorts, merges by one and by two hashes, sorts again if anything merged, and cuts. */
    method SelectOptimalBatches(nodes: map<Identifier, Hash>) returns (result: seq<B.Batch>)
      requires Agrees(nodes) && Covered()
      modifies this`batches
      ensures M.Chosen(old(batches), nodes, result)
      ensures M.Sorted(result) && |result| <= 20 && forall b :: b in result ==> b.ixs != []
    {
      hide M.Sorted, Agrees, M.MergeBoth, AllCovered, M.SelectedFrom, M.FirstLive, M.Chosen;
      ghost var order, again, n;
      batches, order := Sort(batches);
      SelectedCovered(old(batches), batches, order, known.Keys);
      ghost var first := batches;
      var merged := MergeSmall(nodes);
      ghost var second := batches;
      again := Everything(batches);
      if merged {
        batches, again := Sort(batches);
      }
      assert M.Arranged(second, batches, again);
      result, n := Cut(batches);
      ChosenBy(old(batches), first, order, nodes, batches, again, result, n);
      M.ReturnedAreSorted(old(batches), nodes, result);
    }
  }
}
