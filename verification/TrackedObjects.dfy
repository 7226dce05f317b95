/** The loops of a system object that mark, commit and load its validators. */
module TrackedObjects {
  import opened Foundation
  import opened Varints
  import opened SystemObjects
  import C = Commits

  class TrackedObject {
    var list: seq<Record>
    var total: nat
    var genesis: int
    var dirtyFields: set<C.Field>
    var dirtyIndices: Option<seq<nat>>
    var store: C.Store

    constructor (store: C.Store)
      ensures State() == C.New(store)
    {
      list, total, genesis, dirtyFields, dirtyIndices, this.store := [], 0, 0, {}, None, store;
    }

    function State(): C.Tracked
      reads this
    {
      C.Tracked(list, total, genesis, dirtyFields, dirtyIndices, store)
    }

    method MarkIndices(ks: seq<nat>)
      modifies this`dirtyFields, this`dirtyIndices
      ensures State() == C.Mark(old(State()), ks)
    {
      dirtyFields := dirtyFields + {C.Vals};
      if dirtyIndices.None? {
        dirtyIndices := Some([]);
      }
      dirtyIndices := Some(dirtyIndices.value + ks);
    }

    method SetValidators(rs: seq<Record>)
      modifies this
      ensures State() == C.SetList(old(State()), rs)
    {
      list, total := rs, |rs|;
      dirtyFields := dirtyFields + {C.Total};
      var ks := [];
      for i := 0 to total
        invariant ks == C.Upto(i)
      {
        ks := ks + [i];
      }
      MarkIndices(ks);
    }

    method AppendValidator(r: Record)
      modifies this
      ensures State() == C.Append(old(State()), r)
    {
      list, total := list + [r], total + 1;
      dirtyFields := dirtyFields + {C.Total};
      MarkIndices([total - 1]);
    }

    method UpdateValidator(k: nat, r: Record)
      requires k < |list|
      modifies this
      ensures State() == C.Update(old(State()), k, r)
    {
      list := list[k := r];
      MarkIndices([k]);
    }

    /** Visits every validator, on a copy if the list is shared; a failing callback ends it without marks. */
    method UpdateForEveryValidator(f: Callback, shared: bool) returns (ok: bool)
      modifies this
      ensures ok <==> NeverFails(f, old(list))
      ensures State() == C.Each(old(State()), f, shared)
    {
      var ks, vs := [], list;
      for i := 0 to |list|
        invariant i <= Stop(f, list) && ks == C.Reported(f, list, i)
        invariant |vs| == |list|
        invariant forall k :: 0 <= k < |vs| ==> vs[k] == if k < i then f(k, list[k]).record else list[k]
        invariant State() == old(State())
      {
        var r := f(i, list[i]);
        if r.Failed? {
          assert vs == Visited(f, list);
          if !shared {
            list := vs;
          }
          return false;
        }
        vs := vs[i := r.record];
        if r.changed {
          ks := ks + [i];
        }
      }
      assert vs == Visited(f, list);
      list := vs;
      MarkIndices(ks);
      ok := true;
    }

    method SetGenesisTime(time: int)
      modifies this
      ensures State() == C.SetGenesis(old(State()), time)
    {
      genesis := time;
      dirtyFields := dirtyFields + {C.Genesis};
    }

    /** Stops where a place is no longer on the list. */
    method WriteIndices(ks: seq<nat>) returns (ok: bool)
      modifies this`store
      ensures ok <==> forall k :: k in ks ==> k < |list|
      ensures ok ==> store == old(store) + C.Entries(list, ks)
    {
      for i := 0 to |ks|
        invariant forall k :: k in ks[..i] ==> k < |list|
        invariant store == old(store) + C.Entries(list, ks[..i])
      {
        assert ks[..i + 1] == ks[..i] + [ks[i]] && ks[i] in ks;
        if ks[i] >= |list| {
          return false;
        }
        store := store[C.ValidatorKey(ks[i]) := C.Stored(list[ks[i]])];
      }
      assert ks[..|ks|] == ks;
      ok := true;
    }

    method WriteField(f: C.Field) returns (ok: bool)
      modifies this`store
      ensures ok <==> C.Writable(old(State()), f)
      ensures ok ==> store == old(store) + C.Part(old(State()), f)
    {
      match f
      case Total =>
        var bytes := Uint64ToBytes(total);
        if bytes.None? {
          return false;
        }
        store := store[C.TotalKey := C.Number(bytes.value)];
        ok := true;
      case Genesis =>
        var bytes := Uint64ToBytes(ZigZag(genesis));
        if bytes.None? {
          return false;
        }
        store := store[C.GenesisKey := C.Number(bytes.value)];
        ok := true;
      case Vals =>
        if dirtyIndices.None? {
          return false;
        }
        assert C.Marked(State()) == dirtyIndices.value;
        ok := WriteIndices(dirtyIndices.value);
    }

    /** What the commit of `t` has written so far: every field that is no longer dirty. */
    ghost predicate Committing(t: C.Tracked)
      reads this
    {
      && dirtyFields <= t.fields && C.AllWritable(t, t.fields - dirtyFields)
      && store == C.Written(t, t.fields - dirtyFields)
      && list == t.list && total == t.total && genesis == t.genesis && dirtyIndices == t.indices
    }

    method WriteNext(f: C.Field, ghost t: C.Tracked) returns (ok: bool)
      requires Committing(t) && f in dirtyFields
      modifies this`store, this`dirtyFields
      ensures ok <==> C.Writable(t, f)
      ensures ok ==> Committing(t) && dirtyFields == old(dirtyFields) - {f}
    {
      hide C.Written, C.Part, C.Writable;
      ghost var done := t.fields - dirtyFields;
      SameWrite(t, State(), f);
      ok := WriteField(f);
      if ok {
        WriteOne(t, done, f);
        dirtyFields := dirtyFields - {f};
        assert t.fields - dirtyFields == done + {f};
      }
    }

    /** Writes the dirty fields in any order; it does not get through if one of them cannot be written. */
    method Commit() returns (ok: bool)
      modifies this
      ensures ok <==> C.Committable(old(State()))
      ensures ok ==> State() == C.Commit(old(State()))
    {
      ghost var t := State();
      assert C.Written(t, {}) == store;
      assert t.fields - dirtyFields == {};
      hide C.Written, C.Writable;
      while dirtyFields != {}
        invariant Committing(t)
        decreases |dirtyFields|
      {
        var f :| f in dirtyFields;
        ok := WriteNext(f, t);
        if !ok {
          return;
        }
      }
      assert t.fields - dirtyFields == t.fields;
      ok := true;
    }

    /** A step of a run. */
    method Perform(s: C.Step)
      requires C.Enabled(State(), s)
      modifies this
      ensures State() == C.Apply(old(State()), s)
    {
      match s
      case SetStep(rs) => SetValidators(rs);
      case AppendStep(r) => AppendValidator(r);
      case UpdateStep(k, r) => UpdateValidator(k, r);
      case EachStep(f, shared) => var ok := UpdateForEveryValidator(f, shared);
      case GenesisStep(time) => SetGenesisTime(time);
      case CommitStep => var ok := Commit();
    }

    /** Reads the count and then every record; on the way it may stop at a missing one. */
    method LoadValidators() returns (ok: bool)
      modifies this`list, this`total
      ensures ok <==> C.Load(store).Some?
      ensures ok ==> State() == old(State()).(list := C.Load(store).value, total := |C.Load(store).value|)
    {
      if C.TotalKey !in store || !store[C.TotalKey].Number? {
        return false;
      }
      total := Uint64FromBytes(store[C.TotalKey].bytes);
      list := [];
      for i := 0 to total
        invariant total == FromBytes(store[C.TotalKey].bytes) && |list| == i
        invariant forall k :: 0 <= k < i ==>
                    C.ValidatorKey(k) in store && store[C.ValidatorKey(k)] == C.Stored(list[k])
      {
        if C.ValidatorKey(i) !in store || !store[C.ValidatorKey(i)].Stored? {
          return false;
        }
        list := list + [store[C.ValidatorKey(i)].record];
      }
      C.LoadsBack(store, list);
      ok := true;
    }

    method LoadGenesisTime() returns (ok: bool)
      modifies this`genesis
      ensures ok <==> C.LoadGenesis(store).Some?
      ensures State() == old(State()).(genesis := C.LoadGenesis(store).GetOr(old(genesis)))
    {
      if C.GenesisKey !in store || !store[C.GenesisKey].Number? {
        return false;
      }
      var u := Uint64FromBytes(store[C.GenesisKey].bytes);
      genesis := UnZigZag(u);
      ok := true;
    }

    /** Loads the time and the validators: a new object is then one from which the runs start. */
    method Init() returns (ok: bool)
      modifies this`list, this`total, this`genesis
      ensures ok <==> C.LoadGenesis(store).Some? && C.Loadable(store)
      ensures ok && old(State()) == C.New(store) ==> State() == C.Loaded(store) && C.Starts(State())
    {
      hide C.LoadGenesis, C.Loadable, FromBytes;
      ok := LoadGenesisTime();
      if ok {
        ok := LoadValidators();
      }
    }
  }

  lemma SameWrite(t: C.Tracked, u: C.Tracked, f: C.Field)
    requires u.list == t.list && u.total == t.total && u.genesis == t.genesis && u.indices == t.indices
    ensures C.Writable(u, f) <==> C.Writable(t, f)
    ensures C.Writable(t, f) ==> C.Part(u, f) == C.Part(t, f)
  {
    assert C.Marked(u) == C.Marked(t);
  }

  /** A field writes under keys of its own. */
  lemma OwnKeys(t: C.Tracked, f: C.Field, done: set<C.Field>)
    requires C.AllWritable(t, done)
    ensures forall k :: k in C.Overlay(t, f, done) ==> FieldOf(k) == f
  {
    if C.Vals in done {
      C.EntriesAre(t.list, C.Marked(t));
    }
    hide ToBytes, C.Entries;
  }

  function FieldOf(k: C.Key): C.Field {
    match k
    case TotalKey => C.Total
    case GenesisKey => C.Genesis
    case ValidatorKey(_) => C.Vals
  }

  lemma OneMore(t: C.Tracked, g: C.Field, done: set<C.Field>, f: C.Field)
    requires C.AllWritable(t, done) && C.Writable(t, f) && f !in done
    ensures C.Overlay(t, g, done + {f}) == if g == f then C.Part(t, f) else C.Overlay(t, g, done)
    ensures C.Overlay(t, f, done) == map[]
  {
  }

  lemma Swap(s: C.Store, b: C.Store, part: C.Store)
    requires forall k :: k in b ==> k !in part
    ensures s + b + part == s + part + b
  {
  }

  /** So their order does not matter. */
  lemma WriteOne(t: C.Tracked, done: set<C.Field>, f: C.Field)
    requires C.AllWritable(t, done) && C.Writable(t, f) && f !in done
    ensures C.Written(t, done) + C.Part(t, f) == C.Written(t, done + {f})
  {
    var part, s := C.Part(t, f), t.store;
    var a, b, c := C.Overlay(t, C.Total, done), C.Overlay(t, C.Genesis, done), C.Overlay(t, C.Vals, done);
    OwnKeys(t, C.Total, done);
    OwnKeys(t, C.Genesis, done);
    OwnKeys(t, C.Vals, done);
    OwnKeys(t, f, {f});
    OneMore(t, C.Total, done, f);
    OneMore(t, C.Genesis, done, f);
    OneMore(t, C.Vals, done, f);
    assert C.Overlay(t, f, {f}) == part;
    hide C.Overlay, C.Part, C.Writable;
    match f
    case Total =>
      Swap(s + b, c, part);
      Swap(s, b, part);
      assert s + a == s;
    case Genesis =>
      Swap(s + a, c, part);
      assert s + a + b == s + a;
    case Vals =>
      assert s + a + b + c == s + a + b;
  }
}
