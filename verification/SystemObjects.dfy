/** System objects share their validator lists copy-on-write: a counter tells a setter whether it may
    write in place. A family of them behaves as if every copy were deep. */
module SystemObjects {
  /** What a validator record holds. */
  type Record = nat

  class Validator {
    var data: Record

    constructor (data: Record)
      ensures this.data == data
    {
      this.data := data;
    }
  }

  class ValidatorList {
    var items: seq<Validator>

    constructor (items: seq<Validator>)
      ensures this.items == items
    {
      this.items := items;
    }
  }

  class Reference {
    var refs: nat

    constructor ()
      ensures refs == 1
    {
      refs := 1;
    }

    method AddRef()
      modifies this
      ensures refs == old(refs) + 1
    {
      refs := refs + 1;
    }

    method MinusRef()
      modifies this
      ensures refs == if old(refs) > 0 then old(refs) - 1 else 0
    {
      if refs > 0 {
        refs := refs - 1;
      }
    }
  }

  predicate Distinct(items: seq<Validator>) {
    forall i, j :: 0 <= i < j < |items| ==> items[i] != items[j]
  }

  function Records(items: seq<Validator>): seq<Record>
    reads items
  {
    seq(|items|, i requires 0 <= i < |items| reads items => items[i].data)
  }

  ghost function Sharers(family: set<SystemObject>, r: Reference): set<SystemObject>
    reads family`ref
  {
    set o | o in family && o.ref == r
  }

  ghost function Lists(family: set<SystemObject>): set<ValidatorList>
    reads family`vals
  {
    set o | o in family :: o.vals
  }

  ghost function Counters(family: set<SystemObject>): set<Reference>
    reads family`ref
  {
    set o | o in family :: o.ref
  }

  /** A counter is at least the number of objects that use it. */
  ghost predicate Counted(family: set<SystemObject>)
    reads family`ref, Counters(family)
  {
    forall o :: o in family ==> |Sharers(family, o.ref)| <= o.ref.refs
  }

  /** Different lists have no validator in common. */
  ghost predicate Separate(family: set<SystemObject>)
    reads family`vals, Lists(family)
  {
    && (forall o :: o in family ==> Distinct(o.vals.items))
    && (forall o, p, v :: o in family && p in family && o.vals != p.vals && v in o.vals.items ==> v !in p.vals.items)
  }

  /** Objects that share a list share its counter. */
  ghost predicate Linked(family: set<SystemObject>)
    reads family`vals, family`ref
  {
    forall o, p :: o in family && p in family && o.vals == p.vals ==> o.ref == p.ref
  }

  ghost predicate Valid(family: set<SystemObject>)
    reads family`vals, family`ref, Lists(family), Counters(family)
  {
    Counted(family) && Separate(family) && Linked(family)
  }

  /** What holds of the others while one object is being changed. */
  ghost predicate Rest(family: set<SystemObject>, owner: SystemObject)
    reads family`vals, family`ref, Lists(family), Counters(family)
  {
    Counted(family) && Separate(family - {owner}) && Linked(family - {owner})
  }

  lemma TwoMembers<T>(s: set<T>, x: T, y: T)
    requires x in s && y in s && x != y
    ensures |s| >= 2
  {
    assert {x, y} <= s;
    assert |s - {x, y}| + |{x, y}| == |s|;
  }

  /** With a counter of one the object is the only one to hold its list. */
  lemma Alone(family: set<SystemObject>, o: SystemObject, p: SystemObject)
    requires Valid(family) && o in family && p in family && p != o && o.ref.refs <= 1
    ensures p.ref != o.ref && p.vals != o.vals
  {
    if p.ref == o.ref {
      TwoMembers(Sharers(family, o.ref), o, p);
    }
  }

  class SystemObject {
    var vals: ValidatorList
    var ref: Reference

    constructor ()
      ensures fresh(vals) && fresh(ref) && vals.items == [] && ref.refs == 1
    {
      vals := new ValidatorList([]);
      ref := new Reference();
    }

    constructor Share(vals: ValidatorList, ref: Reference)
      ensures this.vals == vals && this.ref == ref
    {
      this.vals, this.ref := vals, ref;
    }

    /** The other objects of the family keep their validators, and what they contain. */
    twostate predicate OthersKept(family: set<SystemObject>)
      reads *
    {
      forall o :: o in family && o != this ==>
        o.Validators() == old(o.Validators()) && o.vals.items == old(o.vals.items)
    }

    ghost function Validators(): seq<Record>
      reads this`vals, vals, vals.items
    {
      Records(vals.items)
    }

    method CopyValidators() returns (vs: ValidatorList)
      ensures fresh(vs) && (forall v :: v in vs.items ==> fresh(v)) && Distinct(vs.items)
      ensures Records(vs.items) == Validators() && |vs.items| == |vals.items|
    {
      vs := new ValidatorList([]);
      for i := 0 to |vals.items|
        invariant fresh(vs) && vs != vals && |vs.items| == i && Distinct(vs.items)
        invariant forall v :: v in vs.items ==> fresh(v)
        invariant forall k :: 0 <= k < i ==> vs.items[k].data == vals.items[k].data
      {
        var v := new Validator(vals.items[i].data);
        vs.items := vs.items + [v];
      }
    }

    /** Gives up a shared counter for one of its own. */
    method Detach(ghost family: set<SystemObject>)
      requires Counted(family) && this in family && ref.refs > 1
      modifies this`ref, ref
      ensures Counted(family) && fresh(ref) && old(ref).refs == old(ref.refs) - 1
    {
      ghost var r, before := ref, Sharers(family, ref);
      ref.MinusRef();
      ref := new Reference();
      assert Sharers(family, ref) == {this};
      assert Sharers(family, r) == before - {this};
      forall o | o in family && o.ref != r && o != this
        ensures |Sharers(family, o.ref)| <= o.ref.refs
      {
        assert Sharers(family, o.ref) == old(Sharers(family, o.ref));
      }
    }

    /** The list to write to: the object's own, or a deep copy if it is shared. */
    method Unshare(ghost family: set<SystemObject>) returns (vs: ValidatorList)
      requires Valid(family) && this in family
      modifies this`ref, ref
      ensures Rest(family, this) && Separate(family) && Private(vs, family - {this})
      ensures forall o :: o in family - {this} ==> o.vals != vs
      ensures Records(vs.items) == Validators() && |vs.items| == |vals.items|
      ensures forall v :: v in vs.items ==> v in vals.items || fresh(v)
      ensures if old(ref.refs) > 1 then fresh(vs) && fresh(ref) else vs == vals && ref == old(ref)
      ensures old(ref.refs) > 1 ==> forall v :: v in vs.items ==> fresh(v)
      ensures old(ref.refs) > 1 ==> old(ref).refs == old(ref.refs) - 1
    {
      hide Records;
      vs := vals;
      if ref.refs > 1 {
        vs := CopyValidators();
        Detach(family);
      } else {
        OwnList(this, family);
      }
    }

    /** Takes over a list that is nobody else's; the family is consistent exactly if its validators are
        nobody else's either. */
    method Install(vs: ValidatorList, ghost family: set<SystemObject>)
      requires this in family && Rest(family, this) && forall o :: o in family - {this} ==> o.vals != vs
      modifies this`vals
      ensures vals == vs && (Valid(family) <==> old(Private(vs, family - {this})))
    {
      vals := vs;
    }

    /** The list is taken as it is and the counter stays: consistent exactly if the list fits in. */
    method SetValidators(vs: ValidatorList, ghost family: set<SystemObject>)
      requires Valid(family) && this in family
      modifies this`vals
      ensures vals == vs && Validators() == Records(vs.items)
      ensures Valid(family) <==> FitsIn(vs, ref, family - {this})
      ensures OthersKept(family)
    {
      vals := vs;
    }

    method AppendValidator(val: Validator, ghost family: set<SystemObject>)
      requires Valid(family) && this in family
      modifies this, ref, vals
      ensures Validators() == old(Validators()) + [val.data]
      ensures Valid(family) <==>
              (old(ref.refs) <= 1 ==> val !in old(vals.items)) && old(HeldByNone(val, family - {this}))
      ensures OthersKept(family)
      ensures (vals == old(vals) || fresh(vals)) && (ref == old(ref) || fresh(ref))
      ensures forall v :: v in vals.items ==> v in old(vals.items) || v == val || fresh(v)
    {
      hide Valid, Rest, Separate, Private, Records;
      var vs := Unshare(family);
      assert HeldByNone(val, family - {this}) == old(HeldByNone(val, family - {this}));
      vs := Appended(vs, val, family, this);
      Install(vs, family);
    }

    method UpdateValidator(index: nat, val: Validator, ghost family: set<SystemObject>)
      requires Valid(family) && this in family
      requires index < |vals.items|
      modifies this, ref, vals
      ensures Validators() == old(Validators())[index := val.data]
      ensures Valid(family) <==>
              (old(ref.refs) <= 1 ==> HeldOnlyAt(val, old(vals.items), index)) && old(HeldByNone(val, family - {this}))
      ensures OthersKept(family)
      ensures (vals == old(vals) || fresh(vals)) && (ref == old(ref) || fresh(ref))
      ensures old(ref.refs) <= 1 ==> vals == old(vals)
      ensures forall v :: v in vals.items ==> v in old(vals.items) || v == val || fresh(v)
    {
      hide Valid, Rest, Separate, Private, Records;
      var vs := Unshare(family);
      assert HeldByNone(val, family - {this}) == old(HeldByNone(val, family - {this}));
      assert old(ref.refs) <= 1 ==> vs.items == old(vals.items);
      assert old(ref.refs) > 1 ==> HeldOnlyAt(val, vs.items, index) by {
        assert forall i :: 0 <= i < |vs.items| ==> vs.items[i] in vs.items;
      }
      Replaced(vs, index, val, family, this);
      Install(vs, family);
    }

    /** Visits every validator; a callback that fails leaves the object on its old list, with the visits made
        before it if the list was the object's own. */
    method UpdateForEveryValidator(f: Callback, ghost family: set<SystemObject>) returns (ok: bool)
      requires Valid(family) && this in family
      modifies this, ref, set v | v in vals.items
      ensures ok <==> NeverFails(f, old(Validators()))
      ensures ok ==> Valid(family)
      ensures Validators() == if ok || old(ref.refs) <= 1 then Visited(f, old(Validators())) else old(Validators())
      ensures !ok ==> (Valid(family) <==> forall o :: o in family && o != this ==> o.vals != vals)
      ensures OthersKept(family)
      ensures (vals == old(vals) || fresh(vals)) && (ref == old(ref) || fresh(ref))
      ensures !ok ==> vals == old(vals) && (old(ref.refs) > 1 ==> fresh(ref) && old(ref).refs == old(ref.refs) - 1)
      ensures forall v :: v in vals.items ==> v in old(vals.items) || fresh(v)
    {
      hide Rest, Separate, Private, Records, Visited, NeverFails, Valid, Counted, Linked, Distinct;
      ghost var shared := ref.refs > 1;
      var vs := Unshare(family);
      assert forall v :: v in vs.items ==> v in old(vals.items) || fresh(v);
      assert forall o :: o in family && o != this ==>
               o.Validators() == old(o.Validators()) && o.vals.items == old(o.vals.items);
      ok := VisitAll(vs, f, family, this);
      assert OthersKept(family);
      assert shared ==> Validators() == old(Validators());
      if ok {
        Install(vs, family);
      } else {
        LeftOnOldList(this, family, shared);
      }
    }

    /** Shares the list and counts one user more. */
    method Copy(ghost family: set<SystemObject>) returns (c: SystemObject)
      requires Valid(family) && this in family
      modifies ref
      ensures fresh(c) && c.vals == vals && c.ref == ref && c.Validators() == Validators()
      ensures ref.refs == old(ref.refs) + 1
      ensures Valid(family + {c})
    {
      ref.AddRef();
      assert Separate(family) && Linked(family) && CountedBut(family, ref);
      hide Counted, Separate, Linked, CountedBut, Records;
      c := new SystemObject.Share(vals, ref);
      CopyFits(this, c, family);
    }

    /** The finalizer: one user less. */
    method Finalize(ghost family: set<SystemObject>)
      requires Valid(family) && this in family
      modifies ref
      ensures Valid(family - {this}) && ref.refs == (if old(ref.refs) > 0 then old(ref.refs) - 1 else 0)
    {
      ref.MinusRef();
      forall o | o in family - {this}
        ensures |Sharers(family - {this}, o.ref)| <= o.ref.refs
      {
        assert Sharers(family - {this}, o.ref) == Sharers(family, o.ref) - {this};
      }
    }
  }

  ghost predicate HeldByNone(val: Validator, family: set<SystemObject>)
    reads family`vals, Lists(family)
  {
    forall o :: o in family ==> val !in o.vals.items
  }

  predicate HeldOnlyAt(val: Validator, items: seq<Validator>, index: nat) {
    forall i :: 0 <= i < |items| && i != index ==> items[i] != val
  }

  lemma DistinctUpdate(items: seq<Validator>, index: nat, val: Validator)
    requires Distinct(items) && index < |items|
    ensures Distinct(items[index := val]) <==> HeldOnlyAt(val, items, index)
  {
    var r := items[index := val];
    if !HeldOnlyAt(val, items, index) {
      var i :| 0 <= i < |items| && i != index && items[i] == val;
      assert r[i] == r[index];
    }
  }

  /** Appends in place or to a new list, as the capacity has it. */
  method Appended(vs: ValidatorList, val: Validator, ghost family: set<SystemObject>, ghost owner: SystemObject)
    returns (r: ValidatorList)
    requires Rest(family, owner) && Private(vs, family - {owner})
    modifies vs
    ensures r == vs || fresh(r)
    ensures Rest(family, owner) && forall o :: o in family - {owner} ==> o.vals != r
    ensures Private(r, family - {owner}) <==> val !in old(vs.items) && old(HeldByNone(val, family - {owner}))
    ensures Records(r.items) == old(Records(vs.items)) + [val.data] && r.items == old(vs.items) + [val]
    ensures forall o :: o in family - {owner} ==>
              o.Validators() == old(o.Validators()) && o.vals.items == old(o.vals.items)
  {
    ghost var was := vs.items;
    if * {
      vs.items := vs.items + [val];
      r := vs;
    } else {
      r := new ValidatorList(vs.items + [val]);
    }
    assert r.items[|was|] == val && r.items[..|was|] == was;
  }

  method Replaced(vs: ValidatorList, index: nat, val: Validator, ghost family: set<SystemObject>,
                  ghost owner: SystemObject)
    requires Rest(family, owner) && Private(vs, family - {owner}) && index < |vs.items|
    modifies vs
    ensures Rest(family, owner) && forall o :: o in family - {owner} ==> o.vals != vs
    ensures Private(vs, family - {owner}) <==>
            HeldOnlyAt(val, old(vs.items), index) && old(HeldByNone(val, family - {owner}))
    ensures Records(vs.items) == old(Records(vs.items))[index := val.data] && vs.items == old(vs.items)[index := val]
    ensures forall o :: o in family - {owner} ==>
              o.Validators() == old(o.Validators()) && o.vals.items == old(o.vals.items)
  {
    DistinctUpdate(vs.items, index, val);
    ghost var was := vs.items;
    vs.items := vs.items[index := val];
    assert Records(vs.items) == old(Records(vs.items))[index := val.data];
    hide Distinct, HeldOnlyAt, Counted, Records;
    assert forall o :: o in family - {owner} ==> o.vals != vs && o.vals.items == old(o.vals.items);
    assert vs.items[index] == val && forall v :: v in vs.items ==> v == val || v in was;
  }

  /** What a callback does to a validator: its record afterwards and whether it reports a change. */
  datatype Visit = Visit(record: Record, changed: bool) | Failed

  type Callback = (nat, Record) -> Visit

  predicate NeverFails(f: Callback, rs: seq<Record>) {
    forall i :: 0 <= i < |rs| ==> f(i, rs[i]).Visit?
  }

  /** Where, from `n` on, the callback first fails; the length if it does not. */
  function StopFrom(f: Callback, rs: seq<Record>, n: nat): (r: nat)
    requires n <= |rs|
    ensures n <= r <= |rs| && (forall i :: n <= i < r ==> f(i, rs[i]).Visit?) && (r < |rs| ==> f(r, rs[r]).Failed?)
    decreases |rs| - n
  {
    if n == |rs| || f(n, rs[n]).Failed? then n else StopFrom(f, rs, n + 1)
  }

  function Stop(f: Callback, rs: seq<Record>): (r: nat)
    ensures r <= |rs| && (forall i :: 0 <= i < r ==> f(i, rs[i]).Visit?) && (r < |rs| ==> f(r, rs[r]).Failed?)
    ensures r == |rs| <==> NeverFails(f, rs)
  {
    StopFrom(f, rs, 0)
  }

  function VisitedAt(f: Callback, rs: seq<Record>, i: nat): Record
    requires i < |rs|
  {
    if i < Stop(f, rs) then f(i, rs[i]).record else rs[i]
  }

  /** The records once the visits up to the first failure have been made. */
  function Visited(f: Callback, rs: seq<Record>): (r: seq<Record>)
    ensures |r| == |rs|
  {
    seq(|rs|, i requires 0 <= i < |rs| => VisitedAt(f, rs, i))
  }

  method VisitItems(items: seq<Validator>, f: Callback) returns (ok: bool)
    requires Distinct(items)
    modifies set v | v in items
    ensures ok <==> NeverFails(f, old(Records(items)))
    ensures Records(items) == Visited(f, old(Records(items)))
  {
    ghost var rs := Records(items);
    for i := 0 to |items|
      invariant forall k :: i <= k < |rs| ==> items[k].data == rs[k]
      invariant forall k :: 0 <= k < i ==> f(k, rs[k]).Visit? && items[k].data == f(k, rs[k]).record
    {
      var r := f(i, items[i].data);
      if r.Failed? {
        assert Stop(f, rs) == i;
        return false;
      }
      items[i].data := r.record;
    }
    ok := true;
  }

  method VisitAll(vs: ValidatorList, f: Callback, ghost family: set<SystemObject>, ghost owner: SystemObject)
    returns (ok: bool)
    requires Rest(family, owner) && Separate(family) && Private(vs, family - {owner})
    modifies set v | v in vs.items
    ensures Rest(family, owner) && Private(vs, family - {owner}) && Separate(family)
    ensures ok <==> NeverFails(f, old(Records(vs.items)))
    ensures Records(vs.items) == Visited(f, old(Records(vs.items)))
    ensures forall o :: o in family - {owner} ==> o.Validators() == old(o.Validators())
  {
    hide Visited, NeverFails;
    ok := VisitItems(vs.items, f);
    assert forall o, v :: o in family - {owner} && v in o.vals.items ==> v.data == old(v.data);
  }

  /** An object that changed its counter but not its list fits in again exactly if nobody shares the list. */
  lemma LeftOnOldList(o: SystemObject, family: set<SystemObject>, changed: bool)
    requires o in family && Rest(family, o) && Separate(family)
    requires if changed then forall p :: p in family && p != o ==> p.ref != o.ref else Private(o.vals, family - {o})
    ensures Valid(family) <==> forall p :: p in family && p != o ==> p.vals != o.vals
  {
  }

  /** One use of a counter is not yet taken. */
  ghost predicate CountedBut(family: set<SystemObject>, r: Reference)
    reads family`ref, Counters(family), r
  {
    && |Sharers(family, r)| < r.refs
    && forall o :: o in family ==> |Sharers(family, o.ref)| <= o.ref.refs
  }

  lemma CopyFits(o: SystemObject, c: SystemObject, family: set<SystemObject>)
    requires o in family && c !in family && c.vals == o.vals && c.ref == o.ref
    requires Separate(family) && Linked(family) && CountedBut(family, o.ref)
    ensures Valid(family + {c})
  {
    assert Sharers(family + {c}, o.ref) == Sharers(family, o.ref) + {c};
    forall p | p in family && p.ref != o.ref
      ensures Sharers(family + {c}, p.ref) == Sharers(family, p.ref)
    {
    }
  }

  lemma OwnList(o: SystemObject, family: set<SystemObject>)
    requires Valid(family) && o in family && o.ref.refs <= 1
    ensures Private(o.vals, family - {o})
  {
    forall p | p in family - {o}
      ensures p.vals != o.vals && forall v :: v in p.vals.items ==> v !in o.vals.items
    {
      Alone(family, o, p);
    }
  }

  /** A list of different validators, held by no object and sharing no validator with one. */
  ghost predicate Private(vs: ValidatorList, family: set<SystemObject>)
    reads vs, family`vals, Lists(family)
  {
    && Distinct(vs.items)
    && forall o :: o in family ==> o.vals != vs && forall v :: v in o.vals.items ==> v !in vs.items
  }

  /** The list of an object with that counter: whoever holds the same list has the same counter, and
      nobody else holds one of its validators. */
  ghost predicate FitsIn(vs: ValidatorList, ref: Reference, family: set<SystemObject>)
    reads vs, family`vals, family`ref, Lists(family)
  {
    && Distinct(vs.items)
    && forall o :: o in family ==>
         if o.vals == vs then o.ref == ref else forall v :: v in o.vals.items ==> v !in vs.items
  }
}
