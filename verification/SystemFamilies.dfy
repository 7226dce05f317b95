/** Runs of copies, setters and finalizers over a family of system objects, against the family in
    which every copy is deep. */
module SystemFamilies {
  import opened SystemObjects

  datatype Command =
    | New
    | Copy(i: nat)
    | Set(i: nat, records: seq<Record>)
    | Append(i: nat, record: Record)
    | Update(i: nat, k: nat, record: Record)
    | Each(i: nat, f: Callback)
    | Finalize(i: nat)

  /** What each live object would hold if copies were deep; `next` numbers the next object. */
  datatype Deep = Deep(lists: map<nat, seq<Record>>, next: nat)

  /** The command names a live object and a place of its list. */
  predicate Enabled(d: Deep, c: Command) {
    c.New? || (c.i in d.lists && (c.Update? ==> c.k < |d.lists[c.i]|))
  }

  /** A visit ends at the callback's first failure. */
  function Apply(d: Deep, c: Command): Deep
    requires Enabled(d, c)
  {
    match c
    case New => Deep(d.lists[d.next := []], d.next + 1)
    case Copy(i) => Deep(d.lists[d.next := d.lists[i]], d.next + 1)
    case Set(i, rs) => d.(lists := d.lists[i := rs])
    case Append(i, r) => d.(lists := d.lists[i := d.lists[i] + [r]])
    case Update(i, k, r) =>
      var l := d.lists[i];
      d.(lists := d.lists[i := l[k := r]])
    case Each(i, f) => d.(lists := d.lists[i := Visited(f, d.lists[i])])
    case Finalize(i) => d.(lists := d.lists - {i})
  }

  /** The command's visit fails. */
  predicate Fails(d: Deep, c: Command) {
    c.Each? && c.i in d.lists && !NeverFails(c.f, d.lists[c.i])
  }

  /** What the command may do: a visit that fails may leave nothing behind. */
  predicate Next(d: Deep, c: Command, e: Deep) {
    Enabled(d, c) && (e == Apply(d, c) || (Fails(d, c) && e == d))
  }

  ghost function Members(objs: seq<SystemObject>, live: set<nat>): set<SystemObject> {
    set i | i in live && i < |objs| :: objs[i]
  }

  /** Everything an object is made of. */
  ghost function Parts(o: SystemObject): set<object>
    reads o, o.vals
  {
    {o, o.vals, o.ref} + set v | v in o.vals.items
  }

  /** The live objects are different and hold what the deep family says; `repr` is all they are made of. */
  ghost predicate Ok(objs: seq<SystemObject>, live: set<nat>, d: Deep, repr: set<object>)
    reads *
  {
    && live == d.lists.Keys && |objs| == d.next
    && (forall i :: i in live ==> i < |objs|)
    && (forall i, j :: i in live && j in live && i != j ==> objs[i] != objs[j])
    && (forall i :: i in live ==> Parts(objs[i]) <= repr && objs[i].Validators() == d.lists[i])
    && Valid(Members(objs, live))
  }

  /** All but one object are as the deep family says. */
  ghost predicate OkBut(objs: seq<SystemObject>, live: set<nat>, d: Deep, repr: set<object>, i: nat)
    reads *
  {
    && live == d.lists.Keys && |objs| == d.next
    && (forall k :: k in live ==> k < |objs|)
    && (forall k, j :: k in live && j in live && k != j ==> objs[k] != objs[j])
    && (forall k :: k in live && k != i ==> Parts(objs[k]) <= repr && objs[k].Validators() == d.lists[k])
  }

  lemma Rejoined(objs: seq<SystemObject>, live: set<nat>, d: Deep, repr: set<object>, i: nat, l: seq<Record>)
    requires OkBut(objs, live, d, repr, i) && i in live && objs[i].Validators() == l && Valid(Members(objs, live))
    ensures Ok(objs, live, d.(lists := d.lists[i := l]), repr + Parts(objs[i]))
  {
    hide Valid, Records, SystemObject.Validators;
  }

  lemma NotYetHeld(objs: seq<SystemObject>, live: set<nat>, d: Deep, repr: set<object>, v: Validator)
    requires Ok(objs, live, d, repr) && v !in repr
    ensures forall o :: o in Members(objs, live) ==> v !in o.vals.items
  {
  }

  /** A new validator leaves the family as it is. */
  method NewValidatorBeside(r: Record, ghost objs: seq<SystemObject>, ghost live: set<nat>, ghost d: Deep,
                            ghost repr: set<object>)
    returns (v: Validator)
    requires Ok(objs, live, d, repr)
    ensures fresh(v) && v.data == r && Ok(objs, live, d, repr)
  {
    hide Valid, Records, SystemObject.Validators;
    v := new Validator(r);
  }

  method AppendTo(objs: seq<SystemObject>, live: set<nat>, i: nat, v: Validator, ghost d: Deep, ghost repr: set<object>)
    requires Ok(objs, live, d, repr) && i in live && v !in repr
    modifies repr
    ensures OkBut(objs, live, d, repr, i) && Valid(Members(objs, live)) && fresh(Parts(objs[i]) - repr - {v})
    ensures objs[i].Validators() == d.lists[i] + [v.data]
  {
    var o := objs[i];
    ghost var family := Members(objs, live);
    NotYetHeld(objs, live, d, repr, v);
    hide Valid, Records, SystemObject.Validators;
    o.AppendValidator(v, family);
    forall k | k in live && k != i
      ensures Parts(objs[k]) <= repr && objs[k].Validators() == d.lists[k]
    {
      assert objs[k] in family;
    }
  }

  method AppendWith(objs: seq<SystemObject>, live: set<nat>, i: nat, v: Validator, ghost d: Deep,
                    ghost repr: set<object>)
    returns (ghost more: set<object>)
    requires Ok(objs, live, d, repr) && i in live && v !in repr
    modifies repr
    ensures fresh(more - repr - {v}) && Ok(objs, live, Apply(d, Append(i, v.data)), more)
  {
    assert i < |objs| && i in d.lists;
    ghost var l: seq<Record> := d.lists[i] + [v.data];
    assert Apply(d, Append(i, v.data)) == d.(lists := d.lists[i := l]);
    hide Ok, OkBut, Valid, Records, SystemObject.Validators, Apply;
    AppendTo(objs, live, i, v, d, repr);
    more := repr + Parts(objs[i]);
    Rejoined(objs, live, d, repr, i, l);
  }

  method StepAppend(objs: seq<SystemObject>, live: set<nat>, i: nat, r: Record, ghost d: Deep, ghost repr: set<object>)
    returns (ghost more: set<object>)
    requires Ok(objs, live, d, repr) && i in live
    modifies repr
    ensures fresh(more - repr) && Ok(objs, live, Apply(d, Append(i, r)), more)
  {
    hide Ok, Apply;
    var v := NewValidatorBeside(r, objs, live, d, repr);
    more := AppendWith(objs, live, i, v, d, repr);
  }

  lemma SameLength(o: SystemObject)
    ensures |o.Validators()| == |o.vals.items|
  {
  }

  method ReplaceIn(objs: seq<SystemObject>, live: set<nat>, i: nat, k: nat, v: Validator, ghost d: Deep,
                   ghost repr: set<object>)
    requires Ok(objs, live, d, repr) && i in live && k < |d.lists[i]| && v !in repr
    modifies repr
    ensures OkBut(objs, live, d, repr, i) && Valid(Members(objs, live)) && fresh(Parts(objs[i]) - repr - {v})
    ensures objs[i].Validators() == d.lists[i][k := v.data]
  {
    var o := objs[i];
    ghost var family := Members(objs, live);
    NotYetHeld(objs, live, d, repr, v);
    SameLength(o);
    hide Valid, Records, SystemObject.Validators;
    o.UpdateValidator(k, v, family);
    forall j | j in live && j != i
      ensures Parts(objs[j]) <= repr && objs[j].Validators() == d.lists[j]
    {
      assert objs[j] in family;
    }
  }

  method UpdateWith(objs: seq<SystemObject>, live: set<nat>, i: nat, k: nat, v: Validator, ghost d: Deep,
                    ghost repr: set<object>)
    returns (ghost more: set<object>)
    requires Ok(objs, live, d, repr) && i in live && k < |d.lists[i]| && v !in repr
    modifies repr
    ensures fresh(more - repr - {v}) && Ok(objs, live, Apply(d, Update(i, k, v.data)), more)
  {
    assert i < |objs| && i in d.lists;
    ghost var l: seq<Record> := Apply(d, Update(i, k, v.data)).lists[i];
    assert l == d.lists[i][k := v.data] && Apply(d, Update(i, k, v.data)) == d.(lists := d.lists[i := l]);
    hide Ok, OkBut, Valid, Records, SystemObject.Validators, Apply;
    ReplaceIn(objs, live, i, k, v, d, repr);
    more := repr + Parts(objs[i]);
    Rejoined(objs, live, d, repr, i, l);
  }

  method StepUpdate(objs: seq<SystemObject>, live: set<nat>, i: nat, k: nat, r: Record, ghost d: Deep,
                    ghost repr: set<object>)
    returns (ghost more: set<object>)
    requires Ok(objs, live, d, repr) && i in live && k < |d.lists[i]|
    modifies repr
    ensures fresh(more - repr) && Ok(objs, live, Apply(d, Update(i, k, r)), more)
  {
    hide Ok, Apply;
    var v := NewValidatorBeside(r, objs, live, d, repr);
    more := UpdateWith(objs, live, i, k, v, d, repr);
  }

  /** Another live object is on the object's list. */
  predicate ListShared(objs: seq<SystemObject>, live: set<nat>, i: nat)
    requires i < |objs|
    reads objs
  {
    exists j :: j in live && j < |objs| && objs[j] != objs[i] && objs[j].vals == objs[i].vals
  }

  method VisitIn(objs: seq<SystemObject>, live: set<nat>, i: nat, f: Callback, ghost d: Deep, ghost repr: set<object>)
    requires Ok(objs, live, d, repr) && i in live && (NeverFails(f, d.lists[i]) || !ListShared(objs, live, i))
    modifies repr
    ensures OkBut(objs, live, d, repr, i) && Valid(Members(objs, live)) && fresh(Parts(objs[i]) - repr)
    ensures objs[i].Validators() ==
            if NeverFails(f, d.lists[i]) || old(objs[i].ref.refs) <= 1 then Visited(f, d.lists[i]) else d.lists[i]
  {
    var o := objs[i];
    ghost var family := Members(objs, live);
    NobodyElse(objs, live, i);
    hide Valid, Records, SystemObject.Validators, NeverFails, Visited, ListShared;
    var ok := o.UpdateForEveryValidator(f, family);
    forall j | j in live && j != i
      ensures Parts(objs[j]) <= repr && objs[j].Validators() == d.lists[j]
    {
      assert objs[j] in family;
    }
  }

  lemma NobodyElse(objs: seq<SystemObject>, live: set<nat>, i: nat)
    requires i in live && i < |objs|
    ensures objs[i] in Members(objs, live)
    ensures !ListShared(objs, live, i) <==>
            forall o :: o in Members(objs, live) && o != objs[i] ==> o.vals != objs[i].vals
  {
    if ListShared(objs, live, i) {
      var j :| j in live && j < |objs| && objs[j] != objs[i] && objs[j].vals == objs[i].vals;
      assert objs[j] in Members(objs, live);
    }
  }

  method StepEach(objs: seq<SystemObject>, live: set<nat>, i: nat, f: Callback, ghost d: Deep, ghost repr: set<object>)
    returns (ghost more: set<object>, ghost e: Deep)
    requires Ok(objs, live, d, repr) && i in live && (NeverFails(f, d.lists[i]) || !ListShared(objs, live, i))
    modifies repr
    ensures fresh(more - repr) && Next(d, Each(i, f), e) && Ok(objs, live, e, more)
    ensures e == if NeverFails(f, d.lists[i]) || old(objs[i].ref.refs) <= 1 then Apply(d, Each(i, f)) else d
  {
    assert i < |objs| && i in d.lists;
    ghost var visited: seq<Record> := Visited(f, d.lists[i]);
    ghost var l: seq<Record> := if NeverFails(f, d.lists[i]) || objs[i].ref.refs <= 1 then visited else d.lists[i];
    e := d.(lists := d.lists[i := l]);
    assert d.lists[i := d.lists[i]] == d.lists;
    assert Apply(d, Each(i, f)) == d.(lists := d.lists[i := visited]);
    hide Ok, OkBut, Valid, Records, SystemObject.Validators, NeverFails, Visited, Apply, ListShared;
    VisitIn(objs, live, i, f, d, repr);
    more := repr + Parts(objs[i]);
    Rejoined(objs, live, d, repr, i, l);
  }

  method NewList(rs: seq<Record>) returns (vs: ValidatorList)
    ensures fresh(vs) && (forall v :: v in vs.items ==> fresh(v)) && Distinct(vs.items) && Records(vs.items) == rs
  {
    vs := new ValidatorList([]);
    for k := 0 to |rs|
      invariant fresh(vs) && |vs.items| == k && (forall v :: v in vs.items ==> fresh(v)) && Distinct(vs.items)
      invariant forall j :: 0 <= j < k ==> vs.items[j].data == rs[j]
    {
      var v := new Validator(rs[k]);
      vs.items := vs.items + [v];
    }
  }

  /** A new list leaves the family as it is. */
  method NewListBeside(rs: seq<Record>, ghost objs: seq<SystemObject>, ghost live: set<nat>, ghost d: Deep,
                       ghost repr: set<object>)
    returns (vs: ValidatorList)
    requires Ok(objs, live, d, repr)
    ensures fresh(vs) && (forall v :: v in vs.items ==> fresh(v)) && Distinct(vs.items) && Records(vs.items) == rs
    ensures Ok(objs, live, d, repr)
  {
    hide Valid, Records, SystemObject.Validators, Distinct;
    vs := NewList(rs);
  }

  lemma NewFitsIn(objs: seq<SystemObject>, live: set<nat>, d: Deep, repr: set<object>, vs: ValidatorList, i: nat)
    requires Ok(objs, live, d, repr) && i in live
    requires vs !in repr && Distinct(vs.items) && forall v :: v in vs.items ==> v !in repr
    ensures FitsIn(vs, objs[i].ref, Members(objs, live) - {objs[i]}) && objs[i] in Members(objs, live)
  {
  }

  method SetIn(objs: seq<SystemObject>, live: set<nat>, i: nat, vs: ValidatorList, ghost d: Deep,
               ghost repr: set<object>)
    requires Ok(objs, live, d, repr) && i in live
    requires vs !in repr && Distinct(vs.items) && forall v :: v in vs.items ==> v !in repr
    modifies repr
    ensures OkBut(objs, live, d, repr, i) && Valid(Members(objs, live)) && objs[i].Validators() == Records(vs.items)
    ensures Parts(objs[i]) <= repr + {vs} + set v | v in vs.items
    ensures vs.items == old(vs.items) && Records(vs.items) == old(Records(vs.items))
  {
    var o := objs[i];
    ghost var family := Members(objs, live);
    hide Valid, Records, SystemObject.Validators, FitsIn, Distinct;
    NewFitsIn(objs, live, d, repr, vs, i);
    o.SetValidators(vs, family);
    forall j | j in live && j != i
      ensures Parts(objs[j]) <= repr && objs[j].Validators() == d.lists[j]
    {
      assert objs[j] in family;
    }
  }

  method SetTo(objs: seq<SystemObject>, live: set<nat>, i: nat, vs: ValidatorList, ghost d: Deep,
               ghost repr: set<object>)
    returns (ghost more: set<object>)
    requires Ok(objs, live, d, repr) && i in live
    requires vs !in repr && Distinct(vs.items) && forall v :: v in vs.items ==> v !in repr
    modifies repr
    ensures more <= repr + {vs} + (set v | v in vs.items) && Ok(objs, live, Apply(d, Set(i, Records(vs.items))), more)
  {
    assert i < |objs| && i in d.lists;
    ghost var l: seq<Record> := Records(vs.items);
    assert Apply(d, Set(i, l)) == d.(lists := d.lists[i := l]);
    hide Ok, OkBut, Valid, Records, SystemObject.Validators, Apply, Distinct;
    SetIn(objs, live, i, vs, d, repr);
    more := repr + Parts(objs[i]);
    Rejoined(objs, live, d, repr, i, l);
  }

  method StepSet(objs: seq<SystemObject>, live: set<nat>, i: nat, rs: seq<Record>, ghost d: Deep,
                 ghost repr: set<object>)
    returns (ghost more: set<object>)
    requires Ok(objs, live, d, repr) && i in live
    modifies repr
    ensures fresh(more - repr) && Ok(objs, live, Apply(d, Set(i, rs)), more)
  {
    hide Ok, Records, Distinct, Apply;
    var vs := NewListBeside(rs, objs, live, d, repr);
    more := SetTo(objs, live, i, vs, d, repr);
  }

  lemma LiveIs(objs: seq<SystemObject>, live: set<nat>, d: Deep, repr: set<object>, i: nat)
    requires Ok(objs, live, d, repr) && i in live
    ensures i in d.lists && i < |objs| == d.next
  {
  }

  method CopyIn(objs: seq<SystemObject>, live: set<nat>, i: nat, ghost d: Deep, ghost repr: set<object>)
    returns (c: SystemObject)
    requires Ok(objs, live, d, repr) && i in live
    modifies repr
    ensures fresh(c) && c.Validators() == d.lists[i] && Parts(c) <= repr + {c} && c !in Members(objs, live)
    ensures OkBut(objs, live, d, repr, |objs|) && Valid(Members(objs, live) + {c})
  {
    var o := objs[i];
    ghost var family := Members(objs, live);
    hide Valid, Records, SystemObject.Validators;
    c := o.Copy(family);
    forall k | k in live
      ensures Parts(objs[k]) <= repr && objs[k].Validators() == d.lists[k]
    {
      assert objs[k] in family;
    }
    PartsOfCopy(o, c);
  }

  method StepCopy(objs: seq<SystemObject>, live: set<nat>, i: nat, ghost d: Deep, ghost repr: set<object>)
    returns (objs': seq<SystemObject>, live': set<nat>, ghost more: set<object>)
    requires Ok(objs, live, d, repr) && i in live
    modifies repr
    ensures fresh(more - repr) && Ok(objs', live', Apply(d, Copy(i)), more)
  {
    hide Ok, OkBut, Valid, Records, SystemObject.Validators, Members, Parts;
    LiveIs(objs, live, d, repr, i);
    var c := CopyIn(objs, live, i, d, repr);
    objs', live', more := objs + [c], live + {|objs|}, repr + {c};
    Joined(objs, live, d, repr, c, more);
  }

  /** One object more, with the next number. */
  lemma Joined(objs: seq<SystemObject>, live: set<nat>, d: Deep, repr: set<object>, c: SystemObject, more: set<object>)
    requires OkBut(objs, live, d, repr, |objs|) && c !in Members(objs, live) && Valid(Members(objs, live) + {c})
    requires repr <= more && Parts(c) <= more
    ensures Ok(objs + [c], live + {|objs|}, Deep(d.lists[d.next := c.Validators()], d.next + 1), more)
  {
    hide Valid, Records, SystemObject.Validators, Parts;
    var objs', live' := objs + [c], live + {|objs|};
    MembersGrow(objs, live, c);
    assert forall k :: k in live ==> objs'[k] == objs[k] && objs[k] in Members(objs, live);
    assert objs'[|objs|] == c;
    hide Members;
  }

  lemma PartsOfCopy(o: SystemObject, c: SystemObject)
    requires c.vals == o.vals && c.ref == o.ref
    ensures Parts(c) <= Parts(o) + {c}
  {
  }

  lemma MembersGrow(objs: seq<SystemObject>, live: set<nat>, c: SystemObject)
    requires forall k :: k in live ==> k < |objs|
    ensures Members(objs + [c], live + {|objs|}) == Members(objs, live) + {c}
  {
    var objs' := objs + [c];
    assert forall k :: k in live ==> objs'[k] == objs[k];
    assert objs'[|objs|] == c;
  }

  lemma Left(objs: seq<SystemObject>, live: set<nat>, d: Deep, repr: set<object>, i: nat)
    requires OkBut(objs, live, d, repr, i) && i in live && Valid(Members(objs, live) - {objs[i]})
    ensures Ok(objs, live - {i}, Apply(d, Command.Finalize(i)), repr)
  {
    hide Valid, Records, SystemObject.Validators;
    assert Members(objs, live - {i}) == Members(objs, live) - {objs[i]};
  }

  method StepFinalize(objs: seq<SystemObject>, live: set<nat>, i: nat, ghost d: Deep, ghost repr: set<object>)
    returns (live': set<nat>)
    requires Ok(objs, live, d, repr) && i in live
    modifies repr
    ensures Ok(objs, live', Apply(d, Command.Finalize(i)), repr)
  {
    var o := objs[i];
    ghost var family := Members(objs, live);
    hide Valid, Records, SystemObject.Validators;
    o.Finalize(family);
    live' := live - {i};
    forall k | k in live
      ensures Parts(objs[k]) <= repr && objs[k].Validators() == d.lists[k]
    {
      assert objs[k] in family;
    }
    Left(objs, live, d, repr, i);
  }

  lemma NewJoins(family: set<SystemObject>, o: SystemObject)
    requires Valid(family) && o !in family && o.vals.items == [] && o.ref.refs == 1
    requires forall p :: p in family ==> p.vals != o.vals && p.ref != o.ref
    ensures Valid(family + {o})
  {
    assert Sharers(family + {o}, o.ref) == {o};
    forall p | p in family
      ensures Sharers(family + {o}, p.ref) == Sharers(family, p.ref)
    {
    }
  }

  lemma NewIsOk(objs: seq<SystemObject>, live: set<nat>, d: Deep, repr: set<object>, o: SystemObject)
    requires Ok(objs, live, d, repr) && o !in repr && o.vals !in repr && o.ref !in repr
    requires o.vals.items == [] && o.ref.refs == 1
    ensures Ok(objs + [o], live + {|objs|}, Apply(d, New), repr + Parts(o))
  {
    assert o.Validators() == [];
    assert OkBut(objs, live, d, repr, |objs|) && Valid(Members(objs, live));
    NewIsApart(objs, live, d, repr, o);
    hide Ok, OkBut, Valid, Records, SystemObject.Validators, Members, Parts;
    NewJoins(Members(objs, live), o);
    Joined(objs, live, d, repr, o, repr + Parts(o));
  }

  lemma NewIsApart(objs: seq<SystemObject>, live: set<nat>, d: Deep, repr: set<object>, o: SystemObject)
    requires Ok(objs, live, d, repr) && o !in repr && o.vals !in repr && o.ref !in repr
    ensures o !in Members(objs, live) && forall p :: p in Members(objs, live) ==> p.vals != o.vals && p.ref != o.ref
    ensures forall k :: k in live ==> objs[k] != o
  {
    hide Valid, Records, SystemObject.Validators;
  }

  method NewObjectBeside(ghost objs: seq<SystemObject>, ghost live: set<nat>, ghost d: Deep, ghost repr: set<object>)
    returns (o: SystemObject)
    requires Ok(objs, live, d, repr)
    ensures fresh(o) && fresh(o.vals) && fresh(o.ref) && o.vals.items == [] && o.ref.refs == 1
    ensures Ok(objs, live, d, repr)
  {
    hide Valid, Records, SystemObject.Validators;
    o := new SystemObject();
  }

  method StepNew(objs: seq<SystemObject>, live: set<nat>, ghost d: Deep, ghost repr: set<object>)
    returns (objs': seq<SystemObject>, live': set<nat>, ghost more: set<object>)
    requires Ok(objs, live, d, repr)
    ensures fresh(more - repr) && Ok(objs', live', Apply(d, New), more)
  {
    hide Ok, Apply;
    var o := NewObjectBeside(objs, live, d, repr);
    objs', live', more := objs + [o], live + {|objs|}, repr + Parts(o);
    NewIsOk(objs, live, d, repr, o);
  }

  /** The command splits the family: a visit that fails on a list another live object is on. */
  ghost predicate Splits(objs: seq<SystemObject>, live: set<nat>, d: Deep, c: Command)
    reads objs
  {
    Fails(d, c) && c.i < |objs| && ListShared(objs, live, c.i)
  }

  method Step(objs: seq<SystemObject>, live: set<nat>, c: Command, ghost d: Deep, ghost repr: set<object>)
    returns (objs': seq<SystemObject>, live': set<nat>, ghost more: set<object>, ghost e: Deep)
    requires Ok(objs, live, d, repr) && Enabled(d, c) && !Splits(objs, live, d, c)
    modifies repr
    ensures fresh(more - repr) && Next(d, c, e) && Ok(objs', live', e, more)
  {
    assert !c.New? ==> c.i in live && c.i < |objs|;
    hide Ok, Apply, NeverFails, ListShared;
    objs', live', more, e := objs, live, repr, Apply(d, c);
    match c
    case New => objs', live', more := StepNew(objs, live, d, repr);
    case Copy(i) => objs', live', more := StepCopy(objs, live, i, d, repr);
    case Set(i, rs) => more := StepSet(objs, live, i, rs, d, repr);
    case Append(i, r) => more := StepAppend(objs, live, i, r, d, repr);
    case Update(i, k, r) => more := StepUpdate(objs, live, i, k, r, d, repr);
    case Each(i, f) => more, e := StepEach(objs, live, i, f, d, repr);
    case Finalize(i) => live' := StepFinalize(objs, live, i, d, repr);
  }

  /** Whether a visit with the callback would fail. */
  method WouldFail(o: SystemObject, f: Callback) returns (r: bool)
    ensures r <==> !NeverFails(f, o.Validators())
  {
    for k := 0 to |o.vals.items|
      invariant forall i :: 0 <= i < k ==> f(i, o.vals.items[i].data).Visit?
    {
      if f(k, o.vals.items[k].data).Failed? {
        assert f(k, o.Validators()[k]).Failed?;
        return true;
      }
    }
    r := false;
  }

  /** Whether the command can be carried out without splitting the family. */
  method CanDo(objs: seq<SystemObject>, live: set<nat>, c: Command, ghost d: Deep, ghost repr: set<object>)
    returns (r: bool)
    requires Ok(objs, live, d, repr)
    ensures r <==> Enabled(d, c) && !Splits(objs, live, d, c)
  {
    if c.New? {
      return true;
    }
    if c.i !in live {
      return false;
    }
    SameLength(objs[c.i]);
    hide Valid, Records, SystemObject.Validators, NeverFails, ListShared;
    if c.Update? {
      return c.k < |objs[c.i].vals.items|;
    }
    if c.Each? && ListShared(objs, live, c.i) {
      var fails := WouldFail(objs[c.i], c.f);
      return !fails;
    }
    r := true;
  }

  /** The deep family over a run that starts without objects. */
  ghost predicate IsDeepRun(states: seq<Deep>, cmds: seq<Command>) {
    && |states| == |cmds| + 1 && states[0] == Deep(map[], 0)
    && forall k :: 0 <= k < |cmds| ==> Next(states[k], cmds[k], states[k + 1])
  }

  /** Carries out commands as long as they name live objects and do not split the family: after every such
      run each live object holds what it would hold if copies were deep. */
  method Run(cmds: seq<Command>) returns (n: nat, objs: seq<SystemObject>, live: set<nat>, ghost states: seq<Deep>)
    ensures n <= |cmds| && IsDeepRun(states, cmds[..n])
    ensures n < |cmds| ==> !Enabled(states[n], cmds[n]) || Splits(objs, live, states[n], cmds[n])
    ensures live == states[n].lists.Keys
    ensures forall i :: i in live ==> i < |objs| && objs[i].Validators() == states[n].lists[i]
    ensures Valid(Members(objs, live))
  {
    n, objs, live := 0, [], {};
    states := [Deep(map[], 0)];
    ghost var repr: set<object> := {};
    NoObjects();
    assert IsDeepRun(states, cmds[..0]);
    hide Ok, Enabled, Next, Valid, Records, SystemObject.Validators, Splits, IsDeepRun, Members;
    while n < |cmds|
      invariant n <= |cmds| && |states| == n + 1 && IsDeepRun(states, cmds[..n])
      invariant fresh(repr) && Ok(objs, live, states[n], repr)
    {
      var can := CanDo(objs, live, cmds[n], states[n], repr);
      if !can {
        End(objs, live, states[n], repr);
        return;
      }
      ghost var e;
      objs, live, repr, e := Step(objs, live, cmds[n], states[n], repr);
      DeepRunOn(states, cmds, n, e);
      states, n := states + [e], n + 1;
    }
    End(objs, live, states[n], repr);
  }

  lemma DeepRunOn(states: seq<Deep>, cmds: seq<Command>, n: nat, e: Deep)
    requires n < |cmds| && IsDeepRun(states, cmds[..n]) && Next(states[n], cmds[n], e)
    ensures IsDeepRun(states + [e], cmds[..n + 1])
  {
    hide Next;
    var more := states + [e];
    forall k | 0 <= k < n + 1
      ensures Next(more[k], cmds[..n + 1][k], more[k + 1])
    {
      assert k < n ==> cmds[..n][k] == cmds[k] && Next(states[k], cmds[..n][k], states[k + 1]);
    }
  }

  lemma NoObjects()
    ensures Ok([], {}, Deep(map[], 0), {})
  {
  }

  lemma End(objs: seq<SystemObject>, live: set<nat>, d: Deep, repr: set<object>)
    requires Ok(objs, live, d, repr)
    ensures live == d.lists.Keys && Valid(Members(objs, live))
    ensures forall i :: i in live ==> i < |objs| && objs[i].Validators() == d.lists[i]
  {
  }

  lemma OnItsOwn(o: SystemObject)
    requires o.ref.refs >= 1 && Distinct(o.vals.items)
    ensures Valid({o})
  {
    assert Sharers({o}, o.ref) == {o};
  }

  /** Two objects on one list with counters of their own see each other's writes. */
  method WriteShows(a: SystemObject, b: SystemObject, k: nat, v: Validator)
    requires a != b && a.vals == b.vals && a.ref != b.ref && a.ref.refs == 1
    requires Distinct(a.vals.items) && k < |a.vals.items| && v !in a.vals.items
    modifies a, a.ref, a.vals
    ensures b.Validators() == old(b.Validators())[k := v.data]
  {
    OnItsOwn(a);
    hide Valid, Records;
    a.UpdateValidator(k, v, {a});
  }

  /** A callback that fails on a list shared by two leaves exactly that. */
  method FailedUpdateSplits(a: SystemObject, b: SystemObject)
    requires a != b && a.vals == b.vals && a.ref == b.ref && a.ref.refs == 2 && Valid({a, b}) && |b.Validators()| > 0
    modifies b, b.ref, set v | v in b.vals.items
    ensures a.vals == b.vals && a.ref != b.ref && a.ref.refs == 1 && !Valid({a, b})
  {
    hide Records, Valid, SystemObject.Validators;
    var f: Callback := (i, r) => Failed;
    assert f(0, b.Validators()[0]).Failed?;
    var ok := b.UpdateForEveryValidator(f, {a, b});
    assert a in {a, b};
  }
}
