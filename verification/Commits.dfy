/** What a system object stores of its validators: dirty fields and indices are written at commit, and a
    fresh object loads the list back. */
module Commits {
  import opened Foundation
  import opened Varints
  import opened SystemObjects

  datatype Key = TotalKey | GenesisKey | ValidatorKey(index: nat)

  /** Varint bytes, or a validator's record in its encoding. */
  datatype Entry = Number(bytes: seq<Byte>) | Stored(record: Record)

  datatype Field = Total | Genesis | Vals

  type Store = map<Key, Entry>

  datatype Tracked = Tracked(
    list: seq<Record>,
    total: nat,
    genesis: int,
    fields: set<Field>,
    indices: Option<seq<nat>>,
    store: Store)

  function New(store: Store): Tracked {
    Tracked([], 0, 0, {}, None, store)
  }

  /******* Setters *******/

  function Marked(t: Tracked): seq<nat> {
    t.indices.GetOr([])
  }

  function Mark(t: Tracked, ks: seq<nat>): Tracked {
    t.(fields := t.fields + {Vals}, indices := Some(Marked(t) + ks))
  }

  function Upto(n: nat): (r: seq<nat>) {
    seq(n, i => i)
  }

  function SetList(t: Tracked, rs: seq<Record>): Tracked {
    var m := Mark(t, Upto(|rs|));
    m.(list := rs, total := |rs|, fields := m.fields + {Total})
  }

  function Append(t: Tracked, r: Record): Tracked {
    var m := Mark(t, [t.total]);
    m.(list := t.list + [r], total := t.total + 1, fields := m.fields + {Total})
  }

  function Update(t: Tracked, k: nat, r: Record): Tracked
    requires k < |t.list|
  {
    Mark(t, [k]).(list := t.list[k := r])
  }

  /** The places, from `k` on, where the callback reports a change. */
  function Reported(f: Callback, rs: seq<Record>, n: nat): seq<nat>
    requires n <= Stop(f, rs)
  {
    if n == 0 then [] else Reported(f, rs, n - 1) + (if f(n - 1, rs[n - 1]).changed then [n - 1] else [])
  }

  /** A visit that fails marks nothing, and its changes stay only on a list the object has for itself. */
  function Each(t: Tracked, f: Callback, shared: bool): Tracked {
    if NeverFails(f, t.list) then Mark(t, Reported(f, t.list, |t.list|)).(list := Visited(f, t.list))
    else if shared then t
    else t.(list := Visited(f, t.list))
  }

  function SetGenesis(t: Tracked, time: int): Tracked {
    t.(genesis := time, fields := t.fields + {Genesis})
  }

  /******* Commit and load *******/

  /** What each dirty field writes. */
  function Part(t: Tracked, f: Field): Store
    requires Writable(t, f)
  {
    match f
    case Total => map[TotalKey := Number(ToBytes(t.total).value)]
    case Genesis => map[GenesisKey := Number(ToBytes(ZigZag(t.genesis)).value)]
    case Vals => Entries(t.list, Marked(t))
  }

  function Entries(list: seq<Record>, ks: seq<nat>): Store
    requires forall k :: k in ks ==> k < |list|
  {
    if ks == [] then map[]
    else
      var n := |ks| - 1;
      assert ks[n] in ks && forall k :: k in ks[..n] ==> k in ks;
      Entries(list, ks[..n])[ValidatorKey(ks[n]) := Stored(list[ks[n]])]
  }

  lemma {:induction false} EntriesAre(list: seq<Record>, ks: seq<nat>)
    requires forall k :: k in ks ==> k < |list|
    ensures forall key :: key in Entries(list, ks) <==> key.ValidatorKey? && key.index in ks
    ensures forall k :: k in ks ==> Entries(list, ks)[ValidatorKey(k)] == Stored(list[k])
  {
    if ks != [] {
      var n := |ks| - 1;
      assert forall k :: k in ks[..n] ==> k in ks;
      EntriesAre(list, ks[..n]);
      assert ks == ks[..n] + [ks[n]];
    }
  }

  predicate Writable(t: Tracked, f: Field) {
    match f
    case Total => ToBytes(t.total).Some?
    case Genesis => ToBytes(ZigZag(t.genesis)).Some?
    case Vals => t.indices.Some? && forall k :: k in Marked(t) ==> k < |t.list|
  }

  predicate AllWritable(t: Tracked, fields: set<Field>) {
    forall f :: f in fields ==> Writable(t, f)
  }

  /** Commit neither fails nor runs past a buffer or the list. */
  predicate Committable(t: Tracked) {
    AllWritable(t, t.fields)
  }

  function Overlay(t: Tracked, f: Field, fields: set<Field>): Store
    requires AllWritable(t, fields)
  {
    if f in fields then Part(t, f) else map[]
  }

  function Written(t: Tracked, fields: set<Field>): Store
    requires AllWritable(t, fields)
  {
    t.store + Overlay(t, Total, fields) + Overlay(t, Genesis, fields) + Overlay(t, Vals, fields)
  }

  /** Dirty fields are cleared; marked indices stay marked. */
  function Commit(t: Tracked): Tracked
    requires Committable(t)
  {
    t.(store := Written(t, t.fields), fields := {})
  }

  predicate Loadable(store: Store) {
    && TotalKey in store && store[TotalKey].Number?
    && forall i :: 0 <= i < FromBytes(store[TotalKey].bytes) ==>
         ValidatorKey(i) in store && store[ValidatorKey(i)].Stored?
  }

  function Load(store: Store): Option<seq<Record>> {
    if !Loadable(store) then None
    else Some(seq(FromBytes(store[TotalKey].bytes),
                  i requires 0 <= i < FromBytes(store[TotalKey].bytes) => store[ValidatorKey(i)].record))
  }

  function LoadGenesis(store: Store): Option<int> {
    if GenesisKey in store && store[GenesisKey].Number? then Some(UnZigZag(FromBytes(store[GenesisKey].bytes)))
    else None
  }

  /******* What every setter keeps *******/

  /** A place of the list is marked for writing, or stored as it is. */
  predicate PlaceOk(t: Tracked, i: nat)
    requires i < |t.list|
  {
    || (Vals in t.fields && i in Marked(t))
    || (ValidatorKey(i) in t.store && t.store[ValidatorKey(i)] == Stored(t.list[i]))
  }

  predicate Synced(t: Tracked) {
    && t.total == |t.list|
    && (Vals in t.fields ==> t.indices.Some?)
    && (forall i :: 0 <= i < |t.list| ==> PlaceOk(t, i))
    && (TotalKey in t.store && Total !in t.fields ==>
          t.store[TotalKey].Number? && FromBytes(t.store[TotalKey].bytes) == t.total)
    && (GenesisKey in t.store && Genesis !in t.fields ==> LoadGenesis(t.store) == Some(t.genesis))
  }

  /** The visit changes no place without a mark. */
  predicate Covered(t: Tracked, f: Callback, shared: bool) {
    forall i :: 0 <= i < |t.list| ==> CoveredAt(t, f, shared, i)
  }

  /** At that place the change is reported, or there is none, or the mark is there already. */
  predicate CoveredAt(t: Tracked, f: Callback, shared: bool, i: nat)
    requires i < |t.list|
  {
    || VisitedAt(f, t.list, i) == t.list[i]
    || if NeverFails(f, t.list) then f(i, t.list[i]).changed || i in Marked(t)
       else shared || (Vals in t.fields && i in Marked(t))
  }

  lemma {:induction false} ReportedIs(f: Callback, rs: seq<Record>, n: nat)
    requires n <= Stop(f, rs)
    ensures forall k :: k in Reported(f, rs, n) <==> 0 <= k < n && f(k, rs[k]).changed
  {
    if n > 0 {
      ReportedIs(f, rs, n - 1);
    }
  }

  datatype Step =
    | SetStep(rs: seq<Record>)
    | AppendStep(r: Record)
    | UpdateStep(k: nat, r: Record)
    | EachStep(f: Callback, shared: bool)
    | GenesisStep(time: int)
    | CommitStep

  predicate Enabled(t: Tracked, s: Step) {
    match s
    case UpdateStep(k, _) => k < |t.list|
    case EachStep(f, shared) => Covered(t, f, shared)
    case CommitStep => Committable(t)
    case _ => true
  }

  function Apply(t: Tracked, s: Step): Tracked
    requires Enabled(t, s)
  {
    match s
    case SetStep(rs) => SetList(t, rs)
    case AppendStep(r) => Append(t, r)
    case UpdateStep(k, r) => Update(t, k, r)
    case EachStep(f, shared) => Each(t, f, shared)
    case GenesisStep(g) => SetGenesis(t, g)
    case CommitStep => Commit(t)
  }

  lemma CommitStores(t: Tracked)
    requires Synced(t) && Committable(t)
    ensures var s := Commit(t).store;
            && (TotalKey in s <==> Total in t.fields || TotalKey in t.store)
            && (TotalKey in s ==> s[TotalKey].Number? && FromBytes(s[TotalKey].bytes) == t.total)
            && (GenesisKey in s <==> Genesis in t.fields || GenesisKey in t.store)
            && (GenesisKey in s ==> LoadGenesis(s) == Some(t.genesis))
            && forall i :: 0 <= i < |t.list| ==> ValidatorKey(i) in s && s[ValidatorKey(i)] == Stored(t.list[i])
  {
    hide ToBytes, FromBytes, ZigZag, UnZigZag, Entries;
    if Vals in t.fields {
      EntriesAre(t.list, Marked(t));
    }
    if Total in t.fields {
      UintRoundTrip(t.total);
    }
    if Genesis in t.fields {
      IntRoundTrip(t.genesis);
    }
    forall i | 0 <= i < |t.list|
      ensures ValidatorKey(i) in Commit(t).store && Commit(t).store[ValidatorKey(i)] == Stored(t.list[i])
    {
      assert PlaceOk(t, i);
    }
  }

  lemma MarkedPlaces(t: Tracked, ks: seq<nat>, list: seq<Record>)
    requires Synced(t) && |list| >= |t.list|
    requires forall i :: 0 <= i < |list| ==> i in ks || (i < |t.list| && list[i] == t.list[i])
    ensures forall i :: 0 <= i < |list| ==> PlaceOk(Mark(t, ks).(list := list), i)
  {
    forall i | 0 <= i < |list|
      ensures PlaceOk(Mark(t, ks).(list := list), i)
    {
      assert i < |t.list| ==> PlaceOk(t, i);
      assert Marked(Mark(t, ks)) == Marked(t) + ks;
    }
  }

  lemma SetKeeps(t: Tracked, rs: seq<Record>)
    requires Synced(t)
    ensures Synced(SetList(t, rs))
  {
    forall i | 0 <= i < |rs|
      ensures PlaceOk(SetList(t, rs), i)
    {
      assert Upto(|rs|)[i] == i && Marked(SetList(t, rs)) == Marked(t) + Upto(|rs|);
    }
  }

  lemma AppendKeeps(t: Tracked, r: Record)
    requires Synced(t)
    ensures Synced(Append(t, r))
  {
    assert |t.list| in [t.total];
    MarkedPlaces(t, [t.total], t.list + [r]);
    assert forall i :: 0 <= i < |t.list| + 1 ==>
      PlaceOk(Mark(t, [t.total]).(list := t.list + [r]), i) ==> PlaceOk(Append(t, r), i);
  }

  lemma UpdateKeeps(t: Tracked, k: nat, r: Record)
    requires Synced(t) && k < |t.list|
    ensures Synced(Update(t, k, r))
  {
    assert k in [k];
    MarkedPlaces(t, [k], t.list[k := r]);
  }

  lemma EachMarks(t: Tracked, f: Callback, shared: bool)
    ensures forall k :: k in Marked(Each(t, f, shared)) <==>
              k in Marked(t) || (0 <= k < |t.list| && NeverFails(f, t.list) && f(k, t.list[k]).changed)
    ensures |Each(t, f, shared).list| == |t.list|
  {
    if NeverFails(f, t.list) {
      ReportedIs(f, t.list, |t.list|);
      assert Marked(Each(t, f, shared)) == Marked(t) + Reported(f, t.list, |t.list|);
    }
  }

  /** After a visit a place is marked or stored as it is exactly if it was covered. */
  lemma EachPlace(t: Tracked, f: Callback, shared: bool, i: nat)
    requires Synced(t) && i < |t.list|
    ensures i < |Each(t, f, shared).list|
    ensures PlaceOk(Each(t, f, shared), i) <==> CoveredAt(t, f, shared, i)
  {
    EachMarks(t, f, shared);
    assert PlaceOk(t, i);
    assert Visited(f, t.list)[i] == VisitedAt(f, t.list, i);
  }

  /** A visit leaves every place marked or stored as it is exactly if it changes none without a mark. */
  lemma EachKeeps(t: Tracked, f: Callback, shared: bool)
    requires Synced(t)
    ensures Synced(Each(t, f, shared)) <==> Covered(t, f, shared)
  {
    var u := Each(t, f, shared);
    EachMarks(t, f, shared);
    forall i | 0 <= i < |t.list|
      ensures PlaceOk(u, i) <==> CoveredAt(t, f, shared, i)
    {
      EachPlace(t, f, shared, i);
    }
    assert u.total == t.total && u.genesis == t.genesis && u.store == t.store &&
           u.fields == t.fields + (u.fields - t.fields);
    hide CoveredAt, PlaceOk;
  }

  lemma StepKeeps(t: Tracked, s: Step)
    requires Synced(t) && Enabled(t, s)
    ensures Synced(Apply(t, s))
  {
    match s
    case SetStep(rs) => SetKeeps(t, rs);
    case AppendStep(r) => AppendKeeps(t, r);
    case UpdateStep(k, r) => UpdateKeeps(t, k, r);
    case EachStep(f, shared) => EachKeeps(t, f, shared);
    case GenesisStep(g) =>
      assert forall i :: 0 <= i < |t.list| && PlaceOk(t, i) ==> PlaceOk(SetGenesis(t, g), i);
    case CommitStep => CommitStores(t);
  }

  ghost predicate IsRun(states: seq<Tracked>, steps: seq<Step>) {
    && |states| == |steps| + 1
    && forall i :: 0 <= i < |steps| ==> Enabled(states[i], steps[i]) && states[i + 1] == Apply(states[i], steps[i])
  }

  lemma {:induction false} RunKeeps(states: seq<Tracked>, steps: seq<Step>, n: nat)
    requires IsRun(states, steps) && n < |states| && Synced(states[0])
    ensures Synced(states[n])
  {
    if n > 0 {
      RunKeeps(states, steps, n - 1);
      StepKeeps(states[n - 1], steps[n - 1]);
    }
  }

  /** An object on empty storage, or one that has just loaded its list. */
  predicate Starts(t: Tracked) {
    || t == New(map[])
    || (Loadable(t.store) && LoadGenesis(t.store).Some? && t == Loaded(t.store))
  }

  function Loaded(store: Store): Tracked
    requires Loadable(store) && LoadGenesis(store).Some?
  {
    New(store).(list := Load(store).value, total := |Load(store).value|, genesis := LoadGenesis(store).value)
  }

  lemma StartIsSynced(t: Tracked)
    requires Starts(t)
    ensures Synced(t)
  {
    hide FromBytes, UnZigZag;
    forall i | 0 <= i < |t.list|
      ensures PlaceOk(t, i)
    {
      assert ValidatorKey(i) in t.store && t.store[ValidatorKey(i)].Stored?;
    }
  }

  /** After any run of setters and commits, what a commit stores loads back as the same list and time. */
  lemma CommitThenLoad(states: seq<Tracked>, steps: seq<Step>, n: nat)
    requires IsRun(states, steps) && n < |states| && Starts(states[0]) && Committable(states[n])
    ensures var t := states[n];
            && (Total in t.fields || TotalKey in t.store ==> Load(Commit(t).store) == Some(t.list))
            && (Genesis in t.fields || GenesisKey in t.store ==> LoadGenesis(Commit(t).store) == Some(t.genesis))
  {
    StartIsSynced(states[0]);
    RunKeeps(states, steps, n);
    CommitStores(states[n]);
    LoadsBack(Commit(states[n]).store, states[n].list);
  }

  lemma LoadsBack(store: Store, list: seq<Record>)
    requires forall i :: 0 <= i < |list| ==> ValidatorKey(i) in store && store[ValidatorKey(i)] == Stored(list[i])
    ensures TotalKey in store && store[TotalKey].Number? && FromBytes(store[TotalKey].bytes) == |list| ==>
              Load(store) == Some(list)
  {
    hide FromBytes;
    if TotalKey in store && store[TotalKey].Number? && FromBytes(store[TotalKey].bytes) == |list| {
      assert Loadable(store) && Load(store).value == list;
    }
  }

  /******* The edits themselves *******/

  /** What a step means for a plain list of records. */
  ghost predicate Edited(was: seq<Record>, now: seq<Record>, s: Step) {
    match s
    case SetStep(rs) => now == rs
    case AppendStep(r) => now == was + [r]
    case UpdateStep(k, r) =>
      |now| == |was| && k < |was| && now[k] == r && forall i :: 0 <= i < |was| && i != k ==> now[i] == was[i]
    case EachStep(f, shared) => |now| == |was| && forall i :: 0 <= i < |was| ==> now[i] == CalledAt(f, was, shared, i)
    case GenesisStep(_) => now == was
    case CommitStep => now == was
  }

  /** The callback's record, if the callback failed neither here nor before, and on a shared list nowhere. */
  ghost function CalledAt(f: Callback, was: seq<Record>, shared: bool, i: nat): Record
    requires i < |was|
  {
    if forall j :: 0 <= j < |was| && (j <= i || shared) ==> f(j, was[j]).Visit? then f(i, was[i]).record else was[i]
  }

  predicate AddsMark(t: Tracked, s: Step, k: nat) {
    match s
    case SetStep(rs) => k < |rs|
    case AppendStep(_) => k == t.total
    case UpdateStep(j, _) => k == j
    case EachStep(f, _) => NeverFails(f, t.list) && k < |t.list| && f(k, t.list[k]).changed
    case _ => false
  }

  /** The marks a step adds, and the fields it leaves dirty. */
  ghost predicate Marks(t: Tracked, u: Tracked, s: Step) {
    && (forall k: nat :: k in Marked(u) <==> k in Marked(t) || AddsMark(t, s, k))
    && (Total in u.fields <==> (Total in t.fields && !s.CommitStep?) || s.SetStep? || s.AppendStep?)
    && (Genesis in u.fields <==> (Genesis in t.fields && !s.CommitStep?) || s.GenesisStep?)
    && (Vals in u.fields <==> (Vals in t.fields && !s.CommitStep?) || s.SetStep? || s.AppendStep? || s.UpdateStep?
                              || (s.EachStep? && NeverFails(s.f, t.list)))
  }

  lemma StepEdits(t: Tracked, s: Step)
    requires Synced(t) && Enabled(t, s)
    ensures var u := Apply(t, s);
            && Edited(t.list, u.list, s) && u.genesis == (if s.GenesisStep? then s.time else t.genesis)
            && (!s.CommitStep? ==> u.store == t.store)
  {
    match s
    case EachStep(f, shared) =>
      forall i | 0 <= i < |t.list|
        ensures Each(t, f, shared).list[i] == CalledAt(f, t.list, shared, i)
      {
        assert Visited(f, t.list)[i] == VisitedAt(f, t.list, i);
      }
    case _ =>
  }

  lemma StepMarks(t: Tracked, s: Step)
    requires Enabled(t, s)
    ensures Marks(t, Apply(t, s), s)
  {
    match s
    case SetStep(rs) =>
      assert Marked(SetList(t, rs)) == Marked(t) + Upto(|rs|);
      assert forall k: nat :: k in Upto(|rs|) <==> k < |rs| && Upto(|rs|)[k] == k;
    case AppendStep(r) => assert Marked(Append(t, r)) == Marked(t) + [t.total];
    case UpdateStep(k, r) => assert Marked(Update(t, k, r)) == Marked(t) + [k];
    case EachStep(f, shared) => EachMarks(t, f, shared);
    case GenesisStep(g) => assert Marked(SetGenesis(t, g)) == Marked(t);
    case CommitStep => assert Marked(Commit(t)) == Marked(t);
  }

  /** Plain lists under the same steps. */
  ghost predicate Edits(lists: seq<seq<Record>>, steps: seq<Step>) {
    |lists| == |steps| + 1 && forall i :: 0 <= i < |steps| ==> Edited(lists[i], lists[i + 1], steps[i])
  }

  lemma OneEdit(was: seq<Record>, a: seq<Record>, b: seq<Record>, s: Step)
    requires Edited(was, a, s) && Edited(was, b, s)
    ensures a == b
  {
  }

  lemma {:induction false} RunEdits(states: seq<Tracked>, steps: seq<Step>, n: nat, lists: seq<seq<Record>>)
    requires IsRun(states, steps) && n < |states| && Synced(states[0])
    requires Edits(lists, steps) && lists[0] == states[0].list
    ensures states[n].list == lists[n]
  {
    hide Synced, Enabled, Apply, Edited;
    if n > 0 {
      var t, s := states[n - 1], steps[n - 1];
      assert Enabled(t, s) && states[n] == Apply(t, s);
      hide IsRun;
      RunEdits(states, steps, n - 1, lists);
      RunKeeps(states, steps, n - 1);
      StepEdits(t, s);
      OneEdit(lists[n - 1], states[n].list, lists[n], s);
    }
  }

  /** What loads back after any run and a commit is the plain list that the same steps make. */
  lemma EditsLoadBack(states: seq<Tracked>, steps: seq<Step>, n: nat, lists: seq<seq<Record>>)
    requires IsRun(states, steps) && n < |states| && Starts(states[0]) && Committable(states[n])
    requires Edits(lists, steps) && lists[0] == states[0].list
    requires Total in states[n].fields || TotalKey in states[n].store
    ensures Load(Commit(states[n]).store) == Some(lists[n])
  {
    StartIsSynced(states[0]);
    RunEdits(states, steps, n, lists);
    CommitThenLoad(states, steps, n);
  }

  /** A commit touches nothing but the storage and the dirty fields, and of the storage no key of a clean field. */
  lemma CommitLeaves(t: Tracked, key: Key)
    requires Committable(t)
    requires match key
             case TotalKey => Total !in t.fields
             case GenesisKey => Genesis !in t.fields
             case ValidatorKey(i) => Vals !in t.fields || i !in Marked(t)
    ensures var u := Commit(t);
            && u.list == t.list && u.total == t.total && u.genesis == t.genesis && u.indices == t.indices
            && u.fields == {}
            && (key in u.store <==> key in t.store) && (key in t.store ==> u.store[key] == t.store[key])
  {
    if Vals in t.fields {
      EntriesAre(t.list, Marked(t));
    }
    hide ToBytes, Entries;
  }

  /** A list loads exactly if the count and that many records are stored, a time exactly if it is. */
  lemma LoadsIff(store: Store)
    ensures Load(store).Some? <==>
            && TotalKey in store && store[TotalKey].Number?
            && forall i: nat :: i < FromBytes(store[TotalKey].bytes) ==>
                 ValidatorKey(i) in store && store[ValidatorKey(i)].Stored?
    ensures Load(store).Some? ==>
              && |Load(store).value| == FromBytes(store[TotalKey].bytes)
              && forall i :: 0 <= i < |Load(store).value| ==> Stored(Load(store).value[i]) == store[ValidatorKey(i)]
    ensures LoadGenesis(store).Some? <==> GenesisKey in store && store[GenesisKey].Number?
  {
    hide FromBytes;
  }

  /******* When a commit goes through *******/

  /** Every marked place is on the list. */
  predicate MarksInside(t: Tracked) {
    forall k :: k in Marked(t) ==> k < |t.list|
  }

  /** A set that does not shorten the list below a marked place. */
  predicate KeepsMarks(t: Tracked, s: Step) {
    s.SetStep? ==> forall k :: k in Marked(t) ==> k < |s.rs|
  }

  lemma {:induction false} MarksStayInside(states: seq<Tracked>, steps: seq<Step>, n: nat)
    requires IsRun(states, steps) && n < |states| && Starts(states[0])
    requires forall i :: 0 <= i < |steps| ==> KeepsMarks(states[i], steps[i])
    ensures MarksInside(states[n]) && Synced(states[n])
  {
    StartIsSynced(states[0]);
    RunKeeps(states, steps, n);
    if n > 0 {
      MarksStayInside(states, steps, n - 1);
      StepMarksInside(states[n - 1], steps[n - 1]);
    }
  }

  lemma StepMarksInside(t: Tracked, s: Step)
    requires Synced(t) && MarksInside(t) && Enabled(t, s) && KeepsMarks(t, s)
    ensures MarksInside(Apply(t, s))
  {
    match s
    case SetStep(rs) => assert Marked(SetList(t, rs)) == Marked(t) + Upto(|rs|);
    case AppendStep(r) => assert Marked(Append(t, r)) == Marked(t) + [t.total];
    case UpdateStep(k, r) => assert Marked(Update(t, k, r)) == Marked(t) + [k];
    case EachStep(f, shared) => EachMarks(t, f, shared);
    case GenesisStep(g) => assert Marked(SetGenesis(t, g)) == Marked(t);
    case CommitStep => assert Marked(Commit(t)) == Marked(t);
  }

  /** While the list is not cut below a marked place, a commit goes through exactly if its numbers fit. */
  lemma CommitGoesThrough(states: seq<Tracked>, steps: seq<Step>, n: nat)
    requires IsRun(states, steps) && n < |states| && Starts(states[0])
    requires forall i :: 0 <= i < |steps| ==> KeepsMarks(states[i], steps[i])
    ensures var t := states[n];
            Committable(t) <==> && (Total in t.fields ==> t.total < 0x100_0000_0000_0000)
                                && (Genesis in t.fields ==> -0x80_0000_0000_0000 <= t.genesis < 0x80_0000_0000_0000)
  {
    MarksStayInside(states, steps, n);
    UintRoundTrip(states[n].total);
    IntRoundTrip(states[n].genesis);
  }

  /** Otherwise it runs past the list: a marked place is no longer there. */
  lemma CutListPanics(t: Tracked, rs: seq<Record>)
    requires Synced(t) && !(forall k :: k in Marked(t) ==> k < |rs|)
    ensures !Committable(SetList(t, rs))
  {
    var k :| k in Marked(t) && k >= |rs|;
    assert k in Marked(SetList(t, rs));
  }

  /** What a commit after a visit stores at a place is what the list holds there exactly if the place was
      covered: a change without a mark is lost. */
  lemma UnreportedIsLost(t: Tracked, f: Callback, shared: bool, i: nat)
    requires Synced(t) && Committable(Each(t, f, shared)) && i < |t.list|
    ensures var u := Each(t, f, shared);
            && i < |u.list| && ValidatorKey(i) in Commit(u).store
            && (Commit(u).store[ValidatorKey(i)] == Stored(u.list[i]) <==> CoveredAt(t, f, shared, i))
  {
    var u := Each(t, f, shared);
    assert PlaceOk(t, i);
    EachMarks(t, f, shared);
    EachPlace(t, f, shared, i);
    CommitAt(u, i);
    hide CoveredAt, Commit;
  }

  /** A commit writes the marked places and leaves the others. */
  lemma CommitAt(u: Tracked, i: nat)
    requires Committable(u)
    ensures var s := Commit(u).store;
            if Vals in u.fields && i in Marked(u)
            then ValidatorKey(i) in s && i < |u.list| && s[ValidatorKey(i)] == Stored(u.list[i])
            else (ValidatorKey(i) in s <==> ValidatorKey(i) in u.store)
                 && (ValidatorKey(i) in s ==> s[ValidatorKey(i)] == u.store[ValidatorKey(i)])
  {
    if Vals in u.fields {
      EntriesAre(u.list, Marked(u));
    }
    hide ToBytes, Entries;
  }

  /** So the list loads back as it is exactly if the whole visit was covered. */
  lemma VisitLoadsBackIff(t: Tracked, f: Callback, shared: bool)
    requires Synced(t) && Committable(Each(t, f, shared))
    requires Total in t.fields || TotalKey in t.store
    ensures Load(Commit(Each(t, f, shared)).store) == Some(Each(t, f, shared).list) <==> Covered(t, f, shared)
  {
    var u := Each(t, f, shared);
    EachKeeps(t, f, shared);
    EachMarks(t, f, shared);
    if Covered(t, f, shared) {
      CommitStores(u);
      LoadsBack(Commit(u).store, u.list);
    } else {
      var i :| 0 <= i < |t.list| && !CoveredAt(t, f, shared, i);
      UnreportedIsLost(t, f, shared, i);
    }
    hide Commit, Committable, Each, FromBytes, CoveredAt;
  }

  /** The storage after one record and the time 0 have been committed. */
  function OneStored(): Store {
    UintRoundTrip(1);
    IntRoundTrip(0);
    map[TotalKey := Number(ToBytes(1).value),
        GenesisKey := Number(ToBytes(ZigZag(0)).value),
        ValidatorKey(0) := Stored(0)]
  }

  lemma OneStoredLoads()
    ensures Loadable(OneStored()) && Load(OneStored()) == Some([0]) && LoadGenesis(OneStored()) == Some(0)
  {
    UintRoundTrip(1);
    IntRoundTrip(0);
    hide ToBytes, FromBytes, ZigZag, UnZigZag;
    LoadsBack(OneStored(), [0]);
  }

  lemma OneStoredIsCommitted()
    ensures var t := SetGenesis(SetList(New(map[]), [0]), 0);
            Committable(t) && Commit(t).store == OneStored()
  {
    var t := SetGenesis(SetList(New(map[]), [0]), 0);
    UintRoundTrip(1);
    IntRoundTrip(0);
    assert Upto(1) == [0] && Marked(t) == [0];
    assert [0][..0] == [];
    assert Entries([0], [0]) == map[ValidatorKey(0) := Stored(0)];
  }

  /** The smallest loss: one stored record, changed from 0 to 1 without a report. */
  lemma LostChange()
    ensures Loadable(OneStored()) && LoadGenesis(OneStored()).Some?
    ensures var t := Loaded(OneStored());
            var u := Each(t, (k: nat, r: Record) => Visit(1, false), false);
            Committable(u) && u.list == [1] && Load(Commit(u).store) == Some([0])
  {
    OneStoredLoads();
    var t := Loaded(OneStored());
    assert t.list == [0];
    hide OneStored, Loadable, FromBytes, ToBytes;
    var f := (k: nat, r: Record) => Visit(1, false);
    assert Reported(f, [0], 1) == [];
    assert Visited(f, [0]) == [1];
    var u := Each(t, f, false);
    assert Commit(u).store == OneStored();
  }
}
