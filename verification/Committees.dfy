/** Assembling the participants of a cluster and the node sets they are decided by. */
module Committees {
  import opened Foundation
  import opened Interactions
  import opened Certificates

  const NIL_HASH: Hash := 0

  /** Where an account sits: its node set, that set's quorum, and the hash of its consensus nodes. */
  datatype Seat = Seat(position: nat, quorum: nat, hash: Hash)

  datatype SetData = SetData(position: nat, accounts: nat)

  datatype Assembly = Assembly(seats: map<Identifier, Seat>, sets: seq<NodeSet>, data: map<Hash, SetData>)

  /** The latest consensus nodes of an account and their hash. */
  datatype Context = Context(hash: Hash, nodes: seq<NodeId>)

  /** Takes a seat in the set of its hash, which takes part once one of its accounts is locked. */
  function Join(a: Assembly, id: Identifier, lock: LockType, h: Hash): Assembly
    requires h in a.data && a.data[h].position < |a.sets|
  {
    var p := a.data[h].position;
    var s := a.sets[p];
    Assembly(a.seats[id := Seat(p, ParticipantQuorum(s), h)],
             a.sets[p := s.(excluded := s.excluded && lock == NoLock)],
             a.data[h := SetData(p, a.data[h].accounts + 1)])
  }

  /** Opens a set; a nil hash is not recorded. */
  function Open(a: Assembly, id: Identifier, lock: LockType, c: Context): Assembly {
    var s := NodeSet(c.nodes, |c.nodes| % U32, lock == NoLock);
    Assembly(a.seats[id := Seat(|a.sets|, ParticipantQuorum(s), c.hash)],
             a.sets + [s],
             if c.hash == NIL_HASH then a.data else a.data[c.hash := SetData(|a.sets|, 1)])
  }

  predicate CanAdd(a: Assembly) {
    forall h :: h in a.data ==> a.data[h].position < |a.sets|
  }

  function Add(a: Assembly, id: Identifier, lock: LockType, c: Context): Assembly
    requires CanAdd(a)
  {
    if c.hash in a.data then Join(a, id, lock, c.hash) else Open(a, id, lock, c)
  }

  ghost function On(a: Assembly, p: nat): set<Identifier> {
    set id | id in a.seats && a.seats[id].position == p
  }

  /** Every account has a set, shared exactly with the accounts of its hash; every set has an account. */
  ghost predicate Seated(a: Assembly) {
    && (forall id :: id in a.seats ==> a.seats[id].position < |a.sets|)
    && (forall id, other :: id in a.seats && other in a.seats && id != other ==>
          (a.seats[id].position == a.seats[other].position <==>
           a.seats[id].hash == a.seats[other].hash && a.seats[id].hash != NIL_HASH))
    && (forall p :: 0 <= p < |a.sets| ==> On(a, p) != {})
    && (forall id :: id in a.seats ==> a.seats[id].quorum == ParticipantQuorum(a.sets[a.seats[id].position]))
  }

  /** The data under a hash lead to the set of its accounts and count them. */
  ghost predicate Recorded(a: Assembly) {
    && NIL_HASH !in a.data
    && (forall id :: id in a.seats && a.seats[id].hash != NIL_HASH ==>
          a.seats[id].hash in a.data && a.data[a.seats[id].hash].position == a.seats[id].position)
    && (forall h :: h in a.data ==> RecordOk(a, h))
  }

  ghost predicate RecordOk(a: Assembly, h: Hash)
    requires h in a.data
  {
    && a.data[h].position < |a.sets| && a.data[h].accounts == |On(a, a.data[h].position)|
    && forall id :: id in On(a, a.data[h].position) ==> a.seats[id].hash == h
  }

  /** The set is left out exactly if all its accounts are unlocked. */
  ghost predicate ExcludedAt(a: Assembly, locks: map<Identifier, LockType>, p: nat)
    requires a.seats.Keys <= locks.Keys && p < |a.sets|
  {
    a.sets[p].excluded <==> forall id :: id in On(a, p) ==> locks[id] == NoLock
  }

  ghost predicate Excluded(a: Assembly, locks: map<Identifier, LockType>) {
    && a.seats.Keys <= locks.Keys
    && forall p :: 0 <= p < |a.sets| ==> ExcludedAt(a, locks, p)
  }

  lemma OnJoin(a: Assembly, id: Identifier, lock: LockType, h: Hash, p: nat)
    requires h in a.data && a.data[h].position < |a.sets| && id !in a.seats
    ensures On(Join(a, id, lock, h), p) == On(a, p) + (if a.data[h].position == p then {id} else {})
  {
  }

  lemma OnOpen(a: Assembly, id: Identifier, lock: LockType, c: Context, p: nat)
    requires Seated(a) && id !in a.seats
    ensures On(Open(a, id, lock, c), p) == if p == |a.sets| then {id} else On(a, p)
  {
  }

  /** The accounts of a recorded hash are those of its set. */
  lemma HashIsPlace(a: Assembly, h: Hash, other: Identifier)
    requires Recorded(a) && h in a.data && other in a.seats
    ensures a.seats[other].position == a.data[h].position <==> a.seats[other].hash == h
  {
    assert RecordOk(a, h);
    assert a.seats[other].position == a.data[h].position ==> other in On(a, a.data[h].position);
  }

  lemma JoinPair(a: Assembly, id: Identifier, lock: LockType, h: Hash, x: Identifier, y: Identifier)
    requires Seated(a) && Recorded(a) && id !in a.seats && h in a.data && a.data[h].position < |a.sets|
    requires x in Join(a, id, lock, h).seats && y in Join(a, id, lock, h).seats && x != y
    ensures var s := Join(a, id, lock, h).seats;
            s[x].position == s[y].position <==> s[x].hash == s[y].hash && s[x].hash != NIL_HASH
  {
    hide RecordOk, On;
    if x in a.seats {
      HashIsPlace(a, h, x);
    }
    if y in a.seats {
      HashIsPlace(a, h, y);
    }
  }

  lemma JoinFills(a: Assembly, id: Identifier, lock: LockType, h: Hash)
    requires Seated(a) && id !in a.seats && h in a.data && a.data[h].position < |a.sets|
    ensures var b := Join(a, id, lock, h);
            && (forall p :: 0 <= p < |b.sets| ==> On(b, p) != {})
            && forall x :: x in b.seats ==>
                 && b.seats[x].position < |b.sets|
                 && b.seats[x].quorum == ParticipantQuorum(b.sets[b.seats[x].position])
  {
    hide On;
    var b := Join(a, id, lock, h);
    forall p | 0 <= p < |b.sets|
      ensures On(b, p) != {}
    {
      OnJoin(a, id, lock, h, p);
    }
  }

  lemma JoinSeats(a: Assembly, id: Identifier, lock: LockType, h: Hash)
    requires Seated(a) && Recorded(a) && id !in a.seats && h in a.data
    ensures Seated(Join(a, id, lock, h))
  {
    assert RecordOk(a, h);
    JoinFills(a, id, lock, h);
    var b := Join(a, id, lock, h);
    forall x, y | x in b.seats && y in b.seats && x != y
      ensures b.seats[x].position == b.seats[y].position <==>
              b.seats[x].hash == b.seats[y].hash && b.seats[x].hash != NIL_HASH
    {
      JoinPair(a, id, lock, h, x, y);
    }
    hide On, Recorded, RecordOk, Join;
  }

  lemma OpenSeats(a: Assembly, id: Identifier, lock: LockType, c: Context)
    requires Seated(a) && Recorded(a) && id !in a.seats && c.hash !in a.data
    ensures Seated(Open(a, id, lock, c))
  {
    var b := Open(a, id, lock, c);
    forall p | 0 <= p < |b.sets|
      ensures On(b, p) != {}
    {
      OnOpen(a, id, lock, c, p);
    }
    hide On;
  }

  lemma JoinRecordAt(a: Assembly, id: Identifier, lock: LockType, h: Hash, g: Hash)
    requires Seated(a) && Recorded(a) && id !in a.seats && h in a.data && g in a.data
    ensures RecordOk(Join(a, id, lock, h), g)
  {
    OnJoin(a, id, lock, h, a.data[g].position);
    OnePlace(a, g, h);
    OnOld(a, id, g);
    assert RecordOk(a, g);
    hide On, Seated, Recorded;
  }

  lemma OnOld(a: Assembly, id: Identifier, g: Hash)
    requires Recorded(a) && id !in a.seats && g in a.data
    ensures id !in On(a, a.data[g].position)
    ensures forall x :: x in On(a, a.data[g].position) ==> x in a.seats && a.seats[x].hash == g
  {
    assert RecordOk(a, g);
  }

  lemma JoinRecords(a: Assembly, id: Identifier, lock: LockType, h: Hash)
    requires Seated(a) && Recorded(a) && id !in a.seats && h in a.data
    ensures Recorded(Join(a, id, lock, h))
  {
    var b := Join(a, id, lock, h);
    forall g | g in b.data
      ensures RecordOk(b, g)
    {
      JoinRecordAt(a, id, lock, h, g);
    }
    assert RecordOk(a, h);
    hide RecordOk, Seated;
  }

  lemma OnePlace(a: Assembly, g: Hash, h: Hash)
    requires Seated(a) && Recorded(a) && g in a.data && h in a.data
    ensures a.data[g].position == a.data[h].position ==> g == h
  {
    assert RecordOk(a, g) && RecordOk(a, h);
    var x :| x in On(a, a.data[g].position);
  }

  lemma OpenRecordAt(a: Assembly, id: Identifier, lock: LockType, c: Context, g: Hash)
    requires Seated(a) && Recorded(a) && id !in a.seats && c.hash !in a.data && g in Open(a, id, lock, c).data
    ensures RecordOk(Open(a, id, lock, c), g)
  {
    OnOpen(a, id, lock, c, Open(a, id, lock, c).data[g].position);
    if g in a.data {
      OnOld(a, id, g);
      assert RecordOk(a, g);
    }
    hide On, Seated, Recorded;
  }

  lemma OpenRecords(a: Assembly, id: Identifier, lock: LockType, c: Context)
    requires Seated(a) && Recorded(a) && id !in a.seats && c.hash !in a.data
    ensures Recorded(Open(a, id, lock, c))
  {
    var b := Open(a, id, lock, c);
    forall g | g in b.data
      ensures RecordOk(b, g)
    {
      OpenRecordAt(a, id, lock, c, g);
    }
    hide RecordOk, Seated;
  }

  lemma JoinExcludedAt(a: Assembly, id: Identifier, locks: map<Identifier, LockType>, h: Hash, p: nat)
    requires a.seats.Keys <= locks.Keys && id !in a.seats && id in locks && h in a.data && a.data[h].position < |a.sets|
    requires p < |a.sets| && ExcludedAt(a, locks, p)
    ensures Join(a, id, locks[id], h).seats.Keys <= locks.Keys && ExcludedAt(Join(a, id, locks[id], h), locks, p)
  {
    OnJoin(a, id, locks[id], h, p);
    hide On;
  }

  lemma JoinExcludes(a: Assembly, id: Identifier, locks: map<Identifier, LockType>, h: Hash)
    requires Recorded(a) && Excluded(a, locks) && id !in a.seats && id in locks && h in a.data
    ensures Excluded(Join(a, id, locks[id], h), locks)
  {
    assert RecordOk(a, h);
    hide Recorded, ExcludedAt, RecordOk;
    var b := Join(a, id, locks[id], h);
    assert b.seats.Keys <= locks.Keys;
    forall p | 0 <= p < |b.sets|
      ensures ExcludedAt(b, locks, p)
    {
      JoinExcludedAt(a, id, locks, h, p);
    }
  }

  lemma OpenExcludedAt(a: Assembly, id: Identifier, locks: map<Identifier, LockType>, c: Context, p: nat)
    requires Seated(a) && a.seats.Keys <= locks.Keys && id !in a.seats && id in locks
    requires p <= |a.sets| && (p < |a.sets| ==> ExcludedAt(a, locks, p))
    ensures Open(a, id, locks[id], c).seats.Keys <= locks.Keys && ExcludedAt(Open(a, id, locks[id], c), locks, p)
  {
    OnOpen(a, id, locks[id], c, p);
    hide On, Seated;
  }

  lemma OpenExcludes(a: Assembly, id: Identifier, locks: map<Identifier, LockType>, c: Context)
    requires Seated(a) && Excluded(a, locks) && id !in a.seats && id in locks
    ensures Excluded(Open(a, id, locks[id], c), locks)
  {
    hide Seated, ExcludedAt;
    var b := Open(a, id, locks[id], c);
    assert b.seats.Keys <= locks.Keys;
    forall p | 0 <= p < |b.sets|
      ensures ExcludedAt(b, locks, p)
    {
      OpenExcludedAt(a, id, locks, c, p);
    }
  }

  lemma AddKeeps(a: Assembly, id: Identifier, locks: map<Identifier, LockType>, c: Context)
    requires Seated(a) && Recorded(a) && Excluded(a, locks) && id !in a.seats && id in locks
    ensures var b := Add(a, id, locks[id], c);
            Seated(b) && Recorded(b) && Excluded(b, locks)
  {
    if c.hash in a.data {
      JoinSeats(a, id, locks[id], c.hash);
      JoinRecords(a, id, locks[id], c.hash);
      JoinExcludes(a, id, locks, c.hash);
    } else {
      OpenSeats(a, id, locks[id], c);
      OpenRecords(a, id, locks[id], c);
      OpenExcludes(a, id, locks, c);
    }
    hide Seated, Recorded, Excluded;
  }

  /** Sets are numbered by their least accounts. */
  ghost predicate InOrder(a: Assembly) {
    forall p: nat, id :: id in a.seats && p < a.seats[id].position ==> HasLess(a, p, id)
  }

  ghost predicate HasLess(a: Assembly, p: nat, id: Identifier) {
    exists other :: other in On(a, p) && other < id
  }

  lemma AddInOrder(a: Assembly, id: Identifier, lock: LockType, c: Context)
    requires Seated(a) && Recorded(a) && InOrder(a) && id !in a.seats && forall x :: x in a.seats ==> x < id
    ensures InOrder(Add(a, id, lock, c))
  {
    var b := Add(a, id, lock, c);
    AddsOne(a, id, lock, c);
    assert b.seats[id].position <= |a.sets|;
    hide Add, Recorded;
    forall p: nat, x | x in b.seats && p < b.seats[x].position
      ensures HasLess(b, p, x)
    {
      if x == id {
        assert On(a, p) != {};
      } else {
        assert HasLess(a, p, x);
      }
      var other :| other in On(a, p) && other < x;
      assert other in On(b, p);
    }
  }

  /** The account that opened the set: the least on it. The set has that account's nodes, and its quorum is
      taken of their number. */
  ghost predicate OpenedBy(a: Assembly, contexts: map<Identifier, Context>, p: nat, id: Identifier)
    requires p < |a.sets|
  {
    && id in On(a, p) && (forall other :: other in On(a, p) ==> id <= other)
    && id in contexts && a.sets[p].nodes == contexts[id].nodes && a.sets[p].required == |contexts[id].nodes| % U32
  }

  ghost predicate HasOpener(a: Assembly, contexts: map<Identifier, Context>, p: nat)
    requires p < |a.sets|
  {
    exists id :: OpenedBy(a, contexts, p, id)
  }

  ghost predicate Manned(a: Assembly, contexts: map<Identifier, Context>) {
    forall p :: 0 <= p < |a.sets| ==> HasOpener(a, contexts, p)
  }

  lemma AddManned(a: Assembly, id: Identifier, lock: LockType, contexts: map<Identifier, Context>)
    requires Seated(a) && Recorded(a) && Manned(a, contexts)
    requires id !in a.seats && id in contexts && forall x :: x in a.seats ==> x < id
    ensures CanAdd(a) && Manned(Add(a, id, lock, contexts[id]), contexts)
  {
    var c := contexts[id];
    assert forall h :: h in a.data ==> RecordOk(a, h);
    hide OpenedBy, Seated, Recorded, On;
    var b := Add(a, id, lock, c);
    forall p | 0 <= p < |b.sets|
      ensures HasOpener(b, contexts, p)
    {
      if p < |a.sets| {
        assert HasOpener(a, contexts, p);
        var x :| OpenedBy(a, contexts, p, x);
        if c.hash in a.data {
          JoinKeepsOpener(a, id, lock, contexts, p, x);
        } else {
          OpenKeepsOpener(a, id, lock, contexts, p, x);
        }
      } else {
        OpensItself(a, id, lock, contexts);
      }
    }
  }

  lemma OpensItself(a: Assembly, id: Identifier, lock: LockType, contexts: map<Identifier, Context>)
    requires Seated(a) && id !in a.seats && id in contexts
    ensures OpenedBy(Open(a, id, lock, contexts[id]), contexts, |a.sets|, id)
  {
    OnOpen(a, id, lock, contexts[id], |a.sets|);
    hide On, Seated;
  }

  lemma OpenKeepsOpener(a: Assembly, id: Identifier, lock: LockType, contexts: map<Identifier, Context>, p: nat,
                        x: Identifier)
    requires Seated(a) && p < |a.sets| && OpenedBy(a, contexts, p, x) && id !in a.seats && id in contexts
    ensures OpenedBy(Open(a, id, lock, contexts[id]), contexts, p, x)
  {
    OnOpen(a, id, lock, contexts[id], p);
    hide On, Seated;
  }

  lemma JoinKeepsOpener(a: Assembly, id: Identifier, lock: LockType, contexts: map<Identifier, Context>, p: nat,
                        x: Identifier)
    requires p < |a.sets| && OpenedBy(a, contexts, p, x) && id !in a.seats && id in contexts
    requires contexts[id].hash in a.data && a.data[contexts[id].hash].position < |a.sets|
    requires forall y :: y in a.seats ==> y < id
    ensures OpenedBy(Join(a, id, lock, contexts[id].hash), contexts, p, x)
  {
    assert x in a.seats;
    OnJoin(a, id, lock, contexts[id].hash, p);
    hide On;
  }

  /** Accounts of one hash have one list of nodes. */
  predicate OneListPerHash(contexts: map<Identifier, Context>, ids: set<Identifier>)
    requires ids <= contexts.Keys
  {
    forall x, y :: x in ids && y in ids && contexts[x].hash == contexts[y].hash && contexts[x].hash != NIL_HASH ==>
      contexts[x].nodes == contexts[y].nodes
  }

  /** Every account is decided by its own nodes exactly if equal hashes mean equal nodes. */
  lemma OwnNodesIff(a: Assembly, contexts: map<Identifier, Context>)
    requires Seated(a) && Manned(a, contexts)
    requires forall id :: id in a.seats ==> id in contexts && a.seats[id].hash == contexts[id].hash
    ensures (forall id :: id in a.seats ==> a.sets[a.seats[id].position].nodes == contexts[id].nodes) <==>
            OneListPerHash(contexts, a.seats.Keys)
  {
    if OneListPerHash(contexts, a.seats.Keys) {
      forall id | id in a.seats
        ensures a.sets[a.seats[id].position].nodes == contexts[id].nodes
      {
        assert HasOpener(a, contexts, a.seats[id].position);
        var x :| OpenedBy(a, contexts, a.seats[id].position, x);
        assert x in a.seats && a.seats[x].position == a.seats[id].position;
      }
    }
  }

  method Least(ids: set<Identifier>) returns (l: Identifier)
    requires ids != {}
    ensures l in ids && forall id :: id in ids ==> l <= id
  {
    l :| l in ids;
    var todo := ids - {l};
    while todo != {}
      invariant todo <= ids && l in ids && forall id :: id in ids && id !in todo ==> l <= id
      decreases |todo|
    {
      var id :| id in todo;
      if id < l {
        l := id;
      }
      todo := todo - {id};
    }
  }

  function Locked(ps: map<Identifier, ParticipantInfo>): map<Identifier, LockType> {
    map id | id in ps :: ps[id].lock
  }

  /** The accounts that are not created here; these need their state and their consensus nodes. */
  function Existing(ps: map<Identifier, ParticipantInfo>): set<Identifier> {
    set id | id in ps && !ps[id].isGenesis
  }

  /** Seats the accounts in ascending order; fails if an account or its consensus nodes are not found. */
  method FetchParticipantsAndCommittee(ps: map<Identifier, ParticipantInfo>, accounts: set<Identifier>,
                                       contexts: map<Identifier, Context>) returns (r: Option<Assembly>)
    ensures r.Some? <==> forall id :: id in ps && !ps[id].isGenesis ==> id in accounts && id in contexts
    ensures r.Some? ==>
              && (forall id :: id in r.value.seats <==> id in ps && !ps[id].isGenesis)
              && (forall id :: id in r.value.seats ==> r.value.seats[id].hash == contexts[id].hash)
              && Seated(r.value) && Recorded(r.value) && Excluded(r.value, Locked(ps)) && InOrder(r.value)
              && Manned(r.value, contexts)
  {
    if !(Existing(ps) <= accounts) {
      return None;
    }
    hide Add, Progress;
    var a: Assembly := Assembly(map[], [], map[]);
    var todo: set<Identifier> := Existing(ps);
    Begins(ps, contexts);
    while todo != {}
      invariant todo <= Existing(ps) && Existing(ps) - todo <= contexts.Keys && Progress(a, ps, contexts, todo)
      decreases |todo|
    {
      var id := Least(todo);
      if id !in contexts {
        return None;
      }
      Continues(a, ps, contexts, todo, id);
      a := Add(a, id, ps[id].lock, contexts[id]);
      todo := todo - {id};
    }
    Ends(a, ps, contexts);
    r := Some(a);
  }

  /** The accounts before those left are seated. */
  ghost predicate Progress(a: Assembly, ps: map<Identifier, ParticipantInfo>, contexts: map<Identifier, Context>,
                           todo: set<Identifier>) {
    && a.seats.Keys == Existing(ps) - todo
    && (forall id, x :: id in todo && x in a.seats ==> x < id)
    && (forall id :: id in a.seats ==> id in contexts && a.seats[id].hash == contexts[id].hash)
    && Seated(a) && Recorded(a) && Excluded(a, Locked(ps)) && InOrder(a) && Manned(a, contexts)
  }

  lemma Begins(ps: map<Identifier, ParticipantInfo>, contexts: map<Identifier, Context>)
    ensures Progress(Assembly(map[], [], map[]), ps, contexts, Existing(ps))
  {
    EmptyIsSeated(Locked(ps));
    hide Seated, Recorded, Excluded, InOrder;
  }

  lemma Continues(a: Assembly, ps: map<Identifier, ParticipantInfo>, contexts: map<Identifier, Context>,
                  todo: set<Identifier>, id: Identifier)
    requires Progress(a, ps, contexts, todo) && todo <= Existing(ps)
    requires id in todo && id in contexts && forall x :: x in todo ==> id <= x
    ensures CanAdd(a) && Progress(Add(a, id, ps[id].lock, contexts[id]), ps, contexts, todo - {id})
  {
    hide Seated, Excluded, InOrder, Manned;
    assert CanAdd(a);
    hide Recorded, CanAdd, Add;
    AddManned(a, id, ps[id].lock, contexts);
    AddKeeps(a, id, Locked(ps), contexts[id]);
    AddInOrder(a, id, ps[id].lock, contexts[id]);
    AddsOne(a, id, ps[id].lock, contexts[id]);
  }

  lemma Ends(a: Assembly, ps: map<Identifier, ParticipantInfo>, contexts: map<Identifier, Context>)
    requires Progress(a, ps, contexts, {})
    ensures && a.seats.Keys == Existing(ps)
            && (forall id :: id in Existing(ps) ==> id in contexts && a.seats[id].hash == contexts[id].hash)
            && Seated(a) && Recorded(a) && Excluded(a, Locked(ps)) && InOrder(a) && Manned(a, contexts)
  {
    hide Seated, Recorded, Excluded, InOrder, Manned;
  }

  lemma EmptyIsSeated(locks: map<Identifier, LockType>)
    ensures var a := Assembly(map[], [], map[]);
            Seated(a) && Recorded(a) && Excluded(a, locks) && InOrder(a)
  {
  }

  lemma AddsOne(a: Assembly, id: Identifier, lock: LockType, c: Context)
    requires Recorded(a) && id !in a.seats
    ensures var b := Add(a, id, lock, c);
            && b.seats.Keys == a.seats.Keys + {id} && b.seats[id].hash == c.hash
            && forall x :: x in a.seats ==> b.seats[x] == a.seats[x]
  {
  }
}
