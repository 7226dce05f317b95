/** The asset engine over the objects of all accounts: each operation validates first and then moves
    amounts between the objects. */
module AssetEngines {
  import opened Foundation
  import opened AssetObjects
  import L = Ledgers

  class AssetEngine {
    var objects: map<Identifier, AssetObject>
    var circulating: int
    const max: int
    const manager: Identifier

    constructor (max: int, manager: Identifier)
      ensures Separate() && objects == map[] && State() == L.Ledger(map[], 0, max, manager)
    {
      this.max, this.manager, objects, circulating := max, manager, map[], 0;
    }

    /** Accounts have objects of their own. */
    predicate Separate()
      reads this`objects
    {
      forall a, b :: a in objects && b in objects && a != b ==> objects[a] != objects[b]
    }

    function State(): L.Ledger
      reads this, objects.Values
    {
      L.Ledger(map id | id in objects :: objects[id].State(), circulating, max, manager)
    }

    /** The account's object, new if there is none. */
    method ObjectOf(id: Identifier) returns (o: AssetObject)
      requires Separate()
      modifies this`objects
      ensures Separate() && id in objects && objects[id] == o && (o in old(objects.Values) || fresh(o))
      ensures objects == old(objects) || (fresh(o) && objects == old(objects)[id := o])
      ensures State() == L.Put(old(State()), id, L.Get(old(State()), id))
    {
      if id !in objects {
        o := new AssetObject();
        objects := objects[id := o];
      } else {
        o := objects[id];
        assert State().accounts[id] == o.State();
      }
    }

    method CreditAt(id: Identifier, t: L.Token, a: int)
      requires Separate()
      modifies this`objects, objects.Values
      ensures Separate() && (forall o :: o in objects.Values ==> o in old(objects.Values) || fresh(o))
      ensures State() == L.Put(old(State()), id, L.Credit(L.Get(old(State()), id), t, a))
    {
      hide L.Credit;
      ghost var l := State();
      var o := ObjectOf(id);
      AddTo(id, t, a);
      PutTwice(l, id, L.Get(l, id), L.Credit(L.Get(l, id), t, a));
    }

    method AddTo(id: Identifier, t: L.Token, a: int)
      requires Separate() && id in objects
      modifies objects.Values
      ensures State() == L.Put(old(State()), id, L.Credit(L.Get(old(State()), id), t, a))
    {
      hide L.Credit;
      objects[id].AddBalance(t, a);
    }

    method DebitAt(id: Identifier, t: L.Token, a: int)
      requires Separate() && id in objects && t in objects[id].balance
      modifies objects.Values
      ensures State() == L.Put(old(State()), id, L.Debit(old(objects[id].State()), t, a))
    {
      var ok := objects[id].SubBalance(t, a);
    }

    /** Debits one account and credits another. */
    method TransferAt(from: Identifier, to: Identifier, t: L.Token, a: int)
      requires Separate() && from in objects && t in objects[from].balance
      modifies this`objects, objects.Values
      ensures Separate() && (forall o :: o in objects.Values ==> o in old(objects.Values) || fresh(o))
      ensures State() == Moved(old(State()), from, to, L.Debit(old(objects[from].State()), t, a), t, a)
    {
      hide L.Debit, L.Credit;
      ghost var l := State();
      var o := ObjectOf(to);
      var ok := TransferAsset(objects[from], o, t, a);
      MovedIs(l, State(), from, to, L.Debit(l.accounts[from], t, a), t, a);
    }

    method ConsumeAt(operator: Identifier, from: Identifier, to: Identifier, t: L.Token, a: int)
      requires Separate() && from in objects && t in objects[from].balance
      requires operator in objects[from].mandate && t in objects[from].mandate[operator]
      modifies this`objects, objects.Values
      ensures Separate() && (forall o :: o in objects.Values ==> o in old(objects.Values) || fresh(o))
      ensures var taken := L.Debit(L.Draw(old(objects[from].State()), operator, t, a), t, a);
              State() == Moved(old(State()), from, to, taken, t, a)
    {
      hide L.Debit, L.Credit, L.Draw;
      ghost var l := State();
      var o := ObjectOf(to);
      var ok := ConsumeMandate(operator, objects[from], o, t, a);
      MovedIs(l, State(), from, to, L.Debit(L.Draw(l.accounts[from], operator, t, a), t, a), t, a);
    }

    method ReleaseAt(operator: Identifier, from: Identifier, to: Identifier, t: L.Token, a: int)
      requires Separate() && from in objects && operator in objects[from].lockup && t in objects[from].lockup[operator]
      modifies this`objects, objects.Values
      ensures Separate() && (forall o :: o in objects.Values ==> o in old(objects.Values) || fresh(o))
      ensures State() == Moved(old(State()), from, to, L.Unlock(old(objects[from].State()), operator, t, a), t, a)
    {
      hide L.Unlock, L.Credit;
      ghost var l := State();
      var o := ObjectOf(to);
      var r := ReleaseAsset(operator, objects[from], o, t, a);
      MovedIs(l, State(), from, to, L.Unlock(l.accounts[from], operator, t, a), t, a);
    }

    method SetSupply(supply: int)
      modifies this`circulating
      ensures State() == old(State()).(circulating := supply)
    {
      circulating := supply;
    }

    predicate HasBalance(id: Identifier, t: L.Token, a: int)
      reads this`objects, objects.Values
    {
      id in objects && t in objects[id].balance && objects[id].balance[t] >= a
    }

    /** Moves an amount of at least one that the account has. */
    method Transfer(permitted: bool, from: Identifier, to: Identifier, t: L.Token, a: int) returns (ok: bool)
      requires Separate()
      modifies this`objects, objects.Values
      ensures Separate() && (forall o :: o in objects.Values ==> o in old(objects.Values) || fresh(o))
      ensures Performed(old(State()), State(), L.Transfer(permitted, from, to, t, a), ok)
    {
      if a < 1 || !permitted || !HasBalance(from, t, a) {
        return false;
      }
      hide L.Debit, L.Credit;
      TransferAt(from, to, t, a);
      ok := true;
    }

    /** Moves an amount on a mandate; there is no lower bound on it. */
    method Consume(permitted: bool, operator: Identifier, from: Identifier, to: Identifier, t: L.Token, a: int)
      returns (ok: bool)
      requires Separate()
      modifies this`objects, objects.Values
      ensures Separate() && (forall o :: o in objects.Values ==> o in old(objects.Values) || fresh(o))
      ensures Performed(old(State()), State(), L.Consume(permitted, operator, from, to, t, a), ok)
    {
      ok := permitted && HasBalance(from, t, a) && HasMandate(from, operator, t, a);
      ghost var l := State();
      assert ok <==> L.Validated(l, L.Consume(permitted, operator, from, to, t, a));
      assert ok ==> l.accounts[from] == objects[from].State();
      hide L.Debit, L.Credit, L.Draw, L.Validated, State, Separate;
      if ok {
        ConsumeAt(operator, from, to, t, a);
      }
    }

    predicate HasMandate(id: Identifier, operator: Identifier, t: L.Token, a: int)
      reads this`objects, objects.Values
    {
      && id in objects && operator in objects[id].mandate && t in objects[id].mandate[operator]
      && objects[id].mandate[operator][t] >= a
    }

    predicate HasLockup(id: Identifier, operator: Identifier, t: L.Token, a: int)
      reads this`objects, objects.Values
    {
      && id in objects && operator in objects[id].lockup && t in objects[id].lockup[operator]
      && objects[id].lockup[operator][t] >= a
    }

    /** The manager adds to the supply, within its maximum, and to an account. */
    method Mint(permitted: bool, sender: Identifier, to: Identifier, t: L.Token, a: int) returns (ok: bool)
      requires Separate()
      modifies this, objects.Values
      ensures Separate() && (forall o :: o in objects.Values ==> o in old(objects.Values) || fresh(o))
      ensures Performed(old(State()), State(), L.Mint(permitted, sender, to, t, a), ok)
    {
      assert State().circulating == circulating && State().max == max && State().manager == manager;
      if !permitted || a < 1 || sender != manager || circulating + a > max {
        return false;
      }
      hide L.Credit, State, L.Accepted;
      SetSupply(circulating + a);
      CreditAt(to, t, a);
      ok := true;
    }

    /** The manager takes off the supply what it takes off its own balance. */
    method Burn(permitted: bool, from: Identifier, t: L.Token, a: int) returns (ok: bool)
      requires Separate()
      modifies this`circulating, objects.Values
      ensures Performed(old(State()), State(), L.Burn(permitted, from, t, a), ok)
    {
      if !permitted || from != manager || !HasBalance(from, t, a) || a < 1 {
        return false;
      }
      hide L.Debit, L.Accepted;
      DebitAt(from, t, a);
      SetSupply(circulating - a);
      ok := true;
    }

    /** A validated lockup goes through exactly if it meets no nil entry; otherwise the balance is reduced
        all the same. */
    method Lockup(permitted: bool, from: Identifier, operator: Identifier, t: L.Token, a: int) returns (r: Outcome)
      requires Separate()
      modifies objects.Values
      ensures var l, s := old(State()), L.LockUp(permitted, from, operator, t, a);
              && r == (if !L.Validated(l, s) then Refused else if L.Crashes(l, s) then Crashed else Done)
              && State() == match r
                            case Done => L.Apply(l, s)
                            case Refused => l
                            case Crashed => L.Put(l, from, L.Debit(L.Get(l, from), t, a))
    {
      if !permitted || a < 1 || !HasBalance(from, t, a) {
        return Refused;
      }
      hide L.Lock, L.Debit;
      r := objects[from].CreateLockup(operator, t, a);
    }

    /** Releases part of a lockup to an account; there is no lower bound on it. */
    method Release(permitted: bool, operator: Identifier, from: Identifier, to: Identifier, t: L.Token, a: int)
      returns (ok: bool)
      requires Separate()
      modifies this`objects, objects.Values
      ensures Separate() && (forall o :: o in objects.Values ==> o in old(objects.Values) || fresh(o))
      ensures Performed(old(State()), State(), L.Release(permitted, operator, from, to, t, a), ok)
    {
      ok := permitted && HasLockup(from, operator, t, a);
      ghost var l := State();
      assert ok <==> L.Validated(l, L.Release(permitted, operator, from, to, t, a));
      assert ok ==> l.accounts[from] == objects[from].State();
      hide L.Credit, L.Unlock, L.Validated, State, Separate;
      if ok {
        ReleaseAt(operator, from, to, t, a);
      }
    }

    method Approve(permitted: bool, from: Identifier, operator: Identifier, t: L.Token, a: int) returns (ok: bool)
      requires Separate()
      modifies objects.Values
      ensures Performed(old(State()), State(), L.Approve(permitted, from, operator, t, a), ok)
    {
      if !permitted || a < 1 || !HasBalance(from, t, a) {
        return false;
      }
      hide L.Grant;
      objects[from].CreateMandate(operator, t, a);
      ok := true;
    }

    method Revoke(permitted: bool, from: Identifier, operator: Identifier, t: L.Token) returns (ok: bool)
      requires Separate()
      modifies objects.Values
      ensures Performed(old(State()), State(), L.Revoke(permitted, from, operator, t), ok)
    {
      if !permitted || from !in objects || operator !in objects[from].mandate || t !in objects[from].mandate[operator] {
        return false;
      }
      hide L.Withdraw;
      objects[from].DeleteMandate(operator, t);
      ok := true;
    }
  }

  /** The ledger after an account came down to `taken` and another was credited. */
  function Moved(l: L.Ledger, from: Identifier, to: Identifier, taken: L.Account, t: L.Token, a: int): L.Ledger {
    var m := L.Put(l, from, taken);
    L.Put(m, to, L.Credit(L.Get(m, to), t, a))
  }

  lemma MovedIs(l: L.Ledger, now: L.Ledger, from: Identifier, to: Identifier, taken: L.Account, t: L.Token, a: int)
    requires from in l.accounts && now == l.(accounts := now.accounts) && now.accounts.Keys == l.accounts.Keys + {to}
    requires forall id :: id in l.accounts && id != from && id != to ==> now.accounts[id] == l.accounts[id]
    requires if from == to then now.accounts[to] == L.Credit(taken, t, a)
             else now.accounts[from] == taken && now.accounts[to] == L.Credit(L.Get(l, to), t, a)
    ensures now == Moved(l, from, to, taken, t, a)
  {
    hide L.Credit;
    assert now.accounts == Moved(l, from, to, taken, t, a).accounts;
  }

  lemma PutTwice(l: L.Ledger, id: Identifier, a: L.Account, b: L.Account)
    ensures L.Get(L.Put(l, id, a), id) == a && L.Put(L.Put(l, id, a), id, b) == L.Put(l, id, b)
  {
  }

  /** An operation is done exactly if it is accepted, and changes nothing otherwise. */
  predicate Performed(was: L.Ledger, now: L.Ledger, s: L.Step, ok: bool) {
    && (ok <==> L.Accepted(was, s))
    && now == if ok then L.Apply(was, s) else was
  }
}
