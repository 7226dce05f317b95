/** The asset object of an account, changed in place, and the operations that move amounts between two. */
module AssetObjects {
  import opened Foundation
  import L = Ledgers

  /** How an operation ends: done, refused with an error, or stopped by a nil entry. */
  datatype Outcome = Done | Refused | Crashed

  class AssetObject {
    var balance: L.Amounts
    var lockup: map<Identifier, L.Amounts>
    var mandate: map<Identifier, L.Amounts>

    constructor ()
      ensures State() == L.NO_ACCOUNT
    {
      balance, lockup, mandate := map[], map[], map[];
    }

    function State(): L.Account
      reads this
    {
      L.Account(balance, lockup, mandate)
    }

    method AddBalance(t: L.Token, a: int)
      modifies this`balance
      ensures State() == L.Credit(old(State()), t, a)
    {
      if t !in balance {
        balance := map[t := a];
      } else {
        balance := balance[t := balance[t] + a];
      }
    }

    method SubBalance(t: L.Token, a: int) returns (ok: bool)
      modifies this`balance
      ensures ok <==> t in old(balance)
      ensures State() == if ok then L.Debit(old(State()), t, a) else old(State())
    {
      if t !in balance {
        return false;
      }
      balance := balance[t := balance[t] - a];
      if balance[t] == 0 {
        balance := balance - {t};
        assert balance == old(balance) - {t};
      }
      ok := true;
    }

    /** Moves an amount into a lockup; a beneficiary that has one, but not in this token, stops it once the
        balance has been reduced. */
    method CreateLockup(id: Identifier, t: L.Token, a: int) returns (r: Outcome)
      modifies this
      ensures r == if t !in old(balance) then Refused
                   else if id in old(lockup) && t !in old(lockup)[id] then Crashed
                   else Done
      ensures State() == match r
                         case Done => L.Lock(old(State()), id, t, a)
                         case Refused => old(State())
                         case Crashed => L.Debit(old(State()), t, a)
    {
      var ok := SubBalance(t, a);
      if !ok {
        return Refused;
      }
      if id in lockup {
        var entries: L.Amounts := lockup[id];
        if t !in entries {
          return Crashed;
        }
        entries := entries[t := entries[t] + a];
        lockup := lockup[id := entries];
      } else {
        lockup := lockup[id := map[t := a]];
      }
      r := Done;
    }

    method ReleaseLockup(id: Identifier, t: L.Token, a: int) returns (r: Outcome)
      modifies this`lockup
      ensures r == if id in old(lockup) && t in old(lockup)[id] then Done else Crashed
      ensures State() == if r == Done then L.Unlock(old(State()), id, t, a) else old(State())
    {
      if id !in lockup || t !in lockup[id] {
        return Crashed;
      }
      lockup := Reduced(lockup, id, t, a);
      r := Done;
    }

    /** A mandate for an operator that has none replaces the mandates of all others. */
    method CreateMandate(id: Identifier, t: L.Token, a: int)
      modifies this`mandate
      ensures State() == L.Grant(old(State()), id, t, a)
    {
      if id in mandate {
        var entries: L.Amounts := mandate[id];
        entries := entries[t := if t in entries then entries[t] + a else a];
        mandate := mandate[id := entries];
      } else {
        mandate := map[id := map[t := a]];
      }
    }

    method SubMandateBalance(id: Identifier, t: L.Token, a: int) returns (ok: bool)
      modifies this`mandate
      ensures ok <==> id in old(mandate) && t in old(mandate)[id]
      ensures State() == if ok then L.Draw(old(State()), id, t, a) else old(State())
    {
      if id !in mandate || t !in mandate[id] {
        return false;
      }
      mandate := Reduced(mandate, id, t, a);
      ok := true;
    }

    /** Draws on the mandate first; without the token in the balance that part stays done. */
    method ConsumeMandate(id: Identifier, t: L.Token, a: int) returns (ok: bool)
      modifies this
      ensures ok <==> id in old(mandate) && t in old(mandate)[id] && t in old(balance)
      ensures ok ==> State() == L.Debit(L.Draw(old(State()), id, t, a), t, a)
      ensures !ok ==> State() == if id in old(mandate) && t in old(mandate)[id] then L.Draw(old(State()), id, t, a)
                                 else old(State())
    {
      ok := SubMandateBalance(id, t, a);
      if ok {
        ok := SubBalance(t, a);
      }
    }

    method DeleteMandate(id: Identifier, t: L.Token)
      modifies this`mandate
      ensures State() == L.Withdraw(old(State()), id, t)
    {
      if id in mandate {
        mandate := mandate[id := mandate[id] - {t}];
        if mandate[id] == map[] {
          mandate := mandate - {id};
          assert mandate == old(mandate) - {id};
        }
      } else {
        assert mandate == mandate - {id};
      }
    }
  }

  /** Takes an amount off an entry; an entry of zero goes, and so does an identifier without entries. */
  method Reduced(m: map<Identifier, L.Amounts>, id: Identifier, t: L.Token, a: int)
    returns (r: map<Identifier, L.Amounts>)
    requires id in m && t in m[id]
    ensures r == L.LessIn(m, id, t, a)
  {
    var rest: L.Amounts := m[id][t := m[id][t] - a];
    if rest[t] == 0 {
      rest := rest - {t};
      assert rest == m[id] - {t};
    }
    r := m[id := rest];
    if rest == map[] {
      r := r - {id};
      assert r == m - {id};
    }
  }

  /** Debits one object and credits another, which may be the same. */
  method TransferAsset(sender: AssetObject, target: AssetObject, t: L.Token, a: int) returns (ok: bool)
    modifies sender, target
    ensures ok <==> t in old(sender.balance)
    ensures !ok ==> sender.State() == old(sender.State()) && target.State() == old(target.State())
    ensures ok && sender != target ==>
              sender.State() == L.Debit(old(sender.State()), t, a) &&
              target.State() == L.Credit(old(target.State()), t, a)
    ensures ok && sender == target ==> sender.State() == L.Credit(L.Debit(old(sender.State()), t, a), t, a)
  {
    ok := sender.SubBalance(t, a);
    if ok {
      target.AddBalance(t, a);
    }
  }

  /** Draws, debits and credits; when it fails the beneficiary gets nothing, and the mandate is drawn exactly
      if it was there and the balance was missing. */
  method ConsumeMandate(operator: Identifier, benefactor: AssetObject, beneficiary: AssetObject, t: L.Token, a: int)
    returns (ok: bool)
    modifies benefactor, beneficiary
    ensures var mandated := operator in old(benefactor.mandate) && t in old(benefactor.mandate)[operator];
            && (ok <==> mandated && t in old(benefactor.balance))
            && (!ok ==> benefactor.State() == if mandated then L.Draw(old(benefactor.State()), operator, t, a)
                                              else old(benefactor.State()))
    ensures !ok && beneficiary != benefactor ==> beneficiary.State() == old(beneficiary.State())
    ensures var taken := L.Debit(L.Draw(old(benefactor.State()), operator, t, a), t, a);
            ok ==> if benefactor == beneficiary then benefactor.State() == L.Credit(taken, t, a)
                   else benefactor.State() == taken && beneficiary.State() == L.Credit(old(beneficiary.State()), t, a)
  {
    ok := benefactor.ConsumeMandate(operator, t, a);
    if ok {
      beneficiary.AddBalance(t, a);
    }
  }

  method ReleaseAsset(operator: Identifier, benefactor: AssetObject, beneficiary: AssetObject, t: L.Token, a: int)
    returns (r: Outcome)
    modifies benefactor, beneficiary
    ensures r == if operator in old(benefactor.lockup) && t in old(benefactor.lockup)[operator] then Done else Crashed
    ensures r == Crashed ==>
              benefactor.State() == old(benefactor.State()) && beneficiary.State() == old(beneficiary.State())
    ensures var taken := L.Unlock(old(benefactor.State()), operator, t, a);
            r == Done ==>
              if benefactor == beneficiary then benefactor.State() == L.Credit(taken, t, a)
              else benefactor.State() == taken && beneficiary.State() == L.Credit(old(beneficiary.State()), t, a)
  {
    r := benefactor.ReleaseLockup(operator, t, a);
    if r == Done {
      beneficiary.AddBalance(t, a);
    }
  }
}
