/** What every operation of the asset engine does to the single entries of balances, lockups and mandates. */
module LedgerEntries {
  import opened Foundation
  import opened Ledgers

  function Balance(acc: Account, t: Token): Option<int> {
    if t in acc.balance then Some(acc.balance[t]) else None
  }

  /** What is locked up for an operator, or what it may draw. */
  function Entry(m: map<Identifier, Amounts>, op: Identifier, t: Token): Option<int> {
    if op in m && t in m[op] then Some(m[op][t]) else None
  }

  /** An entry with an amount more, and one that covers the amount with as much less; nothing is left of zero. */
  function Plus(e: Option<int>, a: int): Option<int> {
    if e.Some? then Some(e.value + a) else Some(a)
  }

  function Minus(e: Option<int>, a: int): Option<int>
    requires e.Some?
  {
    if e.value == a then None else Some(e.value - a)
  }

  predicate Covers(e: Option<int>, a: int) {
    e.Some? && e.value >= a
  }

  /** One balance entry is set, and no other changes. */
  ghost predicate BalanceSet(was: Account, now: Account, t: Token, e: Option<int>) {
    Balance(now, t) == e && forall u :: u != t ==> Balance(now, u) == Balance(was, u)
  }

  /** One entry is set, no other changes, and the operator is listed while it has an entry. */
  ghost predicate EntrySet(was: map<Identifier, Amounts>, now: map<Identifier, Amounts>, op: Identifier, t: Token,
                           e: Option<int>) {
    && Entry(now, op, t) == e
    && (forall o, u :: o != op || u != t ==> Entry(now, o, u) == Entry(was, o, u))
    && (forall o :: o != op ==> (o in now <==> o in was))
    && (op in now <==> exists u :: Entry(now, op, u).Some?)
  }

  /** The entry is credited; the others stay if it was there and are wiped if it was not. */
  ghost predicate Credited(was: Account, now: Account, t: Token, a: int) {
    && Balance(now, t) == Plus(Balance(was, t), a)
    && (forall u :: u != t ==> Balance(now, u) == if Balance(was, t).Some? then Balance(was, u) else None)
  }

  /** No other account and neither maximum nor manager changes; the supply changes by `issued`. */
  predicate OnlyAt(l: Ledger, m: Ledger, ids: set<Identifier>, issued: int) {
    && (forall id :: id in l.accounts && id !in ids ==> id in m.accounts && m.accounts[id] == l.accounts[id])
    && (forall id :: id in m.accounts && id !in ids ==> id in l.accounts)
    && m.circulating == l.circulating + issued && m.max == l.max && m.manager == l.manager
  }

  /******* One account *******/

  lemma CreditSets(acc: Account, t: Token, a: int)
    ensures Credited(acc, Credit(acc, t, a), t, a)
    ensures Credit(acc, t, a).lockup == acc.lockup && Credit(acc, t, a).mandate == acc.mandate
  {
  }

  lemma DebitSets(acc: Account, t: Token, a: int)
    requires Balance(acc, t).Some?
    ensures BalanceSet(acc, Debit(acc, t, a), t, Minus(Balance(acc, t), a))
    ensures Debit(acc, t, a).lockup == acc.lockup && Debit(acc, t, a).mandate == acc.mandate
  {
  }

  lemma LockSets(acc: Account, op: Identifier, t: Token, a: int)
    requires Balance(acc, t).Some?
    ensures var now := Lock(acc, op, t, a);
            && BalanceSet(acc, now, t, Minus(Balance(acc, t), a)) && now.mandate == acc.mandate
            && EntrySet(acc.lockup, now.lockup, op, t, Plus(Entry(acc.lockup, op, t), a))
  {
    DebitSets(acc, t, a);
  }

  lemma LeftSets(m: map<Identifier, Amounts>, op: Identifier, t: Token, rest: Amounts, e: Option<int>)
    requires op in m && (e.Some? ==> t in rest && rest[t] == e.value) && (e.None? ==> t !in rest)
    requires forall u :: u != t ==> (u in rest <==> u in m[op]) && (u in rest ==> rest[u] == m[op][u])
    ensures EntrySet(m, if rest == map[] then m - {op} else m[op := rest], op, t, e)
  {
    var now := if rest == map[] then m - {op} else m[op := rest];
    assert forall u :: u in rest <==> Entry(now, op, u).Some?;
    assert rest != map[] ==> exists u :: u in rest;
    assert forall o, u :: o != op ==> Entry(now, o, u) == Entry(m, o, u);
    assert forall u :: u != t ==> Entry(now, op, u) == Entry(m, op, u);
  }

  lemma LessInSets(m: map<Identifier, Amounts>, op: Identifier, t: Token, a: int)
    requires Entry(m, op, t).Some?
    ensures EntrySet(m, LessIn(m, op, t, a), op, t, Minus(Entry(m, op, t), a))
  {
    LeftSets(m, op, t, Less(In(m, op), t, a), Minus(Entry(m, op, t), a));
    hide EntrySet;
  }

  lemma UnlockSets(acc: Account, op: Identifier, t: Token, a: int)
    requires Entry(acc.lockup, op, t).Some?
    ensures var now := Unlock(acc, op, t, a);
            && EntrySet(acc.lockup, now.lockup, op, t, Minus(Entry(acc.lockup, op, t), a))
            && now.balance == acc.balance && now.mandate == acc.mandate
  {
    LessInSets(acc.lockup, op, t, a);
    hide EntrySet, LessIn;
  }

  lemma DrawSets(acc: Account, op: Identifier, t: Token, a: int)
    requires Entry(acc.mandate, op, t).Some?
    ensures var now := Draw(acc, op, t, a);
            && EntrySet(acc.mandate, now.mandate, op, t, Minus(Entry(acc.mandate, op, t), a))
            && now.balance == acc.balance && now.lockup == acc.lockup
  {
    LessInSets(acc.mandate, op, t, a);
    hide EntrySet, LessIn;
  }

  lemma WithdrawSets(acc: Account, op: Identifier, t: Token)
    requires Entry(acc.mandate, op, t).Some?
    ensures var now := Withdraw(acc, op, t);
            && EntrySet(acc.mandate, now.mandate, op, t, None) && now.balance == acc.balance && now.lockup == acc.lockup
  {
    LeftSets(acc.mandate, op, t, acc.mandate[op] - {t}, None);
    hide EntrySet;
  }

  /** An approval adds to the operator's mandate; an operator without any takes the place of all others. */
  ghost predicate Granted(was: Account, now: Account, op: Identifier, t: Token, a: int) {
    && Entry(now.mandate, op, t) == Plus(Entry(was.mandate, op, t), a)
    && (op in was.mandate ==> EntrySet(was.mandate, now.mandate, op, t, Plus(Entry(was.mandate, op, t), a)))
    && (op !in was.mandate ==>
          now.mandate.Keys == {op} && forall u :: u != t ==> Entry(now.mandate, op, u) == None)
  }

  lemma GrantSets(acc: Account, op: Identifier, t: Token, a: int)
    ensures var now := Grant(acc, op, t, a);
            Granted(acc, now, op, t, a) && now.balance == acc.balance && now.lockup == acc.lockup
  {
    assert Entry(Grant(acc, op, t, a).mandate, op, t).Some?;
  }

  /******* What is accepted *******/

  /** The exact conditions, over the entries. */
  lemma AcceptedIff(l: Ledger, s: Step)
    ensures s.Transfer? ==>
              (Accepted(l, s) <==> s.permitted && s.amount >= 1 && Covers(Balance(Get(l, s.from), s.t), s.amount))
    ensures s.Consume? ==>
              (Accepted(l, s) <==> s.permitted && Covers(Balance(Get(l, s.from), s.t), s.amount)
                                   && Covers(Entry(Get(l, s.from).mandate, s.operator, s.t), s.amount))
    ensures s.Mint? ==>
              (Accepted(l, s) <==> s.permitted && s.amount >= 1 && s.sender == l.manager
                                   && l.circulating + s.amount <= l.max)
    ensures s.Burn? ==>
              (Accepted(l, s) <==> s.permitted && s.amount >= 1 && s.from == l.manager
                                   && Covers(Balance(Get(l, s.from), s.t), s.amount))
    ensures s.LockUp? ==>
              (Accepted(l, s) <==> s.permitted && s.amount >= 1 && Covers(Balance(Get(l, s.from), s.t), s.amount)
                                   && (s.operator in Get(l, s.from).lockup ==>
                                         Entry(Get(l, s.from).lockup, s.operator, s.t).Some?))
    ensures s.Release? ==>
              (Accepted(l, s) <==> s.permitted && Covers(Entry(Get(l, s.from).lockup, s.operator, s.t), s.amount))
    ensures s.Approve? ==>
              (Accepted(l, s) <==> s.permitted && s.amount >= 1 && Covers(Balance(Get(l, s.from), s.t), s.amount))
    ensures s.Revoke? ==>
              (Accepted(l, s) <==> s.permitted && Entry(Get(l, s.from).mandate, s.operator, s.t).Some?)
  {
  }

  /** Nobody but the manager changes the supply. */
  lemma OnlyManagerIssues(l: Ledger, s: Step)
    requires Accepted(l, s) && Apply(l, s).circulating != l.circulating
    ensures (s.Mint? && s.sender == l.manager) || (s.Burn? && s.from == l.manager)
  {
    SupplyStep(l, s);
  }

  /** Over a run the supply stays as it is unless the manager mints or burns. */
  lemma {:induction false} RunManagerIssues(states: seq<Ledger>, steps: seq<Step>, n: nat)
    requires IsRun(states, steps) && n <= |steps|
    requires forall s :: s in steps ==>
               !(s.Mint? && s.sender == states[0].manager) && !(s.Burn? && s.from == states[0].manager)
    ensures states[n].circulating == states[0].circulating && states[n].manager == states[0].manager
  {
    if n > 0 {
      RunManagerIssues(states, steps, n - 1);
      assert steps[n - 1] in steps;
      hide Taken, Accepted, Credits;
      if states[n].circulating != states[n - 1].circulating {
        OnlyManagerIssues(states[n - 1], steps[n - 1]);
      }
      SameManager(states[n - 1], steps[n - 1]);
    }
  }

  lemma SameManager(l: Ledger, s: Step)
    ensures Apply(l, s).manager == l.manager
  {
  }

  /******* The operations *******/

  lemma PutGet(l: Ledger, id: Identifier, acc: Account)
    ensures Get(Put(l, id, acc), id) == acc && OnlyAt(l, Put(l, id, acc), {id}, 0)
    ensures forall other :: other != id ==> Get(Put(l, id, acc), other) == Get(l, other)
  {
  }

  /** A lockup takes the amount off the balance and adds it to what is locked up for the operator. */
  lemma LockUpMoves(l: Ledger, s: Step)
    requires s.LockUp? && Accepted(l, s)
    ensures var m := Apply(l, s);
            var was, now := Get(l, s.from), Get(m, s.from);
            && OnlyAt(l, m, {s.from}, 0) && now.mandate == was.mandate
            && Balance(was, s.t).Some? && BalanceSet(was, now, s.t, Minus(Balance(was, s.t), s.amount))
            && EntrySet(was.lockup, now.lockup, s.operator, s.t, Plus(Entry(was.lockup, s.operator, s.t), s.amount))
  {
    var was := Get(l, s.from);
    LockSets(was, s.operator, s.t, s.amount);
    hide Lock, EntrySet, BalanceSet;
    PutGet(l, s.from, Lock(was, s.operator, s.t, s.amount));
  }

  lemma BurnMoves(l: Ledger, s: Step)
    requires s.Burn? && Accepted(l, s)
    ensures var m := Apply(l, s);
            var was, now := Get(l, s.from), Get(m, s.from);
            && OnlyAt(l, m, {s.from}, -s.amount) && now.mandate == was.mandate && now.lockup == was.lockup
            && Balance(was, s.t).Some? && BalanceSet(was, now, s.t, Minus(Balance(was, s.t), s.amount))
  {
    DebitSets(Get(l, s.from), s.t, s.amount);
    hide Debit, BalanceSet;
  }

  lemma ApproveMoves(l: Ledger, s: Step)
    requires s.Approve? && Accepted(l, s)
    ensures var m := Apply(l, s);
            var was, now := Get(l, s.from), Get(m, s.from);
            && OnlyAt(l, m, {s.from}, 0) && now.balance == was.balance && now.lockup == was.lockup
            && Granted(was, now, s.operator, s.t, s.amount)
  {
    GrantSets(Get(l, s.from), s.operator, s.t, s.amount);
    hide Grant, Granted;
  }

  lemma RevokeMoves(l: Ledger, s: Step)
    requires s.Revoke? && Accepted(l, s)
    ensures var m := Apply(l, s);
            var was, now := Get(l, s.from), Get(m, s.from);
            && OnlyAt(l, m, {s.from}, 0) && now.balance == was.balance && now.lockup == was.lockup
            && EntrySet(was.mandate, now.mandate, s.operator, s.t, None)
  {
    WithdrawSets(Get(l, s.from), s.operator, s.t);
    hide Withdraw, EntrySet;
  }

  lemma MintMoves(l: Ledger, s: Step)
    requires s.Mint? && Accepted(l, s)
    ensures var m := Apply(l, s);
            var was, now := Get(l, s.to), Get(m, s.to);
            && OnlyAt(l, m, {s.to}, s.amount) && now.lockup == was.lockup && now.mandate == was.mandate
            && Credited(was, now, s.t, s.amount)
  {
    CreditSets(Get(l, s.to), s.t, s.amount);
    hide Credit, Credited;
  }

  /** A release takes the amount off what is locked up for the operator and credits the beneficiary. */
  lemma ReleaseMoves(l: Ledger, s: Step)
    requires s.Release? && Accepted(l, s)
    ensures var m := Apply(l, s);
            var was, now := Get(l, s.from), Get(m, s.from);
            && OnlyAt(l, m, {s.from, s.to}, 0)
            && Entry(was.lockup, s.operator, s.t).Some?
            && EntrySet(was.lockup, now.lockup, s.operator, s.t, Minus(Entry(was.lockup, s.operator, s.t), s.amount))
            && now.mandate == was.mandate && Credited(Get(l, s.to), Get(m, s.to), s.t, s.amount)
            && (s.from != s.to ==>
                  && now.balance == was.balance
                  && Get(m, s.to).lockup == Get(l, s.to).lockup && Get(m, s.to).mandate == Get(l, s.to).mandate)
  {
    UnlockSets(Get(l, s.from), s.operator, s.t, s.amount);
    var m := Taken(l, s);
    PutGet(l, s.from, Unlock(Get(l, s.from), s.operator, s.t, s.amount));
    CreditSets(Get(m, s.to), s.t, s.amount);
    hide Unlock, Credit;
    PutGet(m, s.to, Credit(Get(m, s.to), s.t, s.amount));
  }

  /** The balances of an amount that moves. Between two accounts one is debited and the other credited; within one
      the entry stays, and the others are wiped exactly if the amount was all of it. */
  ghost predicate Moved(l: Ledger, m: Ledger, from: Identifier, to: Identifier, t: Token, a: int) {
    var was, now := Get(l, from), Get(m, from);
    && Balance(was, t).Some?
    && (from != to ==>
          && BalanceSet(was, now, t, Minus(Balance(was, t), a))
          && Credited(Get(l, to), Get(m, to), t, a)
          && Get(m, to).lockup == Get(l, to).lockup && Get(m, to).mandate == Get(l, to).mandate)
    && (from == to ==>
          && Balance(now, t) == Balance(was, t)
          && forall u :: u != t ==> Balance(now, u) == if Balance(was, t).value == a then None else Balance(was, u))
  }

  lemma MovedBetween(l: Ledger, mid: Ledger, from: Identifier, to: Identifier, t: Token, a: int)
    requires var was, left := Get(l, from), Get(mid, from);
             Balance(was, t).Some? && BalanceSet(was, left, t, Minus(Balance(was, t), a))
    requires OnlyAt(l, mid, {from}, 0)
    ensures var m := Put(mid, to, Credit(Get(mid, to), t, a));
            && Moved(l, m, from, to, t, a) && OnlyAt(l, m, {from, to}, 0)
            && Get(m, from).lockup == Get(mid, from).lockup && Get(m, from).mandate == Get(mid, from).mandate
  {
    PutGet(mid, to, Credit(Get(mid, to), t, a));
    CreditSets(Get(mid, to), t, a);
    hide Credit;
    assert from != to ==> Get(mid, to) == Get(l, to);
  }

  /** A transfer moves the amount and touches neither lockups nor mandates. */
  lemma TransferMoves(l: Ledger, s: Step)
    requires s.Transfer? && Accepted(l, s)
    ensures var m := Apply(l, s);
            var was, now := Get(l, s.from), Get(m, s.from);
            && OnlyAt(l, m, {s.from, s.to}, 0) && Moved(l, m, s.from, s.to, s.t, s.amount)
            && now.lockup == was.lockup && now.mandate == was.mandate
  {
    var left := Debit(Get(l, s.from), s.t, s.amount);
    DebitSets(Get(l, s.from), s.t, s.amount);
    PutGet(l, s.from, left);
    hide Debit, BalanceSet, Moved;
    MovedBetween(l, Put(l, s.from, left), s.from, s.to, s.t, s.amount);
  }

  /** Consuming a mandate moves the amount and takes it off what the operator may draw. */
  lemma ConsumeMoves(l: Ledger, s: Step)
    requires s.Consume? && Accepted(l, s)
    ensures var m := Apply(l, s);
            var was, now := Get(l, s.from), Get(m, s.from);
            && OnlyAt(l, m, {s.from, s.to}, 0) && Moved(l, m, s.from, s.to, s.t, s.amount)
            && now.lockup == was.lockup && Entry(was.mandate, s.operator, s.t).Some?
            && EntrySet(was.mandate, now.mandate, s.operator, s.t,
                        Minus(Entry(was.mandate, s.operator, s.t), s.amount))
  {
    var was := Get(l, s.from);
    var drawn := Draw(was, s.operator, s.t, s.amount);
    var left := Debit(drawn, s.t, s.amount);
    DrawSets(was, s.operator, s.t, s.amount);
    DebitSets(drawn, s.t, s.amount);
    PutGet(l, s.from, left);
    hide Debit, Draw, EntrySet, Moved;
    MovedBetween(l, Put(l, s.from, left), s.from, s.to, s.t, s.amount);
  }
}
