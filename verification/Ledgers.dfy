/** Balances, lockups and mandates of one asset, across accounts and token ids. */
module Ledgers {
  import opened Foundation

  type Token = nat

  type Amounts = map<Token, int>

  /** What an account keeps of the asset. */
  datatype Account = Account(balance: Amounts, lockup: map<Identifier, Amounts>, mandate: map<Identifier, Amounts>)

  const NO_ACCOUNT := Account(map[], map[], map[])

  function At(m: Amounts, t: Token): int {
    if t in m then m[t] else 0
  }

  function In(m: map<Identifier, Amounts>, id: Identifier): Amounts {
    if id in m then m[id] else map[]
  }

  function More(m: Amounts, t: Token, a: int): Amounts {
    m[t := At(m, t) + a]
  }

  /** The amounts with one entry changed by `a`; an entry of zero is removed. */
  function Less(m: Amounts, t: Token, a: int): Amounts {
    if At(m, t) - a == 0 then m - {t} else m[t := At(m, t) - a]
  }

  /** The same under an identifier, which goes with its last entry. */
  function LessIn(m: map<Identifier, Amounts>, id: Identifier, t: Token, a: int): map<Identifier, Amounts> {
    var rest := Less(In(m, id), t, a);
    if rest == map[] then m - {id} else m[id := rest]
  }

  /******* One account *******/

  /** An entry for a token that was absent replaces all others. */
  function Credit(acc: Account, t: Token, a: int): Account {
    acc.(balance := if t in acc.balance then More(acc.balance, t, a) else More(map[], t, a))
  }

  function Debit(acc: Account, t: Token, a: int): Account {
    acc.(balance := Less(acc.balance, t, a))
  }

  function Lock(acc: Account, id: Identifier, t: Token, a: int): Account {
    acc.(balance := Less(acc.balance, t, a),
         lockup := acc.lockup[id := More(In(acc.lockup, id), t, a)])
  }

  function Unlock(acc: Account, id: Identifier, t: Token, a: int): Account {
    acc.(lockup := LessIn(acc.lockup, id, t, a))
  }

  /** A mandate for an operator without one replaces all others. */
  function Grant(acc: Account, id: Identifier, t: Token, a: int): Account {
    acc.(mandate := if id in acc.mandate then acc.mandate[id := More(acc.mandate[id], t, a)]
                    else map[id := More(map[], t, a)])
  }

  function Draw(acc: Account, id: Identifier, t: Token, a: int): Account {
    acc.(mandate := LessIn(acc.mandate, id, t, a))
  }

  function Withdraw(acc: Account, id: Identifier, t: Token): Account {
    acc.(mandate := if In(acc.mandate, id) - {t} == map[] then acc.mandate - {id}
                    else acc.mandate[id := acc.mandate[id] - {t}])
  }

  /** One token's amount under every identifier. */
  function Column(m: map<Identifier, Amounts>, t: Token): map<Identifier, int> {
    map id | id in m :: At(m[id], t)
  }

  ghost function LockedUp(acc: Account, t: Token): int {
    SumMap(Column(acc.lockup, t))
  }

  ghost function Held(acc: Account, t: Token): int {
    At(acc.balance, t) + LockedUp(acc, t)
  }

  lemma LessAt(m: Amounts, t: Token, a: int, u: Token)
    ensures At(Less(m, t, a), u) == At(m, u) - (if u == t then a else 0)
  {
  }

  /** Setting what one identifier has changes the sum by the difference. */
  lemma ColumnSet(m: map<Identifier, Amounts>, id: Identifier, x: Amounts, t: Token)
    ensures SumMap(Column(m[id := x], t)) == SumMap(Column(m, t)) + At(x, t) - At(In(m, id), t)
  {
    SumMapUpdate(Column(m, t), id, At(x, t));
    assert Column(m[id := x], t) == Column(m, t)[id := At(x, t)];
  }

  lemma ColumnGone(m: map<Identifier, Amounts>, id: Identifier, t: Token)
    ensures SumMap(Column(m - {id}, t)) == SumMap(Column(m, t)) - At(In(m, id), t)
  {
    if id in m {
      SumMapRemove(Column(m, t), id);
      assert Column(m - {id}, t) == Column(m, t) - {id};
    } else {
      assert m - {id} == m;
    }
  }

  lemma CreditHeld(acc: Account, t: Token, a: int, u: Token)
    ensures Held(Credit(acc, t, a), u) ==
            Held(acc, u) + (if u == t then a else if t in acc.balance then 0 else -At(acc.balance, u))
  {
  }

  lemma DebitHeld(acc: Account, t: Token, a: int, u: Token)
    ensures Held(Debit(acc, t, a), u) == Held(acc, u) - (if u == t then a else 0)
  {
    LessAt(acc.balance, t, a, u);
  }

  lemma LockHeld(acc: Account, id: Identifier, t: Token, a: int, u: Token)
    ensures Held(Lock(acc, id, t, a), u) == Held(acc, u)
  {
    LessAt(acc.balance, t, a, u);
    ColumnSet(acc.lockup, id, More(In(acc.lockup, id), t, a), u);
  }

  lemma UnlockHeld(acc: Account, id: Identifier, t: Token, a: int, u: Token)
    ensures Held(Unlock(acc, id, t, a), u) == Held(acc, u) - (if u == t then a else 0)
  {
    var rest := Less(In(acc.lockup, id), t, a);
    LessAt(In(acc.lockup, id), t, a, u);
    if rest == map[] {
      ColumnGone(acc.lockup, id, u);
    } else {
      ColumnSet(acc.lockup, id, rest, u);
    }
  }

  lemma MandatesHoldNothing(acc: Account, mandate: map<Identifier, Amounts>, u: Token)
    ensures Held(acc.(mandate := mandate), u) == Held(acc, u)
  {
  }

  /******* All accounts *******/

  /** The accounts of the asset, its supply and who manages it. */
  datatype Ledger = Ledger(accounts: map<Identifier, Account>, circulating: int, max: int, manager: Identifier)

  function Get(l: Ledger, id: Identifier): Account {
    if id in l.accounts then l.accounts[id] else NO_ACCOUNT
  }

  function Put(l: Ledger, id: Identifier, acc: Account): Ledger {
    l.(accounts := l.accounts[id := acc])
  }

  ghost function Book(l: Ledger, t: Token): map<Identifier, int> {
    map id | id in l.accounts :: Held(l.accounts[id], t)
  }

  /** Everything the accounts hold of a token, locked up or not. */
  ghost function Holdings(l: Ledger, t: Token): int {
    SumMap(Book(l, t))
  }

  lemma PutHoldings(l: Ledger, id: Identifier, acc: Account, t: Token)
    ensures Holdings(Put(l, id, acc), t) == Holdings(l, t) + Held(acc, t) - Held(Get(l, id), t)
  {
    hide Held;
    SumMapUpdate(Book(l, t), id, Held(acc, t));
    assert Book(Put(l, id, acc), t) == Book(l, t)[id := Held(acc, t)];
    NothingHeld(t);
  }

  lemma NothingHeld(t: Token)
    ensures Held(NO_ACCOUNT, t) == 0
  {
    assert Column(NO_ACCOUNT.lockup, t) == map[];
  }

  /** The operations of the asset engine. `permitted` stands for what is looked up elsewhere: access, the
      registration of the beneficiary, and for a mandate that it has not expired. */
  datatype Step =
    | Transfer(permitted: bool, from: Identifier, to: Identifier, t: Token, amount: int)
    | Consume(permitted: bool, operator: Identifier, from: Identifier, to: Identifier, t: Token, amount: int)
    | Mint(permitted: bool, sender: Identifier, to: Identifier, t: Token, amount: int)
    | Burn(permitted: bool, from: Identifier, t: Token, amount: int)
    | LockUp(permitted: bool, from: Identifier, operator: Identifier, t: Token, amount: int)
    | Release(permitted: bool, operator: Identifier, from: Identifier, to: Identifier, t: Token, amount: int)
    | Approve(permitted: bool, from: Identifier, operator: Identifier, t: Token, amount: int)
    | Revoke(permitted: bool, from: Identifier, operator: Identifier, t: Token)

  predicate HasBalance(l: Ledger, id: Identifier, t: Token, a: int) {
    t in Get(l, id).balance && Get(l, id).balance[t] >= a
  }

  /** What the engine tests before it moves anything. Consuming a mandate and releasing a lockup have no
      lower bound on the amount. */
  predicate Validated(l: Ledger, s: Step) {
    s.permitted &&
    match s
    case Transfer(_, from, _, t, a) => a >= 1 && HasBalance(l, from, t, a)
    case Consume(_, op, from, _, t, a) =>
      HasBalance(l, from, t, a) && t in In(Get(l, from).mandate, op) && Get(l, from).mandate[op][t] >= a
    case Mint(_, sender, _, _, a) => a >= 1 && sender == l.manager && l.circulating + a <= l.max
    case Burn(_, from, t, a) => a >= 1 && from == l.manager && HasBalance(l, from, t, a)
    case LockUp(_, from, _, t, a) => a >= 1 && HasBalance(l, from, t, a)
    case Release(_, op, from, _, t, a) => t in In(Get(l, from).lockup, op) && Get(l, from).lockup[op][t] >= a
    case Approve(_, from, _, t, a) => a >= 1 && HasBalance(l, from, t, a)
    case Revoke(_, from, op, t) => t in In(Get(l, from).mandate, op)
  }

  /** A lockup for a beneficiary that has one, but not in this token, meets a nil entry. */
  predicate Crashes(l: Ledger, s: Step) {
    s.LockUp? && s.operator in Get(l, s.from).lockup && s.t !in Get(l, s.from).lockup[s.operator]
  }

  /** The smallest case: an operator with a lockup in token 1 is to get one in token 2. */
  lemma OtherTokenCrashes(from: Identifier, op: Identifier)
    ensures var l := Ledger(map[from := Account(map[2 := 5], map[op := map[1 := 3]], map[])], 8, 8, from);
            var s := LockUp(true, from, op, 2, 5);
            Validated(l, s) && Crashes(l, s)
  {
    var acc := Account(map[2 := 5], map[op := map[1 := 3]], map[]);
    assert Get(Ledger(map[from := acc], 8, 8, from), from) == acc;
  }

  predicate Accepted(l: Ledger, s: Step) {
    Validated(l, s) && !Crashes(l, s)
  }

  /** The ledger once the amount has left the account it comes from. */
  function Taken(l: Ledger, s: Step): Ledger {
    match s
    case Transfer(_, from, _, t, a) => Put(l, from, Debit(Get(l, from), t, a))
    case Consume(_, op, from, _, t, a) => Put(l, from, Debit(Draw(Get(l, from), op, t, a), t, a))
    case Mint(_, _, _, _, a) => l.(circulating := l.circulating + a)
    case Burn(_, from, t, a) => Put(l, from, Debit(Get(l, from), t, a)).(circulating := l.circulating - a)
    case LockUp(_, from, op, t, a) => Put(l, from, Lock(Get(l, from), op, t, a))
    case Release(_, op, from, _, t, a) => Put(l, from, Unlock(Get(l, from), op, t, a))
    case Approve(_, from, op, t, a) => Put(l, from, Grant(Get(l, from), op, t, a))
    case Revoke(_, from, op, t) => Put(l, from, Withdraw(Get(l, from), op, t))
  }

  predicate Credits(s: Step) {
    s.Transfer? || s.Consume? || s.Mint? || s.Release?
  }

  function Apply(l: Ledger, s: Step): Ledger {
    var m := Taken(l, s);
    if Credits(s) then Put(m, s.to, Credit(Get(m, s.to), s.t, s.amount)) else m
  }

  /** What the operation takes off its token's holdings before it credits. */
  function Outflow(s: Step): int {
    if s.Transfer? || s.Consume? || s.Burn? || s.Release? then s.amount else 0
  }

  /** What the operation creates or destroys. */
  function Issued(s: Step): int {
    if s.Mint? then s.amount else if s.Burn? then -s.amount else 0
  }

  /** What a credit overwrites of another token. */
  function Overwritten(l: Ledger, s: Step, u: Token): int {
    if Credits(s) && u != s.t && s.t !in Get(Taken(l, s), s.to).balance
    then At(Get(Taken(l, s), s.to).balance, u) else 0
  }

  lemma SupplyHoldsNothing(l: Ledger, circulating: int, u: Token)
    ensures Holdings(l.(circulating := circulating), u) == Holdings(l, u)
  {
    assert Book(l.(circulating := circulating), u) == Book(l, u);
  }

  lemma TakenHoldings(l: Ledger, s: Step, u: Token)
    ensures Holdings(Taken(l, s), u) == Holdings(l, u) - (if u == s.t then Outflow(s) else 0)
  {
    if s.Mint? {
      SupplyHoldsNothing(l, l.circulating + s.amount, u);
      return;
    }
    var acc := Get(l, s.from);
    hide Holdings, Held, Lock, Unlock, Grant, Withdraw, Less;
    match s
    case Transfer(_, from, _, t, a) =>
      DebitHeld(acc, t, a, u);
      PutHoldings(l, from, Debit(acc, t, a), u);
    case Consume(_, op, from, _, t, a) =>
      MandatesHoldNothing(acc, Draw(acc, op, t, a).mandate, u);
      DebitHeld(Draw(acc, op, t, a), t, a, u);
      PutHoldings(l, from, Debit(Draw(acc, op, t, a), t, a), u);
    case Burn(_, from, t, a) =>
      DebitHeld(acc, t, a, u);
      PutHoldings(l, from, Debit(acc, t, a), u);
      SupplyHoldsNothing(Put(l, from, Debit(acc, t, a)), l.circulating - a, u);
    case LockUp(_, from, op, t, a) =>
      LockHeld(acc, op, t, a, u);
      PutHoldings(l, from, Lock(acc, op, t, a), u);
    case Release(_, op, from, _, t, a) =>
      UnlockHeld(acc, op, t, a, u);
      PutHoldings(l, from, Unlock(acc, op, t, a), u);
    case Approve(_, from, op, t, a) =>
      GrantHeld(acc, op, t, a, u);
      PutHoldings(l, from, Grant(acc, op, t, a), u);
    case Revoke(_, from, op, t) =>
      WithdrawHeld(acc, op, t, u);
      PutHoldings(l, from, Withdraw(acc, op, t), u);
  }

  lemma GrantHeld(acc: Account, id: Identifier, t: Token, a: int, u: Token)
    ensures Held(Grant(acc, id, t, a), u) == Held(acc, u)
  {
    MandatesHoldNothing(acc, Grant(acc, id, t, a).mandate, u);
  }

  lemma WithdrawHeld(acc: Account, id: Identifier, t: Token, u: Token)
    ensures Held(Withdraw(acc, id, t), u) == Held(acc, u)
  {
    MandatesHoldNothing(acc, Withdraw(acc, id, t).mandate, u);
  }

  /** Every operation changes a token's holdings by what it issues and by what its credit overwrites. */
  lemma StepHoldings(l: Ledger, s: Step, u: Token)
    ensures Holdings(Apply(l, s), u) == Holdings(l, u) + (if u == s.t then Issued(s) else 0) - Overwritten(l, s, u)
  {
    TakenHoldings(l, s, u);
    if Credits(s) {
      var m := Taken(l, s);
      CreditHeld(Get(m, s.to), s.t, s.amount, u);
      PutHoldings(m, s.to, Credit(Get(m, s.to), s.t, s.amount), u);
    }
  }

  /******* Runs *******/

  ghost predicate IsRun(states: seq<Ledger>, steps: seq<Step>) {
    && |states| == |steps| + 1
    && forall i :: 0 <= i < |steps| ==> Accepted(states[i], steps[i]) && states[i + 1] == Apply(states[i], steps[i])
  }

  /** What a run issues of a token. */
  function IssuedOf(steps: seq<Step>, n: nat, u: Token): int
    requires n <= |steps|
  {
    if n == 0 then 0 else IssuedOf(steps, n - 1, u) + (if steps[n - 1].t == u then Issued(steps[n - 1]) else 0)
  }

  /** What a run overwrites of a token. */
  function OverwrittenOf(states: seq<Ledger>, steps: seq<Step>, n: nat, u: Token): int
    requires n <= |steps| < |states|
  {
    if n == 0 then 0 else OverwrittenOf(states, steps, n - 1, u) + Overwritten(states[n - 1], steps[n - 1], u)
  }

  /** Over every run a token's holdings change by exactly what is issued and what is overwritten. */
  lemma {:induction false} RunHoldings(states: seq<Ledger>, steps: seq<Step>, n: nat, u: Token)
    requires IsRun(states, steps) && n <= |steps|
    ensures Holdings(states[n], u) ==
            Holdings(states[0], u) + IssuedOf(steps, n, u) - OverwrittenOf(states, steps, n, u)
  {
    hide Holdings, Accepted, Overwritten, Apply;
    if n > 0 {
      RunHoldings(states, steps, n - 1, u);
      StepHoldings(states[n - 1], steps[n - 1], u);
    }
  }

  /** With one token id, only mints and burns change the holdings, and the supply follows them. */
  lemma {:induction false} RunConserves(states: seq<Ledger>, steps: seq<Step>, n: nat, u: Token)
    requires IsRun(states, steps) && n <= |steps| && forall s :: s in steps ==> s.t == u
    ensures Holdings(states[n], u) == Holdings(states[0], u) + IssuedOf(steps, n, u)
    ensures Holdings(states[n], u) - states[n].circulating == Holdings(states[0], u) - states[0].circulating
    ensures states[0].circulating <= states[0].max ==> states[n].circulating <= states[n].max
  {
    hide Holdings;
    if n > 0 {
      RunConserves(states, steps, n - 1, u);
      StepHoldings(states[n - 1], steps[n - 1], u);
      SupplyStep(states[n - 1], steps[n - 1]);
      assert steps[n - 1] in steps;
      hide Accepted, Apply;
    }
  }

  lemma SupplyStep(l: Ledger, s: Step)
    requires Accepted(l, s)
    ensures Apply(l, s).circulating == l.circulating + Issued(s) && Apply(l, s).max == l.max
    ensures l.circulating <= l.max ==> Apply(l, s).circulating <= l.max
  {
  }

  /** The operation takes the amount from the very balance it credits. */
  predicate TakesFromTarget(s: Step) {
    (s.Transfer? || s.Consume?) && s.from == s.to
  }

  lemma CreditedBalance(l: Ledger, s: Step)
    requires Credits(s)
    ensures Get(Taken(l, s), s.to).balance ==
            if TakesFromTarget(s) then Less(Get(l, s.to).balance, s.t, s.amount) else Get(l, s.to).balance
  {
    hide Less, LessIn;
  }

  /** The account to be credited keeps its other tokens: it has the operation's token, and keeps some of it
      where the operation also takes from it. */
  predicate KeepsEntry(l: Ledger, s: Step)
    requires Credits(s)
  {
    if TakesFromTarget(s) then At(Get(l, s.to).balance, s.t) != s.amount else s.t in Get(l, s.to).balance
  }

  /** With several, an operation keeps another token's holdings exactly if the account it credits keeps its
      entries or has none of the other token. */
  lemma OtherTokenKept(l: Ledger, s: Step, u: Token)
    requires u != s.t
    ensures Holdings(Apply(l, s), u) == Holdings(l, u) <==>
            (Credits(s) ==> KeepsEntry(l, s) || At(Get(l, s.to).balance, u) == 0)
  {
    StepHoldings(l, s, u);
    if Credits(s) {
      CreditedBalance(l, s);
      LessAt(Get(l, s.to).balance, s.t, s.amount, u);
    }
    hide Holdings, Apply, Taken;
  }

  /** A transfer of token 1 to an account that has only token 2 wipes that out. */
  lemma CreditWipes(from: Identifier, to: Identifier)
    requires from != to
    ensures var acc, other := Account(map[1 := 5], map[], map[]), Account(map[2 := 7], map[], map[]);
            var l := Ledger(map[from := acc, to := other], 12, 12, from);
            var s := Transfer(true, from, to, 1, 5);
            Accepted(l, s) && Get(Apply(l, s), to).balance == map[1 := 5] &&
            Holdings(Apply(l, s), 2) == Holdings(l, 2) - 7
  {
    var acc, other := Account(map[1 := 5], map[], map[]), Account(map[2 := 7], map[], map[]);
    var l := Ledger(map[from := acc, to := other], 12, 12, from);
    var s := Transfer(true, from, to, 1, 5);
    assert Get(l, from).balance[1] == 5 && Get(Taken(l, s), to).balance == map[2 := 7];
    StepHoldings(l, s, 2);
  }

  /******* No debts *******/

  predicate NoDebtIn(m: Amounts) {
    forall t :: t in m ==> m[t] >= 0
  }

  predicate NoDebt(acc: Account) {
    && NoDebtIn(acc.balance)
    && (forall id :: id in acc.lockup ==> NoDebtIn(acc.lockup[id]))
    && (forall id :: id in acc.mandate ==> NoDebtIn(acc.mandate[id]))
  }

  predicate NoDebts(l: Ledger) {
    forall id :: id in l.accounts ==> NoDebt(l.accounts[id])
  }

  lemma TakenNoDebts(l: Ledger, s: Step)
    requires NoDebts(l) && Accepted(l, s)
    ensures NoDebts(Taken(l, s))
  {
    assert NoDebt(NO_ACCOUNT);
    if !s.Mint? {
      TakenNoDebt(Get(l, s.from), l, s);
    }
  }

  lemma TakenNoDebt(acc: Account, l: Ledger, s: Step)
    requires NoDebt(acc) && Accepted(l, s) && !s.Mint? && acc == Get(l, s.from)
    ensures NoDebt(Taken(l, s).accounts[s.from])
  {
  }

  /** An operation leaves no entry negative exactly if it gives back what it takes or the balance it credits
      is not driven below zero. */
  lemma StepNoDebts(l: Ledger, s: Step)
    requires NoDebts(l) && Accepted(l, s)
    ensures NoDebts(Apply(l, s)) <==>
            (Credits(s) ==> TakesFromTarget(s) || At(Get(l, s.to).balance, s.t) + s.amount >= 0)
  {
    TakenNoDebts(l, s);
    if Credits(s) {
      CreditedBalance(l, s);
      LessAt(Get(l, s.to).balance, s.t, s.amount, s.t);
      AmountIsNoDebt(l, s.to, s.t);
      var m := Taken(l, s);
      hide Taken, Accepted;
      assert NoDebt(NO_ACCOUNT);
      CreditNoDebt(Get(m, s.to), s.t, s.amount);
      hide NoDebt, Credit;
      assert Apply(l, s).accounts[s.to] == Credit(Get(m, s.to), s.t, s.amount);
    }
  }

  /** An operator with a mandate consumes a negative amount: the beneficiary, who has nothing, owes it. */
  lemma NegativeConsume(op: Identifier, from: Identifier, victim: Identifier)
    requires from != victim
    ensures var l := Ledger(map[from := Account(map[0 := 10], map[], map[op := map[0 := 10]])], 10, 100, op);
            var s := Consume(true, op, from, victim, 0, -5);
            && NoDebts(l) && Accepted(l, s) && !NoDebts(Apply(l, s))
            && Get(Apply(l, s), victim).balance == map[0 := -5] && At(Get(Apply(l, s), from).balance, 0) == 15
  {
    var acc := Account(map[0 := 10], map[], map[op := map[0 := 10]]);
    var l := Ledger(map[from := acc], 10, 100, op);
    var s := Consume(true, op, from, victim, 0, -5);
    assert Get(l, from) == acc && acc.balance[0] == 10 && acc.mandate[op][0] == 10;
    assert Get(Taken(l, s), victim) == NO_ACCOUNT;
    assert Apply(l, s).accounts[victim].balance[0] == -5;
  }

  lemma AmountIsNoDebt(l: Ledger, id: Identifier, t: Token)
    requires NoDebts(l)
    ensures At(Get(l, id).balance, t) >= 0
  {
    assert id in l.accounts ==> NoDebt(l.accounts[id]);
  }

  lemma CreditNoDebt(acc: Account, t: Token, a: int)
    requires NoDebt(acc)
    ensures NoDebt(Credit(acc, t, a)) <==> At(acc.balance, t) + a >= 0
  {
    assert Credit(acc, t, a).balance[t] == At(acc.balance, t) + a;
  }

  /** So none turns negative while amounts are not. */
  lemma {:induction false} RunNoDebts(states: seq<Ledger>, steps: seq<Step>, n: nat)
    requires IsRun(states, steps) && n <= |steps| && NoDebts(states[0])
    requires forall s :: s in steps && Credits(s) ==> s.amount >= 0
    ensures NoDebts(states[n])
  {
    if n > 0 {
      RunNoDebts(states, steps, n - 1);
      var l, s := states[n - 1], steps[n - 1];
      StepNoDebts(l, s);
      assert s in steps;
      if Credits(s) {
        AmountIsNoDebt(l, s.to, s.t);
      }
    }
  }

  /******* Mandates *******/

  /** What an operator may still draw from an account's token. */
  function Remaining(l: Ledger, from: Identifier, op: Identifier, t: Token): int {
    At(In(Get(l, from).mandate, op), t)
  }

  predicate Concerns(s: Step, from: Identifier, op: Identifier, t: Token) {
    (s.Approve? || s.Consume? || s.Revoke?) && s.from == from && s.operator == op && s.t == t
  }

  function Approved(s: Step, from: Identifier, op: Identifier, t: Token): int {
    if s.Approve? && Concerns(s, from, op, t) then s.amount else 0
  }

  function Drawn(s: Step, from: Identifier, op: Identifier, t: Token): int {
    if s.Consume? && Concerns(s, from, op, t) then s.amount else 0
  }

  /** A mandate ends when it is revoked, or when the account approves an operator that has none. */
  predicate Ends(l: Ledger, s: Step, from: Identifier, op: Identifier, t: Token) {
    || (s.Revoke? && Concerns(s, from, op, t))
    || (s.Approve? && s.from == from && s.operator != op && s.operator !in Get(l, from).mandate)
  }

  lemma CreditKeepsMandates(l: Ledger, s: Step, from: Identifier)
    ensures Get(Apply(l, s), from).mandate == Get(Taken(l, s), from).mandate
  {
    hide Taken;
  }

  lemma LessInAt(m: map<Identifier, Amounts>, id: Identifier, t: Token, a: int, op: Identifier, u: Token)
    ensures At(In(LessIn(m, id, t, a), op), u) == At(In(m, op), u) - (if op == id && u == t then a else 0)
  {
    LessAt(In(m, id), t, a, u);
  }

  lemma WithdrawnAt(acc: Account, id: Identifier, t: Token, op: Identifier, u: Token)
    ensures At(In(Withdraw(acc, id, t).mandate, op), u) == if op == id && u == t then 0 else At(In(acc.mandate, op), u)
  {
    assert op == id && u != t ==> At(In(acc.mandate, id) - {t}, u) == At(In(acc.mandate, id), u);
  }

  lemma GrantedAt(acc: Account, id: Identifier, t: Token, a: int, op: Identifier, u: Token)
    ensures At(In(Grant(acc, id, t, a).mandate, op), u) ==
            (if op != id && id !in acc.mandate then 0 else At(In(acc.mandate, op), u))
            + (if op == id && u == t then a else 0)
  {
  }

  /** An operation changes a mandate by what is approved and what is drawn, unless it ends it. */
  lemma StepRemaining(l: Ledger, s: Step, from: Identifier, op: Identifier, t: Token)
    ensures Remaining(Apply(l, s), from, op, t) ==
            if Ends(l, s, from, op, t) then 0
            else Remaining(l, from, op, t) + Approved(s, from, op, t) - Drawn(s, from, op, t)
  {
    CreditKeepsMandates(l, s, from);
    hide Apply, LessIn, Grant, Withdraw, At, In;
    if !s.Mint? && s.from == from {
      var acc := Get(l, from);
      match s
      case Consume(_, o, _, _, u, a) => LessInAt(acc.mandate, o, u, a, op, t);
      case Approve(_, _, o, u, a) => GrantedAt(acc, o, u, a, op, t);
      case Revoke(_, _, o, u) => WithdrawnAt(acc, o, u, op, t);
      case _ =>
    }
  }

  function ApprovedBy(steps: seq<Step>, n: nat, from: Identifier, op: Identifier, t: Token): int
    requires n <= |steps|
  {
    if n == 0 then 0 else ApprovedBy(steps, n - 1, from, op, t) + Approved(steps[n - 1], from, op, t)
  }

  function DrawnBy(steps: seq<Step>, n: nat, from: Identifier, op: Identifier, t: Token): int
    requires n <= |steps|
  {
    if n == 0 then 0 else DrawnBy(steps, n - 1, from, op, t) + Drawn(steps[n - 1], from, op, t)
  }

  /** What an operator has drawn in positive amounts. */
  function TakenBy(steps: seq<Step>, n: nat, from: Identifier, op: Identifier, t: Token): nat
    requires n <= |steps|
  {
    if n == 0 then 0
    else
      var d := Drawn(steps[n - 1], from, op, t);
      TakenBy(steps, n - 1, from, op, t) + (if d > 0 then d else 0)
  }

  /** What it has put back by drawing negative amounts. */
  function PutBackBy(steps: seq<Step>, n: nat, from: Identifier, op: Identifier, t: Token): nat
    requires n <= |steps|
  {
    if n == 0 then 0
    else
      var d := Drawn(steps[n - 1], from, op, t);
      PutBackBy(steps, n - 1, from, op, t) + (if d < 0 then -d else 0)
  }

  lemma {:induction false} TakenLessPutBack(steps: seq<Step>, n: nat, from: Identifier, op: Identifier, t: Token)
    requires n <= |steps|
    ensures DrawnBy(steps, n, from, op, t) == TakenBy(steps, n, from, op, t) - PutBackBy(steps, n, from, op, t)
    ensures PutBackBy(steps, n, from, op, t) == 0 <==> forall i :: 0 <= i < n ==> Drawn(steps[i], from, op, t) >= 0
  {
    if n > 0 {
      TakenLessPutBack(steps, n - 1, from, op, t);
    }
  }

  /** Over every run, what an operator has drawn and may still draw is at most what it was approved and what
      it put back itself. */
  lemma {:induction false} RunWithinMandate(states: seq<Ledger>, steps: seq<Step>, n: nat,
                                            from: Identifier, op: Identifier, t: Token)
    requires IsRun(states, steps) && n <= |steps| && Remaining(states[0], from, op, t) >= 0
    ensures Remaining(states[n], from, op, t) >= 0
    ensures DrawnBy(steps, n, from, op, t) + Remaining(states[n], from, op, t) <=
            Remaining(states[0], from, op, t) + ApprovedBy(steps, n, from, op, t)
    ensures TakenBy(steps, n, from, op, t) + Remaining(states[n], from, op, t) <=
            Remaining(states[0], from, op, t) + ApprovedBy(steps, n, from, op, t) + PutBackBy(steps, n, from, op, t)
  {
    if n > 0 {
      RunWithinMandate(states, steps, n - 1, from, op, t);
      StepRemaining(states[n - 1], steps[n - 1], from, op, t);
    }
  }

  /** It is exactly that while nothing ends the mandate. */
  lemma {:induction false} RunOnMandate(states: seq<Ledger>, steps: seq<Step>, n: nat,
                                        from: Identifier, op: Identifier, t: Token)
    requires IsRun(states, steps) && n <= |steps|
    requires forall i :: 0 <= i < n ==> !Ends(states[i], steps[i], from, op, t)
    ensures DrawnBy(steps, n, from, op, t) + Remaining(states[n], from, op, t) ==
            Remaining(states[0], from, op, t) + ApprovedBy(steps, n, from, op, t)
  {
    if n > 0 {
      RunOnMandate(states, steps, n - 1, from, op, t);
      StepRemaining(states[n - 1], steps[n - 1], from, op, t);
    }
  }

  /** So then what it has drawn in positive amounts and may still draw is within what it was approved exactly
      if it has drawn no negative amount. */
  lemma TakenWithinApprovedIff(states: seq<Ledger>, steps: seq<Step>, n: nat, from: Identifier, op: Identifier,
                               t: Token)
    requires IsRun(states, steps) && n <= |steps|
    requires forall i :: 0 <= i < n ==> !Ends(states[i], steps[i], from, op, t)
    ensures TakenBy(steps, n, from, op, t) + Remaining(states[n], from, op, t) <=
            Remaining(states[0], from, op, t) + ApprovedBy(steps, n, from, op, t) <==>
            forall i :: 0 <= i < n ==> Drawn(steps[i], from, op, t) >= 0
  {
    RunOnMandate(states, steps, n, from, op, t);
    TakenLessPutBack(steps, n, from, op, t);
  }

  /** An operator approved for 10 puts back 5 and draws 15. */
  lemma DrawnBeyondApproved(from: Identifier, op: Identifier, to: Identifier)
    requires from != to
    ensures var l0 := Ledger(map[from := NO_ACCOUNT.(balance := map[0 := 10])], 10, 10, from);
            var s1, s2 := Approve(true, from, op, 0, 10), Consume(true, op, from, to, 0, -5);
            var s3 := Consume(true, op, from, to, 0, 15);
            var l1 := Apply(l0, s1);
            var l2 := Apply(l1, s2);
            Remaining(l0, from, op, 0) == 0 && Accepted(l0, s1) && Accepted(l1, s2) && Accepted(l2, s3)
  {
    var l0 := Ledger(map[from := NO_ACCOUNT.(balance := map[0 := 10])], 10, 10, from);
    var s1, s2 := Approve(true, from, op, 0, 10), Consume(true, op, from, to, 0, -5);
    var l1 := Apply(l0, s1);
    assert Get(l0, from).balance[0] == 10;
    assert Get(l1, from) == Account(map[0 := 10], map[], map[op := map[0 := 10]]);
    var l2 := Apply(l1, s2);
    assert Get(l2, from).balance == map[0 := 15];
    assert Get(l2, from).mandate == map[op := map[0 := 15]];
  }

  /** Approving an operator without a mandate ends the mandate of another. */
  lemma ApprovalWipes(from: Identifier, op: Identifier, other: Identifier)
    requires op != other
    ensures var l := Ledger(map[from := Account(map[0 := 10], map[], map[op := map[0 := 5]])], 10, 10, from);
            var s := Approve(true, from, other, 0, 1);
            Accepted(l, s) && Remaining(l, from, op, 0) == 5 && Remaining(Apply(l, s), from, op, 0) == 0
  {
    var acc := Account(map[0 := 10], map[], map[op := map[0 := 5]]);
    var l := Ledger(map[from := acc], 10, 10, from);
    assert Get(l, from) == acc && acc.balance[0] == 10 && acc.mandate[op][0] == 5;
    StepRemaining(l, Approve(true, from, other, 0, 1), from, op, 0);
  }
}
