/** The API-key ledger: balances against the deposits that were spent and the fees that were taken. */
module ApiKeys {
  import opened Basics
  import opened Tables
  import Receipts

  function Balance(balances: map<string, map<string, Num>>, a: Account): int {
    if a.0 in balances && a.1 in balances[a.0] then Value(balances[a.0][a.1]) else 0
  }

  /** What one receipt has paid into an account. */
  function Deposit(r: Receipt, a: Account): int {
    if r.status.Spent? && r.data.ForApiKey? && AccountOf(r) == a then Value(r.amount) else 0
  }

  function Deposits(receipts: seq<Receipt>, a: Account): int {
    if receipts == [] then 0 else Deposits(receipts[..|receipts| - 1], a) + Deposit(receipts[|receipts| - 1], a)
  }

  lemma {:induction false} DepositsSame(xs: seq<Receipt>, ys: seq<Receipt>, a: Account)
    requires |xs| == |ys| && forall i :: 0 <= i < |xs| ==> Deposit(xs[i], a) == Deposit(ys[i], a)
    ensures Deposits(xs, a) == Deposits(ys, a)
  {
    if xs != [] {
      DepositsSame(xs[..|xs| - 1], ys[..|ys| - 1], a);
    }
  }

  lemma {:induction false} DepositsSet(receipts: seq<Receipt>, row: nat, r: Receipt, a: Account)
    requires row < |receipts|
    ensures Deposits(receipts[row := r], a) == Deposits(receipts, a) + Deposit(r, a) - Deposit(receipts[row], a)
  {
    var n := |receipts| - 1;
    if row == n {
      assert receipts[row := r][..n] == receipts[..n];
    } else {
      assert receipts[row := r][..n] == receipts[..n][row := r];
      DepositsSet(receipts[..n], row, r, a);
    }
  }

  /** The deposits into account a that were spent between two states of the receipts. */
  function DepositsMade(xs: seq<Receipt>, ys: seq<Receipt>, a: Account): int
    requires |xs| == |ys|
  {
    if xs == [] then 0
    else
      var n := |xs| - 1;
      DepositsMade(xs[..n], ys[..n], a)
      + if xs[n].status.Unspent? && ys[n].status.Spent? && xs[n].data.ForApiKey?
           && xs[n].account == a.0 && ToUpper(xs[n].symbol) == a.1
        then Value(xs[n].amount) else 0
  }

  lemma {:induction false} DepositsGrow(xs: seq<Receipt>, ys: seq<Receipt>, a: Account)
    requires |xs| == |ys|
    requires forall i :: 0 <= i < |xs| ==>
               ys[i] == xs[i] || (xs[i].status.Unspent? && ys[i] == xs[i].(status := ys[i].status))
    ensures Deposits(ys, a) == Deposits(xs, a) + DepositsMade(xs, ys, a)
  {
    if xs != [] {
      DepositsGrow(xs[..|xs| - 1], ys[..|ys| - 1], a);
    }
  }

  // ---- the ledger ----

  /** Balance, deposits, deductions and deposits credited without being marked spent agree. */
  ghost predicate Balanced(s: Db, a: Account) {
    Balance(s.balances, a) == Deposits(s.receipts, a) + At(s.uncounted, a) - At(s.deducted, a)
  }

  ghost predicate NonNegative(s: Db) {
    && (forall a: Account :: Balance(s.balances, a) >= 0)
    && forall r :: 0 <= r < |s.receipts| ==> Value(s.receipts[r].amount) >= 0
  }

  lemma CreditAdds(balances: map<string, map<string, Num>>, to: Account, amount: Num, a: Account)
    ensures Balance(Credit(balances, to.0, to.1, amount), a)
         == Balance(balances, a) + if a == to then Value(amount) else 0
  {}

  /** A new account or a new token starts with the amount as it is; otherwise the two are added as numbers. */
  lemma CreditCases(balances: map<string, map<string, Num>>, to: Account, had: int, v: int)
    ensures to.0 !in balances ==>
              Credit(balances, to.0, to.1, Malformed) == balances[to.0 := map[to.1 := Malformed]]
    ensures to.0 in balances && to.1 in balances[to.0] && balances[to.0][to.1] == Int(had) ==>
              && Credit(balances, to.0, to.1, Int(v))[to.0][to.1] == Int(had + v)
              && Credit(balances, to.0, to.1, Malformed)[to.0][to.1] == Int(had)
  {}

  /** Which receipts a step turns into spent deposits. */
  lemma DepositsStep(s: Db, a: Action, acc: Account)
    requires Receipts.Handled(s) && Receipts.TakenUp(s) && Enabled(s, a)
    ensures Deposits(Next(s, a).receipts, acc) == Deposits(s.receipts, acc) +
              if a.MergeDeposit? && a.recorded && AccountOf(s.receipts[s.merging[0]]) == acc
              then Value(s.receipts[s.merging[0]].amount) else 0
  {
    var t := Next(s, a);
    if a.MergeDeposit? && a.recorded {
      DepositsSet(s.receipts, s.merging[0], s.receipts[s.merging[0]].(status := Spent), acc);
    } else if a.Deliver? {
      assert t.receipts[..|s.receipts|] == s.receipts;
    } else {
      assert |t.receipts| == |s.receipts|;
      forall r | 0 <= r < |s.receipts| ensures Deposit(t.receipts[r], acc) == Deposit(s.receipts[r], acc) {
        Receipts.StepMoves(s, a, r);
      }
      DepositsSame(s.receipts, t.receipts, acc);
    }
  }

  /** What a step does to a balance. */
  lemma BalanceStep(s: Db, a: Action, acc: Account)
    requires Enabled(s, a)
    ensures Balance(Next(s, a).balances, acc) == Balance(s.balances, acc) + (
              if a.MergeDeposit? && AccountOf(s.receipts[s.merging[0]]) == acc
              then Value(s.receipts[s.merging[0]].amount)
              else if a.Spend? && (a.address, ToUpper(a.symbol)) == acc then -a.fee
              else 0)
  {
    if a.MergeDeposit? {
      var r := s.receipts[s.merging[0]];
      CreditAdds(s.balances, AccountOf(r), r.amount, acc);
    } else if !a.Spend? {
      assert Next(s, a).balances == s.balances;
    }
  }

  /** A deposit credited again later is one whose mark failed. */
  function Recredited(s: Db, a: Action, acc: Account): int {
    if a.MergeDeposit? && !a.recorded && s.merging != [] && s.merging[0] < |s.receipts|
      && AccountOf(s.receipts[s.merging[0]]) == acc
    then Value(s.receipts[s.merging[0]].amount)
    else 0
  }

  lemma UncountedStep(s: Db, a: Action, acc: Account)
    requires Enabled(s, a) && NonNegative(s)
    ensures At(Next(s, a).uncounted, acc) == At(s.uncounted, acc) + Recredited(s, a, acc)
    ensures Recredited(s, a, acc) >= 0
  {
    if !a.MergeDeposit? {
      assert Next(s, a).uncounted == s.uncounted;
    }
  }

  lemma DeductedStep(s: Db, a: Action, acc: Account)
    requires Enabled(s, a)
    ensures At(Next(s, a).deducted, acc)
         == At(s.deducted, acc) + if a.Spend? && (a.address, ToUpper(a.symbol)) == acc then a.fee else 0
  {
    if !a.Spend? {
      assert Next(s, a).deducted == s.deducted;
    }
  }

  lemma BalancedPreserved(s: Db, a: Action, acc: Account)
    requires NonNegative(s) && Balanced(s, acc) && Receipts.Handled(s) && Receipts.TakenUp(s) && Enabled(s, a)
    ensures Balanced(Next(s, a), acc)
  {
    assert a.MergeDeposit? ==> MergeAt(s);
    hide Enabled, Next;
    BalanceStep(s, a, acc);
    DepositsStep(s, a, acc);
    DeductedStep(s, a, acc);
    UncountedStep(s, a, acc);
  }

  lemma NonNegativePreserved(s: Db, a: Action)
    requires NonNegative(s) && Receipts.Handled(s) && Receipts.TakenUp(s) && Enabled(s, a)
    ensures NonNegative(Next(s, a))
  {
    var t := Next(s, a);
    forall acc: Account ensures Balance(t.balances, acc) >= 0 {
      BalanceStep(s, a, acc);
    }
    forall r | 0 <= r < |t.receipts| ensures Value(t.receipts[r].amount) >= 0 {
      if r < |s.receipts| {
        Receipts.StepMoves(s, a, r);
      }
    }
  }

  // ---- whole runs ----

  lemma {:induction false} InvHolds(run: Run<Action>, acc: Account)
    requires IsRun(INIT, run)
    ensures Balanced(Exec(INIT, run), acc) && NonNegative(Exec(INIT, run))
  {
    if run.Then? {
      var s := Exec(INIT, run.before);
      InvHolds(run.before, acc);
      Receipts.TransfersAreRight(run.before);
      BalancedPreserved(s, run.act, acc);
      NonNegativePreserved(s, run.act);
    }
  }

  /** Every deposit credited to the account in the run was also marked spent, or was worth nothing. */
  ghost predicate Marked(run: Run<Action>, acc: Account)
    requires IsRun(INIT, run)
  {
    run.Then? ==> Marked(run.before, acc) && Recredited(Exec(INIT, run.before), run.act, acc) == 0
  }

  lemma {:induction false} UncountedExact(run: Run<Action>, acc: Account)
    requires IsRun(INIT, run)
    ensures At(Exec(INIT, run).uncounted, acc) >= 0
    ensures At(Exec(INIT, run).uncounted, acc) == 0 <==> Marked(run, acc)
  {
    if run.Then? {
      UncountedExact(run.before, acc);
      InvHolds(run.before, acc);
      UncountedStep(Exec(INIT, run.before), run.act, acc);
    }
  }

  /**
   A balance never falls below zero. It equals the account's spent deposits less the fees taken exactly when every
   credited deposit could be marked spent; a mark that fails leaves the deposit to be credited again.
   */
  lemma LedgerExact(run: Run<Action>, acc: Account)
    requires IsRun(INIT, run)
    ensures var s := Exec(INIT, run);
            && Balance(s.balances, acc) >= 0
            && Balance(s.balances, acc) >= Deposits(s.receipts, acc) - At(s.deducted, acc)
            && (Balance(s.balances, acc) == Deposits(s.receipts, acc) - At(s.deducted, acc) <==> Marked(run, acc))
  {
    InvHolds(run, acc);
    UncountedExact(run, acc);
  }

  // ---- a mark that fails ----

  const RECEIPT: Receipt := Receipt("h", "AR", "ar", Int(5), "a", "a", ForApiKey, 0, Unspent)

  const DELIVERED: Db := INIT.(receipts := [RECEIPT])

  const CREDITED: Db :=
    DELIVERED.(balances := map["a" := map["AR" := Int(5)]], uncounted := map[("a", "AR") := 5])

  const CREDITED_TWICE: Db :=
    CREDITED.(receipts := [RECEIPT.(status := Spent)], balances := map["a" := map["AR" := Int(10)]])

  lemma FirstCredit()
    ensures Enabled(DELIVERED.(merging := [0]), MergeDeposit(false))
    ensures Next(DELIVERED.(merging := [0]), MergeDeposit(false)) == CREDITED
  {
    assert ToUpper("AR") == "AR";
  }

  lemma SecondCredit()
    ensures Enabled(CREDITED.(merging := [0]), MergeDeposit(true))
    ensures Next(CREDITED.(merging := [0]), MergeDeposit(true)) == CREDITED_TWICE
  {
    assert ToUpper("AR") == "AR";
    assert map["AR" := Int(5)]["AR" := Int(10)] == map["AR" := Int(10)];
    assert map["a" := map["AR" := Int(5)]]["a" := map["AR" := Int(10)]] == map["a" := map["AR" := Int(10)]];
  }

  lemma ReceiptLoads(s: Db)
    requires s.receipts == [RECEIPT] && s.merging == []
    ensures Enabled(s, MergeLoad([0])) && Next(s, MergeLoad([0])) == s.(merging := [0])
  {}

  lemma ReceiptArrives()
    ensures Enabled(INIT, Deliver(RECEIPT)) && Next(INIT, Deliver(RECEIPT)) == DELIVERED
  {
    assert RECEIPT.data != ForItems([]);
  }

  /** One deposit of 5, delivered and merged; its mark fails, the next merge credits it again: the balance is 10. */
  lemma FailedMarkCreditsTwice()
    ensures var delivered := Then(Begin, Deliver(RECEIPT));
            var credited := Then(Then(delivered, MergeLoad([0])), MergeDeposit(false));
            var run := Then(Then(credited, MergeLoad([0])), MergeDeposit(true));
            && IsRun(INIT, run)
            && Balance(Exec(INIT, run).balances, ("a", "AR")) == 10
            && Deposits(Exec(INIT, run).receipts, ("a", "AR")) == 5
  {
    hide Enabled, Next, IsRun, Exec, Balance, Deposits;
    var delivered := Then(Begin, Deliver(RECEIPT));
    var credited := Then(Then(delivered, MergeLoad([0])), MergeDeposit(false));
    var reloaded := Then(credited, MergeLoad([0]));
    Nothing();
    ReceiptArrives();
    GoOn(Begin, INIT, Deliver(RECEIPT), DELIVERED);
    ReceiptLoads(DELIVERED);
    GoOn(delivered, DELIVERED, MergeLoad([0]), DELIVERED.(merging := [0]));
    FirstCredit();
    GoOn(credited.before, DELIVERED.(merging := [0]), MergeDeposit(false), CREDITED);
    ReceiptLoads(CREDITED);
    GoOn(credited, CREDITED, MergeLoad([0]), CREDITED.(merging := [0]));
    SecondCredit();
    GoOn(reloaded, CREDITED.(merging := [0]), MergeDeposit(true), CREDITED_TWICE);
    TwiceCredited();
  }

  lemma TwiceCredited()
    ensures Balance(CREDITED_TWICE.balances, ("a", "AR")) == 10
    ensures Deposits(CREDITED_TWICE.receipts, ("a", "AR")) == 5
  {
    assert CREDITED_TWICE.receipts == [] + [RECEIPT.(status := Spent)];
    assert Deposits([], ("a", "AR")) == 0 && ToUpper("AR") == "AR";
  }
}
