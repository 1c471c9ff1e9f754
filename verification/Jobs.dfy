/** The scheduled jobs and the order handling of the bundler, over its database and item store. */
module Jobs {
  import opened Basics
  import opened Tables
  import opened JobSteps
  import opened Loops
  import Fees
  import ItemStore
  import ApiKeys
  import Payments
  import Receipts
  import Retention
  import ChainStatus
  import opened Bundling

  /** How many orders one bundle run reads. */
  const BATCH_LIMIT: nat := 2000

  class Arseeding {
    var db: Db                       // the tables, with the network and the jobs' own progress
    const store: ItemStore.Store
    var tick: nat                    // number of database writes tried so far
    const fault: nat -> bool         // which of them fail
    const decode: string -> Option<Item>  // what the binary of an id decodes to
    ghost var run: Run<Action>       // the run of the machine performed so far

    ghost predicate Reached(s: Db)
      reads this`run
    {
      IsRun(INIT, run) && Exec(INIT, run) == s && BundlesDecode(run, decode)
    }

    ghost predicate Valid()
      reads this, store
    {
      Reached(db) && store.Valid() && db.items == store.bins && Faithful(decode)
    }

    constructor (store: ItemStore.Store, fault: nat -> bool, decode: string -> Option<Item>)
      requires store.Valid() && store.bins == {} && Faithful(decode)
      ensures Valid() && this.store == store && this.fault == fault && this.decode == decode && db == INIT
    {
      this.store, this.fault, this.decode := store, fault, decode;
      db, tick, run := INIT, 0, Begin;
    }

    method Try() returns (ok: bool)
      modifies this`tick
      ensures ok == !fault(old(tick)) && tick == old(tick) + 1
    {
      ok := !fault(tick);
      tick := tick + 1;
    }

    ghost method Log(s: Db, a: Action)
      requires Reached(s) && Enabled(s, a) && db == Next(s, a) && ActDecodes(a, decode)
      modifies this`run
      ensures Reached(db) && run == Then(old(run), a)
    {
      run := Then(run, a);
    }

    // ---- queries and single updates ----

    method GetUnPaidOrdersByItemIds(ids: seq<string>) returns (r: Option<seq<nat>>)
      ensures r.Some? ==> Picks(db.orders, ids, r.value)
      ensures r.Some? ==> |r.value| == |ids| && forall j :: 0 <= j < |ids| ==>
                && r.value[j] < |db.orders|
                && db.orders[r.value[j]].item == ids[j] && db.orders[r.value[j]].pay.Unpaid?
                && forall i :: r.value[j] < i < |db.orders| ==>
                     !(db.orders[i].item == ids[j] && db.orders[i].pay.Unpaid?)
      ensures r.None? ==> exists j :: 0 <= j < |ids| && LatestUnpaid(db.orders, ids[j]).None?
      ensures r.None? ==> exists j | 0 <= j < |ids| ::
                forall o :: o in db.orders ==> !(o.item == ids[j] && o.pay.Unpaid?)
    {
      var picked := [];
      for i := 0 to |ids|
        invariant |picked| == i
        invariant forall j :: 0 <= j < i ==> LatestUnpaid(db.orders, ids[j]) == Some(picked[j])
      {
        var ord := LatestUnpaid(db.orders, ids[i]);
        if ord.None? {
          assert forall o :: o in db.orders ==> !IsUnpaidFor(o, ids[i]);
          return None;
        }
        picked := picked + [ord.value];
      }
      return Some(picked);
    }

    method CheckOrdersCurrency(picked: seq<nat>, symbol: string) returns (ok: bool)
      requires forall j :: 0 <= j < |picked| ==> picked[j] < |db.orders|
      ensures ok <==> forall j :: 0 <= j < |picked| ==> ToUpper(db.orders[picked[j]].currency) == ToUpper(symbol)
    {
      for i := 0 to |picked|
        invariant forall j :: 0 <= j < i ==> ToUpper(db.orders[picked[j]].currency) == ToUpper(symbol)
      {
        if ToUpper(db.orders[picked[i]].currency) != ToUpper(symbol) {
          return false;
        }
      }
      return true;
    }

    method CheckOrdersAmount(picked: seq<nat>, amount: Num) returns (ok: bool)
      requires forall j :: 0 <= j < |picked| ==> picked[j] < |db.orders|
      ensures ok <==>
                && amount.Int? && (forall j :: 0 <= j < |picked| ==> db.orders[picked[j]].fee.Int?)
                && Sum(OrderFees(db.orders, picked)) <= amount.v
    {
      if amount.Malformed? {
        return false;
      }
      var totalFee := 0;
      for i := 0 to |picked|
        invariant forall j :: 0 <= j < i ==> db.orders[picked[j]].fee.Int?
        invariant totalFee == Sum(OrderFees(db.orders, picked[..i]))
      {
        var fee := db.orders[picked[i]].fee;
        if fee.Malformed? {
          return false;
        }
        totalFee := totalFee + fee.v;
        assert OrderFees(db.orders, picked[..i + 1]) == OrderFees(db.orders, picked[..i]) + [fee.v];
      }
      assert picked[..|picked|] == picked;
      return amount.v >= totalFee;
    }

    // ---- merging receipts ----

    /** The receipt at hand is queued for refund, if the write succeeds. */
    method QueueRefund(row: nat, priced: bool) returns (err: bool, ghost a: Action)
      requires Valid() && MergeAt(db) && db.merging[0] == row && Refundable(db.orders, db.receipts[row], priced)
      modifies this`db, this`tick, this`run
      ensures Valid() && run == Then(old(run), a) && tick == old(tick) + 1
      ensures err == fault(old(tick)) && a == if err then MergeSkip else MergeReject(priced)
      ensures Enabled(old(db), a) && db == Next(old(db), a)
    {
      hide IsRun, Exec;
      ghost var s := db;
      var ok := Try();
      err := !ok;
      db := db.(merging := db.merging[1..]);
      if ok {
        db := db.(receipts := SetStatus(db.receipts, row, UnRefund));
      }
      a := if ok then MergeReject(priced) else MergeSkip;
      Log(s, a);
    }

    /** The writes of a payment in one database transaction: all of them, or none. */
    method CommitPayment(picked: seq<nat>, row: nat) returns (err: bool, ghost done: bool)
      requires row < |db.receipts| && (forall j :: 0 <= j < |picked| ==> picked[j] < |db.orders|)
      modifies this`db, this`tick
      ensures old(tick) <= tick && (Quiet(fault, old(tick), tick) ==> done)
      ensures db == if done
                    then old(db).(orders := PayAll(old(db).orders, picked, old(db).receipts[row].hash),
                                  receipts := SetStatus(old(db).receipts, row, Spent))
                    else old(db)
      ensures err ==> !done
    {
      var hash := db.receipts[row].hash;
      var work, open := db.orders, true;
      var j := 0;
      assert PayAll(db.orders, picked[..0], hash) == db.orders;
      while j < |picked| && open
        invariant 0 <= j <= |picked| && old(tick) <= tick
        invariant db == old(db)
        invariant open ==> work == PayAll(db.orders, picked[..j], hash)
        invariant open || !Quiet(fault, old(tick), tick)
      {
        open := Try();
        if open {
          PayAllStep(db.orders, picked, j, hash);
          work := work[picked[j] := work[picked[j]].(pay := Paid, paymentId := hash)];
        }
        j := j + 1;
      }
      assert picked[..|picked|] == picked;
      if open {
        open := Try();
      }
      if !open {
        return true, false;
      }
      // an error of the commit itself goes unnoticed
      done, err := !fault(tick), false;
      var committed := Try();
      if committed {
        db := db.(orders := work, receipts := db.receipts[row := db.receipts[row].(status := Spent)]);
      }
    }

    /** The checks before a payment: the orders it is for, if the receipt covers them all. */
    method CheckPayment(ids: seq<string>, row: nat) returns (r: Option<seq<nat>>)
      requires row < |db.receipts| && db.receipts[row].data == ForItems(ids)
      ensures r.Some? ==> Picks(db.orders, ids, r.value) && Covers(db.orders, r.value, db.receipts[row])
      ensures r.None? ==> !Payable(db.orders, db.receipts[row])
    {
      r := GetUnPaidOrdersByItemIds(ids);
      if r.Some? {
        PicksUnique(db.orders, ids, r.value);
        var ok := CheckOrdersCurrency(r.value, db.receipts[row].symbol);
        if !ok {
          return None;
        }
        ok := CheckOrdersAmount(r.value, db.receipts[row].amount);
        if !ok {
          return None;
        }
      }
    }

    /**
     processPayItems: the receipt pays for the latest unpaid orders of its items or goes to refund; a failed write
     leaves the orders and the receipt as they are. Only then may the result be an error, and it need not be.
     */
    method ProcessPayItems(ids: seq<string>, row: nat) returns (err: bool, ghost a: Action)
      requires Valid() && MergeAt(db) && db.merging[0] == row && db.receipts[row].data == ForItems(ids)
      modifies this`db, this`tick, this`run
      ensures Valid() && run == Then(old(run), a) && old(tick) <= tick
      ensures Enabled(old(db), a) && db == Next(old(db), a)
      ensures a.MergePay? || a.MergeReject? || a.MergeSkip?
      ensures err ==> a.MergeSkip?
      ensures Quiet(fault, old(tick), tick) ==> !a.MergeSkip?
    {
      hide IsRun, Exec, Enabled, Next, Picks, Covers;
      var ordArr := CheckPayment(ids, row);
      if ordArr.None? {
        err, a := QueueRefund(row, true);
        return;
      }
      ghost var s := db;
      ghost var done: bool;
      PickedExist(s.orders, ids, ordArr.value);
      err, done := CommitPayment(ordArr.value, row);
      db := db.(merging := db.merging[1..]);
      if done {
        a := MergePay(ordArr.value);
        PayStep(s, ordArr.value);
      } else {
        a := MergeSkip;
        SkipStep(s);
      }
      Log(s, a);
    }

    /** A deposit goes to the sender's key, which is made if there is none and it can be made. */
    method CreditDeposit(r: Receipt, keyMade: bool) returns (credited: bool)
      modifies this`db, this`tick
      ensures old(tick) <= tick
      ensures db == old(db).(balances := db.balances)
      ensures db.balances == if credited then Credit(old(db).balances, r.account, ToUpper(r.symbol), r.amount)
                             else old(db).balances
      ensures Quiet(fault, old(tick), tick) && keyMade ==> credited
    {
      var symbol := ToUpper(r.symbol);
      var tokBal := map[symbol := r.amount];
      if r.account !in db.balances {
        if !keyMade {
          return false;
        }
      } else {
        tokBal := db.balances[r.account];
        if symbol in tokBal {
          tokBal := tokBal[symbol := Int(Value(r.amount) + Value(tokBal[symbol]))];
        } else {
          tokBal := tokBal[symbol := r.amount];
        }
      }
      credited := Try();
      if credited {
        db := db.(balances := db.balances[r.account := tokBal]);
      }
    }

    /**
     processPayApikey: the deposit is credited before its receipt is marked spent; a mark that fails leaves the
     receipt unspent and the money credited. `keyMade` tells whether a key can be made for a new account.
     */
    method ProcessPayApikey(row: nat, keyMade: bool) returns (err: bool, ghost a: Action)
      requires Valid() && MergeAt(db) && db.merging[0] == row && db.receipts[row].data.ForApiKey?
      modifies this`db, this`tick, this`run
      ensures Valid() && run == Then(old(run), a) && IsMerge(a) && old(tick) <= tick
      ensures Enabled(old(db), a) && db == Next(old(db), a)
      ensures !a.MergePay?
      ensures !err <==> a == MergeDeposit(true)
      ensures old(db).receipts[row].amount == Int(0) ==>
                a == MergeReject(true) || (a.MergeSkip? && !Quiet(fault, old(tick), tick))
      ensures old(db).receipts[row].amount != Int(0) ==>
                || a == MergeDeposit(true) || (a == MergeDeposit(false) && !Quiet(fault, old(tick), tick))
                || (a.MergeSkip? && !(Quiet(fault, old(tick), tick) && keyMade))
    {
      hide IsRun, Exec, Enabled, Next;
      var r := db.receipts[row];
      if r.amount == Int(0) {
        err, a := QueueRefund(row, true);
        return true, a;
      }
      ghost var s := db;
      var credited := CreditDeposit(r, keyMade);
      if !credited {
        db := db.(merging := db.merging[1..]);
        SkipStep(s);
        Log(s, MergeSkip);
        return true, MergeSkip;
      }
      var recorded := Try();
      err, a := !recorded, MergeDeposit(recorded);
      EndDeposit(s, row, recorded);
    }

    /** The receipt of a credited deposit is marked spent; if not, the ledger notes that it will be credited again. */
    method EndDeposit(ghost s: Db, row: nat, recorded: bool)
      requires Reached(s) && MergeAt(s) && s.merging[0] == row && s.receipts[row].data.ForApiKey?
      requires s.receipts[row].amount != Int(0)
      requires db == s.(balances := db.balances)
      requires db.balances == Credit(s.balances, AccountOf(s.receipts[row]).0, AccountOf(s.receipts[row]).1,
                                     s.receipts[row].amount)
      modifies this`db, this`run
      ensures Reached(db) && run == Then(old(run), MergeDeposit(recorded)) && db.items == s.items
      ensures Enabled(s, MergeDeposit(recorded)) && db == Next(s, MergeDeposit(recorded))
    {
      hide IsRun, Exec, Enabled, Next;
      var acc := AccountOf(db.receipts[row]);
      if recorded {
        db := db.(receipts := SetStatus(db.receipts, row, Spent), merging := db.merging[1..]);
      } else {
        db := db.(uncounted := db.uncounted[acc := At(db.uncounted, acc) + Value(db.receipts[row].amount)],
                  merging := db.merging[1..]);
      }
      DepositStep(s, recorded);
      Log(s, MergeDeposit(recorded));
    }

    /** One receipt of the merge job. */
    method MergeReceipt(row: nat, perFees: map<string, Fees.Fee>, keyMade: bool) returns (ghost a: Action)
      requires Valid() && MergeAt(db) && db.merging[0] == row
      modifies this`db, this`tick, this`run
      ensures Valid() && run == Then(old(run), a) && IsMerge(a) && old(tick) <= tick
      ensures Enabled(old(db), a) && db == Next(old(db), a)
      ensures Settles(a, old(db).receipts[row], perFees, Quiet(fault, old(tick), tick), keyMade)
    {
      hide IsRun, Exec;
      var r := db.receipts[row];
      var err: bool;
      match r.data {
        case Unusable => err, a := QueueRefund(row, true);
        case ForItems(ids) => err, a := ProcessPayItems(ids, row);
        case ForApiKey =>
          if ToUpper(r.symbol) !in perFees {
            err, a := QueueRefund(row, false);
          } else {
            err, a := ProcessPayApikey(row, keyMade);
          }
      }
    }

    /**
     mergeReceiptEverTxs: of the recent unspent receipts each is spent or queued for refund, or left for the next run
     when a write or a key fails; no other receipt is touched.
     */
    method MergeReceiptEverTxs(now: int, perFees: map<string, Fees.Fee>, keyMade: nat -> bool)
      requires Valid() && db.merging == []
      modifies this`db, this`tick, this`run
      ensures Valid() && ExtendsBy(old(run), run, ByMerge) && db.merging == [] && old(tick) <= tick
      ensures OnlyMerged(old(db), db) && |db.receipts| == |old(db).receipts|
      ensures forall r :: 0 <= r < |db.receipts| ==>
                var x, y := old(db).receipts[r], db.receipts[r];
                if x.status.Unspent? && x.nonce > now - 24 * 60 * 60 * 1000
                then Merged(x, y, perFees, Quiet(fault, old(tick), tick), keyMade(r))
                else y == x
      ensures Quiet(fault, old(tick), tick) ==>
                forall r :: 0 <= r < |db.receipts| ==>
                  var x, y := old(db).receipts[r], db.receipts[r];
                  x.status.Unspent? && x.nonce > now - 24 * 60 * 60 * 1000 && !x.data.ForItems? ==>
                    if x.data.ForApiKey? && ToUpper(x.symbol) in perFees && x.amount != Int(0)
                    then y.status.Spent? || (y.status.Unspent? && !keyMade(r))
                    else y.status.UnRefund?
      ensures Quiet(fault, old(tick), tick) ==>
                forall acc: Account :: ApiKeys.Balance(db.balances, acc) ==
                  ApiKeys.Balance(old(db).balances, acc) + ApiKeys.DepositsMade(old(db).receipts, db.receipts, acc)
    {
      hide IsRun, Exec, Enabled, Next;
      var rows := RecentRows(db.receipts, Unspent, now);
      ghost var s := db;
      db := db.(merging := rows);
      LoadStep(s, rows);
      Log(s, MergeLoad(rows));
      ghost var start := run;
      MergeLoaded(rows, perFees, keyMade);
      AllTreated(rows, s.receipts, db.receipts, Merging(perFees, keyMade), Quiet(fault, old(tick), tick));
      ExtendsByTransitive(old(run), start, run, ByMerge);
      if Quiet(fault, old(tick), tick) {
        BalancesGrew(s, old(run));
        forall r | 0 <= r < |db.receipts| && r in rows {
          MergedInFields(s.receipts[r], db.receipts[r], perFees, keyMade(r));
        }
      }
    }

    /** With nothing credited that was not marked, the balances have grown by the deposits. */
    lemma BalancesGrew(s: Db, earlier: Run<Action>)
      requires Valid() && IsRun(INIT, earlier) && Exec(INIT, earlier) == s
      requires db.uncounted == s.uncounted && db.deducted == s.deducted && |db.receipts| == |s.receipts|
      requires forall r :: 0 <= r < |db.receipts| ==>
                 || db.receipts[r] == s.receipts[r]
                 || (s.receipts[r].status.Unspent?
                     && db.receipts[r] == s.receipts[r].(status := db.receipts[r].status))
      ensures forall acc: Account :: ApiKeys.Balance(db.balances, acc) ==
                ApiKeys.Balance(s.balances, acc) + ApiKeys.DepositsMade(s.receipts, db.receipts, acc)
    {
      forall acc: Account
        ensures ApiKeys.Balance(db.balances, acc) ==
                ApiKeys.Balance(s.balances, acc) + ApiKeys.DepositsMade(s.receipts, db.receipts, acc)
      {
        ApiKeys.InvHolds(run, acc);
        ApiKeys.InvHolds(earlier, acc);
        ApiKeys.DepositsGrow(s.receipts, db.receipts, acc);
      }
    }

    method MergeLoaded(rows: seq<nat>, perFees: map<string, Fees.Fee>, keyMade: nat -> bool)
      requires Valid() && db.merging == rows && Selects(db.receipts, rows, Unspent)
      modifies this`db, this`tick, this`run
      ensures Valid() && ExtendsBy(old(run), run, ByMerge) && db.merging == [] && old(tick) <= tick
      ensures OnlyMerged(old(db), db) && (Quiet(fault, old(tick), tick) ==> db.uncounted == old(db).uncounted)
      ensures Treated(rows, |rows|, old(db).receipts, db.receipts, Merging(perFees, keyMade),
                      Quiet(fault, old(tick), tick))
    {
      hide IsRun, Exec, Enabled, Next, Treated, Quiet;
      ghost var was := db.receipts;
      NoneTreated(rows, was, Merging(perFees, keyMade), Quiet(fault, old(tick), tick));
      for i := 0 to |rows|
        invariant Valid() && ExtendsBy(old(run), run, ByMerge) && db.merging == rows[i..] && old(tick) <= tick
        invariant OnlyMerged(old(db), db) && (Quiet(fault, old(tick), tick) ==> db.uncounted == old(db).uncounted)
        invariant Treated(rows, i, was, db.receipts, Merging(perFees, keyMade), Quiet(fault, old(tick), tick))
      {
        ghost var before, start, since := db, run, tick;
        NextUntreated(rows, i, was, before.receipts, Merging(perFees, keyMade), Quiet(fault, old(tick), tick));
        ghost var a := MergeReceipt(rows[i], perFees, keyMade(rows[i]));
        MergeStep(before, a);
        QuietSplit(fault, old(tick), since, tick);
        MergingLenient(perFees, keyMade);
        SettlesMerged(a, before.receipts[rows[i]], db.receipts[rows[i]], perFees, Quiet(fault, since, tick),
                      keyMade(rows[i]));
        OneMoreTreated(rows, i, was, before.receipts, db.receipts, Merging(perFees, keyMade),
                       Quiet(fault, old(tick), since), Quiet(fault, since, tick), Quiet(fault, old(tick), tick));
        ExtendsByTransitive(old(run), start, run, ByMerge);
      }
    }

    // ---- refunding receipts ----

    /** The receipt is marked refunded before anything is sent. */
    method MarkRefunded(row: nat) returns (ok: bool)
      requires Valid() && RefundAt(db) && db.refunding[0] == row
      modifies this`db, this`tick, this`run
      ensures Valid() && ExtendsBy(old(run), run, ByRefund) && ok == !fault(old(tick)) && tick == old(tick) + 1
      ensures OnlyRefunded(old(db), db)
      ensures db.refunding == old(db).refunding[1..] && db.refund == if ok then Marked(row) else Idle
      ensures db.receipts == if ok then SetStatus(old(db).receipts, row, Refunded) else old(db).receipts
      ensures db.transfers == old(db).transfers
    {
      hide IsRun, Exec, Enabled, Next;
      ghost var s := db;
      RefundMarkStep(s);
      ok := Try();
      db := db.(refunding := db.refunding[1..]);
      if ok {
        db := db.(receipts := SetStatus(db.receipts, row, Refunded), refund := Marked(row));
        Log(s, RefundMark);
      } else {
        Log(s, RefundSkip);
      }
    }

    /** The transfer back to the sender; an amount that is no number is not sent. */
    method SendRefund(row: nat, accepted: bool) returns (refused: bool)
      requires Valid() && db.refund.Marked? && db.refund.row == row && row < |db.receipts|
      modifies this`db, this`run
      ensures Valid() && ExtendsBy(old(run), run, ByRefund)
      ensures OnlyRefunded(old(db), db)
      ensures db.receipts == old(db).receipts && db.refunding == old(db).refunding
      ensures var r := old(db).receipts[row];
              && refused == (r.amount.Int? && !accepted)
              && db.refund == (if refused then Refused(row) else Idle)
              && db.transfers == old(db).transfers +
                                 if r.amount.Int? then [Transfer(row, r.tag, r.amount.v, r.from)] else []
    {
      hide IsRun, Exec, Enabled, Next;
      ghost var s := db;
      RefundSendStep(s, accepted);
      var r := db.receipts[row];
      if r.amount.Malformed? {
        db := db.(refund := Idle);
        Log(s, RefundDrop);
        return false;
      }
      db := db.(transfers := db.transfers + [Transfer(row, r.tag, r.amount.v, r.from)],
                refund := if accepted then Idle else Refused(row));
      Log(s, RefundSend(accepted));
      return !accepted;
    }

    method UpdateRefundErr(row: nat)
      requires Valid() && db.refund == Refused(row) && row < |db.receipts|
      modifies this`db, this`tick, this`run
      ensures Valid() && ExtendsBy(old(run), run, ByRefund) && tick == old(tick) + 1
      ensures OnlyRefunded(old(db), db)
      ensures db.refund.Idle? && db.refunding == old(db).refunding && db.transfers == old(db).transfers
      ensures db.receipts == if fault(old(tick)) then old(db).receipts else SetStatus(old(db).receipts, row, RefundErr)
    {
      hide IsRun, Exec, Enabled, Next;
      ghost var s := db;
      var written := Try();
      db := db.(refund := Idle);
      if written {
        db := db.(receipts := SetStatus(db.receipts, row, RefundErr));
      }
      RefundNoteStep(s, written);
      Log(s, RefundNote(written));
    }

    /** One receipt of the refund job. */
    method RefundOne(row: nat, accepted: bool)
      requires Valid() && RefundAt(db) && db.refunding[0] == row && db.receipts[row].status.UnRefund?
      modifies this`db, this`tick, this`run
      ensures Valid() && ExtendsBy(old(run), run, ByRefund) && old(tick) <= tick
      ensures OnlyRefunded(old(db), db)
      ensures db.refunding == old(db).refunding[1..] && db.refund.Idle?
      ensures |db.receipts| == |old(db).receipts|
      ensures forall r :: 0 <= r < |db.receipts| && r != row ==> db.receipts[r] == old(db).receipts[r]
      ensures Returned(old(db).receipts[row], db.receipts[row], Quiet(fault, old(tick), tick), accepted)
      ensures db.transfers == old(db).transfers + Payback(row, old(db).receipts[row], db.receipts[row])
    {
      hide IsRun, Exec, Enabled, Next;
      var ok := MarkRefunded(row);
      if !ok {
        return;
      }
      ghost var mid := run;
      var refused := SendRefund(row, accepted);
      ExtendsByTransitive(old(run), mid, run, ByRefund);
      if refused {
        mid := run;
        UpdateRefundErr(row);
        ExtendsByTransitive(old(run), mid, run, ByRefund);
      }
    }

    /**
     refundReceipt: each recent receipt to be refunded gets one transfer of its amount to its sender, unless its mark
     cannot be written or its amount is no number; a refused transfer is noted for manual treatment.
     */
    method RefundReceipt(now: int, accepted: nat -> bool)
      requires Valid() && db.refund.Idle? && db.refunding == []
      modifies this`db, this`tick, this`run
      ensures Valid() && ExtendsBy(old(run), run, ByRefund) && old(tick) <= tick
      ensures db.refund.Idle? && db.refunding == []
      ensures OnlyRefunded(old(db), db)
      ensures |db.receipts| == |old(db).receipts|
      ensures forall r :: 0 <= r < |db.receipts| ==>
                var x, y := old(db).receipts[r], db.receipts[r];
                if x.status.UnRefund? && x.nonce > now - 24 * 60 * 60 * 1000
                then Returned(x, y, Quiet(fault, old(tick), tick), accepted(r))
                else y == x
      ensures db.transfers
           == old(db).transfers + Paybacks(RecentRows(old(db).receipts, UnRefund, now), old(db).receipts, db.receipts)
    {
      hide IsRun, Exec, Enabled, Next;
      var rows := RecentRows(db.receipts, UnRefund, now);
      ghost var s := db;
      db := db.(refunding := rows);
      RefundLoadStep(s, rows);
      Log(s, RefundLoad(rows));
      ghost var start := run;
      RefundLoaded(rows, accepted);
      AllTreated(rows, s.receipts, db.receipts, Refunding(accepted), Quiet(fault, old(tick), tick));
      ExtendsByTransitive(old(run), start, run, ByRefund);
    }

    method RefundLoaded(rows: seq<nat>, accepted: nat -> bool)
      requires Valid() && db.refund.Idle? && db.refunding == rows && Selects(db.receipts, rows, UnRefund)
      modifies this`db, this`tick, this`run
      ensures Valid() && ExtendsBy(old(run), run, ByRefund) && old(tick) <= tick
      ensures db.refund.Idle? && db.refunding == []
      ensures OnlyRefunded(old(db), db)
      ensures Treated(rows, |rows|, old(db).receipts, db.receipts, Refunding(accepted), Quiet(fault, old(tick), tick))
      ensures |db.receipts| == |old(db).receipts|
      ensures db.transfers == old(db).transfers + Paybacks(rows, old(db).receipts, db.receipts)
    {
      hide IsRun, Exec, Enabled, Next, Paybacks, Treated, Returned, Quiet;
      ghost var was := db;
      NoneTreated(rows, was.receipts, Refunding(accepted), Quiet(fault, old(tick), tick));
      NoPaybacks(was.receipts);
      for i := 0 to |rows|
        invariant Valid() && ExtendsBy(old(run), run, ByRefund) && old(tick) <= tick && db.refund.Idle?
        invariant OnlyRefunded(old(db), db)
        invariant db.refunding == rows[i..] && |db.receipts| == |was.receipts|
        invariant Treated(rows, i, was.receipts, db.receipts, Refunding(accepted), Quiet(fault, old(tick), tick))
        invariant db.transfers == was.transfers + Paybacks(rows[..i], was.receipts, db.receipts)
      {
        ghost var start, before, since := run, db.receipts, tick;
        NextUntreated(rows, i, was.receipts, before, Refunding(accepted), Quiet(fault, old(tick), tick));
        RefundOne(rows[i], accepted(rows[i]));
        QuietSplit(fault, old(tick), since, tick);
        RefundingLenient(accepted);
        OneMoreTreated(rows, i, was.receipts, before, db.receipts, Refunding(accepted), Quiet(fault, old(tick), since),
                       Quiet(fault, since, tick), Quiet(fault, old(tick), tick));
        PaybacksStep(rows, i, was.receipts, before, db.receipts);
        ExtendsByTransitive(old(run), start, run, ByRefund);
      }
      assert rows[..|rows|] == rows;
    }

    // ---- submissions, deliveries and spending ----

    /** The item is stored; the tables see the store as it is then. */
    method SaveItem(item: string) returns (ok: bool)
      requires Valid()
      modifies this`db, this`run, store
      ensures Valid() && ExtendsBy(old(run), run, BySubmit) && (ok ==> item in db.items)
      ensures db == old(db).(items := db.items)
      ensures db.items == if item in store.bins then old(db).items + {item} else old(db).items
      ensures old(store.tick) <= store.tick && (Quiet(store.fault, old(store.tick), store.tick) ==> ok)
    {
      hide IsRun, Exec, ItemStore.IsRun, ItemStore.Exec;
      ghost var s := db;
      ok := store.SaveItem(item);
      if item in store.bins {
        db := db.(items := store.bins);
        Log(s, Action.SaveItem(item));
      }
    }

    /**
     ProcessSubmitItem: a new order for an item that is then in the store; an error leaves the orders alone and at
     most an item without an order. `verified` and `signed` say that the item and its signer's address check out.
     */
    method ProcessSubmitItem(
      verified: bool, signed: bool, item: string, currency: string, perFees: map<string, Fees.Fee>, isSort: bool,
      size: int, isNoFee: bool, expiry: int) returns (ok: bool)
      requires Valid() && 0 <= size <= 1024 * 1024 * 1024
      requires forall c :: c in perFees ==> perFees[c].base >= 0 && perFees[c].perChunk >= 0
      modifies this`db, this`tick, this`run, store
      ensures Valid() && ExtendsBy(old(run), run, BySubmit) && old(tick) <= tick && old(store.tick) <= store.tick
      ensures db == old(db).(items := db.items, orders := db.orders)
      ensures ok ==>
                && db.items == old(db).items + {item} && ToUpper(currency) in perFees
                && db.orders == old(db).orders + [Order(
                     item, size, ToUpper(currency), Int(Fees.CalcItemFee(perFees, currency, size).value.finalFee),
                     if isNoFee then 0 else expiry, if isNoFee then Paid else Unpaid, "", Waiting, isSort)]
      ensures !ok ==> db.orders == old(db).orders && old(db).items <= db.items <= old(db).items + {item}
      ensures Quiet(fault, old(tick), tick) && Quiet(store.fault, old(store.tick), store.tick) ==>
                (ok <==> verified && signed && ToUpper(currency) in perFees)
      ensures Retention.Retained(old(db)) ==> Retention.Retained(db)
    {
      hide IsRun, Exec, Enabled, Next, ItemStore.IsRun, ItemStore.Exec;
      if !verified {
        return false;
      }
      var saved := SaveItem(item);
      if !saved || !signed {
        return false;
      }
      var fee := Fees.CalcItemFee(perFees, currency, size);
      if fee.None? {
        return false;
      }
      ok := Try();
      if ok {
        var o := Order(item, size, ToUpper(currency), Int(fee.value.finalFee), if isNoFee then 0 else expiry,
                       if isNoFee then Paid else Unpaid, "", Waiting, isSort);
        Fees.FeeNotNegative(perFees, currency, size);
        ghost var s, start := db, run;
        db := db.(orders := db.orders + [o]);
        SubmitStep(s, o);
        Log(s, Submit(o));
        ExtendsByTransitive(old(run), start, run, BySubmit);
      }
    }

    /** InsertReceiptTx: a receipt that is delivered again is not inserted again. */
    method InsertReceiptTx(r: Receipt) returns (ok: bool)
      requires Valid() && r.status == Unspent && r.hash != "" && Value(r.amount) >= 0 && r.data != ForItems([])
      modifies this`db, this`tick, this`run
      ensures Valid() && ok == !fault(old(tick)) && tick == old(tick) + 1
      ensures run == old(run) || run == Then(old(run), Deliver(r))
      ensures db == old(db).(receipts := db.receipts)
      ensures db.receipts ==
                if ok && forall i :: 0 <= i < |old(db).receipts| ==> old(db).receipts[i].hash != r.hash
                then old(db).receipts + [r] else old(db).receipts
    {
      hide IsRun, Exec;
      ok := Try();
      if ok && forall i :: 0 <= i < |db.receipts| ==> db.receipts[i].hash != r.hash {
        ghost var s := db;
        db := db.(receipts := db.receipts + [r]);
        Log(s, Deliver(r));
      }
    }

    /** The account has a balance in the currency that covers the fee. */
    static predicate Affordable(
      balances: map<string, map<string, Num>>, address: string, symbol: string, fee: Option<Fees.RespFee>)
    {
      && address in balances && symbol in balances[address] && balances[address][symbol].Int?
      && fee.Some? && fee.value.finalFee <= balances[address][symbol].v
    }

    /** UpdateApikeyTokenBal, with what is left of the balance after a fee. */
    method UpdateTokenBal(address: string, currency: string, endBal: int, fee: int) returns (ok: bool)
      requires Valid() && address in db.balances && ToUpper(currency) in db.balances[address]
      requires fee >= 0 && endBal >= 0 && db.balances[address][ToUpper(currency)] == Int(endBal + fee)
      modifies this`db, this`tick, this`run
      ensures Valid() && tick == old(tick) + 1 && ok == !fault(old(tick))
      ensures !ok ==> db == old(db) && run == old(run)
      ensures ok ==>
                && db == old(db).(balances := db.balances, deducted := db.deducted)
                && db.balances == WithBalance(old(db).balances, address, ToUpper(currency), endBal)
                && run == Then(old(run), Spend(address, currency, fee))
    {
      hide IsRun, Exec, Enabled, Next, ItemStore.IsRun, ItemStore.Exec, BundlesDecode, Faithful, At, ToUpper;
      hide WithBalance;
      ok := Try();
      if ok {
        var acc := (address, ToUpper(currency));
        var balances := WithBalance(db.balances, address, acc.1, endBal);
        var deducted := db.deducted[acc := At(db.deducted, acc) + fee];
        ghost var s := db;
        SpendStep(s, address, currency, endBal, fee);
        db := db.(balances := balances, deducted := deducted);
        Log(s, Spend(address, currency, fee));
      }
    }

    /** processApikeySpendBal: the fee is taken from a balance that covers it, or nothing changes. */
    method ProcessApikeySpendBal(address: string, currency: string, perFees: map<string, Fees.Fee>, dataSize: int)
      returns (ok: bool)
      requires Valid()
      requires forall c :: c in perFees ==> perFees[c].base >= 0 && perFees[c].perChunk >= 0
      modifies this`db, this`tick, this`run
      ensures Valid() && old(tick) <= tick
      ensures !ok ==> db == old(db) && run == old(run)
      ensures ok ==>
                var sym := ToUpper(currency);
                && sym in perFees && address in old(db).balances && sym in old(db).balances[address]
                && var bal, fee :=
                     old(db).balances[address][sym], Fees.CalcItemFee(perFees, currency, dataSize).value.finalFee;
                   && bal.Int? && 0 <= fee <= bal.v
                   && db == old(db).(balances := db.balances, deducted := db.deducted)
                   && db.balances
                      == old(db).balances[address := old(db).balances[address][sym := Int(bal.v - fee)]]
                   && run == Then(old(run), Spend(address, currency, fee))
      ensures Quiet(fault, old(tick), tick) ==>
                (ok <==> Affordable(old(db).balances, address, ToUpper(currency),
                                    Fees.CalcItemFee(perFees, currency, dataSize)))
    {
      hide IsRun, Exec, Enabled, Next, ItemStore.IsRun, ItemStore.Exec, BundlesDecode, Faithful, At;
      var sym := ToUpper(currency);
      if address !in db.balances || sym !in db.balances[address] {
        return false;
      }
      var curBal := db.balances[address][sym];
      if curBal.Malformed? {
        return false;
      }
      var respFee := Fees.CalcItemFee(perFees, currency, dataSize);
      if respFee.None? {
        return false;
      }
      var fee := respFee.value.finalFee;
      var endBal := curBal.v - fee;
      if endBal < 0 {
        return false;
      }
      Fees.FeeNotNegative(perFees, currency, dataSize);
      ok := UpdateTokenBal(address, currency, endBal, fee);
    }

    // ---- expiry ----

    /** DelItem, as the tables see it. */
    method DelItem(item: string) returns (ok: bool)
      requires store.Valid() && db.items == store.bins
      modifies this`db, store
      ensures store.Valid() && db.items == store.bins && db == old(db).(items := db.items)
      ensures db.items == if ok then old(db).items - {item} else old(db).items
      ensures old(store.tick) <= store.tick && (Quiet(store.fault, old(store.tick), store.tick) ==> ok)
    {
      hide ItemStore.IsRun, ItemStore.Exec;
      ok := store.DelItem(item);
      db := db.(items := store.bins);
    }

    /** One order of the expiry job: expired first, then its item deleted unless another order still needs it. */
    method ExpireOne(p: nat) returns (ok: bool)
      requires store.Valid() && db.items == store.bins && p < |db.orders|
      modifies this`db, this`tick, store
      ensures store.Valid() && db.items == store.bins && db == old(db).(orders := db.orders, items := db.items)
      ensures ok == !fault(old(tick)) && tick == old(tick) + 1 && old(store.tick) <= store.tick
      ensures !ok ==> db.orders == old(db).orders && db.items == old(db).items
      ensures ok ==>
                var o := old(db).orders[p];
                var asked := !PaidExists(db.orders, o.item) && NoneLater(db.orders, o.item, o.expiry);
                && db.orders == old(db).orders[p := o.(pay := Expired, chain := Failed)]
                && (db.items == old(db).items || (asked && db.items == old(db).items - {o.item}))
                && (asked && Quiet(store.fault, old(store.tick), store.tick) ==> o.item !in db.items)
    {
      hide ItemStore.IsRun, ItemStore.Exec;
      var o := db.orders[p];
      ok := Try();
      if !ok {
        return;
      }
      db := db.(orders := db.orders[p := o.(pay := Expired, chain := Failed)]);
      if PaidExists(db.orders, o.item) {
        return;
      }
      if !NoneLater(db.orders, o.item, o.expiry) {
        return;
      }
      var deleted := DelItem(o.item);
    }

    /**
     processExpiredOrd: the due orders are expired one by one; whatever their order, the items that go are those with
     no paid order and no unpaid order that expires later than one expired here.
     */
    method ProcessExpiredOrd(now: int) returns (ghost a: Action)
      requires Valid()
      modifies this`db, this`tick, this`run, store
      ensures Valid() && run == Then(old(run), a) && old(tick) <= tick && old(store.tick) <= store.tick
      ensures a.Expire? && a.now == now && (Quiet(fault, old(tick), tick) ==> a.failed == {})
      ensures db == old(db).(orders := db.orders, items := db.items)
      ensures db.orders == ExpireAll(old(db).orders, now, a.failed)
      ensures forall x :: x in old(db).items - db.items ==> Deletable(old(db).orders, now, a.failed, x)
      ensures Quiet(store.fault, old(store.tick), store.tick) ==>
                forall x :: x in db.items ==> !Deletable(old(db).orders, now, a.failed, x)
      ensures db.items <= old(db).items && |db.orders| == |old(db).orders|
      ensures forall i :: 0 <= i < |db.orders| ==>
                var o := old(db).orders[i];
                && (!(o.pay.Unpaid? && o.expiry < now) ==> db.orders[i] == o)
                && (o.pay.Unpaid? && o.expiry < now && Quiet(fault, old(tick), tick) ==>
                      db.orders[i] == o.(pay := Expired, chain := Failed))
      ensures forall x :: x in old(db).items && StillNeeded(old(db).orders, now, x) ==> x in db.items
      ensures Quiet(fault, old(tick), tick) && Quiet(store.fault, old(store.tick), store.tick) ==>
                forall x :: x in db.items && HasDue(old(db).orders, now, x) ==> StillNeeded(old(db).orders, now, x)
      ensures Quiet(fault, old(tick), tick) && Retention.Retained(old(db)) ==> Retention.Retained(db)
    {
      hide IsRun, Exec, Enabled, Next, ItemStore.IsRun, ItemStore.Exec, Quiet;
      hide ExpiredSoFar, DeletedSoFar, PaidExists, NoneLater, DueRows, ExpireAll, Deletable;
      var rows := DueRows(db.orders, now);
      ghost var s := db;
      ghost var failed: set<nat> := {};
      NoneExpiredYet(s.orders, s.items, Quiet(store.fault, old(store.tick), store.tick));
      assert rows[..0] == [] && rows[..|rows|] == rows;
      for i := 0 to |rows|
        invariant store.Valid() && db.items == store.bins && Reached(s) && run == old(run)
        invariant old(tick) <= tick && old(store.tick) <= store.tick
        invariant db == s.(orders := db.orders, items := db.items)
        invariant Quiet(fault, old(tick), tick) ==> failed == {}
        invariant forall r :: r in failed ==> r in rows[..i]
        invariant ExpiredSoFar(s.orders, rows[..i], failed, db.orders)
        invariant DeletedSoFar(s.orders, rows[..i], failed, db.orders, s.items, db.items,
                               Quiet(store.fault, old(store.tick), store.tick))
      {
        ghost var cur, items, since, stored := db.orders, db.items, tick, store.tick;
        assert rows[..i + 1] == rows[..i] + [rows[i]];
        DueUntouched(s.orders, i, now, failed, cur);
        var ok := ExpireOne(rows[i]);
        QuietSplit(fault, old(tick), since, tick);
        QuietSplit(store.fault, old(store.tick), stored, store.tick);
        ghost var before := Quiet(store.fault, old(store.tick), stored);
        ghost var after := Quiet(store.fault, old(store.tick), store.tick);
        if ok {
          DeletedOneMore(
            s.orders, rows[..i], failed, cur, rows[i], db.orders, s.items, items, db.items, before, after);
        } else {
          DeletedFails(s.orders, rows[..i], failed, cur, rows[i], s.items, db.items, before, after);
          failed := failed + {rows[i]};
          assert !Quiet(fault, since, tick) by { NotQuiet(fault, since, tick); }
        }
      }
      a := Expire(now, failed, db.items);
      ExpiryDone(s, now, failed, db.orders, db.items, Quiet(store.fault, old(store.tick), store.tick));
      ExpiredInFields(s.orders, now, failed);
      forall x {
        DeletableInFields(s.orders, now, failed, x);
      }
      if failed == {} && Retention.Retained(s) {
        Retention.WrittenIsHarmless(s.orders, now, db.items);
        Retention.ExpireRetainsExact(s, a);
      }
      Log(s, a);
    }

    // ---- bundles ----

    /** UpdateOrdOnChainStatus. */
    method UpdateOrdOnChainStatus(x: string, status: Chain) returns (ok: bool)
      modifies this`db, this`tick
      ensures ok == !fault(old(tick)) && tick == old(tick) + 1
      ensures db == old(db).(orders := db.orders)
      ensures db.orders == if ok then ApplyChain(old(db).orders, map[x := status]) else old(db).orders
    {
      ok := Try();
      if ok {
        db := db.(orders := ApplyChain(db.orders, map[x := status]));
      }
    }

    /** An item that is processed already passes its status on to all of its orders. */
    method Resolve(x: string, ghost was: seq<Order>, ghost copied: map<string, Chain>)
      returns (resolved: bool, ghost more: map<string, Chain>)
      requires CopiesOnly(was, copied) && db.orders == ApplyChain(was, copied)
      modifies this`db, this`tick
      ensures old(tick) <= tick && db == old(db).(orders := db.orders)
      ensures CopiesOnly(was, more) && db.orders == ApplyChain(was, more)
      ensures resolved <==> FirstProcessed(was, x).Some?
      ensures Quiet(fault, old(tick), tick) ==> more.Keys == copied.Keys + if resolved then {x} else {}
    {
      hide ApplyChain, CopiesOnly;
      more := copied;
      CopyingKeeps(was, copied, x);
      var od := FirstProcessed(db.orders, x);
      resolved := od.Some?;
      if resolved {
        var status := db.orders[od.value].chain;
        var ok := UpdateOrdOnChainStatus(x, status);
        if ok {
          ApplyOneMore(was, copied, x, status);
          CopyOneMore(was, copied, x);
          more := copied[x := status];
        }
      }
    }

    /**
     The loop of onChainOrds: the items of the chosen orders; orders of an item that is processed already take its
     status over.
     */
    method SelectItems(ords: seq<nat>) returns (itemIds: seq<string>, ghost copied: map<string, Chain>)
      requires forall j :: 0 <= j < |ords| ==> ords[j] < |db.orders|
      modifies this`db, this`tick
      ensures old(tick) <= tick && db == old(db).(orders := db.orders)
      ensures itemIds == Items(old(db).orders, Chosen(old(db).orders, ords))
      ensures CopiesOnly(old(db).orders, copied) && db.orders == ApplyChain(old(db).orders, copied)
      ensures Quiet(fault, old(tick), tick) ==> copied.Keys == Resolvable(old(db).orders, ords)
    {
      hide FirstProcessed, ApplyChain, CopiesOnly, Chosen, Total, Items, Resolvable, Quiet;
      ghost var was := db.orders;
      itemIds, copied := [], map[];
      var totalSize := 0;
      NothingCopied(was, ords);
      for i := 0 to |ords|
        invariant old(tick) <= tick && db == old(db).(orders := db.orders)
        invariant CopiesOnly(was, copied) && db.orders == ApplyChain(was, copied)
        invariant totalSize == Total(was, Chosen(was, ords[..i]))
        invariant itemIds == Items(was, Chosen(was, ords[..i]))
        invariant Quiet(fault, old(tick), tick) ==> copied.Keys == Resolvable(was, ords[..i])
      {
        ghost var since := tick;
        ChoosingStep(was, ords, i);
        SameOrder(was, copied, ords[i]);
        var ord := db.orders[ords[i]];
        if totalSize + ord.size <= MAX_PER_ON_CHAIN_SIZE {
          var resolved: bool;
          resolved, copied := Resolve(ord.item, was, copied);
          QuietSplit(fault, old(tick), since, tick);
          if !resolved {
            itemIds := itemIds + [ord.item];
            totalSize := totalSize + ord.size;
          }
        }
      }
      assert ords[..|ords|] == ords;
    }

    /** Building, sending and broadcasting a bundle; `newId` is the id of the transaction, if it could be sent. */
    method OnChainBundleTx(itemIds: seq<string>, newId: Option<string>)
      returns (batch: Option<Batch>)
      requires Faithful(decode)
      ensures batch.Some? <==> newId.Some?
      ensures batch.Some? ==> batch.value.arId == newId.value
      ensures batch.Some? ==>
                forall x :: x in batch.value.items <==> x in itemIds && x in db.items && decode(x).Some?
    {
      hide Loaded, MovedToEnd;
      // an error of getOnChainBundle is overwritten by the result of NewBundle
      var onChainItems, err := GetOnChainBundle(itemIds, db.items, decode);
      if newId.None? {
        return None;
      }
      forall x ensures x in Ids(onChainItems) <==> x in itemIds && x in db.items && decode(x).Some? {
        BundledIs(itemIds, db.items, decode, onChainItems, x);
      }
      return Some(Batch(newId.value, Ids(onChainItems)));
    }

    /** updateOnChainInfo: the record first, then the status of each item; without a record nothing is marked. */
    method UpdateOnChainInfo(b: Batch, status: Chain) returns (ghost recorded: bool, ghost marked: set<string>)
      modifies this`db, this`tick
      ensures old(tick) <= tick && db == old(db).(orders := db.orders, arTxs := db.arTxs)
      ensures db.arTxs == if recorded then Recorded(old(db).arTxs, b) else old(db).arTxs
      ensures db.orders == ApplyChain(old(db).orders, Mark(marked, status))
      ensures marked <= ItemSet(b.items) && (!recorded ==> marked == {})
      ensures Quiet(fault, old(tick), tick) ==> recorded && marked == ItemSet(b.items)
    {
      hide Quiet;
      recorded, marked := !fault(tick), {};
      NothingMarked(db.orders, status);
      ghost var start := tick;
      var inserted := Try();
      if !inserted {
        NotQuiet(fault, start, tick);
        return;
      }
      db := db.(arTxs := Recorded(db.arTxs, b));
      hide ApplyChain, Mark;
      ghost var was := db.orders;
      for i := 0 to |b.items|
        invariant start < tick && db == old(db).(orders := db.orders, arTxs := db.arTxs)
        invariant db.arTxs == Recorded(old(db).arTxs, b)
        invariant db.orders == ApplyChain(was, Mark(marked, status))
        invariant marked <= ItemSet(b.items[..i])
        invariant Quiet(fault, start, tick) ==> marked == ItemSet(b.items[..i])
      {
        ghost var since := tick;
        var ok := UpdateOrdOnChainStatus(b.items[i], status);
        QuietSplit(fault, start, since, tick);
        assert b.items[..i + 1] == b.items[..i] + [b.items[i]];
        assert ItemSet(b.items[..i + 1]) == ItemSet(b.items[..i]) + {b.items[i]};
        if ok {
          MarkOneMore(was, marked, b.items[i], status);
          marked := marked + {b.items[i]};
        } else {
          NotQuiet(fault, since, tick);
        }
      }
      assert b.items[..|b.items|] == b.items;
    }

    /** onChainOrds: the bundle of the chosen items is sent, if there is one. */
    method OnChainOrds(ords: seq<nat>, newId: Option<string>)
      returns (batch: Option<Batch>, ghost copied: map<string, Chain>)
      requires Faithful(decode) && (newId.Some? ==> newId.value !in db.sent)
      requires forall j :: 0 <= j < |ords| ==> ords[j] < |db.orders|
      modifies this`db, this`tick
      ensures old(tick) <= tick && db == old(db).(orders := db.orders, sent := db.sent)
      ensures CopiesOnly(old(db).orders, copied) && db.orders == ApplyChain(old(db).orders, copied)
      ensures Quiet(fault, old(tick), tick) ==> copied.Keys == Resolvable(old(db).orders, ords)
      ensures (batch.Some? <==> newId.Some?) && db.sent == Sent(old(db).sent, batch)
      ensures batch.Some? ==> batch.value.arId == newId.value && FreshBatch(old(db), ords, batch.value)
      ensures batch.Some? ==> Bundled(old(db), ords, decode, batch.value) && AllDecode(batch.value.items, decode)
    {
      ghost var s := db;
      var itemIds: seq<string>;
      itemIds, copied := SelectItems(ords);
      hide FirstProcessed, ApplyChain, CopiesOnly, Chosen, Items, Resolvable, Quiet, FreshBatch;
      batch := OnChainBundleTx(itemIds, newId);
      db := db.(sent := Sent(db.sent, batch));
      if batch.Some? {
        BundleIsFresh(s, ords, batch.value);
      }
    }

    /** The bundle job records what it has sent. */
    method RecordBundle(b: Batch)
      requires Valid() && db.bundleJob == Some(b)
      modifies this`db, this`tick, this`run
      ensures Valid() && old(tick) <= tick && db.bundleJob.None?
      ensures run.Then? && run.before == old(run) && run.act.BundleRecord?
      ensures Quiet(fault, old(tick), tick) ==> run.act.recorded && run.act.marked == ItemSet(b.items)
    {
      hide IsRun, Exec, Enabled, Next, ItemStore.IsRun, ItemStore.Exec, Quiet, ApplyChain, Mark;
      ghost var s := db;
      ghost var recorded: bool;
      ghost var marked: set<string>;
      recorded, marked := UpdateOnChainInfo(b, Pending);
      db := db.(bundleJob := None);
      BundleRecordStep(s, recorded, marked);
      Log(s, BundleRecord(recorded, marked));
    }

    /** onChainBundleItems: a bundle is sent and recorded, with everything marked pending if no write fails. */
    method OnChainBundleItems(newId: Option<string>)
      requires Valid() && db.bundleJob.None? && (newId.Some? ==> newId.value !in db.sent)
      modifies this`db, this`tick, this`run
      ensures Valid() && old(tick) <= tick && db.bundleJob.None?
      ensures var ords := NeedRows(old(db).orders, false, 2000);
              if ords == [] then
                db == old(db) && run == old(run)
              else
                && run.Then?
                && var send := if newId.Some? then run.before else run;
                && send.Then? && send.before == old(run) && send.act.BundleSend? && send.act.ords == ords
                && (send.act.batch.Some? <==> newId.Some?)
                && (newId.Some? ==>
                      && send.act.batch.value.arId == newId.value
                      && Bundled(old(db), ords, decode, send.act.batch.value)
                      && run.act.BundleRecord?)
                && (Quiet(fault, old(tick), tick) ==>
                      && send.act.copied.Keys == Resolvable(old(db).orders, ords)
                      && (newId.Some? ==> run.act.recorded && run.act.marked == ItemSet(send.act.batch.value.items)))
    {
      hide IsRun, Exec, Enabled, Next, ItemStore.IsRun, ItemStore.Exec;
      hide FirstProcessed, ApplyChain, CopiesOnly, Chosen, Items, Resolvable, Quiet, FreshBatch, NeedOnChain, Bundled;
      hide Mark, BundlesDecode, Faithful;
      var ords := NeedRows(db.orders, false, BATCH_LIMIT);
      if |ords| == 0 {
        return;
      }
      ghost var s := db;
      NeedOnChainRows(s.orders, ords, false);
      ghost var copied: map<string, Chain>;
      var batch: Option<Batch>;
      batch, copied := OnChainOrds(ords, newId);
      db := db.(bundleJob := batch);
      BundleSendStep(s, ords, copied, batch);
      Log(s, BundleSend(ords, copied, batch));
      if batch.None? {
        return;
      }
      ghost var mid := tick;
      RecordBundle(batch.value);
      QuietSplit(fault, old(tick), mid, tick);
    }

    /** onChainItemsBySeq up to the point where it blocks on the confirmations. */
    method SendBySeq(newId: Option<string>)
      requires Valid() && db.seqJob.None? && (newId.Some? ==> newId.value !in db.sent)
      modifies this`db, this`tick, this`run
      ensures Valid() && old(tick) <= tick
      ensures var ords := NeedRows(old(db).orders, true, 2000);
              if ords == [] then
                db == old(db) && run == old(run)
              else
                && run.Then? && run.before == old(run) && run.act.SeqSend? && run.act.ords == ords
                && (run.act.batch.Some? <==> newId.Some?)
                && (newId.Some? ==>
                      && run.act.batch.value.arId == newId.value
                      && Bundled(old(db), ords, decode, run.act.batch.value))
                && (Quiet(fault, old(tick), tick) ==> run.act.copied.Keys == Resolvable(old(db).orders, ords))
    {
      hide IsRun, Exec, Enabled, Next, ItemStore.IsRun, ItemStore.Exec;
      hide FirstProcessed, ApplyChain, CopiesOnly, Chosen, Items, Resolvable, Quiet, FreshBatch, NeedOnChain, Bundled;
      var ords := NeedRows(db.orders, true, BATCH_LIMIT);
      if |ords| == 0 {
        return;
      }
      ghost var s := db;
      NeedOnChainRows(s.orders, ords, true);
      ghost var copied: map<string, Chain>;
      var batch: Option<Batch>;
      batch, copied := OnChainOrds(ords, newId);
      db := db.(seqJob := batch);
      SeqSendStep(s, ords, copied, batch);
      Log(s, SeqSend(ords, copied, batch));
    }

    /** The rest of onChainItemsBySeq, with the watcher's answer. */
    method RecordBySeq(status: bool)
      requires Valid() && db.seqJob.Some? && (status ==> db.seqJob.value.arId in db.confirmed)
      modifies this`db, this`tick, this`run
      ensures Valid() && old(tick) <= tick && db.seqJob.None?
      ensures !status ==> run == Then(old(run), SeqDrop)
      ensures status ==>
                && run.Then? && run.before == old(run) && run.act.SeqRecord?
                && (Quiet(fault, old(tick), tick) ==>
                      run.act.recorded && run.act.marked == ItemSet(old(db).seqJob.value.items))
    {
      hide IsRun, Exec, ItemStore.IsRun, ItemStore.Exec, Quiet;
      ghost var s := db;
      if !status {
        db := db.(seqJob := None);
        Log(s, SeqDrop);
        return;
      }
      hide Enabled, Next, ApplyChain, Mark;
      ghost var recorded: bool;
      ghost var marked: set<string>;
      recorded, marked := UpdateOnChainInfo(db.seqJob.value, Success);
      db := db.(seqJob := None);
      SeqRecordStep(s, recorded, marked);
      Log(s, SeqRecord(recorded, marked));
    }

    // ---- watching and retrying ----

    method MarkFailed(k: nat)
      requires Valid() && k < |db.arTxs| && db.arTxs[k].status.Pending?
      modifies this`db, this`tick, this`run
      ensures Valid() && ExtendsBy(old(run), run, ByWatch) && tick == old(tick) + 1
      ensures db == old(db).(arTxs := db.arTxs)
      ensures db.arTxs == if fault(old(tick)) then old(db).arTxs
                          else SetArStatus(old(db).arTxs, old(db).arTxs[k].arId, Failed)
    {
      hide IsRun, Exec, Enabled, Next, ItemStore.IsRun, ItemStore.Exec;
      ghost var s := db;
      var ok := Try();
      if ok {
        db := db.(arTxs := SetArStatus(db.arTxs, db.arTxs[k].arId, Failed));
        WatchFailStep(s, k);
        Log(s, WatchFail(k));
      }
    }

    /** The record and all orders of its items succeed in one database transaction, or nothing does. */
    method MarkSucceeded(k: nat)
      requires Valid() && k < |db.arTxs| && db.arTxs[k].status.Pending? && db.arTxs[k].arId in db.confirmed
      modifies this`db, this`tick, this`run
      ensures Valid() && ExtendsBy(old(run), run, ByWatch) && old(tick) <= tick
      ensures db == old(db).(arTxs := db.arTxs, orders := db.orders)
      ensures || (db.orders == old(db).orders && db.arTxs == old(db).arTxs && !Quiet(fault, old(tick), tick))
              || (&& db.arTxs == SetArStatus(old(db).arTxs, old(db).arTxs[k].arId, Success)
                  && db.orders
                     == ApplyChain(old(db).orders, Mark(ItemSet(old(db).arTxs[k].items), Success)))
    {
      hide IsRun, Exec, Enabled, Next, ItemStore.IsRun, ItemStore.Exec, ApplyChain, Mark, Quiet;
      ghost var s := db;
      var tx := db.arTxs[k];
      ghost var start := tick;
      var open := Try();
      if !open {
        NotQuiet(fault, start, tick);
        return;
      }
      var work := db.orders;
      NothingMarked(work, Success);
      assert ItemSet(tx.items[..0]) == {};
      for i := 0 to |tx.items|
        invariant start < tick && db == s && run == old(run)
        invariant open ==> work == ApplyChain(s.orders, Mark(ItemSet(tx.items[..i]), Success))
        invariant open || !Quiet(fault, start, tick)
      {
        // after a rollback the transaction refuses everything
        if open {
          ghost var since := tick;
          open := Try();
          QuietSplit(fault, start, since, tick);
          assert tx.items[..i + 1] == tx.items[..i] + [tx.items[i]];
          assert ItemSet(tx.items[..i + 1]) == ItemSet(tx.items[..i]) + {tx.items[i]};
          MarkOneMore(s.orders, ItemSet(tx.items[..i]), tx.items[i], Success);
          if open {
            work := ApplyChain(work, map[tx.items[i] := Success]);
          } else {
            NotQuiet(fault, since, tick);
          }
        }
      }
      assert tx.items[..|tx.items|] == tx.items;
      if open {
        ghost var since := tick;
        var committed := Try();
        QuietSplit(fault, start, since, tick);
        if committed {
          db := db.(arTxs := SetArStatus(db.arTxs, tx.arId, Success), orders := work);
          WatchSucceedStep(s, k);
          Log(s, WatchSucceed(k));
        } else {
          NotQuiet(fault, since, tick);
        }
      }
    }

    /** watchArTx: every pending record is settled as the network says, with the orders of a confirmed one. */
    method WatchArTx(answers: string -> Answer)
      requires Valid() && forall arId :: answers(arId).Confirmed? ==> arId in db.confirmed
      modifies this`db, this`tick, this`run
      ensures Valid() && ExtendsBy(old(run), run, ByWatch) && old(tick) <= tick
      ensures db == old(db).(arTxs := db.arTxs, orders := db.orders) && |db.arTxs| == |old(db).arTxs|
      ensures forall k :: 0 <= k < |db.arTxs| ==>
                var x, y := old(db).arTxs[k], db.arTxs[k];
                if x.status.Pending? then
                  && Watched(x, y, answers(x.arId), Quiet(fault, old(tick), tick))
                  && (y.status.Success? ==> AllSucceeded(db.orders, x.items))
                else y == x
      ensures OnlySucceeded(old(db).arTxs, db.arTxs, old(db).orders, db.orders)
    {
      hide IsRun, Exec, Enabled, Next, ItemStore.IsRun, ItemStore.Exec, Quiet;
      hide Treated, OrdersFollow, Watched, AllSucceeded, OnlySucceeded;
      var rows := RowsWith(db.arTxs, Pending);
      ghost var s := db;
      NoneTreated(rows, s.arTxs, Watching(answers), Quiet(fault, old(tick), tick));
      NoneFollows(rows, s.arTxs, s.orders);
      NoneSucceeded(s.arTxs, s.orders);
      for i := 0 to |rows|
        invariant Valid() && ExtendsBy(old(run), run, ByWatch) && old(tick) <= tick
        invariant db == s.(arTxs := db.arTxs, orders := db.orders)
        invariant Treated(rows, i, s.arTxs, db.arTxs, Watching(answers), Quiet(fault, old(tick), tick))
        invariant OrdersFollow(rows, i, s.arTxs, db.arTxs, db.orders)
        invariant OnlySucceeded(s.arTxs, db.arTxs, s.orders, db.orders)
      {
        ghost var t, start, since := db, run, tick;
        NextUntreated(rows, i, s.arTxs, t.arTxs, Watching(answers), Quiet(fault, old(tick), tick));
        WatchOne(rows[i], answers(db.arTxs[rows[i]].arId));
        QuietSplit(fault, old(tick), since, tick);
        WatchingLenient(answers);
        OneMoreTreated(rows, i, s.arTxs, t.arTxs, db.arTxs, Watching(answers), Quiet(fault, old(tick), since),
                       Quiet(fault, since, tick), Quiet(fault, old(tick), tick));
        OneMoreFollows(rows, i, s.arTxs, t.arTxs, db.arTxs, t.orders, db.orders);
        OneMoreSucceeded(s.arTxs, t.arTxs, db.arTxs, rows[i], s.orders, t.orders, db.orders);
        ExtendsByTransitive(old(run), start, run, ByWatch);
      }
      AllTreated(rows, s.arTxs, db.arTxs, Watching(answers), Quiet(fault, old(tick), tick));
      AllFollow(rows, s.arTxs, db.arTxs, db.orders);
    }

    method WatchOne(k: nat, answer: Answer)
      requires Valid() && k < |db.arTxs| && db.arTxs[k].status.Pending?
      requires answer.Confirmed? ==> db.arTxs[k].arId in db.confirmed
      modifies this`db, this`tick, this`run
      ensures Valid() && ExtendsBy(old(run), run, ByWatch) && old(tick) <= tick
      ensures db == old(db).(arTxs := db.arTxs, orders := db.orders)
      ensures |db.arTxs| == |old(db).arTxs| && db.arTxs == old(db).arTxs[k := db.arTxs[k]]
      ensures Watched(old(db).arTxs[k], db.arTxs[k], answer, Quiet(fault, old(tick), tick))
      ensures db.arTxs[k].status.Success? ==> AllSucceeded(db.orders, old(db).arTxs[k].items)
      ensures |db.orders| == |old(db).orders| && forall i :: 0 <= i < |db.orders| ==>
                || db.orders[i] == old(db).orders[i]
                || (db.orders[i] == old(db).orders[i].(chain := Success) && db.arTxs[k].status.Success?
                    && old(db).orders[i].item in old(db).arTxs[k].items)
    {
      hide IsRun, Exec, Enabled, Next, ItemStore.IsRun, ItemStore.Exec;
      hide ApplyChain, Mark, AllSucceeded, SetArStatus;
      ghost var s := db;
      assert ChainStatus.DistinctIds(s.arTxs) by { ChainStatus.InvHolds(run); }
      assert s.arTxs[k := s.arTxs[k]] == s.arTxs;
      match answer {
        case Open =>
        case Gone =>
          SetArStatusOne(s.arTxs, k, Failed);
          MarkFailed(k);
        case Confirmed =>
          SetArStatusOne(s.arTxs, k, Success);
          SuccessReaches(s.orders, s.arTxs[k].items);
          MarkSucceeded(k);
      }
    }

    /** One failed record: its whole bundle is sent again under a new id. */
    method RetryOne(k: nat, newId: Option<string>) returns (sent: bool)
      requires Valid() && k < |db.arTxs| && db.arTxs[k].status.Failed?
      requires newId.Some? ==> newId.value !in db.sent
      modifies this`db, this`tick, this`run
      ensures Valid() && ExtendsBy(old(run), run, ByRetry) && old(tick) <= tick && (sent <==> newId.Some?)
      ensures db == old(db).(arTxs := db.arTxs, sent := db.sent)
      ensures !sent ==> db == old(db) && run == old(run) && tick == old(tick)
      ensures sent ==>
                && newId.value in db.sent && db.sent[newId.value] == ItemSet(old(db).arTxs[k].items)
                && db.sent == old(db).sent[newId.value := db.sent[newId.value]]
                && |db.arTxs| == |old(db).arTxs| && db.arTxs == old(db).arTxs[k := db.arTxs[k]]
                && Resent(old(db).arTxs[k], db.arTxs[k], newId, Quiet(fault, old(tick), tick))
    {
      hide IsRun, Exec, Enabled, Next, ItemStore.IsRun, ItemStore.Exec;
      ghost var s := db;
      var itemIds := db.arTxs[k].items;
      var batch := OnChainBundleTx(itemIds, newId);
      if batch.None? {
        return false;
      }
      assert ItemSet(itemIds) <= s.items && ItemSet(batch.value.items) == ItemSet(itemIds) by {
        ChainStatus.InvHolds(run);
        assert ChainStatus.Truthful(s, s.arTxs[k]);
        RecordedDecodes(run, decode);
      }
      var recorded := Try();
      db := db.(sent := Sent(db.sent, batch));
      if recorded {
        db := db.(arTxs := db.arTxs[k := db.arTxs[k].(arId := newId.value, status := Pending)]);
      }
      assert s.arTxs[k := s.arTxs[k]] == s.arTxs;
      RetryStep(s, k, batch.value, recorded);
      Log(s, Retry(k, newId.value, recorded));
      return true;
    }

    /**
     retryOnChainArTx: failed records are sent again in full, up to the first that cannot be sent; the others are not
     touched.
     */
    method RetryOnChainArTx(newIds: nat -> Option<string>)
      requires Valid()
      requires FreshIds(newIds, [], db.sent)
      modifies this`db, this`tick, this`run
      ensures Valid() && ExtendsBy(old(run), run, ByRetry) && old(tick) <= tick
      ensures db == old(db).(arTxs := db.arTxs, sent := db.sent) && |db.arTxs| == |old(db).arTxs|
      ensures forall k :: 0 <= k < |db.arTxs| ==>
                || db.arTxs[k] == old(db).arTxs[k]
                || (&& old(db).arTxs[k].status.Failed?
                    && Resent(old(db).arTxs[k], db.arTxs[k], newIds(k), Quiet(fault, old(tick), tick)))
      ensures Quiet(fault, old(tick), tick) && (forall k :: 0 <= k < |db.arTxs| ==> newIds(k).Some?) ==>
                forall k :: 0 <= k < |db.arTxs| && old(db).arTxs[k].status.Failed? ==>
                  Resent(old(db).arTxs[k], db.arTxs[k], newIds(k), true)
    {
      hide IsRun, Exec, Enabled, Next, ItemStore.IsRun, ItemStore.Exec, Quiet, Treated, Resent;
      var rows := RowsWith(db.arTxs, Failed);
      ghost var s := db;
      NoneTreated(rows, s.arTxs, Retrying(newIds), Quiet(fault, old(tick), tick));
      for i := 0 to |rows|
        invariant Valid() && ExtendsBy(old(run), run, ByRetry) && old(tick) <= tick
        invariant db == s.(arTxs := db.arTxs, sent := db.sent)
        invariant FreshIds(newIds, rows[..i], db.sent)
        invariant Treated(rows, i, s.arTxs, db.arTxs, Retrying(newIds), Quiet(fault, old(tick), tick))
      {
        ghost var t, start, since := db, run, tick;
        NextUntreated(rows, i, s.arTxs, t.arTxs, Retrying(newIds), Quiet(fault, old(tick), tick));
        assert newIds(rows[i]).Some? ==> newIds(rows[i]).value !in db.sent;
        hide FreshIds;
        var sent := RetryOne(rows[i], newIds(rows[i]));
        if !sent {
          RetriedInOrder(i, s.arTxs, db.arTxs, newIds, Quiet(fault, old(tick), tick));
          return;
        }
        QuietSplit(fault, old(tick), since, tick);
        RetryingLenient(newIds);
        OneMoreTreated(rows, i, s.arTxs, t.arTxs, db.arTxs, Retrying(newIds), Quiet(fault, old(tick), since),
                       Quiet(fault, since, tick), Quiet(fault, old(tick), tick));
        FreshIdsStep(newIds, rows, i, t.sent, db.sent[newIds(rows[i]).value]);
        ExtendsByTransitive(old(run), start, run, ByRetry);
      }
      RetriedInOrder(|rows|, s.arTxs, db.arTxs, newIds, Quiet(fault, old(tick), tick));
    }

    // ---- all of it together ----

    /** Whatever the jobs have done, with whatever writes failing, the tables are consistent. */
    lemma Consistent(acc: Account)
      requires Valid()
      ensures Receipts.Inv(db) && Payments.Inv(db) && ChainStatus.Inv(db)
      ensures ApiKeys.Balanced(db, acc) && ApiKeys.NonNegative(db)
    {
      Receipts.TransfersAreRight(run);
      Payments.InvHolds(run);
      ChainStatus.InvHolds(run);
      ApiKeys.InvHolds(run, acc);
    }
  }
}
