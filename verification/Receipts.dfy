/** What becomes of a receipt: it is spent, or refunded once; never both. */
module Receipts {
  import opened Basics
  import opened Tables

  /** What one step may do to a receipt's status. */
  predicate Moves(x: Status, y: Status) {
    || x == y
    || (x.Unspent? && (y.Spent? || y.UnRefund?))
    || (x.UnRefund? && y.Refunded?)
    || (x.Refunded? && y.RefundErr?)
  }

  /** How far a status has come on the way to a refund. */
  function RefundStage(x: Status): nat {
    match x
    case Unspent => 0
    case Spent => 0
    case UnRefund => 1
    case Refunded => 2
    case RefundErr => 3
  }

  // ---- invariants ----

  /** The merge job holds unspent receipts and the refund job unrefunded ones, each once. */
  ghost predicate Handled(s: Db) {
    Selects(s.receipts, s.merging, Unspent) && Selects(s.receipts, s.refunding, UnRefund)
  }

  /** A transfer was sent for a receipt marked refunded, for its amount and to its sender. */
  ghost predicate TransferRight(s: Db, tr: Transfer) {
    && tr.row < |s.receipts| && s.receipts[tr.row].status in {Refunded, RefundErr}
    && s.receipts[tr.row].amount == Int(tr.amount)
    && s.receipts[tr.row].tag == tr.tag && s.receipts[tr.row].from == tr.to
  }

  ghost predicate OnceEach(s: Db) {
    forall t, u :: 0 <= t < u < |s.transfers| ==> s.transfers[t].row != s.transfers[u].row
  }

  /** The receipt the refund job has taken up is marked, and its transfer is not sent before it is tried. */
  ghost predicate TakenUp(s: Db) {
    && (!s.refund.Idle? ==> s.refund.row < |s.receipts| && s.receipts[s.refund.row].status.Refunded?)
    && (s.refund.Marked? ==> forall t :: 0 <= t < |s.transfers| ==> s.transfers[t].row != s.refund.row)
  }

  ghost predicate Inv(s: Db) {
    Handled(s) && (forall tr :: tr in s.transfers ==> TransferRight(s, tr)) && OnceEach(s) && TakenUp(s)
  }

  lemma StepMoves(s: Db, a: Action, row: nat)
    requires Handled(s) && TakenUp(s) && Enabled(s, a) && row < |s.receipts|
    ensures var t := Next(s, a);
            && row < |t.receipts| && Moves(s.receipts[row].status, t.receipts[row].status)
            && t.receipts[row] == s.receipts[row].(status := t.receipts[row].status)
  {
    if !TouchesReceipts(a) {
      assert Next(s, a).receipts == s.receipts;
    }
  }

  lemma SelectsRest(receipts: seq<Receipt>, rows: seq<nat>, status: Status)
    requires Selects(receipts, rows, status) && rows != []
    ensures Selects(receipts, rows[1..], status) && rows[0] !in rows[1..]
  {}

  lemma SelectsAfterSet(receipts: seq<Receipt>, rows: seq<nat>, status: Status, row: nat, to: Status)
    requires Selects(receipts, rows, status) && row < |receipts| && row !in rows
    ensures Selects(SetStatus(receipts, row, to), rows, status)
  {
    assert forall j :: 0 <= j < |rows| ==> rows[j] in rows;
  }

  /** A receipt in one status is in no list of receipts in another. */
  lemma NotSelected(receipts: seq<Receipt>, rows: seq<nat>, status: Status, row: nat)
    requires Selects(receipts, rows, status) && row < |receipts| && receipts[row].status != status
    ensures row !in rows
  {}

  lemma HandledPreserved(s: Db, a: Action)
    requires Handled(s) && TakenUp(s) && Enabled(s, a)
    ensures Handled(Next(s, a))
  {
    if a.MergePay? || a.MergeReject? || a.MergeDeposit? || a.MergeSkip? {
      var row := s.merging[0];
      SelectsRest(s.receipts, s.merging, Unspent);
      NotSelected(s.receipts, s.refunding, UnRefund, row);
      var to := if a.MergeReject? then UnRefund else Spent;
      SelectsAfterSet(s.receipts, s.merging[1..], Unspent, row, to);
      SelectsAfterSet(s.receipts, s.refunding, UnRefund, row, to);
    } else if a.RefundMark? || a.RefundSkip? {
      var row := s.refunding[0];
      SelectsRest(s.receipts, s.refunding, UnRefund);
      NotSelected(s.receipts, s.merging, Unspent, row);
      SelectsAfterSet(s.receipts, s.merging, Unspent, row, Refunded);
      SelectsAfterSet(s.receipts, s.refunding[1..], UnRefund, row, Refunded);
    } else if a.RefundNote? {
      NotSelected(s.receipts, s.merging, Unspent, s.refund.row);
      NotSelected(s.receipts, s.refunding, UnRefund, s.refund.row);
      SelectsAfterSet(s.receipts, s.merging, Unspent, s.refund.row, RefundErr);
      SelectsAfterSet(s.receipts, s.refunding, UnRefund, s.refund.row, RefundErr);
    } else {
      assert s.receipts <= Next(s, a).receipts;
    }
  }

  lemma TransfersPreserved(s: Db, a: Action)
    requires Inv(s) && Enabled(s, a)
    ensures forall tr :: tr in Next(s, a).transfers ==> TransferRight(Next(s, a), tr)
    ensures OnceEach(Next(s, a))
  {
    var t := Next(s, a);
    forall tr | tr in t.transfers ensures TransferRight(t, tr) {
      if tr in s.transfers {
        StepMoves(s, a, tr.row);
      }
    }
  }

  lemma MarkedStays(s: Db, a: Action, row: nat)
    requires Handled(s) && TakenUp(s) && Enabled(s, a) && !a.RefundNote?
    requires row < |s.receipts| && s.receipts[row].status.Refunded?
    ensures row < |Next(s, a).receipts| && Next(s, a).receipts[row].status.Refunded?
  {
    if !TouchesReceipts(a) {
      assert Next(s, a).receipts == s.receipts;
    }
  }

  lemma TakenUpPreserved(s: Db, a: Action)
    requires Inv(s) && Enabled(s, a)
    ensures TakenUp(Next(s, a))
  {
    if a.RefundMark? {
      assert s.receipts[s.refunding[0]].status == UnRefund;
      forall t | 0 <= t < |s.transfers| ensures s.transfers[t].row != s.refunding[0] {
        assert s.transfers[t] in s.transfers;
        assert TransferRight(s, s.transfers[t]);
      }
    } else if a.RefundNote? || s.refund.Idle? {
      assert Next(s, a).refund.Idle?;
    } else {
      MarkedStays(s, a, s.refund.row);
      assert Next(s, a).refund == s.refund || !Next(s, a).refund.Marked?;
      assert Next(s, a).refund.Marked? ==> Next(s, a).transfers == s.transfers;
    }
  }

  /**
   Merging, refunding and re-delivery interleaved write by write, with crashes: no receipt gets a second transfer,
   and each transfer goes for the whole amount to the sender of a receipt that is, and stays, marked refunded.
   */
  lemma {:induction false} TransfersAreRight(run: Run<Action>)
    requires IsRun(INIT, run)
    ensures Inv(Exec(INIT, run))
  {
    if run.Then? {
      var s := Exec(INIT, run.before);
      TransfersAreRight(run.before);
      HandledPreserved(s, run.act);
      TransfersPreserved(s, run.act);
      TakenUpPreserved(s, run.act);
    }
  }

  /** Over any stretch of a run a status only moves on: spent stays spent, and the way to a refund is never reversed. */
  lemma {:induction false} StatusOnlyMovesOn(run: Run<Action>, longer: Run<Action>, row: nat)
    requires IsRun(INIT, longer) && Extends(run, longer)
    ensures IsRun(INIT, run)
    ensures row < |Exec(INIT, run).receipts| ==>
              && row < |Exec(INIT, longer).receipts|
              && var x, y := Exec(INIT, run).receipts[row].status, Exec(INIT, longer).receipts[row].status;
                 && RefundStage(x) <= RefundStage(y)
                 && (x.Spent? ==> y.Spent?)
                 && (RefundStage(x) > 0 ==> !y.Spent?)
  {
    if run != longer {
      StatusOnlyMovesOn(run, longer.before, row);
      TransfersAreRight(longer.before);
      if row < |Exec(INIT, run).receipts| {
        StepMoves(Exec(INIT, longer.before), longer.act, row);
      }
    }
  }

  /** In particular a spent receipt is never refunded, at any later point of a run. */
  lemma SpentNeverRefunded(run: Run<Action>, longer: Run<Action>, row: nat, tr: Transfer)
    requires IsRun(INIT, longer) && Extends(run, longer)
    requires IsRun(INIT, run) && row < |Exec(INIT, run).receipts| && Exec(INIT, run).receipts[row].status == Spent
    requires tr in Exec(INIT, longer).transfers
    ensures tr.row != row
  {
    StatusOnlyMovesOn(run, longer, row);
    TransfersAreRight(longer);
    assert TransferRight(Exec(INIT, longer), tr);
  }
}
