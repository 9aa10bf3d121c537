/**
 Where refunds go: every refund call names a payment that a verified success
 reported for that very transaction.
 */
module BillingReports {
  import opened Wrappers
  import opened BillingModel
  import opened BillingSteps
  import opened BillingInvariant
  import opened BillingKeepsTokens
  import opened BillingCheckout
  import opened BillingRuns
  import opened BillingSweeps

  /** A payment the provider reported as succeeded for a transaction. */
  datatype Report = Report(tx: nat, paymentId: string)

  function ReportOf(a: Action): set<Report> {
    if a.PaymentSucceeded? then {Report(a.tx, a.info.id)} else {}
  }

  /** A transaction flagged for a refund carries the id of a reported payment. */
  ghost predicate FlagsReported(txs: map<nat, Transaction>, reports: set<Report>) {
    forall i <- txs :: txs[i].requiresCompensation ==>
      txs[i].externalId.Some? && Report(i, txs[i].externalId.value) in reports
  }

  ghost predicate JobsReported(jobs: map<nat, RefundJob>, reports: set<Report>) {
    forall j <- jobs :: Report(jobs[j].tx, jobs[j].paymentId) in reports
  }

  ghost predicate CallsReported(calls: seq<RefundCall>, reports: set<Report>) {
    forall c :: 0 <= c < |calls| ==> Report(calls[c].tx, calls[c].paymentId) in reports
  }

  ghost predicate AllReported(db: Db, reports: set<Report>) {
    FlagsReported(db.txs, reports) && JobsReported(db.jobs, reports) && CallsReported(db.calls, reports)
  }

  /** The refund tables are the same, and every flagged transaction was flagged before with the same payment. */
  lemma NoNewFlags(db: Db, after: Db, reports: set<Report>)
    requires AllReported(db, reports) && after.jobs == db.jobs && after.calls == db.calls
    requires forall i <- after.txs :: after.txs[i].requiresCompensation ==>
               i in db.txs && db.txs[i].requiresCompensation && after.txs[i].externalId == db.txs[i].externalId
    ensures AllReported(after, reports)
  {
  }

  /** Releasing an order changes none of this. */
  lemma ReleaseKeepsFlags(db: Db, i: nat)
    requires i in db.txs
    ensures var after := ReleaseOrderResources(db, i);
            && after.jobs == db.jobs && after.calls == db.calls && after.txs.Keys == db.txs.Keys
            && after.txs[i].requiresCompensation == db.txs[i].requiresCompensation
            && after.txs[i].externalId == db.txs[i].externalId
            && (forall j <- db.txs :: j != i ==> after.txs[j] == db.txs[j])
  {
    match db.txs[i].subscription
    case None => ReturnKeepsFlags(db, i);
    case Some(s) => ReturnKeepsFlags(db.(enrs := CancelLive(db.enrs, s), subs := CancelPendingSubscription(db.subs, s)), i);
  }

  lemma ReturnKeepsFlags(db: Db, i: nat)
    requires i in db.txs
    ensures var after := ReturnDepositHold(db, i);
            && after.jobs == db.jobs && after.calls == db.calls && after.txs.Keys == db.txs.Keys
            && after.txs[i].requiresCompensation == db.txs[i].requiresCompensation
            && after.txs[i].externalId == db.txs[i].externalId
            && (forall j <- db.txs :: j != i ==> after.txs[j] == db.txs[j])
  {
  }

  /** One transaction is stamped with the reported payment; the other transactions and the refund tables are kept. */
  ghost predicate Stamped(db: Db, after: Db, i: nat, paymentId: string) {
    && after.jobs == db.jobs && after.calls == db.calls && after.txs.Keys == db.txs.Keys
    && i in after.txs && after.txs[i].externalId == Some(paymentId)
    && (forall j <- db.txs :: j != i ==> after.txs[j] == db.txs[j])
  }

  lemma ReleaseStamps(db: Db, i: nat, t: Transaction, paymentId: string)
    requires i in db.txs && t.externalId == Some(paymentId)
    ensures Stamped(db, ReleaseOrderResources(SetTx(db, i, t), i), i, paymentId)
  {
    ReleaseKeepsFlags(SetTx(db, i, t), i);
  }

  lemma OutcomeStamps(db: Db, i: nat, after: Db, error: Option<Reason>, o: Outcome, paymentId: string)
    requires i in db.txs && Explains(db, i, after, error, o) && (!o.Ignored? ==> o.t.externalId == Some(paymentId))
    ensures after == db || Stamped(db, after, i, paymentId)
  {
    match o
    case Ignored =>
    case FlaggedLate(t) =>
    case ClosedAs(t) => ReleaseStamps(db, i, t, paymentId);
    case FulfilledAs(t, window) =>
  }

  lemma SuccessStamps(db: Db, w: World, i: nat, info: PaymentInfo, now: Moment)
    requires Orders(db) && WorldOk(w) && i in db.txs
    ensures var after := ApplySuccess(db, w, i, info, now).0; after == db || Stamped(db, after, i, info.id)
  {
    var o := SuccessOutcome(db, w, i, info, now);
    var r := ApplySuccess(db, w, i, info, now);
    OutcomeStamps(db, i, r.0, r.1, o, info.id);
  }

  lemma StampReported(db: Db, after: Db, i: nat, paymentId: string, reports: set<Report>)
    requires AllReported(db, reports) && Stamped(db, after, i, paymentId)
    ensures AllReported(after, reports + {Report(i, paymentId)})
  {
    forall j | j in after.txs && after.txs[j].requiresCompensation
      ensures after.txs[j].externalId.Some? && Report(j, after.txs[j].externalId.value) in reports + {Report(i, paymentId)}
    {
      assert j != i ==> after.txs[j] == db.txs[j];
    }
  }

  lemma SuccessReported(db: Db, w: World, i: nat, info: PaymentInfo, now: Moment, reports: set<Report>)
    requires Orders(db) && AllReported(db, reports) && WorldOk(w)
    ensures AllReported(ApplySuccess(db, w, i, info, now).0, reports + {Report(i, info.id)})
  {
    MoreReports(db, reports, {Report(i, info.id)});
    if i in db.txs {
      SuccessStamps(db, w, i, info, now);
      var after := ApplySuccess(db, w, i, info, now).0;
      if after != db {
        StampReported(db, after, i, info.id, reports);
      }
    }
  }

  /** Closing a pending order without a payment flags nothing. */
  lemma CloseReported(db: Db, i: nat, t: Transaction, reports: set<Report>)
    requires AllReported(db, reports) && i in db.txs && !t.requiresCompensation
    ensures AllReported(ReleaseOrderResources(SetTx(db, i, t), i), reports)
  {
    ReleaseKeepsFlags(SetTx(db, i, t), i);
    NoNewFlags(db, ReleaseOrderResources(SetTx(db, i, t), i), reports);
  }

  lemma CheckoutReported(db: Db, w: World, req: CheckoutRequest, now: Moment, reports: set<Report>)
    requires Inv(db) && AllReported(db, reports) && WorldOk(w) && Checkout(db, w, req, now).Success?
    ensures AllReported(Checkout(db, w, req, now).value.db, reports)
  {
    var after := Checkout(db, w, req, now).value.db;
    NewIsUnflagged(db, w, req, now);
    CheckoutKeepsTables(db, w, req, now);
    NoNewFlags(db, after, reports);
  }

  lemma CheckoutKeepsTables(db: Db, w: World, req: CheckoutRequest, now: Moment)
    requires Inv(db) && WorldOk(w) && Checkout(db, w, req, now).Success?
    ensures var after := Checkout(db, w, req, now).value.db;
            && after.jobs == db.jobs && after.calls == db.calls
            && after.txs.Keys == db.txs.Keys + {db.next} && forall j <- db.txs :: after.txs[j] == db.txs[j]
  {
    AcceptedLeaves(db, w, req, now);
  }

  lemma NewIsUnflagged(db: Db, w: World, req: CheckoutRequest, now: Moment)
    requires Inv(db) && WorldOk(w) && Checkout(db, w, req, now).Success?
    ensures var after := Checkout(db, w, req, now).value.db; db.next in after.txs && !after.txs[db.next].requiresCompensation
  {
    AcceptedLeaves(db, w, req, now);
    assert Inv(Exec(db, PlaceAnOrder(w, req, now))) by {
      ExecKeepsInv(db, PlaceAnOrder(w, req, now));
    }
    FulfilledIsUnflagged(Checkout(db, w, req, now).value.db, db.next);
  }

  lemma FulfilledIsUnflagged(db: Db, i: nat)
    requires Orders(db) && i in db.txs && i in db.subs && db.subs[i].status in {SubPending, SubActive}
    ensures !db.txs[i].requiresCompensation
  {
    assert OrderOk(db, i);
  }

  lemma PendingIsUnflagged(db: Db, i: nat)
    requires Orders(db) && i in db.txs && db.txs[i].status == TxPending
    ensures !db.txs[i].requiresCompensation
  {
    assert OrderOk(db, i);
  }

  lemma ClaimReported(db: Db, job: nat, i: nat, moment: Moment, reports: set<Report>)
    requires Orders(db) && AllReported(db, reports)
    ensures AllReported(ClaimRefund(db, job, i, moment), reports)
  {
    if job !in db.jobs && Claimable(db, i, moment) {
      FlaggedIsClosed(db, i);
      ClaimIsJob(db, job, i, moment);
    }
  }

  lemma SendReported(db: Db, job: nat, answer: GatewayAnswer, reports: set<Report>)
    requires AllReported(db, reports)
    ensures AllReported(SendRefund(db, job, answer), reports)
  {
  }

  lemma SettleReported(db: Db, job: nat, reports: set<Report>)
    requires AllReported(db, reports)
    ensures AllReported(SettleRefund(db, job), reports)
  {
    if job in db.jobs {
      SettleShape(db, job);
    }
  }

  lemma ExpiryKeepsTxs(db: Db, i: nat, moment: Moment)
    ensures var after := ExpireOne(db, i, moment); after.txs == db.txs && after.jobs == db.jobs && after.calls == db.calls
  {
  }

  ghost predicate SameRefundTables(db: Db, after: Db) {
    after.txs == db.txs && after.jobs == db.jobs && after.calls == db.calls
  }

  lemma DebitKeepsTxs(db: Db, m: nat, now: Moment)
    requires Linked(db) && DebitToken(db, m, now).Success?
    ensures SameRefundTables(db, DebitToken(db, m, now).value)
  {
  }

  lemma GiveBackKeepsTxs(db: Db, m: nat)
    requires Linked(db) && RefundToken(db, m).Success?
    ensures SameRefundTables(db, RefundToken(db, m).value)
  {
  }

  lemma RenameKeepsTxs(db: Db, m: nat, status: AttendanceStatus, now: Moment)
    requires Linked(db) && SetAttendanceStatus(db, m, status, now).Success?
    ensures SameRefundTables(db, SetAttendanceStatus(db, m, status, now).value)
  {
    var mark := db.marks[m];
    var renamed := db.(marks := db.marks[m := mark.(status := status)]);
    if mark.status != status && status == Attended {
      DebitKeepsTxs(renamed, m, now);
    } else if mark.status != status && mark.debited {
      GiveBackKeepsTxs(renamed, m);
    }
  }

  lemma TokenStepKeepsTxs(db: Db, a: Action)
    requires a.Debit? || a.GiveBack? || a.SetStatus? || a.OpenLesson?
    ensures SameRefundTables(db, Exec(db, a))
  {
    match a
    case Debit(m, now) =>
      if Linked(db) && DebitToken(db, m, now).Success? {
        DebitKeepsTxs(db, m, now);
      }
    case GiveBack(m) =>
      if Linked(db) && RefundToken(db, m).Success? {
        GiveBackKeepsTxs(db, m);
      }
    case SetStatus(m, status, now) =>
      if Linked(db) && SetAttendanceStatus(db, m, status, now).Success? {
        RenameKeepsTxs(db, m, status, now);
      }
    case OpenLesson(_, _) =>
  }

  lemma OrderStepReported(db: Db, a: Action, reports: set<Report>)
    requires Inv(db) && AllReported(db, reports)
    requires a.PlaceAnOrder? || a.PaymentSucceeded? || a.PaymentCanceled? || a.SweepStale? || a.SweepExpired?
    ensures AllReported(Exec(db, a), reports + ReportOf(a))
  {
    assert reports + {} == reports;
    match a
    case PlaceAnOrder(w, req, now) =>
      if WorldOk(w) && Checkout(db, w, req, now).Success? {
        CheckoutReported(db, w, req, now, reports);
      }
    case PaymentSucceeded(w, i, info, now) =>
      if WorldOk(w) {
        SuccessReported(db, w, i, info, now, reports);
      } else {
        MoreReports(db, reports, ReportOf(a));
      }
    case PaymentCanceled(i, paymentId) =>
      if i in db.txs && db.txs[i].status == TxPending {
        PendingIsUnflagged(db, i);
        CloseReported(db, i, db.txs[i].(status := TxCanceled, externalId := Some(paymentId)), reports);
      }
    case SweepStale(i, moment) =>
      if StalePending(db, i, moment) {
        PendingIsUnflagged(db, i);
        CloseReported(db, i, db.txs[i].(status := TxCanceled, metadata := db.txs[i].metadata.(ttlExpired := true)), reports);
      }
    case SweepExpired(i, moment) => ExpiryKeepsTxs(db, i, moment);
  }

  lemma MoreReports(db: Db, reports: set<Report>, more: set<Report>)
    requires AllReported(db, reports)
    ensures AllReported(db, reports + more)
  {
  }

  lemma StepReported(db: Db, a: Action, reports: set<Report>)
    requires Inv(db) && AllReported(db, reports)
    ensures AllReported(Exec(db, a), reports + ReportOf(a))
  {
    assert reports + {} == reports;
    if a.Debit? || a.GiveBack? || a.SetStatus? || a.OpenLesson? {
      TokenStepKeepsTxs(db, a);
    } else if a.Claim? {
      ClaimReported(db, a.job, a.tx, a.moment, reports);
    } else if a.Send? {
      SendReported(db, a.job, a.answer, reports);
    } else if a.Settle? {
      SettleReported(db, a.job, reports);
    } else {
      OrderStepReported(db, a, reports);
    }
  }

  function Reports(actions: seq<Action>): set<Report> {
    set a <- actions | a.PaymentSucceeded? :: Report(a.tx, a.info.id)
  }

  lemma {:induction false} RunReported(db: Db, actions: seq<Action>, reports: set<Report>)
    requires Inv(db) && AllReported(db, reports)
    ensures AllReported(Run(db, actions), reports + Reports(actions))
    decreases |actions|
  {
    if actions == [] {
      assert reports + Reports([]) == reports;
    } else {
      var a, rest := actions[0], actions[1..];
      StepReported(db, a, reports);
      ExecKeepsInv(db, a);
      RunReported(Exec(db, a), rest, reports + ReportOf(a));
      assert forall b :: b in actions <==> b == a || b in rest;
      assert reports + ReportOf(a) + Reports(rest) == reports + Reports(actions);
    }
  }

  /** Every refund call names a payment that some success of the run reported for its transaction. */
  lemma RefundsGoToReportedPayments(actions: seq<Action>, c: nat)
    requires c < |Run(EMPTY_DB, actions).calls|
    ensures var call := Run(EMPTY_DB, actions).calls[c];
            exists a <- actions :: a.PaymentSucceeded? && a.tx == call.tx && a.info.id == call.paymentId
  {
    var call := Run(EMPTY_DB, actions).calls[c];
    EmptyDbOk();
    RunReported(EMPTY_DB, actions, {});
    assert Report(call.tx, call.paymentId) in Reports(actions);
  }
}
