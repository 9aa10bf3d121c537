/** Token moves, attendance marks and the refund pipeline keep the invariant. */
module BillingKeepsTokens {
  import opened Wrappers
  import opened BillingModel
  import opened BillingSteps
  import opened BillingInvariant
  import opened BillingKeepsClose
  import opened Sums

  // ---- A mark changes, and a token with it ----

  /** The effect shared by a debit, a token refund and a plain change of an attendance status. */
  function Remarked(db: Db, m: nat, mark: Attendance, delta: int): Db
    requires delta != 0 ==> mark.seat in db.tokens
  {
    var row := mark.seat;
    db.(marks := db.marks[m := mark],
        tokens := if delta == 0 then db.tokens
                  else db.tokens[row := db.tokens[row].(remaining := db.tokens[row].remaining + delta)])
  }

  predicate Remarks(db: Db, m: nat, mark: Attendance, delta: int) {
    && m in db.marks && mark.seat == db.marks[m].seat
    && delta == (if db.marks[m].debited then 1 else 0) - (if mark.debited then 1 else 0)
    && (mark.debited ==> mark.status == Attended && mark.seat in db.tokens)
    && (delta != 0 ==>
          && mark.seat in db.tokens && mark.seat.order in db.subs
          && db.subs[mark.seat.order].status == SubActive
          && db.tokens[mark.seat].remaining + delta >= 0)
  }

  lemma RemarkedKeepsOrders(db: Db, m: nat, mark: Attendance, delta: int)
    requires Orders(db) && Remarks(db, m, mark, delta)
    ensures Orders(Remarked(db, m, mark, delta))
  {
    var after := Remarked(db, m, mark, delta);
    forall j | j in after.txs ensures OrderOk(after, j) {
      assert OrderOk(db, j);
      OtherOrderKept(db, after, j);
    }
  }

  lemma DebitedAtChange(marks: map<nat, Attendance>, m: nat, mark: Attendance, seat: SeatKey)
    requires m in marks && mark.seat == marks[m].seat
    ensures |DebitedAt(marks[m := mark], seat)| ==
            |DebitedAt(marks, seat)| + if seat != mark.seat then 0
                                       else (if mark.debited then 1 else 0) - (if marks[m].debited then 1 else 0)
  {
    var before, after := DebitedAt(marks, seat), DebitedAt(marks[m := mark], seat);
    if seat != mark.seat || mark.debited == marks[m].debited {
      assert before == after;
    } else if mark.debited {
      assert after == before + {m};
    } else {
      assert before == after + {m};
    }
  }

  lemma RemarkedKeepsTokens(db: Db, m: nat, mark: Attendance, delta: int)
    requires Tokens(db) && Remarks(db, m, mark, delta)
    ensures Tokens(Remarked(db, m, mark, delta))
  {
    var after := Remarked(db, m, mark, delta);
    forall x | x in after.marks ensures MarkFits(after, x) {
      assert MarkFits(db, x);
    }
    forall k | k in after.tokens ensures TokenFits(after, k) {
      assert TokenFits(db, k);
      DebitedAtChange(db.marks, m, mark, k);
    }
  }

  lemma CreditUntouched(db: Db, m: nat, mark: Attendance, delta: int, i: nat)
    requires Remarks(db, m, mark, delta) && i in db.subs && db.subs[i].status == SubExpired
    ensures ExpiryCredit(Remarked(db, m, mark, delta), i) == ExpiryCredit(db, i)
  {
    assert DebitedOf(db.marks[m := mark], i) == DebitedOf(db.marks, i);
  }

  lemma RemarkedKeepsLedger(db: Db, m: nat, mark: Attendance, delta: int)
    requires Ledger(db) && Remarks(db, m, mark, delta)
    ensures Ledger(Remarked(db, m, mark, delta))
  {
    var after := Remarked(db, m, mark, delta);
    forall k | 0 <= k < |after.journal| ensures EntryFits(after, after.journal[k]) {
      var e := db.journal[k];
      assert EntryFits(db, e);
      if e.reason == SubscriptionExpiryCredit {
        CreditUntouched(db, m, mark, delta, e.source.id);
      }
    }
    forall j | j in after.txs && j in after.subs ensures OrderPosted(after, j) {
      assert OrderPosted(db, j);
      if db.subs[j].status == SubExpired {
        CreditUntouched(db, m, mark, delta, j);
      }
    }
  }

  lemma SameMoney(db: Db, after: Db)
    requires after.next == db.next && after.subs == db.subs && after.txs == db.txs
    requires after.deposits == db.deposits && after.journal == db.journal
    ensures Balances(db) ==> Balances(after)
    ensures NoMint(db) ==> NoMint(after)
  {
    if Balances(db) {
      forall p ensures BalanceOf(after, p) == ParentSum(after.journal, p) >= 0 {
        assert BalanceOf(db, p) == BalanceOf(after, p);
      }
    }
    if NoMint(db) {
      forall p ensures BalanceOf(after, p) + SumTo(ExposureTerms(after, p), after.next) <= 0 {
        SumToSame(ExposureTerms(db, p), ExposureTerms(after, p), db.next);
        assert BalanceOf(db, p) + SumTo(ExposureTerms(db, p), db.next) <= 0;
      }
    }
  }

  lemma RemarkKeepsInv(db: Db, m: nat, mark: Attendance, delta: int)
    requires Inv(db) && Remarks(db, m, mark, delta)
    ensures Inv(Remarked(db, m, mark, delta))
  {
    RemarkedKeepsOrders(db, m, mark, delta);
    RemarkedKeepsTokens(db, m, mark, delta);
    RemarkedKeepsLedger(db, m, mark, delta);
    SameMoney(db, Remarked(db, m, mark, delta));
    SameOrdersKeepRefunds(db, Remarked(db, m, mark, delta));
  }

  lemma SameOrdersKeepRefunds(db: Db, after: Db)
    requires Refunds(db) && after.subs == db.subs && after.txs == db.txs
    requires after.calls == db.calls && after.jobs.Keys <= db.jobs.Keys
    requires forall j <- after.jobs :: after.jobs[j] == db.jobs[j]
    ensures Refunds(after)
  {
  }

  lemma InvLinked(db: Db)
    requires Orders(db) && Tokens(db)
    ensures Linked(db)
  {
    forall m | m in db.marks ensures db.marks[m].seat in db.enrs {
      assert MarkFits(db, m);
    }
  }

  lemma DebitRemarks(db: Db, m: nat, now: Moment)
    requires Linked(db) && DebitToken(db, m, now).Success? && !db.marks[m].debited
    ensures var mark := db.marks[m].(debited := true);
            Remarks(db, m, mark, -1) && DebitToken(db, m, now).value == Remarked(db, m, mark, -1)
  {
  }

  lemma DebitKeepsInv(db: Db, m: nat, now: Moment)
    requires Inv(db) && Linked(db) && DebitToken(db, m, now).Success?
    ensures Inv(DebitToken(db, m, now).value)
  {
    if !db.marks[m].debited {
      DebitRemarks(db, m, now);
      RemarkKeepsInv(db, m, db.marks[m].(debited := true), -1);
    }
  }

  /** Moving a token back, with the mark's status rewritten on the way or left as it was. */
  lemma RefundRemarks(db: Db, m: nat, status: AttendanceStatus)
    requires Linked(db) && Tokens(db) && m in db.marks && db.marks[m].debited
    requires RefundToken(db.(marks := db.marks[m := db.marks[m].(status := status)]), m).Success?
    ensures var mark := db.marks[m].(status := status, debited := false);
            && Remarks(db, m, mark, 1)
            && RefundToken(db.(marks := db.marks[m := db.marks[m].(status := status)]), m).value == Remarked(db, m, mark, 1)
  {
    assert TokenFits(db, db.marks[m].seat);
    var renamed := db.(marks := db.marks[m := db.marks[m].(status := status)]);
    assert RefundToken(renamed, m).value.marks == db.marks[m := db.marks[m].(status := status, debited := false)];
  }

  lemma RefundTokenKeepsInv(db: Db, m: nat)
    requires Inv(db) && Linked(db) && RefundToken(db, m).Success?
    ensures Inv(RefundToken(db, m).value)
  {
    if db.marks[m].debited {
      RefundIsRemark(db, m);
      RemarkKeepsInv(db, m, db.marks[m].(debited := false), 1);
    }
  }

  lemma RefundIsRemark(db: Db, m: nat)
    requires Linked(db) && Tokens(db) && m in db.marks && db.marks[m].debited && RefundToken(db, m).Success?
    ensures var mark := db.marks[m].(debited := false);
            Remarks(db, m, mark, 1) && RefundToken(db, m).value == Remarked(db, m, mark, 1)
  {
    RewriteSame(db, m);
    RefundRemarks(db, m, db.marks[m].status);
  }

  lemma RewriteSame(db: Db, m: nat)
    requires m in db.marks
    ensures db.(marks := db.marks[m := db.marks[m].(status := db.marks[m].status)]) == db
  {
    assert db.marks[m := db.marks[m].(status := db.marks[m].status)] == db.marks;
  }

  lemma RenameKeepsInv(db: Db, m: nat, status: AttendanceStatus)
    requires Inv(db) && m in db.marks && (db.marks[m].debited ==> status == Attended)
    ensures Inv(db.(marks := db.marks[m := db.marks[m].(status := status)]))
  {
    var mark := db.marks[m].(status := status);
    assert Remarks(db, m, mark, 0) by {
      assert MarkFits(db, m);
    }
    assert db.(marks := db.marks[m := mark]) == Remarked(db, m, mark, 0);
    RemarkKeepsInv(db, m, mark, 0);
  }

  lemma SetStatusKeepsInv(db: Db, m: nat, status: AttendanceStatus, now: Moment)
    requires Inv(db) && Linked(db) && SetAttendanceStatus(db, m, status, now).Success?
    ensures Inv(SetAttendanceStatus(db, m, status, now).value)
  {
    var mark := db.marks[m];
    var renamed := db.(marks := db.marks[m := mark.(status := status)]);
    if mark.status == status {
    } else if status == Attended {
      RenameKeepsInv(db, m, status);
      InvLinked(renamed);
      DebitKeepsInv(renamed, m, now);
    } else if mark.debited {
      RefundRemarks(db, m, status);
      RemarkKeepsInv(db, m, mark.(status := status, debited := false), 1);
    } else {
      RenameKeepsInv(db, m, status);
    }
  }

  // ---- A new, undebited mark ----

  lemma OpenMarkKeepsLedger(db: Db, mark: Attendance)
    requires Ledger(db) && !mark.debited && db.nextMark !in db.marks
    ensures Ledger(db.(nextMark := db.nextMark + 1, marks := db.marks[db.nextMark := mark]))
  {
    var after := db.(nextMark := db.nextMark + 1, marks := db.marks[db.nextMark := mark]);
    assert forall i: nat :: DebitedOf(after.marks, i) == DebitedOf(db.marks, i);
    forall k | 0 <= k < |after.journal| ensures EntryFits(after, after.journal[k]) {
      assert EntryFits(db, db.journal[k]);
    }
    forall j | j in after.txs && j in after.subs ensures OrderPosted(after, j) {
      assert OrderPosted(db, j);
    }
  }

  lemma OpenMarkKeepsTokens(db: Db, mark: Attendance)
    requires Tokens(db) && !mark.debited && mark.seat in db.enrs && db.nextMark !in db.marks
    ensures Tokens(db.(nextMark := db.nextMark + 1, marks := db.marks[db.nextMark := mark]))
  {
    var after := db.(nextMark := db.nextMark + 1, marks := db.marks[db.nextMark := mark]);
    forall x | x in after.marks ensures MarkFits(after, x) {
      assert x in db.marks ==> MarkFits(db, x);
    }
    forall k | k in after.tokens ensures TokenFits(after, k) {
      assert TokenFits(db, k);
      assert DebitedAt(after.marks, k) == DebitedAt(db.marks, k);
    }
  }

  lemma OpenMarkKeepsOrders(db: Db, mark: Attendance)
    requires Orders(db)
    ensures Orders(db.(nextMark := db.nextMark + 1, marks := db.marks[db.nextMark := mark]))
  {
    var after := db.(nextMark := db.nextMark + 1, marks := db.marks[db.nextMark := mark]);
    forall j | j in after.txs ensures OrderOk(after, j) {
      assert OrderOk(db, j);
      OtherOrderKept(db, after, j);
    }
  }

  lemma NextMarkIsNew(db: Db)
    requires Tokens(db)
    ensures db.nextMark !in db.marks
  {
    forall m | m in db.marks ensures m != db.nextMark {
      assert MarkFits(db, m);
    }
  }

  lemma OpenMarkKeepsInv(db: Db, seat: SeatKey, date: int)
    requires Inv(db)
    ensures Inv(OpenMark(db, seat, date))
  {
    var mark := Attendance(seat, date, Attended, false);
    var after := db.(nextMark := db.nextMark + 1, marks := db.marks[db.nextMark := mark]);
    if OpenMark(db, seat, date) == after {
      NextMarkIsNew(db);
      OpenMarkKeepsOrders(db, mark);
      if seat in db.enrs {
        OpenMarkKeepsTokens(db, mark);
      }
      OpenMarkKeepsLedger(db, mark);
      SameMoney(db, after);
      OpenMarkKeepsRefunds(db, mark);
    }
  }

  lemma OpenMarkKeepsRefunds(db: Db, mark: Attendance)
    requires Refunds(db)
    ensures Refunds(db.(nextMark := db.nextMark + 1, marks := db.marks[db.nextMark := mark]))
  {
  }

  // ---- Flags of a closed order ----

  /** A rewrite of a closed order's transaction that touches only its flags. */
  ghost predicate Reflags(db: Db, i: nat, t: Transaction) {
    && i in db.txs && i in db.subs && db.subs[i].status == SubCanceled
    && t.parent == db.txs[i].parent && t.subscription == db.txs[i].subscription
    && t.amount == db.txs[i].amount && t.slots == db.txs[i].slots && t.status == db.txs[i].status
    && t.metadata.depositApplied == db.txs[i].metadata.depositApplied
    && t.metadata.depositReturned == db.txs[i].metadata.depositReturned
    && t.requiresCompensation == t.metadata.compensationRequired
    && (t.requiresCompensation ==> t.externalId.Some?)
  }

  lemma ReflagKeepsOrders(db: Db, i: nat, t: Transaction)
    requires Orders(db) && Reflags(db, i, t)
    ensures Orders(SetTx(db, i, t))
  {
    var after := SetTx(db, i, t);
    forall j | j in after.txs ensures OrderOk(after, j) {
      assert OrderOk(db, j);
      if j == i {
        assert SeatsFit(after, i);
        assert TokenRowsFit(after, i);
      } else {
        OtherOrderKept(db, after, j);
      }
    }
  }

  lemma ReflagKeepsTokens(db: Db, i: nat, t: Transaction)
    requires Tokens(db) && Reflags(db, i, t)
    ensures Tokens(SetTx(db, i, t))
  {
    var after := SetTx(db, i, t);
    forall m | m in after.marks ensures MarkFits(after, m) {
      assert MarkFits(db, m);
    }
    forall k | k in after.tokens ensures TokenFits(after, k) {
      assert TokenFits(db, k);
    }
  }

  lemma ReflagKeepsLedger(db: Db, i: nat, t: Transaction)
    requires Ledger(db) && Reflags(db, i, t)
    ensures Ledger(SetTx(db, i, t))
  {
    var after := SetTx(db, i, t);
    forall k | 0 <= k < |after.journal| ensures EntryFits(after, after.journal[k]) {
      assert EntryFits(db, db.journal[k]);
    }
    forall j | j in after.txs && j in after.subs ensures OrderPosted(after, j) {
      assert OrderPosted(db, j);
    }
  }

  lemma ReflagKeepsBalances(db: Db, i: nat, t: Transaction)
    requires Balances(db)
    ensures Balances(SetTx(db, i, t))
  {
    var after := SetTx(db, i, t);
    forall p ensures BalanceOf(after, p) == ParentSum(after.journal, p) >= 0 {
      assert BalanceOf(db, p) == BalanceOf(after, p);
    }
  }

  lemma ReflagKeepsNoMint(db: Db, i: nat, t: Transaction)
    requires NoMint(db) && Reflags(db, i, t) && i < db.next
    ensures NoMint(SetTx(db, i, t))
  {
    NoMintStep(db, SetTx(db, i, t), i);
  }

  lemma ReflagKeepsRefunds(db: Db, i: nat, t: Transaction)
    requires Refunds(db) && Reflags(db, i, t)
    ensures Refunds(SetTx(db, i, t))
  {
  }

  lemma ReflagKeepsInv(db: Db, i: nat, t: Transaction)
    requires Inv(db) && Reflags(db, i, t)
    ensures Inv(SetTx(db, i, t))
  {
    ReflagKeepsOrders(db, i, t);
    ReflagKeepsTokens(db, i, t);
    ReflagKeepsLedger(db, i, t);
    ReflagKeepsBalances(db, i, t);
    ReflagKeepsNoMint(db, i, t);
    ReflagKeepsRefunds(db, i, t);
  }

  // ---- The refund pipeline ----

  /** Only an order that holds nothing any more is ever flagged for a refund. */
  lemma FlaggedIsClosed(db: Db, i: nat)
    requires Orders(db) && i in db.txs && db.txs[i].requiresCompensation
    ensures i in db.subs && db.subs[i].status == SubCanceled
    ensures TxFits(i, db.txs[i], db.subs[i])
    ensures db.txs[i].externalId.Some?
  {
    assert OrderOk(db, i);
  }

  lemma CloseRefundKeepsInv(db: Db, i: nat, note: RefundNote)
    requires Inv(db) && i in db.txs
    ensures Inv(CloseRefund(db, i, note))
  {
    if db.txs[i].requiresCompensation {
      FlaggedIsClosed(db, i);
      ReflagKeepsInv(db, i, Unflagged(db.txs[i], note));
    }
  }

  lemma RefundTablesKeepInv(db: Db, after: Db)
    requires Inv(db) && Refunds(after)
    requires after == db.(jobs := after.jobs, calls := after.calls)
    ensures Inv(after)
  {
    forall j | j in after.txs ensures OrderOk(after, j) {
      assert OrderOk(db, j);
      OtherOrderKept(db, after, j);
    }
    RefundTablesKeepTokens(db, after);
    RefundTablesKeepLedger(db, after);
    SameMoney(db, after);
  }

  lemma RefundTablesKeepTokens(db: Db, after: Db)
    requires Tokens(db)
    requires after == db.(jobs := after.jobs, calls := after.calls)
    ensures Tokens(after)
  {
    forall m | m in after.marks ensures MarkFits(after, m) {
      assert MarkFits(db, m);
    }
    forall k | k in after.tokens ensures TokenFits(after, k) {
      assert TokenFits(db, k);
    }
  }

  lemma RefundTablesKeepLedger(db: Db, after: Db)
    requires Ledger(db)
    requires after == db.(jobs := after.jobs, calls := after.calls)
    ensures Ledger(after)
  {
    forall k | 0 <= k < |after.journal| ensures EntryFits(after, after.journal[k]) {
      assert EntryFits(db, db.journal[k]);
    }
    forall j | j in after.txs && j in after.subs ensures OrderPosted(after, j) {
      assert OrderPosted(db, j);
    }
  }

  lemma ClaimShape(db: Db, job: nat, i: nat, moment: Moment)
    requires Orders(db) && Refunds(db) && job !in db.jobs && Claimable(db, i, moment)
    ensures var t := db.txs[i].(claimedUntil := Some(moment + REFUND_CLAIM_TTL));
            var after := ClaimRefund(db, job, i, moment);
            && Reflags(db, i, t)
            && after == SetTx(db, i, t).(jobs := after.jobs)
            && Refunds(after)
  {
    FlaggedIsClosed(db, i);
    ClaimIsJob(db, job, i, moment);
    JobKeepsRefunds(db, job, i, moment);
  }

  lemma ClaimIsJob(db: Db, job: nat, i: nat, moment: Moment)
    requires job !in db.jobs && Claimable(db, i, moment) && db.txs[i].externalId.Some?
    ensures var t := db.txs[i].(claimedUntil := Some(moment + REFUND_CLAIM_TTL));
            ClaimRefund(db, job, i, moment)
            == SetTx(db, i, t).(jobs := db.jobs[job := RefundJob(i, t.externalId.value, t.amount, NoAnswer(false))])
  {
  }

  lemma JobKeepsRefunds(db: Db, job: nat, i: nat, moment: Moment)
    requires Refunds(db) && i in db.txs && i in db.subs && db.subs[i].status == SubCanceled && db.txs[i].externalId.Some?
    ensures var t := db.txs[i].(claimedUntil := Some(moment + REFUND_CLAIM_TTL));
            Refunds(SetTx(db, i, t).(jobs := db.jobs[job := RefundJob(i, t.externalId.value, t.amount, NoAnswer(false))]))
  {
  }

  lemma ClaimKeepsInv(db: Db, job: nat, i: nat, moment: Moment)
    requires Inv(db)
    ensures Inv(ClaimRefund(db, job, i, moment))
  {
    if job !in db.jobs && Claimable(db, i, moment) {
      ClaimShape(db, job, i, moment);
      var t := db.txs[i].(claimedUntil := Some(moment + REFUND_CLAIM_TTL));
      ReflagKeepsInv(db, i, t);
      RefundTablesKeepInv(SetTx(db, i, t), ClaimRefund(db, job, i, moment));
    }
  }

  lemma SendKeepsInv(db: Db, job: nat, answer: GatewayAnswer)
    requires Inv(db)
    ensures Inv(SendRefund(db, job, answer))
  {
    if job in db.jobs {
      SendKeepsRefunds(db, job, answer);
      RefundTablesKeepInv(db, SendRefund(db, job, answer));
    }
  }

  lemma SendKeepsRefunds(db: Db, job: nat, answer: GatewayAnswer)
    requires Refunds(db) && job in db.jobs
    ensures Refunds(SendRefund(db, job, answer))
  {
  }

  lemma JobEndKeepsInv(db: Db, job: nat)
    requires Inv(db) && job in db.jobs
    ensures Inv(db.(jobs := db.jobs - {job}))
  {
    SameOrdersKeepRefunds(db, db.(jobs := db.jobs - {job}));
    RefundTablesKeepInv(db, db.(jobs := db.jobs - {job}));
  }

  lemma SettleShape(db: Db, job: nat)
    requires job in db.jobs
    ensures var j := db.jobs[job];
            var ended := db.(jobs := db.jobs - {job});
            SettleRefund(db, job)
            == if j.answer.NoAnswer? || j.tx !in db.txs then ended
               else CloseRefund(ended, j.tx, if j.answer.Accepted? then Refunded(j.answer.refundId) else RefundFailed)
  {
  }

  lemma SettleKeepsInv(db: Db, job: nat)
    requires Inv(db)
    ensures Inv(SettleRefund(db, job))
  {
    if job in db.jobs {
      SettleShape(db, job);
      JobEndKeepsInv(db, job);
      var j := db.jobs[job];
      if !j.answer.NoAnswer? && j.tx in db.txs {
        CloseRefundKeepsInv(db.(jobs := db.jobs - {job}), j.tx, if j.answer.Accepted? then Refunded(j.answer.refundId) else RefundFailed);
      }
    }
  }
}
