/**
 What single services achieve, said of the tables before and after: which rows
 move together, what is certain afterwards, and what stays as it was.
 */
module BillingEffects {
  import opened Wrappers
  import opened BillingModel
  import opened BillingSteps
  import opened BillingInvariant
  import opened BillingKeepsClose
  import opened BillingKeepsTokens

  // ---- Returning a deposit share ----

  /** A share of the deposit that should go back and can. */
  predicate ReturnDue(db: Db, i: nat) {
    && i in db.txs && db.txs[i].metadata.depositApplied > 0 && !db.txs[i].metadata.depositReturned
    && db.txs[i].parent in db.deposits && !Posted(db.journal, OfTransaction(i), OrderCanceledReturn)
  }

  /** The share went back: balance, journal and the mark on the transaction moved together, for this parent only. */
  ghost predicate ShareReturned(db: Db, after: Db, i: nat)
    requires i in db.txs
  {
    var p, share := db.txs[i].parent, db.txs[i].metadata.depositApplied;
    && i in after.txs && after.txs[i].metadata.depositReturned
    && BalanceOf(after, p) == BalanceOf(db, p) + share
    && Posted(after.journal, OfTransaction(i), OrderCanceledReturn)
    && (forall q :: ParentSum(after.journal, q) - ParentSum(db.journal, q) == BalanceOf(after, q) - BalanceOf(db, q))
    && (forall q :: q != p ==> BalanceOf(after, q) == BalanceOf(db, q))
  }

  ghost predicate SameMoneyTables(db: Db, after: Db, i: nat)
    requires i in db.txs
  {
    && after.deposits == db.deposits && after.journal == db.journal
    && i in after.txs && after.txs[i].metadata.depositReturned == db.txs[i].metadata.depositReturned
  }

  lemma ReturnEffect(db: Db, i: nat)
    requires i in db.txs
    ensures var after := ReturnDepositHold(db, i);
            && (if ReturnDue(db, i) then ShareReturned(db, after, i) else SameMoneyTables(db, after, i))
            && !ReturnDue(after, i)
  {
    if ReturnDue(db, i) {
      var e := DepositEntry(db.txs[i].parent, db.txs[i].metadata.depositApplied, OrderCanceledReturn, OfTransaction(i));
      PostedAppend(db.journal, e, OfTransaction(i), OrderCanceledReturn);
      forall q ensures ParentSum(db.journal + [e], q) == ParentSum(db.journal, q) + if e.parent == q then e.amount else 0 {
        ParentSumAppend(db.journal, e, q);
      }
    }
  }

  // ---- Releasing an order ----

  /** The order holds nothing any more: no live seat, no pending subscription, no deposit share due. */
  ghost predicate HoldsNothing(db: Db, i: nat) {
    && i in db.txs && !ReturnDue(db, i)
    && (db.txs[i].subscription.Some? ==>
          && (forall k <- db.enrs :: k.order == db.txs[i].subscription.value ==> !Live(db.enrs[k]))
          && (db.txs[i].subscription.value in db.subs ==> db.subs[db.txs[i].subscription.value].status != SubPending))
  }

  /** Seats, subscriptions and transactions of other orders. */
  ghost predicate OthersUntouched(db: Db, after: Db, i: nat)
    requires i in db.txs
  {
    && after.enrs.Keys == db.enrs.Keys && after.subs.Keys == db.subs.Keys && after.txs.Keys == db.txs.Keys
    && (forall k <- db.enrs :: db.txs[i].subscription != Some(k.order) ==> after.enrs[k] == db.enrs[k])
    && (forall s <- db.subs :: db.txs[i].subscription != Some(s) ==> after.subs[s] == db.subs[s])
    && (forall j <- db.txs :: j != i ==> after.txs[j] == db.txs[j])
  }

  lemma ReturnTouches(db: Db, i: nat)
    requires i in db.txs
    ensures var after := ReturnDepositHold(db, i);
            && after.enrs == db.enrs && after.subs == db.subs && after.txs.Keys == db.txs.Keys
            && (forall j <- db.txs :: j != i ==> after.txs[j] == db.txs[j])
            && after.txs[i].subscription == db.txs[i].subscription && after.txs[i].status == db.txs[i].status
            && after.txs[i].externalId == db.txs[i].externalId
  {
  }

  lemma ReleaseEffect(db: Db, i: nat)
    requires i in db.txs
    ensures var after := ReleaseOrderResources(db, i);
            && HoldsNothing(after, i) && OthersUntouched(db, after, i)
            && (if ReturnDue(db, i) then ShareReturned(db, after, i) else SameMoneyTables(db, after, i))
            && after.txs[i].status == db.txs[i].status && after.txs[i].externalId == db.txs[i].externalId
  {
    match db.txs[i].subscription
    case None =>
      ReturnEffect(db, i);
      ReturnTouches(db, i);
    case Some(s) =>
      var canceled := db.(enrs := CancelLive(db.enrs, s), subs := CancelPendingSubscription(db.subs, s));
      ReturnEffect(canceled, i);
      ReturnTouches(canceled, i);
      assert ReturnDue(canceled, i) <==> ReturnDue(db, i);
      SameBalances(db, canceled);
  }

  lemma SameBalances(db: Db, other: Db)
    requires other.deposits == db.deposits
    ensures forall q :: BalanceOf(other, q) == BalanceOf(db, q)
  {
  }

  lemma CancellationEffect(db: Db, i: nat, paymentId: string)
    ensures var after := ApplyCancellation(db, i, paymentId);
            if i in db.txs && db.txs[i].status == TxPending
            then HoldsNothing(after, i) && OthersUntouched(db, after, i)
                 && after.txs[i].status == TxCanceled && after.txs[i].externalId == Some(paymentId)
            else after == db
  {
    if i in db.txs && db.txs[i].status == TxPending {
      ReleaseEffect(SetTx(db, i, db.txs[i].(status := TxCanceled, externalId := Some(paymentId))), i);
    }
  }

  // ---- Claiming a refund ----

  /** A claim starts one job for the full amount, or closes a refund nobody has paid; either way nobody can claim it for ten minutes. */
  ghost predicate Claimed(db: Db, after: Db, job: nat, i: nat, moment: Moment)
    requires i in db.txs
  {
    && after.txs.Keys == db.txs.Keys && (forall j <- db.txs :: j != i ==> after.txs[j] == db.txs[j])
    && (forall later: Moment :: later <= moment + REFUND_CLAIM_TTL ==> !Claimable(after, i, later))
    && (match db.txs[i].externalId
        case Some(paymentId) =>
          && after.txs[i].requiresCompensation
          && after.jobs == db.jobs[job := RefundJob(i, paymentId, db.txs[i].amount, NoAnswer(false))]
        case None =>
          !after.txs[i].requiresCompensation && after.jobs == db.jobs)
  }

  lemma ClaimEffect(db: Db, job: nat, i: nat, moment: Moment)
    ensures var after := ClaimRefund(db, job, i, moment);
            if job !in db.jobs && Claimable(db, i, moment) then Claimed(db, after, job, i, moment) else after == db
  {
    if job !in db.jobs && Claimable(db, i, moment) && db.txs[i].externalId.Some? {
      ClaimIsJob(db, job, i, moment);
    }
  }

  // ---- Tokens ----

  /** Every seat keeps its tokens left plus its debited marks. */
  ghost predicate TokensConserved(db: Db, after: Db) {
    && after.tokens.Keys == db.tokens.Keys
    && forall k <- db.tokens ::
         after.tokens[k].remaining + |DebitedAt(after.marks, k)| == db.tokens[k].remaining + |DebitedAt(db.marks, k)|
  }

  lemma MoveConserves(db: Db, m: nat, delta: int, debited: bool)
    requires m in db.marks && db.marks[m].seat in db.tokens
    requires delta == (if db.marks[m].debited then 1 else 0) - (if debited then 1 else 0)
    ensures TokensConserved(db, MoveToken(db, m, delta, debited))
  {
    forall k | k in db.tokens
      ensures MoveToken(db, m, delta, debited).tokens[k].remaining + |DebitedAt(MoveToken(db, m, delta, debited).marks, k)|
           == db.tokens[k].remaining + |DebitedAt(db.marks, k)|
    {
      DebitedAtChange(db.marks, m, db.marks[m].(debited := debited), k);
    }
  }

  /** Only the one mark is stamped, its status kept. */
  predicate Stamped(db: Db, after: Db, m: nat, debited: bool) {
    && m in db.marks && after.marks == db.marks[m := db.marks[m].(debited := debited)]
    && after.enrs == db.enrs && after.subs == db.subs
  }

  lemma DebitEffect(db: Db, m: nat, now: Moment)
    requires Linked(db) && DebitToken(db, m, now).Success?
    ensures var after := DebitToken(db, m, now).value; Stamped(db, after, m, true) && TokensConserved(db, after)
  {
    if db.marks[m].debited {
      assert db.marks[m := db.marks[m].(debited := true)] == db.marks;
    } else {
      MoveConserves(db, m, -1, true);
    }
  }

  lemma RefundEffect(db: Db, m: nat)
    requires Linked(db) && RefundToken(db, m).Success?
    ensures var after := RefundToken(db, m).value; Stamped(db, after, m, false) && TokensConserved(db, after)
  {
    if db.marks[m].debited {
      MoveConserves(db, m, 1, false);
    } else {
      assert db.marks[m := db.marks[m].(debited := false)] == db.marks;
    }
  }

  /** A token refund takes back exactly what a debit did. */
  lemma RefundUndoesDebit(db: Db, m: nat, now: Moment)
    requires Linked(db) && m in db.marks && !db.marks[m].debited && DebitToken(db, m, now).Success?
    ensures Linked(DebitToken(db, m, now).value) && RefundToken(DebitToken(db, m, now).value, m) == Success(db)
  {
    var seat := db.marks[m].seat;
    var row, mark := db.tokens[seat], db.marks[m];
    assert db.tokens[seat := row.(remaining := row.remaining - 1)][seat := row] == db.tokens;
    assert db.marks[m := mark.(debited := true)][m := mark] == db.marks;
    assert MoveToken(MoveToken(db, m, -1, true), m, 1, false) == db;
  }
}
