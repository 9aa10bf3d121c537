/** Closing a pending order without fulfilling it keeps every part of the invariant. */
module BillingKeepsClose {
  import opened Wrappers
  import opened BillingModel
  import opened BillingSteps
  import opened BillingInvariant
  import opened Sums

  // ---- The journal under one more entry ----

  lemma PostedAppend(journal: seq<DepositEntry>, e: DepositEntry, source: EntrySource, reason: EntryReason)
    ensures Posted(journal + [e], source, reason) <==>
            Posted(journal, source, reason) || (e.source == source && e.reason == reason)
  {
    var longer := journal + [e];
    if Posted(journal, source, reason) {
      var k :| 0 <= k < |journal| && journal[k].source == source && journal[k].reason == reason;
      assert longer[k].source == source && longer[k].reason == reason;
    }
    if e.source == source && e.reason == reason {
      assert longer[|journal|].source == source && longer[|journal|].reason == reason;
    }
    if Posted(longer, source, reason) {
      var k :| 0 <= k < |longer| && longer[k].source == source && longer[k].reason == reason;
      if k < |journal| {
        assert journal[k].source == source && journal[k].reason == reason;
      }
    }
  }

  lemma ParentSumAppend(journal: seq<DepositEntry>, e: DepositEntry, p: int)
    ensures ParentSum(journal + [e], p) == ParentSum(journal, p) + if e.parent == p then e.amount else 0
  {
    assert (journal + [e])[..|journal|] == journal;
  }

  lemma NoDoublePostingAppend(journal: seq<DepositEntry>, e: DepositEntry)
    requires NoDoublePosting(journal) && !Posted(journal, e.source, e.reason)
    ensures NoDoublePosting(journal + [e])
  {
  }

  /** One order's exposure and its parent's balance change so that the total does not grow. */
  lemma NoMintStep(db: Db, after: Db, i: nat)
    requires NoMint(db) && after.next == db.next && i < db.next
    requires forall p, j: nat :: j != i ==> Exposure(after, p, j) == Exposure(db, p, j)
    requires forall p :: BalanceOf(after, p) + Exposure(after, p, i) <= BalanceOf(db, p) + Exposure(db, p, i)
    ensures NoMint(after)
  {
    forall p ensures BalanceOf(after, p) + SumTo(ExposureTerms(after, p), after.next) <= 0 {
      SumToChange(ExposureTerms(db, p), ExposureTerms(after, p), db.next, i);
    }
  }

  // ---- The closed order ----

  /** The transaction row a service writes before it releases the order's resources. */
  ghost predicate Closes(db: Db, i: nat, t: Transaction) {
    && i in db.txs && i in db.subs
    && db.subs[i].status == SubPending
    && t.parent == db.txs[i].parent && t.subscription == db.txs[i].subscription
    && t.amount == db.txs[i].amount && t.slots == db.txs[i].slots
    && t.metadata.depositApplied == db.txs[i].metadata.depositApplied
    && !t.metadata.depositReturned
    && t.status != TxPending
    && t.requiresCompensation == t.metadata.compensationRequired
    && (t.requiresCompensation ==> t.externalId.Some?)
  }

  function Returned(t: Transaction): Transaction {
    t.(metadata := t.metadata.(depositReturned := t.metadata.depositApplied > 0))
  }

  function ReturnEntry(i: nat, t: Transaction): DepositEntry {
    DepositEntry(t.parent, t.metadata.depositApplied, OrderCanceledReturn, OfTransaction(i))
  }

  /** The whole effect at once: seats and subscription canceled, deposit share back. */
  ghost function Closed(db: Db, i: nat, t: Transaction): Db
    requires i in db.subs
    requires t.metadata.depositApplied > 0 ==> t.parent in db.deposits
  {
    var back := t.metadata.depositApplied > 0;
    db.(txs := db.txs[i := Returned(t)],
        subs := db.subs[i := db.subs[i].(status := SubCanceled)],
        enrs := CancelLive(db.enrs, i),
        deposits := if back then db.deposits[t.parent := db.deposits[t.parent] + t.metadata.depositApplied] else db.deposits,
        journal := if back then db.journal + [ReturnEntry(i, t)] else db.journal)
  }

  lemma NotYetReturned(db: Db, i: nat)
    requires Ledger(db) && i in db.txs && !db.txs[i].metadata.depositReturned
    ensures !Posted(db.journal, OfTransaction(i), OrderCanceledReturn)
  {
    forall k | 0 <= k < |db.journal| && db.journal[k].source == OfTransaction(i)
      ensures db.journal[k].reason != OrderCanceledReturn
    {
      assert EntryFits(db, db.journal[k]);
    }
  }

  lemma ReleaseCloses(db: Db, i: nat, t: Transaction)
    requires Orders(db) && Ledger(db) && Closes(db, i, t)
    ensures t.metadata.depositApplied > 0 ==> t.parent in db.deposits
    ensures ReleaseOrderResources(SetTx(db, i, t), i) == Closed(db, i, t)
  {
    assert TxFits(i, db.txs[i], db.subs[i]) by {
      assert OrderOk(db, i);
    }
    assert OrderPosted(db, i);
    NotYetReturned(db, i);
    ReleaseShape(db, i, t);
  }

  lemma ReleaseShape(db: Db, i: nat, t: Transaction)
    requires Closes(db, i, t) && t.subscription == Some(i) && t.metadata.depositApplied >= 0
    requires t.metadata.depositApplied > 0 ==> t.parent in db.deposits && !Posted(db.journal, OfTransaction(i), OrderCanceledReturn)
    ensures ReleaseOrderResources(SetTx(db, i, t), i) == Closed(db, i, t)
  {
    var released := SetTx(db, i, t).(enrs := CancelLive(db.enrs, i), subs := db.subs[i := db.subs[i].(status := SubCanceled)]);
    assert ReleaseOrderResources(SetTx(db, i, t), i) == ReturnDepositHold(released, i);
    if t.metadata.depositApplied > 0 {
      assert db.txs[i := t][i := Returned(t)] == db.txs[i := Returned(t)];
    }
  }

  lemma OtherOrderKept(db: Db, after: Db, j: nat)
    requires j in db.txs && j in db.subs && OrderOk(db, j)
    requires j in after.txs && j in after.subs && after.txs[j] == db.txs[j] && after.subs[j] == db.subs[j]
    requires forall k :: SeatKey(j, k) in after.enrs <==> SeatKey(j, k) in db.enrs
    requires forall k :: SeatKey(j, k) in db.enrs ==>
               after.enrs[SeatKey(j, k)] == db.enrs[SeatKey(j, k)]
               || (after.enrs[SeatKey(j, k)].status == EnrollmentCanceled && db.enrs[SeatKey(j, k)].status == Held)
    requires forall k :: SeatKey(j, k) in after.tokens <==> SeatKey(j, k) in db.tokens
    ensures OrderOk(after, j)
  {
    forall k ensures && (SeatKey(j, k) in after.enrs <==> k in after.txs[j].slots.ids)
                     && (SeatKey(j, k) in after.enrs ==> SeatFits(after.subs[j].status, after.enrs[SeatKey(j, k)])) {
      assert SeatKey(j, k) in db.enrs <==> k in db.txs[j].slots.ids;
    }
    forall k ensures SeatKey(j, k) in after.tokens <==> (k in after.txs[j].slots.ids && HasTokens(after.subs[j].status)) {
      assert SeatKey(j, k) in db.tokens <==> (k in db.txs[j].slots.ids && HasTokens(db.subs[j].status));
    }
  }

  lemma ClosedOrderOk(db: Db, i: nat, t: Transaction)
    requires Closes(db, i, t) && OrderOk(db, i)
    requires t.metadata.depositApplied > 0 ==> t.parent in db.deposits
    ensures OrderOk(Closed(db, i, t), i)
  {
    var after := Closed(db, i, t);
    forall k ensures && (SeatKey(i, k) in after.enrs <==> k in after.txs[i].slots.ids)
                     && (SeatKey(i, k) in after.enrs ==> SeatFits(SubCanceled, after.enrs[SeatKey(i, k)])) {
      assert SeatKey(i, k) in db.enrs <==> k in db.txs[i].slots.ids;
    }
  }

  lemma ClosedKeepsOrders(db: Db, i: nat, t: Transaction)
    requires Orders(db) && Closes(db, i, t)
    requires t.metadata.depositApplied > 0 ==> t.parent in db.deposits
    ensures Orders(Closed(db, i, t))
  {
    var after := Closed(db, i, t);
    forall j | j in after.txs ensures OrderOk(after, j) {
      assert OrderOk(db, j);
      if j == i {
        ClosedOrderOk(db, i, t);
      } else {
        OtherOrderKept(db, after, j);
      }
    }
  }

  lemma ClosedKeepsTokens(db: Db, i: nat, t: Transaction)
    requires Tokens(db) && Closes(db, i, t)
    requires t.metadata.depositApplied > 0 ==> t.parent in db.deposits
    ensures Tokens(Closed(db, i, t))
  {
    var after := Closed(db, i, t);
    forall m | m in after.marks ensures MarkFits(after, m) {
      assert MarkFits(db, m);
    }
    forall k | k in after.tokens ensures TokenFits(after, k) {
      assert TokenFits(db, k);
    }
  }

  lemma ClosedKeepsBalances(db: Db, i: nat, t: Transaction)
    requires Balances(db) && Closes(db, i, t)
    requires t.metadata.depositApplied > 0 ==> t.parent in db.deposits
    ensures Balances(Closed(db, i, t))
  {
    var after := Closed(db, i, t);
    forall p ensures BalanceOf(after, p) == ParentSum(after.journal, p) >= 0 {
      assert BalanceOf(db, p) == ParentSum(db.journal, p) >= 0;
      ParentSumAppend(db.journal, ReturnEntry(i, t), p);
    }
  }

  lemma ClosedKeepsLedger(db: Db, i: nat, t: Transaction)
    requires Ledger(db) && Closes(db, i, t) && StatusesFit(db.txs[i], db.subs[i])
    requires t.metadata.depositApplied > 0 ==> t.parent in db.deposits
    ensures Ledger(Closed(db, i, t))
  {
    var after := Closed(db, i, t);
    NotYetReturned(db, i);
    forall k | 0 <= k < |after.journal| ensures EntryFits(after, after.journal[k]) {
      if k < |db.journal| {
        assert EntryFits(db, db.journal[k]);
      }
    }
    NoDoublePostingAppend(db.journal, ReturnEntry(i, t));
    forall j | j in after.txs && j in after.subs ensures OrderPosted(after, j) {
      assert OrderPosted(db, j);
      PostedAppend(db.journal, ReturnEntry(i, t), OfTransaction(j), CheckoutSpend);
      PostedAppend(db.journal, ReturnEntry(i, t), OfTransaction(j), OrderCanceledReturn);
      PostedAppend(db.journal, ReturnEntry(i, t), OfSubscription(j), SubscriptionExpiryCredit);
    }
  }

  lemma ClosedKeepsNoMint(db: Db, i: nat, t: Transaction)
    requires NoMint(db) && Closes(db, i, t) && i < db.next && t.metadata.depositApplied >= 0
    requires t.metadata.depositApplied > 0 ==> t.parent in db.deposits
    ensures NoMint(Closed(db, i, t))
  {
    NoMintStep(db, Closed(db, i, t), i);
  }

  lemma ClosedKeepsRefunds(db: Db, i: nat, t: Transaction)
    requires Refunds(db) && Closes(db, i, t)
    requires t.metadata.depositApplied > 0 ==> t.parent in db.deposits
    ensures Refunds(Closed(db, i, t))
  {
  }

  /** Every way of closing a pending order without fulfilling it. */
  lemma CloseKeepsInv(db: Db, i: nat, t: Transaction)
    requires Inv(db) && Closes(db, i, t)
    ensures Inv(ReleaseOrderResources(SetTx(db, i, t), i))
  {
    assert TxFits(i, db.txs[i], db.subs[i]) by {
      assert OrderOk(db, i);
    }
    ReleaseCloses(db, i, t);
    ClosedKeepsOrders(db, i, t);
    ClosedKeepsTokens(db, i, t);
    ClosedKeepsBalances(db, i, t);
    ClosedKeepsLedger(db, i, t);
    ClosedKeepsNoMint(db, i, t);
    ClosedKeepsRefunds(db, i, t);
  }
}
