/** Fulfilling an order, and giving an active order's unused sessions back, keep the invariant. */
module BillingKeepsFulfil {
  import opened Wrappers
  import opened BillingModel
  import opened BillingSteps
  import opened BillingInvariant
  import opened BillingKeepsClose
  import opened Sums

  // ---- Fulfilment ----

  ghost predicate AllHeld(db: Db, i: nat, ids: seq<int>) {
    forall s <- ids :: SeatKey(i, s) in db.enrs && db.enrs[SeatKey(i, s)].status == Held
  }

  ghost predicate Fulfils(db: Db, i: nat, t: Transaction) {
    && i in db.txs && i in db.subs
    && db.subs[i].status == SubPending
    && t.parent == db.txs[i].parent && t.subscription == db.txs[i].subscription
    && t.amount == db.txs[i].amount && t.slots == db.txs[i].slots
    && t.metadata.depositApplied == db.txs[i].metadata.depositApplied
    && t.status == TxSucceeded
    && !t.metadata.depositReturned && !t.requiresCompensation && !t.metadata.compensationRequired
    && t.slots.SlotList? && AllHeld(db, i, t.slots.ids)
  }

  ghost function Fulfilled(db: Db, i: nat, t: Transaction, window: Window): Db
    requires i in db.subs && t.slots.SlotList?
  {
    db.(txs := db.txs[i := t],
        subs := db.subs[i := db.subs[i].(status := SubActive, window := Some(window))],
        enrs := EnrollHeld(db.enrs, i),
        tokens := GrantTokens(db.tokens, i, t.slots.ids))
  }

  lemma FulfilledOrderOk(db: Db, i: nat, t: Transaction, window: Window)
    requires Fulfils(db, i, t) && OrderOk(db, i)
    ensures OrderOk(Fulfilled(db, i, t, window), i)
  {
    var after := Fulfilled(db, i, t, window);
    forall k ensures && (SeatKey(i, k) in after.enrs <==> k in after.txs[i].slots.ids)
                     && (SeatKey(i, k) in after.enrs ==> SeatFits(SubActive, after.enrs[SeatKey(i, k)])) {
      assert SeatKey(i, k) in db.enrs <==> k in db.txs[i].slots.ids;
    }
    forall k ensures SeatKey(i, k) in after.tokens <==> k in after.txs[i].slots.ids {
      assert SeatKey(i, k) in db.tokens <==> (k in db.txs[i].slots.ids && HasTokens(SubPending));
    }
  }

  lemma FulfilledKeepsKeys(db: Db, i: nat, t: Transaction, window: Window)
    requires Orders(db) && Fulfils(db, i, t)
    ensures var after := Fulfilled(db, i, t, window);
            && after.subs.Keys == after.txs.Keys && after.txs.Keys == db.txs.Keys && after.next == db.next
            && (forall k <- after.enrs :: k.order in after.txs)
            && (forall k <- after.tokens :: k.order in after.txs)
  {
  }

  lemma FulfilledKeepsOrders(db: Db, i: nat, t: Transaction, window: Window)
    requires Orders(db) && Fulfils(db, i, t)
    ensures Orders(Fulfilled(db, i, t, window))
  {
    var after := Fulfilled(db, i, t, window);
    FulfilledKeepsKeys(db, i, t, window);
    forall j | j in db.txs ensures OrderOk(after, j) {
      assert OrderOk(db, j);
      FulfilledKeepsEach(db, i, t, window, j);
    }
  }

  lemma FulfilledKeepsEach(db: Db, i: nat, t: Transaction, window: Window, j: nat)
    requires Fulfils(db, i, t) && j in db.txs && j in db.subs && OrderOk(db, j)
    ensures OrderOk(Fulfilled(db, i, t, window), j)
  {
    if j == i {
      FulfilledOrderOk(db, i, t, window);
    } else {
      FulfilledKeepsOther(db, i, t, window, j);
    }
  }

  lemma FulfilledKeepsOther(db: Db, i: nat, t: Transaction, window: Window, j: nat)
    requires Fulfils(db, i, t) && j != i && j in db.txs && j in db.subs && OrderOk(db, j)
    ensures OrderOk(Fulfilled(db, i, t, window), j)
  {
    OtherOrderKept(db, Fulfilled(db, i, t, window), j);
  }

  lemma FulfilledKeepsTokens(db: Db, i: nat, t: Transaction, window: Window)
    requires Orders(db) && Tokens(db) && Fulfils(db, i, t)
    ensures Tokens(Fulfilled(db, i, t, window))
  {
    var after := Fulfilled(db, i, t, window);
    assert OrderOk(db, i);
    forall m | m in after.marks ensures MarkFits(after, m) {
      assert MarkFits(db, m);
    }
    forall k | k in after.tokens ensures k.order in after.subs && TokenFits(after, k) {
      if k.order == i && k.slot in t.slots.ids {
        assert SeatKey(i, k.slot) !in db.tokens;
        assert k == SeatKey(i, k.slot);
        assert DebitedAt(db.marks, k) == {} by {
          assert forall m <- db.marks :: MarkFits(db, m);
        }
      } else {
        assert TokenFits(db, k);
      }
    }
  }

  lemma FulfilledKeepsBalances(db: Db, i: nat, t: Transaction, window: Window)
    requires Balances(db) && Fulfils(db, i, t)
    ensures Balances(Fulfilled(db, i, t, window))
  {
    var after := Fulfilled(db, i, t, window);
    forall p ensures BalanceOf(after, p) == ParentSum(after.journal, p) >= 0 {
      assert BalanceOf(db, p) == BalanceOf(after, p);
    }
  }

  lemma FulfilledKeepsLedger(db: Db, i: nat, t: Transaction, window: Window)
    requires Ledger(db) && Fulfils(db, i, t) && StatusesFit(db.txs[i], db.subs[i])
    ensures Ledger(Fulfilled(db, i, t, window))
  {
    var after := Fulfilled(db, i, t, window);
    forall k | 0 <= k < |after.journal| ensures EntryFits(after, after.journal[k]) {
      assert EntryFits(db, db.journal[k]);
    }
    forall j | j in after.txs && j in after.subs ensures OrderPosted(after, j) {
      assert OrderPosted(db, j);
    }
  }

  lemma FulfilledKeepsNoMint(db: Db, i: nat, t: Transaction, window: Window)
    requires NoMint(db) && Fulfils(db, i, t) && i < db.next
    ensures NoMint(Fulfilled(db, i, t, window))
  {
    NoMintStep(db, Fulfilled(db, i, t, window), i);
  }

  lemma FulfilledKeepsRefunds(db: Db, i: nat, t: Transaction, window: Window)
    requires Refunds(db) && Fulfils(db, i, t)
    ensures Refunds(Fulfilled(db, i, t, window))
  {
  }

  lemma FulfilKeepsInv(db: Db, i: nat, t: Transaction, window: Window)
    requires Inv(db) && Fulfils(db, i, t)
    ensures Inv(Fulfilled(db, i, t, window))
  {
    assert StatusesFit(db.txs[i], db.subs[i]) by {
      assert OrderOk(db, i);
    }
    FulfilledKeepsOrders(db, i, t, window);
    FulfilledKeepsTokens(db, i, t, window);
    FulfilledKeepsBalances(db, i, t, window);
    FulfilledKeepsLedger(db, i, t, window);
    FulfilledKeepsNoMint(db, i, t, window);
    FulfilledKeepsRefunds(db, i, t, window);
  }

  // ---- Expiry ----

  lemma GrantedSumStep(tokens: map<SeatKey, TokenRow>, rows: set<SeatKey>, k: SeatKey)
    requires rows <= tokens.Keys && k in rows
    ensures GrantedSum(tokens, rows) == tokens[k].granted + GrantedSum(tokens, rows - {k})
    decreases |rows|
  {
    var c :| c in rows && GrantedSum(tokens, rows) == tokens[c].granted + GrantedSum(tokens, rows - {c});
    if c != k {
      GrantedSumStep(tokens, rows - {c}, k);
      GrantedSumStep(tokens, rows - {k}, c);
      assert rows - {c} - {k} == rows - {k} - {c};
    }
  }

  lemma RemainingSumStep(tokens: map<SeatKey, TokenRow>, rows: set<SeatKey>, k: SeatKey)
    requires rows <= tokens.Keys && k in rows
    ensures RemainingSum(tokens, rows) == tokens[k].remaining + RemainingSum(tokens, rows - {k})
    decreases |rows|
  {
    var c :| c in rows && RemainingSum(tokens, rows) == tokens[c].remaining + RemainingSum(tokens, rows - {c});
    if c != k {
      RemainingSumStep(tokens, rows - {c}, k);
      RemainingSumStep(tokens, rows - {k}, c);
      assert rows - {c} - {k} == rows - {k} - {c};
    }
  }

  ghost function DebitedIn(marks: map<nat, Attendance>, rows: set<SeatKey>): set<nat> {
    set m <- marks | marks[m].debited && marks[m].seat in rows
  }

  /** Tokens gone from the rows are exactly the debited marks on those rows. */
  lemma {:induction false} SpentIsDebited(db: Db, rows: set<SeatKey>)
    requires rows <= db.tokens.Keys
    requires forall k <- rows :: db.tokens[k].remaining + |DebitedAt(db.marks, k)| == db.tokens[k].granted
    ensures GrantedSum(db.tokens, rows) - RemainingSum(db.tokens, rows) == |DebitedIn(db.marks, rows)|
    decreases |rows|
  {
    if rows == {} {
      assert DebitedIn(db.marks, rows) == {};
    } else {
      var k :| k in rows;
      GrantedSumStep(db.tokens, rows, k);
      RemainingSumStep(db.tokens, rows, k);
      SpentIsDebited(db, rows - {k});
      assert DebitedIn(db.marks, rows) == DebitedAt(db.marks, k) + DebitedIn(db.marks, rows - {k});
      assert DebitedAt(db.marks, k) !! DebitedIn(db.marks, rows - {k});
    }
  }

  lemma UsedSessions(db: Db, i: nat)
    requires Tokens(db) && i in db.subs && db.subs[i].status == SubActive
    ensures var rows := TokenRowsOf(db.tokens, i);
            GrantedSum(db.tokens, rows) - RemainingSum(db.tokens, rows) == |DebitedOf(db.marks, i)|
  {
    var rows := TokenRowsOf(db.tokens, i);
    forall k | k in rows ensures db.tokens[k].remaining + |DebitedAt(db.marks, k)| == db.tokens[k].granted {
      assert TokenFits(db, k);
    }
    SpentIsDebited(db, rows);
    assert DebitedIn(db.marks, rows) == DebitedOf(db.marks, i) by {
      forall m | m in db.marks && db.marks[m].debited && db.marks[m].seat.order == i
        ensures db.marks[m].seat in rows
      {
        assert MarkFits(db, m);
      }
    }
  }

  function CreditEntry(db: Db, i: nat, credit: int): DepositEntry
    requires i in db.subs
  {
    DepositEntry(db.subs[i].parent, credit, SubscriptionExpiryCredit, OfSubscription(i))
  }

  /** The whole effect of expiring order i with the given credit. */
  ghost function ExpiredDb(db: Db, i: nat, credit: int): Db
    requires i in db.subs
  {
    var p := db.subs[i].parent;
    db.(subs := db.subs[i := db.subs[i].(status := SubExpired)],
        enrs := CancelLive(db.enrs, i),
        tokens := ClearRemaining(db.tokens, i),
        deposits := if credit == 0 then db.deposits else db.deposits[p := BalanceOf(db, p) + credit],
        journal := if credit == 0 then db.journal else db.journal + [CreditEntry(db, i, credit)])
  }

  lemma NotYetCredited(db: Db, i: nat)
    requires Ledger(db) && i in db.subs && db.subs[i].status != SubExpired
    ensures !Posted(db.journal, OfSubscription(i), SubscriptionExpiryCredit)
  {
    forall k | 0 <= k < |db.journal| && db.journal[k].source == OfSubscription(i)
      ensures db.journal[k].reason != SubscriptionExpiryCredit
    {
      assert EntryFits(db, db.journal[k]);
    }
  }

  lemma CreditIsPosted(db: Db, i: nat, used: nat)
    requires i in db.subs && !Posted(db.journal, OfSubscription(i), SubscriptionExpiryCredit)
    requires used == GrantedSum(db.tokens, TokenRowsOf(db.tokens, i)) - RemainingSum(db.tokens, TokenRowsOf(db.tokens, i))
    ensures var s := db.subs[i]; var credit := CreditFor(s.price, s.basePrice, used);
            CreditUnusedSessions(db, i) ==
            db.(tokens := ClearRemaining(db.tokens, i),
                deposits := if credit == 0 then db.deposits else db.deposits[s.parent := BalanceOf(db, s.parent) + credit],
                journal := if credit == 0 then db.journal else db.journal + [CreditEntry(db, i, credit)])
  {
    var s := db.subs[i];
    if s.parent !in db.deposits {
      var credit := CreditFor(s.price, s.basePrice, used);
      assert db.deposits[s.parent := 0][s.parent := credit] == db.deposits[s.parent := credit];
    }
  }

  lemma ExpireIsExpired(db: Db, i: nat, moment: Moment)
    requires Ledger(db) && Tokens(db) && Expirable(db, i, moment)
    ensures ExpireOne(db, i, moment) == ExpiredDb(db, i, ExpiryCredit(db, i))
  {
    UsedSessions(db, i);
    NotYetCredited(db, i);
    CreditIsPosted(db.(subs := db.subs[i := db.subs[i].(status := SubExpired)], enrs := CancelLive(db.enrs, i)),
                   i, |DebitedOf(db.marks, i)|);
  }

  lemma ExpiredOrderOk(db: Db, i: nat, credit: int)
    requires i in db.subs && i in db.txs && db.subs[i].status == SubActive && OrderOk(db, i)
    ensures OrderOk(ExpiredDb(db, i, credit), i)
  {
    var after := ExpiredDb(db, i, credit);
    forall k ensures && (SeatKey(i, k) in after.enrs <==> k in after.txs[i].slots.ids)
                     && (SeatKey(i, k) in after.enrs ==> SeatFits(SubExpired, after.enrs[SeatKey(i, k)])) {
      assert SeatKey(i, k) in db.enrs <==> k in db.txs[i].slots.ids;
    }
    forall k ensures SeatKey(i, k) in after.tokens <==> k in after.txs[i].slots.ids {
      assert SeatKey(i, k) in db.tokens <==> (k in db.txs[i].slots.ids && HasTokens(SubActive));
    }
  }

  lemma ExpiredKeepsOrders(db: Db, i: nat, credit: int)
    requires Orders(db) && i in db.subs && db.subs[i].status == SubActive
    ensures Orders(ExpiredDb(db, i, credit))
  {
    var after := ExpiredDb(db, i, credit);
    forall j | j in after.txs ensures OrderOk(after, j) {
      assert OrderOk(db, j);
      if j == i {
        ExpiredOrderOk(db, i, credit);
      } else {
        OtherOrderKept(db, after, j);
      }
    }
  }

  lemma ExpiredKeepsTokens(db: Db, i: nat, credit: int)
    requires Tokens(db) && i in db.subs && db.subs[i].status == SubActive
    ensures Tokens(ExpiredDb(db, i, credit))
  {
    var after := ExpiredDb(db, i, credit);
    forall m | m in after.marks ensures MarkFits(after, m) {
      assert MarkFits(db, m);
    }
    forall k | k in after.tokens ensures TokenFits(after, k) {
      assert TokenFits(db, k);
    }
  }

  lemma ExpiredKeepsBalances(db: Db, i: nat, credit: int)
    requires Balances(db) && i in db.subs && credit >= 0
    ensures Balances(ExpiredDb(db, i, credit))
  {
    var after := ExpiredDb(db, i, credit);
    forall p ensures BalanceOf(after, p) == ParentSum(after.journal, p) >= 0 {
      assert BalanceOf(db, p) == ParentSum(db.journal, p) >= 0;
      ParentSumAppend(db.journal, CreditEntry(db, i, credit), p);
    }
  }

  lemma ExpiredKeepsLedger(db: Db, i: nat)
    requires Ledger(db) && i in db.subs && db.subs[i].status == SubActive
    ensures Ledger(ExpiredDb(db, i, ExpiryCredit(db, i)))
  {
    var credit := ExpiryCredit(db, i);
    var after := ExpiredDb(db, i, credit);
    var e := CreditEntry(db, i, credit);
    NotYetCredited(db, i);
    forall k | 0 <= k < |after.journal| ensures EntryFits(after, after.journal[k]) {
      if k < |db.journal| {
        assert EntryFits(db, db.journal[k]);
      }
    }
    NoDoublePostingAppend(db.journal, e);
    forall j | j in after.txs && j in after.subs ensures OrderPosted(after, j) {
      assert OrderPosted(db, j);
      PostedAppend(db.journal, e, OfTransaction(j), CheckoutSpend);
      PostedAppend(db.journal, e, OfTransaction(j), OrderCanceledReturn);
      PostedAppend(db.journal, e, OfSubscription(j), SubscriptionExpiryCredit);
    }
  }

  lemma CreditWithinPrice(price: int, basePrice: int, used: int)
    requires price >= 0
    ensures 0 <= CreditFor(price, basePrice, used) <= price
  {
  }

  lemma ExpiredKeepsNoMint(db: Db, i: nat)
    requires Orders(db) && NoMint(db) && i in db.subs && db.subs[i].status == SubActive
    ensures NoMint(ExpiredDb(db, i, ExpiryCredit(db, i)))
  {
    assert TxFits(i, db.txs[i], db.subs[i]) by {
      assert OrderOk(db, i);
    }
    CreditWithinPrice(db.subs[i].price, db.subs[i].basePrice, |DebitedOf(db.marks, i)|);
    NoMintStep(db, ExpiredDb(db, i, ExpiryCredit(db, i)), i);
  }

  lemma ExpiredKeepsRefunds(db: Db, i: nat, credit: int)
    requires Refunds(db) && i in db.subs && db.subs[i].status == SubActive
    ensures Refunds(ExpiredDb(db, i, credit))
  {
  }

  lemma ExpireKeepsInv(db: Db, i: nat, moment: Moment)
    requires Inv(db)
    ensures Inv(ExpireOne(db, i, moment))
  {
    if Expirable(db, i, moment) {
      ExpireIsExpired(db, i, moment);
      ExpiredKeepsOrders(db, i, ExpiryCredit(db, i));
      ExpiredKeepsTokens(db, i, ExpiryCredit(db, i));
      ExpiredKeepsBalances(db, i, ExpiryCredit(db, i));
      ExpiredKeepsLedger(db, i);
      ExpiredKeepsNoMint(db, i);
      ExpiredKeepsRefunds(db, i, ExpiryCredit(db, i));
    }
  }
}
