/** A checkout keeps the invariant, whether the card or the deposit pays. */
module BillingKeepsCheckout {
  import opened Wrappers
  import opened BillingModel
  import opened BillingSteps
  import opened BillingInvariant
  import opened BillingKeepsClose
  import opened BillingKeepsFulfil
  import opened Sums

  // ---- What booking a list of slots does to the enrollments ----

  predicate Loosened(before: Enrollment, after: Enrollment) {
    after == before || (before.status == Held && after == before.(status := EnrollmentCanceled))
  }

  ghost predicate Booked(before: map<SeatKey, Enrollment>, after: map<SeatKey, Enrollment>, i: nat, student: int,
                         slots: seq<int>, now: Moment) {
    && (forall k <- before :: k in after && Loosened(before[k], after[k]))
    && (forall k <- after :: k in before || (k.order == i && k.slot in slots))
    && (forall s <- slots :: SeatKey(i, s) in after && after[SeatKey(i, s)] == Enrollment(student, Held, now))
  }

  lemma {:induction false} BookSlotsBooks(enrs: map<SeatKey, Enrollment>, w: World, i: nat, student: int,
                                          slots: seq<int>, now: Moment)
    requires Ascending(slots)
    requires forall k <- enrs :: k.order != i
    requires BookSlots(enrs, w, i, student, slots, now).Success?
    ensures Booked(enrs, BookSlots(enrs, w, i, student, slots, now).value, i, student, slots, now)
  {
    if slots != [] {
      var n := |slots| - 1;
      var shorter := slots[..n];
      BookSlotsBooks(enrs, w, i, student, shorter, now);
      var mid := BookSlots(enrs, w, i, student, shorter, now).value;
      var last := BookSlot(mid, w, i, student, slots[n], now).value;
      assert forall s :: s in slots <==> s in shorter || s == slots[n];
      forall k | k in enrs ensures k in last && Loosened(enrs[k], last[k]) {
        assert k in mid && Loosened(enrs[k], mid[k]);
      }
      forall k | k in last ensures k in enrs || (k.order == i && k.slot in slots) {
        assert k in mid || k == SeatKey(i, slots[n]);
      }
      forall s | s in slots ensures SeatKey(i, s) in last && last[SeatKey(i, s)] == Enrollment(student, Held, now) {
        if s != slots[n] {
          assert mid[SeatKey(i, s)] == Enrollment(student, Held, now);
        }
      }
    }
  }

  // ---- Inserting the order ----

  ghost predicate Inserts(db: Db, parent: int, plan: Plan, slots: seq<int>, enrs: map<SeatKey, Enrollment>,
                          student: int, applied: int, now: Moment) {
    && Booked(db.enrs, enrs, db.next, student, slots, now)
    && Ascending(slots) && slots != []
    && 0 <= applied <= plan.price
    && (applied > 0 ==> parent in db.deposits && applied <= db.deposits[parent])
  }

  lemma NewOrderOk(db: Db, parent: int, plan: Plan, slots: seq<int>, enrs: map<SeatKey, Enrollment>,
                   student: int, applied: int, now: Moment)
    requires Orders(db) && Inserts(db, parent, plan, slots, enrs, student, applied, now)
    ensures OrderOk(InsertOrder(db, parent, plan, slots, enrs, applied, now), db.next)
  {
    var i := db.next;
    var after := InsertOrder(db, parent, plan, slots, enrs, applied, now);
    forall k ensures && (SeatKey(i, k) in after.enrs <==> k in slots)
                     && (SeatKey(i, k) in after.enrs ==> SeatFits(SubPending, after.enrs[SeatKey(i, k)])) {
      assert SeatKey(i, k) !in db.enrs;
    }
    forall k ensures SeatKey(i, k) !in after.tokens {
    }
  }

  lemma InsertKeepsOrders(db: Db, parent: int, plan: Plan, slots: seq<int>, enrs: map<SeatKey, Enrollment>,
                          student: int, applied: int, now: Moment)
    requires Orders(db) && Inserts(db, parent, plan, slots, enrs, student, applied, now)
    ensures Orders(InsertOrder(db, parent, plan, slots, enrs, applied, now))
  {
    var after := InsertOrder(db, parent, plan, slots, enrs, applied, now);
    forall j | j in after.txs ensures OrderOk(after, j) {
      if j == db.next {
        NewOrderOk(db, parent, plan, slots, enrs, student, applied, now);
      } else {
        assert OrderOk(db, j);
        forall k ensures SeatKey(j, k) in after.enrs <==> SeatKey(j, k) in db.enrs {
        }
        OtherOrderKept(db, after, j);
      }
    }
  }

  lemma InsertKeepsTokens(db: Db, parent: int, plan: Plan, slots: seq<int>, enrs: map<SeatKey, Enrollment>,
                          student: int, applied: int, now: Moment)
    requires Orders(db) && Tokens(db) && Inserts(db, parent, plan, slots, enrs, student, applied, now)
    ensures Tokens(InsertOrder(db, parent, plan, slots, enrs, applied, now))
  {
    var after := InsertOrder(db, parent, plan, slots, enrs, applied, now);
    forall m | m in after.marks ensures MarkFits(after, m) {
      assert MarkFits(db, m);
    }
    forall k | k in after.tokens ensures TokenFits(after, k) {
      assert TokenFits(db, k);
    }
  }

  function SpendEntry(db: Db, parent: int, applied: int): DepositEntry {
    DepositEntry(parent, -applied, CheckoutSpend, OfTransaction(db.next))
  }

  lemma InsertKeepsBalances(db: Db, parent: int, plan: Plan, slots: seq<int>, enrs: map<SeatKey, Enrollment>,
                            student: int, applied: int, now: Moment)
    requires Balances(db) && Inserts(db, parent, plan, slots, enrs, student, applied, now)
    ensures Balances(InsertOrder(db, parent, plan, slots, enrs, applied, now))
  {
    var after := InsertOrder(db, parent, plan, slots, enrs, applied, now);
    forall p ensures BalanceOf(after, p) == ParentSum(after.journal, p) >= 0 {
      assert BalanceOf(db, p) == ParentSum(db.journal, p) >= 0;
      ParentSumAppend(db.journal, SpendEntry(db, parent, applied), p);
    }
  }

  lemma NotYetSpent(db: Db)
    requires Ledger(db) && Orders(db)
    ensures !Posted(db.journal, OfTransaction(db.next), CheckoutSpend)
  {
    forall k | 0 <= k < |db.journal|
      ensures db.journal[k].reason == CheckoutSpend ==> db.journal[k].source != OfTransaction(db.next)
    {
      assert EntryFits(db, db.journal[k]);
    }
  }

  lemma InsertKeepsLedger(db: Db, parent: int, plan: Plan, slots: seq<int>, enrs: map<SeatKey, Enrollment>,
                          student: int, applied: int, now: Moment)
    requires Orders(db) && Ledger(db) && Inserts(db, parent, plan, slots, enrs, student, applied, now)
    ensures Ledger(InsertOrder(db, parent, plan, slots, enrs, applied, now))
  {
    var after := InsertOrder(db, parent, plan, slots, enrs, applied, now);
    var e := SpendEntry(db, parent, applied);
    NotYetSpent(db);
    forall k | 0 <= k < |after.journal| ensures EntryFits(after, after.journal[k]) {
      if k < |db.journal| {
        assert EntryFits(db, db.journal[k]);
      }
    }
    NoDoublePostingAppend(db.journal, e);
    forall j | j in after.txs && j in after.subs ensures OrderPosted(after, j) {
      if j != db.next {
        assert OrderPosted(db, j);
      }
      PostedAppend(db.journal, e, OfTransaction(j), CheckoutSpend);
      PostedAppend(db.journal, e, OfTransaction(j), OrderCanceledReturn);
      PostedAppend(db.journal, e, OfSubscription(j), SubscriptionExpiryCredit);
    }
  }

  lemma InsertKeepsNoMint(db: Db, parent: int, plan: Plan, slots: seq<int>, enrs: map<SeatKey, Enrollment>,
                          student: int, applied: int, now: Moment)
    requires NoMint(db) && db.next !in db.txs && Inserts(db, parent, plan, slots, enrs, student, applied, now)
    ensures NoMint(InsertOrder(db, parent, plan, slots, enrs, applied, now))
  {
    var after := InsertOrder(db, parent, plan, slots, enrs, applied, now);
    forall p ensures BalanceOf(after, p) + SumTo(ExposureTerms(after, p), after.next) <= 0 {
      SumToSame(ExposureTerms(db, p), ExposureTerms(after, p), db.next);
      assert SumTo(ExposureTerms(after, p), after.next) ==
             SumTo(ExposureTerms(after, p), db.next) + ExposureTerms(after, p)(db.next);
      assert Exposure(after, p, db.next) == if p == parent then applied else 0;
    }
  }

  lemma InsertKeepsRefunds(db: Db, parent: int, plan: Plan, slots: seq<int>, enrs: map<SeatKey, Enrollment>,
                           student: int, applied: int, now: Moment)
    requires Refunds(db) && db.next !in db.txs && Inserts(db, parent, plan, slots, enrs, student, applied, now)
    ensures Refunds(InsertOrder(db, parent, plan, slots, enrs, applied, now))
  {
  }

  lemma InsertKeepsInv(db: Db, parent: int, plan: Plan, slots: seq<int>, enrs: map<SeatKey, Enrollment>,
                       student: int, applied: int, now: Moment)
    requires Inv(db) && Inserts(db, parent, plan, slots, enrs, student, applied, now)
    ensures Inv(InsertOrder(db, parent, plan, slots, enrs, applied, now))
  {
    InsertKeepsOrders(db, parent, plan, slots, enrs, student, applied, now);
    InsertKeepsTokens(db, parent, plan, slots, enrs, student, applied, now);
    InsertKeepsBalances(db, parent, plan, slots, enrs, student, applied, now);
    InsertKeepsLedger(db, parent, plan, slots, enrs, student, applied, now);
    InsertKeepsNoMint(db, parent, plan, slots, enrs, student, applied, now);
    InsertKeepsRefunds(db, parent, plan, slots, enrs, student, applied, now);
  }

  // ---- The whole checkout ----

  function Prepaid(t: Transaction): Transaction {
    t.(status := TxSucceeded, metadata := t.metadata.(paidFromDeposit := true))
  }

  lemma PrepaidFulfils(db: Db, w: World, i: nat)
    requires Orders(db) && i in db.txs && i in db.subs && WorldOk(w)
    requires db.subs[i].status == SubPending
    requires db.txs[i].slots.SlotList? && AllHeld(db, i, db.txs[i].slots.ids)
    ensures Fulfils(db, i, Prepaid(db.txs[i]))
    ensures match FulfillPrepaid(db, w, i)
            case Failure(e) => e.SlotNotFound?
            case Success(done) => exists window: Window :: done == Fulfilled(db, i, Prepaid(db.txs[i]), window)
  {
    assert TxFits(i, db.txs[i], db.subs[i]) by {
      assert OrderOk(db, i);
    }
    match FirstLesson(w, db.txs[i].slots.ids)
    case Failure(_) =>
    case Success(first) =>
      assert FulfillPrepaid(db, w, i).value == Fulfilled(db, i, Prepaid(db.txs[i]), WindowFrom(first));
  }

  lemma PlaceKeepsInv(db: Db, w: World, req: CheckoutRequest, plan: Plan, slots: seq<int>, now: Moment)
    requires Inv(db) && WorldOk(w) && plan.price >= 0 && Ascending(slots) && slots != []
    requires PlaceOrder(db, w, req, plan, slots, now).Success?
    ensures Inv(PlaceOrder(db, w, req, plan, slots, now).value.db)
  {
    BookSlotsBooks(db.enrs, w, db.next, req.student, slots, now);
    var enrs := BookSlots(db.enrs, w, db.next, req.student, slots, now).value;
    var applied := DepositShare(db.deposits, req.parent, plan.price, req.useDeposit);
    InsertKeepsInv(db, req.parent, plan, slots, enrs, req.student, applied, now);
    var placed := InsertOrder(db, req.parent, plan, slots, enrs, applied, now);
    if plan.price - applied == 0 {
      PrepaidFulfils(placed, w, db.next);
      var window: Window :| FulfillPrepaid(placed, w, db.next).value == Fulfilled(placed, db.next, Prepaid(placed.txs[db.next]), window);
      FulfilKeepsInv(placed, db.next, Prepaid(placed.txs[db.next]), window);
    }
  }

  lemma CheckoutKeepsInv(db: Db, w: World, req: CheckoutRequest, now: Moment)
    requires Inv(db) && WorldOk(w) && Checkout(db, w, req, now).Success?
    ensures Inv(Checkout(db, w, req, now).value.db)
  {
    PlaceKeepsInv(db, w, req, w.plans[req.plan], Normalize(req.slotIds), now);
  }
}
