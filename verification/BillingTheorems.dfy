/** What the billing invariant means for every run from an empty database. */
module BillingTheorems {
  import opened Wrappers
  import opened BillingModel
  import opened BillingSteps
  import opened BillingInvariant
  import opened BillingKeepsClose
  import opened BillingKeepsFulfil
  import opened BillingKeepsCheckout
  import opened BillingKeepsTokens
  import opened BillingRuns
  import opened BillingHistory
  import opened BillingSweeps
  import opened BillingAnswers
  import opened Sums
  import Calendar

  lemma Reached(actions: seq<Action>)
    ensures Inv(Run(EMPTY_DB, actions))
  {
    EmptyDbOk();
    RunKeepsInv(EMPTY_DB, actions);
  }

  // ---- Deposits never mint money ----

  /** Deposit of parent p tied up in order i while it is open or active. */
  function TiedUp(db: Db, p: int, i: nat): int {
    if i in db.txs && i in db.subs && db.txs[i].parent == p && db.subs[i].status in {SubPending, SubActive}
    then db.txs[i].metadata.depositApplied else 0
  }

  /** Card money of parent p paid for order i, counted once the order has expired. */
  function CardPaidExpired(db: Db, p: int, i: nat): int {
    if i in db.txs && i in db.subs && db.txs[i].parent == p && db.subs[i].status == SubExpired
    then db.txs[i].amount else 0
  }

  ghost function TiedUpTotal(db: Db, p: int): int {
    SumTo((i: nat) => TiedUp(db, p, i), db.next)
  }

  ghost function CardPaidTotal(db: Db, p: int): int {
    SumTo((i: nat) => CardPaidExpired(db, p, i), db.next)
  }

  lemma {:induction false} SumToDifference(f: nat -> int, g: nat -> int, h: nat -> int, n: nat)
    requires forall i: nat :: i < n ==> f(i) == g(i) - h(i)
    ensures SumTo(f, n) == SumTo(g, n) - SumTo(h, n)
  {
    if n > 0 {
      SumToDifference(f, g, h, n - 1);
    }
  }

  lemma DepositsNeverMint(actions: seq<Action>, p: int)
    ensures var db := Run(EMPTY_DB, actions);
            0 <= BalanceOf(db, p) && BalanceOf(db, p) + TiedUpTotal(db, p) <= CardPaidTotal(db, p)
  {
    var db := Run(EMPTY_DB, actions);
    Reached(actions);
    SumToDifference(ExposureTerms(db, p), (i: nat) => TiedUp(db, p, i), (i: nat) => CardPaidExpired(db, p, i), db.next);
    assert BalanceOf(db, p) == ParentSum(db.journal, p) >= 0;
    assert BalanceOf(db, p) + SumTo(ExposureTerms(db, p), db.next) <= 0;
  }

  // ---- The journal is exact ----

  lemma JournalIsExact(actions: seq<Action>)
    ensures var db := Run(EMPTY_DB, actions);
            && (forall p :: BalanceOf(db, p) == ParentSum(db.journal, p) >= 0)
            && NoDoublePosting(db.journal)
            && (forall i <- db.txs :: i in db.subs && db.txs[i].metadata.depositApplied + db.txs[i].amount == db.subs[i].price)
  {
    var db := Run(EMPTY_DB, actions);
    Reached(actions);
    forall i | i in db.txs ensures i in db.subs && db.txs[i].metadata.depositApplied + db.txs[i].amount == db.subs[i].price {
      assert OrderOk(db, i);
    }
    assert Balances(db);
  }

  /** The deposit share comes back exactly for closed orders that used one, and never twice. */
  lemma DepositBackIffClosed(actions: seq<Action>, i: nat)
    requires i in Run(EMPTY_DB, actions).txs
    ensures var db := Run(EMPTY_DB, actions);
            && i in db.subs
            && (Posted(db.journal, OfTransaction(i), OrderCanceledReturn) <==>
                  db.subs[i].status == SubCanceled && db.txs[i].metadata.depositApplied > 0)
            && NoDoublePosting(db.journal)
  {
    var db := Run(EMPTY_DB, actions);
    Reached(actions);
    assert OrderOk(db, i) && OrderPosted(db, i);
    if !db.txs[i].metadata.depositReturned {
      NotYetReturned(db, i);
    }
  }

  /**
   When a service is about to post a return or a credit, the journal's
   uniqueness rule cannot fire, so the handlers of that failure are dead.
   */
  lemma UniquenessNeverFires(actions: seq<Action>, i: nat)
    requires i in Run(EMPTY_DB, actions).txs
    ensures var db := Run(EMPTY_DB, actions);
            && i in db.subs
            && (db.txs[i].status == TxPending ==> !Posted(db.journal, OfTransaction(i), OrderCanceledReturn))
            && (db.subs[i].status == SubActive ==> !Posted(db.journal, OfSubscription(i), SubscriptionExpiryCredit))
            && !Posted(db.journal, OfTransaction(db.next), CheckoutSpend)
  {
    var db := Run(EMPTY_DB, actions);
    Reached(actions);
    PendingTogether(db, i);
    NotYetSpent(db);
    if db.txs[i].status == TxPending {
      NotYetReturned(db, i);
    }
    if db.subs[i].status == SubActive {
      NotYetCredited(db, i);
    }
  }

  // ---- Joint order invariant ----

  ghost predicate NoTokensOf(db: Db, i: nat) {
    forall k <- db.tokens :: k.order != i
  }

  ghost predicate NoLiveSeat(db: Db, i: nat) {
    forall k <- db.enrs :: k.order == i ==> !Live(db.enrs[k])
  }

  /** Exactly one token row per selected slot, and no other. */
  ghost predicate TokenPerSlot(db: Db, i: nat, ids: seq<int>) {
    && (forall s <- ids :: SeatKey(i, s) in db.tokens && db.tokens[SeatKey(i, s)].granted == TOKENS_PER_SLOT)
    && (forall k <- db.tokens :: k.order == i ==> k.slot in ids)
  }

  ghost predicate PendingOrder(db: Db, i: nat)
    requires i in db.txs && i in db.subs && db.txs[i].slots.SlotList?
  {
    && db.subs[i].status == SubPending && NoTokensOf(db, i)
    && forall s <- db.txs[i].slots.ids :: SeatKey(i, s) in db.enrs && db.enrs[SeatKey(i, s)].status != Enrolled
  }

  ghost predicate FulfilledOrder(db: Db, i: nat)
    requires i in db.txs && i in db.subs && db.txs[i].slots.SlotList?
  {
    && db.txs[i].status == TxSucceeded && TokenPerSlot(db, i, db.txs[i].slots.ids)
    && !db.txs[i].requiresCompensation
    && (db.subs[i].status == SubActive ==>
          forall s <- db.txs[i].slots.ids :: SeatKey(i, s) in db.enrs && db.enrs[SeatKey(i, s)].status == Enrolled)
    && (db.subs[i].status == SubExpired ==> NoLiveSeat(db, i))
  }

  ghost predicate ClosedOrder(db: Db, i: nat)
    requires i in db.txs && i in db.subs
  {
    && db.subs[i].status == SubCanceled && NoLiveSeat(db, i) && NoTokensOf(db, i)
    && db.txs[i].metadata.depositReturned == (db.txs[i].metadata.depositApplied > 0)
  }

  lemma SeatsOfOrder(db: Db, i: nat)
    requires i in db.txs && i in db.subs && OrderOk(db, i)
    ensures forall k <- db.enrs :: k.order == i ==> SeatFits(db.subs[i].status, db.enrs[k])
    ensures forall s <- db.txs[i].slots.ids :: SeatKey(i, s) in db.enrs && SeatFits(db.subs[i].status, db.enrs[SeatKey(i, s)])
  {
    forall k | k in db.enrs && k.order == i ensures SeatFits(db.subs[i].status, db.enrs[k]) {
      assert k == SeatKey(i, k.slot);
    }
  }

  lemma TokensOfOrder(db: Db, i: nat)
    requires i in db.txs && i in db.subs && OrderOk(db, i) && Tokens(db)
    ensures HasTokens(db.subs[i].status) ==> TokenPerSlot(db, i, db.txs[i].slots.ids)
    ensures !HasTokens(db.subs[i].status) ==> NoTokensOf(db, i)
  {
    forall k | k in db.tokens ensures TokenFits(db, k) && (k.order == i ==> SeatKey(i, k.slot) in db.tokens) {
      assert k.order == i ==> k == SeatKey(i, k.slot);
    }
  }

  /** The four tables tell one story about every order. */
  lemma JointOrderInvariant(actions: seq<Action>, i: nat)
    requires i in Run(EMPTY_DB, actions).txs
    ensures var db := Run(EMPTY_DB, actions); i in db.subs && db.txs[i].slots.SlotList?
    ensures var db := Run(EMPTY_DB, actions);
            if db.txs[i].status == TxPending then PendingOrder(db, i)
            else if db.subs[i].status in {SubActive, SubExpired} then FulfilledOrder(db, i)
            else ClosedOrder(db, i)
  {
    Reached(actions);
    TellsOneStory(Run(EMPTY_DB, actions), i);
  }

  lemma TellsOneStory(db: Db, i: nat)
    requires Orders(db) && Tokens(db) && i in db.txs
    ensures i in db.subs && db.txs[i].slots.SlotList?
    ensures if db.txs[i].status == TxPending then PendingOrder(db, i)
            else if db.subs[i].status in {SubActive, SubExpired} then FulfilledOrder(db, i)
            else ClosedOrder(db, i)
  {
    assert OrderOk(db, i);
    SeatsOfOrder(db, i);
    TokensOfOrder(db, i);
  }

  /** A success on a reachable state never meets damaged data or a subscription it cannot activate. */
  lemma DeadConfirmationBranches(actions: seq<Action>, w: World, i: nat, info: PaymentInfo, now: Moment)
    requires WorldOk(w)
    ensures ApplySuccess(Run(EMPTY_DB, actions), w, i, info, now).1 !in
            {Some(SubscriptionNotActivatable), Some(DataIntegrity), Some(EmptyOrder)}
  {
    Reached(actions);
    var o := SuccessOutcome(Run(EMPTY_DB, actions), w, i, info, now);
  }

  lemma NoErrorIff(db: Db, w: World, i: nat, info: PaymentInfo, now: Moment)
    requires Orders(db) && WorldOk(w) && i in db.txs && db.txs[i].status == TxPending
    ensures db.txs[i].slots.SlotList?
    ensures ApplySuccess(db, w, i, info, now).1.None? <==>
              && info.currency == EXPECTED_CURRENCY && info.amount == db.txs[i].amount
              && forall s <- db.txs[i].slots.ids :: s in w.nextLesson && SeatReady(db.enrs, w, i, s, now)
  {
    PendingTogether(db, i);
    FirstLessonKnownIff(w, db.txs[i].slots.ids);
    NoProblemIffReady(db.enrs, w, i, db.txs[i].slots.ids, now, 0);
  }

  /**
   All or nothing: confirming a pending order activates it exactly when the money
   matches, the schedule knows every slot and every seat passes its check;
   otherwise the order is canceled.
   */
  lemma FulfilledIff(actions: seq<Action>, w: World, i: nat, info: PaymentInfo, now: Moment)
    requires WorldOk(w) && i in Run(EMPTY_DB, actions).txs && Run(EMPTY_DB, actions).txs[i].status == TxPending
    ensures var db := Run(EMPTY_DB, actions);
            var after := ApplySuccess(db, w, i, info, now).0;
            && db.txs[i].slots.SlotList? && i in after.subs
            && after.subs[i].status in {SubActive, SubCanceled}
            && (after.subs[i].status == SubActive <==>
                  && info.currency == EXPECTED_CURRENCY && info.amount == db.txs[i].amount
                  && forall s <- db.txs[i].slots.ids :: s in w.nextLesson && SeatReady(db.enrs, w, i, s, now))
  {
    var db := Run(EMPTY_DB, actions);
    Reached(actions);
    NoErrorIff(db, w, i, info, now);
    DecidedBySuccess(db, w, i, info, now);
  }

  // ---- A transaction leaves PENDING once ----

  /** Whatever events follow in whatever order, the first one that decided the order stands. */
  lemma {:induction false} FirstEventWins(db: Db, actions: seq<Action>, i: nat)
    requires Inv(db) && i in db.txs
    ensures i in Run(db, actions).txs && Evolves(db.txs[i], Run(db, actions).txs[i])
    decreases |actions|
  {
    if actions != [] {
      EveryStep(db, actions[0], i);
      ExecKeepsInv(db, actions[0]);
      FirstEventWins(Exec(db, actions[0]), actions[1..], i);
    }
  }

  lemma LateSuccessTwice(db: Db, w: World, later: World, i: nat, info: PaymentInfo, now: Moment, again: Moment)
    requires WorldOk(w) && WorldOk(later) && i in db.txs && db.txs[i].status != TxPending
    ensures var once := ApplySuccess(db, w, i, info, now).0;
            ApplySuccess(once, later, i, info, again) == (once, None)
  {
  }

  /** A pending order is decided as failed or succeeded by a success, never as canceled. */
  lemma DecidedBySuccess(db: Db, w: World, i: nat, info: PaymentInfo, now: Moment)
    requires Inv(db) && WorldOk(w) && i in db.txs && db.txs[i].status == TxPending
    ensures var after := ApplySuccess(db, w, i, info, now).0;
            && i in after.txs && after.txs[i].status in {TxFailed, TxSucceeded}
            && i in after.subs
            && after.subs[i].status == (if ApplySuccess(db, w, i, info, now).1.None? then SubActive else SubCanceled)
  {
    PendingTogether(db, i);
    var o := SuccessOutcome(db, w, i, info, now);
    if o.ClosedAs? {
      ReleaseCloses(db, i, o.t);
    }
  }

  /** Delivering one verified success twice in a row is the same as delivering it once. */
  lemma ReplayedSuccess(actions: seq<Action>, w: World, later: World, i: nat, info: PaymentInfo, now: Moment, again: Moment)
    requires WorldOk(w) && WorldOk(later)
    ensures var once := ApplySuccess(Run(EMPTY_DB, actions), w, i, info, now).0;
            ApplySuccess(once, later, i, info, again) == (once, None)
  {
    var db := Run(EMPTY_DB, actions);
    Reached(actions);
    if i in db.txs {
      if db.txs[i].status == TxPending {
        DecidedBySuccess(db, w, i, info, now);
        DecidedIgnoresSuccess(ApplySuccess(db, w, i, info, now).0, later, i, info, again);
      } else {
        LateSuccessTwice(db, w, later, i, info, now, again);
      }
    }
  }

  /**
   A success changes nothing exactly when its order is unknown or decided and not
   canceled by the sweep, or already flagged: after a finished or failed refund a
   replay flags an order canceled by the sweep once more.
   */
  lemma SuccessIgnoredIff(actions: seq<Action>, w: World, i: nat, info: PaymentInfo, now: Moment)
    requires WorldOk(w)
    ensures var db := Run(EMPTY_DB, actions);
            ApplySuccess(db, w, i, info, now).0 == db <==>
              (i in db.txs ==>
                 && db.txs[i].status != TxPending
                 && (db.txs[i].status == TxCanceled && db.txs[i].metadata.ttlExpired ==> db.txs[i].requiresCompensation))
  {
    var db := Run(EMPTY_DB, actions);
    Reached(actions);
    if i in db.txs {
      PendingTogether(db, i);
      if db.txs[i].status == TxPending {
        DecidedBySuccess(db, w, i, info, now);
      } else {
        LateSuccess(db, w, i, info, now);
      }
    }
  }

  lemma LateSuccess(db: Db, w: World, i: nat, info: PaymentInfo, now: Moment)
    requires WorldOk(w) && i in db.txs && db.txs[i].status != TxPending
    requires db.txs[i].requiresCompensation == db.txs[i].metadata.compensationRequired
    ensures ApplySuccess(db, w, i, info, now).0 == db <==>
              (db.txs[i].status == TxCanceled && db.txs[i].metadata.ttlExpired ==> db.txs[i].requiresCompensation)
  {
    var after := ApplySuccess(db, w, i, info, now).0;
    assert after == db || after.txs[i].requiresCompensation;
  }

  lemma DecidedIgnoresSuccess(db: Db, w: World, i: nat, info: PaymentInfo, now: Moment)
    requires WorldOk(w) && i in db.txs && db.txs[i].status in {TxFailed, TxSucceeded}
    ensures ApplySuccess(db, w, i, info, now) == (db, None)
  {
  }

  // ---- Token conservation ----

  /** Every reachable token row: tokens left plus debited marks make the grant; after expiry nothing is left. */
  lemma TokenConservation(actions: seq<Action>, seat: SeatKey)
    requires seat in Run(EMPTY_DB, actions).tokens
    ensures var db := Run(EMPTY_DB, actions);
            && seat.order in db.subs
            && db.subs[seat.order].status in {SubActive, SubExpired}
            && (db.subs[seat.order].status == SubActive ==>
                  db.tokens[seat].remaining + |DebitedAt(db.marks, seat)| == TOKENS_PER_SLOT)
            && (db.subs[seat.order].status == SubExpired ==> db.tokens[seat].remaining == 0)
  {
    var db := Run(EMPTY_DB, actions);
    Reached(actions);
    assert TokenFits(db, seat);
    assert OrderOk(db, seat.order);
    assert seat == SeatKey(seat.order, seat.slot);
  }

  /** A mark that may be debited finds its token row, and a token in it exactly while fewer marks than the grant are debited. */
  lemma DebitsStopAtGrant(actions: seq<Action>, m: nat, now: Moment)
    requires var db := Run(EMPTY_DB, actions);
             && m in db.marks && !db.marks[m].debited && db.marks[m].status == Attended
             && db.marks[m].seat in db.enrs && db.enrs[db.marks[m].seat].status == Enrolled
             && db.marks[m].seat.order in db.subs
             && (db.subs[db.marks[m].seat.order].window.Some? ==> db.subs[db.marks[m].seat.order].window.value.expiresAt >= now)
    ensures var db := Run(EMPTY_DB, actions);
            && Linked(db)
            && DebitToken(db, m, now) != Failure(SlotBalanceNotFound)
            && (DebitToken(db, m, now).Success? <==> |DebitedAt(db.marks, db.marks[m].seat)| < TOKENS_PER_SLOT)
  {
    var db := Run(EMPTY_DB, actions);
    var seat := db.marks[m].seat;
    Reached(actions);
    InvLinked(db);
    EnrolledHasTokens(db, seat);
    DebitedWhileLeft(db, m, now);
  }

  lemma DebitedWhileLeft(db: Db, m: nat, now: Moment)
    requires Linked(db) && m in db.marks && !db.marks[m].debited && db.marks[m].status == Attended
    requires var seat := db.marks[m].seat;
             && db.enrs[seat].status == Enrolled && db.subs[seat.order].status == SubActive && seat in db.tokens
             && (db.subs[seat.order].window.Some? ==> db.subs[seat.order].window.value.expiresAt >= now)
    ensures DebitToken(db, m, now) != Failure(SlotBalanceNotFound)
    ensures DebitToken(db, m, now).Success? <==> db.tokens[db.marks[m].seat].remaining > 0
  {
  }

  lemma EnrolledHasTokens(db: Db, seat: SeatKey)
    requires Orders(db) && Tokens(db) && seat in db.enrs && db.enrs[seat].status == Enrolled
    ensures seat.order in db.subs && db.subs[seat.order].status == SubActive
    ensures seat in db.tokens && db.tokens[seat].remaining + |DebitedAt(db.marks, seat)| == TOKENS_PER_SLOT
  {
    assert OrderOk(db, seat.order);
    assert seat == SeatKey(seat.order, seat.slot);
    assert seat in db.tokens;
    assert TokenFits(db, seat);
  }

  lemma DebitedMeansAttended(actions: seq<Action>, m: nat)
    requires m in Run(EMPTY_DB, actions).marks && Run(EMPTY_DB, actions).marks[m].debited
    ensures var db := Run(EMPTY_DB, actions);
            db.marks[m].status == Attended && db.marks[m].seat in db.tokens
  {
    Reached(actions);
    assert MarkFits(Run(EMPTY_DB, actions), m);
  }

  /**
   Once a subscription has expired its credit stands: price less base price for
   each debited session, within nothing and the price, posted at most once, and no
   later debit, token refund or attendance change alters the sessions it was based on.
   */
  lemma {:induction false} CreditStands(db: Db, actions: seq<Action>, i: nat)
    requires Inv(db) && i in db.subs && db.subs[i].status == SubExpired
    ensures var after := Run(db, actions);
            && i in after.subs && after.subs[i] == db.subs[i]
            && DebitedOf(after.marks, i) == DebitedOf(db.marks, i)
            && CreditedExactly(after, i, db.subs[i].price, db.subs[i].basePrice, |DebitedOf(db.marks, i)|)
            && NoDoublePosting(after.journal)
    decreases |actions|
  {
    if actions == [] {
      ExpiredIsCredited(db, i);
    } else {
      assert i in db.txs;
      EveryStep(db, actions[0], i);
      ExecKeepsInv(db, actions[0]);
      CreditStands(Exec(db, actions[0]), actions[1..], i);
    }
  }

  // ---- Tokens match the lessons of the window ----

  /**
   The window opens no later than the next lesson of any selected slot, ends a
   month after it opened, and holds at least as many lessons of the slot's
   weekday as the slot is granted tokens.
   */
  lemma WindowHoldsGrantedLessons(w: World, ids: seq<int>, slot: int)
    requires WorldOk(w) && slot in ids && FirstLesson(w, ids).Success?
    ensures NextLesson(w, slot).Success?
    ensures var first := FirstLesson(w, ids).value;
            var next := NextLesson(w, slot).value;
            && Calendar.Valid(Calendar.MonthAfter(first)) && WindowFrom(first).start == first
            && Calendar.Ordinal(first) <= Calendar.Ordinal(next)
            && WindowFrom(first).expiresAt / 86400 == Calendar.Ordinal(Calendar.MonthAfter(first))
            && WindowFrom(first).expiresAt % 86400 == 86399
            && Calendar.WeekdayCount(Calendar.Ordinal(first), WindowFrom(first).expiresAt / 86400 + 1,
                                     Calendar.Weekday(Calendar.Ordinal(next))) >= TOKENS_PER_SLOT
  {
    FirstLessonIsEarliest(w, ids);
    var next := NextLesson(w, slot).value;
    Calendar.WindowHoldsFourLessons(FirstLesson(w, ids).value, Calendar.Weekday(Calendar.Ordinal(next)));
  }

  // ---- Refunds ----

  /**
   Every refund call carries the key of its transaction and that transaction's
   amount, and its order holds no seat, no token and no spent deposit.
   */
  lemma RefundCallsAreSafe(actions: seq<Action>, c: nat)
    requires c < |Run(EMPTY_DB, actions).calls|
    ensures var db := Run(EMPTY_DB, actions);
            var i := db.calls[c].tx;
            && i in db.txs && i in db.subs
            && db.calls[c].key == RefundKey(i) && db.calls[c].amount == db.txs[i].amount
            && db.subs[i].status == SubCanceled && NoLiveSeat(db, i) && NoTokensOf(db, i)
            && db.txs[i].metadata.depositReturned == (db.txs[i].metadata.depositApplied > 0)
  {
    var db := Run(EMPTY_DB, actions);
    Reached(actions);
    var i := db.calls[c].tx;
    assert Refundable(db, i, db.calls[c].amount);
    PendingTogether(db, i);
    JointOrderInvariant(actions, i);
  }

  /** Over the whole log of calls the provider pays a transaction nothing, or its amount once. */
  lemma PaidBackOnce(actions: seq<Action>, i: nat)
    ensures var db := Run(EMPTY_DB, actions);
            PaidFor(db.calls, i) == if TakenKey(db.calls, RefundKey(i)) && i in db.txs then db.txs[i].amount else 0
  {
    var db := Run(EMPTY_DB, actions);
    Reached(actions);
    forall c | 0 <= c < |db.calls| ensures Refundable(db, db.calls[c].tx, db.calls[c].amount) && db.calls[c].key == RefundKey(db.calls[c].tx) {
    }
    PaidOnce(db.calls, i, if i in db.txs then db.txs[i].amount else 0);
  }

  /** The transaction stays flagged in every state of the run: no refund of it was completed on the way. */
  ghost predicate FlaggedThroughout(db: Db, actions: seq<Action>, i: nat)
    decreases |actions|
  {
    && i in db.txs && db.txs[i].requiresCompensation
    && (actions != [] ==> FlaggedThroughout(Exec(db, actions[0]), actions[1..], i))
  }

  ghost predicate ClaimedPast(db: Db, i: nat, until: Moment) {
    i in db.txs && db.txs[i].claimedUntil.Some? && db.txs[i].claimedUntil.value >= until
  }

  lemma {:induction false} ClaimSurvives(db: Db, actions: seq<Action>, i: nat, until: Moment)
    requires Inv(db) && ClaimedPast(db, i, until) && FlaggedThroughout(db, actions, i)
    ensures ClaimedPast(Run(db, actions), i, until)
    decreases |actions|
  {
    if actions != [] {
      EveryStep(db, actions[0], i);
      ExecKeepsInv(db, actions[0]);
      ClaimSurvives(Exec(db, actions[0]), actions[1..], i, until);
    }
  }

  /** Two claims of one still-flagged refund come from ticks more than ten minutes apart. */
  lemma ClaimsTenMinutesApart(db: Db, job: nat, i: nat, first: Moment, actions: seq<Action>, second: Moment)
    requires Inv(db) && job !in db.jobs && Claimable(db, i, first)
    requires FlaggedThroughout(ClaimRefund(db, job, i, first), actions, i)
    requires Claimable(Run(ClaimRefund(db, job, i, first), actions), i, second)
    ensures second > first + REFUND_CLAIM_TTL
  {
    ClaimKeepsInv(db, job, i, first);
    FlaggedIsClosed(db, i);
    assert ClaimedPast(ClaimRefund(db, job, i, first), i, first + REFUND_CLAIM_TTL);
    ClaimSurvives(ClaimRefund(db, job, i, first), actions, i, first + REFUND_CLAIM_TTL);
  }
}
