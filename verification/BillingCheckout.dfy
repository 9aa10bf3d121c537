/**
 When a checkout is accepted and what it leaves behind, stated on the tables as
 they were before the call, not on the tables its slot loop goes through.
 */
module BillingCheckout {
  import opened Wrappers
  import opened BillingModel
  import opened BillingSteps
  import opened BillingInvariant
  import opened BillingKeepsCheckout
  import opened BillingConfirm

  /** Room for one more, and the student does not sit there already; stale holds count for nothing. */
  predicate Bookable(enrs: map<SeatKey, Enrollment>, w: World, student: int, slot: int, now: Moment) {
    HasRoom(enrs, w, slot, now) && !Sits(enrs, student, slot, now)
  }

  predicate HasRoom(enrs: map<SeatKey, Enrollment>, w: World, slot: int, now: Moment) {
    slot in w.capacity && |OccupiedAt(enrs, slot, now)| < w.capacity[slot]
  }

  function OccupiedAt(enrs: map<SeatKey, Enrollment>, slot: int, now: Moment): set<SeatKey> {
    set k <- enrs | k.slot == slot && Occupies(enrs[k], now)
  }

  predicate Sits(enrs: map<SeatKey, Enrollment>, student: int, slot: int, now: Moment) {
    exists k <- enrs :: k.slot == slot && enrs[k].student == student && Occupies(enrs[k], now)
  }

  // ---- The slot loop, seen from before it ----

  lemma CleaningKeepsSeats(enrs: map<SeatKey, Enrollment>, student: int, slot: int, now: Moment)
    ensures Seats(CancelStaleHolds(enrs, slot, now), slot, now) == OccupiedAt(enrs, slot, now)
    ensures Duplicate(CancelStaleHolds(enrs, slot, now), student, slot) <==> Sits(enrs, student, slot, now)
  {
    var cleaned := CancelStaleHolds(enrs, slot, now);
    if Sits(enrs, student, slot, now) {
      var k :| k in enrs && k.slot == slot && enrs[k].student == student && Occupies(enrs[k], now);
      assert k in cleaned && Live(cleaned[k]);
    }
    if Duplicate(cleaned, student, slot) {
      var k :| k in cleaned && k.slot == slot && cleaned[k].student == student && Live(cleaned[k]);
      assert Occupies(enrs[k], now);
    }
  }

  lemma BookedIff(enrs: map<SeatKey, Enrollment>, w: World, i: nat, student: int, slot: int, now: Moment)
    ensures BookSlot(enrs, w, i, student, slot, now).Success? <==> Bookable(enrs, w, student, slot, now)
    ensures var r := BookSlot(enrs, w, i, student, slot, now); r.Failure? ==> r.error == WhyNot(enrs, w, slot, now)
  {
    CleaningKeepsSeats(enrs, student, slot, now);
  }

  /** What is wrong with a slot that cannot be booked: unknown, full, or the student sits there already. */
  function WhyNot(enrs: map<SeatKey, Enrollment>, w: World, slot: int, now: Moment): CheckoutError {
    if slot !in w.capacity then SlotNotFound(slot)
    else if !HasRoom(enrs, w, slot, now) then NoAvailableSeats(slot)
    else DuplicateEnrollment(slot)
  }

  /** Exactly this changes: stale holds of the slots are canceled, and each slot gets one new hold. */
  ghost predicate HoldsOnly(before: map<SeatKey, Enrollment>, after: map<SeatKey, Enrollment>, i: nat, student: int,
                            slots: seq<int>, now: Moment) {
    && (forall k :: k in after <==> k in before || (k.order == i && k.slot in slots))
    && (forall k <- before :: k in after
          && after[k] == if k.slot in slots && Lapsed(before[k], now) then before[k].(status := EnrollmentCanceled) else before[k])
    && (forall s <- slots :: SeatKey(i, s) in after && after[SeatKey(i, s)] == Enrollment(student, Held, now))
  }

  lemma BookSlotHolds(enrs: map<SeatKey, Enrollment>, w: World, i: nat, student: int, slot: int, now: Moment)
    requires BookSlot(enrs, w, i, student, slot, now).Success? && SeatKey(i, slot) !in enrs
    ensures HoldsOnly(enrs, BookSlot(enrs, w, i, student, slot, now).value, i, student, [slot], now)
  {
  }

  lemma HoldsTwice(before: map<SeatKey, Enrollment>, mid: map<SeatKey, Enrollment>, after: map<SeatKey, Enrollment>,
                   i: nat, student: int, slots: seq<int>, slot: int, now: Moment)
    requires HoldsOnly(before, mid, i, student, slots, now) && HoldsOnly(mid, after, i, student, [slot], now) && slot !in slots
    requires forall k <- before :: k.order != i
    ensures HoldsOnly(before, after, i, student, slots + [slot], now)
  {
    forall s | s in slots + [slot] ensures SeatKey(i, s) in after && after[SeatKey(i, s)] == Enrollment(student, Held, now) {
      if s != slot {
        assert mid[SeatKey(i, s)] == Enrollment(student, Held, now);
      }
    }
  }

  /** Holds in other slots do not matter to this one. */
  lemma BookableElsewhere(before: map<SeatKey, Enrollment>, after: map<SeatKey, Enrollment>, w: World, i: nat, student: int,
                      slots: seq<int>, slot: int, now: Moment)
    requires HoldsOnly(before, after, i, student, slots, now) && slot !in slots
    ensures Bookable(after, w, student, slot, now) <==> Bookable(before, w, student, slot, now)
    ensures WhyNot(after, w, slot, now) == WhyNot(before, w, slot, now)
  {
    assert OccupiedAt(after, slot, now) == OccupiedAt(before, slot, now);
    if Sits(before, student, slot, now) {
      var k :| k in before && k.slot == slot && before[k].student == student && Occupies(before[k], now);
      assert k in after && after[k] == before[k];
    }
    if Sits(after, student, slot, now) {
      var k :| k in after && k.slot == slot && after[k].student == student && Occupies(after[k], now);
      assert k in before && after[k] == before[k];
    }
  }

  /** The slot the loop stopped at is the lowest one that is not free, and the error says what is wrong with it. */
  ghost predicate FirstTaken(enrs: map<SeatKey, Enrollment>, w: World, student: int, slots: seq<int>, e: CheckoutError, now: Moment) {
    exists slot <- slots :: e == WhyNot(enrs, w, slot, now) && LowestTaken(enrs, w, student, slots, slot, now)
  }

  predicate LowestTaken(enrs: map<SeatKey, Enrollment>, w: World, student: int, slots: seq<int>, slot: int, now: Moment) {
    !Bookable(enrs, w, student, slot, now) && forall s <- slots :: s < slot ==> Bookable(enrs, w, student, s, now)
  }

  lemma {:induction false} BookSlotsIff(enrs: map<SeatKey, Enrollment>, w: World, i: nat, student: int, slots: seq<int>, now: Moment)
    requires Ascending(slots) && forall k <- enrs :: k.order != i
    ensures var r := BookSlots(enrs, w, i, student, slots, now);
            && (r.Success? ==>
                  HoldsOnly(enrs, r.value, i, student, slots, now) && forall s <- slots :: Bookable(enrs, w, student, s, now))
            && (r.Failure? ==> FirstTaken(enrs, w, student, slots, r.error, now))
  {
    if slots != [] {
      var rest, slot := slots[..|slots| - 1], slots[|slots| - 1];
      assert slots == rest + [slot] && slot !in rest && forall s <- rest :: s < slot;
      BookSlotsIff(enrs, w, i, student, rest, now);
      if BookSlots(enrs, w, i, student, rest, now).Success? {
        BookLastIff(enrs, w, i, student, rest, slot, now);
      } else {
        StillFirst(enrs, w, student, rest, slot, BookSlots(enrs, w, i, student, rest, now).error, now);
      }
    }
  }

  lemma StillFirst(enrs: map<SeatKey, Enrollment>, w: World, student: int, rest: seq<int>, last: int, e: CheckoutError, now: Moment)
    requires FirstTaken(enrs, w, student, rest, e, now) && forall s <- rest :: s < last
    ensures FirstTaken(enrs, w, student, rest + [last], e, now)
  {
    var slot :| slot in rest && e == WhyNot(enrs, w, slot, now) && LowestTaken(enrs, w, student, rest, slot, now);
    assert slot in rest + [last] && LowestTaken(enrs, w, student, rest + [last], slot, now);
  }

  lemma BookLastIff(enrs: map<SeatKey, Enrollment>, w: World, i: nat, student: int, rest: seq<int>, slot: int, now: Moment)
    requires (forall k <- enrs :: k.order != i) && slot !in rest && forall s <- rest :: s < slot
    requires BookSlots(enrs, w, i, student, rest, now).Success? && forall s <- rest :: Bookable(enrs, w, student, s, now)
    requires HoldsOnly(enrs, BookSlots(enrs, w, i, student, rest, now).value, i, student, rest, now)
    ensures var r := BookSlot(BookSlots(enrs, w, i, student, rest, now).value, w, i, student, slot, now);
            && (r.Success? ==> HoldsOnly(enrs, r.value, i, student, rest + [slot], now) && Bookable(enrs, w, student, slot, now))
            && (r.Failure? ==> FirstTaken(enrs, w, student, rest + [slot], r.error, now))
  {
    var mid := BookSlots(enrs, w, i, student, rest, now).value;
    BookedIff(mid, w, i, student, slot, now);
    BookableElsewhere(enrs, mid, w, i, student, rest, slot, now);
    if BookSlot(mid, w, i, student, slot, now).Success? {
      BookSlotHolds(mid, w, i, student, slot, now);
      HoldsTwice(enrs, mid, BookSlot(mid, w, i, student, slot, now).value, i, student, rest, slot, now);
    } else {
      assert slot in rest + [slot] && LowestTaken(enrs, w, student, rest + [slot], slot, now);
    }
  }

  // ---- The whole checkout ----

  /** The deposit pays as much of the price as it can, when the parent asks for it. */
  function Applied(db: Db, req: CheckoutRequest, price: int): int {
    if !req.useDeposit then 0 else if BalanceOf(db, req.parent) < price then BalanceOf(db, req.parent) else price
  }

  lemma AppliedIsShare(db: Db, req: CheckoutRequest, price: int)
    requires Balances(db) && price >= 0
    ensures DepositShare(db.deposits, req.parent, price, req.useDeposit) == Applied(db, req, price) >= 0
  {
    assert BalanceOf(db, req.parent) == ParentSum(db.journal, req.parent) >= 0;
  }

  predicate Valid(w: World, req: CheckoutRequest) {
    && req.plan in w.plans && |set s | s in req.slotIds| == w.plans[req.plan].slotsCount
    && req.student in w.students && w.students[req.student] == req.parent
  }

  lemma {:induction false} AscendingIsASet(s: seq<int>)
    requires Ascending(s)
    ensures |set x | x in s| == |s|
  {
    if s != [] {
      var rest, last := s[..|s| - 1], s[|s| - 1];
      AscendingIsASet(rest);
      assert (set x | x in s) == (set x | x in rest) + {last};
      assert last !in rest;
    }
  }

  lemma NormalizeCounts(ids: seq<int>)
    ensures |Normalize(ids)| == |set s | s in ids|
  {
    AscendingIsASet(Normalize(ids));
    assert (set x | x in Normalize(ids)) == (set s | s in ids);
  }

  predicate Acceptable(db: Db, w: World, req: CheckoutRequest, now: Moment) {
    && Valid(w, req)
    && (forall s <- req.slotIds :: Bookable(db.enrs, w, req.student, s, now))
    && (Applied(db, req, w.plans[req.plan].price) == w.plans[req.plan].price ==> forall s <- req.slotIds :: s in w.nextLesson)
  }

  /**
   A checkout is accepted exactly when the request is valid, every requested slot
   is free, and, if the deposit pays it all, the schedule knows every slot.
   */
  lemma AcceptedIff(db: Db, w: World, req: CheckoutRequest, now: Moment)
    requires Inv(db) && WorldOk(w)
    ensures Checkout(db, w, req, now).Success? <==> Acceptable(db, w, req, now)
  {
    NormalizeCounts(req.slotIds);
    if Valid(w, req) {
      PlacedIff(db, w, req, w.plans[req.plan], Normalize(req.slotIds), now);
      assert forall s <- req.slotIds :: s in Normalize(req.slotIds);
    }
  }

  /** Why a checkout is refused: the request itself, the lowest slot that cannot be booked, or a prepaid slot without a lesson. */
  ghost predicate Refused(db: Db, w: World, req: CheckoutRequest, now: Moment, e: CheckoutError) {
    if req.plan !in w.plans then e == PlanNotFound
    else if |set s | s in req.slotIds| != w.plans[req.plan].slotsCount then
      e == PlanSlotsMismatch(w.plans[req.plan].slotsCount, |set s | s in req.slotIds|)
    else if req.student !in w.students || w.students[req.student] != req.parent then e == StudentNotOwned
    else if exists s <- req.slotIds :: !Bookable(db.enrs, w, req.student, s, now) then
      FirstTaken(db.enrs, w, req.student, Normalize(req.slotIds), e, now)
    else e.SlotNotFound? && e.slot in req.slotIds && e.slot !in w.nextLesson
  }

  lemma RefusedBecause(db: Db, w: World, req: CheckoutRequest, now: Moment)
    requires Inv(db) && WorldOk(w) && Checkout(db, w, req, now).Failure?
    ensures Refused(db, w, req, now, Checkout(db, w, req, now).error)
  {
    NormalizeCounts(req.slotIds);
    if Valid(w, req) {
      NotPlaced(db, w, req, w.plans[req.plan], Normalize(req.slotIds), now);
      assert forall s <- req.slotIds :: s in Normalize(req.slotIds);
      assert forall s <- Normalize(req.slotIds) :: s in req.slotIds;
    }
  }

  lemma NotPlaced(db: Db, w: World, req: CheckoutRequest, plan: Plan, slots: seq<int>, now: Moment)
    requires Inv(db) && WorldOk(w) && plan.price >= 0 && Ascending(slots) && slots != []
    requires PlaceOrder(db, w, req, plan, slots, now).Failure?
    ensures var e := PlaceOrder(db, w, req, plan, slots, now).error;
            if exists s <- slots :: !Bookable(db.enrs, w, req.student, s, now) then FirstTaken(db.enrs, w, req.student, slots, e, now)
            else e.SlotNotFound? && e.slot in slots && e.slot !in w.nextLesson
  {
    BookSlotsIff(db.enrs, w, db.next, req.student, slots, now);
    FirstLessonIsEarliest(w, slots);
    var r := BookSlots(db.enrs, w, db.next, req.student, slots, now);
    if r.Failure? {
      var slot :| slot in slots && r.error == WhyNot(db.enrs, w, slot, now) && LowestTaken(db.enrs, w, req.student, slots, slot, now);
    }
  }

  lemma PlacedIff(db: Db, w: World, req: CheckoutRequest, plan: Plan, slots: seq<int>, now: Moment)
    requires Inv(db) && WorldOk(w) && plan.price >= 0 && Ascending(slots) && slots != []
    ensures PlaceOrder(db, w, req, plan, slots, now).Success? <==>
              && (forall s <- slots :: Bookable(db.enrs, w, req.student, s, now))
              && (Applied(db, req, plan.price) == plan.price ==> forall s <- slots :: s in w.nextLesson)
  {
    AppliedIsShare(db, req, plan.price);
    BookSlotsIff(db.enrs, w, db.next, req.student, slots, now);
    FirstLessonKnownIff(w, slots);
    PlacedWhenBooked(db, w, req, plan, slots, now);
  }

  lemma PlacedWhenBooked(db: Db, w: World, req: CheckoutRequest, plan: Plan, slots: seq<int>, now: Moment)
    requires WorldOk(w) && plan.price >= 0 && slots != []
    ensures PlaceOrder(db, w, req, plan, slots, now).Success? <==>
              && BookSlots(db.enrs, w, db.next, req.student, slots, now).Success?
              && (DepositShare(db.deposits, req.parent, plan.price, req.useDeposit) == plan.price ==> FirstLesson(w, slots).Success?)
  {
  }

  // ---- What an accepted checkout leaves behind ----

  /** The rows of the new order, and the money it moved. */
  ghost predicate NewOrder(db: Db, after: Db, req: CheckoutRequest, slots: seq<int>, plan: Plan, applied: int, confirmed: bool, now: Moment) {
    var i := db.next;
    && i in after.txs && i in after.subs && after.next == i + 1
    && after.txs[i] == Transaction(req.parent, Some(i), plan.price - applied, if confirmed then TxSucceeded else TxPending, SlotList(slots), None,
                                   Metadata(applied, false, confirmed, false, false, None, NoRefund), false, None, now)
    && after.subs[i] == Subscription(req.parent, plan.price, plan.basePrice, if confirmed then SubActive else SubPending, after.subs[i].window)
    && (after.subs[i].window.Some? <==> confirmed)
    && BalanceOf(after, req.parent) == BalanceOf(db, req.parent) - applied
    && (forall q :: q != req.parent ==> BalanceOf(after, q) == BalanceOf(db, q))
    && after.journal == (if applied > 0 then db.journal + [DepositEntry(req.parent, -applied, CheckoutSpend, OfTransaction(i))]
                         else db.journal)
  }

  /** Nothing else changes but stale holds in the requested slots. */
  ghost predicate OthersKept(db: Db, after: Db, slots: seq<int>, now: Moment) {
    && after.txs.Keys == db.txs.Keys + {db.next} && (forall j <- db.txs :: after.txs[j] == db.txs[j])
    && after.subs.Keys == db.subs.Keys + {db.next} && (forall j <- db.subs :: after.subs[j] == db.subs[j])
    && (forall k <- db.tokens :: k in after.tokens && after.tokens[k] == db.tokens[k])
    && after.marks == db.marks && after.nextMark == db.nextMark && after.jobs == db.jobs && after.calls == db.calls
    && (forall k <- db.enrs :: k in after.enrs
          && after.enrs[k] == if k.slot in slots && Lapsed(db.enrs[k], now) then db.enrs[k].(status := EnrollmentCanceled) else db.enrs[k])
  }

  /** The only new rows are one seat per slot, enrolled or held, and for a paid order one full token row per slot. */
  ghost predicate SeatsTaken(db: Db, after: Db, student: int, slots: seq<int>, now: Moment, confirmed: bool) {
    var i := db.next;
    && (forall k :: k in after.enrs <==> k in db.enrs || (k.order == i && k.slot in slots))
    && (forall s <- slots :: SeatIs(after, SeatKey(i, s), Enrollment(student, if confirmed then Enrolled else Held, now)))
    && (forall k :: k in after.tokens <==> k in db.tokens || (confirmed && k.order == i && k.slot in slots))
    && (confirmed ==> forall s <- slots :: TokenIs(after, SeatKey(i, s), TokenRow(TOKENS_PER_SLOT, TOKENS_PER_SLOT)))
  }

  predicate SeatIs(db: Db, k: SeatKey, e: Enrollment) {
    k in db.enrs && db.enrs[k] == e
  }

  predicate TokenIs(db: Db, k: SeatKey, t: TokenRow) {
    k in db.tokens && db.tokens[k] == t
  }

  lemma InsertLeaves(db: Db, req: CheckoutRequest, plan: Plan, slots: seq<int>, enrs: map<SeatKey, Enrollment>, applied: int, now: Moment)
    requires db.subs.Keys == db.txs.Keys && db.next !in db.txs && (applied > 0 ==> req.parent in db.deposits) && applied >= 0
    requires HoldsOnly(db.enrs, enrs, db.next, req.student, slots, now)
    ensures var after := InsertOrder(db, req.parent, plan, slots, enrs, applied, now);
            && NewOrder(db, after, req, slots, plan, applied, false, now) && OthersKept(db, after, slots, now)
            && SeatsTaken(db, after, req.student, slots, now, false)
  {
  }

  lemma PaidOrder(db: Db, placed: Db, req: CheckoutRequest, slots: seq<int>, plan: Plan, window: Window, now: Moment)
    requires FulfillPrepaidReady(placed, db.next, slots) && NewOrder(db, placed, req, slots, plan, plan.price, false, now)
    ensures var after := PrepaidDone(placed, db.next, db.next, window);
            NewOrder(db, after, req, slots, plan, plan.price, true, now) && after.subs[db.next].window == Some(window)
  {
  }

  lemma PaidDisturbsNobody(db: Db, placed: Db, slots: seq<int>, window: Window, now: Moment)
    requires FulfillPrepaidReady(placed, db.next, slots) && OthersKept(db, placed, slots, now)
    requires (forall k <- db.enrs :: k.order != db.next) && (forall k <- db.tokens :: k.order != db.next)
    requires db.next !in db.txs && db.next !in db.subs
    ensures OthersKept(db, PrepaidDone(placed, db.next, db.next, window), slots, now)
  {
  }

  lemma PaidSeats(db: Db, placed: Db, student: int, slots: seq<int>, window: Window, now: Moment)
    requires FulfillPrepaidReady(placed, db.next, slots) && SeatsTaken(db, placed, student, slots, now, false)
    ensures SeatsTaken(db, PrepaidDone(placed, db.next, db.next, window), student, slots, now, true)
  {
    var i, after := db.next, PrepaidDone(placed, db.next, db.next, window);
    forall s | s in slots
      ensures SeatIs(after, SeatKey(i, s), Enrollment(student, Enrolled, now))
      ensures TokenIs(after, SeatKey(i, s), TokenRow(TOKENS_PER_SLOT, TOKENS_PER_SLOT))
    {
      assert SeatIs(placed, SeatKey(i, s), Enrollment(student, Held, now));
    }
  }

  lemma PrepaidLeaves(db: Db, placed: Db, w: World, req: CheckoutRequest, slots: seq<int>, plan: Plan, now: Moment)
    requires WorldOk(w) && slots != [] && FulfillPrepaidReady(placed, db.next, slots)
    requires (forall k <- db.enrs :: k.order != db.next) && (forall k <- db.tokens :: k.order != db.next)
    requires db.next !in db.txs && db.next !in db.subs
    requires NewOrder(db, placed, req, slots, plan, plan.price, false, now) && OthersKept(db, placed, slots, now)
    requires SeatsTaken(db, placed, req.student, slots, now, false)
    requires FulfillPrepaid(placed, w, db.next).Success?
    ensures var after := FulfillPrepaid(placed, w, db.next).value;
            && NewOrder(db, after, req, slots, plan, plan.price, true, now) && OthersKept(db, after, slots, now)
            && SeatsTaken(db, after, req.student, slots, now, true) && WindowFits(w, slots, after.subs[db.next].window.value)
  {
    var window := WindowFrom(FirstLesson(w, slots).value);
    WindowOfLessons(w, slots);
    PaidOrder(db, placed, req, slots, plan, window, now);
    PaidDisturbsNobody(db, placed, slots, window, now);
    PaidSeats(db, placed, req.student, slots, window, now);
  }

  predicate FulfillPrepaidReady(placed: Db, i: nat, slots: seq<int>) {
    i in placed.txs && placed.txs[i].subscription == Some(i) && placed.txs[i].slots == SlotList(slots)
  }

  /** The new order has the requested slots and no others, is paid as far as the deposit reaches, and disturbs nobody. */
  ghost predicate Places(db: Db, w: World, req: CheckoutRequest, plan: Plan, now: Moment, placed: Placed) {
    var slots, applied := Normalize(req.slotIds), Applied(db, req, plan.price);
    && placed.order == db.next && placed.confirmed == (applied == plan.price)
    && NewOrder(db, placed.db, req, slots, plan, applied, placed.confirmed, now)
    && (placed.confirmed ==> WindowFits(w, slots, placed.db.subs[db.next].window.value))
    && OthersKept(db, placed.db, slots, now)
    && SeatsTaken(db, placed.db, req.student, slots, now, placed.confirmed)
  }

  lemma PlacedLeaves(db: Db, w: World, req: CheckoutRequest, plan: Plan, now: Moment)
    requires Inv(db) && WorldOk(w) && plan.price >= 0 && Normalize(req.slotIds) != []
    requires PlaceOrder(db, w, req, plan, Normalize(req.slotIds), now).Success?
    ensures Places(db, w, req, plan, now, PlaceOrder(db, w, req, plan, Normalize(req.slotIds), now).value)
  {
    var slots := Normalize(req.slotIds);
    AppliedIsShare(db, req, plan.price);
    BookSlotsIff(db.enrs, w, db.next, req.student, slots, now);
    var enrs := BookSlots(db.enrs, w, db.next, req.student, slots, now).value;
    var applied := Applied(db, req, plan.price);
    InsertLeaves(db, req, plan, slots, enrs, applied, now);
    if applied == plan.price {
      PrepaidLeaves(db, InsertOrder(db, req.parent, plan, slots, enrs, applied, now), w, req, slots, plan, now);
    }
  }

  lemma AcceptedLeaves(db: Db, w: World, req: CheckoutRequest, now: Moment)
    requires Inv(db) && WorldOk(w) && Checkout(db, w, req, now).Success?
    ensures Places(db, w, req, w.plans[req.plan], now, Checkout(db, w, req, now).value)
  {
    PlacedLeaves(db, w, req, w.plans[req.plan], now);
  }

  /** Accepted or refused, each with its reason and its effect. */
  ghost predicate Answers(db: Db, w: World, req: CheckoutRequest, now: Moment, r: Result<Placed, CheckoutError>) {
    if Acceptable(db, w, req, now) then r.Success? && Places(db, w, req, w.plans[req.plan], now, r.value)
    else r.Failure? && Refused(db, w, req, now, r.error)
  }

  lemma CheckoutAnswers(db: Db, w: World, req: CheckoutRequest, now: Moment)
    requires Inv(db) && WorldOk(w)
    ensures Answers(db, w, req, now, Checkout(db, w, req, now))
  {
    AcceptedIff(db, w, req, now);
    if Acceptable(db, w, req, now) {
      AcceptedLeaves(db, w, req, now);
    } else {
      RefusedBecause(db, w, req, now);
    }
  }
}
