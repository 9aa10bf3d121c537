/**
 Seats under interleaved checkouts and confirmations. Each worker runs its
 database transaction statement by statement: it takes the advisory locks of
 its slots in ascending order and keeps them to the end, reads committed rows
 and its own writes, and publishes its writes only when it commits. Between
 any two statements the clock may run, the administrator may change a
 capacity, other workers may act, and any seat may be given up.
 */
module SeatBooking {
  import opened BillingModel
  import opened BillingSteps
  import opened Sums

  datatype Role = Checkout(student: int) | Confirmation

  /**
   `startedAt` the clock reading that decides which holds a checkout cleans up,
   `held` locks taken, `done` slots checked and written, `read` the capacities
   the checks saw.
   */
  datatype Worker = Worker(
    role: Role,
    order: nat,
    startedAt: Moment,
    slots: seq<int>,
    held: nat,
    done: nat,
    staged: map<SeatKey, Enrollment>,
    read: map<int, int>)

  datatype State = State(
    now: Moment,
    nextOrder: nat,
    capacity: map<int, int>,
    rows: map<SeatKey, Enrollment>,
    locks: map<int, nat>,
    workers: map<nat, Worker>)

  datatype Action =
    | Tick(seconds: nat)
    | SetCapacity(slot: int, seats: int)
    | BeginCheckout(w: nat, student: int, requested: seq<int>)
    | BeginConfirmation(w: nat, order: nat, selected: seq<int>)
    | Lock(w: nat)
    | Book(w: nat)
    | Recheck(w: nat)
    | Commit(w: nat, prepaid: bool)
    | Abort(w: nat)
    | GiveUp(seat: SeatKey)

  // ---- Steps ----

  function Finish(s: State, w: nat): State {
    s.(workers := s.workers - {w}, locks := map slot <- s.locks | s.locks[slot] != w :: s.locks[slot])
  }

  /** Committed rows under the worker's own writes. */
  function View(s: State, w: nat): map<SeatKey, Enrollment>
    requires w in s.workers
  {
    s.rows + s.workers[w].staged
  }

  predicate CanLock(s: State, w: nat) {
    && w in s.workers
    && var me := s.workers[w];
       && me.held < |me.slots| && me.slots[me.held] !in s.locks
       && (me.role.Checkout? ==> me.held == me.done)
  }

  function DoLock(s: State, w: nat): State
    requires CanLock(s, w)
  {
    var me := s.workers[w];
    s.(locks := s.locks[me.slots[me.held] := w], workers := s.workers[w := me.(held := me.held + 1)])
  }

  function StaleAt(enrs: map<SeatKey, Enrollment>, slot: int, now: Moment): map<SeatKey, Enrollment> {
    map k <- enrs | k.slot == slot && HoldStale(enrs[k], now) :: enrs[k].(status := EnrollmentCanceled)
  }

  /** Holds of the slot that were stale at the start canceled, and the new hold. */
  function BookingWrites(view: map<SeatKey, Enrollment>, seat: SeatKey, hold: Enrollment, startedAt: Moment): map<SeatKey, Enrollment> {
    StaleAt(view, seat.slot, startedAt)[seat := hold]
  }

  /** One turn of the checkout loop, or the end of the transaction. */
  function DoBook(s: State, w: nat): State
    requires w in s.workers && s.workers[w].done < |s.workers[w].slots| && s.workers[w].role.Checkout?
  {
    var me := s.workers[w];
    var slot := me.slots[me.done];
    var cleaned := CancelStaleHolds(View(s, w), slot, me.startedAt);
    if slot !in s.capacity || |Seats(cleaned, slot, s.now)| >= s.capacity[slot] || Duplicate(cleaned, me.role.student, slot)
    then Finish(s, w)
    else
      var booked := BookingWrites(View(s, w), SeatKey(me.order, slot), Enrollment(me.role.student, Held, s.now), me.startedAt);
      s.(workers := s.workers[w := me.(done := me.done + 1, staged := me.staged + booked,
                                       read := me.read[slot := s.capacity[slot]])])
  }

  /** One turn of the confirmation's check, or the end of the attempt. */
  function DoRecheck(s: State, w: nat): State
    requires w in s.workers && s.workers[w].done < |s.workers[w].slots|
  {
    var me := s.workers[w];
    var slot := me.slots[me.done];
    var seat := SeatKey(me.order, slot);
    var view := View(s, w);
    if seat !in view || view[seat].status != Held || slot !in s.capacity
       || |Seats(view, slot, s.now) - {seat}| >= s.capacity[slot]
    then Finish(s, w)
    else
      s.(workers := s.workers[w := me.(done := me.done + 1, staged := me.staged[seat := view[seat].(status := Enrolled)],
                                       read := me.read[slot := s.capacity[slot]])])
  }

  /** A fully prepaid checkout enrolls its holds before it commits. */
  function Published(me: Worker, prepaid: bool): map<SeatKey, Enrollment> {
    if prepaid then EnrollHeld(me.staged, me.order) else me.staged
  }

  function DoCommit(s: State, w: nat, prepaid: bool): State
    requires w in s.workers
  {
    Finish(s, w).(rows := s.rows + Published(s.workers[w], prepaid))
  }

  function Exec(s: State, a: Action): State {
    match a
    case Tick(seconds) => s.(now := s.now + seconds)
    case SetCapacity(slot, seats) => s.(capacity := s.capacity[slot := seats])
    case BeginCheckout(w, student, requested) =>
      if w in s.workers then s
      else s.(nextOrder := s.nextOrder + 1,
              workers := s.workers[w := Worker(Checkout(student), s.nextOrder, s.now, Normalize(requested), 0, 0, map[], map[])])
    case BeginConfirmation(w, order, selected) =>
      if w in s.workers then s
      else s.(workers := s.workers[w := Worker(Confirmation, order, s.now, Normalize(selected), 0, 0, map[], map[])])
    case Lock(w) => if CanLock(s, w) then DoLock(s, w) else s
    case Book(w) =>
      if w in s.workers && s.workers[w].role.Checkout? && s.workers[w].done < s.workers[w].held <= |s.workers[w].slots|
      then DoBook(s, w) else s
    case Recheck(w) =>
      if w in s.workers && s.workers[w].role.Confirmation?
         && s.workers[w].done < s.workers[w].held == |s.workers[w].slots|
      then DoRecheck(s, w) else s
    case Commit(w, prepaid) =>
      if w in s.workers && s.workers[w].done == |s.workers[w].slots| then DoCommit(s, w, prepaid) else s
    case Abort(w) => Finish(s, w)
    case GiveUp(seat) =>
      if seat in s.rows then s.(rows := s.rows[seat := s.rows[seat].(status := EnrollmentCanceled)]) else s
  }

  function Run(s: State, actions: seq<Action>): State
    decreases |actions|
  {
    if actions == [] then s else Run(Exec(s, actions[0]), actions[1..])
  }

  // ---- Invariant ----

  /** A worker holds exactly the locks it took, and nobody else holds them. */
  ghost predicate LocksFit(s: State) {
    && (forall w <- s.workers :: WorkerOk(s.workers[w]))
    && (forall w, j :: w in s.workers && 0 <= j < s.workers[w].held ==>
          s.workers[w].slots[j] in s.locks && s.locks[s.workers[w].slots[j]] == w)
    && (forall slot <- s.locks :: s.locks[slot] in s.workers)
  }

  predicate WorkerOk(me: Worker) {
    && me.done <= me.held <= |me.slots|
    && Ascending(me.slots)
  }

  /** Writes only touch slots already checked, whose locks are therefore held. */
  predicate StagedFits(me: Worker)
    requires WorkerOk(me)
  {
    forall k <- me.staged :: k.slot in me.slots[..me.done]
  }

  /** Seats taken once the worker commits, its own live writes counted even if their hold has grown old. */
  function Worst(rows: map<SeatKey, Enrollment>, staged: map<SeatKey, Enrollment>, slot: int, now: Moment): set<SeatKey> {
    set k <- rows + staged | k.slot == slot && if k in staged then Live(staged[k]) else TakesSeat(rows[k], now)
  }

  ghost predicate ChecksStand(s: State, me: Worker)
    requires WorkerOk(me)
  {
    forall j :: 0 <= j < me.done ==>
      me.slots[j] in me.read && |Worst(s.rows, me.staged, me.slots[j], s.now)| <= me.read[me.slots[j]]
  }

  ghost predicate Inv(s: State) {
    && LocksFit(s)
    && (forall w <- s.workers :: StagedFits(s.workers[w]) && ChecksStand(s, s.workers[w]))
  }

  /** Nobody else's checks are disturbed by a step that takes no seat in the slots they cover. */
  lemma ChecksSurvive(s: State, after: State, me: Worker)
    requires WorkerOk(me) && ChecksStand(s, me)
    requires forall j :: 0 <= j < me.done ==>
               Worst(after.rows, me.staged, me.slots[j], after.now) <= Worst(s.rows, me.staged, me.slots[j], s.now)
    ensures ChecksStand(after, me)
  {
    forall j | 0 <= j < me.done
      ensures me.slots[j] in me.read && |Worst(after.rows, me.staged, me.slots[j], after.now)| <= me.read[me.slots[j]]
    {
      SubsetSize(Worst(after.rows, me.staged, me.slots[j], after.now), Worst(s.rows, me.staged, me.slots[j], s.now));
    }
  }

  lemma OthersSurvive(s: State, after: State)
    requires Inv(s)
    requires forall w <- after.workers :: w in s.workers && after.workers[w] == s.workers[w]
    requires forall w, j :: w in after.workers && 0 <= j < s.workers[w].done ==>
               Worst(after.rows, s.workers[w].staged, s.workers[w].slots[j], after.now)
               <= Worst(s.rows, s.workers[w].staged, s.workers[w].slots[j], s.now)
    ensures forall w <- after.workers :: StagedFits(after.workers[w]) && ChecksStand(after, after.workers[w])
  {
    forall w | w in after.workers ensures StagedFits(after.workers[w]) && ChecksStand(after, after.workers[w]) {
      ChecksSurvive(s, after, s.workers[w]);
    }
  }

  // ---- Every step keeps it ----

  lemma LockKeepsInv(s: State, w: nat)
    requires Inv(s) && CanLock(s, w)
    ensures Inv(DoLock(s, w))
  {
    var after := DoLock(s, w);
    var me := after.workers[w];
    forall v, j | v in after.workers && 0 <= j < after.workers[v].held
      ensures after.workers[v].slots[j] in after.locks && after.locks[after.workers[v].slots[j]] == v
    {
      if v == w && j == me.held - 1 {
      } else {
        assert s.locks[s.workers[v].slots[j]] == v;
      }
    }
    forall v | v in after.workers ensures StagedFits(after.workers[v]) && ChecksStand(after, after.workers[v]) {
      assert StagedFits(s.workers[v]) && ChecksStand(s, s.workers[v]);
      assert after.workers[v].slots[..after.workers[v].done] == s.workers[v].slots[..s.workers[v].done];
    }
  }

  lemma FinishKeepsLocks(s: State, w: nat)
    requires LocksFit(s)
    ensures LocksFit(Finish(s, w))
  {
  }

  lemma FinishKeepsInv(s: State, w: nat)
    requires Inv(s)
    ensures Inv(Finish(s, w))
  {
    FinishKeepsLocks(s, w);
    OthersSurvive(s, Finish(s, w));
  }

  /** After booking, the slot holds the seats counted by the check and the new one. */
  lemma BookedWorst(rows: map<SeatKey, Enrollment>, staged: map<SeatKey, Enrollment>, seat: SeatKey, e: Enrollment,
                   startedAt: Moment, now: Moment)
    requires forall k <- staged :: k.slot != seat.slot
    ensures var slot := seat.slot;
            var cleaned := CancelStaleHolds(rows + staged, slot, startedAt);
            var after := staged + BookingWrites(rows + staged, seat, e, startedAt);
            |Worst(rows, after, slot, now)| <= |Seats(cleaned, slot, now)| + 1
  {
    var slot := seat.slot;
    var cleaned := CancelStaleHolds(rows + staged, slot, startedAt);
    var after := staged + BookingWrites(rows + staged, seat, e, startedAt);
    SubsetSize(Worst(rows, after, slot, now), Seats(cleaned, slot, now) + {seat});
  }

  /** Other slots of the worker are untouched by writes at this slot. */
  lemma OtherSlotWorst(rows: map<SeatKey, Enrollment>, staged: map<SeatKey, Enrollment>, more: map<SeatKey, Enrollment>,
                       slot: int, other: int, now: Moment)
    requires slot != other
    requires forall k <- more :: k.slot == slot
    ensures Worst(rows, staged + more, other, now) == Worst(rows, staged, other, now)
  {
  }

  /** The worker after one more checked slot. */
  function Checked(s: State, w: nat, more: map<SeatKey, Enrollment>, seats: int): State
    requires w in s.workers && s.workers[w].done < |s.workers[w].slots|
  {
    var me := s.workers[w];
    s.(workers := s.workers[w := me.(done := me.done + 1, staged := me.staged + more,
                                     read := me.read[me.slots[me.done] := seats])])
  }

  /** A worker that checked one more slot, its writes at that slot within the capacity it read. */
  lemma CheckedKeepsInv(s: State, w: nat, more: map<SeatKey, Enrollment>, seats: int)
    requires Inv(s) && w in s.workers && s.workers[w].done < s.workers[w].held
    requires forall k <- more :: k.slot == s.workers[w].slots[s.workers[w].done]
    requires var me := s.workers[w];
             |Worst(s.rows, me.staged + more, me.slots[me.done], s.now)| <= seats
    ensures Inv(Checked(s, w, more, seats))
  {
    var me := s.workers[w];
    var slot := me.slots[me.done];
    var mine := me.(done := me.done + 1, staged := me.staged + more, read := me.read[slot := seats]);
    var after := s.(workers := s.workers[w := mine]);
    assert me.slots[..me.done + 1] == me.slots[..me.done] + [slot];
    assert StagedFits(me);
    CheckedStands(s, me, more, seats);
    forall v | v in after.workers ensures StagedFits(after.workers[v]) && ChecksStand(after, after.workers[v]) {
      if v != w {
        ChecksSurvive(s, after, s.workers[v]);
      } else {
        ChecksSurvive(s, after, mine);
      }
    }
  }

  /** The worker's own checks, with one more slot within the capacity read for it. */
  lemma CheckedStands(s: State, me: Worker, more: map<SeatKey, Enrollment>, seats: int)
    requires WorkerOk(me) && me.done < me.held && ChecksStand(s, me)
    requires forall k <- more :: k.slot == me.slots[me.done]
    requires |Worst(s.rows, me.staged + more, me.slots[me.done], s.now)| <= seats
    ensures ChecksStand(s, me.(done := me.done + 1, staged := me.staged + more, read := me.read[me.slots[me.done] := seats]))
  {
    var slot := me.slots[me.done];
    var mine := me.(done := me.done + 1, staged := me.staged + more, read := me.read[slot := seats]);
    forall j | 0 <= j < mine.done
      ensures mine.slots[j] in mine.read && |Worst(s.rows, mine.staged, mine.slots[j], s.now)| <= mine.read[mine.slots[j]]
    {
      if j < me.done {
        assert me.slots[j] != slot;
        OtherSlotWorst(s.rows, me.staged, more, slot, me.slots[j], s.now);
      }
    }
  }

  lemma UncheckedSlotClean(me: Worker)
    requires WorkerOk(me) && StagedFits(me) && me.done < |me.slots|
    ensures forall k <- me.staged :: k.slot != me.slots[me.done]
  {
  }

  lemma BookShape(s: State, w: nat) returns (more: map<SeatKey, Enrollment>)
    requires w in s.workers && WorkerOk(s.workers[w]) && StagedFits(s.workers[w])
    requires s.workers[w].role.Checkout? && s.workers[w].done < s.workers[w].held
    ensures var me := s.workers[w];
            var slot := me.slots[me.done];
            DoBook(s, w) == Finish(s, w) ||
            (&& slot in s.capacity && DoBook(s, w) == Checked(s, w, more, s.capacity[slot])
             && (forall k <- more :: k.slot == slot)
             && |Worst(s.rows, me.staged + more, slot, s.now)| <= s.capacity[slot])
  {
    var me := s.workers[w];
    var slot := me.slots[me.done];
    var seat := SeatKey(me.order, slot);
    var hold := Enrollment(me.role.student, Held, s.now);
    UncheckedSlotClean(me);
    BookedWorst(s.rows, me.staged, seat, hold, me.startedAt, s.now);
    more := BookingWrites(View(s, w), seat, hold, me.startedAt);
  }

  lemma BookKeepsInv(s: State, w: nat)
    requires Inv(s) && w in s.workers && s.workers[w].role.Checkout? && s.workers[w].done < s.workers[w].held
    ensures Inv(DoBook(s, w))
  {
    var more := BookShape(s, w);
    if DoBook(s, w) == Finish(s, w) {
      FinishKeepsInv(s, w);
    } else {
      CheckedKeepsInv(s, w, more, s.capacity[s.workers[w].slots[s.workers[w].done]]);
    }
  }

  /** Confirming a held seat counts it once, besides the others. */
  lemma ConfirmedWorst(rows: map<SeatKey, Enrollment>, staged: map<SeatKey, Enrollment>, seat: SeatKey, e: Enrollment, now: Moment)
    requires forall k <- staged :: k.slot != seat.slot
    ensures |Worst(rows, staged + map[seat := e], seat.slot, now)| <= |Seats(rows + staged, seat.slot, now) - {seat}| + 1
  {
    var others := Seats(rows + staged, seat.slot, now) - {seat};
    SubsetSize(Worst(rows, staged + map[seat := e], seat.slot, now), others + {seat});
  }

  lemma RecheckShape(s: State, w: nat) returns (more: map<SeatKey, Enrollment>)
    requires w in s.workers && WorkerOk(s.workers[w]) && StagedFits(s.workers[w])
    requires s.workers[w].done < s.workers[w].held
    ensures var me := s.workers[w];
            var slot := me.slots[me.done];
            DoRecheck(s, w) == Finish(s, w) ||
            (&& slot in s.capacity && DoRecheck(s, w) == Checked(s, w, more, s.capacity[slot])
             && (forall k <- more :: k.slot == slot)
             && |Worst(s.rows, me.staged + more, slot, s.now)| <= s.capacity[slot])
  {
    var me := s.workers[w];
    var slot := me.slots[me.done];
    var seat := SeatKey(me.order, slot);
    more := map[];
    if seat in View(s, w) {
      var enrolled := View(s, w)[seat].(status := Enrolled);
      UncheckedSlotClean(me);
      ConfirmedWorst(s.rows, me.staged, seat, enrolled, s.now);
      more := map[seat := enrolled];
      assert me.staged + more == me.staged[seat := enrolled];
    }
  }

  lemma RecheckKeepsInv(s: State, w: nat)
    requires Inv(s) && w in s.workers && s.workers[w].done < s.workers[w].held
    ensures Inv(DoRecheck(s, w))
  {
    var more := RecheckShape(s, w);
    if DoRecheck(s, w) == Finish(s, w) {
      FinishKeepsInv(s, w);
    } else {
      CheckedKeepsInv(s, w, more, s.capacity[s.workers[w].slots[s.workers[w].done]]);
    }
  }

  /** The committing worker's writes lie in slots nobody else has checked. */
  lemma CommitKeepsInv(s: State, w: nat, prepaid: bool)
    requires Inv(s) && w in s.workers
    ensures Inv(DoCommit(s, w, prepaid))
  {
    var after := DoCommit(s, w, prepaid);
    FinishKeepsLocks(s, w);
    forall v, j | v in after.workers && 0 <= j < s.workers[v].done
      ensures Worst(after.rows, s.workers[v].staged, s.workers[v].slots[j], after.now)
              <= Worst(s.rows, s.workers[v].staged, s.workers[v].slots[j], s.now)
    {
      var slot := s.workers[v].slots[j];
      assert s.locks[slot] == v;
      forall k | k in s.workers[w].staged ensures k.slot != slot {
        assert k.slot in s.workers[w].slots[..s.workers[w].done];
      }
    }
    OthersSurvive(s, after);
  }

  lemma BeginKeepsInv(s: State, w: nat, me: Worker)
    requires Inv(s) && w !in s.workers
    requires me.held == me.done == 0 && Ascending(me.slots) && me.staged == map[]
    ensures Inv(s.(workers := s.workers[w := me]))
  {
    var after := s.(workers := s.workers[w := me]);
    forall v | v in after.workers ensures StagedFits(after.workers[v]) && ChecksStand(after, after.workers[v]) {
      if v != w {
        ChecksSurvive(s, after, s.workers[v]);
      }
    }
  }

  lemma ExecKeepsInv(s: State, a: Action)
    requires Inv(s)
    ensures Inv(Exec(s, a))
  {
    match a
    case Tick(seconds) => OthersSurvive(s, Exec(s, a));
    case SetCapacity(slot, seats) => OthersSurvive(s, Exec(s, a));
    case BeginCheckout(w, student, requested) =>
      if w !in s.workers {
        var me := Worker(Checkout(student), s.nextOrder, s.now, Normalize(requested), 0, 0, map[], map[]);
        BeginKeepsInv(s, w, me);
        OthersSurvive(s.(workers := s.workers[w := me]), Exec(s, a));
      }
    case BeginConfirmation(w, order, selected) =>
      if w !in s.workers {
        BeginKeepsInv(s, w, Worker(Confirmation, order, s.now, Normalize(selected), 0, 0, map[], map[]));
      }
    case Lock(w) =>
      if CanLock(s, w) {
        LockKeepsInv(s, w);
      }
    case Book(w) =>
      if w in s.workers && s.workers[w].role.Checkout? && s.workers[w].done < s.workers[w].held {
        BookKeepsInv(s, w);
      }
    case Recheck(w) =>
      if w in s.workers && s.workers[w].done < s.workers[w].held {
        RecheckKeepsInv(s, w);
      }
    case Commit(w, prepaid) =>
      if w in s.workers {
        CommitKeepsInv(s, w, prepaid);
      }
    case Abort(w) => FinishKeepsInv(s, w);
    case GiveUp(seat) => OthersSurvive(s, Exec(s, a));
  }

  // ---- Seat safety ----

  function Taken(s: State, slot: int): nat {
    |Seats(s.rows, slot, s.now)|
  }

  lemma CommitWithinRead(s: State, w: nat, prepaid: bool, slot: int)
    requires Inv(s) && w in s.workers && s.workers[w].done == |s.workers[w].slots| && slot in s.workers[w].slots
    ensures slot in s.workers[w].read && Taken(DoCommit(s, w, prepaid), slot) <= s.workers[w].read[slot]
  {
    var me := s.workers[w];
    assert ChecksStand(s, me);
    var j :| 0 <= j < |me.slots| && me.slots[j] == slot;
    assert me.slots[j] in me.read;
    SubsetSize(Seats(DoCommit(s, w, prepaid).rows, slot, s.now), Worst(s.rows, me.staged, slot, s.now));
  }

  lemma CommitElsewhere(s: State, w: nat, prepaid: bool, slot: int)
    requires Inv(s) && w in s.workers && slot !in s.workers[w].slots
    ensures Taken(DoCommit(s, w, prepaid), slot) <= Taken(s, slot)
  {
    var me := s.workers[w];
    forall k | k in me.staged ensures k.slot != slot {
      assert k.slot in me.slots[..me.done];
    }
    SubsetSize(Seats(DoCommit(s, w, prepaid).rows, slot, s.now), Seats(s.rows, slot, s.now));
  }

  /**
   Every step either does not raise the occupancy of a slot, or is a commit that
   ends with at most the capacity its worker read for that slot.
   */
  lemma EveryStepIsSafe(s: State, a: Action, slot: int)
    requires Inv(s)
    ensures || Taken(Exec(s, a), slot) <= Taken(s, slot)
            || (&& a.Commit? && a.w in s.workers && slot in s.workers[a.w].read
                && Taken(Exec(s, a), slot) <= s.workers[a.w].read[slot])
  {
    if a.Commit? && a.w in s.workers && s.workers[a.w].done == |s.workers[a.w].slots| {
      if slot in s.workers[a.w].slots {
        CommitWithinRead(s, a.w, a.prepaid, slot);
      } else {
        CommitElsewhere(s, a.w, a.prepaid, slot);
      }
    } else {
      SubsetSize(Seats(Exec(s, a).rows, slot, Exec(s, a).now), Seats(s.rows, slot, s.now));
    }
  }

  lemma {:induction false} RunKeepsInv(s: State, actions: seq<Action>)
    requires Inv(s)
    ensures Inv(Run(s, actions))
    decreases |actions|
  {
    if actions != [] {
      ExecKeepsInv(s, actions[0]);
      RunKeepsInv(Exec(s, actions[0]), actions[1..]);
    }
  }

  function Fresh(capacity: map<int, int>): State {
    State(0, 0, capacity, map[], map[], map[])
  }

  /** The same for every state that any run reaches, whatever capacities the administrator set in between. */
  lemma EveryReachableStepIsSafe(capacity: map<int, int>, actions: seq<Action>, a: Action, slot: int)
    ensures var s := Run(Fresh(capacity), actions);
            || Taken(Exec(s, a), slot) <= Taken(s, slot)
            || (&& a.Commit? && a.w in s.workers && slot in s.workers[a.w].read
                && Taken(Exec(s, a), slot) <= s.workers[a.w].read[slot])
  {
    RunKeepsInv(Fresh(capacity), actions);
    EveryStepIsSafe(Run(Fresh(capacity), actions), a, slot);
  }

  // ---- What each statement answers ----

  /** Enrolled, or held for at most a quarter of an hour. */
  function TakenAt(view: map<SeatKey, Enrollment>, slot: int, now: Moment): set<SeatKey> {
    set k <- view | k.slot == slot
                    && (view[k].status == Enrolled || (view[k].status == Held && now - view[k].createdAt <= 15 * 60))
  }

  /** Enrolled, or held since a quarter of an hour before the checkout started. */
  predicate SitsThere(view: map<SeatKey, Enrollment>, student: int, slot: int, startedAt: Moment) {
    exists k <- view :: k.slot == slot && view[k].student == student
                        && (view[k].status == Enrolled || (view[k].status == Held && startedAt - view[k].createdAt <= 15 * 60))
  }

  lemma CleanedView(view: map<SeatKey, Enrollment>, student: int, slot: int, startedAt: Moment, now: Moment)
    requires startedAt <= now
    ensures Seats(CancelStaleHolds(view, slot, startedAt), slot, now) == TakenAt(view, slot, now)
    ensures Duplicate(CancelStaleHolds(view, slot, startedAt), student, slot) <==> SitsThere(view, student, slot, startedAt)
  {
    var cleaned := CancelStaleHolds(view, slot, startedAt);
    if SitsThere(view, student, slot, startedAt) {
      var k :| k in view && k.slot == slot && view[k].student == student
               && (view[k].status == Enrolled || (view[k].status == Held && startedAt - view[k].createdAt <= 15 * 60));
      assert k in cleaned && cleaned[k] == view[k];
    }
    if Duplicate(cleaned, student, slot) {
      var k :| k in cleaned && k.slot == slot && cleaned[k].student == student && Live(cleaned[k]);
      assert k in view && cleaned[k] == view[k];
    }
  }

  /** A checkout books the slot whose lock it took last exactly when there is room and the student does not sit there; else it ends. */
  lemma BookAnswers(s: State, w: nat)
    requires w in s.workers && s.workers[w].role.Checkout? && s.workers[w].startedAt <= s.now
    requires s.workers[w].done < s.workers[w].held <= |s.workers[w].slots|
    ensures var me := s.workers[w];
            var slot := me.slots[me.done];
            var view := s.rows + me.staged;
            var after := Exec(s, Book(w));
            if && slot in s.capacity && |TakenAt(view, slot, s.now)| < s.capacity[slot]
               && !SitsThere(view, me.role.student, slot, me.startedAt) then
              && w in after.workers && after.rows == s.rows && after.workers[w].done == me.done + 1
              && SeatKey(me.order, slot) in after.workers[w].staged
              && after.workers[w].staged[SeatKey(me.order, slot)] == Enrollment(me.role.student, Held, s.now)
            else w !in after.workers && after.rows == s.rows
  {
    var me := s.workers[w];
    CleanedView(s.rows + me.staged, me.role.student, me.slots[me.done], me.startedAt, s.now);
  }

  /** A confirmation takes the next held seat exactly when there is room besides the other seats; else it ends. */
  lemma RecheckAnswers(s: State, w: nat)
    requires w in s.workers && s.workers[w].role.Confirmation? && s.workers[w].done < s.workers[w].held == |s.workers[w].slots|
    ensures var me := s.workers[w];
            var slot := me.slots[me.done];
            var seat, view := SeatKey(me.order, slot), s.rows + me.staged;
            var after := Exec(s, Recheck(w));
            if && seat in view && view[seat].status == Held && slot in s.capacity
               && |TakenAt(view, slot, s.now) - {seat}| < s.capacity[slot] then
              && w in after.workers && after.rows == s.rows && after.workers[w].done == me.done + 1
              && after.workers[w].staged == me.staged[seat := view[seat].(status := Enrolled)]
            else w !in after.workers && after.rows == s.rows
  {
    var me := s.workers[w];
    assert Seats(s.rows + me.staged, me.slots[me.done], s.now) == TakenAt(s.rows + me.staged, me.slots[me.done], s.now);
  }

  /** A worker that has checked all its slots publishes what it staged, enrolled if the order is prepaid, and frees its locks. */
  lemma CommitAnswers(s: State, w: nat, prepaid: bool)
    requires w in s.workers && s.workers[w].done == |s.workers[w].slots|
    ensures var me := s.workers[w];
            var after := Exec(s, Commit(w, prepaid));
            && w !in after.workers && (forall slot <- after.locks :: after.locks[slot] != w)
            && (forall k :: k in after.rows <==> k in s.rows || k in me.staged)
            && (forall k <- after.rows :: after.rows[k] ==
                  if k !in me.staged then s.rows[k]
                  else if prepaid && k.order == me.order && me.staged[k].status == Held then me.staged[k].(status := Enrolled)
                  else me.staged[k])
  {
  }

  // ---- No slot ever holds more than the largest capacity it had ----

  function Room(s: State, slot: int): nat {
    if slot in s.capacity && s.capacity[slot] > 0 then s.capacity[slot] else 0
  }

  function Raised(peak: nat, a: Action, slot: int): nat {
    if a.SetCapacity? && a.slot == slot && a.seats > peak then a.seats else peak
  }

  /** The largest of `peak` and the capacities the actions give the slot. */
  function Peak(peak: nat, actions: seq<Action>, slot: int): (r: nat)
    ensures r >= peak
    ensures forall a <- actions :: a.SetCapacity? && a.slot == slot ==> a.seats <= r
    ensures r != peak ==> SetCapacity(slot, r) in actions
    decreases |actions|
  {
    if actions == [] then peak else Peak(Raised(peak, actions[0], slot), actions[1..], slot)
  }

  ghost predicate ReadsWithin(s: State, slot: int, peak: nat) {
    && Room(s, slot) <= peak
    && (forall w <- s.workers :: slot in s.workers[w].read ==> s.workers[w].read[slot] <= peak)
  }

  lemma BookReads(s: State, w: nat, slot: int, peak: nat)
    requires ReadsWithin(s, slot, peak) && w in s.workers && s.workers[w].role.Checkout? && s.workers[w].done < |s.workers[w].slots|
    ensures ReadsWithin(DoBook(s, w), slot, peak)
  {
  }

  lemma RecheckReads(s: State, w: nat, slot: int, peak: nat)
    requires ReadsWithin(s, slot, peak) && w in s.workers && s.workers[w].done < |s.workers[w].slots|
    ensures ReadsWithin(DoRecheck(s, w), slot, peak)
  {
  }

  lemma StepReads(s: State, a: Action, slot: int, peak: nat)
    requires ReadsWithin(s, slot, peak)
    ensures ReadsWithin(Exec(s, a), slot, Raised(peak, a, slot))
  {
    match a
    case Book(w) =>
      if w in s.workers && s.workers[w].role.Checkout? && s.workers[w].done < |s.workers[w].slots| {
        BookReads(s, w, slot, peak);
      }
    case Recheck(w) =>
      if w in s.workers && s.workers[w].done < |s.workers[w].slots| {
        RecheckReads(s, w, slot, peak);
      }
    case _ =>
  }

  lemma {:induction false} OccupancyFrom(s: State, actions: seq<Action>, slot: int, peak: nat)
    requires Inv(s) && ReadsWithin(s, slot, peak) && Taken(s, slot) <= peak
    ensures Taken(Run(s, actions), slot) <= Peak(peak, actions, slot)
    decreases |actions|
  {
    if actions != [] {
      ExecKeepsInv(s, actions[0]);
      StepReads(s, actions[0], slot, peak);
      EveryStepIsSafe(s, actions[0], slot);
      OccupancyFrom(Exec(s, actions[0]), actions[1..], slot, Raised(peak, actions[0], slot));
    }
  }

  /** Lowering a capacity evicts nobody; beyond that, no interleaving overbooks a slot. */
  lemma OccupancyBelowPeak(capacity: map<int, int>, actions: seq<Action>, slot: int)
    ensures Taken(Run(Fresh(capacity), actions), slot) <= Peak(Room(Fresh(capacity), slot), actions, slot)
  {
    var s := Fresh(capacity);
    assert Seats(s.rows, slot, s.now) == {};
    OccupancyFrom(s, actions, slot, Room(s, slot));
  }

  /** While the capacity of the slot is left alone, no slot is ever overbooked. */
  lemma NoOverbooking(capacity: map<int, int>, actions: seq<Action>, slot: int)
    requires forall a <- actions :: !(a.SetCapacity? && a.slot == slot)
    ensures Taken(Run(Fresh(capacity), actions), slot) <= if slot in capacity && capacity[slot] > 0 then capacity[slot] else 0
  {
    OccupancyBelowPeak(capacity, actions, slot);
  }
}
