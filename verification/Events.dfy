/**
 Seats of public events: the services as atomic operations on committed rows,
 and the same services statement by statement, interleaved by many workers
 under the lock of the event row.
 */
module Events {
  import opened Wrappers
  import opened Sums

  type Moment = int

  const PENDING_PAYMENT_TTL := 30 * 60

  datatype Status = New | PendingPayment | Confirmed | Canceled

  datatype Event = Event(price: nat, capacity: int, startsAt: Moment, published: bool, seatsTaken: int)

  datatype Registration = Registration(event: nat, attendees: nat, status: Status, createdAt: Moment)

  datatype Db = Db(next: nat, events: map<nat, Event>, registrations: map<nat, Registration>)

  datatype RegistrationError = NotPublished | Closed | NotEnoughSeats(left: int) | NoAttendees

  // ---- The services as atomic operations ----

  predicate Blocking(status: Status) {
    status == New || status == PendingPayment || status == Confirmed
  }

  function SeatsFree(e: Event): int {
    if e.capacity > e.seatsTaken then e.capacity - e.seatsTaken else 0
  }

  function Register(db: Db, event: nat, attendees: nat, now: Moment): Result<Db, RegistrationError> {
    if event !in db.events || !db.events[event].published then Failure(NotPublished)
    else
      var e := db.events[event];
      if e.startsAt <= now then Failure(Closed)
      else if SeatsFree(e) < attendees then Failure(NotEnoughSeats(SeatsFree(e)))
      else if attendees < 1 then Failure(NoAttendees)
      else
        var status := if e.price == 0 then Confirmed else PendingPayment;
        Success(db.(next := db.next + 1,
                    events := db.events[event := e.(seatsTaken := e.seatsTaken + attendees)],
                    registrations := db.registrations[db.next := Registration(event, attendees, status, now)]))
  }

  predicate Releasable(db: Db, id: nat) {
    id in db.registrations && db.registrations[id].event in db.events && Blocking(db.registrations[id].status)
  }

  function Cancel(db: Db, id: nat): Db {
    if Releasable(db, id) then
      var r := db.registrations[id];
      var e := db.events[r.event];
      db.(events := db.events[r.event := e.(seatsTaken := e.seatsTaken - r.attendees)],
          registrations := db.registrations[id := r.(status := Canceled)])
    else db
  }

  function Confirm(db: Db, id: nat): Db {
    if id in db.registrations && (db.registrations[id].status == New || db.registrations[id].status == PendingPayment)
    then db.(registrations := db.registrations[id := db.registrations[id].(status := Confirmed)])
    else db
  }

  predicate Expired(r: Registration, now: Moment) {
    r.status == PendingPayment && r.createdAt < now - PENDING_PAYMENT_TTL
  }

  /** The numbers below n of the registrations whose payment is overdue. */
  function ExpiredIds(db: Db, now: Moment, n: nat): (r: seq<nat>)
    ensures forall id :: id in r <==> id < n && id in db.registrations && Expired(db.registrations[id], now)
    ensures forall a, b :: 0 <= a < b < |r| ==> r[a] < r[b]
  {
    if n == 0 then []
    else
      var rest := ExpiredIds(db, now, n - 1);
      assert forall k :: 0 <= k < |rest| ==> rest[k] in rest;
      if n - 1 in db.registrations && Expired(db.registrations[n - 1], now) then rest + [n - 1] else rest
  }

  function CancelAll(db: Db, ids: seq<nat>): Db {
    if ids == [] then db else Cancel(CancelAll(db, ids[..|ids| - 1]), ids[|ids| - 1])
  }

  /** Releasing several registrations changes exactly those that still block seats. */
  lemma {:induction false} CancelAllRows(db: Db, ids: seq<nat>)
    ensures CancelAll(db, ids).events.Keys == db.events.Keys && CancelAll(db, ids).next == db.next
    ensures CancelAll(db, ids).registrations
         == map id <- db.registrations :: if id in ids && Releasable(db, id)
                                          then db.registrations[id].(status := Canceled) else db.registrations[id]
  {
    if ids != [] {
      var last := |ids| - 1;
      CancelAllRows(db, ids[..last]);
      assert forall id :: id in ids <==> id in ids[..last] || id == ids[last];
    }
  }

  /** Foreign keys: a registration belongs to an event; row numbers are handed out in order. */
  ghost predicate Linked(db: Db) {
    forall id <- db.registrations :: id < db.next && db.registrations[id].event in db.events
  }

  /** Each selected registration still blocks seats when its turn comes. */
  lemma SweepTurn(db: Db, now: Moment, k: nat)
    requires Linked(db) && k < |ExpiredIds(db, now, db.next)|
    ensures var ids := ExpiredIds(db, now, db.next);
            var reached := CancelAll(db, ids[..k]);
            Linked(reached) && Releasable(reached, ids[k]) && CancelAll(db, ids[..k + 1]) == Cancel(reached, ids[k])
  {
    var ids := ExpiredIds(db, now, db.next);
    CancelAllRows(db, ids[..k]);
    assert ids[..k + 1][..k] == ids[..k];
    assert ids[k] in ids && ids[k] !in ids[..k];
  }

  /** With no other worker in between, a sweep releases exactly the overdue registrations. */
  lemma SweepIsExact(db: Db, now: Moment)
    requires Linked(db)
    ensures CancelAll(db, ExpiredIds(db, now, db.next)).registrations
         == map id <- db.registrations :: if db.registrations[id].status == PendingPayment && now - db.registrations[id].createdAt > 30 * 60
                                          then db.registrations[id].(status := Canceled) else db.registrations[id]
  {
    CancelAllRows(db, ExpiredIds(db, now, db.next));
  }

  // ---- What the counter means ----

  /** Seats that registration i takes at the event. */
  function SeatsOf(registrations: map<nat, Registration>, event: nat, i: nat): int {
    if i in registrations && registrations[i].event == event && Blocking(registrations[i].status)
    then registrations[i].attendees else 0
  }

  ghost function SeatTerms(registrations: map<nat, Registration>, event: nat): nat -> int {
    (i: nat) => SeatsOf(registrations, event, i)
  }

  ghost function Occupied(db: Db, event: nat): int {
    SumTo(SeatTerms(db.registrations, event), db.next)
  }

  ghost predicate SeatsExact(db: Db) {
    && (forall id <- db.registrations :: id < db.next && db.registrations[id].event in db.events && db.registrations[id].attendees >= 1)
    && (forall e <- db.events :: db.events[e].seatsTaken == Occupied(db, e))
    && (forall e <- db.events :: 0 <= db.events[e].seatsTaken <= db.events[e].capacity)
  }

  lemma {:induction false} OccupiedNonNegative(db: Db, event: nat, n: nat)
    ensures SumTo(SeatTerms(db.registrations, event), n) >= 0
  {
    if n > 0 {
      OccupiedNonNegative(db, event, n - 1);
    }
  }

  lemma RegisterCounts(db: Db, r: Registration, event: nat)
    requires db.next !in db.registrations && Blocking(r.status)
    ensures Occupied(db.(next := db.next + 1, registrations := db.registrations[db.next := r]), event)
         == Occupied(db, event) + if r.event == event then r.attendees else 0
  {
    SumToSame(SeatTerms(db.registrations, event), SeatTerms(db.registrations[db.next := r], event), db.next);
  }

  lemma StatusCounts(db: Db, id: nat, status: Status, event: nat)
    requires id in db.registrations && id < db.next
    ensures var r := db.registrations[id].(status := status);
            Occupied(db.(registrations := db.registrations[id := r]), event)
            == Occupied(db, event) - SeatsOf(db.registrations, event, id)
               + if r.event == event && Blocking(status) then r.attendees else 0
  {
    var r := db.registrations[id].(status := status);
    SumToChange(SeatTerms(db.registrations, event), SeatTerms(db.registrations[id := r], event), db.next, id);
  }

  lemma RegisterKeepsSeats(db: Db, event: nat, attendees: nat, now: Moment)
    requires SeatsExact(db) && Register(db, event, attendees, now).Success?
    ensures SeatsExact(Register(db, event, attendees, now).value)
  {
    var after := Register(db, event, attendees, now).value;
    forall e <- after.events ensures after.events[e].seatsTaken == Occupied(after, e) {
      RegisterCounts(db, after.registrations[db.next], e);
      assert after == db.(next := db.next + 1, registrations := after.registrations, events := after.events);
    }
  }

  lemma CancelKeepsSeats(db: Db, id: nat)
    requires SeatsExact(db)
    ensures SeatsExact(Cancel(db, id))
  {
    if Releasable(db, id) {
      var after := Cancel(db, id);
      forall e <- after.events ensures after.events[e].seatsTaken == Occupied(after, e) {
        StatusCounts(db, id, Canceled, e);
      }
      OccupiedNonNegative(after, db.registrations[id].event, after.next);
    }
  }

  lemma ConfirmKeepsSeats(db: Db, id: nat)
    requires SeatsExact(db)
    ensures SeatsExact(Confirm(db, id))
  {
    var after := Confirm(db, id);
    if after != db {
      forall e <- after.events ensures after.events[e].seatsTaken == Occupied(after, e) {
        StatusCounts(db, id, Confirmed, e);
      }
    }
  }

  /** The counter answers exactly what counting the live registrations would. */
  lemma AcceptedIffSeatsLeft(db: Db, event: nat, attendees: nat, now: Moment)
    requires SeatsExact(db)
    ensures Register(db, event, attendees, now).Success?
       <==> (&& event in db.events && db.events[event].published && now < db.events[event].startsAt
             && attendees >= 1 && Occupied(db, event) + attendees <= db.events[event].capacity)
  {
  }

  /** One more live registration of that many attendees, counted in full and within the capacity; nothing else changes. */
  predicate Registered(db: Db, after: Db, event: nat, attendees: nat, now: Moment) {
    && event in db.events && event in after.events && attendees >= 1
    && db.next in after.registrations && after.registrations == db.registrations[db.next := after.registrations[db.next]]
    && after.registrations[db.next] == Registration(event, attendees, if db.events[event].price == 0 then Confirmed else PendingPayment, now)
    && after.events == db.events[event := db.events[event].(seatsTaken := db.events[event].seatsTaken + attendees)]
    && after.events[event].seatsTaken <= after.events[event].capacity
  }

  /** Each refusal names a condition that fails; a full event says how many seats are left. */
  predicate RegisterRefused(db: Db, event: nat, attendees: nat, now: Moment, e: RegistrationError) {
    if event !in db.events || !db.events[event].published then e == NotPublished
    else if now >= db.events[event].startsAt then e == Closed
    else
      var left := db.events[event].capacity - db.events[event].seatsTaken;
      if attendees > left && attendees > 0 then e == NotEnoughSeats(if left < 0 then 0 else left)
      else attendees == 0 && e == NoAttendees
  }

  lemma RegisterAnswers(db: Db, event: nat, attendees: nat, now: Moment)
    ensures var r := Register(db, event, attendees, now);
            if r.Success? then Registered(db, r.value, event, attendees, now) else RegisterRefused(db, event, attendees, now, r.error)
  {
  }

  /** A registration that still blocks seats is canceled, and its seats come back; otherwise nothing happens. */
  lemma CancelAnswers(db: Db, id: nat)
    requires Linked(db)
    ensures var after := Cancel(db, id);
            if id in db.registrations && db.registrations[id].status != Canceled then
              var r := db.registrations[id];
              && after.registrations == db.registrations[id := r.(status := Canceled)]
              && after.events == db.events[r.event := db.events[r.event].(seatsTaken := db.events[r.event].seatsTaken - r.attendees)]
              && after.next == db.next
            else after == db
  {
  }

  /** A confirmation touches only a registration that waits for its payment. */
  lemma ConfirmAnswers(db: Db, id: nat)
    ensures Confirm(db, id)
         == if id in db.registrations && db.registrations[id].status != Confirmed && db.registrations[id].status != Canceled
            then db.(registrations := db.registrations[id := db.registrations[id].(status := Confirmed)]) else db
  {
  }

  lemma RegisterEffect(db: Db, event: nat, attendees: nat, now: Moment)
    requires Register(db, event, attendees, now).Success?
    ensures var after := Register(db, event, attendees, now).value;
            Registered(db, after, event, attendees, now) && (SeatsExact(db) ==> SeatsExact(after))
  {
    if SeatsExact(db) {
      RegisterKeepsSeats(db, event, attendees, now);
    }
  }

  // ---- Serial runs ----

  datatype Op = DoRegister(event: nat, attendees: nat, at: Moment) | DoCancel(id: nat) | DoConfirm(id: nat)

  function Apply(db: Db, op: Op): Db {
    match op
    case DoRegister(event, attendees, at) =>
      var r := Register(db, event, attendees, at);
      if r.Success? then r.value else db
    case DoCancel(id) => Cancel(db, id)
    case DoConfirm(id) => Confirm(db, id)
  }

  function Serial(db: Db, ops: seq<Op>): Db {
    if ops == [] then db else Apply(Serial(db, ops[..|ops| - 1]), ops[|ops| - 1])
  }

  lemma {:induction false} SerialKeepsSeats(db: Db, ops: seq<Op>)
    requires SeatsExact(db)
    ensures SeatsExact(Serial(db, ops))
    decreases |ops|
  {
    if ops != [] {
      var last := |ops| - 1;
      SerialKeepsSeats(db, ops[..last]);
      var before := Serial(db, ops[..last]);
      match ops[last]
      case DoRegister(event, attendees, at) =>
        if Register(before, event, attendees, at).Success? {
          RegisterKeepsSeats(before, event, attendees, at);
        }
      case DoCancel(id) => CancelKeepsSeats(before, id);
      case DoConfirm(id) => ConfirmKeepsSeats(before, id);
    }
  }

  // ---- The services statement by statement ----

  /** `row` is the event row a worker read under its lock, `attendees` of a cancellation is read before it. */
  datatype Pc =
    | Idle
    | Registering(event: nat, attendees: nat, row: Event)
    | Canceling(id: nat, event: nat, attendees: nat)
    | Releasing(id: nat, event: nat, attendees: nat, row: Event)
    | Released(id: nat, event: nat, attendees: nat, row: Event)

  /** `queue` holds the registrations an expiry sweep has selected and not yet reached. */
  datatype Worker = Worker(queue: seq<nat>, pc: Pc)

  datatype State = State(now: Moment, db: Db, locks: map<nat, nat>, workers: map<nat, Worker>, released: seq<nat>)

  datatype Action =
    | Tick(seconds: nat)
    | Start(w: nat)
    | LockToRegister(w: nat, event: nat, attendees: nat)
    | Admit(w: nat)
    | SelectExpired(w: nat)
    | ReadNext(w: nat)
    | ReadRegistration(w: nat, id: nat)
    | LockToCancel(w: nat)
    | MarkCanceled(w: nat)
    | CommitRelease(w: nat)
    | ConfirmRow(id: nat)
    | Crash(w: nat)

  predicate HoldsLock(pc: Pc) {
    pc.Registering? || pc.Releasing? || pc.Released?
  }

  /** A worker that updated the registration row and has not committed yet locks it. */
  predicate RowLocked(s: State, id: nat) {
    exists w <- s.workers :: s.workers[w].pc.Released? && s.workers[w].pc.id == id
  }

  function SetPc(s: State, w: nat, pc: Pc): State
    requires w in s.workers
  {
    s.(workers := s.workers[w := s.workers[w].(pc := pc)])
  }

  /** The transaction ends, by commit or by rollback. */
  function Done(s: State, w: nat): State
    requires w in s.workers
  {
    var pc := s.workers[w].pc;
    SetPc(if HoldsLock(pc) then s.(locks := s.locks - {pc.event}) else s, w, Idle)
  }

  predicate Ready(s: State, w: nat) {
    w in s.workers && s.workers[w].pc.Idle?
  }

  function Look(s: State, w: nat, id: nat): State
    requires Ready(s, w)
  {
    if id in s.db.registrations
    then SetPc(s, w, Canceling(id, s.db.registrations[id].event, s.db.registrations[id].attendees)) else s
  }

  predicate Admits(s: State, w: nat) {
    && w in s.workers && s.workers[w].pc.Registering?
    && var pc := s.workers[w].pc;
       pc.row.startsAt > s.now && SeatsFree(pc.row) >= pc.attendees >= 1
  }

  function DoAdmit(s: State, w: nat): State
    requires Admits(s, w)
  {
    var pc := s.workers[w].pc;
    var status := if pc.row.price == 0 then Confirmed else PendingPayment;
    Done(s.(db := s.db.(next := s.db.next + 1,
                        events := s.db.events[pc.event := pc.row.(seatsTaken := pc.row.seatsTaken + pc.attendees)],
                        registrations := s.db.registrations[s.db.next := Registration(pc.event, pc.attendees, status, s.now)])), w)
  }

  predicate Commits(s: State, w: nat) {
    w in s.workers && s.workers[w].pc.Released? && s.workers[w].pc.id in s.db.registrations
  }

  function DoCommitRelease(s: State, w: nat): State
    requires Commits(s, w)
  {
    var pc := s.workers[w].pc;
    var canceled := s.db.registrations[pc.id].(status := Canceled);
    Done(s.(db := s.db.(events := s.db.events[pc.event := pc.row.(seatsTaken := pc.row.seatsTaken - pc.attendees)],
                        registrations := s.db.registrations[pc.id := canceled]),
            released := s.released + [pc.id]), w)
  }

  function Exec(s: State, a: Action): State {
    match a
    case Tick(seconds) => s.(now := s.now + seconds)
    case Start(w) => if w in s.workers then s else s.(workers := s.workers[w := Worker([], Idle)])
    case LockToRegister(w, event, attendees) =>
      if Ready(s, w) && event !in s.locks && event in s.db.events && s.db.events[event].published
      then SetPc(s.(locks := s.locks[event := w]), w, Registering(event, attendees, s.db.events[event])) else s
    case Admit(w) =>
      if w !in s.workers || !s.workers[w].pc.Registering? then s
      else if Admits(s, w) then DoAdmit(s, w)
      else Done(s, w)
    case SelectExpired(w) =>
      if Ready(s, w) && s.workers[w].queue == []
      then s.(workers := s.workers[w := Worker(ExpiredIds(s.db, s.now, s.db.next), Idle)]) else s
    case ReadNext(w) =>
      if Ready(s, w) && s.workers[w].queue != []
      then Look(s.(workers := s.workers[w := Worker(s.workers[w].queue[1..], Idle)]), w, s.workers[w].queue[0]) else s
    case ReadRegistration(w, id) => if Ready(s, w) then Look(s, w, id) else s
    case LockToCancel(w) =>
      if w in s.workers && s.workers[w].pc.Canceling? then
        var pc := s.workers[w].pc;
        if pc.event !in s.locks && pc.event in s.db.events
        then SetPc(s.(locks := s.locks[pc.event := w]), w, Releasing(pc.id, pc.event, pc.attendees, s.db.events[pc.event]))
        else s
      else s
    case MarkCanceled(w) =>
      if w in s.workers && s.workers[w].pc.Releasing? then
        var pc := s.workers[w].pc;
        if pc.id in s.db.registrations && Blocking(s.db.registrations[pc.id].status)
        then SetPc(s, w, Released(pc.id, pc.event, pc.attendees, pc.row))
        else Done(s, w)
      else s
    case CommitRelease(w) => if Commits(s, w) then DoCommitRelease(s, w) else s
    case ConfirmRow(id) => if RowLocked(s, id) then s else s.(db := Confirm(s.db, id))
    case Crash(w) => if w in s.workers then Done(s, w) else s
  }

  function Run(s: State, actions: seq<Action>): State {
    if actions == [] then s else Exec(Run(s, actions[..|actions| - 1]), actions[|actions| - 1])
  }

  /** What one action does to the committed rows. */
  function Committed(s: State, a: Action): Option<Op> {
    match a
    case Admit(w) =>
      if Admits(s, w) then Some(DoRegister(s.workers[w].pc.event, s.workers[w].pc.attendees, s.now)) else None
    case CommitRelease(w) => if Commits(s, w) then Some(DoCancel(s.workers[w].pc.id)) else None
    case ConfirmRow(id) => if RowLocked(s, id) then None else Some(DoConfirm(id))
    case _ => None
  }

  function Ops(s: State, actions: seq<Action>): seq<Op> {
    if actions == [] then []
    else
      var last := |actions| - 1;
      var op := Committed(Run(s, actions[..last]), actions[last]);
      Ops(s, actions[..last]) + if op.Some? then [op.value] else []
  }

  // ---- What the locks keep ----

  /** Who holds the event lock has read the committed row, and it is still the committed row. */
  ghost predicate LockTells(s: State, w: nat)
    requires w in s.workers
  {
    var pc := s.workers[w].pc;
    HoldsLock(pc) ==>
      && pc.event in s.locks && s.locks[pc.event] == w
      && pc.event in s.db.events && s.db.events[pc.event] == pc.row && (pc.Registering? ==> pc.row.published)
  }

  ghost predicate CancelTells(s: State, w: nat)
    requires w in s.workers
  {
    var pc := s.workers[w].pc;
    (pc.Canceling? || pc.Releasing? || pc.Released?) ==>
      && pc.id in s.db.registrations
      && s.db.registrations[pc.id].event == pc.event && s.db.registrations[pc.id].attendees == pc.attendees
      && (pc.Released? ==> Blocking(s.db.registrations[pc.id].status))
  }

  ghost predicate Inv(s: State) {
    && (forall w <- s.workers :: LockTells(s, w) && CancelTells(s, w))
    && (forall id <- s.db.registrations :: id < s.db.next)
  }

  predicate CanceledIn(db: Db, id: nat) {
    id in db.registrations && db.registrations[id].status == Canceled
  }

  /** The rows canceled since the start are the released ones, each released once. */
  ghost predicate ReleasedOnce(start: Db, s: State) {
    && (forall j, k :: 0 <= j < k < |s.released| ==> s.released[j] != s.released[k])
    && (forall id: nat :: CanceledIn(s.db, id) <==> id in s.released || CanceledIn(start, id))
    && (forall id <- s.released :: !CanceledIn(start, id))
  }

  lemma DoneKeepsInv(s: State, w: nat)
    requires Inv(s) && w in s.workers
    ensures Inv(Done(s, w))
  {
    var after := Done(s, w);
    forall v <- after.workers ensures LockTells(after, v) && CancelTells(after, v) {
      assert LockTells(s, v) && CancelTells(s, v) && LockTells(s, w);
    }
  }

  lemma AdmitKeepsInv(s: State, w: nat)
    requires Inv(s) && Admits(s, w)
    ensures Inv(DoAdmit(s, w))
  {
    var after := DoAdmit(s, w);
    forall v <- after.workers ensures LockTells(after, v) && CancelTells(after, v) {
      assert LockTells(s, v) && CancelTells(s, v) && LockTells(s, w);
    }
  }

  lemma CommitKeepsInv(s: State, w: nat)
    requires Inv(s) && Commits(s, w)
    ensures Inv(DoCommitRelease(s, w))
  {
    var after := DoCommitRelease(s, w);
    forall v <- after.workers ensures LockTells(after, v) && CancelTells(after, v) {
      assert LockTells(s, v) && CancelTells(s, v) && LockTells(s, w) && CancelTells(s, w);
    }
  }

  lemma ConfirmKeepsInv(s: State, id: nat)
    requires Inv(s)
    ensures Inv(Exec(s, ConfirmRow(id)))
  {
    var after := Exec(s, ConfirmRow(id));
    forall v <- after.workers ensures LockTells(after, v) && CancelTells(after, v) {
      assert LockTells(s, v) && CancelTells(s, v);
    }
  }

  /** Any change of workers and locks that keeps what each changed worker knows. */
  lemma QuietKeepsInv(s: State, after: State, w: nat)
    requires Inv(s) && after.db == s.db && after.workers.Keys == s.workers.Keys + {w}
    requires forall v <- s.workers :: v != w ==> after.workers[v] == s.workers[v]
    requires forall e <- s.locks :: e in after.locks && after.locks[e] == s.locks[e]
    requires LockTells(after, w) && CancelTells(after, w)
    ensures Inv(after)
  {
    forall v <- after.workers ensures LockTells(after, v) && CancelTells(after, v) {
      if v != w {
        assert LockTells(s, v) && CancelTells(s, v);
      }
    }
  }

  lemma ExecKeepsInv(s: State, a: Action)
    requires Inv(s)
    ensures Inv(Exec(s, a))
  {
    match a
    case Tick(seconds) => TickKeepsInv(s, seconds);
    case Admit(w) =>
      if Admits(s, w) {
        AdmitKeepsInv(s, w);
      } else if w in s.workers && s.workers[w].pc.Registering? {
        DoneKeepsInv(s, w);
      }
    case MarkCanceled(w) =>
      if w in s.workers && s.workers[w].pc.Releasing? {
        MarkKeepsInv(s, w);
      }
    case CommitRelease(w) =>
      if Commits(s, w) {
        CommitKeepsInv(s, w);
      }
    case ConfirmRow(id) => ConfirmKeepsInv(s, id);
    case Crash(w) =>
      if w in s.workers {
        DoneKeepsInv(s, w);
      }
    case Start(_) => QuietStepKeepsInv(s, a);
    case LockToRegister(_, _, _) => QuietStepKeepsInv(s, a);
    case SelectExpired(_) => QuietStepKeepsInv(s, a);
    case ReadNext(_) => LookKeepsInv(s, a);
    case ReadRegistration(_, _) => LookKeepsInv(s, a);
    case LockToCancel(_) => LookKeepsInv(s, a);
  }

  lemma MarkKeepsInv(s: State, w: nat)
    requires Inv(s) && w in s.workers && s.workers[w].pc.Releasing?
    ensures Inv(Exec(s, MarkCanceled(w)))
  {
    assert LockTells(s, w) && CancelTells(s, w);
    if Blocking(s.db.registrations[s.workers[w].pc.id].status) {
      QuietKeepsInv(s, Exec(s, MarkCanceled(w)), w);
    } else {
      DoneKeepsInv(s, w);
    }
  }

  lemma TickKeepsInv(s: State, seconds: nat)
    requires Inv(s)
    ensures Inv(s.(now := s.now + seconds))
  {
    forall v <- s.workers ensures LockTells(s.(now := s.now + seconds), v) && CancelTells(s.(now := s.now + seconds), v) {
      assert LockTells(s, v) && CancelTells(s, v);
    }
  }

  lemma QuietStepKeepsInv(s: State, a: Action)
    requires Inv(s) && (a.Start? || a.LockToRegister? || a.SelectExpired?)
    ensures Inv(Exec(s, a))
  {
    var after := Exec(s, a);
    if after != s {
      QuietKeepsInv(s, after, a.w);
    }
  }

  lemma LookKeepsInv(s: State, a: Action)
    requires Inv(s) && (a.ReadNext? || a.ReadRegistration? || a.LockToCancel?)
    ensures Inv(Exec(s, a))
  {
    var after := Exec(s, a);
    if after != s {
      assert a.w in s.workers && CancelTells(s, a.w);
      QuietKeepsInv(s, after, a.w);
    }
  }

  /** A step of one worker is invisible, or it is one whole service call on the committed rows. */
  lemma StepIsAtomic(s: State, a: Action)
    requires Inv(s)
    ensures Exec(s, a).db == match Committed(s, a) case None => s.db case Some(op) => Apply(s.db, op)
  {
    match a
    case Admit(w) =>
      if Admits(s, w) {
        assert LockTells(s, w);
      }
    case CommitRelease(w) =>
      if Commits(s, w) {
        assert LockTells(s, w) && CancelTells(s, w);
      }
    case _ =>
  }

  lemma StepReleasesOnce(start: Db, s: State, a: Action)
    requires Inv(s) && ReleasedOnce(start, s)
    ensures ReleasedOnce(start, Exec(s, a))
  {
    StepIsAtomic(s, a);
    if a.CommitRelease? && Commits(s, a.w) {
      assert CancelTells(s, a.w) && !CanceledIn(s.db, s.workers[a.w].pc.id);
    }
  }

  ghost function Begin(db: Db, now: Moment): State {
    State(now, db, map[], map[], [])
  }

  lemma {:induction false} RunIsSerial(db: Db, now: Moment, actions: seq<Action>)
    requires SeatsExact(db)
    ensures var s := Run(Begin(db, now), actions);
            Inv(s) && ReleasedOnce(db, s) && s.db == Serial(db, Ops(Begin(db, now), actions))
    decreases |actions|
  {
    if actions != [] {
      var last := |actions| - 1;
      var before := Run(Begin(db, now), actions[..last]);
      RunIsSerial(db, now, actions[..last]);
      ExecKeepsInv(before, actions[last]);
      StepIsAtomic(before, actions[last]);
      StepReleasesOnce(db, before, actions[last]);
      var ops := Ops(Begin(db, now), actions[..last]);
      var op := Committed(before, actions[last]);
      if op.Some? {
        assert (ops + [op.value])[..|ops|] == ops;
      } else {
        assert ops + [] == ops;
      }
    }
  }

  /** After every interleaving the counter is the number of seats held, and no event is overbooked. */
  lemma SeatsTakenIsExact(db: Db, now: Moment, actions: seq<Action>)
    requires SeatsExact(db)
    ensures SeatsExact(Run(Begin(db, now), actions).db)
  {
    RunIsSerial(db, now, actions);
    SerialKeepsSeats(db, Ops(Begin(db, now), actions));
  }

  /** However many workers cancel one registration, its seats come back once, and only then is it canceled. */
  lemma SeatsComeBackOnce(db: Db, now: Moment, actions: seq<Action>)
    requires SeatsExact(db)
    ensures ReleasedOnce(db, Run(Begin(db, now), actions))
  {
    RunIsSerial(db, now, actions);
  }

  // ---- A worker that nobody disturbs ----

  /** A registration alone does what the one-step registration does. */
  lemma AloneRegisters(s: State, w: nat, event: nat, attendees: nat)
    requires Inv(s) && Ready(s, w) && event !in s.locks
    ensures Exec(Exec(s, LockToRegister(w, event, attendees)), Admit(w)).db == Apply(s.db, DoRegister(event, attendees, s.now))
  {
  }

  lemma AloneLocks(s: State, w: nat, id: nat)
    requires Linked(s.db) && Ready(s, w) && id in s.db.registrations && s.db.registrations[id].event !in s.locks
    ensures var r := s.db.registrations[id];
            var locked := Exec(Exec(s, ReadRegistration(w, id)), LockToCancel(w));
            w in locked.workers && locked.workers[w].pc == Releasing(id, r.event, r.attendees, s.db.events[r.event]) && locked.db == s.db
  {
  }

  lemma AloneReleases(s: State, w: nat, id: nat)
    requires Linked(s.db) && w in s.workers && id in s.db.registrations
    requires var r := s.db.registrations[id]; s.workers[w].pc == Releasing(id, r.event, r.attendees, s.db.events[r.event])
    ensures Exec(Exec(s, MarkCanceled(w)), CommitRelease(w)).db == Cancel(s.db, id)
  {
  }

  /** So does a cancellation. */
  lemma AloneCancels(s: State, w: nat, id: nat)
    requires Linked(s.db) && Ready(s, w) && (id in s.db.registrations ==> s.db.registrations[id].event !in s.locks)
    ensures Exec(Exec(Exec(Exec(s, ReadRegistration(w, id)), LockToCancel(w)), MarkCanceled(w)), CommitRelease(w)).db == Cancel(s.db, id)
  {
    if id in s.db.registrations {
      AloneLocks(s, w, id);
      AloneReleases(Exec(Exec(s, ReadRegistration(w, id)), LockToCancel(w)), w, id);
    }
  }

  // ---- What an expiry sweep does not promise ----

  const OVERDUE := Registration(0, 2, PendingPayment, 0)

  const PARTY := Event(100, 5, 10000, true, 2)

  const BOOKED := Db(1, map[0 := PARTY], map[0 := OVERDUE])

  const PAID_LATE := Db(1, map[0 := PARTY], map[0 := OVERDUE.(status := Confirmed)])

  const EMPTIED := Db(1, map[0 := PARTY.(seatsTaken := 0)], map[0 := OVERDUE.(status := Canceled)])

  lemma SweepSelects(s: State)
    requires s == State(PENDING_PAYMENT_TTL + 1, BOOKED, map[], map[], [])
    ensures Exec(Exec(Exec(s, Start(7)), SelectExpired(7)), ConfirmRow(0))
         == s.(db := PAID_LATE, workers := map[7 := Worker([0], Idle)])
  {
    assert ExpiredIds(BOOKED, s.now, 0) == [];
    assert ExpiredIds(BOOKED, s.now, 1) == [0];
    var chosen := Exec(Exec(s, Start(7)), SelectExpired(7));
    assert chosen.workers == map[7 := Worker([0], Idle)] && !RowLocked(chosen, 0);
  }

  lemma SweepReaches(s: State)
    requires s == State(PENDING_PAYMENT_TTL + 1, PAID_LATE, map[], map[7 := Worker([0], Idle)], [])
    ensures Exec(Exec(s, ReadNext(7)), LockToCancel(7))
         == s.(locks := map[0 := 7], workers := map[7 := Worker([], Releasing(0, 0, 2, PARTY))])
  {
    assert [0][1..] == [];
  }

  lemma SweepReleases(s: State)
    requires s == State(PENDING_PAYMENT_TTL + 1, PAID_LATE, map[0 := 7], map[7 := Worker([], Releasing(0, 0, 2, PARTY))], [])
    ensures Exec(Exec(s, MarkCanceled(7)), CommitRelease(7)).db == EMPTIED
  {
  }

  lemma RunSnoc(s: State, actions: seq<Action>, a: Action)
    ensures Run(s, actions + [a]) == Exec(Run(s, actions), a)
  {
    assert (actions + [a])[..|actions|] == actions;
  }

  lemma RunTwo(s: State, actions: seq<Action>, a: Action, b: Action)
    ensures Run(s, actions + [a] + [b]) == Exec(Exec(Run(s, actions), a), b)
  {
    RunSnoc(s, actions, a);
    RunSnoc(s, actions + [a], b);
  }

  /**
   The sweep cancels whatever still holds seats when its turn comes: a payment
   confirmed after the selection loses its registration. The count stays exact.
   */
  lemma SweepMayCancelConfirmed() returns (actions: seq<Action>)
    ensures SeatsExact(BOOKED) && BOOKED.registrations[0].status == PendingPayment
    ensures ConfirmRow(0) in actions
    ensures Run(Begin(BOOKED, PENDING_PAYMENT_TTL + 1), actions).db == EMPTIED
    ensures SeatsExact(EMPTIED)
  {
    var s := Begin(BOOKED, PENDING_PAYMENT_TTL + 1);
    assert Run(s, []) == s;
    RunTwo(s, [], Start(7), SelectExpired(7));
    var first := [] + [Start(7)] + [SelectExpired(7)];
    RunSnoc(s, first, ConfirmRow(0));
    SweepSelects(s);
    RunTwo(s, first + [ConfirmRow(0)], ReadNext(7), LockToCancel(7));
    var second := first + [ConfirmRow(0)] + [ReadNext(7)] + [LockToCancel(7)];
    SweepReaches(Run(s, first + [ConfirmRow(0)]));
    RunTwo(s, second, MarkCanceled(7), CommitRelease(7));
    SweepReleases(Run(s, second));
    actions := second + [MarkCanceled(7)] + [CommitRelease(7)];
    BookedIsExact();
    EmptiedIsExact();
  }

  lemma BookedIsExact()
    ensures SeatsExact(BOOKED)
  {
    assert SumTo(SeatTerms(BOOKED.registrations, 0), 0) == 0 && SumTo(SeatTerms(BOOKED.registrations, 0), 1) == 2;
  }

  lemma EmptiedIsExact()
    ensures SeatsExact(EMPTIED)
  {
    assert SumTo(SeatTerms(EMPTIED.registrations, 0), 0) == 0 && SumTo(SeatTerms(EMPTIED.registrations, 0), 1) == 0;
  }
}
