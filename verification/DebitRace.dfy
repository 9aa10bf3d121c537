/**
 Token debits and token refunds against the expiry sweep of one subscription,
 at lock granularity. A debit locks its attendance mark and reads the
 subscription status without locking it, possibly before the mark's lock is
 granted; only then does it wait for the token row. The sweep locks the subscription row, then the token rows one by one,
 reading each as it locks it, and publishes everything when it commits. Every
 worker may stall between statements or die; a dead worker publishes nothing.
 */
module DebitRace {
  import opened Wrappers

  const GRANTED := 4

  datatype Row = Row(slot: int)

  datatype Kind = Debit | GiveBack

  datatype Pc =
    | Begin
    | SawStatus(active: bool)   // statement begun: the status is what was committed then
    | SawActive           // mark locked and eligible, subscription read as active
    | RowLocked           // token row locked, token available or to be returned
    | Done

  datatype Worker = Worker(kind: Kind, mark: nat, pc: Pc)

  /** `seen` holds the tokens the sweep read so far, for the rows it has locked. */
  datatype Sweeper = Idle | Locking(seen: map<Row, int>)

  /**
   Committed state: status, tokens left per row and debited marks; `charged` is
   the number of sessions the committed sweep charged. Locks: which worker has a
   mark, which worker has a token row.
   */
  datatype State = State(
    active: bool,
    remaining: map<Row, int>,
    debited: set<nat>,
    charged: int,
    markLocks: map<nat, nat>,
    rowLocks: map<Row, nat>,
    workers: map<nat, Worker>,
    sweeper: Sweeper)

  /** The token row each attendance mark belongs to never changes. */
  datatype Book = Book(rowOf: map<nat, Row>, rows: set<Row>)

  predicate BookOk(b: Book) {
    forall m <- b.rowOf :: b.rowOf[m] in b.rows
  }

  function Fresh(b: Book): State {
    State(true, map r <- b.rows :: GRANTED, {}, 0, map[], map[], map[], Idle)
  }

  datatype Action =
    | Arrive(w: nat, kind: Kind, mark: nat)
    | ReadStatus(w: nat)
    | ReadMark(w: nat)
    | LockRow(w: nat)
    | Commit(w: nat)
    | Die(w: nat)
    | SweepBegin
    | SweepLock(row: Row)
    | SweepCommit
    | SweepDie

  predicate At(s: State, w: nat, pc: Pc) {
    w in s.workers && s.workers[w].pc == pc
  }

  function Goto(s: State, w: nat, pc: Pc): State
    requires w in s.workers
  {
    s.(workers := s.workers[w := s.workers[w].(pc := pc)])
  }

  function Quit(s: State, w: nat): State
    requires w in s.workers
  {
    Goto(s, w, Done).(
      markLocks := map m <- s.markLocks | s.markLocks[m] != w :: s.markLocks[m],
      rowLocks := map r <- s.rowLocks | s.rowLocks[r] != w :: s.rowLocks[r])
  }

  predicate SweepHas(s: State, row: Row) {
    s.sweeper.Locking? && row in s.sweeper.seen
  }

  /** Lock the mark; judge the mark as committed now and the status as it was read. */
  function DoReadMark(s: State, w: nat, active: bool): State
    requires w in s.workers
  {
    var me := s.workers[w];
    var eligible := active && (me.kind.Debit? <==> me.mark !in s.debited);
    if eligible then Goto(s, w, SawActive).(markLocks := s.markLocks[me.mark := w])
    else Quit(s, w)
  }

  /** Lock the token row, which shows its committed value once the lock is granted. */
  function DoLockRow(s: State, w: nat, row: Row): State
    requires w in s.workers && row in s.remaining
  {
    if s.workers[w].kind.Debit? && s.remaining[row] <= 0 then Quit(s, w)
    else Goto(s, w, RowLocked).(rowLocks := s.rowLocks[row := w])
  }

  function DoCommit(s: State, w: nat, row: Row): State
    requires w in s.workers && row in s.remaining
  {
    var me := s.workers[w];
    match me.kind
    case Debit => Quit(s, w).(remaining := s.remaining[row := s.remaining[row] - 1], debited := s.debited + {me.mark})
    case GiveBack => Quit(s, w).(remaining := s.remaining[row := s.remaining[row] + 1], debited := s.debited - {me.mark})
  }

  ghost function Total(m: map<Row, int>, rows: set<Row>): int
    requires rows <= m.Keys
  {
    if rows == {} then 0
    else
      var k :| k in rows;
      m[k] + Total(m, rows - {k})
  }

  ghost function DoSweepCommit(b: Book, s: State): State
    requires s.sweeper.Locking? && s.sweeper.seen.Keys == b.rows
  {
    s.(active := false, remaining := map r <- s.remaining :: 0,
       charged := GRANTED * |b.rows| - Total(s.sweeper.seen, b.rows), sweeper := Idle)
  }

  ghost function Exec(b: Book, s: State, a: Action): State {
    match a
    case Arrive(w, kind, mark) =>
      if w in s.workers || mark !in b.rowOf then s else s.(workers := s.workers[w := Worker(kind, mark, Begin)])
    case ReadStatus(w) => if At(s, w, Begin) then Goto(s, w, SawStatus(s.active)) else s
    case ReadMark(w) =>
      if w in s.workers && s.workers[w].pc.SawStatus? && s.workers[w].mark !in s.markLocks
      then DoReadMark(s, w, s.workers[w].pc.active) else s
    case LockRow(w) =>
      if At(s, w, SawActive) && s.workers[w].mark in b.rowOf && RowFree(b, s, b.rowOf[s.workers[w].mark])
      then DoLockRow(s, w, b.rowOf[s.workers[w].mark]) else s
    case Commit(w) =>
      if At(s, w, RowLocked) && s.workers[w].mark in b.rowOf && b.rowOf[s.workers[w].mark] in s.remaining
      then DoCommit(s, w, b.rowOf[s.workers[w].mark]) else s
    case Die(w) => if w in s.workers then Quit(s, w) else s
    case SweepBegin => if s.sweeper.Idle? && s.active then s.(sweeper := Locking(map[])) else s
    case SweepLock(row) =>
      if s.sweeper.Locking? && row !in s.sweeper.seen && RowFree(b, s, row)
      then s.(sweeper := Locking(s.sweeper.seen[row := s.remaining[row]])) else s
    case SweepCommit => if s.sweeper.Locking? && s.sweeper.seen.Keys == b.rows then DoSweepCommit(b, s) else s
    case SweepDie => s.(sweeper := Idle)
  }

  predicate RowFree(b: Book, s: State, row: Row) {
    row in b.rows && row in s.remaining && row !in s.rowLocks && !SweepHas(s, row)
  }

  ghost function Run(b: Book, s: State, actions: seq<Action>): State
    decreases |actions|
  {
    if actions == [] then s else Run(b, Exec(b, s, actions[0]), actions[1..])
  }

  // ---- Invariant ----

  function DebitedAt(b: Book, debited: set<nat>, row: Row): set<nat> {
    set m <- debited | m in b.rowOf && b.rowOf[m] == row
  }

  ghost predicate Locks(b: Book, s: State) {
    && (forall w <- s.workers :: s.workers[w].mark in b.rowOf)
    && (forall w <- s.workers :: s.workers[w].pc in {SawActive, RowLocked} ==>
          s.workers[w].mark in s.markLocks && s.markLocks[s.workers[w].mark] == w)
    && (forall w <- s.workers :: s.workers[w].pc == RowLocked ==>
          && b.rowOf[s.workers[w].mark] in s.rowLocks
          && s.rowLocks[b.rowOf[s.workers[w].mark]] == w)
    && (forall r <- s.rowLocks :: !SweepHas(s, r) && HoldsRow(b, s, s.rowLocks[r], r))
    && (forall m <- s.markLocks :: HoldsMark(s, s.markLocks[m], m))
  }

  predicate HoldsMark(s: State, w: nat, m: nat) {
    w in s.workers && s.workers[w].mark == m && s.workers[w].pc in {SawActive, RowLocked}
  }

  predicate HoldsRow(b: Book, s: State, w: nat, r: Row) {
    w in s.workers && s.workers[w].pc == RowLocked && s.workers[w].mark in b.rowOf && b.rowOf[s.workers[w].mark] == r
  }

  /** A worker past the mark still sees what it read there, and a locked row still has the token. */
  ghost predicate Readings(b: Book, s: State) {
    && (forall w <- s.workers :: s.workers[w].pc in {SawActive, RowLocked} ==>
          (s.workers[w].kind.Debit? <==> s.workers[w].mark !in s.debited))
    && (forall w <- s.workers :: s.workers[w].pc == RowLocked && s.workers[w].kind.Debit? ==>
          && s.workers[w].mark in b.rowOf && b.rowOf[s.workers[w].mark] in s.remaining
          && s.remaining[b.rowOf[s.workers[w].mark]] > 0)
    && (s.sweeper.Locking? ==>
          && s.active && s.sweeper.seen.Keys <= b.rows
          && forall r <- s.sweeper.seen :: r in s.remaining && s.remaining[r] == s.sweeper.seen[r])
  }

  ghost predicate Counts(b: Book, s: State) {
    && s.remaining.Keys == b.rows
    && (forall r <- b.rows :: s.remaining[r] >= 0)
    && (forall m <- s.debited :: m in b.rowOf)
    && (s.active ==> forall r <- b.rows :: s.remaining[r] + |DebitedAt(b, s.debited, r)| == GRANTED)
    && (!s.active ==> s.charged == |s.debited| + Total(s.remaining, b.rows))
  }

  ghost predicate Inv(b: Book, s: State) {
    BookOk(b) && Locks(b, s) && Readings(b, s) && Counts(b, s)
  }

  // ---- Sums over rows ----

  lemma TotalStep(m: map<Row, int>, rows: set<Row>, k: Row)
    requires rows <= m.Keys && k in rows
    ensures Total(m, rows) == m[k] + Total(m, rows - {k})
    decreases |rows|
  {
    var c :| c in rows && Total(m, rows) == m[c] + Total(m, rows - {c});
    if c != k {
      TotalStep(m, rows - {c}, k);
      TotalStep(m, rows - {k}, c);
      assert rows - {c} - {k} == rows - {k} - {c};
    }
  }

  lemma {:induction false} TotalSame(m: map<Row, int>, n: map<Row, int>, rows: set<Row>)
    requires rows <= m.Keys && rows <= n.Keys
    requires forall k <- rows :: m[k] == n[k]
    ensures Total(m, rows) == Total(n, rows)
    decreases |rows|
  {
    if rows != {} {
      var k :| k in rows;
      TotalStep(m, rows, k);
      TotalStep(n, rows, k);
      TotalSame(m, n, rows - {k});
    }
  }

  lemma TotalUpdate(m: map<Row, int>, rows: set<Row>, k: Row, v: int)
    requires rows <= m.Keys && k in rows
    ensures Total(m[k := v], rows) == Total(m, rows) - m[k] + v
  {
    TotalStep(m, rows, k);
    TotalStep(m[k := v], rows, k);
    TotalSame(m, m[k := v], rows - {k});
  }

  lemma {:induction false} TotalNonNegative(m: map<Row, int>, rows: set<Row>)
    requires rows <= m.Keys
    requires forall k <- rows :: m[k] >= 0
    ensures Total(m, rows) >= 0
    ensures Total(m, rows) == 0 <==> forall k <- rows :: m[k] == 0
    decreases |rows|
  {
    if rows != {} {
      var k :| k in rows;
      TotalStep(m, rows, k);
      TotalNonNegative(m, rows - {k});
    }
  }

  function DebitedIn(b: Book, debited: set<nat>, rows: set<Row>): set<nat> {
    set m <- debited | m in b.rowOf && b.rowOf[m] in rows
  }

  /** Tokens gone from the rows are the debited marks on them. */
  lemma {:induction false} GoneIsDebited(b: Book, debited: set<nat>, left: map<Row, int>, rows: set<Row>)
    requires rows <= left.Keys
    requires forall r <- rows :: left[r] + |DebitedAt(b, debited, r)| == GRANTED
    ensures GRANTED * |rows| - Total(left, rows) == |DebitedIn(b, debited, rows)|
    decreases |rows|
  {
    if rows == {} {
      assert DebitedIn(b, debited, rows) == {};
    } else {
      var r :| r in rows;
      TotalStep(left, rows, r);
      GoneIsDebited(b, debited, left, rows - {r});
      assert DebitedIn(b, debited, rows) == DebitedAt(b, debited, r) + DebitedIn(b, debited, rows - {r});
      assert DebitedAt(b, debited, r) !! DebitedIn(b, debited, rows - {r});
    }
  }

  // ---- Every step keeps it ----

  lemma QuitKeepsLocks(b: Book, s: State, w: nat)
    requires Locks(b, s) && w in s.workers
    ensures Locks(b, Quit(s, w))
  {
    var after := Quit(s, w);
    forall r | r in after.rowLocks ensures !SweepHas(after, r) && HoldsRow(b, after, after.rowLocks[r], r) {
      assert HoldsRow(b, s, s.rowLocks[r], r);
    }
    forall m | m in after.markLocks ensures HoldsMark(after, after.markLocks[m], m) {
      assert HoldsMark(s, s.markLocks[m], m);
    }
  }

  lemma QuitKeepsReadings(b: Book, s: State, w: nat)
    requires Readings(b, s) && w in s.workers
    ensures Readings(b, Quit(s, w))
  {
  }

  /** Counts only look at the committed rows. */
  lemma SameCounts(b: Book, s: State, after: State)
    requires Counts(b, s) && after.remaining == s.remaining && after.debited == s.debited
    requires after.active == s.active && after.charged == s.charged
    ensures Counts(b, after)
  {
  }

  lemma QuitKeepsInv(b: Book, s: State, w: nat)
    requires Inv(b, s) && w in s.workers
    ensures Inv(b, Quit(s, w))
  {
    QuitKeepsLocks(b, s, w);
    QuitKeepsReadings(b, s, w);
    SameCounts(b, s, Quit(s, w));
  }

  lemma CountMoves(b: Book, debited: set<nat>, m: nat, r: Row)
    requires m in b.rowOf
    ensures m !in debited ==> |DebitedAt(b, debited + {m}, r)| == |DebitedAt(b, debited, r)| + if b.rowOf[m] == r then 1 else 0
    ensures m in debited ==> |DebitedAt(b, debited - {m}, r)| == |DebitedAt(b, debited, r)| - if b.rowOf[m] == r then 1 else 0
  {
    if m !in debited {
      if b.rowOf[m] == r {
        assert DebitedAt(b, debited + {m}, r) == DebitedAt(b, debited, r) + {m};
      } else {
        assert DebitedAt(b, debited + {m}, r) == DebitedAt(b, debited, r);
      }
    } else {
      if b.rowOf[m] == r {
        assert DebitedAt(b, debited - {m}, r) == DebitedAt(b, debited, r) - {m};
      } else {
        assert DebitedAt(b, debited - {m}, r) == DebitedAt(b, debited, r);
      }
    }
  }

  lemma CommitKeepsRow(b: Book, s: State, w: nat, row: Row, r: Row)
    requires Readings(b, s) && Counts(b, s) && At(s, w, RowLocked) && r in b.rows && row in b.rows
    requires s.workers[w].mark in b.rowOf && b.rowOf[s.workers[w].mark] == row
    ensures var after := DoCommit(s, w, row);
            && r in after.remaining && after.remaining[r] >= 0
            && (s.active ==> after.remaining[r] + |DebitedAt(b, after.debited, r)| == GRANTED)
  {
    CountMoves(b, s.debited, s.workers[w].mark, r);
  }

  lemma CommitKeepsCounts(b: Book, s: State, w: nat, row: Row)
    requires Readings(b, s) && Counts(b, s) && At(s, w, RowLocked) && row in b.rows
    requires s.workers[w].mark in b.rowOf && b.rowOf[s.workers[w].mark] == row
    ensures Counts(b, DoCommit(s, w, row))
  {
    var after := DoCommit(s, w, row);
    CommitKeepsRows(b, s, w, row);
    CommitKeepsCharge(b, s, w, row);
    assert forall m <- after.debited :: m in b.rowOf;
  }

  lemma CommitKeepsRows(b: Book, s: State, w: nat, row: Row)
    requires Readings(b, s) && Counts(b, s) && At(s, w, RowLocked) && row in b.rows
    requires s.workers[w].mark in b.rowOf && b.rowOf[s.workers[w].mark] == row
    ensures var after := DoCommit(s, w, row);
            && after.remaining.Keys == b.rows
            && (forall r <- b.rows :: after.remaining[r] >= 0)
            && (s.active ==> forall r <- b.rows :: after.remaining[r] + |DebitedAt(b, after.debited, r)| == GRANTED)
  {
    forall r | r in b.rows ensures CommittedRow(b, s, DoCommit(s, w, row), r) {
      CommitKeepsRow(b, s, w, row, r);
    }
  }

  ghost predicate CommittedRow(b: Book, s: State, after: State, r: Row) {
    && r in after.remaining && after.remaining[r] >= 0
    && (s.active ==> after.remaining[r] + |DebitedAt(b, after.debited, r)| == GRANTED)
  }

  lemma CommitKeepsCharge(b: Book, s: State, w: nat, row: Row)
    requires Readings(b, s) && Counts(b, s) && At(s, w, RowLocked) && row in b.rows
    ensures var after := DoCommit(s, w, row);
            |after.debited| + Total(after.remaining, b.rows) == |s.debited| + Total(s.remaining, b.rows)
  {
    var m := s.workers[w].mark;
    var after := DoCommit(s, w, row);
    TotalUpdate(s.remaining, b.rows, row, after.remaining[row]);
    if s.workers[w].kind.Debit? {
      assert |s.debited + {m}| == |s.debited| + 1;
    } else {
      assert |s.debited - {m}| == |s.debited| - 1;
    }
  }

  /** The committing worker has its mark and its row to itself. */
  lemma CommitIsExclusive(b: Book, s: State, w: nat)
    requires Inv(b, s) && At(s, w, RowLocked)
    ensures !SweepHas(s, b.rowOf[s.workers[w].mark])
    ensures forall v <- s.workers :: v != w && s.workers[v].pc in {SawActive, RowLocked} ==> s.workers[v].mark != s.workers[w].mark
    ensures forall v <- s.workers :: v != w && s.workers[v].pc == RowLocked ==>
              b.rowOf[s.workers[v].mark] != b.rowOf[s.workers[w].mark]
  {
    assert s.rowLocks[b.rowOf[s.workers[w].mark]] == w;
  }

  /** Nobody else has read the mark or the row that this commit changes. */
  ghost predicate Exclusive(b: Book, s: State, w: nat, row: Row)
    requires w in s.workers
  {
    && !SweepHas(s, row)
    && (forall v <- s.workers :: v != w && s.workers[v].pc in {SawActive, RowLocked} ==> s.workers[v].mark != s.workers[w].mark)
    && (forall v <- s.workers :: v != w && s.workers[v].pc == RowLocked && s.workers[v].mark in b.rowOf ==>
          b.rowOf[s.workers[v].mark] != row)
  }

  lemma CommitKeepsReadings(b: Book, s: State, w: nat, row: Row)
    requires Readings(b, s) && w in s.workers && row in s.remaining && Exclusive(b, s, w, row)
    ensures Readings(b, DoCommit(s, w, row))
  {
  }

  lemma CommitKeepsLocks(b: Book, s: State, w: nat, row: Row)
    requires Locks(b, s) && w in s.workers && row in s.remaining
    ensures Locks(b, DoCommit(s, w, row))
  {
    QuitKeepsLocks(b, s, w);
    SameLocks(b, Quit(s, w), DoCommit(s, w, row));
  }

  lemma SameLocks(b: Book, s: State, after: State)
    requires Locks(b, s) && after.workers == s.workers && after.sweeper == s.sweeper
    requires after.markLocks == s.markLocks && after.rowLocks == s.rowLocks
    ensures Locks(b, after)
  {
  }

  lemma CommitKeepsInv(b: Book, s: State, w: nat)
    requires Inv(b, s) && At(s, w, RowLocked)
    ensures Inv(b, DoCommit(s, w, b.rowOf[s.workers[w].mark]))
  {
    var row := b.rowOf[s.workers[w].mark];
    CommitKeepsCounts(b, s, w, row);
    CommitIsExclusive(b, s, w);
    CommitKeepsReadings(b, s, w, row);
    CommitKeepsLocks(b, s, w, row);
  }

  lemma SweepExcludesRows(b: Book, s: State)
    requires Inv(b, s) && s.sweeper.Locking? && s.sweeper.seen.Keys == b.rows
    ensures forall w <- s.workers :: s.workers[w].pc != RowLocked
  {
    forall w | w in s.workers ensures s.workers[w].pc != RowLocked {
      assert forall r <- s.rowLocks :: !SweepHas(s, r);
    }
  }

  lemma SweepCharges(b: Book, s: State)
    requires BookOk(b) && Readings(b, s) && Counts(b, s) && s.sweeper.Locking? && s.sweeper.seen.Keys == b.rows
    ensures GRANTED * |b.rows| - Total(s.sweeper.seen, b.rows) == |s.debited|
  {
    TotalSame(s.sweeper.seen, s.remaining, b.rows);
    GoneIsDebited(b, s.debited, s.remaining, b.rows);
    assert DebitedIn(b, s.debited, b.rows) == s.debited;
  }

  lemma SweepCommitKeepsCounts(b: Book, s: State)
    requires BookOk(b) && Readings(b, s) && Counts(b, s) && s.sweeper.Locking? && s.sweeper.seen.Keys == b.rows
    ensures Counts(b, DoSweepCommit(b, s))
  {
    SweepCharges(b, s);
    ClearedTotal(s.remaining, b.rows);
  }

  lemma ClearedTotal(m: map<Row, int>, rows: set<Row>)
    requires rows <= m.Keys
    ensures Total(map r <- m :: 0, rows) == 0
  {
    TotalNonNegative(map r <- m :: 0, rows);
  }

  lemma SweepCommitKeepsReadings(b: Book, s: State)
    requires Readings(b, s) && s.sweeper.Locking? && s.sweeper.seen.Keys == b.rows
    requires forall w <- s.workers :: s.workers[w].pc != RowLocked
    ensures Readings(b, DoSweepCommit(b, s))
  {
  }

  lemma SweepCommitKeepsInv(b: Book, s: State)
    requires Inv(b, s) && s.sweeper.Locking? && s.sweeper.seen.Keys == b.rows
    ensures Inv(b, DoSweepCommit(b, s))
  {
    SweepCommitKeepsCounts(b, s);
    SweepExcludesRows(b, s);
    SweepCommitKeepsReadings(b, s);
    SweepCommitKeepsLocks(b, s);
  }

  lemma SweepCommitKeepsLocks(b: Book, s: State)
    requires Locks(b, s) && s.sweeper.Locking? && s.sweeper.seen.Keys == b.rows
    ensures Locks(b, DoSweepCommit(b, s))
  {
  }

  lemma MarkLockKeepsLocks(b: Book, s: State, w: nat)
    requires Locks(b, s) && w in s.workers && s.workers[w].mark !in s.markLocks && s.workers[w].pc.SawStatus?
    ensures Locks(b, Goto(s, w, SawActive).(markLocks := s.markLocks[s.workers[w].mark := w]))
  {
  }

  lemma MarkLockKeepsReadings(b: Book, s: State, w: nat)
    requires Readings(b, s) && w in s.workers && (s.workers[w].kind.Debit? <==> s.workers[w].mark !in s.debited)
    ensures Readings(b, Goto(s, w, SawActive).(markLocks := s.markLocks[s.workers[w].mark := w]))
  {
  }

  lemma ReadMarkKeepsInv(b: Book, s: State, w: nat)
    requires Inv(b, s) && w in s.workers && s.workers[w].pc.SawStatus? && s.workers[w].mark !in s.markLocks
    ensures Inv(b, DoReadMark(s, w, s.workers[w].pc.active))
  {
    var me := s.workers[w];
    if me.pc.active && (me.kind.Debit? <==> me.mark !in s.debited) {
      MarkLockKeepsLocks(b, s, w);
      MarkLockKeepsReadings(b, s, w);
      assert Counts(b, Goto(s, w, SawActive).(markLocks := s.markLocks[me.mark := w]));
    } else {
      QuitKeepsInv(b, s, w);
    }
  }

  lemma RowLockKeepsLocks(b: Book, s: State, w: nat, row: Row)
    requires Locks(b, s) && At(s, w, SawActive) && b.rowOf[s.workers[w].mark] == row && RowFree(b, s, row)
    ensures Locks(b, Goto(s, w, RowLocked).(rowLocks := s.rowLocks[row := w]))
  {
  }

  lemma RowLockKeepsReadings(b: Book, s: State, w: nat, row: Row)
    requires Readings(b, s) && At(s, w, SawActive) && s.workers[w].mark in b.rowOf && b.rowOf[s.workers[w].mark] == row
    requires row in s.remaining && (s.workers[w].kind.Debit? ==> s.remaining[row] > 0)
    ensures Readings(b, Goto(s, w, RowLocked).(rowLocks := s.rowLocks[row := w]))
  {
  }

  lemma LockRowKeepsInv(b: Book, s: State, w: nat, row: Row)
    requires Inv(b, s) && At(s, w, SawActive) && b.rowOf[s.workers[w].mark] == row && RowFree(b, s, row)
    ensures Inv(b, DoLockRow(s, w, row))
  {
    if s.workers[w].kind.Debit? && s.remaining[row] <= 0 {
      QuitKeepsInv(b, s, w);
    } else {
      RowLockKeepsLocks(b, s, w, row);
      RowLockKeepsReadings(b, s, w, row);
      assert Counts(b, Goto(s, w, RowLocked).(rowLocks := s.rowLocks[row := w]));
    }
  }

  /** A worker that holds nothing before or after. */
  lemma BystanderKeepsLocks(b: Book, s: State, w: nat, me: Worker)
    requires Locks(b, s) && me.mark in b.rowOf && me.pc !in {SawActive, RowLocked}
    requires w in s.workers ==> s.workers[w].pc !in {SawActive, RowLocked}
    ensures Locks(b, s.(workers := s.workers[w := me]))
  {
    var after := s.(workers := s.workers[w := me]);
    forall r | r in after.rowLocks ensures !SweepHas(after, r) && HoldsRow(b, after, after.rowLocks[r], r) {
      assert HoldsRow(b, s, s.rowLocks[r], r);
    }
    forall m | m in after.markLocks ensures HoldsMark(after, after.markLocks[m], m) {
      assert HoldsMark(s, s.markLocks[m], m);
    }
  }

  lemma BystanderKeepsReadings(b: Book, s: State, w: nat, me: Worker)
    requires Readings(b, s) && me.pc !in {SawActive, RowLocked}
    ensures Readings(b, s.(workers := s.workers[w := me]))
  {
  }

  lemma BystanderKeepsInv(b: Book, s: State, w: nat, me: Worker)
    requires Inv(b, s) && me.mark in b.rowOf && me.pc !in {SawActive, RowLocked}
    requires w in s.workers ==> s.workers[w].pc !in {SawActive, RowLocked}
    ensures Inv(b, s.(workers := s.workers[w := me]))
  {
    BystanderKeepsLocks(b, s, w, me);
    BystanderKeepsReadings(b, s, w, me);
    SameCounts(b, s, s.(workers := s.workers[w := me]));
  }

  lemma SweeperKeepsLocks(b: Book, s: State, sweeper: Sweeper)
    requires Locks(b, s)
    requires forall r <- s.rowLocks :: sweeper.Locking? ==> r !in sweeper.seen
    ensures Locks(b, s.(sweeper := sweeper))
  {
    var after := s.(sweeper := sweeper);
    forall r | r in after.rowLocks ensures !SweepHas(after, r) && HoldsRow(b, after, after.rowLocks[r], r) {
      assert HoldsRow(b, s, s.rowLocks[r], r);
    }
    forall m | m in after.markLocks ensures HoldsMark(after, after.markLocks[m], m) {
      assert HoldsMark(s, s.markLocks[m], m);
    }
  }

  /** A sweep that only takes or drops locks changes nothing a worker relies on. */
  lemma SweeperMoves(b: Book, s: State, sweeper: Sweeper)
    requires Inv(b, s) && Readings(b, s.(sweeper := sweeper))
    requires forall r <- s.rowLocks :: sweeper.Locking? ==> r !in sweeper.seen
    ensures Inv(b, s.(sweeper := sweeper))
  {
    SweeperKeepsLocks(b, s, sweeper);
    SameCounts(b, s, s.(sweeper := sweeper));
  }

  lemma SweepLockKeepsInv(b: Book, s: State, row: Row)
    requires Inv(b, s) && s.sweeper.Locking? && RowFree(b, s, row)
    ensures Inv(b, s.(sweeper := Locking(s.sweeper.seen[row := s.remaining[row]])))
  {
    var sweeper := Locking(s.sweeper.seen[row := s.remaining[row]]);
    SweepSeesRow(b, s, row);
    SweeperMoves(b, s, sweeper);
  }

  lemma SweepSeesRow(b: Book, s: State, row: Row)
    requires Readings(b, s) && s.sweeper.Locking? && RowFree(b, s, row)
    ensures Readings(b, s.(sweeper := Locking(s.sweeper.seen[row := s.remaining[row]])))
  {
  }

  lemma SweepBeginKeepsInv(b: Book, s: State)
    requires Inv(b, s) && s.active
    ensures Inv(b, s.(sweeper := Locking(map[])))
  {
    SweeperMoves(b, s, Locking(map[]));
  }

  lemma SweepDieKeepsInv(b: Book, s: State)
    requires Inv(b, s)
    ensures Inv(b, s.(sweeper := Idle))
  {
    SweeperMoves(b, s, Idle);
  }

  lemma ExecKeepsInv(b: Book, s: State, a: Action)
    requires Inv(b, s)
    ensures Inv(b, Exec(b, s, a))
  {
    match a
    case Commit(w) =>
      if At(s, w, RowLocked) {
        CommitKeepsInv(b, s, w);
      }
    case SweepCommit =>
      if s.sweeper.Locking? && s.sweeper.seen.Keys == b.rows {
        SweepCommitKeepsInv(b, s);
      }
    case Die(w) =>
      if w in s.workers {
        QuitKeepsInv(b, s, w);
      }
    case ReadMark(w) =>
      if w in s.workers && s.workers[w].pc.SawStatus? && s.workers[w].mark !in s.markLocks {
        ReadMarkKeepsInv(b, s, w);
      }
    case LockRow(w) =>
      if At(s, w, SawActive) && s.workers[w].mark in b.rowOf && RowFree(b, s, b.rowOf[s.workers[w].mark]) {
        LockRowKeepsInv(b, s, w, b.rowOf[s.workers[w].mark]);
      }
    case Arrive(w, kind, mark) =>
      if w !in s.workers && mark in b.rowOf {
        BystanderKeepsInv(b, s, w, Worker(kind, mark, Begin));
      }
    case ReadStatus(w) =>
      if At(s, w, Begin) {
        BystanderKeepsInv(b, s, w, s.workers[w].(pc := SawStatus(s.active)));
      }
    case SweepBegin =>
      if s.active {
        SweepBeginKeepsInv(b, s);
      }
    case SweepLock(row) =>
      if s.sweeper.Locking? && RowFree(b, s, row) {
        SweepLockKeepsInv(b, s, row);
      }
    case SweepDie => SweepDieKeepsInv(b, s);
  }

  lemma {:induction false} RunKeepsInv(b: Book, s: State, actions: seq<Action>)
    requires Inv(b, s)
    ensures Inv(b, Run(b, s, actions))
    decreases |actions|
  {
    if actions != [] {
      ExecKeepsInv(b, s, actions[0]);
      RunKeepsInv(b, Exec(b, s, actions[0]), actions[1..]);
    }
  }

  // ---- What it means ----

  lemma FreshOk(b: Book)
    requires BookOk(b)
    ensures Inv(b, Fresh(b))
  {
    forall r ensures DebitedAt(b, {}, r) == {} {
    }
  }

  /** At any moment after the sweep committed: sessions charged are debits that stand plus tokens put back too late. */
  lemma ChargedAccounted(b: Book, actions: seq<Action>)
    requires BookOk(b) && !Run(b, Fresh(b), actions).active
    ensures var s := Run(b, Fresh(b), actions);
            && s.remaining.Keys == b.rows
            && s.charged == |s.debited| + Total(s.remaining, b.rows)
            && (s.charged == |s.debited| <==> forall r <- b.rows :: s.remaining[r] == 0)
  {
    FreshOk(b);
    RunKeepsInv(b, Fresh(b), actions);
    var s := Run(b, Fresh(b), actions);
    TotalNonNegative(s.remaining, b.rows);
  }

  predicate DebitsOnly(actions: seq<Action>) {
    forall a <- actions :: a.Arrive? ==> a.kind.Debit?
  }

  ghost predicate NothingLeft(s: State) {
    && (forall w <- s.workers :: s.workers[w].kind.Debit?)
    && (!s.active ==> (forall r <- s.remaining :: s.remaining[r] == 0))
  }

  lemma StepLeavesNothing(b: Book, s: State, a: Action)
    requires Inv(b, s) && NothingLeft(s) && (a.Arrive? ==> a.kind.Debit?)
    ensures NothingLeft(Exec(b, s, a))
  {
    if a.Commit? && At(s, a.w, RowLocked) {
      CommitLeavesNothing(b, s, a.w);
    } else if !a.Commit? {
      QuietLeavesNothing(b, s, a);
    }
  }

  lemma CommitLeavesNothing(b: Book, s: State, w: nat)
    requires Locks(b, s) && Readings(b, s) && NothingLeft(s) && At(s, w, RowLocked)
    ensures b.rowOf[s.workers[w].mark] in s.remaining && NothingLeft(DoCommit(s, w, b.rowOf[s.workers[w].mark]))
  {
    assert s.workers[w].kind.Debit?;
  }

  lemma QuietLeavesNothing(b: Book, s: State, a: Action)
    requires NothingLeft(s) && !a.Commit? && (a.Arrive? ==> a.kind.Debit?)
    ensures NothingLeft(Exec(b, s, a))
  {
  }

  lemma {:induction false} RunLeavesNothing(b: Book, s: State, actions: seq<Action>)
    requires Inv(b, s) && NothingLeft(s) && DebitsOnly(actions)
    ensures NothingLeft(Run(b, s, actions))
    decreases |actions|
  {
    if actions != [] {
      StepLeavesNothing(b, s, actions[0]);
      ExecKeepsInv(b, s, actions[0]);
      assert DebitsOnly(actions[1..]);
      RunLeavesNothing(b, Exec(b, s, actions[0]), actions[1..]);
    }
  }

  /**
   Although a debit reads the status without locking it, in every interleaving of
   debits with the sweep the sessions charged equal the debits that committed.
   */
  lemma ChargedEqualsDebits(b: Book, actions: seq<Action>)
    requires BookOk(b) && DebitsOnly(actions) && !Run(b, Fresh(b), actions).active
    ensures Run(b, Fresh(b), actions).charged == |Run(b, Fresh(b), actions).debited|
  {
    FreshOk(b);
    RunKeepsInv(b, Fresh(b), actions);
    RunLeavesNothing(b, Fresh(b), actions);
    ChargedAccounted(b, actions);
  }

  // ---- A worker that nobody disturbs ----

  /** The committed rows after a debit or a token refund that ran alone. */
  ghost predicate MovedAlone(b: Book, s: State, after: State, kind: Kind, mark: nat)
    requires mark in b.rowOf && b.rowOf[mark] in s.remaining
  {
    var row := b.rowOf[mark];
    && after.active == s.active && after.charged == s.charged
    && if kind.Debit? && s.active && mark !in s.debited && s.remaining[row] > 0 then
         after.remaining == s.remaining[row := s.remaining[row] - 1] && after.debited == s.debited + {mark}
       else if kind.GiveBack? && s.active && mark in s.debited then
         after.remaining == s.remaining[row := s.remaining[row] + 1] && after.debited == s.debited - {mark}
       else after.remaining == s.remaining && after.debited == s.debited
  }

  lemma AloneReads(b: Book, s: State, w: nat)
    requires At(s, w, Begin) && s.workers[w].mark !in s.markLocks
    ensures var me := s.workers[w];
            var read := Exec(b, Exec(b, s, ReadStatus(w)), ReadMark(w));
            && w in read.workers && read == s.(workers := read.workers, markLocks := read.markLocks, rowLocks := read.rowLocks)
            && read.workers[w] == me.(pc := if s.active && (me.kind.Debit? <==> me.mark !in s.debited) then SawActive else Done)
            && (read.workers[w].pc == SawActive ==> read.rowLocks == s.rowLocks)
  {
  }

  /** A debit takes a token exactly while the subscription is active, the mark is not debited and a token is left; a refund undoes one. */
  lemma AloneMoves(b: Book, s: State, w: nat)
    requires At(s, w, Begin) && s.workers[w].mark in b.rowOf && s.workers[w].mark !in s.markLocks
    requires RowFree(b, s, b.rowOf[s.workers[w].mark])
    ensures var after := Exec(b, Exec(b, Exec(b, Exec(b, s, ReadStatus(w)), ReadMark(w)), LockRow(w)), Commit(w));
            MovedAlone(b, s, after, s.workers[w].kind, s.workers[w].mark)
  {
    AloneReads(b, s, w);
    var read := Exec(b, Exec(b, s, ReadStatus(w)), ReadMark(w));
    AloneLocks(b, read, w);
    CommitMoves(b, Exec(b, read, LockRow(w)), w);
  }

  lemma AloneLocks(b: Book, s: State, w: nat)
    requires w in s.workers && s.workers[w].mark in b.rowOf && s.workers[w].pc in {SawActive, Done}
    requires s.workers[w].pc == SawActive ==> RowFree(b, s, b.rowOf[s.workers[w].mark])
    ensures var me := s.workers[w];
            var locked := Exec(b, s, LockRow(w));
            var ends := me.pc == Done || (me.kind.Debit? && s.remaining[b.rowOf[me.mark]] <= 0);
            && w in locked.workers && locked.workers[w] == me.(pc := if ends then Done else RowLocked)
            && locked.remaining == s.remaining && locked.debited == s.debited && locked.active == s.active && locked.charged == s.charged
  {
  }

  lemma CommitMoves(b: Book, s: State, w: nat)
    requires w in s.workers && s.workers[w].mark in b.rowOf && s.workers[w].pc in {RowLocked, Done}
    requires s.workers[w].pc == RowLocked ==> b.rowOf[s.workers[w].mark] in s.remaining
    ensures var me := s.workers[w];
            var row := b.rowOf[me.mark];
            var after := Exec(b, s, Commit(w));
            && after.active == s.active && after.charged == s.charged
            && if me.pc == Done then after.remaining == s.remaining && after.debited == s.debited
               else if me.kind.Debit? then
                 after.remaining == s.remaining[row := s.remaining[row] - 1] && after.debited == s.debited + {me.mark}
               else after.remaining == s.remaining[row := s.remaining[row] + 1] && after.debited == s.debited - {me.mark}
  {
  }

  // ---- When the charge stays right ----

  predicate Agrees(s: State) {
    s.charged == |s.debited|
  }

  /** A token refund of a debited mark that has read the subscription as active and has not ended yet. */
  predicate RefundAhead(s: State, w: nat) {
    && w in s.workers && s.workers[w].kind.GiveBack? && s.workers[w].mark in s.debited
    && s.workers[w].pc in {SawStatus(true), SawActive, RowLocked}
  }

  predicate NothingReturned(s: State) {
    !s.active && forall r <- s.remaining :: s.remaining[r] == 0
  }

  /** The sweep is over, no token is left, and no refund is under way. */
  ghost predicate Settled(s: State) {
    NothingReturned(s) && forall w <- s.workers :: !RefundAhead(s, w)
  }

  lemma CommitNeedsRefund(b: Book, s: State, w: nat)
    requires Inv(b, s) && NothingReturned(s) && At(s, w, RowLocked)
    ensures RefundAhead(s, w)
  {
  }

  lemma LockNeedsRefund(b: Book, s: State, w: nat)
    requires Inv(b, s) && Settled(s) && At(s, w, SawActive) && RowFree(b, s, b.rowOf[s.workers[w].mark])
    ensures s.workers[w].kind.Debit? && DoLockRow(s, w, b.rowOf[s.workers[w].mark]) == Quit(s, w)
  {
    assert !RefundAhead(s, w);
  }

  lemma QuitStaysSettled(s: State, w: nat)
    requires Settled(s) && w in s.workers
    ensures Settled(Quit(s, w))
  {
    forall v | v in Quit(s, w).workers ensures !RefundAhead(Quit(s, w), v) {
      assert !RefundAhead(s, v);
    }
  }

  /** A worker that moves on without becoming a refund under way. */
  lemma MoveStaysSettled(s: State, w: nat, pc: Pc, after: State)
    requires Settled(s) && w in s.workers && after.workers == s.workers[w := s.workers[w].(pc := pc)]
    requires after.debited == s.debited && after.remaining == s.remaining && after.active == s.active
    requires pc !in {SawStatus(true), RowLocked} && (pc == SawActive ==> s.workers[w].kind.Debit?)
    ensures Settled(after)
  {
    forall v | v in after.workers ensures !RefundAhead(after, v) {
      assert !RefundAhead(s, v);
    }
  }

  lemma SettledStep(b: Book, s: State, a: Action)
    requires Inv(b, s) && Settled(s)
    ensures var after := Exec(b, s, a); Settled(after) && after.debited == s.debited && after.charged == s.charged
  {
    var after := Exec(b, s, a);
    match a
    case Commit(w) =>
      if At(s, w, RowLocked) {
        CommitNeedsRefund(b, s, w);
        assert false;
      }
    case LockRow(w) =>
      if At(s, w, SawActive) && s.workers[w].mark in b.rowOf && RowFree(b, s, b.rowOf[s.workers[w].mark]) {
        LockNeedsRefund(b, s, w);
        QuitStaysSettled(s, w);
      }
    case ReadMark(w) => ReadMarkStaysSettled(b, s, w);
    case ReadStatus(w) =>
      if At(s, w, Begin) {
        MoveStaysSettled(s, w, SawStatus(false), after);
      }
    case Die(w) =>
      if w in s.workers {
        QuitStaysSettled(s, w);
      }
    case Arrive(w, _, _) =>
      forall v | v in after.workers ensures !RefundAhead(after, v) {
        assert v in s.workers ==> !RefundAhead(s, v);
      }
    case SweepBegin =>
    case SweepLock(_) =>
      assert s.sweeper.Idle?;
    case SweepCommit =>
      assert s.sweeper.Idle?;
    case SweepDie =>
      forall v | v in after.workers ensures !RefundAhead(after, v) {
        assert !RefundAhead(s, v);
      }
  }

  lemma ReadMarkStaysSettled(b: Book, s: State, w: nat)
    requires Settled(s)
    ensures var after := Exec(b, s, ReadMark(w)); Settled(after) && after.debited == s.debited && after.charged == s.charged
  {
    if w in s.workers && s.workers[w].pc.SawStatus? && s.workers[w].mark !in s.markLocks {
      assert !RefundAhead(s, w);
      var after := Exec(b, s, ReadMark(w));
      if s.workers[w].pc.active && (s.workers[w].kind.Debit? <==> s.workers[w].mark !in s.debited) {
        MoveStaysSettled(s, w, SawActive, after);
      } else {
        QuitStaysSettled(s, w);
      }
    }
  }

  lemma {:induction false} SettledRun(b: Book, s: State, actions: seq<Action>)
    requires Inv(b, s) && Settled(s)
    ensures var after := Run(b, s, actions); after.debited == s.debited && after.charged == s.charged
    decreases |actions|
  {
    if actions != [] {
      SettledStep(b, s, actions[0]);
      ExecKeepsInv(b, s, actions[0]);
      SettledRun(b, Exec(b, s, actions[0]), actions[1..]);
    }
  }

  /** Marks, charge and tokens are those of the earlier state; worker w still returns the same mark. */
  ghost predicate SameBooks(s: State, t: State, w: nat) {
    && !t.active && t.debited == s.debited && t.charged == s.charged && t.remaining == s.remaining
    && RefundAhead(t, w) && w in s.workers && t.workers[w].mark == s.workers[w].mark
  }

  lemma DeathKeepsBooks(b: Book, s: State, w: nat, v: nat)
    requires Inv(b, s) && !s.active && RefundAhead(s, w) && v != w && v in s.workers
    ensures SameBooks(s, Exec(b, s, Die(v)), w) && Exec(b, s, Die(v)).workers[w] == s.workers[w]
    ensures forall m <- Exec(b, s, Die(v)).markLocks :: m in s.markLocks && s.markLocks[m] != v
    ensures forall r <- Exec(b, s, Die(v)).rowLocks :: r in s.rowLocks && s.rowLocks[r] != v
  {
  }

  lemma RunOne(b: Book, s: State, a: Action)
    ensures Run(b, s, [a]) == Exec(b, s, a)
  {
    assert [a][1..] == [];
    assert Run(b, Exec(b, s, a), []) == Exec(b, s, a);
  }

  lemma TakesFreeMark(b: Book, s: State, w: nat)
    requires Inv(b, s) && !s.active && RefundAhead(s, w) && s.workers[w].pc == SawStatus(true)
    requires s.workers[w].mark !in s.markLocks
    ensures SameBooks(s, Exec(b, s, ReadMark(w)), w) && Exec(b, s, ReadMark(w)).workers[w].pc == SawActive
  {
  }

  /** Whoever else holds the mark can die, and then the refund takes it. */
  lemma TakesMark(b: Book, s: State, w: nat) returns (more: seq<Action>)
    requires Inv(b, s) && !s.active && RefundAhead(s, w)
    ensures SameBooks(s, Run(b, s, more), w) && Run(b, s, more).workers[w].pc in {SawActive, RowLocked}
  {
    if s.workers[w].pc != SawStatus(true) {
      more := [];
    } else if s.workers[w].mark !in s.markLocks {
      more := [ReadMark(w)];
      TakesFreeMark(b, s, w);
      RunOne(b, s, ReadMark(w));
    } else {
      var v := s.markLocks[s.workers[w].mark];
      more := [Die(v)] + [ReadMark(w)];
      assert HoldsMark(s, v, s.workers[w].mark);
      DeathKeepsBooks(b, s, w, v);
      ExecKeepsInv(b, s, Die(v));
      TakesFreeMark(b, Exec(b, s, Die(v)), w);
      RunOne(b, s, Die(v));
      RunOne(b, Exec(b, s, Die(v)), ReadMark(w));
      RunAppends(b, s, [Die(v)], [ReadMark(w)]);
    }
  }

  lemma TakesFreeRow(b: Book, s: State, w: nat)
    requires Inv(b, s) && !s.active && RefundAhead(s, w) && s.workers[w].pc == SawActive
    requires b.rowOf[s.workers[w].mark] !in s.rowLocks
    ensures SameBooks(s, Exec(b, s, LockRow(w)), w) && Exec(b, s, LockRow(w)).workers[w].pc == RowLocked
  {
    assert s.sweeper.Idle? && RowFree(b, s, b.rowOf[s.workers[w].mark]);
  }

  /** Whoever else holds the token row can die, and then the refund takes it. */
  lemma TakesRow(b: Book, s: State, w: nat) returns (more: seq<Action>)
    requires Inv(b, s) && !s.active && RefundAhead(s, w) && s.workers[w].pc in {SawActive, RowLocked}
    ensures SameBooks(s, Run(b, s, more), w) && Run(b, s, more).workers[w].pc == RowLocked
  {
    var row := b.rowOf[s.workers[w].mark];
    if s.workers[w].pc == RowLocked {
      more := [];
    } else if row !in s.rowLocks {
      more := [LockRow(w)];
      TakesFreeRow(b, s, w);
      RunOne(b, s, LockRow(w));
    } else {
      var v := s.rowLocks[row];
      more := [Die(v)] + [LockRow(w)];
      assert HoldsRow(b, s, v, row);
      DeathKeepsBooks(b, s, w, v);
      ExecKeepsInv(b, s, Die(v));
      TakesFreeRow(b, Exec(b, s, Die(v)), w);
      RunOne(b, s, Die(v));
      RunOne(b, Exec(b, s, Die(v)), LockRow(w));
      RunAppends(b, s, [Die(v)], [LockRow(w)]);
    }
  }

  lemma ReturnsMark(b: Book, s: State, w: nat)
    requires Inv(b, s) && RefundAhead(s, w) && s.workers[w].pc == RowLocked
    ensures Exec(b, s, Commit(w)).charged == s.charged && |Exec(b, s, Commit(w)).debited| == |s.debited| - 1
  {
  }

  /** A refund under way can go on to take one debit back, and the charge stays. */
  lemma RefundCanReturn(b: Book, s: State, w: nat) returns (more: seq<Action>)
    requires Inv(b, s) && !s.active && RefundAhead(s, w)
    ensures Run(b, s, more).charged == s.charged && |Run(b, s, more).debited| == |s.debited| - 1
  {
    var first := TakesMark(b, s, w);
    var marked := Run(b, s, first);
    RunKeepsInv(b, s, first);
    var second := TakesRow(b, marked, w);
    var locked := Run(b, marked, second);
    RunKeepsInv(b, marked, second);
    ReturnsMark(b, locked, w);
    RunOne(b, locked, Commit(w));
    RunAppends(b, s, first, second);
    RunAppends(b, s, first + second, [Commit(w)]);
    more := first + second + [Commit(w)];
  }

  lemma RefundBreaks(b: Book, s: State, w: nat) returns (more: seq<Action>)
    requires Inv(b, s) && !s.active && RefundAhead(s, w)
    ensures !Agrees(Run(b, s, more))
  {
    if Agrees(s) {
      more := RefundCanReturn(b, s, w);
    } else {
      more := [];
    }
  }

  /**
   After the sweep the charge equals the debits from now on, whatever happens,
   exactly when it does now and no token refund that read the subscription as
   active is still under way for a debited mark.
   */
  lemma StaysAccountedIff(b: Book, actions: seq<Action>)
    requires BookOk(b) && !Run(b, Fresh(b), actions).active
    ensures var s := Run(b, Fresh(b), actions);
            (forall more :: Agrees(Run(b, s, more))) <==> Agrees(s) && forall w <- s.workers :: !RefundAhead(s, w)
  {
    var s := Run(b, Fresh(b), actions);
    FreshOk(b);
    RunKeepsInv(b, Fresh(b), actions);
    ChargedAccounted(b, actions);
    if Agrees(s) && forall w <- s.workers :: !RefundAhead(s, w) {
      forall more ensures Agrees(Run(b, s, more)) {
        SettledRun(b, s, more);
      }
    } else if !Agrees(s) {
      assert Run(b, s, []) == s;
    } else {
      var v: nat := FirstRefund(s);
      var more := RefundBreaks(b, s, v);
    }
  }

  lemma FirstRefund(s: State) returns (v: nat)
    requires exists w <- s.workers :: RefundAhead(s, w)
    ensures RefundAhead(s, v)
  {
    v :| v in s.workers && RefundAhead(s, v);
  }

  /** The moment the sweep commits the two agree, so only refunds under way can part them. */
  lemma SweepLeavesAgreement(b: Book, actions: seq<Action>)
    requires BookOk(b) && Run(b, Fresh(b), actions).active && !Run(b, Fresh(b), actions + [SweepCommit]).active
    ensures var s := Run(b, Fresh(b), actions + [SweepCommit]);
            Agrees(s) && ((forall more :: Agrees(Run(b, s, more))) <==> forall w <- s.workers :: !RefundAhead(s, w))
  {
    var before := Run(b, Fresh(b), actions);
    RunAppends(b, Fresh(b), actions, [SweepCommit]);
    RunOne(b, before, SweepCommit);
    ChargedAccounted(b, actions + [SweepCommit]);
    StaysAccountedIff(b, actions + [SweepCommit]);
  }

  // ---- The token refund is not protected ----

  const ONE_MARK := Book(map[0 := Row(1)], {Row(1)})

  const LATE_SETUP := [Arrive(0, Debit, 0), ReadStatus(0), ReadMark(0), LockRow(0), Commit(0)]
  const LATE_SWEEP := [Arrive(1, GiveBack, 0), ReadStatus(1), SweepBegin, SweepLock(Row(1)), SweepCommit]
  const LATE_COMMIT := [ReadMark(1), LockRow(1), Commit(1), SweepDie, SweepDie]

  lemma FiveSteps(s0: State, a: seq<Action>)
    requires |a| == 5
    ensures var x := ONE_MARK;
            Run(x, s0, a) == Exec(x, Exec(x, Exec(x, Exec(x, Exec(x, s0, a[0]), a[1]), a[2]), a[3]), a[4])
  {
    var x := ONE_MARK;
    var s1 := Exec(x, s0, a[0]);
    var s2 := Exec(x, s1, a[1]);
    var s3 := Exec(x, s2, a[2]);
    var s4 := Exec(x, s3, a[3]);
    assert a[1..][1..] == a[2..] && a[2..][1..] == a[3..] && a[3..][1..] == a[4..];
    assert Run(x, s0, a) == Run(x, s1, a[1..]);
    assert Run(x, s1, a[1..]) == Run(x, s2, a[2..]);
    assert Run(x, s2, a[2..]) == Run(x, s3, a[3..]);
    assert Run(x, s3, a[3..]) == Run(x, s4, a[4..]);
    assert a[4..][1..] == [];
    assert Run(x, s4, a[4..]) == Run(x, Exec(x, s4, a[4]), []);
  }

  lemma DebitReadsMark()
    ensures var x := ONE_MARK;
            Exec(x, Exec(x, Exec(x, Fresh(x), Arrive(0, Debit, 0)), ReadStatus(0)), ReadMark(0))
            == State(true, map[Row(1) := 4], {}, 0, map[0 := 0], map[], map[0 := Worker(Debit, 0, SawActive)], Idle)
  {
    var x := ONE_MARK;
    assert Exec(x, Exec(x, Fresh(x), Arrive(0, Debit, 0)), ReadStatus(0))
        == State(true, map[Row(1) := 4], {}, 0, map[], map[], map[0 := Worker(Debit, 0, SawStatus(true))], Idle);
  }

  lemma DebitCommits(s: State)
    requires s == State(true, map[Row(1) := 4], {}, 0, map[0 := 0], map[], map[0 := Worker(Debit, 0, SawActive)], Idle)
    ensures Exec(ONE_MARK, Exec(ONE_MARK, s, LockRow(0)), Commit(0))
            == State(true, map[Row(1) := 3], {0}, 0, map[], map[], map[0 := Worker(Debit, 0, Done)], Idle)
  {
    assert Exec(ONE_MARK, s, LockRow(0)) == s.(rowLocks := map[Row(1) := 0], workers := map[0 := Worker(Debit, 0, RowLocked)]);
    var after := Exec(ONE_MARK, Exec(ONE_MARK, s, LockRow(0)), Commit(0));
    assert after.remaining == map[Row(1) := 3];
    assert after.markLocks == map[] && after.rowLocks == map[];
  }

  lemma LateSetup()
    ensures Run(ONE_MARK, Fresh(ONE_MARK), LATE_SETUP)
            == State(true, map[Row(1) := 3], {0}, 0, map[], map[], map[0 := Worker(Debit, 0, Done)], Idle)
  {
    FiveSteps(Fresh(ONE_MARK), LATE_SETUP);
    DebitReadsMark();
    DebitCommits(State(true, map[Row(1) := 4], {}, 0, map[0 := 0], map[], map[0 := Worker(Debit, 0, SawActive)], Idle));
  }

  lemma LateSweep(s: State)
    requires s == State(true, map[Row(1) := 3], {0}, 0, map[], map[], map[0 := Worker(Debit, 0, Done)], Idle)
    ensures var after := Run(ONE_MARK, s, LATE_SWEEP);
            && after == State(false, map[Row(1) := 0], {0}, 1, map[], map[],
                              map[0 := Worker(Debit, 0, Done), 1 := Worker(GiveBack, 0, SawStatus(true))], Idle)
  {
    var x := ONE_MARK;
    FiveSteps(s, LATE_SWEEP);
    var s2 := s.(workers := map[0 := Worker(Debit, 0, Done), 1 := Worker(GiveBack, 0, SawStatus(true))]);
    assert Exec(x, Exec(x, s, LATE_SWEEP[0]), LATE_SWEEP[1]) == s2;
    LateSweepTakes(s2);
  }

  lemma LateSweepTakes(s: State)
    requires s == State(true, map[Row(1) := 3], {0}, 0, map[], map[],
                        map[0 := Worker(Debit, 0, Done), 1 := Worker(GiveBack, 0, SawStatus(true))], Idle)
    ensures Exec(ONE_MARK, Exec(ONE_MARK, Exec(ONE_MARK, s, SweepBegin), SweepLock(Row(1))), SweepCommit)
         == s.(active := false, remaining := map[Row(1) := 0], charged := 1)
  {
    assert Exec(ONE_MARK, Exec(ONE_MARK, s, SweepBegin), SweepLock(Row(1))) == s.(sweeper := Locking(map[Row(1) := 3]));
    LateSweepCommits(s.(sweeper := Locking(map[Row(1) := 3])));
  }

  lemma LateSweepCommits(s: State)
    requires s.sweeper == Locking(map[Row(1) := 3]) && s.remaining == map[Row(1) := 3]
    ensures Exec(ONE_MARK, s, SweepCommit) == s.(active := false, remaining := map[Row(1) := 0], charged := 1, sweeper := Idle)
  {
    TotalStep(map[Row(1) := 3], {Row(1)}, Row(1));
    assert {Row(1)} - {Row(1)} == {};
    assert Exec(ONE_MARK, s, SweepCommit).remaining == map[Row(1) := 0];
  }

  lemma LateCommit(s: State)
    requires s == State(false, map[Row(1) := 0], {0}, 1, map[], map[],
                        map[0 := Worker(Debit, 0, Done), 1 := Worker(GiveBack, 0, SawStatus(true))], Idle)
    ensures var after := Run(ONE_MARK, s, LATE_COMMIT);
            !after.active && after.debited == {} && after.charged == 1
  {
    var x := ONE_MARK;
    FiveSteps(s, LATE_COMMIT);
    var s2 := s.(workers := s.workers[1 := Worker(GiveBack, 0, RowLocked)], markLocks := map[0 := 1], rowLocks := map[Row(1) := 1]);
    LateLocks(s);
    LateReturns(s2);
    assert Exec(x, Exec(x, Exec(x, s2, LATE_COMMIT[2]), LATE_COMMIT[3]), LATE_COMMIT[4]) == Exec(x, s2, Commit(1)).(sweeper := Idle);
  }

  lemma LateLocks(s: State)
    requires s == State(false, map[Row(1) := 0], {0}, 1, map[], map[],
                        map[0 := Worker(Debit, 0, Done), 1 := Worker(GiveBack, 0, SawStatus(true))], Idle)
    ensures Exec(ONE_MARK, Exec(ONE_MARK, s, ReadMark(1)), LockRow(1))
         == s.(workers := s.workers[1 := Worker(GiveBack, 0, RowLocked)], markLocks := map[0 := 1], rowLocks := map[Row(1) := 1])
  {
    assert Exec(ONE_MARK, s, ReadMark(1)) == s.(workers := s.workers[1 := Worker(GiveBack, 0, SawActive)], markLocks := map[0 := 1]);
  }

  lemma LateReturns(s: State)
    requires At(s, 1, RowLocked) && s.workers[1].kind.GiveBack? && s.workers[1].mark == 0
    requires s.debited == {0} && s.remaining == map[Row(1) := 0]
    ensures var after := Exec(ONE_MARK, s, Commit(1));
            after.debited == {} && after.active == s.active && after.charged == s.charged
  {
  }

  lemma {:induction false} RunAppends(b: Book, s: State, first: seq<Action>, second: seq<Action>)
    ensures Run(b, s, first + second) == Run(b, Run(b, s, first), second)
    decreases |first|
  {
    if first == [] {
      assert first + second == second;
    } else {
      assert (first + second)[1..] == first[1..] + second;
      RunAppends(b, Exec(b, s, first[0]), first[1..], second);
    }
  }

  /**
   A token refund that read the status before the sweep and waits for the row
   until after it takes back a session that stays charged.
   */
  lemma LateGiveBackDiverges()
    ensures var s := Run(ONE_MARK, Fresh(ONE_MARK), LATE_SETUP + LATE_SWEEP + LATE_COMMIT);
            !s.active && s.charged == 1 && |s.debited| == 0
  {
    LateSetup();
    LateSweep(Run(ONE_MARK, Fresh(ONE_MARK), LATE_SETUP));
    RunAppends(ONE_MARK, Fresh(ONE_MARK), LATE_SETUP, LATE_SWEEP);
    LateCommit(Run(ONE_MARK, Fresh(ONE_MARK), LATE_SETUP + LATE_SWEEP));
    RunAppends(ONE_MARK, Fresh(ONE_MARK), LATE_SETUP + LATE_SWEEP, LATE_COMMIT);
  }
}
