/**
 One-time login codes: how they are issued, compared, used up and purged.
 Emails are already normalised, and each service call is one step; `OtpRaces`
 takes the calls apart into statements.
 */
module Otp {
  import opened Sums
  import opened Wrappers

  type Moment = int

  /** The clock and the stored timestamps count microseconds. */
  const SECOND := 1_000_000
  const TTL := 5 * 60 * SECOND
  const MAX_ATTEMPTS := 5
  const COOLDOWN_SECONDS := 60
  const COOLDOWN := COOLDOWN_SECONDS * SECOND
  const USED_RETENTION := 30 * 24 * 60 * 60 * SECOND

  datatype Token = Token(email: string, code: string, expiresAt: Moment, attempts: nat, used: bool, createdAt: Moment)

  /** `parents` maps a known email to whether its account is active. */
  datatype Db = Db(next: nat, tokens: map<nat, Token>, parents: map<string, bool>)

  datatype OtpError =
    | CooldownError(retryAfter: int)
    | NotFoundError
    | ExpiredError
    | BruteForceError
    | InvalidError

  // ---- The services ----

  predicate Unused(db: Db, id: nat, email: string) {
    id in db.tokens && db.tokens[id].email == email && !db.tokens[id].used
  }

  /** Among the first n rows, the newest unused code of the email; the row number breaks ties. */
  function NewestUnused(db: Db, email: string, n: nat): (r: Option<nat>)
    ensures r.Some? ==> r.value < n && Unused(db, r.value, email)
    ensures r.None? ==> forall id: nat :: id < n ==> !Unused(db, id, email)
    ensures r.Some? ==> forall id: nat :: id < n && Unused(db, id, email) ==>
              db.tokens[id].createdAt < db.tokens[r.value].createdAt
              || (db.tokens[id].createdAt == db.tokens[r.value].createdAt && id <= r.value)
  {
    if n == 0 then None
    else
      var best := NewestUnused(db, email, n - 1);
      if Unused(db, n - 1, email) && (best.None? || db.tokens[best.value].createdAt <= db.tokens[n - 1].createdAt)
      then Some(n - 1) else best
  }

  /** Among the first n rows, the latest creation moment of any code of the email. */
  function LastCreated(db: Db, email: string, n: nat): (r: Option<Moment>)
    ensures r.None? <==> forall id: nat :: id < n && id in db.tokens ==> db.tokens[id].email != email
    ensures r.Some? ==> forall id: nat :: id < n && id in db.tokens && db.tokens[id].email == email ==> db.tokens[id].createdAt <= r.value
    ensures r.Some? ==> exists id: nat :: id < n && id in db.tokens && db.tokens[id].email == email && db.tokens[id].createdAt == r.value
  {
    if n == 0 then None
    else
      var best := LastCreated(db, email, n - 1);
      if n - 1 in db.tokens && db.tokens[n - 1].email == email && (best.None? || best.value < db.tokens[n - 1].createdAt)
      then Some(db.tokens[n - 1].createdAt) else best
  }

  function BurnUnused(tokens: map<nat, Token>, email: string): map<nat, Token> {
    map id <- tokens :: if tokens[id].email == email then tokens[id].(used := true) else tokens[id]
  }

  /** Whole seconds, cut off towards zero. */
  function WholeSeconds(elapsed: int): int {
    if elapsed >= 0 then elapsed / SECOND else -((-elapsed) / SECOND)
  }

  /** How long to wait, in seconds, when the last code of the email is `elapsed` old. */
  function RetryAfter(elapsed: int): (r: int)
    ensures r >= 1
    ensures 0 <= elapsed < COOLDOWN ==> COOLDOWN <= elapsed + r * SECOND < COOLDOWN + SECOND
  {
    var remaining := COOLDOWN_SECONDS - WholeSeconds(elapsed);
    if remaining > 1 then remaining else 1
  }

  /** `readAt` is the clock reading at the start, `now` the moment of the insert. */
  function RequestOtp(db: Db, email: string, locked: bool, readAt: Moment, now: Moment, code: string): Result<Db, OtpError> {
    if !locked then Failure(CooldownError(COOLDOWN_SECONDS))
    else
      var last := LastCreated(db, email, db.next);
      if last.Some? && last.value > readAt - COOLDOWN then
        Failure(CooldownError(RetryAfter(readAt - last.value)))
      else
        Success(db.(next := db.next + 1,
                    tokens := BurnUnused(db.tokens, email)[db.next := Token(email, code, readAt + TTL, 0, false, now)]))
  }

  /** The email has exactly one unused code, the new one, good for five minutes; codes of other emails are untouched. */
  predicate Issued(db: Db, after: Db, email: string, readAt: Moment, now: Moment, code: string) {
    && db.next in after.tokens && after.tokens[db.next] == Token(email, code, readAt + 5 * 60 * 1_000_000, 0, false, now)
    && (forall id <- after.tokens :: Unused(after, id, email) ==> id == db.next)
    && (forall id <- db.tokens :: id != db.next && db.tokens[id].email != email ==> id in after.tokens && after.tokens[id] == db.tokens[id])
    && after.parents == db.parents
  }

  lemma RequestEffect(db: Db, email: string, locked: bool, readAt: Moment, now: Moment, code: string)
    ensures var r := RequestOtp(db, email, locked, readAt, now, code);
            match r
            case Success(after) => Issued(db, after, email, readAt, now, code)
            case Failure(e) => e.CooldownError? && e.retryAfter >= 1
  {
  }

  /** Whether a verification gets as far as comparing the code. */
  predicate Compares(db: Db, email: string, now: Moment) {
    var found := NewestUnused(db, email, db.next);
    found.Some? && db.tokens[found.value].expiresAt >= now && db.tokens[found.value].attempts < MAX_ATTEMPTS
  }

  function VerifyOtp(db: Db, email: string, code: string, now: Moment): (Db, Option<OtpError>) {
    match NewestUnused(db, email, db.next)
    case None => (db, Some(NotFoundError))
    case Some(id) =>
      var token := db.tokens[id];
      if token.expiresAt < now then (db, Some(ExpiredError))
      else if token.attempts >= MAX_ATTEMPTS then (db, Some(BruteForceError))
      else if token.code != code then
        (db.(tokens := db.tokens[id := token.(attempts := token.attempts + 1)]), Some(InvalidError))
      else
        var parents := if email in db.parents then db.parents else db.parents[email := true];
        (db.(tokens := BurnUnused(db.tokens, email), parents := parents),
         if parents[email] then None else Some(InvalidError))
  }

  predicate Stale(t: Token, now: Moment) {
    if t.used then t.expiresAt < now - USED_RETENTION else t.expiresAt < now
  }

  function Purge(db: Db, now: Moment): Db {
    db.(tokens := map id <- db.tokens | !Stale(db.tokens[id], now) :: db.tokens[id])
  }

  // ---- What the services answer, from the rows alone ----

  /** Row numbers are handed out in order. */
  predicate Numbered(db: Db) {
    forall id <- db.tokens :: id < db.next
  }

  /** The unused code of the email that was created last; the row number breaks ties. */
  predicate Newest(db: Db, email: string, id: nat) {
    && id in db.tokens && db.tokens[id].email == email && !db.tokens[id].used
    && forall other <- db.tokens :: other != id && db.tokens[other].email == email && !db.tokens[other].used ==>
         db.tokens[other].createdAt < db.tokens[id].createdAt
         || (db.tokens[other].createdAt == db.tokens[id].createdAt && other < id)
  }

  /** What a verification makes of the newest unused code of its email. */
  ghost predicate Judged(db: Db, id: nat, email: string, code: string, now: Moment, after: Db, error: Option<OtpError>)
    requires id in db.tokens
  {
    var t := db.tokens[id];
    if t.expiresAt < now then error == Some(ExpiredError) && after == db
    else if t.attempts >= 5 then error == Some(BruteForceError) && after == db
    else if t.code != code then
      error == Some(InvalidError) && after == db.(tokens := db.tokens[id := t.(attempts := t.attempts + 1)])
    else
      && error == (if email in db.parents && !db.parents[email] then Some(InvalidError) else None)
      && after.tokens == (map k <- db.tokens :: if db.tokens[k].email == email then db.tokens[k].(used := true) else db.tokens[k])
      && after.parents == (if email in db.parents then db.parents else db.parents[email := true])
      && after.next == db.next
  }

  ghost predicate VerifyIs(db: Db, email: string, code: string, now: Moment, after: Db, error: Option<OtpError>) {
    if forall id <- db.tokens :: db.tokens[id].email != email || db.tokens[id].used then error == Some(NotFoundError) && after == db
    else exists id :: Newest(db, email, id) && Judged(db, id, email, code, now, after, error)
  }

  lemma VerifyAnswers(db: Db, email: string, code: string, now: Moment)
    requires Numbered(db)
    ensures var r := VerifyOtp(db, email, code, now); VerifyIs(db, email, code, now, r.0, r.1)
  {
    var found := NewestUnused(db, email, db.next);
    if found.Some? {
      var r := VerifyOtp(db, email, code, now);
      assert Newest(db, email, found.value) by {
        forall other | other in db.tokens && other != found.value && db.tokens[other].email == email && !db.tokens[other].used
          ensures db.tokens[other].createdAt < db.tokens[found.value].createdAt
                  || (db.tokens[other].createdAt == db.tokens[found.value].createdAt && other < found.value)
        {
          assert Unused(db, other, email);
        }
      }
      assert Judged(db, found.value, email, code, now, r.0, r.1);
    } else {
      forall id | id in db.tokens ensures db.tokens[id].email != email || db.tokens[id].used {
        assert !Unused(db, id, email);
      }
    }
  }

  /** A login succeeds exactly with the newest unused code of the email, in time, with attempts left, on an account that is not blocked. */
  lemma LoginIff(db: Db, email: string, code: string, now: Moment)
    requires Numbered(db)
    ensures VerifyOtp(db, email, code, now).1 == None <==>
              && (email in db.parents ==> db.parents[email])
              && (exists id :: Newest(db, email, id) && RightCode(db.tokens[id], code, now))
  {
    VerifyAnswers(db, email, code, now);
    forall a, b | Newest(db, email, a) && Newest(db, email, b) ensures a == b {
    }
  }

  predicate RightCode(t: Token, code: string, now: Moment) {
    t.code == code && now <= t.expiresAt && t.attempts < 5
  }

  /** A request is refused while another one runs, or within a minute of the last code; the wait it names ends with that minute. */
  ghost predicate RequestRefused(db: Db, email: string, locked: bool, readAt: Moment, e: OtpError) {
    && e.CooldownError?
    && if !locked then e.retryAfter == 60
       else exists id <- db.tokens :: LastOf(db, email, id) && WaitsFor(readAt - db.tokens[id].createdAt, e.retryAfter)
  }

  predicate LastOf(db: Db, email: string, id: nat)
    requires id in db.tokens
  {
    db.tokens[id].email == email
    && forall other <- db.tokens :: db.tokens[other].email == email ==> db.tokens[other].createdAt <= db.tokens[id].createdAt
  }

  /** So many whole seconds from `elapsed` reach a minute, and one less does not. */
  predicate WaitsFor(elapsed: int, seconds: int) {
    elapsed < 60 * 1_000_000
    && (elapsed >= 0 ==> 60 * 1_000_000 <= elapsed + seconds * 1_000_000 < 61 * 1_000_000)
  }

  predicate MayRequest(db: Db, email: string, readAt: Moment) {
    forall id <- db.tokens :: db.tokens[id].email == email ==> readAt - db.tokens[id].createdAt >= 60 * 1_000_000
  }

  /** A request is accepted exactly when the email is not locked and its codes are all at least a minute old. */
  lemma RequestAnswers(db: Db, email: string, locked: bool, readAt: Moment, now: Moment, code: string)
    requires Numbered(db)
    ensures var r := RequestOtp(db, email, locked, readAt, now, code);
            && (r.Success? <==> locked && MayRequest(db, email, readAt))
            && (r.Failure? ==> RequestRefused(db, email, locked, readAt, r.error))
  {
    var last := LastCreated(db, email, db.next);
    if last.Some? {
      var id: nat :| id < db.next && id in db.tokens && db.tokens[id].email == email && db.tokens[id].createdAt == last.value;
      assert LastOf(db, email, id);
      if last.value > readAt - COOLDOWN {
        assert WaitsFor(readAt - db.tokens[id].createdAt, RetryAfter(readAt - last.value));
      }
    }
  }

  /** A purge drops unused codes after their expiry and used ones thirty days later, and nothing else. */
  lemma PurgeAnswers(db: Db, now: Moment)
    ensures Purge(db, now)
         == db.(tokens := map id <- db.tokens | now <= db.tokens[id].expiresAt + (if db.tokens[id].used then 30 * 24 * 60 * 60 * 1_000_000 else 0)
                          :: db.tokens[id])
  {
  }

  // ---- Runs ----

  /** Row number n was created as entry n of the creation log. */
  datatype Creation = Creation(email: string, at: Moment)

  datatype Comparison = Comparison(email: string, id: nat, at: Moment)

  datatype State = State(now: Moment, db: Db, creations: seq<Creation>, comparisons: seq<Comparison>)

  const INIT := State(0, Db(0, map[], map[]), [], [])

  datatype Action =
    | Tick(elapsed: nat)
    | Request(email: string, locked: bool, readAt: Moment, code: string)
    | Verify(email: string, code: string)
    | PurgeStale
    | Deactivate(email: string)

  function Exec(s: State, a: Action): State {
    match a
    case Tick(elapsed) => s.(now := s.now + elapsed)
    case Request(email, locked, readAt, code) =>
      var r := RequestOtp(s.db, email, locked, readAt, s.now, code);
      if readAt <= s.now && r.Success?
      then s.(db := r.value, creations := s.creations + [Creation(email, s.now)]) else s
    case Verify(email, code) =>
      var after := s.(db := VerifyOtp(s.db, email, code, s.now).0);
      if Compares(s.db, email, s.now)
      then after.(comparisons := s.comparisons + [Comparison(email, NewestUnused(s.db, email, s.db.next).value, s.now)])
      else after
    case PurgeStale => s.(db := Purge(s.db, s.now))
    case Deactivate(email) => s.(db := s.db.(parents := s.db.parents[email := false]))
  }

  function Run(s: State, actions: seq<Action>): State
    decreases |actions|
  {
    if actions == [] then s else Run(Exec(s, actions[0]), actions[1..])
  }

  // ---- Invariant ----

  ghost function Compared(comparisons: seq<Comparison>, id: nat): set<int> {
    set j | 0 <= j < |comparisons| && comparisons[j].id == id
  }

  ghost predicate AttemptsCounted(s: State) {
    && (forall id: nat :: |Compared(s.comparisons, id)| <= MAX_ATTEMPTS)
    && (forall id <- s.db.tokens :: !s.db.tokens[id].used ==> |Compared(s.comparisons, id)| == s.db.tokens[id].attempts)
  }

  ghost predicate ComparisonFits(s: State, x: Comparison) {
    x.id < |s.creations| && s.creations[x.id].email == x.email && s.creations[x.id].at <= x.at <= s.now
  }

  ghost predicate Logged(s: State) {
    && |s.creations| == s.db.next
    && (forall c :: 0 <= c < |s.creations| ==> s.creations[c].at <= s.now)
    && (forall id <- s.db.tokens :: id < s.db.next && s.creations[id] == Creation(s.db.tokens[id].email, s.db.tokens[id].createdAt))
    && (forall j :: 0 <= j < |s.comparisons| ==> ComparisonFits(s, s.comparisons[j]))
  }

  /** A code is used up, and never compared again, once a newer code of its email exists. */
  ghost predicate NewerBurns(s: State) {
    && (forall j, c :: (&& 0 <= j < |s.comparisons|
                        && s.comparisons[j].id < c < |s.creations|
                        && s.creations[c].email == s.comparisons[j].email) ==>
          s.comparisons[j].at <= s.creations[c].at)
    && (forall id, c :: id in s.db.tokens && !s.db.tokens[id].used && id < c < |s.creations| ==>
          s.creations[c].email != s.db.tokens[id].email)
  }

  ghost predicate Inv(s: State) {
    AttemptsCounted(s) && Logged(s) && NewerBurns(s)
  }

  lemma ComparedAppend(comparisons: seq<Comparison>, x: Comparison, id: nat)
    ensures |Compared(comparisons + [x], id)| == |Compared(comparisons, id)| + if x.id == id then 1 else 0
  {
    var before, after := Compared(comparisons, id), Compared(comparisons + [x], id);
    if x.id == id {
      assert after == before + {|comparisons|};
    } else {
      assert after == before;
    }
  }

  lemma NeverCompared(s: State, id: nat)
    requires Logged(s) && id >= s.db.next
    ensures Compared(s.comparisons, id) == {}
  {
    forall j | 0 <= j < |s.comparisons| ensures s.comparisons[j].id != id {
      assert ComparisonFits(s, s.comparisons[j]);
    }
  }

  lemma LaterFits(s: State, after: State)
    requires Logged(s) && s.creations <= after.creations && after.now >= s.now && after.comparisons == s.comparisons
    ensures forall j :: 0 <= j < |after.comparisons| ==> ComparisonFits(after, after.comparisons[j])
  {
    forall j | 0 <= j < |after.comparisons| ensures ComparisonFits(after, after.comparisons[j]) {
      assert ComparisonFits(s, s.comparisons[j]);
    }
  }

  /** The rows and the log after an accepted request. */
  function Requested(s: State, email: string, readAt: Moment, code: string): State {
    s.(db := s.db.(next := s.db.next + 1,
                   tokens := BurnUnused(s.db.tokens, email)[s.db.next := Token(email, code, readAt + TTL, 0, false, s.now)]),
       creations := s.creations + [Creation(email, s.now)])
  }

  lemma RequestKeepsCounts(s: State, email: string, readAt: Moment, code: string)
    requires AttemptsCounted(s) && Logged(s)
    ensures AttemptsCounted(Requested(s, email, readAt, code))
  {
    NeverCompared(s, s.db.next);
  }

  lemma RequestKeepsLog(s: State, email: string, readAt: Moment, code: string)
    requires Logged(s)
    ensures Logged(Requested(s, email, readAt, code))
  {
    LaterFits(s, Requested(s, email, readAt, code));
  }

  lemma RequestBurnsOlder(s: State, email: string, readAt: Moment, code: string)
    requires Logged(s) && NewerBurns(s)
    ensures NewerBurns(Requested(s, email, readAt, code))
  {
    var after := Requested(s, email, readAt, code);
    forall j, c | 0 <= j < |after.comparisons| && after.comparisons[j].id < c < |after.creations|
                  && after.creations[c].email == after.comparisons[j].email
      ensures after.comparisons[j].at <= after.creations[c].at
    {
      assert ComparisonFits(s, s.comparisons[j]);
    }
  }

  lemma RequestKeepsInv(s: State, email: string, readAt: Moment, code: string)
    requires Inv(s) && RequestOtp(s.db, email, true, readAt, s.now, code).Success?
    ensures Inv(s.(db := RequestOtp(s.db, email, true, readAt, s.now, code).value,
                   creations := s.creations + [Creation(email, s.now)]))
  {
    RequestKeepsCounts(s, email, readAt, code);
    RequestKeepsLog(s, email, readAt, code);
    RequestBurnsOlder(s, email, readAt, code);
  }

  /** A state whose rows only lost some, or had unused ones burned. */
  lemma WeakerRowsKeepInv(s: State, after: State)
    requires Inv(s) && after == s.(now := after.now, db := after.db) && after.now >= s.now && after.db.next == s.db.next
    requires forall id <- after.db.tokens :: id in s.db.tokens
               && (after.db.tokens[id] == s.db.tokens[id]
                   || (after.db.tokens[id].used && after.db.tokens[id].email == s.db.tokens[id].email
                       && after.db.tokens[id].createdAt == s.db.tokens[id].createdAt))
    ensures Inv(after)
  {
    LaterFits(s, after);
  }

  /** Counting one comparison of an unused code; the row's other fields do not matter here. */
  lemma CompareKeepsInv(s: State, id: nat, t: Token)
    requires Inv(s) && id in s.db.tokens && !s.db.tokens[id].used && s.db.tokens[id].attempts < MAX_ATTEMPTS
    requires t.email == s.db.tokens[id].email && t.createdAt == s.db.tokens[id].createdAt
    requires t.used || t.attempts == s.db.tokens[id].attempts + 1
    ensures Inv(s.(db := s.db.(tokens := s.db.tokens[id := t]), comparisons := s.comparisons + [Comparison(t.email, id, s.now)]))
  {
    var x := Comparison(t.email, id, s.now);
    var after := s.(db := s.db.(tokens := s.db.tokens[id := t]), comparisons := s.comparisons + [x]);
    forall k: nat ensures |Compared(after.comparisons, k)| == |Compared(s.comparisons, k)| + if k == id then 1 else 0 {
      ComparedAppend(s.comparisons, x, k);
    }
    forall j | 0 <= j < |after.comparisons| ensures ComparisonFits(after, after.comparisons[j]) {
      if j < |s.comparisons| {
        assert ComparisonFits(s, s.comparisons[j]);
      }
    }
    forall j, c | 0 <= j < |after.comparisons| && after.comparisons[j].id < c < |after.creations|
                  && after.creations[c].email == after.comparisons[j].email
      ensures after.comparisons[j].at <= after.creations[c].at
    {
      if j < |s.comparisons| {
        assert after.comparisons[j] == s.comparisons[j];
      }
    }
  }

  /** The rows after a wrong code. */
  function Missed(s: State, id: nat): State
    requires id in s.db.tokens
  {
    var t := s.db.tokens[id];
    s.(db := s.db.(tokens := s.db.tokens[id := t.(attempts := t.attempts + 1)]),
       comparisons := s.comparisons + [Comparison(t.email, id, s.now)])
  }

  /** The rows after a right code. */
  function Matched(s: State, id: nat, parents: map<string, bool>): State
    requires id in s.db.tokens
  {
    var t := s.db.tokens[id];
    s.(db := s.db.(tokens := BurnUnused(s.db.tokens, t.email), parents := parents),
       comparisons := s.comparisons + [Comparison(t.email, id, s.now)])
  }

  lemma MatchKeepsInv(s: State, id: nat, parents: map<string, bool>)
    requires Inv(s) && id in s.db.tokens && !s.db.tokens[id].used && s.db.tokens[id].attempts < MAX_ATTEMPTS
    ensures Inv(Matched(s, id, parents))
  {
    var t := s.db.tokens[id].(used := true);
    CompareKeepsInv(s, id, t);
    WeakerRowsKeepInv(s.(db := s.db.(tokens := s.db.tokens[id := t]), comparisons := s.comparisons + [Comparison(t.email, id, s.now)]),
                      Matched(s, id, parents));
  }

  lemma VerifyShape(s: State, email: string, code: string)
    requires Compares(s.db, email, s.now)
    ensures var id := NewestUnused(s.db, email, s.db.next).value;
            Exec(s, Verify(email, code)) == Missed(s, id)
            || Exec(s, Verify(email, code)) == Matched(s, id, Exec(s, Verify(email, code)).db.parents)
  {
  }

  lemma VerifyKeepsInv(s: State, email: string, code: string)
    requires Inv(s) && Compares(s.db, email, s.now)
    ensures Inv(Exec(s, Verify(email, code)))
  {
    var id := NewestUnused(s.db, email, s.db.next).value;
    var t := s.db.tokens[id];
    VerifyShape(s, email, code);
    CompareKeepsInv(s, id, t.(attempts := t.attempts + 1));
    MatchKeepsInv(s, id, Exec(s, Verify(email, code)).db.parents);
  }

  lemma ExecKeepsInv(s: State, a: Action)
    requires Inv(s)
    ensures Inv(Exec(s, a))
  {
    match a
    case Tick(_) => WeakerRowsKeepInv(s, Exec(s, a));
    case Request(email, locked, readAt, code) =>
      if locked && readAt <= s.now && RequestOtp(s.db, email, true, readAt, s.now, code).Success? {
        RequestKeepsInv(s, email, readAt, code);
      }
    case Verify(email, code) =>
      if Compares(s.db, email, s.now) {
        VerifyKeepsInv(s, email, code);
      }
    case PurgeStale => WeakerRowsKeepInv(s, Exec(s, a));
    case Deactivate(email) => WeakerRowsKeepInv(s, Exec(s, a));
  }

  lemma {:induction false} RunKeepsInv(s: State, actions: seq<Action>)
    requires Inv(s)
    ensures Inv(Run(s, actions))
    decreases |actions|
  {
    if actions != [] {
      ExecKeepsInv(s, actions[0]);
      RunKeepsInv(Exec(s, actions[0]), actions[1..]);
    }
  }

  lemma InitOk()
    ensures Inv(INIT)
  {
    forall id: nat ensures Compared([], id) == {} {
    }
  }

  lemma AtMostOneUnused(actions: seq<Action>, a: nat, b: nat, email: string)
    requires Unused(Run(INIT, actions).db, a, email) && Unused(Run(INIT, actions).db, b, email)
    ensures a == b
  {
    InitOk();
    RunKeepsInv(INIT, actions);
  }

  lemma FiveComparisonsPerCode(actions: seq<Action>, id: nat)
    ensures |Compared(Run(INIT, actions).comparisons, id)| <= MAX_ATTEMPTS
  {
    InitOk();
    RunKeepsInv(INIT, actions);
  }

  // ---- Spacing of creations ----

  /** Every request inserts its code at most `stall` microseconds after it read the clock. */
  predicate Prompt(stall: int, s: State, actions: seq<Action>)
    decreases |actions|
  {
    actions == [] ||
    (&& (actions[0].Request? ==> s.now <= actions[0].readAt + stall)
     && Prompt(stall, Exec(s, actions[0]), actions[1..]))
  }

  /** A code can be purged only strictly after its expiry, hence the extra microsecond. */
  const MAX_STALL := TTL - COOLDOWN + 1

  ghost predicate Spaced(creations: seq<Creation>) {
    forall c, d :: 0 <= c < d < |creations| && creations[c].email == creations[d].email ==>
      creations[c].at + COOLDOWN <= creations[d].at
  }

  /** The newest code of an email is still on record, or its cooldown is over. */
  ghost predicate Remembered(s: State) {
    && (forall id <- s.db.tokens :: s.db.tokens[id].expiresAt >= s.db.tokens[id].createdAt + COOLDOWN - 1)
    && (forall c: nat :: c < |s.creations| && c !in s.db.tokens ==> s.creations[c].at + COOLDOWN <= s.now)
  }

  lemma SpacedRequest(s: State, email: string, readAt: Moment, code: string)
    requires Logged(s) && Spaced(s.creations) && Remembered(s)
    requires readAt <= s.now <= readAt + MAX_STALL && RequestOtp(s.db, email, true, readAt, s.now, code).Success?
    ensures var after := Exec(s, Request(email, true, readAt, code)); Spaced(after.creations) && Remembered(after)
  {
    forall c: nat | c < |s.creations| && s.creations[c].email == email ensures s.creations[c].at + COOLDOWN <= s.now {
      if c in s.db.tokens {
        assert s.db.tokens[c].email == email;
      }
    }
  }

  lemma SpacedStep(s: State, a: Action)
    requires Inv(s) && Spaced(s.creations) && Remembered(s)
    requires a.Request? ==> s.now <= a.readAt + MAX_STALL
    ensures Spaced(Exec(s, a).creations) && Remembered(Exec(s, a))
  {
    if a.Request? && a.readAt <= s.now && RequestOtp(s.db, a.email, a.locked, a.readAt, s.now, a.code).Success? {
      SpacedRequest(s, a.email, a.readAt, a.code);
    }
  }

  lemma {:induction false} SpacedFrom(s: State, actions: seq<Action>)
    requires Inv(s) && Spaced(s.creations) && Remembered(s) && Prompt(MAX_STALL, s, actions)
    ensures Spaced(Run(s, actions).creations)
    decreases |actions|
  {
    if actions != [] {
      SpacedStep(s, actions[0]);
      ExecKeepsInv(s, actions[0]);
      SpacedFrom(Exec(s, actions[0]), actions[1..]);
    }
  }

  /** Unless a request stalls for more than four minutes, codes of one email are created at least a minute apart. */
  lemma CreationsSpaced(actions: seq<Action>)
    requires Prompt(MAX_STALL, INIT, actions)
    ensures Spaced(Run(INIT, actions).creations)
  {
    InitOk();
    SpacedFrom(INIT, actions);
  }

  /** A request that stalls longer: a purge may delete its code, and the memory of the cooldown, at once. */
  const STALLED := [Tick(MAX_STALL + 1), Request("a", true, 0, "1"), Tick(COOLDOWN - 1), PurgeStale, Request("a", true, TTL + 1, "2")]

  const AFTER_FIRST := State(MAX_STALL + 1, Db(1, map[0 := Token("a", "1", TTL, 0, false, MAX_STALL + 1)], map[]),
                             [Creation("a", MAX_STALL + 1)], [])

  const AFTER_PURGE := State(TTL + 1, Db(1, map[], map[]), [Creation("a", MAX_STALL + 1)], [])

  lemma StalledUpToFirst()
    ensures Exec(Exec(INIT, STALLED[0]), STALLED[1]) == AFTER_FIRST
  {
    assert LastCreated(INIT.db, "a", 0).None?;
  }

  lemma StalledUpToPurge()
    ensures Exec(Exec(AFTER_FIRST, STALLED[2]), STALLED[3]) == AFTER_PURGE
  {
    assert Purge(AFTER_FIRST.db, TTL + 1).tokens == map[];
  }

  lemma StalledUpToSecond()
    ensures Exec(AFTER_PURGE, STALLED[4]).creations == [Creation("a", MAX_STALL + 1), Creation("a", TTL + 1)]
  {
    assert LastCreated(AFTER_PURGE.db, "a", 1).None?;
  }

  lemma RunFive(s: State, a: Action, b: Action, c: Action, d: Action, e: Action)
    ensures Run(s, [a, b, c, d, e]) == Exec(Exec(Exec(Exec(Exec(s, a), b), c), d), e)
  {
    var s2 := Exec(Exec(s, a), b);
    var s4 := Exec(Exec(s2, c), d);
    assert [a, b, c, d, e][1..] == [b, c, d, e] && [b, c, d, e][1..] == [c, d, e];
    assert Run(Exec(s, a), [b, c, d, e]) == Run(s2, [c, d, e]);
    assert [c, d, e][1..] == [d, e] && [d, e][1..] == [e];
    assert Run(Exec(s2, c), [d, e]) == Run(s4, [e]);
    assert Run(s4, [e]) == Exec(s4, e);
  }

  lemma PromptFive(stall: int, s: State, a: Action, b: Action, c: Action, d: Action, e: Action)
    requires a.Tick? && b.Request? && c.Tick? && d.PurgeStale? && e.Request?
    requires Exec(s, a).now <= b.readAt + stall
    requires Exec(Exec(Exec(Exec(s, a), b), c), d).now <= e.readAt + stall
    ensures Prompt(stall, s, [a, b, c, d, e])
  {
    assert [a, b, c, d, e][1..] == [b, c, d, e];
    assert [b, c, d, e][1..] == [c, d, e];
    assert [c, d, e][1..] == [d, e];
    assert [d, e][1..] == [e];
    assert Prompt(stall, Exec(Exec(Exec(s, a), b), c), [d, e]);
    assert Prompt(stall, Exec(Exec(s, a), b), [c, d, e]);
    assert Prompt(stall, Exec(s, a), [b, c, d, e]);
  }

  lemma StalledBreaksCooldown(stall: int)
    requires stall > MAX_STALL
    ensures Prompt(stall, INIT, STALLED) && !Spaced(Run(INIT, STALLED).creations)
  {
    StalledUpToFirst();
    StalledUpToPurge();
    StalledUpToSecond();
    RunFive(INIT, STALLED[0], STALLED[1], STALLED[2], STALLED[3], STALLED[4]);
    PromptFive(stall, INIT, STALLED[0], STALLED[1], STALLED[2], STALLED[3], STALLED[4]);
    var creations := Run(INIT, STALLED).creations;
    assert creations[0].email == creations[1].email && creations[0].at + COOLDOWN > creations[1].at;
  }

  /**
   The cooldown survives every run with requests stalling at most `stall`
   microseconds exactly when that is at most four minutes and one microsecond.
   */
  lemma CooldownHoldsIffPrompt(stall: int)
    ensures (forall actions :: Prompt(stall, INIT, actions) ==> Spaced(Run(INIT, actions).creations)) <==> stall <= MAX_STALL
  {
    if stall <= MAX_STALL {
      forall actions | Prompt(stall, INIT, actions) ensures Spaced(Run(INIT, actions).creations) {
        PromptMonotone(stall, INIT, actions);
        CreationsSpaced(actions);
      }
    } else {
      StalledBreaksCooldown(stall);
    }
  }

  lemma {:induction false} PromptMonotone(stall: int, s: State, actions: seq<Action>)
    requires stall <= MAX_STALL && Prompt(stall, s, actions)
    ensures Prompt(MAX_STALL, s, actions)
    decreases |actions|
  {
    if actions != [] {
      PromptMonotone(stall, Exec(s, actions[0]), actions[1..]);
    }
  }

  // ---- How many guesses a window of time allows ----

  /** Comparisons of one email between two moments. */
  ghost function Guesses(s: State, email: string, lo: Moment, hi: Moment): set<int> {
    set j | 0 <= j < |s.comparisons| && s.comparisons[j].email == email && lo <= s.comparisons[j].at <= hi
  }

  /** Codes of one email created between two moments, among the first n. */
  ghost function CreatedIn(creations: seq<Creation>, email: string, lo: Moment, hi: Moment): set<int> {
    set c | 0 <= c < |creations| && creations[c].email == email && lo <= creations[c].at <= hi
  }

  /** A code in the window leaves the earlier ones a window shorter by the cooldown. */
  lemma CreatedBefore(creations: seq<Creation>, email: string, lo: Moment, hi: Moment)
    requires Spaced(creations) && creations != []
    ensures var n := |creations| - 1;
            CreatedIn(creations, email, lo, hi)
            == if creations[n].email == email && lo <= creations[n].at <= hi
               then CreatedIn(creations[..n], email, lo, creations[n].at - COOLDOWN) + {n}
               else CreatedIn(creations[..n], email, lo, hi)
  {
    var n := |creations| - 1;
    forall c | 0 <= c < n && creations[c].email == creations[n].email ensures creations[c].at + COOLDOWN <= creations[n].at {
    }
  }

  lemma SpacedPrefix(creations: seq<Creation>, n: nat)
    requires n <= |creations| && Spaced(creations)
    ensures Spaced(creations[..n])
  {
  }

  /** A window shorter than so many cooldowns holds at most as many creations. */
  lemma {:induction false} FewCreated(creations: seq<Creation>, email: string, lo: Moment, hi: Moment, most: nat)
    requires Spaced(creations) && hi - lo < most * COOLDOWN
    ensures |CreatedIn(creations, email, lo, hi)| <= most
    decreases |creations|
  {
    if creations == [] {
      assert CreatedIn(creations, email, lo, hi) == {};
    } else {
      var n := |creations| - 1;
      var x := creations[n];
      CreatedBefore(creations, email, lo, hi);
      SpacedPrefix(creations, n);
      if x.email == email && lo <= x.at <= hi {
        FewCreated(creations[..n], email, lo, x.at - COOLDOWN, most - 1);
      } else {
        FewCreated(creations[..n], email, lo, hi, most);
      }
    }
  }

  ghost function GuessedIds(s: State, guesses: set<int>): set<int>
    requires forall j <- guesses :: 0 <= j < |s.comparisons|
  {
    set j <- guesses :: s.comparisons[j].id as int
  }

  /** The oldest code guessed in the window; every other one was created inside it. */
  lemma OldestGuessed(s: State, email: string, lo: Moment, hi: Moment, oldest: nat, j: int)
    requires Inv(s) && j in Guesses(s, email, lo, hi) && s.comparisons[j].id == oldest
    requires forall k <- Guesses(s, email, lo, hi) :: oldest <= s.comparisons[k].id
    ensures GuessedIds(s, Guesses(s, email, lo, hi)) <= CreatedIn(s.creations, email, lo, hi) + {oldest}
  {
    forall k | k in Guesses(s, email, lo, hi) && s.comparisons[k].id != oldest
      ensures (s.comparisons[k].id as int) in CreatedIn(s.creations, email, lo, hi)
    {
      assert ComparisonFits(s, s.comparisons[k]);
      assert ComparisonFits(s, s.comparisons[j]);
      assert s.comparisons[j].at <= s.creations[s.comparisons[k].id].at;
    }
  }

  lemma {:induction false} FivePerId(s: State, guesses: set<int>, ids: set<int>)
    requires Inv(s)
    requires forall j <- guesses :: 0 <= j < |s.comparisons| && (s.comparisons[j].id as int) in ids
    ensures |guesses| <= MAX_ATTEMPTS * |ids|
    decreases |guesses|
  {
    if guesses != {} {
      var ix := Pick(guesses);
      var id := s.comparisons[ix].id;
      var here := set j <- guesses | s.comparisons[j].id == id;
      SubsetSize(here, Compared(s.comparisons, id));
      assert here != {} by {
        assert ix in here;
      }
      FivePerId(s, guesses - here, ids - {id as int});
      assert |guesses| == |guesses - here| + |here|;
      assert |ids - {id as int}| == |ids| - 1;
    }
  }

  lemma Pick(xs: set<int>) returns (x: int)
    requires xs != {}
    ensures x in xs
  {
    x := PickAny(xs);
  }

  lemma PickAny<T>(xs: set<T>) returns (x: T)
    requires xs != {}
    ensures x in xs
  {
    x :| x in xs;
  }

  lemma {:induction false} OldestOf(s: State, guesses: set<int>) returns (j: int)
    requires guesses != {} && forall k <- guesses :: 0 <= k < |s.comparisons|
    ensures j in guesses && forall k <- guesses :: s.comparisons[j].id <= s.comparisons[k].id
    decreases |guesses|
  {
    var first := Pick(guesses);
    var rest := guesses - {first};
    j := first;
    if rest != {} {
      var k := OldestOf(s, rest);
      if s.comparisons[k].id < s.comparisons[first].id {
        j := k;
      }
    }
    forall k | k in guesses ensures s.comparisons[j].id <= s.comparisons[k].id {
      if k != first {
        assert k in rest;
      }
    }
  }

  /**
   Unless a request stalls for more than four minutes, any window of time
   compares codes of one email at most five times (its length in whole minutes
   plus two).
   */
  lemma GuessesBounded(actions: seq<Action>, email: string, lo: Moment, hi: Moment)
    requires Prompt(MAX_STALL, INIT, actions) && lo <= hi
    ensures |Guesses(Run(INIT, actions), email, lo, hi)| <= MAX_ATTEMPTS * ((hi - lo) / COOLDOWN + 2)
  {
    var s := Run(INIT, actions);
    InitOk();
    RunKeepsInv(INIT, actions);
    CreationsSpaced(actions);
    var guesses := Guesses(s, email, lo, hi);
    if guesses != {} {
      var j := OldestOf(s, guesses);
      var oldest := s.comparisons[j].id;
      OldestGuessed(s, email, lo, hi, oldest, j);
      var ids := CreatedIn(s.creations, email, lo, hi) + {oldest as int};
      FewCreated(s.creations, email, lo, hi, (hi - lo) / COOLDOWN + 1);
      forall k | k in guesses ensures (s.comparisons[k].id as int) in ids {
        assert (s.comparisons[k].id as int) in GuessedIds(s, guesses);
      }
      FivePerId(s, guesses, ids);
      assert |ids| <= |CreatedIn(s.creations, email, lo, hi)| + 1;
    }
  }
}
