/**
 Codes of one email under interleaved requests, verifications and purges, statement
 by statement. A request keeps the advisory lock of the email to its end; a
 verification keeps the lock of its code row; neither waits for the other except
 at a row. A statement sees the rows committed when it starts, and looks again at
 a row it had to wait for. Writes are published at the commit. Workers may
 stall or fail between any two statements.
 */
module OtpRaces {
  import opened Wrappers
  import Otp

  /**
   `targets` are the rows a burning statement has yet to reach, `burned` those it
   has locked and marked used, `candidates` the unused codes a verification saw,
   newest first.
   */
  datatype Pc =
    | Idle
    | Locked(readAt: Otp.Moment)
    | Cleared(readAt: Otp.Moment)
    | Burning(readAt: Otp.Moment, targets: set<nat>, burned: set<nat>)
    | Inserted(token: Otp.Token, burned: set<nat>)
    | Picking(candidates: seq<nat>)
    | Holding(id: nat)
    | Missed(id: nat)
    | Matched(id: nat, code: string, at: Otp.Moment)
    | Sweeping(id: nat, code: string, at: Otp.Moment, targets: set<nat>, burned: set<nat>)

  /** A committed login: the code row it used up, as committed before, the code entered, and when it was compared. */
  datatype Login = Login(id: nat, row: Otp.Token, code: string, at: Otp.Moment)

  /** Row number n is entry n of the creation log; `answers` are the codes of the comparisons a client was told about. */
  datatype State = State(
    now: Otp.Moment,
    tokens: map<nat, Otp.Token>,
    advisory: Option<nat>,
    locks: map<nat, nat>,
    workers: map<nat, Pc>,
    creations: seq<Otp.Moment>,
    answers: seq<nat>,
    logins: seq<Login>)

  const START := State(0, map[], None, map[], map[], [], [], [])

  datatype Action =
    | Tick(elapsed: nat)
    | Arrive(w: nat)
    | LockEmail(w: nat, readAt: Otp.Moment)
    | ReadLast(w: nat)
    | BeginBurn(w: nat)
    | BurnRow(w: nat, id: nat)
    | Insert(w: nat, email: string, code: string)
    | CommitRequest(w: nat)
    | BeginVerify(w: nat, candidates: seq<nat>)
    | LockRow(w: nat)
    | Compare(w: nat, code: string)
    | CommitVerify(w: nat)
    | Quit(w: nat)
    | PurgeRow(id: nat, at: Otp.Moment)

  predicate Live(tokens: map<nat, Otp.Token>, id: nat) {
    id in tokens && !tokens[id].used
  }

  function LiveRows(tokens: map<nat, Otp.Token>): set<nat> {
    set id <- tokens | !tokens[id].used
  }

  /** The unused codes, newest first, ties broken by the row number. */
  predicate NewestFirst(tokens: map<nat, Otp.Token>, ids: seq<nat>) {
    && (forall id <- ids :: Live(tokens, id))
    && (forall id <- tokens :: Live(tokens, id) ==> id in ids)
    && (forall a, b :: 0 <= a < b < |ids| ==> ids[a] in tokens && ids[b] in tokens && Newer(tokens, ids[a], ids[b]))
  }

  predicate Newer(tokens: map<nat, Otp.Token>, a: nat, b: nat)
    requires a in tokens && b in tokens
  {
    tokens[b].createdAt < tokens[a].createdAt || (tokens[b].createdAt == tokens[a].createdAt && b < a)
  }

  predicate Recent(tokens: map<nat, Otp.Token>, readAt: Otp.Moment) {
    exists id <- tokens :: tokens[id].createdAt > readAt - Otp.COOLDOWN
  }

  function Burn(tokens: map<nat, Otp.Token>, ids: set<nat>): map<nat, Otp.Token> {
    map id <- tokens :: if id in ids then tokens[id].(used := true) else tokens[id]
  }

  function SetPc(s: State, w: nat, pc: Pc): State {
    s.(workers := s.workers[w := pc])
  }

  /** The transaction ends, by commit or by rollback. */
  function Release(s: State, w: nat): State {
    s.(advisory := if s.advisory == Some(w) then None else s.advisory,
       locks := map id <- s.locks | s.locks[id] != w :: s.locks[id],
       workers := s.workers[w := Idle])
  }

  /** A row is free for w when nobody else holds its lock. */
  predicate Open(s: State, w: nat, id: nat) {
    id in s.locks ==> s.locks[id] == w
  }

  // ---- Steps ----

  /** The burning statement has reached row `id`. */
  function Reached(pc: Pc, id: nat, burns: bool): Pc {
    var more := if burns then {id} else {};
    match pc
    case Burning(readAt, targets, burned) => Burning(readAt, targets - {id}, burned + more)
    case Sweeping(row, code, at, targets, burned) => Sweeping(row, code, at, targets - {id}, burned + more)
    case _ => pc
  }

  function DoBurnRow(s: State, w: nat, id: nat): State
    requires w in s.workers
  {
    var pc := s.workers[w];
    if (pc.Burning? || pc.Sweeping?) && id in pc.targets && Open(s, w, id) then
      if Live(s.tokens, id)
      then SetPc(s, w, Reached(pc, id, true)).(locks := s.locks[id := w])
      else SetPc(s, w, Reached(pc, id, false))
    else s
  }

  function DoLockRow(s: State, w: nat): State
    requires w in s.workers
  {
    var pc := s.workers[w];
    if !pc.Picking? then s
    else if pc.candidates == [] then Release(s, w)
    else
      var id := pc.candidates[0];
      if !Open(s, w, id) then s
      else if Live(s.tokens, id) then SetPc(s, w, Holding(id)).(locks := s.locks[id := w])
      else SetPc(s, w, Picking(pc.candidates[1..]))
  }

  function DoCompare(s: State, w: nat, code: string): State
    requires w in s.workers
  {
    var pc := s.workers[w];
    if !pc.Holding? || pc.id !in s.tokens then s
    else
      var token := s.tokens[pc.id];
      if token.expiresAt < s.now || token.attempts >= Otp.MAX_ATTEMPTS then Release(s, w)
      else if token.code != code then SetPc(s, w, Missed(pc.id))
      else SetPc(s, w, Matched(pc.id, code, s.now))
  }

  function DoCommitRequest(s: State, w: nat): State
    requires w in s.workers
  {
    var pc := s.workers[w];
    if !pc.Inserted? then s
    else Release(s, w).(tokens := Burn(s.tokens, pc.burned)[|s.creations| := pc.token],
                        creations := s.creations + [pc.token.createdAt])
  }

  function DoCommitVerify(s: State, w: nat): State
    requires w in s.workers
  {
    var pc := s.workers[w];
    if pc.Missed? && pc.id in s.tokens then
      var token := s.tokens[pc.id];
      Release(s, w).(tokens := s.tokens[pc.id := token.(attempts := token.attempts + 1)], answers := s.answers + [pc.id])
    else if pc.Sweeping? && pc.targets == {} && pc.id in s.tokens then
      Release(s, w).(tokens := Burn(s.tokens, pc.burned), answers := s.answers + [pc.id],
                     logins := s.logins + [Login(pc.id, s.tokens[pc.id], pc.code, pc.at)])
    else s
  }

  function Exec(s: State, a: Action): State {
    match a
    case Tick(elapsed) => s.(now := s.now + elapsed)
    case Arrive(w) => if w in s.workers then s else SetPc(s, w, Idle)
    case PurgeRow(id, at) =>
      if id in s.tokens && id !in s.locks && at <= s.now && Otp.Stale(s.tokens[id], at) then s.(tokens := s.tokens - {id}) else s
    case _ => if a.w in s.workers then Work(s, a) else s
  }

  /** A step of worker `a.w`. */
  function Work(s: State, a: Action): State
    requires !a.Tick? && !a.Arrive? && !a.PurgeRow? && a.w in s.workers
  {
    var pc := s.workers[a.w];
    match a
    case LockEmail(w, readAt) =>
      if pc.Idle? && s.advisory.None? && readAt <= s.now then SetPc(s, w, Locked(readAt)).(advisory := Some(w)) else s
    case ReadLast(w) =>
      if !pc.Locked? then s else if Recent(s.tokens, pc.readAt) then Release(s, w) else SetPc(s, w, Cleared(pc.readAt))
    case BeginBurn(w) =>
      if pc.Cleared? then SetPc(s, w, Burning(pc.readAt, LiveRows(s.tokens), {}))
      else if pc.Matched? then SetPc(s, w, Sweeping(pc.id, pc.code, pc.at, LiveRows(s.tokens) - {pc.id}, {pc.id}))
      else s
    case BurnRow(w, id) => DoBurnRow(s, w, id)
    case Insert(w, email, code) =>
      if pc.Burning? && pc.targets == {}
      then SetPc(s, w, Inserted(Otp.Token(email, code, pc.readAt + Otp.TTL, 0, false, s.now), pc.burned)) else s
    case CommitRequest(w) => DoCommitRequest(s, w)
    case BeginVerify(w, candidates) =>
      if pc.Idle? && NewestFirst(s.tokens, candidates) then SetPc(s, w, Picking(candidates)) else s
    case LockRow(w) => DoLockRow(s, w)
    case Compare(w, code) => DoCompare(s, w, code)
    case CommitVerify(w) => DoCommitVerify(s, w)
    case Quit(w) => Release(s, w)
  }

  function Run(s: State, actions: seq<Action>): State
    decreases |actions|
  {
    if actions == [] then s else Run(Exec(s, actions[0]), actions[1..])
  }

  // ---- Invariant ----

  predicate Requests(pc: Pc) {
    pc.Locked? || pc.Cleared? || pc.Burning? || pc.Inserted?
  }

  /** The rows a worker has locked. */
  function Rows(pc: Pc): set<nat> {
    match pc
    case Burning(_, _, burned) => burned
    case Inserted(_, burned) => burned
    case Holding(id) => {id}
    case Missed(id) => {id}
    case Matched(id, _, _) => {id}
    case Sweeping(_, _, _, _, burned) => burned
    case _ => {}
  }

  predicate Untried(pc: Pc) {
    match pc
    case Inserted(token, _) => !token.used && token.attempts == 0
    case _ => true
  }

  /** What a worker relies on until it ends. */
  ghost predicate PcFits(s: State, w: nat, pc: Pc) {
    && (Requests(pc) <==> s.advisory == Some(w))
    && (forall id <- Rows(pc) :: id in s.locks && s.locks[id] == w && Live(s.tokens, id))
    && (pc.Burning? ==> LiveRows(s.tokens) <= pc.targets + pc.burned)
    && (pc.Inserted? ==> LiveRows(s.tokens) <= pc.burned && Untried(pc))
    && (pc.Missed? || pc.Matched? || pc.Sweeping? ==> pc.id in Rows(pc) && s.tokens[pc.id].attempts < Otp.MAX_ATTEMPTS)
    && (pc.Matched? || pc.Sweeping? ==> s.tokens[pc.id].code == pc.code && pc.at <= s.tokens[pc.id].expiresAt)
  }

  ghost predicate WorkersFit(s: State) {
    && (forall w <- s.workers :: PcFits(s, w, s.workers[w]))
    && (forall id <- s.locks :: s.locks[id] in s.workers && id in Rows(s.workers[s.locks[id]]))
    && (s.advisory.Some? ==> s.advisory.value in s.workers)
  }

  ghost predicate OneLive(tokens: map<nat, Otp.Token>) {
    forall a, b :: Live(tokens, a) && Live(tokens, b) ==> a == b
  }

  ghost function Answered(answers: seq<nat>, id: nat): set<int> {
    set j | 0 <= j < |answers| && answers[j] == id
  }

  ghost predicate Counted(s: State) {
    && (forall id: nat :: |Answered(s.answers, id)| <= Otp.MAX_ATTEMPTS)
    && (forall id <- s.tokens :: !s.tokens[id].used ==> |Answered(s.answers, id)| == s.tokens[id].attempts)
    && (forall id <- s.answers :: id < |s.creations|)
    && (forall id <- s.tokens :: id < |s.creations| && s.tokens[id].createdAt == s.creations[id])
  }

  ghost predicate Inv(s: State) {
    WorkersFit(s) && OneLive(s.tokens) && Counted(s)
  }

  // ---- Every step keeps it ----

  /** Nothing the other workers rely on changes. */
  ghost predicate Steady(s: State, after: State, w: nat) {
    && (forall v <- after.workers :: v != w ==> v in s.workers && after.workers[v] == s.workers[v])
    && (forall v <- s.workers :: v in after.workers)
    && (forall id <- s.locks :: s.locks[id] != w ==> id in after.locks && after.locks[id] == s.locks[id])
    && (forall id <- after.locks :: after.locks[id] == w || (id in s.locks && after.locks[id] == s.locks[id]))
    && (forall v <- s.workers :: v != w ==> (s.advisory == Some(v) <==> after.advisory == Some(v)))
    && (forall id <- s.locks :: s.locks[id] != w && id in s.tokens ==> id in after.tokens && after.tokens[id] == s.tokens[id])
    && (LiveRows(after.tokens) <= LiveRows(s.tokens) || s.advisory == Some(w))
  }

  lemma OthersFit(s: State, after: State, w: nat)
    requires WorkersFit(s) && Steady(s, after, w)
    requires w in after.workers ==> PcFits(after, w, after.workers[w])
    requires forall id <- after.locks :: after.locks[id] == w ==> w in after.workers && id in Rows(after.workers[w])
    requires after.advisory.Some? ==> after.advisory.value in after.workers
    ensures WorkersFit(after)
  {
    forall v | v in after.workers ensures PcFits(after, v, after.workers[v]) {
      if v != w {
        assert PcFits(s, v, s.workers[v]);
      }
    }
  }

  lemma ReleaseFits(s: State, after: State, w: nat)
    requires WorkersFit(s) && w in s.workers
    requires after == Release(s, w).(tokens := after.tokens, creations := after.creations, answers := after.answers, logins := after.logins)
    requires forall id <- s.locks :: s.locks[id] != w && id in s.tokens ==> id in after.tokens && after.tokens[id] == s.tokens[id]
    requires LiveRows(after.tokens) <= LiveRows(s.tokens) || s.advisory == Some(w)
    ensures WorkersFit(after)
  {
    OthersFit(s, after, w);
  }

  /** A step that only moves a worker on, its locks and the rows untouched. */
  lemma PcFitsOn(s: State, w: nat, pc: Pc)
    requires WorkersFit(s) && w in s.workers && Rows(pc) == Rows(s.workers[w])
    requires PcFits(SetPc(s, w, pc), w, pc)
    ensures WorkersFit(SetPc(s, w, pc))
  {
    OthersFit(s, SetPc(s, w, pc), w);
  }

  /** A step that locks one more row. */
  lemma LockFits(s: State, w: nat, pc: Pc, id: nat)
    requires WorkersFit(s) && w in s.workers && Open(s, w, id) && Rows(pc) == Rows(s.workers[w]) + {id}
    requires PcFits(SetPc(s, w, pc).(locks := s.locks[id := w]), w, pc)
    ensures WorkersFit(SetPc(s, w, pc).(locks := s.locks[id := w]))
  {
    OthersFit(s, SetPc(s, w, pc).(locks := s.locks[id := w]), w);
  }

  lemma LockEmailFits(s: State, w: nat, readAt: Otp.Moment)
    requires WorkersFit(s) && w in s.workers && s.workers[w].Idle? && s.advisory.None?
    ensures WorkersFit(SetPc(s, w, Locked(readAt)).(advisory := Some(w)))
  {
    OthersFit(s, SetPc(s, w, Locked(readAt)).(advisory := Some(w)), w);
  }

  lemma BurnRowFits(s: State, w: nat, id: nat)
    requires WorkersFit(s) && w in s.workers
    ensures WorkersFit(DoBurnRow(s, w, id))
  {
    var pc := s.workers[w];
    assert PcFits(s, w, pc);
    if (pc.Burning? || pc.Sweeping?) && id in pc.targets && Open(s, w, id) {
      if Live(s.tokens, id) {
        LockFits(s, w, Reached(pc, id, true), id);
      } else {
        PcFitsOn(s, w, Reached(pc, id, false));
      }
    }
  }

  lemma LockRowFits(s: State, w: nat)
    requires WorkersFit(s) && w in s.workers
    ensures WorkersFit(DoLockRow(s, w))
  {
    var pc := s.workers[w];
    assert PcFits(s, w, pc);
    if pc.Picking? {
      if pc.candidates == [] {
        ReleaseFits(s, Release(s, w), w);
      } else if Open(s, w, pc.candidates[0]) {
        if Live(s.tokens, pc.candidates[0]) {
          LockFits(s, w, Holding(pc.candidates[0]), pc.candidates[0]);
        } else {
          PcFitsOn(s, w, Picking(pc.candidates[1..]));
        }
      }
    }
  }

  lemma CompareFits(s: State, w: nat, code: string)
    requires WorkersFit(s) && w in s.workers
    ensures WorkersFit(DoCompare(s, w, code))
  {
    var pc := s.workers[w];
    assert PcFits(s, w, pc);
    if pc.Holding? {
      var after := DoCompare(s, w, code);
      if after == Release(s, w) {
        ReleaseFits(s, after, w);
      } else {
        PcFitsOn(s, w, after.workers[w]);
      }
    }
  }

  lemma BurnOthers(s: State, w: nat, ids: set<nat>)
    requires forall id <- ids :: id in s.locks && s.locks[id] == w
    ensures LiveRows(Burn(s.tokens, ids)) == LiveRows(s.tokens) - ids
    ensures forall id <- s.locks :: s.locks[id] != w && id in s.tokens ==> Burn(s.tokens, ids)[id] == s.tokens[id]
  {
  }

  lemma CommitRequestFits(s: State, w: nat)
    requires WorkersFit(s) && Counted(s) && w in s.workers
    ensures WorkersFit(DoCommitRequest(s, w))
  {
    var pc := s.workers[w];
    assert PcFits(s, w, pc);
    if pc.Inserted? {
      BurnOthers(s, w, pc.burned);
      ReleaseFits(s, DoCommitRequest(s, w), w);
    }
  }

  lemma CommitVerifyFits(s: State, w: nat)
    requires WorkersFit(s) && w in s.workers
    ensures WorkersFit(DoCommitVerify(s, w))
  {
    var pc := s.workers[w];
    assert PcFits(s, w, pc);
    if pc.Missed? {
      ReleaseFits(s, DoCommitVerify(s, w), w);
    } else if pc.Sweeping? && pc.targets == {} {
      BurnOthers(s, w, pc.burned);
      ReleaseFits(s, DoCommitVerify(s, w), w);
    }
  }

  lemma WorkFits(s: State, a: Action)
    requires WorkersFit(s) && Counted(s) && !a.Tick? && !a.Arrive? && !a.PurgeRow? && a.w in s.workers
    ensures WorkersFit(Work(s, a))
  {
    var w := a.w;
    var pc := s.workers[w];
    match a
    case LockEmail(_, readAt) =>
      if pc.Idle? && s.advisory.None? {
        LockEmailFits(s, w, readAt);
      }
    case ReadLast(_) =>
      ReleaseFits(s, Release(s, w), w);
      if Work(s, a) != Release(s, w) {
        MoveOnFits(s, a);
      }
    case BeginBurn(_) => MoveOnFits(s, a);
    case BurnRow(_, id) => BurnRowFits(s, w, id);
    case Insert(_, _, _) => MoveOnFits(s, a);
    case CommitRequest(_) => CommitRequestFits(s, w);
    case BeginVerify(_, _) => MoveOnFits(s, a);
    case LockRow(_) => LockRowFits(s, w);
    case Compare(_, code) => CompareFits(s, w, code);
    case CommitVerify(_) => CommitVerifyFits(s, w);
    case Quit(_) => ReleaseFits(s, Release(s, w), w);
  }

  /** The steps that only read or stage. */
  lemma MoveOnFits(s: State, a: Action)
    requires WorkersFit(s) && (a.ReadLast? || a.BeginBurn? || a.Insert? || a.BeginVerify?) && a.w in s.workers
    requires a.ReadLast? ==> Work(s, a) != Release(s, a.w)
    ensures WorkersFit(Work(s, a))
  {
    var pc := s.workers[a.w];
    assert PcFits(s, a.w, pc);
    if Work(s, a) != s {
      PcFitsOn(s, a.w, Work(s, a).workers[a.w]);
    }
  }

  lemma AnsweredAppend(answers: seq<nat>, x: nat, id: nat)
    ensures |Answered(answers + [x], id)| == |Answered(answers, id)| + if x == id then 1 else 0
  {
    if x == id {
      assert Answered(answers + [x], id) == Answered(answers, id) + {|answers|};
    } else {
      assert Answered(answers + [x], id) == Answered(answers, id);
    }
  }

  lemma NeverAnswered(s: State, id: nat)
    requires Counted(s) && id >= |s.creations|
    ensures Answered(s.answers, id) == {}
  {
    forall j | 0 <= j < |s.answers| ensures s.answers[j] != id {
      assert s.answers[j] in s.answers;
    }
  }

  lemma FewerLive(tokens: map<nat, Otp.Token>, after: map<nat, Otp.Token>)
    requires OneLive(tokens) && forall id <- after :: Live(after, id) ==> Live(tokens, id)
    ensures OneLive(after) && LiveRows(after) <= LiveRows(tokens)
  {
  }

  lemma CommitRequestCounts(s: State, w: nat)
    requires WorkersFit(s) && Counted(s) && w in s.workers
    ensures Counted(DoCommitRequest(s, w))
  {
    assert PcFits(s, w, s.workers[w]);
    NeverAnswered(s, |s.creations|);
  }

  /** At the commit of a request every older unused code is among those it burned. */
  lemma CommitRequestOneLive(s: State, w: nat)
    requires WorkersFit(s) && OneLive(s.tokens) && w in s.workers
    ensures OneLive(DoCommitRequest(s, w).tokens)
  {
    var pc := s.workers[w];
    var after := DoCommitRequest(s, w);
    assert PcFits(s, w, pc);
    if pc.Inserted? {
      forall id | id in s.tokens && id != |s.creations| ensures !Live(after.tokens, id) {
        assert id in LiveRows(s.tokens) ==> id in pc.burned;
      }
    }
  }

  /** One more answer about a row that its worker had locked. */
  lemma AnswerCounts(s: State, after: State, id: nat)
    requires Counted(s) && Live(s.tokens, id) && s.tokens[id].attempts < Otp.MAX_ATTEMPTS
    requires after.answers == s.answers + [id] && after.creations == s.creations && after.tokens.Keys == s.tokens.Keys
    requires forall k <- s.tokens :: after.tokens[k].createdAt == s.tokens[k].createdAt
               && (!after.tokens[k].used ==>
                     !s.tokens[k].used && after.tokens[k].attempts == s.tokens[k].attempts + if k == id then 1 else 0)
    ensures Counted(after)
  {
    forall k: nat ensures |Answered(after.answers, k)| == |Answered(s.answers, k)| + if k == id then 1 else 0 {
      AnsweredAppend(s.answers, id, k);
    }
  }

  lemma CommitVerifyCounts(s: State, w: nat)
    requires WorkersFit(s) && Counted(s) && w in s.workers
    ensures Counted(DoCommitVerify(s, w))
  {
    var pc := s.workers[w];
    assert PcFits(s, w, pc);
    if pc.Missed? {
      AnswerCounts(s, DoCommitVerify(s, w), pc.id);
    } else if pc.Sweeping? && pc.targets == {} {
      AnswerCounts(s, DoCommitVerify(s, w), pc.id);
    }
  }

  lemma CommitVerifyOneLive(s: State, w: nat)
    requires WorkersFit(s) && OneLive(s.tokens) && w in s.workers
    ensures OneLive(DoCommitVerify(s, w).tokens)
  {
    assert PcFits(s, w, s.workers[w]);
    FewerLive(s.tokens, DoCommitVerify(s, w).tokens);
  }

  lemma OnlyCommitsPublish(s: State, a: Action)
    requires !a.Tick? && !a.Arrive? && !a.PurgeRow? && a.w in s.workers && !a.CommitRequest? && !a.CommitVerify?
    ensures var after := Work(s, a);
            after.tokens == s.tokens && after.answers == s.answers && after.creations == s.creations && after.now == s.now
            && after.logins == s.logins
  {
  }

  lemma WorkCounts(s: State, a: Action)
    requires Inv(s) && !a.Tick? && !a.Arrive? && !a.PurgeRow? && a.w in s.workers
    ensures Counted(Work(s, a)) && OneLive(Work(s, a).tokens)
  {
    if a.CommitRequest? {
      CommitRequestCounts(s, a.w);
      CommitRequestOneLive(s, a.w);
    } else if a.CommitVerify? {
      CommitVerifyCounts(s, a.w);
      CommitVerifyOneLive(s, a.w);
    } else {
      OnlyCommitsPublish(s, a);
    }
  }

  lemma PurgeKeepsInv(s: State, id: nat)
    requires Inv(s) && id !in s.locks
    ensures Inv(s.(tokens := s.tokens - {id}))
  {
    var after := s.(tokens := s.tokens - {id});
    FewerLive(s.tokens, after.tokens);
    forall w | w in after.workers ensures PcFits(after, w, after.workers[w]) {
      assert PcFits(s, w, s.workers[w]);
    }
  }

  lemma TimeKeepsInv(s: State, now: Otp.Moment)
    requires Inv(s)
    ensures Inv(s.(now := now))
  {
    forall w | w in s.workers ensures PcFits(s.(now := now), w, s.workers[w]) {
      assert PcFits(s, w, s.workers[w]);
    }
  }

  lemma ArriveKeepsInv(s: State, w: nat)
    requires Inv(s) && w !in s.workers
    ensures Inv(SetPc(s, w, Idle))
  {
    forall v | v in s.workers ensures v != w && PcFits(SetPc(s, w, Idle), v, s.workers[v]) {
      assert PcFits(s, v, s.workers[v]);
    }
  }

  lemma ExecKeepsInv(s: State, a: Action)
    requires Inv(s)
    ensures Inv(Exec(s, a))
  {
    match a
    case Tick(elapsed) => TimeKeepsInv(s, s.now + elapsed);
    case Arrive(w) =>
      if w !in s.workers {
        ArriveKeepsInv(s, w);
      }
    case PurgeRow(id, _) =>
      if id !in s.locks {
        PurgeKeepsInv(s, id);
      }
    case _ =>
      if a.w in s.workers {
        WorkFits(s, a);
        WorkCounts(s, a);
      }
  }

  lemma {:induction false} RunKeepsInv(s: State, actions: seq<Action>)
    requires Inv(s)
    ensures Inv(Run(s, actions))
    decreases |actions|
  {
    if actions != [] {
      ExecKeepsInv(s, actions[0]);
      RunKeepsInv(Exec(s, actions[0]), actions[1..]);
    }
  }

  lemma StartOk()
    ensures Inv(START)
  {
    forall id: nat ensures Answered([], id) == {} {
    }
  }

  /** In every interleaving, the committed rows hold at most one unused code of the email. */
  lemma AtMostOneUnused(actions: seq<Action>, a: nat, b: nat)
    requires Live(Run(START, actions).tokens, a) && Live(Run(START, actions).tokens, b)
    ensures a == b
  {
    StartOk();
    RunKeepsInv(START, actions);
  }

  /** In every interleaving, clients are told about at most five comparisons of one code. */
  lemma FiveAnswersPerCode(actions: seq<Action>, id: nat)
    ensures |Answered(Run(START, actions).answers, id)| <= Otp.MAX_ATTEMPTS
  {
    StartOk();
    RunKeepsInv(START, actions);
  }

  /** A login that commits leaves no usable code behind, whatever requests run beside it. */
  lemma LoginUsesUp(actions: seq<Action>, w: nat)
    requires var s := Run(START, actions); w in s.workers && s.workers[w].Sweeping? && s.workers[w].targets == {}
    ensures LiveRows(Exec(Run(START, actions), CommitVerify(w)).tokens) == {}
  {
    var s := Run(START, actions);
    StartOk();
    RunKeepsInv(START, actions);
    assert PcFits(s, w, s.workers[w]);
    assert Live(s.tokens, s.workers[w].id) && s.workers[w].id in s.workers[w].burned;
    forall id | id in s.tokens ensures !Live(Burn(s.tokens, s.workers[w].burned), id) {
      assert Live(s.tokens, id) ==> id == s.workers[w].id;
    }
  }

  // ---- Every login had the right code ----

  ghost predicate LoginFits(s: State, l: Login) {
    && l.row.code == l.code && l.at <= l.row.expiresAt && l.row.attempts < 5 && !l.row.used
    && l.id < |s.creations| && l.row.createdAt == s.creations[l.id] && !Live(s.tokens, l.id)
  }

  ghost predicate LoginsFit(s: State) {
    && (forall n :: 0 <= n < |s.logins| ==> LoginFits(s, s.logins[n]))
    && (forall m, n :: 0 <= m < n < |s.logins| ==> s.logins[m].id != s.logins[n].id)
  }

  lemma LoginsSurvive(s: State, after: State)
    requires LoginsFit(s) && after.logins == s.logins && s.creations <= after.creations
    requires forall id <- after.tokens :: Live(after.tokens, id) && id < |s.creations| ==> Live(s.tokens, id)
    ensures LoginsFit(after)
  {
    forall n | 0 <= n < |after.logins| ensures LoginFits(after, after.logins[n]) {
      assert LoginFits(s, s.logins[n]);
    }
  }

  lemma CommitLogsIn(s: State, w: nat)
    requires WorkersFit(s) && Counted(s) && LoginsFit(s) && w in s.workers
    ensures LoginsFit(DoCommitVerify(s, w))
  {
    var pc := s.workers[w];
    var after := DoCommitVerify(s, w);
    assert PcFits(s, w, pc);
    if pc.Sweeping? && pc.targets == {} {
      forall n | 0 <= n < |after.logins| ensures LoginFits(after, after.logins[n]) && (n < |s.logins| ==> after.logins[n].id != pc.id) {
        if n < |s.logins| {
          assert LoginFits(s, s.logins[n]);
        }
      }
    } else {
      LoginsSurvive(s, after);
    }
  }

  lemma LoginsStep(s: State, a: Action)
    requires Inv(s) && LoginsFit(s)
    ensures LoginsFit(Exec(s, a))
  {
    if a.Tick? || a.Arrive? || a.PurgeRow? || a.w !in s.workers {
      LoginsSurvive(s, Exec(s, a));
    } else if a.CommitVerify? {
      CommitLogsIn(s, a.w);
    } else {
      if !a.CommitRequest? {
        OnlyCommitsPublish(s, a);
      }
      LoginsSurvive(s, Exec(s, a));
    }
  }

  lemma {:induction false} LoginsRun(s: State, actions: seq<Action>)
    requires Inv(s) && LoginsFit(s)
    ensures LoginsFit(Run(s, actions))
    decreases |actions|
  {
    if actions != [] {
      ExecKeepsInv(s, actions[0]);
      LoginsStep(s, actions[0]);
      LoginsRun(Exec(s, actions[0]), actions[1..]);
    }
  }

  /**
   Every login that was committed, in any interleaving, entered exactly the code of
   an unused row, before its expiry and with fewer than five wrong attempts, and no
   code ever logged in twice.
   */
  lemma LoginsHadTheCode(actions: seq<Action>)
    ensures LoginsFit(Run(START, actions))
  {
    StartOk();
    LoginsRun(START, actions);
  }

  // ---- What each statement answers ----

  /** With the row locked, the comparison: the right code goes on to the login, a wrong one to one more attempt, a dead code to neither. */
  lemma CompareAnswers(s: State, w: nat, code: string)
    requires w in s.workers && s.workers[w].Holding? && s.workers[w].id in s.tokens
    ensures var id := s.workers[w].id;
            var row := s.tokens[id];
            var after := Exec(s, Compare(w, code));
            && w in after.workers && after.tokens == s.tokens
            && (after.workers[w] == Matched(id, code, s.now) <==> row.code == code && s.now <= row.expiresAt && row.attempts < 5)
            && (after.workers[w] == Missed(id) <==> row.code != code && s.now <= row.expiresAt && row.attempts < 5)
            && (s.now > row.expiresAt || row.attempts >= 5 ==> after.workers[w] == Idle)
  {
  }

  /** The commit of a wrong guess adds one attempt to its row and nothing else. */
  lemma MissAnswers(s: State, w: nat)
    requires w in s.workers && s.workers[w].Missed? && s.workers[w].id in s.tokens
    ensures var id := s.workers[w].id;
            var after := Exec(s, CommitVerify(w));
            after.tokens == s.tokens[id := s.tokens[id].(attempts := s.tokens[id].attempts + 1)] && after.logins == s.logins
  {
  }

  /** The newest candidate is locked if it is still unused; an open row that is not makes way for the next candidate. */
  lemma PickAnswers(s: State, w: nat)
    requires w in s.workers && s.workers[w].Picking?
    ensures var cs := s.workers[w].candidates;
            var after := Exec(s, LockRow(w));
            if cs == [] then after.workers[w] == Idle
            else if cs[0] in s.locks && s.locks[cs[0]] != w then after == s
            else after.workers[w] == if cs[0] in s.tokens && !s.tokens[cs[0]].used then Holding(cs[0]) else Picking(cs[1..])
  {
  }

  /** Under the lock of the email a request goes on exactly when every code is at least a minute old. */
  lemma CooldownAnswers(s: State, w: nat)
    requires w in s.workers && s.workers[w].Locked?
    ensures var readAt := s.workers[w].readAt;
            var after := Exec(s, ReadLast(w));
            after.workers[w] == if forall id <- s.tokens :: readAt - s.tokens[id].createdAt >= 60 * 1_000_000
                                then Cleared(readAt) else Idle
  {
  }

  /** A request uses up the rows it has burned and stores one new code, good for five minutes. */
  lemma RequestCommitAnswers(s: State, w: nat, email: string, code: string)
    requires w in s.workers && s.workers[w].Burning? && s.workers[w].targets == {} && |s.creations| !in s.tokens
    ensures var pc := s.workers[w];
            var after := Exec(Exec(s, Insert(w, email, code)), CommitRequest(w));
            && after.tokens == (map id <- s.tokens :: if id in pc.burned then s.tokens[id].(used := true) else s.tokens[id])
                               [|s.creations| := Otp.Token(email, code, pc.readAt + 5 * 60 * 1_000_000, 0, false, s.now)]
            && after.creations == s.creations + [s.now]
  {
    var inserted := Exec(s, Insert(w, email, code));
    assert inserted.workers[w].Inserted?;
  }

  // ---- Spacing of creations ----

  predicate Inserts(s: State, a: Action) {
    a.Insert? && a.w in s.workers && s.workers[a.w].Burning? && s.workers[a.w].targets == {}
  }

  /** Every request inserts its code at most `stall` microseconds after it read the clock. */
  predicate Prompt(stall: int, s: State, actions: seq<Action>)
    decreases |actions|
  {
    actions == [] ||
    (&& (Inserts(s, actions[0]) ==> s.now <= s.workers[actions[0].w].readAt + stall)
     && Prompt(stall, Exec(s, actions[0]), actions[1..]))
  }

  ghost predicate Spaced(creations: seq<Otp.Moment>) {
    forall c, d :: 0 <= c < d < |creations| ==> creations[c] + Otp.COOLDOWN <= creations[d]
  }

  /** By `at` the cooldown of every code created so far is over. */
  ghost predicate CoolBy(creations: seq<Otp.Moment>, at: Otp.Moment) {
    forall c :: 0 <= c < |creations| ==> creations[c] + Otp.COOLDOWN <= at
  }

  predicate Lasts(token: Otp.Token) {
    token.expiresAt >= token.createdAt + Otp.COOLDOWN - 1
  }

  /** What a request that got past the cooldown knows. */
  ghost predicate PcTimed(s: State, pc: Pc) {
    match pc
    case Locked(readAt) => readAt <= s.now
    case Cleared(_) => CoolBy(s.creations, s.now)
    case Burning(_, _, _) => CoolBy(s.creations, s.now)
    case Inserted(token, _) => CoolBy(s.creations, token.createdAt) && token.createdAt <= s.now && Lasts(token)
    case _ => true
  }

  ghost predicate Timed(s: State) {
    && Spaced(s.creations)
    && (forall w <- s.workers :: PcTimed(s, s.workers[w]))
    && (forall id <- s.tokens :: Lasts(s.tokens[id]))
    && (forall c: nat :: c < |s.creations| && c !in s.tokens ==> s.creations[c] + Otp.COOLDOWN <= s.now)
  }

  /** The cooldown check sees every code that has not outlived its cooldown. */
  lemma NotRecentIsCool(s: State, readAt: Otp.Moment)
    requires Counted(s) && Timed(s) && readAt <= s.now && !Recent(s.tokens, readAt)
    ensures CoolBy(s.creations, s.now)
  {
    forall c: nat | c < |s.creations| ensures s.creations[c] + Otp.COOLDOWN <= s.now {
      if c in s.tokens {
        assert s.tokens[c].createdAt <= readAt - Otp.COOLDOWN;
      }
    }
  }

  lemma PcTimedOn(s: State, w: nat, pc: Pc, after: State)
    requires Timed(s) && w in s.workers && PcTimed(s, pc)
    requires after == s.(advisory := after.advisory, locks := after.locks, workers := s.workers[w := pc])
    ensures Timed(after)
  {
    forall v | v in after.workers ensures PcTimed(after, after.workers[v]) {
      assert v != w ==> PcTimed(s, s.workers[v]);
    }
  }

  lemma CommitRequestTimed(s: State, w: nat)
    requires WorkersFit(s) && Counted(s) && Timed(s) && w in s.workers
    ensures Timed(DoCommitRequest(s, w))
  {
    var pc := s.workers[w];
    if pc.Inserted? {
      var after := DoCommitRequest(s, w);
      assert PcTimed(s, pc) && PcFits(s, w, pc);
      forall v | v in after.workers ensures PcTimed(after, after.workers[v]) {
        if v != w {
          assert PcTimed(s, s.workers[v]) && PcFits(s, v, s.workers[v]);
        }
      }
    }
  }

  lemma CommitVerifyTimed(s: State, w: nat)
    requires Timed(s) && w in s.workers
    ensures Timed(DoCommitVerify(s, w))
  {
    var after := DoCommitVerify(s, w);
    assert after.tokens.Keys == s.tokens.Keys;
    forall v | v in after.workers ensures PcTimed(after, after.workers[v]) {
      assert v != w ==> PcTimed(s, s.workers[v]);
    }
  }

  lemma WorkTimed(s: State, a: Action)
    requires Inv(s) && Timed(s) && !a.Tick? && !a.Arrive? && !a.PurgeRow? && a.w in s.workers
    requires Inserts(s, a) ==> s.now <= s.workers[a.w].readAt + Otp.MAX_STALL
    ensures Timed(Work(s, a))
  {
    if a.CommitRequest? {
      CommitRequestTimed(s, a.w);
    } else if a.CommitVerify? {
      CommitVerifyTimed(s, a.w);
    } else if Work(s, a) != s {
      QuietTimed(s, a);
    }
  }

  lemma QuietShape(s: State, a: Action)
    requires !a.Tick? && !a.Arrive? && !a.PurgeRow? && a.w in s.workers && !a.CommitRequest? && !a.CommitVerify?
    ensures var after := Work(s, a);
            a.w in after.workers
            && after == s.(advisory := after.advisory, locks := after.locks, workers := s.workers[a.w := after.workers[a.w]])
  {
    assert s.workers[a.w := s.workers[a.w]] == s.workers;
  }

  lemma BurnRowTimed(s: State, w: nat, id: nat)
    requires w in s.workers && PcTimed(s, s.workers[w])
    ensures PcTimed(s, DoBurnRow(s, w, id).workers[w])
  {
  }

  lemma VerifyTimed(s: State, w: nat, code: string)
    requires w in s.workers && PcTimed(s, s.workers[w])
    ensures PcTimed(s, DoLockRow(s, w).workers[w]) && PcTimed(s, DoCompare(s, w, code).workers[w])
  {
  }

  lemma RequestTimed(s: State, a: Action)
    requires a.LockEmail? || a.ReadLast? || a.BeginBurn? || a.Insert?
    requires Counted(s) && Timed(s) && a.w in s.workers
    requires Inserts(s, a) ==> s.now <= s.workers[a.w].readAt + Otp.MAX_STALL
    ensures PcTimed(s, Work(s, a).workers[a.w])
  {
    var pc := s.workers[a.w];
    assert PcTimed(s, pc);
    if a.ReadLast? && pc.Locked? && !Recent(s.tokens, pc.readAt) {
      NotRecentIsCool(s, pc.readAt);
    }
  }

  lemma QuietTimed(s: State, a: Action)
    requires Inv(s) && Timed(s) && !a.Tick? && !a.Arrive? && !a.PurgeRow? && a.w in s.workers
    requires !a.CommitRequest? && !a.CommitVerify?
    requires Inserts(s, a) ==> s.now <= s.workers[a.w].readAt + Otp.MAX_STALL
    ensures Timed(Work(s, a))
  {
    var w := a.w;
    assert PcTimed(s, s.workers[w]);
    QuietShape(s, a);
    if a.LockEmail? || a.ReadLast? || a.BeginBurn? || a.Insert? {
      RequestTimed(s, a);
    } else if a.BurnRow? {
      BurnRowTimed(s, w, a.id);
    } else if a.LockRow? {
      VerifyTimed(s, w, "");
    } else if a.Compare? {
      VerifyTimed(s, w, a.code);
    }
    PcTimedOn(s, w, Work(s, a).workers[w], Work(s, a));
  }

  lemma TimePasses(s: State, elapsed: nat)
    requires Timed(s)
    ensures Timed(s.(now := s.now + elapsed))
  {
    var after := s.(now := s.now + elapsed);
    forall v | v in after.workers ensures PcTimed(after, after.workers[v]) {
      assert PcTimed(s, s.workers[v]);
    }
  }

  lemma PurgeTimed(s: State, id: nat, at: Otp.Moment)
    requires Counted(s) && Timed(s) && id in s.tokens && at <= s.now && Otp.Stale(s.tokens[id], at)
    ensures Timed(s.(tokens := s.tokens - {id}))
  {
    var after := s.(tokens := s.tokens - {id});
    forall v | v in after.workers ensures PcTimed(after, after.workers[v]) {
      assert PcTimed(s, s.workers[v]);
    }
  }

  lemma ExecTimed(s: State, a: Action)
    requires Inv(s) && Timed(s)
    requires Inserts(s, a) ==> s.now <= s.workers[a.w].readAt + Otp.MAX_STALL
    ensures Timed(Exec(s, a))
  {
    match a
    case Tick(elapsed) => TimePasses(s, elapsed);
    case Arrive(w) =>
      if w !in s.workers {
        assert forall v <- s.workers :: PcTimed(SetPc(s, w, Idle), s.workers[v]) by {
          forall v | v in s.workers ensures PcTimed(SetPc(s, w, Idle), s.workers[v]) {
            assert PcTimed(s, s.workers[v]);
          }
        }
      }
    case PurgeRow(id, at) =>
      if Exec(s, a) != s {
        PurgeTimed(s, id, at);
      }
    case _ =>
      if a.w in s.workers {
        WorkTimed(s, a);
      }
  }

  lemma {:induction false} SpacedFrom(s: State, actions: seq<Action>)
    requires Inv(s) && Timed(s) && Prompt(Otp.MAX_STALL, s, actions)
    ensures Spaced(Run(s, actions).creations)
    decreases |actions|
  {
    if actions != [] {
      ExecTimed(s, actions[0]);
      ExecKeepsInv(s, actions[0]);
      SpacedFrom(Exec(s, actions[0]), actions[1..]);
    }
  }

  // ---- Beyond the bound ----

  lemma {:induction false} RunAppend(s: State, a: seq<Action>, b: seq<Action>)
    ensures Run(s, a + b) == Run(Run(s, a), b)
    decreases |a|
  {
    if a == [] {
      assert a + b == b;
    } else {
      assert (a + b)[0] == a[0] && (a + b)[1..] == a[1..] + b;
      RunAppend(Exec(s, a[0]), a[1..], b);
    }
  }

  lemma {:induction false} PromptAppend(stall: int, s: State, a: seq<Action>, b: seq<Action>)
    requires Prompt(stall, s, a) && Prompt(stall, Run(s, a), b)
    ensures Prompt(stall, s, a + b)
    decreases |a|
  {
    if a == [] {
      assert a + b == b;
    } else {
      assert (a + b)[0] == a[0] && (a + b)[1..] == a[1..] + b;
      PromptAppend(stall, Exec(s, a[0]), a[1..], b);
    }
  }

  lemma RunOne(stall: int, s: State, a: Action)
    requires Inserts(s, a) ==> s.now <= s.workers[a.w].readAt + stall
    ensures Run(s, [a]) == Exec(s, a) && Prompt(stall, s, [a])
  {
    assert [a][1..] == [];
  }

  lemma RunTwo(stall: int, s: State, a: Action, b: Action)
    requires !a.Insert? && !b.Insert?
    ensures Run(s, [a, b]) == Exec(Exec(s, a), b) && Prompt(stall, s, [a, b])
  {
    assert [a, b][1..] == [b];
    assert Run(Exec(s, a), [b]) == Exec(Exec(s, a), b) && Prompt(stall, Exec(s, a), [b]);
  }

  /** The steps of a request that no other worker disturbs, with no code on record. */
  function Solo(w: nat, readAt: Otp.Moment, code: string): seq<Action> {
    [LockEmail(w, readAt), ReadLast(w)] + ([BeginBurn(w)] + [Insert(w, "a", code)] + [CommitRequest(w)])
  }

  predicate Quiet(s: State, w: nat) {
    s.tokens == map[] && s.advisory.None? && s.locks == map[] && w in s.workers && s.workers[w] == Idle
  }

  function Created(s: State, readAt: Otp.Moment, code: string): State {
    s.(tokens := map[|s.creations| := Otp.Token("a", code, readAt + Otp.TTL, 0, false, s.now)], creations := s.creations + [s.now])
  }

  lemma SoloChecks(stall: int, s: State, w: nat, readAt: Otp.Moment)
    requires Quiet(s, w) && readAt <= s.now
    ensures var actions := [LockEmail(w, readAt), ReadLast(w)];
            Run(s, actions) == SetPc(s, w, Cleared(readAt)).(advisory := Some(w)) && Prompt(stall, s, actions)
  {
    RunTwo(stall, s, LockEmail(w, readAt), ReadLast(w));
    assert s.workers[w := Locked(readAt)][w := Cleared(readAt)] == s.workers[w := Cleared(readAt)];
  }

  lemma SoloWrites(stall: int, s: State, w: nat, readAt: Otp.Moment, code: string)
    requires Quiet(s, w) && s.now <= readAt + stall
    ensures var actions := [BeginBurn(w)] + [Insert(w, "a", code)] + [CommitRequest(w)];
            var cleared := SetPc(s, w, Cleared(readAt)).(advisory := Some(w));
            Run(cleared, actions) == Created(s, readAt, code) && Prompt(stall, cleared, actions)
  {
    var cleared := SetPc(s, w, Cleared(readAt)).(advisory := Some(w));
    var burning := SetPc(s, w, Burning(readAt, {}, {})).(advisory := Some(w));
    SoloBurns(s, w, readAt);
    SoloInserts(s, w, readAt, code);
    RunOne(stall, cleared, BeginBurn(w));
    RunOne(stall, burning, Insert(w, "a", code));
    RunOne(stall, Exec(burning, Insert(w, "a", code)), CommitRequest(w));
    RunAppend(cleared, [BeginBurn(w)], [Insert(w, "a", code)]);
    RunAppend(cleared, [BeginBurn(w)] + [Insert(w, "a", code)], [CommitRequest(w)]);
    PromptAppend(stall, cleared, [BeginBurn(w)], [Insert(w, "a", code)]);
    PromptAppend(stall, cleared, [BeginBurn(w)] + [Insert(w, "a", code)], [CommitRequest(w)]);
  }

  lemma SoloBurns(s: State, w: nat, readAt: Otp.Moment)
    requires Quiet(s, w)
    ensures Exec(SetPc(s, w, Cleared(readAt)).(advisory := Some(w)), BeginBurn(w))
         == SetPc(s, w, Burning(readAt, {}, {})).(advisory := Some(w))
  {
    assert LiveRows(s.tokens) == {};
    assert s.workers[w := Cleared(readAt)][w := Burning(readAt, {}, {})] == s.workers[w := Burning(readAt, {}, {})];
  }

  lemma SoloInserts(s: State, w: nat, readAt: Otp.Moment, code: string)
    requires Quiet(s, w)
    ensures var burning := SetPc(s, w, Burning(readAt, {}, {})).(advisory := Some(w));
            Exec(Exec(burning, Insert(w, "a", code)), CommitRequest(w)) == Created(s, readAt, code)
  {
    var burning := SetPc(s, w, Burning(readAt, {}, {})).(advisory := Some(w));
    var inserted := Exec(burning, Insert(w, "a", code));
    assert inserted.workers[w] == Inserted(Otp.Token("a", code, readAt + Otp.TTL, 0, false, s.now), {});
    assert inserted.workers[w := Idle] == s.workers;
    assert Burn(s.tokens, {}) == map[];
  }

  lemma SoloRuns(stall: int, s: State, w: nat, readAt: Otp.Moment, code: string)
    requires Quiet(s, w) && readAt <= s.now <= readAt + stall
    ensures Run(s, Solo(w, readAt, code)) == Created(s, readAt, code) && Prompt(stall, s, Solo(w, readAt, code))
  {
    var first := [LockEmail(w, readAt), ReadLast(w)];
    var last := [BeginBurn(w)] + [Insert(w, "a", code)] + [CommitRequest(w)];
    SoloChecks(stall, s, w, readAt);
    SoloWrites(stall, s, w, readAt, code);
    RunAppend(s, first, last);
    PromptAppend(stall, s, first, last);
  }

  /** A request that stalls longer: a purge deletes its code, and the memory of the cooldown, at once. */
  function StalledFirst(): seq<Action> {
    [Tick(Otp.MAX_STALL + 1), Arrive(0)] + Solo(0, 0, "1")
  }

  function PurgedThenSecond(): seq<Action> {
    [Tick(Otp.COOLDOWN - 1), PurgeRow(0, Otp.TTL + 1)] + Solo(0, Otp.TTL + 1, "2")
  }

  const FIRST_CODE := Otp.Token("a", "1", Otp.TTL, 0, false, Otp.MAX_STALL + 1)

  const AFTER_FIRST := State(Otp.MAX_STALL + 1, map[0 := FIRST_CODE], None, map[], map[0 := Idle], [Otp.MAX_STALL + 1], [], [])

  const AFTER_PURGE := State(Otp.TTL + 1, map[], None, map[], map[0 := Idle], [Otp.MAX_STALL + 1], [], [])

  lemma FirstStalls(stall: int)
    requires stall > Otp.MAX_STALL
    ensures Run(START, StalledFirst()) == AFTER_FIRST && Prompt(stall, START, StalledFirst())
  {
    var begin := [Tick(Otp.MAX_STALL + 1), Arrive(0)];
    RunTwo(stall, START, begin[0], begin[1]);
    var s := Run(START, begin);
    SoloRuns(stall, s, 0, 0, "1");
    RunAppend(START, begin, Solo(0, 0, "1"));
    PromptAppend(stall, START, begin, Solo(0, 0, "1"));
  }

  lemma PurgeForgets(stall: int)
    ensures var purge := [Tick(Otp.COOLDOWN - 1), PurgeRow(0, Otp.TTL + 1)];
            Run(AFTER_FIRST, purge) == AFTER_PURGE && Prompt(stall, AFTER_FIRST, purge)
  {
    RunTwo(stall, AFTER_FIRST, Tick(Otp.COOLDOWN - 1), PurgeRow(0, Otp.TTL + 1));
    assert AFTER_FIRST.tokens - {0} == map[];
  }

  lemma SecondFollows(stall: int)
    requires stall >= 0
    ensures Run(AFTER_FIRST, PurgedThenSecond()).creations == [Otp.MAX_STALL + 1, Otp.TTL + 1]
    ensures Prompt(stall, AFTER_FIRST, PurgedThenSecond())
  {
    var purge := [Tick(Otp.COOLDOWN - 1), PurgeRow(0, Otp.TTL + 1)];
    PurgeForgets(stall);
    SoloRuns(stall, AFTER_PURGE, 0, Otp.TTL + 1, "2");
    RunAppend(AFTER_FIRST, purge, Solo(0, Otp.TTL + 1, "2"));
    PromptAppend(stall, AFTER_FIRST, purge, Solo(0, Otp.TTL + 1, "2"));
  }

  lemma StalledBreaksCooldown(stall: int)
    requires stall > Otp.MAX_STALL
    ensures var actions := StalledFirst() + PurgedThenSecond();
            Prompt(stall, START, actions) && !Spaced(Run(START, actions).creations)
  {
    FirstStalls(stall);
    SecondFollows(stall);
    RunAppend(START, StalledFirst(), PurgedThenSecond());
    PromptAppend(stall, START, StalledFirst(), PurgedThenSecond());
    var creations := Run(START, StalledFirst() + PurgedThenSecond()).creations;
    assert creations[0] + Otp.COOLDOWN > creations[1];
  }

  lemma {:induction false} PromptMonotone(stall: int, s: State, actions: seq<Action>)
    requires stall <= Otp.MAX_STALL && Prompt(stall, s, actions)
    ensures Prompt(Otp.MAX_STALL, s, actions)
    decreases |actions|
  {
    if actions != [] {
      PromptMonotone(stall, Exec(s, actions[0]), actions[1..]);
    }
  }

  /** Statement by statement too, the cooldown survives every run exactly when requests stall at most that long. */
  lemma CooldownHoldsIffPrompt(stall: int)
    ensures (forall actions :: Prompt(stall, START, actions) ==> Spaced(Run(START, actions).creations)) <==> stall <= Otp.MAX_STALL
  {
    if stall <= Otp.MAX_STALL {
      forall actions | Prompt(stall, START, actions) ensures Spaced(Run(START, actions).creations) {
        PromptMonotone(stall, START, actions);
        StartOk();
        SpacedFrom(START, actions);
      }
    } else {
      StalledBreaksCooldown(stall);
    }
  }
}
