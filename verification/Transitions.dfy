/**
 Every operation of the match store as one indivisible step.

 This is the meaning the statement-level transactions are held to: the methods of `Queries` compute
 it, and every interleaving of their statements is shown to be a sequence of these steps.
 */
module Transitions {
  import opened Prelude
  import opened Rows
  import Paths
  import Weights

  datatype Op =
    | CreateLobby(id: MatchId, host: UserId, key: Key, code: Code)
    | JoinLobby(joiner: UserId, code: Code)
    | CancelLobby(m: MatchId, user: UserId)
    | ReadyUp(m: MatchId, user: UserId)
    | Submit(m: MatchId, user: UserId)
    | Expire(m: MatchId)
    | ExpireDue(limit: int)
    | AppendEvent(m: MatchId, kind: string, payload: string)
    | WriteFile(m: MatchId, user: UserId, path: Path, content: Content)
    | DeleteFile(m: MatchId, user: UserId, path: Path)

  datatype Answer =
    | Failed(error: Error)
    | Shown(id: MatchId, shown: Match)         // CreateLobby, JoinLobby
    | Done                                     // CancelLobby, WriteFile, DeleteFile
    | Moved(after: Match, moved: bool)         // ReadyUp, Submit
    | Expired(expired: bool)                   // Expire
    | ExpiredAll(swept: set<MatchId>)          // ExpireDue
    | Appended(number: nat)                    // AppendEvent

  const MAX_FILE_BYTES := 0x10_0000
  const MAX_WORKSPACE_FILES := 400
  const MAX_WORKSPACE_BYTES := 0x80_0000

  function Payload(payload: string): string {
    if payload == "" then "{}" else payload
  }

  function WithMatch(db: Db, m: MatchId, r: Match): Db {
    db.(matches := db.matches[m := r])
  }

  function CreateLobbyStep(db: Db, id: MatchId, host: UserId, key: Key, code: Code): (Db, Answer) {
    if code == "" then (db, Failed(ConstraintViolated))
    else if CodeTaken(db.matches, code) then (db, Failed(LobbyCodeTaken))
    else if key !in db.catalog then (db, Failed(ConstraintViolated))
    else if UserTaken(db.matches, host) then (db, Failed(InUnfinishedMatch))
    else if host !in db.users then (db, Failed(ConstraintViolated))
    else
      var r := WithSeat(NewMatch(key, code), host, 1);
      (WithMatch(db, id, r).(logs := db.logs[id := Log(0, [])]), Shown(id, r))
  }

  /** JoinLobby once the code has named the open lobby m. */
  function JoinLobbyStep(db: Db, m: MatchId, u: UserId): (Db, Answer)
    requires m in db.matches
  {
    var r := db.matches[m];
    if u in r.seats then (db, Shown(m, r))
    else if FreeSlot(r).None? then (db, Failed(LobbyFull))
    else if UserTaken(db.matches, u) then (db, Failed(InUnfinishedMatch))
    else if u !in db.users then (db, Failed(ConstraintViolated))
    else
      var r' := WithSeat(r, u, FreeSlot(r).value);
      (WithMatch(db, m, r'), Shown(m, r'))
  }

  function CancelLobbyStep(db: Db, m: MatchId, u: UserId, now: int): (Db, Answer) {
    if !Seated(db.matches, m, u) then (db, Failed(NotFound))
    else
      match db.matches[m].state
      case Abandoned => (db, Done)
      case Lobby => (WithMatch(db, m, Abandon(db.matches[m], now)), Done)
      case _ => (db, Failed(MatchStarted))
  }

  function ReadyUpStep(db: Db, m: MatchId, u: UserId, now: int): (Db, Answer) {
    if !Seated(db.matches, m, u) then (db, Failed(NotFound))
    else
      var r := db.matches[m];
      if !r.state.Lobby? then (db, Failed(MatchStarted))
      else if |r.seats| < SLOTS then (db, Failed(LobbyIncomplete))
      else
        var ready := MarkReady(r, u, now);
        if !CanStart(db.catalog, ready) then (WithMatch(db, m, ready), Moved(ready, false))
        else
          var c := db.catalog[r.challenge];
          var started := Start(ready, c.duration, now);
          if !SeedsSomething(db.trees, m, started, c.files) then (db, Failed(NoStartingWorkspace))
          else
            (WithMatch(db, m, started).(trees := db.trees + SeedRows(db.trees, m, started, c.files)),
             Moved(started, true))
  }

  function SubmitStep(db: Db, m: MatchId, u: UserId, now: int): (Db, Answer) {
    if !Seated(db.matches, m, u) then (db, Failed(NotFound))
    else
      var r := db.matches[m];
      if !r.state.Active? then (db, Failed(MatchNotActive))
      else
        var submitted := MarkSubmitted(r, u, now);
        if CanFinish(submitted)
        then (WithMatch(db, m, Judge(submitted)), Moved(Judge(submitted), true))
        else (WithMatch(db, m, submitted), Moved(submitted, false))
  }

  function ExpireStep(db: Db, m: MatchId, now: int): (Db, Answer) {
    if m in db.matches && Due(db.matches[m], now)
    then (WithMatch(db, m, Judge(db.matches[m])), Expired(true))
    else (db, Expired(false))
  }

  function DueMatches(ms: Matches, now: int): set<MatchId> {
    set m | m in ms && Due(ms[m], now)
  }

  /** Moves the matches of swept to judging. */
  function Swept(ms: Matches, swept: set<MatchId>): Matches {
    map m | m in ms :: if m in swept then Judge(ms[m]) else ms[m]
  }

  function AppendEventStep(db: Db, m: MatchId, kind: string, payload: string): (Db, Answer) {
    if m !in db.matches || m !in db.logs then (db, Failed(NotFound))
    else if kind == "" then (db, Failed(ConstraintViolated))
    else
      (db.(logs := db.logs[m := WithEvent(db.logs[m], kind, Payload(payload))]),
       Appended(db.logs[m].eventSeq + 1))
  }

  /** requireActive: who may write to this tree now. */
  function RequireActive(db: Db, m: MatchId, u: UserId): Option<Error> {
    if !Seated(db.matches, m, u) then Some(NotFound)
    else if !db.matches[m].state.Active? then Some(MatchNotActive)
    else None
  }

  ghost function WriteFileStep(db: Db, m: MatchId, u: UserId, path: Path, content: Content): (Db, Answer) {
    if !Paths.Valid(path) then (db, Failed(InvalidPath))
    else if |content| > MAX_FILE_BYTES then (db, Failed(FileTooLarge))
    else if RequireActive(db, m, u).Some? then (db, Failed(RequireActive(db, m, u).value))
    else
      var others := TreeOf(db.trees, m, u) - {path};
      if |others| + 1 > MAX_WORKSPACE_FILES || Weights.Total(others) + |content| > MAX_WORKSPACE_BYTES
      then (db, Failed(WorkspaceFull))
      else
        (db.(trees := db.trees[Owner(m, u) := TreeOf(db.trees, m, u)[path := content]]), Done)
  }

  function DeleteFileStep(db: Db, m: MatchId, u: UserId, path: Path): (Db, Answer) {
    if !Paths.Valid(path) then (db, Failed(InvalidPath))
    else if RequireActive(db, m, u).Some? then (db, Failed(RequireActive(db, m, u).value))
    else (db.(trees := db.trees[Owner(m, u) := TreeOf(db.trees, m, u) - {path}]), Done)
  }

  /**
   One operation taken whole, at time now.

   Two operations leave something open: which open lobby a code names (at most one does, in every
   sound database), and which due matches a sweep moves, since it skips rows others hold.
   */
  ghost predicate AtomicStep(db: Db, op: Op, now: int, answer: Answer, db': Db) {
    match op
    case CreateLobby(id, host, key, code) =>
      id !in db.matches && (db', answer) == CreateLobbyStep(db, id, host, key, code)
    case JoinLobby(u, code) =>
      if CodeTaken(db.matches, code)
      then exists m | OpenLobby(db.matches, m, code) :: (db', answer) == JoinLobbyStep(db, m, u)
      else db' == db && answer == Failed(NotFound)
    case CancelLobby(m, u) => (db', answer) == CancelLobbyStep(db, m, u, now)
    case ReadyUp(m, u) => (db', answer) == ReadyUpStep(db, m, u, now)
    case Submit(m, u) => (db', answer) == SubmitStep(db, m, u, now)
    case Expire(m) => (db', answer) == ExpireStep(db, m, now)
    case ExpireDue(limit) =>
      if limit < 0 then db' == db && answer == Failed(ConstraintViolated)
      else
        && answer.ExpiredAll? && answer.swept <= DueMatches(db.matches, now) && |answer.swept| <= limit
        && db' == db.(matches := Swept(db.matches, answer.swept))
    case AppendEvent(m, kind, payload) => (db', answer) == AppendEventStep(db, m, kind, payload)
    case WriteFile(m, u, path, content) => (db', answer) == WriteFileStep(db, m, u, path, content)
    case DeleteFile(m, u, path) => (db', answer) == DeleteFileStep(db, m, u, path)
  }
}
