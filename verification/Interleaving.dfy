/**
 The match store one SQL statement at a time.

 Any number of transactions are in flight. A statement reads committed rows and its own writes (READ
 COMMITTED). A match row, once locked, stays locked until its transaction ends, and an insert that
 meets an uncommitted entry in a unique index waits for the transaction that made it. A transaction
 becomes visible when it commits; when it fails or is abandoned its writes disappear.

 `states` and `log` are the history: an entry is added when a transaction commits, or at the
 statement that decides it fails.
 */
module Interleaving {
  import opened Prelude
  import opened Rows
  import opened Transitions
  import opened Soundness
  import opened Runs

  type TxId = nat

  /** The next statement of a transaction. */
  datatype Pc =
    | InsertMatch | InsertHost                          // CreateLobby
    | FindLobby | ReadLobby | TakeSeat(slot: int)       // JoinLobby
    | LockRow | NoRow | ReadMatch                       // lockMatchForPlayer
    | AbandonRow                                        // CancelLobby
    | ReadySeat | StartRow | SeedFiles                  // ReadyUp
    | SubmitSeat | FinishRow                            // Submit
    | ReadBack                                          // matchByID before the commit
    | ExpireRow                                         // Expire
    | PickDue                                           // ExpireDue
    | BumpSeq | InsertEvent                             // AppendEvent
    | Committing

  datatype Tx = Tx(
    op: Op,
    now: int,
    pc: Pc,
    m: MatchId,                 // the match it works on, once known
    holds: set<MatchId>,        // locked match rows
    rows: map<MatchId, Match>,  // uncommitted match and seat rows
    logs: map<MatchId, Log>,    // uncommitted event_seq and events
    trees: map<Owner, Tree>,    // uncommitted workspace rows
    moved: bool,
    answer: Answer)

  datatype Sys = Sys(db: Db, txs: map<TxId, Tx>, states: seq<Db>, log: seq<Entry>)

  datatype Outcome = Fail(error: Error) | Go(tx: Tx) | Finish(answer: Answer)

  predicate Transactional(op: Op) {
    !op.WriteFile? && !op.DeleteFile?
  }

  function Target(op: Op): MatchId {
    match op
    case CreateLobby(id, _, _, _) => id
    case JoinLobby(_, _) => 0
    case ExpireDue(_) => 0
    case _ => op.m
  }

  function FirstStatement(op: Op): Pc
    requires Transactional(op)
  {
    match op
    case CreateLobby(_, _, _, _) => InsertMatch
    case JoinLobby(_, _) => FindLobby
    case CancelLobby(_, _) => LockRow
    case ReadyUp(_, _) => LockRow
    case Submit(_, _) => LockRow
    case Expire(_) => ExpireRow
    case ExpireDue(_) => PickDue
    case AppendEvent(_, _, _) => BumpSeq
  }

  function Begun(op: Op, now: int): Tx
    requires Transactional(op)
  {
    Tx(op, now, FirstStatement(op), Target(op), {}, map[], map[], map[], false, Done)
  }

  /** The row of the match a transaction works on, as the transaction sees it. */
  function Visible(db: Db, tx: Tx): Match
    requires tx.m in tx.rows || tx.m in db.matches
  {
    if tx.m in tx.rows then tx.rows[tx.m] else db.matches[tx.m]
  }

  ghost function LobbyNamed(ms: Matches, code: Code): MatchId
    requires CodeTaken(ms, code)
    ensures OpenLobby(ms, LobbyNamed(ms, code), code)
  {
    var m :| OpenLobby(ms, m, code); m
  }

  // What each statement does.

  function ExecCreate(db: Db, tx: Tx): Outcome
    requires tx.op.CreateLobby?
  {
    var CreateLobby(id, host, key, code) := tx.op;
    match tx.pc
    case InsertMatch =>
      if code == "" then Fail(ConstraintViolated)
      else if CodeTaken(db.matches, code) then Fail(LobbyCodeTaken)
      else if key !in db.catalog then Fail(ConstraintViolated)
      else
        Go(tx.(holds := {id}, rows := map[id := NewMatch(key, code)], logs := map[id := Log(0, [])],
               pc := InsertHost))
    case InsertHost =>
      if UserTaken(db.matches, host) then Fail(InUnfinishedMatch)
      else if host !in db.users then Fail(ConstraintViolated)
      else Go(tx.(rows := map[id := WithSeat(NewMatch(key, code), host, 1)], pc := ReadBack))
    case _ =>
      if id in tx.rows then Go(tx.(answer := Shown(id, tx.rows[id]), pc := Committing))
      else Fail(NotFound)
  }

  ghost function ExecJoin(db: Db, tx: Tx): Outcome
    requires tx.op.JoinLobby?
  {
    var JoinLobby(u, code) := tx.op;
    if tx.pc.FindLobby? then
      if !CodeTaken(db.matches, code) then Fail(NotFound)
      else
        var m := LobbyNamed(db.matches, code);
        Go(tx.(m := m, holds := {m}, pc := ReadLobby))
    else if tx.m !in db.matches then Fail(NotFound)
    else
      var r := Visible(db, tx);
      match tx.pc
      case ReadLobby =>
        if u in r.seats then Go(tx.(answer := Shown(tx.m, r), pc := Committing))
        else if FreeSlot(r).None? then Fail(LobbyFull)
        else Go(tx.(pc := TakeSeat(FreeSlot(r).value)))
      case TakeSeat(slot) =>
        if UserTaken(db.matches, u) then Fail(InUnfinishedMatch)
        else if u !in db.users then Fail(ConstraintViolated)
        else Go(tx.(rows := map[tx.m := WithSeat(r, u, slot)], pc := ReadBack))
      case _ => Go(tx.(answer := Shown(tx.m, r), pc := Committing))
  }

  /** lockMatchForPlayer: the lock, and the read that follows it whether or not a row was locked. */
  function ExecLock(db: Db, tx: Tx): Outcome {
    if tx.m in db.matches then Go(tx.(holds := {tx.m}, pc := ReadMatch)) else Go(tx.(pc := NoRow))
  }

  function ExecCancel(db: Db, tx: Tx): Outcome
    requires tx.op.CancelLobby?
  {
    if tx.pc.LockRow? then ExecLock(db, tx)
    else if tx.m !in db.matches then Fail(NotFound)
    else
      var r := Visible(db, tx);
      if tx.pc.AbandonRow? then
        Go(tx.(rows := map[tx.m := Abandon(r, tx.now)], answer := Done, pc := Committing))
      else if tx.op.user !in r.seats then Fail(NotFound)
      else if r.state.Abandoned? then Go(tx.(answer := Done, pc := Committing))
      else if !r.state.Lobby? then Fail(MatchStarted)
      else Go(tx.(pc := AbandonRow))
  }

  function ExecReadyUp(db: Db, tx: Tx): Outcome
    requires tx.op.ReadyUp?
  {
    if tx.pc.LockRow? then ExecLock(db, tx)
    else if tx.m !in db.matches then Fail(NotFound)
    else
      var r := Visible(db, tx);
      match if tx.pc.NoRow? then ReadMatch else tx.pc
      case ReadMatch =>
        if tx.op.user !in r.seats then Fail(NotFound)
        else if !r.state.Lobby? then Fail(MatchStarted)
        else if |r.seats| < SLOTS then Fail(LobbyIncomplete)
        else Go(tx.(pc := ReadySeat))
      case ReadySeat => Go(tx.(rows := map[tx.m := MarkReady(r, tx.op.user, tx.now)], pc := StartRow))
      case StartRow =>
        if CanStart(db.catalog, r)
        then Go(tx.(rows := map[tx.m := Start(r, db.catalog[r.challenge].duration, tx.now)],
                    moved := true, pc := SeedFiles))
        else Go(tx.(pc := ReadBack))
      case SeedFiles =>
        if r.challenge !in db.catalog || !SeedsSomething(db.trees, tx.m, r, db.catalog[r.challenge].files)
        then Fail(NoStartingWorkspace)
        else Go(tx.(trees := SeedRows(db.trees, tx.m, r, db.catalog[r.challenge].files), pc := ReadBack))
      case _ => Go(tx.(answer := Moved(r, tx.moved), pc := Committing))
  }

  function ExecSubmit(db: Db, tx: Tx): Outcome
    requires tx.op.Submit?
  {
    if tx.pc.LockRow? then ExecLock(db, tx)
    else if tx.m !in db.matches then Fail(NotFound)
    else
      var r := Visible(db, tx);
      match if tx.pc.NoRow? then ReadMatch else tx.pc
      case ReadMatch =>
        if tx.op.user !in r.seats then Fail(NotFound)
        else if !r.state.Active? then Fail(MatchNotActive)
        else Go(tx.(pc := SubmitSeat))
      case SubmitSeat => Go(tx.(rows := map[tx.m := MarkSubmitted(r, tx.op.user, tx.now)], pc := FinishRow))
      case FinishRow =>
        if CanFinish(r) then Go(tx.(rows := map[tx.m := Judge(r)], moved := true, pc := ReadBack))
        else Go(tx.(pc := ReadBack))
      case _ => Go(tx.(answer := Moved(r, tx.moved), pc := Committing))
  }

  /** One statement in its own transaction: a row it does not match ends it there. */
  function ExecExpire(db: Db, tx: Tx): Outcome {
    if tx.m in db.matches && Due(db.matches[tx.m], tx.now)
    then Go(tx.(holds := {tx.m}, rows := map[tx.m := Judge(db.matches[tx.m])],
                answer := Expired(true), pc := Committing))
    else Finish(Expired(false))
  }

  /** The update that follows the locking subselect. */
  function ExecSweep(db: Db, tx: Tx): Outcome {
    Go(tx.(rows := map m | m in tx.holds && m in db.matches :: Judge(db.matches[m]),
           answer := ExpiredAll(tx.holds), pc := Committing))
  }

  function ExecAppend(db: Db, tx: Tx): Outcome
    requires tx.op.AppendEvent?
  {
    match tx.pc
    case BumpSeq =>
      if tx.m !in db.logs then Fail(NotFound)
      else
        var l := db.logs[tx.m];
        Go(tx.(holds := {tx.m}, logs := map[tx.m := Log(l.eventSeq + 1, l.events)], pc := InsertEvent))
    case _ =>
      if tx.op.kind == "" then Fail(ConstraintViolated)
      else if tx.m !in tx.logs then Fail(NotFound)
      else
        var l := tx.logs[tx.m];
        var e := Event(l.eventSeq, tx.op.kind, Payload(tx.op.payload));
        Go(tx.(logs := map[tx.m := Log(l.eventSeq, l.events + [e])], answer := Appended(l.eventSeq),
               pc := Committing))
  }

  ghost function Exec(db: Db, tx: Tx): Outcome
    requires Transactional(tx.op)
  {
    match tx.op
    case CreateLobby(_, _, _, _) => ExecCreate(db, tx)
    case JoinLobby(_, _) => ExecJoin(db, tx)
    case CancelLobby(_, _) => ExecCancel(db, tx)
    case ReadyUp(_, _) => ExecReadyUp(db, tx)
    case Submit(_, _) => ExecSubmit(db, tx)
    case Expire(_) => ExecExpire(db, tx)
    case ExpireDue(limit) => if limit < 0 then Fail(ConstraintViolated) else ExecSweep(db, tx)
    case AppendEvent(_, _, _) => ExecAppend(db, tx)
  }

  function Merged(db: Db, tx: Tx): Db {
    db.(matches := db.matches + tx.rows, logs := db.logs + tx.logs, trees := db.trees + tx.trees)
  }

  // Waiting.

  /** The user whose membership the next statement inserts. */
  function Joining(tx: Tx): Option<UserId> {
    if tx.op.CreateLobby? && tx.pc.InsertHost? then Some(tx.op.host)
    else if tx.op.JoinLobby? && tx.pc.TakeSeat? then Some(tx.op.joiner)
    else None
  }

  /** Statements that take the row lock of a match they name, if the row is there to lock. */
  ghost predicate Wants(db: Db, tx: Tx, m: MatchId) {
    match tx.pc
    case LockRow => m == tx.m && m in db.matches
    case BumpSeq => m == tx.m && m in db.matches
    case ExpireRow => m == tx.m && m in db.matches && Due(db.matches[m], tx.now)
    case FindLobby => tx.op.JoinLobby? && OpenLobby(db.matches, m, tx.op.code)
    case _ => false
  }

  /** tx cannot take its next statement before ty ends. */
  ghost predicate MustWait(db: Db, tx: Tx, ty: Tx) {
    || (exists m | m in ty.holds :: Wants(db, tx, m))
    || (tx.op.CreateLobby? && tx.pc.InsertMatch? && exists m | m in ty.rows ::
          || (m !in db.matches && OpenLobby(ty.rows, m, tx.op.code))
          || (OpenLobby(db.matches, m, tx.op.code) && !OpenLobby(ty.rows, m, tx.op.code)))
    || (Joining(tx).Some? && exists m | m in ty.rows ::
          UnfinishedSeat(ty.rows, m, Joining(tx).value) != UnfinishedSeat(db.matches, m, Joining(tx).value))
  }

  ghost predicate Clear(s: Sys, t: TxId)
    requires t in s.txs
  {
    forall t' | t' in s.txs && t' != t :: !MustWait(s.db, s.txs[t], s.txs[t'])
  }

  // Steps.

  /** Whether op names match m: ids are minted by CreateLobby and handed out only after its commit. */
  predicate Names(op: Op, m: MatchId) {
    match op
    case JoinLobby(_, _) => false
    case ExpireDue(_) => false
    case CreateLobby(id, _, _, _) => id == m
    case _ => op.m == m
  }

  /** Nobody can name the id of a lobby that is still being created. */
  predicate Unguessed(s: Sys, op: Op) {
    forall t | t in s.txs ::
      && (op.CreateLobby? ==> !Names(s.txs[t].op, op.id))
      && (s.txs[t].op.CreateLobby? ==> !Names(op, s.txs[t].op.id))
  }

  datatype Label =
    | Begin(t: TxId, op: Op, now: int)
    | Statement(t: TxId)
    | Pick(t: TxId, m: MatchId)         // for update skip locked
    | Commit(t: TxId)
    | Abort(t: TxId)
    | FileStep(op: Op, answer: Answer, db': Db)

  function Recorded(s: Sys, e: Entry, db': Db): Sys {
    s.(db := db', states := s.states + [db'], log := s.log + [e])
  }

  function Ended(s: Sys, t: TxId): Sys {
    s.(txs := s.txs - {t})
  }

  function After(s: Sys, t: TxId, outcome: Outcome): Sys
    requires t in s.txs
  {
    var tx := s.txs[t];
    match outcome
    case Fail(e) => Recorded(Ended(s, t), Entry(tx.op, tx.now, Failed(e)), s.db)
    case Finish(a) => Recorded(Ended(s, t), Entry(tx.op, tx.now, a), s.db)
    case Go(tx') => s.(txs := s.txs[t := tx'])
  }

  /** What the statements alone allow. A minted id is new. */
  ghost predicate UnguardedStep(s: Sys, l: Label, s': Sys) {
    match l
    case Begin(t, op, now) =>
      && t !in s.txs && Transactional(op) && (op.CreateLobby? ==> op.id !in s.db.matches)
      && s' == s.(txs := s.txs[t := Begun(op, now)])
    case Statement(t) =>
      && t in s.txs && Transactional(s.txs[t].op) && !s.txs[t].pc.Committing? && Clear(s, t)
      && s' == After(s, t, Exec(s.db, s.txs[t]))
    case Pick(t, m) =>
      && t in s.txs
      && var tx := s.txs[t];
         && tx.op.ExpireDue? && tx.pc.PickDue? && |tx.holds| < tx.op.limit
         && m in DueMatches(s.db.matches, tx.now)
         && (forall t' | t' in s.txs :: m !in s.txs[t'].holds)
         && s' == s.(txs := s.txs[t := tx.(holds := tx.holds + {m})])
    case Commit(t) =>
      && t in s.txs && s.txs[t].pc.Committing?
      && var tx := s.txs[t];
         s' == Recorded(Ended(s, t), Entry(tx.op, tx.now, tx.answer), Merged(s.db, tx))
    case Abort(t) => t in s.txs && s' == Ended(s, t)
    case FileStep(op, answer, db') =>
      && !Transactional(op)
      && AtomicStep(s.db, op, 0, answer, db') && s' == Recorded(s, Entry(op, 0, answer), db')
  }

  ghost predicate Step(s: Sys, l: Label, s': Sys) {
    UnguardedStep(s, l, s') && (l.Begin? ==> Unguessed(s, l.op))
  }

  ghost predicate Start0(s: Sys) {
    Initial(s.db) && s.txs == map[] && s.states == [s.db] && s.log == []
  }

  ghost predicate IsTrace(trace: seq<Sys>, labels: seq<Label>) {
    && |trace| == |labels| + 1
    && Start0(trace[0])
    && forall i | 0 <= i < |labels| :: Step(trace[i], labels[i], trace[i + 1])
  }
}
