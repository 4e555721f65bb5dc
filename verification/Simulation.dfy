/** Every interleaving of the statements is a sequence of whole operations. */
module Simulation {
  import opened Prelude
  import opened Rows
  import opened Transitions
  import opened Soundness
  import opened Runs
  import opened Interleaving

  // What a transaction has established by each of its statements, about the committed database.

  predicate Clean(tx: Tx) {
    tx.holds == {} && tx.rows == map[] && tx.logs == map[] && tx.trees == map[]
  }

  predicate HoldsOnly(db: Db, tx: Tx) {
    tx.m in db.matches && tx.holds == {tx.m} && tx.logs == map[]
  }

  ghost predicate CreateOk(db: Db, tx: Tx)
    requires tx.op.CreateLobby?
  {
    var CreateLobby(id, host, key, code) := tx.op;
    && id !in db.matches
    && (tx.pc.InsertMatch? || tx.pc.InsertHost? || tx.pc.ReadBack? || tx.pc.Committing?)
    && (tx.pc.InsertMatch? ==> Clean(tx))
    && (!tx.pc.InsertMatch? ==>
          && tx.holds == {id} && tx.logs == map[id := Log(0, [])] && tx.trees == map[]
          && code != "" && !CodeTaken(db.matches, code) && key in db.catalog)
    && (tx.pc.InsertHost? ==> tx.rows == map[id := NewMatch(key, code)])
    && (tx.pc.ReadBack? || tx.pc.Committing? ==>
          && tx.rows == map[id := WithSeat(NewMatch(key, code), host, 1)]
          && !UserTaken(db.matches, host) && host in db.users)
    && (tx.pc.Committing? ==> tx.answer == Shown(id, WithSeat(NewMatch(key, code), host, 1)))
  }

  ghost predicate JoinOk(db: Db, tx: Tx)
    requires tx.op.JoinLobby?
  {
    var JoinLobby(u, code) := tx.op;
    && (tx.pc.FindLobby? || tx.pc.ReadLobby? || tx.pc.TakeSeat? || tx.pc.ReadBack? || tx.pc.Committing?)
    && (tx.pc.FindLobby? ==> Clean(tx))
    && (!tx.pc.FindLobby? ==>
          HoldsOnly(db, tx) && tx.trees == map[] && OpenLobby(db.matches, tx.m, code))
    && (tx.pc.ReadLobby? ==> tx.rows == map[])
    && (tx.pc.TakeSeat? ==>
          && tx.rows == map[] && u !in db.matches[tx.m].seats
          && FreeSlot(db.matches[tx.m]) == Some(tx.pc.slot))
    && (tx.pc.ReadBack? ==> tx.rows != map[])
    && (tx.rows != map[] ==>
          && u !in db.matches[tx.m].seats && FreeSlot(db.matches[tx.m]).Some?
          && tx.rows == map[tx.m := WithSeat(db.matches[tx.m], u, FreeSlot(db.matches[tx.m]).value)]
          && !UserTaken(db.matches, u) && u in db.users)
    && (tx.pc.Committing? ==>
          && tx.answer == Shown(tx.m, Visible(db, tx))
          && (tx.rows == map[] ==> u in db.matches[tx.m].seats))
  }

  /** The shared beginning of CancelLobby, ReadyUp and Submit. */
  ghost predicate Locking(db: Db, tx: Tx) {
    && (tx.pc.LockRow? || tx.pc.NoRow? ==> Clean(tx))
    && (tx.pc.NoRow? ==> tx.m !in db.matches)
    && (!tx.pc.LockRow? && !tx.pc.NoRow? ==> HoldsOnly(db, tx))
    && (tx.pc.ReadMatch? ==> tx.rows == map[] && tx.trees == map[])
  }

  ghost predicate CancelOk(db: Db, tx: Tx)
    requires tx.op.CancelLobby?
  {
    && Locking(db, tx) && tx.m == tx.op.m && tx.trees == map[]
    && (tx.pc.LockRow? || tx.pc.NoRow? || tx.pc.ReadMatch? || tx.pc.AbandonRow? || tx.pc.Committing?)
    && (tx.pc.AbandonRow? ==>
          tx.rows == map[] && tx.op.user in db.matches[tx.m].seats && db.matches[tx.m].state.Lobby?)
    && (tx.pc.Committing? ==>
          && tx.op.user in db.matches[tx.m].seats && tx.answer == Done
          && if db.matches[tx.m].state.Lobby?
             then tx.rows == map[tx.m := Abandon(db.matches[tx.m], tx.now)]
             else db.matches[tx.m].state.Abandoned? && tx.rows == map[])
  }

  ghost predicate ReadyUpOk(db: Db, tx: Tx)
    requires tx.op.ReadyUp?
  {
    && Locking(db, tx) && tx.m == tx.op.m
    && (tx.pc.LockRow? || tx.pc.NoRow? || tx.pc.ReadMatch? || tx.pc.ReadySeat? || tx.pc.StartRow?
        || tx.pc.SeedFiles? || tx.pc.ReadBack? || tx.pc.Committing?)
    && (tx.pc.LockRow? || tx.pc.NoRow? || tx.pc.ReadMatch? ==> !tx.moved)
    && (HoldsOnly(db, tx) && !tx.pc.ReadMatch? ==>
          var r := db.matches[tx.m];
          var ready := MarkReady(r, tx.op.user, tx.now);
          && tx.op.user in r.seats && r.state.Lobby? && |r.seats| >= SLOTS
          && (tx.pc.ReadySeat? ==> tx.rows == map[] && tx.trees == map[] && !tx.moved)
          && (tx.pc.StartRow? ==> tx.rows == map[tx.m := ready] && tx.trees == map[] && !tx.moved)
          && (tx.pc.SeedFiles? || tx.pc.ReadBack? || tx.pc.Committing? ==>
                && tx.moved == CanStart(db.catalog, ready)
                && (!tx.moved ==> tx.rows == map[tx.m := ready] && tx.trees == map[] && !tx.pc.SeedFiles?)
                && (tx.moved ==>
                      var c := db.catalog[r.challenge];
                      var started := Start(ready, c.duration, tx.now);
                      && tx.rows == map[tx.m := started]
                      && (tx.pc.SeedFiles? ==> tx.trees == map[])
                      && (!tx.pc.SeedFiles? ==>
                            && SeedsSomething(db.trees, tx.m, started, c.files)
                            && tx.trees == SeedRows(db.trees, tx.m, started, c.files))))
          && (tx.pc.Committing? ==> tx.answer == Moved(Visible(db, tx), tx.moved)))
  }

  ghost predicate SubmitOk(db: Db, tx: Tx)
    requires tx.op.Submit?
  {
    && Locking(db, tx) && tx.m == tx.op.m && tx.trees == map[]
    && (tx.pc.LockRow? || tx.pc.NoRow? || tx.pc.ReadMatch? || tx.pc.SubmitSeat? || tx.pc.FinishRow?
        || tx.pc.ReadBack? || tx.pc.Committing?)
    && (tx.pc.LockRow? || tx.pc.NoRow? || tx.pc.ReadMatch? ==> !tx.moved)
    && (HoldsOnly(db, tx) && !tx.pc.ReadMatch? ==>
          var r := db.matches[tx.m];
          var submitted := MarkSubmitted(r, tx.op.user, tx.now);
          && tx.op.user in r.seats && r.state.Active?
          && (tx.pc.SubmitSeat? ==> tx.rows == map[] && !tx.moved)
          && (tx.pc.FinishRow? ==> tx.rows == map[tx.m := submitted] && !tx.moved)
          && (tx.pc.ReadBack? || tx.pc.Committing? ==>
                && tx.moved == CanFinish(submitted)
                && tx.rows == map[tx.m := if tx.moved then Judge(submitted) else submitted])
          && (tx.pc.Committing? ==> tx.answer == Moved(Visible(db, tx), tx.moved)))
  }

  ghost predicate ExpireOk(db: Db, tx: Tx)
    requires tx.op.Expire?
  {
    && tx.m == tx.op.m && tx.trees == map[]
    && (tx.pc.ExpireRow? || tx.pc.Committing?)
    && (tx.pc.ExpireRow? ==> Clean(tx))
    && (tx.pc.Committing? ==>
          && HoldsOnly(db, tx) && Due(db.matches[tx.m], tx.now)
          && tx.rows == map[tx.m := Judge(db.matches[tx.m])] && tx.answer == Expired(true))
  }

  ghost predicate ExpireDueOk(db: Db, tx: Tx)
    requires tx.op.ExpireDue?
  {
    && tx.logs == map[] && tx.trees == map[]
    && (tx.pc.PickDue? || tx.pc.Committing?)
    && (if tx.op.limit < 0 then tx.pc.PickDue? && tx.holds == {} else |tx.holds| <= tx.op.limit)
    && (forall m | m in tx.holds :: m in db.matches && Due(db.matches[m], tx.now))
    && (tx.pc.PickDue? ==> tx.rows == map[])
    && (tx.pc.Committing? ==>
          && tx.rows == (map m | m in tx.holds && m in db.matches :: Judge(db.matches[m]))
          && tx.answer == ExpiredAll(tx.holds))
  }

  ghost predicate AppendOk(db: Db, tx: Tx)
    requires tx.op.AppendEvent?
  {
    && tx.m == tx.op.m && tx.rows == map[] && tx.trees == map[]
    && (tx.pc.BumpSeq? || tx.pc.InsertEvent? || tx.pc.Committing?)
    && (tx.pc.BumpSeq? ==> Clean(tx))
    && (!tx.pc.BumpSeq? ==>
          && tx.m in db.matches && tx.m in db.logs && tx.holds == {tx.m}
          && var l := db.logs[tx.m];
             && (tx.pc.InsertEvent? ==> tx.logs == map[tx.m := Log(l.eventSeq + 1, l.events)])
             && (tx.pc.Committing? ==>
                   && tx.op.kind != "" && tx.answer == Appended(l.eventSeq + 1)
                   && tx.logs == map[tx.m := WithEvent(l, tx.op.kind, Payload(tx.op.payload))]))
  }

  ghost predicate TxOk(db: Db, tx: Tx) {
    match tx.op
    case CreateLobby(_, _, _, _) => CreateOk(db, tx)
    case JoinLobby(_, _) => JoinOk(db, tx)
    case CancelLobby(_, _) => CancelOk(db, tx)
    case ReadyUp(_, _) => ReadyUpOk(db, tx)
    case Submit(_, _) => SubmitOk(db, tx)
    case Expire(_) => ExpireOk(db, tx)
    case ExpireDue(_) => ExpireDueOk(db, tx)
    case AppendEvent(_, _, _) => AppendOk(db, tx)
    case _ => false
  }

  /** The entries a transaction has put in the unique indexes and not committed. */
  function ReservedCode(tx: Tx): Option<Code> {
    if tx.op.CreateLobby? && !tx.pc.InsertMatch? then Some(tx.op.code) else None
  }

  function ReservedUser(tx: Tx): Option<UserId> {
    if tx.op.CreateLobby? && (tx.pc.ReadBack? || tx.pc.Committing?) then Some(tx.op.host)
    else if tx.op.JoinLobby? && tx.rows != map[] then Some(tx.op.joiner)
    else None
  }

  /** Two transactions in flight lock different rows and reserve different index entries. */
  ghost predicate Apart(tx: Tx, ty: Tx) {
    && tx.holds !! ty.holds
    && (ReservedCode(tx).Some? ==> ReservedCode(tx) != ReservedCode(ty))
    && (ReservedUser(tx).Some? ==> ReservedUser(tx) != ReservedUser(ty))
    && (tx.op.CreateLobby? ==> !Names(ty.op, tx.op.id))
    && (ty.op.CreateLobby? ==> !Names(tx.op, ty.op.id))
  }

  ghost predicate TxsOk(db: Db, txs: map<TxId, Tx>) {
    && (forall t | t in txs :: TxOk(db, txs[t]))
    && (forall t, t' | t in txs && t' in txs && t != t' :: Apart(txs[t], txs[t']))
  }

  /** The committed history is a run of whole operations, and every transaction in flight has
      established what its position says. */
  ghost predicate Inv(s: Sys) {
    IsRun(s.states, s.log) && s.states[|s.log|] == s.db && TxsOk(s.db, s.txs)
  }

  // A statement establishes what the next position says.

  lemma CreateGoes(db: Db, tx: Tx)
    requires tx.op.CreateLobby? && CreateOk(db, tx) && !tx.pc.Committing?
    ensures ExecCreate(db, tx).Go? ==> CreateOk(db, ExecCreate(db, tx).tx) && ExecCreate(db, tx).tx.op == tx.op
    ensures ExecCreate(db, tx).Fail? ==> AtomicStep(db, tx.op, tx.now, Failed(ExecCreate(db, tx).error), db)
    ensures !ExecCreate(db, tx).Finish?
  {
    hide CodeTaken, UserTaken;
  }

  lemma JoinGoes(db: Db, tx: Tx)
    requires tx.op.JoinLobby? && JoinOk(db, tx) && !tx.pc.Committing?
    ensures ExecJoin(db, tx).Go? ==> JoinOk(db, ExecJoin(db, tx).tx) && ExecJoin(db, tx).tx.op == tx.op
    ensures ExecJoin(db, tx).Fail? ==> AtomicStep(db, tx.op, tx.now, Failed(ExecJoin(db, tx).error), db)
    ensures !ExecJoin(db, tx).Finish?
  {
    hide UserTaken, FreeSlot;
    if ExecJoin(db, tx).Fail? && !tx.pc.FindLobby? {
      assert OpenLobby(db.matches, tx.m, tx.op.code);
      assert (db, Failed(ExecJoin(db, tx).error)) == JoinLobbyStep(db, tx.m, tx.op.joiner);
    }
  }

  lemma CancelGoes(db: Db, tx: Tx)
    requires tx.op.CancelLobby? && CancelOk(db, tx) && !tx.pc.Committing?
    ensures ExecCancel(db, tx).Go? ==> CancelOk(db, ExecCancel(db, tx).tx) && ExecCancel(db, tx).tx.op == tx.op
    ensures ExecCancel(db, tx).Fail? ==> AtomicStep(db, tx.op, tx.now, Failed(ExecCancel(db, tx).error), db)
    ensures !ExecCancel(db, tx).Finish?
  {
    hide Abandon;
  }

  lemma ReadyUpGoes(db: Db, tx: Tx)
    requires tx.op.ReadyUp? && ReadyUpOk(db, tx) && !tx.pc.Committing?
    ensures ExecReadyUp(db, tx).Go? ==> ReadyUpOk(db, ExecReadyUp(db, tx).tx) && ExecReadyUp(db, tx).tx.op == tx.op
    ensures ExecReadyUp(db, tx).Fail? ==> AtomicStep(db, tx.op, tx.now, Failed(ExecReadyUp(db, tx).error), db)
    ensures !ExecReadyUp(db, tx).Finish?
  {
    hide SeedsSomething, SeedRows, AllReady, Synced;
  }

  lemma SubmitGoes(db: Db, tx: Tx)
    requires tx.op.Submit? && SubmitOk(db, tx) && !tx.pc.Committing?
    ensures ExecSubmit(db, tx).Go? ==> SubmitOk(db, ExecSubmit(db, tx).tx) && ExecSubmit(db, tx).tx.op == tx.op
    ensures ExecSubmit(db, tx).Fail? ==> AtomicStep(db, tx.op, tx.now, Failed(ExecSubmit(db, tx).error), db)
    ensures !ExecSubmit(db, tx).Finish?
  {
    hide MarkSubmitted, CanFinish, Judge;
  }

  lemma OthersGo(db: Db, tx: Tx)
    requires Transactional(tx.op) && TxOk(db, tx) && !tx.pc.Committing?
    requires tx.op.Expire? || tx.op.ExpireDue? || tx.op.AppendEvent?
    requires db.logs.Keys == db.matches.Keys
    ensures Exec(db, tx).Go? ==> TxOk(db, Exec(db, tx).tx) && Exec(db, tx).tx.op == tx.op
    ensures Exec(db, tx).Fail? ==> AtomicStep(db, tx.op, tx.now, Failed(Exec(db, tx).error), db)
    ensures Exec(db, tx).Finish? ==> AtomicStep(db, tx.op, tx.now, Exec(db, tx).answer, db)
  {
    hide Judge, Due;
  }

  lemma StatementGoes(db: Db, tx: Tx)
    requires Transactional(tx.op) && TxOk(db, tx) && !tx.pc.Committing?
    requires db.logs.Keys == db.matches.Keys
    ensures Exec(db, tx).Go? ==> TxOk(db, Exec(db, tx).tx) && Exec(db, tx).tx.op == tx.op
    ensures Exec(db, tx).Fail? ==> AtomicStep(db, tx.op, tx.now, Failed(Exec(db, tx).error), db)
    ensures Exec(db, tx).Finish? ==> AtomicStep(db, tx.op, tx.now, Exec(db, tx).answer, db)
  {
    hide AtomicStep, CreateOk, JoinOk, CancelOk, ReadyUpOk, SubmitOk, ExpireOk, ExpireDueOk, AppendOk,
      ExecCreate, ExecJoin, ExecCancel, ExecReadyUp, ExecSubmit, ExecExpire, ExecSweep, ExecAppend;
    match tx.op
    case CreateLobby(_, _, _, _) => CreateGoes(db, tx);
    case JoinLobby(_, _) => JoinGoes(db, tx);
    case CancelLobby(_, _) => CancelGoes(db, tx);
    case ReadyUp(_, _) => ReadyUpGoes(db, tx);
    case Submit(_, _) => SubmitGoes(db, tx);
    case _ => OthersGo(db, tx);
  }

  // What a committing transaction leaves behind is what the whole operation would have done.

  lemma OneRow<K, V>(m: map<K, V>, k: K, v: V)
    ensures m + map[k := v] == m[k := v]
  {}

  lemma Untouched(db: Db)
    ensures db.matches + map[] == db.matches && db.logs + map[] == db.logs && db.trees + map[] == db.trees
  {}

  lemma CreateCommits(db: Db, tx: Tx)
    requires tx.op.CreateLobby? && CreateOk(db, tx) && tx.pc.Committing?
    ensures AtomicStep(db, tx.op, tx.now, tx.answer, Merged(db, tx))
  {
    Untouched(db);
    hide CodeTaken, UserTaken, WithSeat;
    OneRow(db.matches, tx.op.id, tx.answer.shown);
    OneRow(db.logs, tx.op.id, Log(0, []));
  }

  lemma JoinCommits(db: Db, tx: Tx)
    requires tx.op.JoinLobby? && JoinOk(db, tx) && tx.pc.Committing?
    ensures AtomicStep(db, tx.op, tx.now, tx.answer, Merged(db, tx))
  {
    Untouched(db);
    hide UserTaken, WithSeat, FreeSlot;
    if tx.rows != map[] {
      OneRow(db.matches, tx.m, tx.rows[tx.m]);
    }
    assert OpenLobby(db.matches, tx.m, tx.op.code);
    assert (Merged(db, tx), tx.answer) == JoinLobbyStep(db, tx.m, tx.op.joiner);
  }

  lemma CancelCommits(db: Db, tx: Tx)
    requires tx.op.CancelLobby? && CancelOk(db, tx) && tx.pc.Committing?
    ensures AtomicStep(db, tx.op, tx.now, tx.answer, Merged(db, tx))
  {
    Untouched(db);
    hide Abandon;
    OneRow(db.matches, tx.m, Abandon(db.matches[tx.m], tx.now));
  }

  lemma ReadyUpCommits(db: Db, tx: Tx)
    requires tx.op.ReadyUp? && ReadyUpOk(db, tx) && tx.pc.Committing?
    ensures AtomicStep(db, tx.op, tx.now, tx.answer, Merged(db, tx))
  {
    Untouched(db);
    hide CanStart, Start, MarkReady, SeedsSomething, SeedRows;
    OneRow(db.matches, tx.m, tx.rows[tx.m]);
  }

  lemma SubmitCommits(db: Db, tx: Tx)
    requires tx.op.Submit? && SubmitOk(db, tx) && tx.pc.Committing?
    ensures AtomicStep(db, tx.op, tx.now, tx.answer, Merged(db, tx))
  {
    Untouched(db);
    hide MarkSubmitted, CanFinish, Judge;
    OneRow(db.matches, tx.m, tx.rows[tx.m]);
  }

  lemma OthersCommit(db: Db, tx: Tx)
    requires tx.op.Expire? || tx.op.ExpireDue? || tx.op.AppendEvent?
    requires TxOk(db, tx) && tx.pc.Committing?
    ensures AtomicStep(db, tx.op, tx.now, tx.answer, Merged(db, tx))
  {
    Untouched(db);
    hide Judge, WithEvent, Due;
    if tx.op.ExpireDue? {
      assert Merged(db, tx).matches == Swept(db.matches, tx.holds);
    } else if tx.op.Expire? {
      OneRow(db.matches, tx.m, Judge(db.matches[tx.m]));
    } else {
      OneRow(db.logs, tx.m, tx.logs[tx.m]);
    }
  }

  lemma CommitIsAtomic(db: Db, tx: Tx)
    requires TxOk(db, tx) && tx.pc.Committing?
    ensures AtomicStep(db, tx.op, tx.now, tx.answer, Merged(db, tx))
  {
    hide AtomicStep, CreateOk, JoinOk, CancelOk, ReadyUpOk, SubmitOk, ExpireOk, ExpireDueOk, AppendOk, Merged;
    match tx.op
    case CreateLobby(_, _, _, _) => CreateCommits(db, tx);
    case JoinLobby(_, _) => JoinCommits(db, tx);
    case CancelLobby(_, _) => CancelCommits(db, tx);
    case ReadyUp(_, _) => ReadyUpCommits(db, tx);
    case Submit(_, _) => SubmitCommits(db, tx);
    case _ => OthersCommit(db, tx);
  }

  // Other transactions do not disturb it.

  /** What the rest of the system may do to the committed database while tx is in flight. */
  ghost predicate Undisturbed(db: Db, db': Db, tx: Tx) {
    && db'.catalog == db.catalog && db'.users == db.users
    && db.matches.Keys <= db'.matches.Keys
    && (forall m | m in tx.holds && m in db.matches :: db'.matches[m] == db.matches[m])
    && (forall m | m in tx.holds && m in db.logs :: m in db'.logs && db'.logs[m] == db.logs[m])
    && (forall m, u | m in tx.holds && m in db.matches && db.matches[m].state.Lobby? ::
          TreeOf(db'.trees, m, u) == TreeOf(db.trees, m, u))
    && (tx.pc.NoRow? ==> tx.m !in db.matches ==> tx.m !in db'.matches)
    && (tx.op.CreateLobby? ==> tx.op.id !in db.matches ==> tx.op.id !in db'.matches)
    && (ReservedCode(tx).Some? && CodeTaken(db'.matches, ReservedCode(tx).value) ==>
          CodeTaken(db.matches, ReservedCode(tx).value))
    && (ReservedUser(tx).Some? && UserTaken(db'.matches, ReservedUser(tx).value) ==>
          UserTaken(db.matches, ReservedUser(tx).value))
  }

  lemma SeedingReadsOnlyItsTrees(db: Db, db': Db, tx: Tx, r: Match, files: Tree)
    requires Undisturbed(db, db', tx) && tx.m in tx.holds && tx.m in db.matches
    requires db.matches[tx.m].state.Lobby?
    ensures SeedRows(db'.trees, tx.m, r, files) == SeedRows(db.trees, tx.m, r, files)
    ensures SeedsSomething(db'.trees, tx.m, r, files) == SeedsSomething(db.trees, tx.m, r, files)
  {
    hide CodeTaken, UserTaken;
    assert forall u :: TreeOf(db'.trees, tx.m, u) == TreeOf(db.trees, tx.m, u);
  }

  lemma ReadyUpStable(db: Db, db': Db, tx: Tx)
    requires tx.op.ReadyUp? && ReadyUpOk(db, tx) && Undisturbed(db, db', tx)
    ensures ReadyUpOk(db', tx)
  {
    if HoldsOnly(db, tx) && tx.moved && tx.m in tx.rows {
      SeedingReadsOnlyItsTrees(db, db', tx, tx.rows[tx.m], db.catalog[db.matches[tx.m].challenge].files);
    }
    hide CodeTaken, UserTaken, SeedRows, SeedsSomething, CanStart, Start, MarkReady;
  }

  lemma JoinStable(db: Db, db': Db, tx: Tx)
    requires tx.op.JoinLobby? && JoinOk(db, tx) && Undisturbed(db, db', tx)
    ensures JoinOk(db', tx)
  {
    hide CodeTaken, UserTaken, WithSeat, FreeSlot, TreeOf;
    if !tx.pc.FindLobby? {
      assert db'.matches[tx.m] == db.matches[tx.m];
    }
  }

  lemma LockedStable(db: Db, db': Db, tx: Tx)
    requires tx.op.CancelLobby? || tx.op.Submit?
    requires TxOk(db, tx) && Undisturbed(db, db', tx)
    ensures TxOk(db', tx)
  {
    hide CodeTaken, UserTaken, MarkSubmitted, CanFinish, Judge, Abandon, TreeOf, JoinOk, CreateOk, ReadyUpOk;
  }

  lemma UnlockedStable(db: Db, db': Db, tx: Tx)
    requires tx.op.CreateLobby? || tx.op.Expire? || tx.op.ExpireDue? || tx.op.AppendEvent?
    requires TxOk(db, tx) && Undisturbed(db, db', tx)
    ensures TxOk(db', tx)
  {
    hide CodeTaken, UserTaken, WithSeat, WithEvent, Judge, Due, TreeOf, JoinOk, CancelOk, SubmitOk, ReadyUpOk;
  }

  lemma TxOkStable(db: Db, db': Db, tx: Tx)
    requires TxOk(db, tx) && Undisturbed(db, db', tx)
    ensures TxOk(db', tx)
  {
    hide JoinOk, CreateOk, CancelOk, SubmitOk, ReadyUpOk, ExpireOk, ExpireDueOk, AppendOk, Undisturbed;
    if tx.op.ReadyUp? {
      ReadyUpStable(db, db', tx);
    } else if tx.op.JoinLobby? {
      JoinStable(db, db', tx);
    } else if tx.op.CancelLobby? || tx.op.Submit? {
      LockedStable(db, db', tx);
    } else {
      UnlockedStable(db, db', tx);
    }
  }

  // A commit changes only the rows it holds, and opens only the entries it reserved.

  lemma CommitKeepsOthersRows(db: Db, tx: Tx, ty: Tx)
    requires TxOk(db, ty) && ty.pc.Committing?
    ensures ty.rows.Keys <= ty.holds && ty.logs.Keys <= ty.holds
    ensures forall o | o in ty.trees :: o.match_ in ty.holds
    ensures forall m | m in ty.rows :: m in db.matches || (ty.op.CreateLobby? && m == ty.op.id)
  {
    hide CodeTaken, UserTaken, SeedsSomething, CanStart, Start, MarkReady, MarkSubmitted, CanFinish,
      Judge, Due, WithSeat, FreeSlot, WithEvent, Abandon;
  }

  /** What a committing row may do to the unique indexes. */
  ghost predicate Quiet(r: Match, r': Match, reserved: Option<UserId>) {
    && r'.code == r.code
    && (r'.state.Lobby? ==> r.state.Lobby?)
    && (forall u | u in r'.seats && r'.seats[u].unfinished && reserved != Some(u) ::
          u in r.seats && r.seats[u].unfinished)
  }

  ghost predicate FlagsOk(r: Match) {
    forall u | u in r.seats :: r.seats[u].unfinished == Unfinished(r.state)
  }

  lemma ReadyUpIsQuiet(r: Match, u: UserId, now: int, duration: int)
    requires FlagsOk(r) && r.state.Lobby?
    ensures Quiet(r, MarkReady(r, u, now), None)
    ensures Quiet(r, Start(MarkReady(r, u, now), duration, now), None)
  {}

  lemma SubmitIsQuiet(r: Match, u: UserId, now: int)
    requires FlagsOk(r) && r.state.Active?
    ensures Quiet(r, MarkSubmitted(r, u, now), None)
    ensures Quiet(r, Judge(MarkSubmitted(r, u, now)), None)
  {}

  lemma JudgeIsQuiet(r: Match)
    requires FlagsOk(r) && r.state.Active?
    ensures Quiet(r, Judge(r), None)
  {}

  lemma LobbyWritesAreQuiet(r: Match, u: UserId, slot: int, now: int)
    requires FlagsOk(r) && r.state.Lobby?
    ensures Quiet(r, WithSeat(r, u, slot), Some(u))
    ensures Quiet(r, Abandon(r, now), None)
  {}

  lemma ReadyUpCommitIsQuiet(db: Db, ty: Tx)
    requires ty.op.ReadyUp? && TxOk(db, ty) && ty.pc.Committing?
    requires ty.m in db.matches ==> FlagsOk(db.matches[ty.m])
    ensures ty.m in db.matches && ty.rows.Keys == {ty.m}
    ensures Quiet(db.matches[ty.m], ty.rows[ty.m], None)
  {
    hide SeedsSomething, SeedRows, Start, AllReady, FlagsOk, Quiet;
    var r := db.matches[ty.m];
    assert MarkReady(r, ty.op.user, ty.now).challenge == r.challenge;
    ReadyUpIsQuiet(r, ty.op.user, ty.now, if r.challenge in db.catalog then db.catalog[r.challenge].duration else 0);
  }

  lemma CommitIsQuiet(db: Db, ty: Tx, m: MatchId)
    requires TxOk(db, ty) && ty.pc.Committing? && m in ty.rows && !ty.op.CreateLobby?
    requires m in db.matches ==> FlagsOk(db.matches[m])
    ensures m in db.matches && Quiet(db.matches[m], ty.rows[m], ReservedUser(ty))
  {
    hide CodeTaken, UserTaken, SeedsSomething, SeedRows, CanStart, Start, MarkReady, MarkSubmitted, CanFinish,
      Judge, WithSeat, FreeSlot, Abandon, FlagsOk, Quiet;
    var r := db.matches[m];
    match ty.op
    case JoinLobby(u, _) => LobbyWritesAreQuiet(r, u, FreeSlot(r).value, ty.now);
    case CancelLobby(u, _) => LobbyWritesAreQuiet(r, u, 1, ty.now);
    case ReadyUp(_, u) => ReadyUpCommitIsQuiet(db, ty);
    case Submit(_, u) => SubmitIsQuiet(r, u, ty.now);
    case Expire(_) => JudgeIsQuiet(r);
    case ExpireDue(_) => JudgeIsQuiet(r);
    case _ =>
  }

  lemma CreateRow(db: Db, ty: Tx)
    requires ty.op.CreateLobby? && TxOk(db, ty) && ty.pc.Committing?
    ensures ty.op.id !in db.matches
    ensures ty.rows == map[ty.op.id := WithSeat(NewMatch(ty.op.key, ty.op.code), ty.op.host, 1)]
  {
    hide CodeTaken, UserTaken;
  }

  lemma CodeHolder(ms: Matches, code: Code) returns (m: MatchId)
    requires CodeTaken(ms, code)
    ensures OpenLobby(ms, m, code)
  {
    m :| OpenLobby(ms, m, code);
  }

  lemma SeatHolder(ms: Matches, u: UserId) returns (m: MatchId)
    requires UserTaken(ms, u)
    ensures UnfinishedSeat(ms, m, u)
  {
    m :| UnfinishedSeat(ms, m, u);
  }

  lemma Holders(ms: Matches, m: MatchId, code: Code, u: UserId)
    ensures OpenLobby(ms, m, code) ==> CodeTaken(ms, code)
    ensures UnfinishedSeat(ms, m, u) ==> UserTaken(ms, u)
  {}

  /** A commit opens a lobby only under the code it reserved. */
  lemma CommitOpensItsCode(db: Db, ty: Tx, code: Code)
    requires TxOk(db, ty) && ty.pc.Committing? && ReservedCode(ty) != Some(code)
    requires forall m | m in db.matches :: FlagsOk(db.matches[m])
    requires CodeTaken(Merged(db, ty).matches, code)
    ensures CodeTaken(db.matches, code)
  {
    hide CodeTaken, UserTaken, TxOk, FlagsOk;
    var m := CodeHolder(Merged(db, ty).matches, code);
    if m in ty.rows {
      if ty.op.CreateLobby? {
        CreateRow(db, ty);
      } else {
        CommitIsQuiet(db, ty, m);
      }
    }
    Holders(db.matches, m, code, 0);
  }

  /** A commit takes the membership only of the user it reserved. */
  lemma CommitTakesItsUser(db: Db, ty: Tx, u: UserId)
    requires TxOk(db, ty) && ty.pc.Committing? && ReservedUser(ty) != Some(u)
    requires forall m | m in db.matches :: FlagsOk(db.matches[m])
    requires UserTaken(Merged(db, ty).matches, u)
    ensures UserTaken(db.matches, u)
  {
    hide CodeTaken, UserTaken, TxOk, FlagsOk;
    var m := SeatHolder(Merged(db, ty).matches, u);
    if m in ty.rows {
      if ty.op.CreateLobby? {
        CreateRow(db, ty);
      } else {
        CommitIsQuiet(db, ty, m);
      }
    }
    Holders(db.matches, m, "", u);
  }

  lemma NoRowNames(db: Db, tx: Tx)
    requires TxOk(db, tx)
    ensures tx.pc.NoRow? ==> Names(tx.op, tx.m)
  {
    hide CodeTaken, UserTaken;
  }

  lemma MergeOutside(db: Db, ty: Tx, held: set<MatchId>)
    requires ty.rows.Keys <= ty.holds && ty.logs.Keys <= ty.holds && ty.holds !! held
    requires forall o | o in ty.trees :: o.match_ in ty.holds
    ensures
      var db' := Merged(db, ty);
      && (forall m | m in held && m in db.matches :: db'.matches[m] == db.matches[m])
      && (forall m | m in held && m in db.logs :: m in db'.logs && db'.logs[m] == db.logs[m])
      && (forall m, u | m in held :: TreeOf(db'.trees, m, u) == TreeOf(db.trees, m, u))
  {}

  lemma CommitLeavesOthersUndisturbed(db: Db, ty: Tx, tx: Tx)
    requires forall m | m in db.matches :: FlagsOk(db.matches[m])
    requires TxOk(db, ty) && ty.pc.Committing? && TxOk(db, tx) && Apart(tx, ty)
    ensures Undisturbed(db, Merged(db, ty), tx)
  {
    hide CodeTaken, UserTaken, FlagsOk, TxOk, TreeOf;
    CommitKeepsOthersRows(db, tx, ty);
    MergeOutside(db, ty, tx.holds);
    if ReservedCode(tx).Some? && CodeTaken(Merged(db, ty).matches, ReservedCode(tx).value) {
      CommitOpensItsCode(db, ty, ReservedCode(tx).value);
    }
    if ReservedUser(tx).Some? && UserTaken(Merged(db, ty).matches, ReservedUser(tx).value) {
      CommitTakesItsUser(db, ty, ReservedUser(tx).value);
    }
    NoRowNames(db, tx);
  }

  /** A workspace write touches no locked lobby. */
  lemma FileStepLeavesOthersUndisturbed(db: Db, op: Op, answer: Answer, db': Db, tx: Tx)
    requires !Transactional(op) && AtomicStep(db, op, 0, answer, db')
    ensures Undisturbed(db, db', tx)
  {
    var e := Entry(op, 0, answer);
    forall m, u | m in db.matches && db.matches[m].state.Lobby?
      ensures TreeOf(db'.trees, m, u) == TreeOf(db.trees, m, u)
    {
      hide AtomicStep;
      TreesChangeOnlyWhileActive(db, e, db', Owner(m, u));
    }
    FileStepLeavesRows(db, op, answer, db');
    hide AtomicStep, CodeTaken, UserTaken;
  }

  lemma FileStepLeavesRows(db: Db, op: Op, answer: Answer, db': Db)
    requires !Transactional(op) && AtomicStep(db, op, 0, answer, db')
    ensures db'.matches == db.matches && db'.logs == db.logs && db'.catalog == db.catalog && db'.users == db.users
  {
    hide CreateLobbyStep, JoinLobbyStep, CancelLobbyStep, ReadyUpStep, SubmitStep, ExpireStep, AppendEventStep,
      Swept, DueMatches, TreeOf, RequireActive, CodeTaken;
  }

  // Locks and reservations stay apart.

  lemma HeldRows(db: Db, ty: Tx)
    requires TxOk(db, ty)
    ensures forall m | m in ty.holds :: m in db.matches || (ty.op.CreateLobby? && m == ty.op.id)
  {
    hide CodeTaken, UserTaken, SeedsSomething, SeedRows, CanStart, Start, MarkReady, MarkSubmitted, CanFinish,
      Judge, Due, WithSeat, FreeSlot, WithEvent, Abandon;
  }

  /** The statement locked no row but the one it wanted, which was free. */
  lemma GoHoldsWhatItWanted(db: Db, tx: Tx)
    requires db.logs.Keys == db.matches.Keys
    requires Transactional(tx.op) && TxOk(db, tx) && Exec(db, tx).Go? && !tx.pc.Committing?
    ensures forall m | m in Exec(db, tx).tx.holds && m !in tx.holds ::
              Wants(db, tx, m) || (tx.op.CreateLobby? && m == tx.op.id)
  {
    if tx.op.JoinLobby? {
      JoinHoldsWhatItWanted(db, tx);
    } else if tx.op.CreateLobby? {
      CreateHoldsItsId(db, tx);
    } else if tx.op.CancelLobby? || tx.op.ReadyUp? || tx.op.Submit? {
      LockHoldsItsRow(db, tx);
    } else {
      OthersHoldTheirRow(db, tx);
    }
    hide Exec, TxOk, Wants;
  }

  lemma LockHoldsItsRow(db: Db, tx: Tx)
    requires (tx.op.CancelLobby? || tx.op.ReadyUp? || tx.op.Submit?) && Exec(db, tx).Go?
    ensures forall m | m in Exec(db, tx).tx.holds && m !in tx.holds :: Wants(db, tx, m)
  {
    hide SeedsSomething, SeedRows, CanStart, Start, MarkReady, MarkSubmitted, CanFinish, Judge, Abandon;
  }

  lemma OthersHoldTheirRow(db: Db, tx: Tx)
    requires db.logs.Keys == db.matches.Keys
    requires (tx.op.Expire? || tx.op.ExpireDue? || tx.op.AppendEvent?) && TxOk(db, tx) && Exec(db, tx).Go?
    requires !tx.pc.Committing?
    ensures forall m | m in Exec(db, tx).tx.holds && m !in tx.holds :: Wants(db, tx, m)
  {
    hide Judge, WithEvent, Due;
  }

  lemma JoinHoldsWhatItWanted(db: Db, tx: Tx)
    requires tx.op.JoinLobby? && Exec(db, tx).Go?
    ensures forall m | m in Exec(db, tx).tx.holds && m !in tx.holds :: Wants(db, tx, m)
  {
    hide CodeTaken, UserTaken, WithSeat, FreeSlot;
    if tx.pc.FindLobby? {
      assert OpenLobby(db.matches, LobbyNamed(db.matches, tx.op.code), tx.op.code);
    }
  }

  lemma CreateHoldsItsId(db: Db, tx: Tx)
    requires tx.op.CreateLobby? && Exec(db, tx).Go?
    ensures forall m | m in Exec(db, tx).tx.holds && m !in tx.holds :: m == tx.op.id
  {
    hide CodeTaken, UserTaken, WithSeat;
  }

  ghost predicate ReservesFree(db: Db, tx: Tx, tx': Tx) {
    && (ReservedCode(tx') != ReservedCode(tx) ==>
          && tx.op.CreateLobby? && tx.pc.InsertMatch?
          && ReservedCode(tx') == Some(tx.op.code) && !CodeTaken(db.matches, tx.op.code))
    && (ReservedUser(tx') != ReservedUser(tx) ==>
          && Joining(tx).Some? && ReservedUser(tx') == Joining(tx)
          && !UserTaken(db.matches, Joining(tx).value))
  }

  lemma CreateReserves(db: Db, tx: Tx)
    requires tx.op.CreateLobby? && TxOk(db, tx) && Exec(db, tx).Go? && !tx.pc.Committing?
    ensures ReservesFree(db, tx, Exec(db, tx).tx)
  {
    hide CodeTaken, UserTaken, WithSeat;
  }

  lemma JoinReserves(db: Db, tx: Tx)
    requires tx.op.JoinLobby? && TxOk(db, tx) && Exec(db, tx).Go? && !tx.pc.Committing?
    ensures ReservesFree(db, tx, Exec(db, tx).tx)
  {
    hide CodeTaken, UserTaken, WithSeat, FreeSlot;
  }

  /** What the statement reserves, it found free. */
  lemma GoReserves(db: Db, tx: Tx)
    requires Transactional(tx.op) && TxOk(db, tx) && Exec(db, tx).Go? && !tx.pc.Committing?
    requires Exec(db, tx).tx.op == tx.op
    ensures ReservesFree(db, tx, Exec(db, tx).tx)
  {
    if tx.op.CreateLobby? {
      CreateReserves(db, tx);
    } else if tx.op.JoinLobby? {
      JoinReserves(db, tx);
    } else {
      hide Exec, TxOk;
    }
    hide Exec, TxOk, ReservesFree;
  }

  /** A reserved entry is there for the next inserter to meet. */
  lemma ReservedIsMet(db: Db, tx: Tx, ty: Tx)
    requires TxOk(db, ty)
    ensures tx.op.CreateLobby? && tx.pc.InsertMatch? && ReservedCode(ty) == Some(tx.op.code) ==>
              MustWait(db, tx, ty)
    ensures Joining(tx).Some? && ReservedUser(ty) == Joining(tx) && !UserTaken(db.matches, Joining(tx).value) ==>
              MustWait(db, tx, ty)
  {
    hide CodeTaken, SeedsSomething, SeedRows, CanStart, Start, MarkReady, MarkSubmitted, CanFinish,
      Judge, Due, FreeSlot, WithEvent, Abandon;
    if ReservedCode(ty).Some? {
      assert ty.op.id in ty.rows && OpenLobby(ty.rows, ty.op.id, ty.op.code);
    }
    if ReservedUser(ty).Some? {
      var m := if ty.op.CreateLobby? then ty.op.id else ty.m;
      assert m in ty.rows && UnfinishedSeat(ty.rows, m, ReservedUser(ty).value);
      Holders(db.matches, m, "", ReservedUser(ty).value);
    }
  }

  lemma GoKeepsApart(db: Db, tx: Tx, ty: Tx)
    requires db.logs.Keys == db.matches.Keys
    requires Transactional(tx.op) && TxOk(db, tx) && TxOk(db, ty) && !tx.pc.Committing?
    requires Exec(db, tx).Go? && Exec(db, tx).tx.op == tx.op
    requires Apart(tx, ty) && Apart(ty, tx) && !MustWait(db, tx, ty)
    ensures Apart(Exec(db, tx).tx, ty) && Apart(ty, Exec(db, tx).tx)
  {
    HeldRows(db, ty);
    GoHoldsWhatItWanted(db, tx);
    GoReserves(db, tx);
    ReservedIsMet(db, tx, ty);
    CreateIdIsNew(db, tx);
    hide TxOk, Exec, CodeTaken, UserTaken;
    assert forall m | m in ty.holds :: !Wants(db, tx, m);
  }

  lemma CreateIdIsNew(db: Db, tx: Tx)
    requires TxOk(db, tx)
    ensures tx.op.CreateLobby? ==> tx.op.id !in db.matches
  {
    hide CodeTaken, UserTaken;
  }

  // Every step keeps the invariant.

  lemma BegunIsOk(s: Sys, op: Op, now: int)
    requires Transactional(op) && Unguessed(s, op) && (op.CreateLobby? ==> op.id !in s.db.matches)
    ensures TxOk(s.db, Begun(op, now))
    ensures forall t | t in s.txs :: Apart(s.txs[t], Begun(op, now)) && Apart(Begun(op, now), s.txs[t])
  {
    hide CodeTaken, UserTaken;
  }

  lemma OneTxChanges(db: Db, txs: map<TxId, Tx>, t: TxId, tx: Tx)
    requires TxsOk(db, txs) && TxOk(db, tx)
    requires forall t' | t' in txs && t' != t :: Apart(txs[t'], tx) && Apart(tx, txs[t'])
    ensures TxsOk(db, txs[t := tx])
  {
    hide TxOk, Apart;
  }

  lemma TxEnds(db: Db, txs: map<TxId, Tx>, t: TxId)
    requires TxsOk(db, txs)
    ensures TxsOk(db, txs - {t})
  {
    hide TxOk, Apart;
  }

  lemma TxsStable(db: Db, db': Db, txs: map<TxId, Tx>)
    requires TxsOk(db, txs)
    requires forall t | t in txs :: Undisturbed(db, db', txs[t])
    ensures TxsOk(db', txs)
  {
    hide TxOk, Apart, Undisturbed;
    forall t | t in txs ensures TxOk(db', txs[t]) {
      TxOkStable(db, db', txs[t]);
    }
  }

  lemma HistoryGrows(s: Sys, e: Entry, db': Db)
    requires IsRun(s.states, s.log) && s.states[|s.log|] == s.db
    requires AtomicStep(s.db, e.op, e.now, e.answer, db')
    ensures
      var s' := Recorded(s, e, db');
      IsRun(s'.states, s'.log) && s'.states[|s'.log|] == db'
  {
    hide AtomicStep, Initial;
    var s' := Recorded(s, e, db');
    forall i | 0 <= i < |s'.log|
      ensures AtomicStep(s'.states[i], s'.log[i].op, s'.log[i].now, s'.log[i].answer, s'.states[i + 1])
    {
      assert i < |s.log| ==> s'.log[i] == s.log[i] && s'.states[i + 1] == s.states[i + 1];
    }
  }

  lemma SoundParts(db: Db)
    requires Sound(db)
    ensures db.logs.Keys == db.matches.Keys
    ensures forall m | m in db.matches :: FlagsOk(db.matches[m])
  {
    hide ClockOk, ProgressOk, CodesUnique, OneUnfinishedSeat, TreesOk, CatalogOk, LogOk;
    forall m | m in db.matches ensures FlagsOk(db.matches[m]) {
      assert MatchOk(db.catalog, db.matches[m]);
    }
  }

  lemma CommittedIsSound(s: Sys)
    requires Inv(s)
    ensures s.db.logs.Keys == s.db.matches.Keys
    ensures forall m | m in s.db.matches :: FlagsOk(s.db.matches[m])
  {
    hide IsRun, TxsOk, Sound, FlagsOk;
    LastStateIsSound(s.states, s.log);
    SoundParts(s.db);
  }

  lemma BeginKeepsInv(s: Sys, t: TxId, op: Op, now: int, s': Sys)
    requires Inv(s) && Step(s, Begin(t, op, now), s')
    ensures Inv(s')
  {
    BegunIsOk(s, op, now);
    hide TxsOk, IsRun, TxOk, Apart, Unguessed;
    OneTxChanges(s.db, s.txs, t, Begun(op, now));
  }

  lemma StatementKeepsInv(s: Sys, t: TxId, s': Sys)
    requires Inv(s) && Step(s, Statement(t), s')
    ensures Inv(s')
  {
    hide IsRun, TxOk, Apart, Exec, MustWait, FlagsOk, AtomicStep;
    CommittedIsSound(s);
    var tx := s.txs[t];
    StatementGoes(s.db, tx);
    match Exec(s.db, tx)
    case Go(tx') =>
      forall t' | t' in s.txs && t' != t ensures Apart(s.txs[t'], tx') && Apart(tx', s.txs[t']) {
        GoKeepsApart(s.db, tx, s.txs[t']);
      }
      OneTxChanges(s.db, s.txs, t, tx');
    case Fail(e) =>
      TxEnds(s.db, s.txs, t);
      HistoryGrows(s, Entry(tx.op, tx.now, Failed(e)), s.db);
    case Finish(a) =>
      TxEnds(s.db, s.txs, t);
      HistoryGrows(s, Entry(tx.op, tx.now, a), s.db);
  }

  lemma PickKeepsInv(s: Sys, t: TxId, m: MatchId, s': Sys)
    requires Inv(s) && Step(s, Pick(t, m), s')
    ensures Inv(s')
  {
    var tx := s.txs[t];
    var tx' := tx.(holds := tx.holds + {m});
    PickIsOk(s.db, tx, m);
    hide IsRun, TxOk;
    forall t' | t' in s.txs && t' != t ensures Apart(s.txs[t'], tx') && Apart(tx', s.txs[t']) {
      assert Apart(tx, s.txs[t']) && Apart(s.txs[t'], tx);
    }
    OneTxChanges(s.db, s.txs, t, tx');
  }

  lemma PickIsOk(db: Db, tx: Tx, m: MatchId)
    requires tx.op.ExpireDue? && TxOk(db, tx) && tx.pc.PickDue?
    requires m in DueMatches(db.matches, tx.now) && |tx.holds| < tx.op.limit
    ensures TxOk(db, tx.(holds := tx.holds + {m}))
  {
    if m !in tx.holds {
      assert |tx.holds + {m}| == |tx.holds| + 1;
    } else {
      assert tx.holds + {m} == tx.holds;
    }
  }

  lemma CommitKeepsInv(s: Sys, t: TxId, s': Sys)
    requires Inv(s) && Step(s, Commit(t), s')
    ensures Inv(s')
  {
    hide IsRun, TxOk, Apart, Merged, FlagsOk, AtomicStep, Undisturbed;
    CommittedIsSound(s);
    var tx := s.txs[t];
    var rest := s.txs - {t};
    TxEnds(s.db, s.txs, t);
    forall t' | t' in rest ensures Undisturbed(s.db, Merged(s.db, tx), rest[t']) {
      assert Apart(s.txs[t'], tx);
      CommitLeavesOthersUndisturbed(s.db, tx, rest[t']);
    }
    TxsStable(s.db, Merged(s.db, tx), rest);
    CommitIsAtomic(s.db, tx);
    HistoryGrows(s, Entry(tx.op, tx.now, tx.answer), Merged(s.db, tx));
  }

  lemma FileStepKeepsInv(s: Sys, op: Op, answer: Answer, db': Db, s': Sys)
    requires Inv(s) && Step(s, FileStep(op, answer, db'), s')
    ensures Inv(s')
  {
    hide IsRun, TxOk, Apart, AtomicStep, Undisturbed;
    forall t | t in s.txs ensures Undisturbed(s.db, db', s.txs[t]) {
      FileStepLeavesOthersUndisturbed(s.db, op, answer, db', s.txs[t]);
    }
    TxsStable(s.db, db', s.txs);
    HistoryGrows(s, Entry(op, 0, answer), db');
  }

  lemma StepKeepsInv(s: Sys, l: Label, s': Sys)
    requires Inv(s) && Step(s, l, s')
    ensures Inv(s')
  {
    hide Inv;
    match l
    case Begin(t, op, now) => BeginKeepsInv(s, t, op, now, s');
    case Statement(t) => StatementKeepsInv(s, t, s');
    case Pick(t, m) => PickKeepsInv(s, t, m, s');
    case Commit(t) => CommitKeepsInv(s, t, s');
    case Abort(t) => AbortKeepsInv(s, t);
    case FileStep(op, answer, db') => FileStepKeepsInv(s, op, answer, db', s');
  }

  lemma AbortKeepsInv(s: Sys, t: TxId)
    requires Inv(s)
    ensures Inv(Ended(s, t))
  {
    hide IsRun, TxsOk;
    TxEnds(s.db, s.txs, t);
  }

  lemma {:induction false} ReachableIsInv(trace: seq<Sys>, labels: seq<Label>, n: nat)
    requires IsTrace(trace, labels) && n < |trace|
    ensures Inv(trace[n])
  {
    if n == 0 {
      hide Step;
    } else {
      hide Step, Inv, Start0;
      ReachableIsInv(trace, labels, n - 1);
      assert Step(trace[n - 1], labels[n - 1], trace[n]);
      StepKeepsInv(trace[n - 1], labels[n - 1], trace[n]);
    }
  }

  /** Every interleaving of the statements of any number of transactions has the answers and the
      committed database of a run of whole operations, in the order the transactions ended. */
  lemma InterleavedIsAtomic(trace: seq<Sys>, labels: seq<Label>, n: nat)
    requires IsTrace(trace, labels) && n < |trace|
    ensures IsRun(trace[n].states, trace[n].log)
    ensures trace[n].states[|trace[n].log|] == trace[n].db
    ensures Sound(trace[n].db)
  {
    hide Step, IsRun, TxsOk, Sound;
    ReachableIsInv(trace, labels, n);
    LastStateIsSound(trace[n].states, trace[n].log);
  }

  /** So the races have one winner each, whatever the interleaving. */
  lemma RacesHaveOneWinner(trace: seq<Sys>, labels: seq<Label>, n: nat, m: MatchId)
    requires IsTrace(trace, labels) && n < |trace|
    ensures
      var s := StateOf(trace[n].db, m);
      && Count(trace[n].log, e => Starts(e, m)) == (if s == Some(Active) || s == Some(Judging) then 1 else 0)
      && Count(trace[n].log, e => Claims(e, m)) == (if s == Some(Judging) then 1 else 0)
  {
    hide Step, IsRun, Sound;
    InterleavedIsAtomic(trace, labels, n);
    StartedExactlyOnce(trace[n].states, trace[n].log, m);
    ClaimedExactlyOnce(trace[n].states, trace[n].log, m);
  }

  // The same, of what interleaved transactions commit.

  lemma StepGrowsHistory(s: Sys, l: Label, s': Sys)
    requires Step(s, l, s')
    ensures s.states <= s'.states && s.log <= s'.log
  {
    hide Exec, MustWait, AtomicStep, Unguessed, Merged;
  }

  lemma {:induction false} HistoryIsKept(trace: seq<Sys>, labels: seq<Label>, i: nat, j: nat)
    requires IsTrace(trace, labels) && i <= j < |trace|
    ensures trace[i].states <= trace[j].states && trace[i].log <= trace[j].log
    decreases j - i
  {
    hide Step;
    if i < j {
      HistoryIsKept(trace, labels, i, j - 1);
      assert Step(trace[j - 1], labels[j - 1], trace[j]);
      StepGrowsHistory(trace[j - 1], labels[j - 1], trace[j]);
    }
  }

  /** Where the database of an earlier moment stands in the history of a later one. */
  lemma EarlierDatabase(trace: seq<Sys>, labels: seq<Label>, i: nat, j: nat)
    requires IsTrace(trace, labels) && i <= j < |trace|
    ensures IsRun(trace[j].states, trace[j].log)
    ensures |trace[i].log| <= |trace[j].log| && |trace[j].states| == |trace[j].log| + 1
    ensures trace[j].states[|trace[i].log|] == trace[i].db
    ensures trace[j].states[|trace[j].log|] == trace[j].db
  {
    hide Step, IsRun, Sound;
    InterleavedIsAtomic(trace, labels, i);
    InterleavedIsAtomic(trace, labels, j);
    HistoryIsKept(trace, labels, i, j);
    RunLength(trace[j].states, trace[j].log);
    RunLength(trace[i].states, trace[i].log);
  }

  lemma RunLength(states: seq<Db>, log: seq<Entry>)
    requires IsRun(states, log)
    ensures |states| == |log| + 1
  {}

  /** Between any two moments of any interleaving a match only goes on through its life. */
  lemma InterleavedLifeOfAMatch(trace: seq<Sys>, labels: seq<Label>, i: nat, j: nat, m: MatchId)
    requires IsTrace(trace, labels) && i <= j < |trace|
    ensures Reaches(StateOf(trace[i].db, m), StateOf(trace[j].db, m))
  {
    hide Step, IsRun, Reaches;
    EarlierDatabase(trace, labels, i, j);
    LifeOfAMatch(trace[j].states, trace[j].log, |trace[i].log|, |trace[j].log|, m);
  }

  /** And whatever else was going on, the commit that starts a match gave both its players exactly the
      challenge's files, and set its clock. */
  lemma InterleavedStartIsFair(trace: seq<Sys>, labels: seq<Label>, n: nat, k: nat, m: MatchId)
    requires IsTrace(trace, labels) && n < |trace| && k < |trace[n].log| && Starts(trace[n].log[k], m)
    ensures k + 1 < |trace[n].states| && m in trace[n].states[k + 1].matches
    ensures
      var db := trace[n].states[k + 1];
      var r := db.matches[m];
      && |r.seats| == SLOTS && r.state.Active? && r.challenge in db.catalog
      && (forall u | u in r.seats :: TreeOf(db.trees, m, u) == db.catalog[r.challenge].files)
      && r.startedAt == Some(trace[n].log[k].now)
      && r.deadlineAt == Some(trace[n].log[k].now + db.catalog[r.challenge].duration)
  {
    hide Step, Sound, AtomicStep, ReadyUpStep;
    InterleavedIsAtomic(trace, labels, n);
    var states, log := trace[n].states, trace[n].log;
    EveryStateIsSound(states, log, k);
    assert AtomicStep(states[k], log[k].op, log[k].now, log[k].answer, states[k + 1]);
    StartIsItsStep(states[k], log[k], states[k + 1]);
    BothStartFromTheSameCode(states[k], m, log[k].op.user, log[k].now, log[k].answer.after, states[k + 1]);
    StartSetsTheClock(states, log, k, m);
    StepOf(states, log, k, m);
  }

  lemma StartIsItsStep(db: Db, e: Entry, db': Db)
    requires e.op.ReadyUp? && AtomicStep(db, e.op, e.now, e.answer, db')
    ensures (db', e.answer) == ReadyUpStep(db, e.op.m, e.op.user, e.now)
  {
    hide ReadyUpStep;
  }

  /** From the moment a match is with the judge its trees stay as they are. */
  lemma InterleavedTreesFreeze(trace: seq<Sys>, labels: seq<Label>, i: nat, j: nat, o: Owner)
    requires IsTrace(trace, labels) && i <= j < |trace| && StateOf(trace[i].db, o.match_) == Some(Judging)
    ensures TreeOf(trace[j].db.trees, o.match_, o.user) == TreeOf(trace[i].db.trees, o.match_, o.user)
  {
    hide Step, IsRun;
    EarlierDatabase(trace, labels, i, j);
    TreesFreezeAtJudging(trace[j].states, trace[j].log, |trace[i].log|, |trace[j].log|, o);
  }
}
