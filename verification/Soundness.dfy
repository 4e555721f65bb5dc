/** The invariant of the match store, and its preservation by every operation. */
module Soundness {
  import opened Rows
  import opened Transitions
  import Weights

  type Catalog = map<Key, Challenge>

  const MAX_CHALLENGE_FILES := 200
  const MAX_CHALLENGE_BYTES := 0x50_0000

  /** What LoadWorkspace and the schema promise of a registered challenge. */
  ghost predicate ChallengeOk(c: Challenge) {
    && c.duration > 0
    && |c.files| <= MAX_CHALLENGE_FILES
    && Weights.Total(c.files) <= MAX_CHALLENGE_BYTES
    && (forall p | p in c.files :: |c.files[p]| <= MAX_FILE_BYTES)
  }

  ghost predicate CatalogOk(catalog: Catalog) {
    forall k | k in catalog :: ChallengeOk(catalog[k])
  }

  /** One or two players in different seats, each carrying the right copy of "my match is unfinished". */
  ghost predicate SeatsOk(r: Match) {
    && 1 <= |r.seats| <= SLOTS
    && (forall u | u in r.seats :: r.seats[u].slot == 1 || r.seats[u].slot == 2)
    && (forall u, v | u in r.seats && v in r.seats && u != v :: r.seats[u].slot != r.seats[v].slot)
    && (forall u | u in r.seats :: r.seats[u].unfinished == Unfinished(r.state))
  }

  /** The clock is whole, is set exactly when the match has been played, and lasts what the challenge
      says. */
  ghost predicate ClockOk(catalog: Catalog, r: Match) {
    && r.challenge in catalog
    && (r.startedAt.Some? <==> r.state.Active? || r.state.Judging?)
    && (r.deadlineAt.Some? <==> r.startedAt.Some?)
    && (r.startedAt.Some? ==> r.deadlineAt.value == r.startedAt.value + catalog[r.challenge].duration)
    && (r.endedAt.Some? <==> r.state.Abandoned?)
  }

  ghost predicate NoneSubmitted(r: Match) {
    forall u | u in r.seats :: r.seats[u].submittedAt.None?
  }

  /** A full lobby with both players ready does not exist, nor an active match with both done: the
      call that completes the pair moves the match. */
  ghost predicate ProgressOk(r: Match) {
    && !r.state.Complete?
    && (r.state.Active? || r.state.Judging? ==> |r.seats| == SLOTS && AllReady(r))
    && (r.state.Lobby? ==> !(|r.seats| == SLOTS && AllReady(r)))
    && (r.state.Active? ==> !AllSubmitted(r))
    && (r.state.Lobby? || r.state.Abandoned? ==> NoneSubmitted(r))
  }

  ghost predicate MatchOk(catalog: Catalog, r: Match) {
    SeatsOk(r) && ClockOk(catalog, r) && ProgressOk(r)
  }

  ghost predicate MatchesOk(catalog: Catalog, ms: Matches) {
    forall m | m in ms :: MatchOk(catalog, ms[m])
  }

  ghost predicate CodesUnique(ms: Matches) {
    forall m, n, code :: OpenLobby(ms, m, code) && OpenLobby(ms, n, code) ==> m == n
  }

  ghost predicate OneUnfinishedSeat(ms: Matches) {
    forall m, n, u :: UnfinishedSeat(ms, m, u) && UnfinishedSeat(ms, n, u) ==> m == n
  }

  /** Numbered 1..event_seq, without a gap. */
  ghost predicate LogOk(l: Log) {
    && |l.events| == l.eventSeq
    && (forall i | 0 <= i < |l.events| :: l.events[i].number == i + 1)
  }

  ghost predicate LogsOk(ids: set<MatchId>, logs: map<MatchId, Log>) {
    && logs.Keys == ids
    && (forall m | m in logs :: LogOk(logs[m]))
  }

  ghost predicate TreeOk(tree: Tree) {
    && |tree| <= MAX_WORKSPACE_FILES
    && Weights.Total(tree) <= MAX_WORKSPACE_BYTES
    && (forall p | p in tree :: |tree[p]| <= MAX_FILE_BYTES)
  }

  ghost predicate Played(ms: Matches, o: Owner) {
    && o.match_ in ms && o.user in ms[o.match_].seats
    && (ms[o.match_].state.Active? || ms[o.match_].state.Judging?)
  }

  /** Workspace rows exist only for the players of a match that has started. */
  ghost predicate TreesOk(ms: Matches, trees: map<Owner, Tree>) {
    && (forall o | o in trees :: Played(ms, o))
    && (forall o | o in trees :: TreeOk(trees[o]))
  }

  ghost predicate Sound(db: Db) {
    && CatalogOk(db.catalog)
    && MatchesOk(db.catalog, db.matches)
    && CodesUnique(db.matches)
    && OneUnfinishedSeat(db.matches)
    && LogsOk(db.matches.Keys, db.logs)
    && TreesOk(db.matches, db.trees)
  }

  /** A database with users and challenges, before any lobby is opened. */
  ghost predicate Initial(db: Db) {
    db.matches == map[] && db.logs == map[] && db.trees == map[] && CatalogOk(db.catalog)
  }

  lemma InitialIsSound(db: Db)
    requires Initial(db)
    ensures Sound(db)
  {}

  /** A code names at most one open lobby. */
  lemma OnlyLobbyOfItsCode(db: Db, m: MatchId, code: Code)
    requires Sound(db) && OpenLobby(db.matches, m, code)
    ensures forall n | OpenLobby(db.matches, n, code) :: n == m
  {
    hide MatchesOk, LogsOk, TreesOk, CatalogOk, OneUnfinishedSeat;
  }

  // Seats.

  /** Two distinct slots out of two: a seat is free exactly when there is one player. */
  lemma FreeSlotMeansRoom(r: Match)
    requires SeatsOk(r)
    ensures FreeSlot(r).Some? <==> |r.seats| < SLOTS
    ensures FreeSlot(r).Some? ==> FreeSlot(r).value in {1, 2} && !SlotTaken(r, FreeSlot(r).value)
  {
    var a :| a in r.seats;
    var others := r.seats.Keys - {a};
    assert |others| == |r.seats| - 1;
    if |r.seats| == 1 {
      assert r.seats.Keys == {a};
    } else {
      var b :| b in others;
      assert r.seats[a].slot != r.seats[b].slot;
    }
  }

  /** Seats keep their players and slots. */
  ghost predicate SameSlots(r: Match, r': Match) {
    && r'.seats.Keys == r.seats.Keys
    && (forall u | u in r.seats :: r'.seats[u].slot == r.seats[u].slot)
  }

  lemma SameSlotsKeepSeats(r: Match, r': Match)
    requires SeatsOk(r) && SameSlots(r, r')
    requires forall u | u in r'.seats :: r'.seats[u].unfinished == Unfinished(r'.state)
    ensures SeatsOk(r') && |r'.seats| == |r.seats|
  {
    assert |r'.seats.Keys| == |r.seats.Keys|;
  }

  lemma SyncKeepsSeats(r: Match, s: State)
    requires SeatsOk(r)
    ensures SeatsOk(WithState(r, s)) && SameSlots(r, WithState(r, s))
    ensures |WithState(r, s).seats| == |r.seats|
    ensures AllReady(WithState(r, s)) == AllReady(r)
    ensures AllSubmitted(WithState(r, s)) == AllSubmitted(r)
    ensures NoneSubmitted(WithState(r, s)) == NoneSubmitted(r)
  {
    var r' := WithState(r, s);
    assert r'.seats.Keys == r.seats.Keys;
    SameSlotsKeepSeats(r, r');
    assert forall u | u in r.seats ::
        r'.seats[u].readyAt == r.seats[u].readyAt && r'.seats[u].submittedAt == r.seats[u].submittedAt;
  }

  // The rows of one match, one statement at a time.

  lemma FirstSeatOk(catalog: Catalog, key: Key, code: Code, u: UserId)
    requires key in catalog
    ensures MatchOk(catalog, WithSeat(NewMatch(key, code), u, 1))
  {
    var r := WithSeat(NewMatch(key, code), u, 1);
    assert r.seats.Keys == {u};
  }

  lemma NewSeatOk(catalog: Catalog, r: Match, u: UserId)
    requires MatchOk(catalog, r) && r.state.Lobby? && u !in r.seats && FreeSlot(r).Some?
    ensures MatchOk(catalog, WithSeat(r, u, FreeSlot(r).value))
  {
    FreeSlotMeansRoom(r);
    var r' := WithSeat(r, u, FreeSlot(r).value);
    assert |r'.seats| == |r.seats| + 1;
    assert r'.seats[u].readyAt.None?;
    assert forall v | v in r.seats :: r'.seats[v] == r.seats[v];
  }

  lemma MarkReadyOk(catalog: Catalog, r: Match, u: UserId, now: int)
    requires MatchOk(catalog, r) && r.state.Lobby?
    ensures
      var ready := MarkReady(r, u, now);
      && SeatsOk(ready) && ClockOk(catalog, ready) && SameSlots(r, ready) && |ready.seats| == |r.seats|
      && NoneSubmitted(ready)
      && (!CanStart(catalog, ready) ==> MatchOk(catalog, ready))
  {
    SameSlotsKeepSeats(r, MarkReady(r, u, now));
  }

  lemma StartOk(catalog: Catalog, r: Match, now: int)
    requires SeatsOk(r) && ClockOk(catalog, r) && NoneSubmitted(r) && CanStart(catalog, r)
    ensures MatchOk(catalog, Start(r, catalog[r.challenge].duration, now))
    ensures SameSlots(r, Start(r, catalog[r.challenge].duration, now))
  {
    SyncKeepsSeats(r, Active);
    var started := Start(r, catalog[r.challenge].duration, now);
    var u :| u in started.seats;
    assert started.seats[u].submittedAt.None?;
    SameSlotsKeepSeats(r, started);
  }

  lemma MarkSubmittedOk(catalog: Catalog, r: Match, u: UserId, now: int)
    requires MatchOk(catalog, r) && r.state.Active?
    ensures
      var done := MarkSubmitted(r, u, now);
      && SeatsOk(done) && ClockOk(catalog, done) && SameSlots(r, done) && |done.seats| == |r.seats|
      && AllReady(done)
      && (!CanFinish(done) ==> MatchOk(catalog, done))
  {
    SameSlotsKeepSeats(r, MarkSubmitted(r, u, now));
  }

  lemma JudgeOk(catalog: Catalog, r: Match)
    requires SeatsOk(r) && ClockOk(catalog, r) && r.state.Active? && |r.seats| == SLOTS && AllReady(r)
    ensures MatchOk(catalog, Judge(r)) && SameSlots(r, Judge(r))
  {
    SyncKeepsSeats(r, Judging);
  }

  lemma AbandonOk(catalog: Catalog, r: Match, now: int)
    requires MatchOk(catalog, r) && r.state.Lobby?
    ensures MatchOk(catalog, Abandon(r, now)) && SameSlots(r, Abandon(r, now))
  {
    SyncKeepsSeats(r, Abandoned);
    SameSlotsKeepSeats(r, Abandon(r, now));
  }

  // Writing one match back.

  /** r' opens no lobby, takes no membership and gives no tree away. */
  ghost predicate Releases(r: Match, r': Match) {
    && r'.seats.Keys == r.seats.Keys
    && r'.code == r.code
    && (r'.state.Lobby? ==> r.state.Lobby?)
    && (Unfinished(r'.state) ==> Unfinished(r.state))
    && (r.state.Active? || r.state.Judging? ==> r'.state.Active? || r'.state.Judging?)
  }

  lemma OneMatchChanges(catalog: Catalog, ms: Matches, m: MatchId, r: Match)
    requires MatchesOk(catalog, ms) && MatchOk(catalog, r)
    ensures MatchesOk(catalog, ms[m := r])
  {}

  lemma ReleaseKeepsIndexes(catalog: Catalog, ms: Matches, m: MatchId, r: Match)
    requires CodesUnique(ms) && OneUnfinishedSeat(ms) && MatchesOk(catalog, ms)
    requires m in ms && Releases(ms[m], r) && MatchOk(catalog, r)
    ensures CodesUnique(ms[m := r]) && OneUnfinishedSeat(ms[m := r])
  {
    var ms' := ms[m := r];
    assert MatchOk(catalog, ms[m]);
    forall a, b, code | OpenLobby(ms', a, code) && OpenLobby(ms', b, code) ensures a == b {
      assert OpenLobby(ms, a, code) && OpenLobby(ms, b, code);
    }
    forall a, b, u | UnfinishedSeat(ms', a, u) && UnfinishedSeat(ms', b, u) ensures a == b {
      assert UnfinishedSeat(ms, a, u) && UnfinishedSeat(ms, b, u);
    }
  }

  lemma TreesStay(ms: Matches, ms': Matches, trees: map<Owner, Tree>)
    requires TreesOk(ms, trees)
    requires forall o | Played(ms, o) :: Played(ms', o)
    ensures TreesOk(ms', trees)
  {}

  lemma WriteBack(db: Db, m: MatchId, r: Match)
    requires Sound(db) && m in db.matches
    requires MatchOk(db.catalog, r) && Releases(db.matches[m], r)
    ensures Sound(WithMatch(db, m, r))
  {
    hide MatchOk, TreeOk, CodesUnique, OneUnfinishedSeat;
    OneMatchChanges(db.catalog, db.matches, m, r);
    ReleaseKeepsIndexes(db.catalog, db.matches, m, r);
    TreesStay(db.matches, db.matches[m := r], db.trees);
    assert db.matches[m := r].Keys == db.matches.Keys;
  }

  lemma SeatKeepsIndexes(ms: Matches, m: MatchId, r: Match, u: UserId, slot: int)
    requires CodesUnique(ms) && OneUnfinishedSeat(ms) && !UserTaken(ms, u)
    requires if m in ms then r == ms[m] else r.seats == map[] && !CodeTaken(ms, r.code)
    ensures CodesUnique(ms[m := WithSeat(r, u, slot)])
    ensures OneUnfinishedSeat(ms[m := WithSeat(r, u, slot)])
  {
    var ms' := ms[m := WithSeat(r, u, slot)];
    forall n, code | OpenLobby(ms', n, code) && n != m ensures OpenLobby(ms, n, code) {}
    forall n, v | UnfinishedSeat(ms', n, v) && !(n == m && v == u) ensures UnfinishedSeat(ms, n, v) {}
    assert forall n :: !UnfinishedSeat(ms, n, u);
    assert m !in ms ==> forall n :: !OpenLobby(ms, n, r.code);
    assert m in ms ==> forall code :: OpenLobby(ms', m, code) ==> OpenLobby(ms, m, code);
  }

  // One lemma per operation.

  lemma NewLogOk(ids: set<MatchId>, logs: map<MatchId, Log>, id: MatchId)
    requires LogsOk(ids, logs)
    ensures LogsOk(ids + {id}, logs[id := Log(0, [])])
  {}

  /** A match row with one player more, everything but the logs. */
  lemma WriteSeat(db: Db, m: MatchId, r: Match)
    requires Sound(db) && MatchOk(db.catalog, r) && r.state.Lobby?
    requires m in db.matches ==> db.matches[m].state.Lobby?
    requires CodesUnique(db.matches[m := r]) && OneUnfinishedSeat(db.matches[m := r])
    ensures MatchesOk(db.catalog, db.matches[m := r]) && TreesOk(db.matches[m := r], db.trees)
    ensures db.matches[m := r].Keys == db.matches.Keys + {m}
  {
    hide MatchOk, TreeOk;
    OneMatchChanges(db.catalog, db.matches, m, r);
    TreesStay(db.matches, db.matches[m := r], db.trees);
  }

  lemma CreateLobbyKeeps(db: Db, id: MatchId, host: UserId, key: Key, code: Code)
    requires Sound(db) && id !in db.matches
    ensures Sound(CreateLobbyStep(db, id, host, key, code).0)
  {
    var (db', answer) := CreateLobbyStep(db, id, host, key, code);
    if answer.Shown? {
      FirstSeatOk(db.catalog, key, code, host);
      SeatKeepsIndexes(db.matches, id, NewMatch(key, code), host, 1);
      WriteSeat(db, id, answer.shown);
      NewLogOk(db.matches.Keys, db.logs, id);
    }
  }

  lemma JoinLobbyKeeps(db: Db, m: MatchId, u: UserId)
    requires Sound(db) && m in db.matches && db.matches[m].state.Lobby?
    ensures Sound(JoinLobbyStep(db, m, u).0)
  {
    hide CodesUnique, OneUnfinishedSeat, TreesOk, CatalogOk, MatchOk;
    var r := db.matches[m];
    var (db', answer) := JoinLobbyStep(db, m, u);
    if answer.Shown? && u !in r.seats {
      NewSeatOk(db.catalog, r, u);
      SeatKeepsIndexes(db.matches, m, r, u, FreeSlot(r).value);
      WriteSeat(db, m, answer.shown);
      assert db.matches.Keys + {m} == db.matches.Keys;
    }
  }

  lemma CancelLobbyKeeps(db: Db, m: MatchId, u: UserId, now: int)
    requires Sound(db)
    ensures Sound(CancelLobbyStep(db, m, u, now).0)
  {
    if Seated(db.matches, m, u) && db.matches[m].state.Lobby? {
      AbandonOk(db.catalog, db.matches[m], now);
      WriteBack(db, m, Abandon(db.matches[m], now));
    }
  }

  /** Seeding meets no row: while the match is a lobby its players have no tree. */
  lemma SeedingIsExact(ms: Matches, trees: map<Owner, Tree>, m: MatchId, r: Match, files: Tree)
    requires TreesOk(ms, trees) && m in ms && ms[m].state.Lobby?
    ensures SeedRows(trees, m, r, files) == map o | o in Owners(m, r.seats.Keys) :: files
    ensures forall u :: Owner(m, u) !in trees
  {
    hide TreeOk;
    forall u ensures Owner(m, u) !in trees && Seeded(files, TreeOf(trees, m, u)) == files {
      assert Owner(m, u) in trees ==> Played(ms, Owner(m, u));
      assert files + map[] == files;
    }
  }

  lemma FilesFit(c: Challenge)
    requires ChallengeOk(c)
    ensures TreeOk(c.files)
  {}

  lemma MoreTreesOk(ms: Matches, trees: map<Owner, Tree>, more: map<Owner, Tree>)
    requires TreesOk(ms, trees) && TreesOk(ms, more)
    ensures TreesOk(ms, trees + more)
  {
    hide Played, TreeOk;
  }

  lemma StartingLetsTreesIn(ms: Matches, trees: map<Owner, Tree>, m: MatchId, r: Match, files: Tree)
    requires TreesOk(ms, trees) && m in ms && ms[m].state.Lobby? && TreeOk(files) && r.state.Active?
    ensures TreesOk(ms[m := r], trees)
    ensures TreesOk(ms[m := r], map o | o in Owners(m, r.seats.Keys) :: files)
  {
    hide TreeOk;
    TreesStay(ms, ms[m := r], trees);
  }

  lemma SeededTreesOk(ms: Matches, trees: map<Owner, Tree>, m: MatchId, r: Match, c: Challenge)
    requires TreesOk(ms, trees) && m in ms && ms[m].state.Lobby? && ChallengeOk(c) && r.state.Active?
    ensures TreesOk(ms[m := r], trees + SeedRows(trees, m, r, c.files))
  {
    FilesFit(c);
    StartingLetsTreesIn(ms, trees, m, r, c.files);
    SeedingIsExact(ms, trees, m, r, c.files);
    hide TreesOk, SeedRows, ChallengeOk, TreeOk;
    MoreTreesOk(ms[m := r], trees, SeedRows(trees, m, r, c.files));
  }

  lemma ReadyingReleases(r: Match, u: UserId, now: int, duration: int)
    requires r.state.Lobby?
    ensures Releases(r, MarkReady(r, u, now))
    ensures Releases(r, Start(MarkReady(r, u, now), duration, now))
    ensures Start(MarkReady(r, u, now), duration, now).state.Active?
  {}

  lemma ReadyUpKeeps(db: Db, m: MatchId, u: UserId, now: int)
    requires Sound(db)
    ensures Sound(ReadyUpStep(db, m, u, now).0)
  {
    hide CodesUnique, OneUnfinishedSeat, TreesOk, LogsOk, ChallengeOk, SeedsSomething, SeedRows, MarkReady, Start,
      Releases, SeatsOk, NoneSubmitted, ProgressOk, ClockOk, SameSlots, AllReady;
    var (db', answer) := ReadyUpStep(db, m, u, now);
    if answer.Moved? {
      var r := db.matches[m];
      MarkReadyOk(db.catalog, r, u, now);
      if !answer.moved {
        ReadyingReleases(r, u, now, 0);
        WriteBack(db, m, answer.after);
      } else {
        var ready := MarkReady(r, u, now);
        ReadyingKeepsTheChallenge(r, u, now);
        ReadyingReleases(r, u, now, db.catalog[r.challenge].duration);
        StartOk(db.catalog, ready, now);
        WriteBack(db, m, answer.after);
        SeededTreesOk(db.matches, db.trees, m, answer.after, db.catalog[r.challenge]);
      }
    }
  }

  lemma ReadyingKeepsTheChallenge(r: Match, u: UserId, now: int)
    ensures MarkReady(r, u, now).challenge == r.challenge
  {}

  lemma SubmittingReleases(r: Match, u: UserId, now: int)
    requires r.state.Active?
    ensures Releases(r, MarkSubmitted(r, u, now))
    ensures Releases(r, Judge(MarkSubmitted(r, u, now)))
    ensures MarkSubmitted(r, u, now).state.Active?
  {}

  lemma SubmitKeeps(db: Db, m: MatchId, u: UserId, now: int)
    requires Sound(db)
    ensures Sound(SubmitStep(db, m, u, now).0)
  {
    hide CodesUnique, OneUnfinishedSeat, TreesOk, LogsOk, ChallengeOk, MarkSubmitted, Judge, Releases, SeatsOk,
      ClockOk, SameSlots, AllReady, AllSubmitted;
    var (db', answer) := SubmitStep(db, m, u, now);
    if answer.Moved? {
      var r := db.matches[m];
      MarkSubmittedOk(db.catalog, r, u, now);
      SubmittingReleases(r, u, now);
      if answer.moved {
        JudgeOk(db.catalog, MarkSubmitted(r, u, now));
      }
      WriteBack(db, m, answer.after);
    }
  }

  lemma JudgingKeeps(db: Db, m: MatchId)
    requires Sound(db) && m in db.matches && db.matches[m].state.Active?
    ensures Sound(WithMatch(db, m, Judge(db.matches[m])))
  {
    assert MatchOk(db.catalog, db.matches[m]);
    JudgeOk(db.catalog, db.matches[m]);
    hide Sound;
    WriteBack(db, m, Judge(db.matches[m]));
  }

  lemma ExpireKeeps(db: Db, m: MatchId, now: int)
    requires Sound(db)
    ensures Sound(ExpireStep(db, m, now).0)
  {
    hide Sound;
    if m in db.matches && Due(db.matches[m], now) {
      JudgingKeeps(db, m);
    }
  }

  lemma {:induction false} SweepKeeps(db: Db, swept: set<MatchId>)
    requires Sound(db)
    requires forall m | m in swept :: m in db.matches && db.matches[m].state.Active?
    ensures Sound(db.(matches := Swept(db.matches, swept)))
    decreases |swept|
  {
    hide Sound;
    if swept == {} {
      assert Swept(db.matches, swept) == db.matches;
    } else {
      var m :| m in swept;
      JudgingKeeps(db, m);
      SweepKeeps(WithMatch(db, m, Judge(db.matches[m])), swept - {m});
      SweepOneByOne(db.matches, swept, m);
    }
  }

  lemma SweepOneByOne(ms: Matches, swept: set<MatchId>, m: MatchId)
    requires m in swept && m in ms
    ensures Swept(ms[m := Judge(ms[m])], swept - {m}) == Swept(ms, swept)
  {}

  lemma AppendEventKeeps(db: Db, m: MatchId, kind: string, payload: string)
    requires Sound(db)
    ensures Sound(AppendEventStep(db, m, kind, payload).0)
  {
    hide MatchesOk, CodesUnique, OneUnfinishedSeat, TreesOk, CatalogOk, LogOk;
    if m in db.logs {
      assert LogOk(db.logs[m]);
      WithEventOk(db.logs[m], kind, Payload(payload));
    }
  }

  lemma WithEventOk(l: Log, kind: string, payload: string)
    requires LogOk(l)
    ensures LogOk(WithEvent(l, kind, payload))
  {
    var l' := WithEvent(l, kind, payload);
    forall i | 0 <= i < |l'.events| ensures l'.events[i].number == i + 1 {
      assert i < |l.events| ==> l'.events[i] == l.events[i];
    }
  }

  lemma WriteTree(ms: Matches, trees: map<Owner, Tree>, o: Owner, tree: Tree)
    requires TreesOk(ms, trees) && Played(ms, o) && TreeOk(tree)
    ensures TreesOk(ms, trees[o := tree])
  {}

  lemma WriteFileKeeps(db: Db, m: MatchId, u: UserId, path: Path, content: Content)
    requires Sound(db)
    ensures Sound(WriteFileStep(db, m, u, path, content).0)
  {
    hide MatchesOk, CodesUnique, OneUnfinishedSeat, CatalogOk, LogsOk;
    if WriteFileStep(db, m, u, path, content).1 == Done {
      var tree := TreeOf(db.trees, m, u);
      assert tree == map[] || TreeOk(tree);
      Weights.Replace(tree, path, content);
      WriteTree(db.matches, db.trees, Owner(m, u), tree[path := content]);
    }
  }

  lemma DeleteFileKeeps(db: Db, m: MatchId, u: UserId, path: Path)
    requires Sound(db)
    ensures Sound(DeleteFileStep(db, m, u, path).0)
  {
    hide MatchesOk, CodesUnique, OneUnfinishedSeat, CatalogOk, LogsOk;
    if DeleteFileStep(db, m, u, path).1 == Done {
      var tree := TreeOf(db.trees, m, u);
      assert tree == map[] || TreeOk(tree);
      Weights.Without(tree, path);
      assert |(tree - {path}).Keys| <= |tree.Keys| by {
        Weights.Subset((tree - {path}).Keys, tree.Keys);
      }
      WriteTree(db.matches, db.trees, Owner(m, u), tree - {path});
    }
  }

  /** Every operation, in any database the invariant holds of, keeps the invariant. */
  lemma EveryStepKeepsSound(db: Db, op: Op, now: int, answer: Answer, db': Db)
    requires Sound(db) && AtomicStep(db, op, now, answer, db')
    ensures Sound(db')
  {
    hide Sound, CreateLobbyStep, JoinLobbyStep, CancelLobbyStep, ReadyUpStep, SubmitStep, WriteFileStep, DeleteFileStep;
    match op
    case CreateLobby(id, host, key, code) => CreateLobbyKeeps(db, id, host, key, code);
    case JoinLobby(u, code) =>
      if CodeTaken(db.matches, code) {
        var m :| OpenLobby(db.matches, m, code) && (db', answer) == JoinLobbyStep(db, m, u);
        JoinLobbyKeeps(db, m, u);
      }
    case CancelLobby(m, u) => CancelLobbyKeeps(db, m, u, now);
    case ReadyUp(m, u) => ReadyUpKeeps(db, m, u, now);
    case Submit(m, u) => SubmitKeeps(db, m, u, now);
    case Expire(m) => ExpireKeeps(db, m, now);
    case ExpireDue(limit) =>
      if limit >= 0 {
        assert forall m | m in answer.swept :: m in DueMatches(db.matches, now);
        SweepKeeps(db, answer.swept);
      }
    case AppendEvent(m, kind, payload) => AppendEventKeeps(db, m, kind, payload);
    case WriteFile(m, u, path, content) => WriteFileKeeps(db, m, u, path, content);
    case DeleteFile(m, u, path) => DeleteFileKeeps(db, m, u, path);
  }
}
