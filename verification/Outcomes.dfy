/**
 What each call of the match store does, in terms a caller can check beforehand: every answer exactly
 when it is due, and what is different afterwards.
 */
module Outcomes {
  import opened Prelude
  import opened Rows
  import opened Transitions
  import opened Soundness
  import opened Text
  import Paths
  import Runs
  import Weights

  ghost predicate OthersReady(r: Match, u: UserId) {
    forall v | v in r.seats && v != u :: r.seats[v].readyAt.Some?
  }

  ghost predicate OthersSubmitted(r: Match, u: UserId) {
    forall v | v in r.seats && v != u :: r.seats[v].submittedAt.Some?
  }

  /** The first time stays. */
  function Stamp(was: Option<int>, now: int): Option<int> {
    if was.Some? then was else Some(now)
  }

  /** Only u's ready mark is new. */
  ghost predicate OnlyReadied(r: Match, r': Match, u: UserId, now: int) {
    && r'.seats.Keys == r.seats.Keys && u in r.seats
    && forall v | v in r.seats ::
         && r'.seats[v].slot == r.seats[v].slot && r'.seats[v].submittedAt == r.seats[v].submittedAt
         && r'.seats[v].readyAt == if v == u then Stamp(r.seats[v].readyAt, now) else r.seats[v].readyAt
  }

  /** Only u's submission is new. */
  ghost predicate OnlySubmitted(r: Match, r': Match, u: UserId, now: int) {
    && r'.seats.Keys == r.seats.Keys && u in r.seats
    && forall v | v in r.seats ::
         && r'.seats[v].slot == r.seats[v].slot && r'.seats[v].readyAt == r.seats[v].readyAt
         && r'.seats[v].submittedAt == if v == u then Stamp(r.seats[v].submittedAt, now) else r.seats[v].submittedAt
  }

  /** No seat's player, slot or marks differ. */
  ghost predicate SameMarks(r: Match, r': Match) {
    && r'.seats.Keys == r.seats.Keys
    && forall v | v in r.seats ::
         && r'.seats[v].slot == r.seats[v].slot && r'.seats[v].readyAt == r.seats[v].readyAt
         && r'.seats[v].submittedAt == r.seats[v].submittedAt
  }

  ghost predicate OtherMatchesStay(db: Db, db': Db, m: MatchId) {
    && db'.users == db.users && db'.catalog == db.catalog
    && forall n | n != m ::
         (n in db'.matches <==> n in db.matches) && (n in db.matches ==> db'.matches[n] == db.matches[n])
  }

  lemma OneRowWritten(db: Db, m: MatchId, r: Match)
    ensures OtherMatchesStay(db, WithMatch(db, m, r), m)
  {}

  // Lobbies.

  lemma CreateLobbyAnswers(db: Db, id: MatchId, host: UserId, key: Key, code: Code)
    requires id !in db.matches
    ensures
      var (db', answer) := CreateLobbyStep(db, id, host, key, code);
      && (answer == Failed(LobbyCodeTaken) <==> code != "" && CodeTaken(db.matches, code))
      && (answer == Failed(InUnfinishedMatch) <==>
            code != "" && !CodeTaken(db.matches, code) && key in db.catalog && UserTaken(db.matches, host))
      && (answer.Shown? <==>
            && code != "" && !CodeTaken(db.matches, code) && key in db.catalog
            && !UserTaken(db.matches, host) && host in db.users)
      && (answer.Shown? ==>
            && id in db'.matches && answer == Shown(id, db'.matches[id])
            && db'.matches[id]
               == Match(code, key, Lobby, None, None, None, map[host := Seat(1, None, None, true)])
            && OtherMatchesStay(db, db', id) && db'.trees == db.trees && db'.logs == db.logs[id := Log(0, [])])
      && (answer.Failed? ==> db' == db)
  {
    HostsSeat(key, code, host);
    hide CodeTaken, UserTaken, WithSeat, NewMatch;
  }

  lemma HostsSeat(key: Key, code: Code, host: UserId)
    ensures WithSeat(NewMatch(key, code), host, 1)
            == Match(code, key, Lobby, None, None, None, map[host := Seat(1, None, None, true)])
  {}

  lemma JoinLobbyAnswers(db: Db, m: MatchId, u: UserId)
    requires Sound(db) && m in db.matches && db.matches[m].state.Lobby?
    ensures
      var r := db.matches[m];
      var (db', answer) := JoinLobbyStep(db, m, u);
      && (answer == Failed(LobbyFull) <==> u !in r.seats && |r.seats| == SLOTS)
      && (answer == Failed(InUnfinishedMatch) <==> u !in r.seats && |r.seats| == 1 && UserTaken(db.matches, u))
      && (answer.Shown? <==>
            u in r.seats || (|r.seats| == 1 && !UserTaken(db.matches, u) && u in db.users))
      && (u in r.seats ==> answer == Shown(m, r) && db' == db)
      && (answer.Shown? || (answer.Failed? && answer != Failed(NotFound) && db' == db))
  {
    SoundSeats(db, m);
    FreeSlotMeansRoom(db.matches[m]);
    SeatsAreOneOrTwo(db.matches[m]);
    hide Sound, SeatsOk, ClockOk, ProgressOk, UserTaken, FreeSlot, WithSeat;
  }

  /** A newcomer takes the free seat and nothing else changes. */
  ghost predicate OnlyJoined(r: Match, r': Match, u: UserId) {
    && r' == r.(seats := r'.seats)
    && r'.seats.Keys == r.seats.Keys + {u}
    && r'.seats[u].readyAt.None? && r'.seats[u].submittedAt.None?
    && (forall v | v in r.seats :: r'.seats[v] == r.seats[v] && r'.seats[v].slot != r'.seats[u].slot)
  }

  lemma JoiningTakesTheFreeSeat(db: Db, m: MatchId, u: UserId)
    requires Sound(db) && m in db.matches && db.matches[m].state.Lobby?
    requires u !in db.matches[m].seats && JoinLobbyStep(db, m, u).1.Shown?
    ensures
      var (db', answer) := JoinLobbyStep(db, m, u);
      && m in db'.matches && answer == Shown(m, db'.matches[m])
      && OnlyJoined(db.matches[m], db'.matches[m], u)
      && db' == db.(matches := db.matches[m := db'.matches[m]])
  {
    hide Sound, SeatsOk, UserTaken, FreeSlot, WithSeat, OnlyJoined;
    SoundSeats(db, m);
    FreeSlotMeansRoom(db.matches[m]);
    if FreeSlot(db.matches[m]).Some? {
      SeatTaken(db.matches[m], u, FreeSlot(db.matches[m]).value);
    }
  }

  lemma SoundSeats(db: Db, m: MatchId)
    requires Sound(db) && m in db.matches
    ensures SeatsOk(db.matches[m])
  {
    hide CodesUnique, OneUnfinishedSeat, LogsOk, TreesOk, CatalogOk, SeatsOk, ClockOk, ProgressOk;
    assert MatchOk(db.catalog, db.matches[m]);
  }

  lemma SeatTaken(r: Match, u: UserId, slot: int)
    requires u !in r.seats && !SlotTaken(r, slot)
    ensures OnlyJoined(r, WithSeat(r, u, slot), u)
  {}

  lemma JoinFindsTheLobby(db: Db, u: UserId, code: Code, now: int, answer: Answer, db': Db)
    requires Sound(db) && AtomicStep(db, JoinLobby(u, code), now, answer, db')
    ensures (forall m :: !OpenLobby(db.matches, m, code)) ==> db' == db && answer == Failed(NotFound)
    ensures forall m | OpenLobby(db.matches, m, code) :: (db', answer) == JoinLobbyStep(db, m, u)
  {
    hide Sound, JoinLobbyStep;
    if CodeTaken(db.matches, code) {
      var m :| OpenLobby(db.matches, m, code) && (db', answer) == JoinLobbyStep(db, m, u);
      OnlyLobbyOfItsCode(db, m, code);
    } else {
      NoLobbyHasIt(db, code);
    }
  }

  lemma NoLobbyHasIt(db: Db, code: Code)
    requires !CodeTaken(db.matches, code)
    ensures forall m :: !OpenLobby(db.matches, m, code)
  {}

  lemma JoinShowsItsLobby(db: Db, m: MatchId, u: UserId)
    requires Sound(db) && m in db.matches && db.matches[m].state.Lobby?
    ensures
      var (db', answer) := JoinLobbyStep(db, m, u);
      && (answer.Shown? || answer.Failed?) && answer != Failed(NotFound)
      && (answer.Shown? ==>
            && answer.id == m && m in db'.matches && answer.shown == db'.matches[m] && u in answer.shown.seats
            && db' == db.(matches := db.matches[m := answer.shown]))
  {
    hide Sound, JoinLobbyStep, UserTaken;
    JoinLobbyAnswers(db, m, u);
    if u !in db.matches[m].seats && JoinLobbyStep(db, m, u).1.Shown? {
      JoiningTakesTheFreeSeat(db, m, u);
    } else {
      assert db.matches == db.matches[m := db.matches[m]];
    }
  }

  /** The lobby joined is the open one the code names, nothing else changes, and exactly a code that names
      none is not found. */
  lemma JoinLobbyGoesByCode(db: Db, u: UserId, code: Code, now: int, answer: Answer, db': Db)
    requires Sound(db) && AtomicStep(db, JoinLobby(u, code), now, answer, db')
    ensures answer == Failed(NotFound) <==>
              forall m | m in db.matches :: !(db.matches[m].state.Lobby? && db.matches[m].code == code)
    ensures forall m | m in db.matches && db.matches[m].state.Lobby? && db.matches[m].code == code ::
              && (answer == Failed(LobbyFull) <==> u !in db.matches[m].seats && |db.matches[m].seats| == SLOTS)
              && (answer.Shown? ==>
                    && answer.id == m && m in db'.matches && answer.shown == db'.matches[m] && u in answer.shown.seats
                    && db' == db.(matches := db.matches[m := answer.shown]))
    ensures answer.Failed? ==> db' == db
  {
    hide Sound, JoinLobbyStep, AtomicStep, UserTaken;
    JoinFindsTheLobby(db, u, code, now, answer, db');
    if m :| m in db.matches && db.matches[m].state.Lobby? && db.matches[m].code == code {
      forall n | n in db.matches && db.matches[n].state.Lobby? && db.matches[n].code == code ensures n == m {
        OnlyLobbyOfItsCode(db, m, code);
        assert OpenLobby(db.matches, n, code);
      }
      assert OpenLobby(db.matches, m, code);
      JoinLobbyAnswers(db, m, u);
      JoinShowsItsLobby(db, m, u);
    }
  }

  /** The state change and its trigger touch the state and the flags. */
  lemma StateMoves(r: Match, s: State)
    ensures
      var r' := WithState(r, s);
      && r' == r.(state := s, seats := r'.seats) && SameMarks(r, r')
      && forall v | v in r.seats :: r'.seats[v].unfinished <==> (s == Lobby || s == Active || s == Judging)
  {}

  lemma CancelLobbyAnswers(db: Db, m: MatchId, u: UserId, now: int)
    ensures
      var (db', answer) := CancelLobbyStep(db, m, u, now);
      && (answer == Failed(NotFound) <==> !Seated(db.matches, m, u))
      && (Seated(db.matches, m, u) ==>
            var r := db.matches[m];
            && (answer == Failed(MatchStarted) <==> !r.state.Lobby? && !r.state.Abandoned?)
            && (r.state.Abandoned? ==> answer == Done)
            && (r.state.Lobby? ==>
                  && answer == Done && m in db'.matches && OtherMatchesStay(db, db', m)
                  && db'.trees == db.trees && db'.logs == db.logs
                  && db'.matches[m]
                     == r.(state := Abandoned, endedAt := Some(now), seats := db'.matches[m].seats)
                  && SameMarks(r, db'.matches[m])
                  && forall v | v in r.seats :: !db'.matches[m].seats[v].unfinished)
            && (!r.state.Lobby? ==> db' == db))
  {
    if Seated(db.matches, m, u) {
      OneRowWritten(db, m, Abandon(db.matches[m], now));
      StateMoves(db.matches[m], Abandoned);
    }
    hide OtherMatchesStay, SameMarks, WithState;
  }

  // Play.

  lemma WhatALobbyHas(db: Db, m: MatchId)
    requires Sound(db) && m in db.matches
    ensures
      var r := db.matches[m];
      && r.challenge in db.catalog && 1 <= |r.seats| <= SLOTS && r.seats != map[]
      && (r.state.Lobby? ==> forall u :: TreeOf(db.trees, m, u) == map[])
  {
    assert MatchOk(db.catalog, db.matches[m]);
    hide MatchesOk, CodesUnique, OneUnfinishedSeat, LogsOk, CatalogOk, TreeOk, ProgressOk;
    if db.matches[m].state.Lobby? {
      forall u ensures TreeOf(db.trees, m, u) == map[] {
        assert Owner(m, u) in db.trees ==> Played(db.matches, Owner(m, u));
      }
    }
  }

  /** With empty trees the seeding insert has something to do exactly when the challenge has files. */
  lemma SeedingNeedsFiles(db: Db, m: MatchId, r: Match, files: Tree)
    requires r.seats != map[] && forall u :: TreeOf(db.trees, m, u) == map[]
    ensures SeedsSomething(db.trees, m, r, files) <==> files != map[]
  {
    hide TreeOf;
    if files != map[] {
      var u :| u in r.seats;
      var p :| p in files;
      assert p !in TreeOf(db.trees, m, u);
    }
  }

  lemma SeedsOnlyItsOwn(trees: map<Owner, Tree>, m: MatchId, r: Match, files: Tree)
    ensures forall n, v | n != m || v !in r.seats ::
              TreeOf(trees + SeedRows(trees, m, r, files), n, v) == TreeOf(trees, n, v)
  {
    hide Seeded;
  }

  lemma MarkedReady(r: Match, u: UserId, now: int, duration: int)
    requires u in r.seats
    ensures
      var ready := MarkReady(r, u, now);
      var started := Start(ready, duration, now);
      && OnlyReadied(r, ready, u, now) && OnlyReadied(r, started, u, now)
      && ready == r.(seats := ready.seats) && |ready.seats| == |r.seats| && started.seats.Keys == r.seats.Keys
      && started == r.(state := Active, startedAt := Some(now), deadlineAt := Some(now + duration),
                       seats := started.seats)
      && (AllReady(ready) <==> OthersReady(r, u))
  {
    var ready := MarkReady(r, u, now);
    assert ready.seats.Keys == r.seats.Keys;
    assert |ready.seats.Keys| == |r.seats.Keys|;
    assert ready.seats[u].readyAt.Some?;
  }

  /** The call by which the pair is complete starts the match, whichever player makes it. */
  lemma ReadyUpAnswers(db: Db, m: MatchId, u: UserId, now: int)
    requires Sound(db)
    ensures
      var (db', answer) := ReadyUpStep(db, m, u, now);
      && (answer == Failed(NotFound) <==> !Seated(db.matches, m, u))
      && (answer.Failed? ==> db' == db)
      && (Seated(db.matches, m, u) ==>
            var r := db.matches[m];
            var full := r.state.Lobby? && |r.seats| == SLOTS;
            && r.challenge in db.catalog
            && (answer == Failed(MatchStarted) <==> !r.state.Lobby?)
            && (answer == Failed(LobbyIncomplete) <==> r.state.Lobby? && |r.seats| == 1)
            && (answer == Failed(NoStartingWorkspace) <==>
                  full && OthersReady(r, u) && db.catalog[r.challenge].files == map[])
            && (answer.Moved? <==> full && (OthersReady(r, u) ==> db.catalog[r.challenge].files != map[]))
            && (answer.Moved? ==>
                  && (answer.moved <==> OthersReady(r, u))
                  && OnlyReadied(r, answer.after, u, now)
                  && answer.after
                     == (if answer.moved
                         then r.(state := Active, startedAt := Some(now),
                                 deadlineAt := Some(now + db.catalog[r.challenge].duration),
                                 seats := answer.after.seats)
                         else r.(seats := answer.after.seats))
                  && (!answer.moved ==> db'.trees == db.trees)
                  && (forall n, v | n != m || v !in r.seats :: TreeOf(db'.trees, n, v) == TreeOf(db.trees, n, v))
                  && db' == db.(matches := db.matches[m := answer.after], trees := db'.trees)))
  {
    hide Sound, AllReady, OthersReady, OnlyReadied, MarkReady, Start, SeedRows, SeedsSomething, TreeOf;
    if Seated(db.matches, m, u) {
      var r := db.matches[m];
      WhatALobbyHas(db, m);
      var duration := db.catalog[r.challenge].duration;
      MarkedReady(r, u, now, duration);
      if r.state.Lobby? {
        SeedsOnlyItsOwn(db.trees, m, Start(MarkReady(r, u, now), duration, now), db.catalog[r.challenge].files);
        SeedingNeedsFiles(db, m, Start(MarkReady(r, u, now), duration, now), db.catalog[r.challenge].files);
      }
    }
  }

  lemma SeatsAreOneOrTwo(r: Match)
    requires SeatsOk(r)
    ensures 1 <= |r.seats| <= SLOTS && r.seats != map[]
  {}

  lemma MarkedSubmitted(r: Match, u: UserId, now: int)
    requires u in r.seats
    ensures
      var done := MarkSubmitted(r, u, now);
      && OnlySubmitted(r, done, u, now) && OnlySubmitted(r, Judge(done), u, now)
      && done == r.(seats := done.seats) && Judge(done) == r.(state := Judging, seats := Judge(done).seats)
      && (AllSubmitted(done) <==> OthersSubmitted(r, u))
  {
    var done := MarkSubmitted(r, u, now);
    assert done.seats[u].submittedAt.Some?;
  }

  /** The call by which both have submitted moves the match to judging. */
  lemma SubmitAnswers(db: Db, m: MatchId, u: UserId, now: int)
    ensures
      var (db', answer) := SubmitStep(db, m, u, now);
      && (answer == Failed(NotFound) <==> !Seated(db.matches, m, u))
      && (answer.Failed? ==> db' == db)
      && (Seated(db.matches, m, u) ==>
            var r := db.matches[m];
            && (answer == Failed(MatchNotActive) <==> !r.state.Active?)
            && (answer.Moved? <==> r.state.Active?)
            && (answer.Moved? ==>
                  && (answer.moved <==> OthersSubmitted(r, u))
                  && OnlySubmitted(r, answer.after, u, now)
                  && answer.after
                     == r.(state := if answer.moved then Judging else Active, seats := answer.after.seats)
                  && db' == db.(matches := db.matches[m := answer.after])))
  {
    if Seated(db.matches, m, u) {
      MarkedSubmitted(db.matches[m], u, now);
    }
    hide AllSubmitted, OthersSubmitted, OnlySubmitted, MarkSubmitted, Judge;
  }

  /** A match is moved exactly when it is active and its challenge's time since its start has passed. */
  lemma ExpireAnswers(db: Db, m: MatchId, now: int)
    requires Sound(db)
    ensures
      var (db', answer) := ExpireStep(db, m, now);
      var over :=
        && m in db.matches && db.matches[m].state.Active?
        && db.matches[m].challenge in db.catalog && db.matches[m].startedAt.Some?
        && db.matches[m].startedAt.value + db.catalog[db.matches[m].challenge].duration <= now;
      && answer == Expired(over)
      && (!over ==> db' == db)
      && (over ==>
            && m in db'.matches && SameMarks(db.matches[m], db'.matches[m])
            && db'.matches[m] == db.matches[m].(state := Judging, seats := db'.matches[m].seats)
            && db' == db.(matches := db.matches[m := db'.matches[m]]))
  {
    if m in db.matches {
      assert MatchOk(db.catalog, db.matches[m]);
      StateMoves(db.matches[m], Judging);
    }
    hide Sound, SeatsOk, ProgressOk, WithState, SameMarks;
  }

  /** A sweep moves matches whose time has passed, at most as many as asked for, each as Expire would, and
      leaves every other match alone. */
  lemma ExpireDueAnswers(db: Db, limit: int, now: int, answer: Answer, db': Db)
    requires Sound(db) && AtomicStep(db, ExpireDue(limit), now, answer, db')
    ensures limit < 0 ==> answer == Failed(ConstraintViolated) && db' == db
    ensures limit >= 0 ==>
              && answer.ExpiredAll? && |answer.swept| <= limit
              && db' == db.(matches := db'.matches) && db'.matches.Keys == db.matches.Keys
              && (forall m | m in answer.swept ::
                    && m in db.matches && ExpireStep(db, m, now).1 == Expired(true)
                    && db'.matches[m] == ExpireStep(db, m, now).0.matches[m])
              && (forall m | m in db.matches && m !in answer.swept :: db'.matches[m] == db.matches[m])
  {
    hide Sound, Due, Judge;
    if limit >= 0 {
      forall m | m in answer.swept ensures m in db.matches && Due(db.matches[m], now) {
        assert m in DueMatches(db.matches, now);
      }
    }
  }

  /** Which matches are due: those a sweep may move are those Expire would. */
  lemma DueMeansTimeIsUp(db: Db, now: int, m: MatchId)
    requires Sound(db)
    ensures m in DueMatches(db.matches, now) <==>
              && m in db.matches && db.matches[m].state.Active? && db.matches[m].startedAt.Some?
              && db.matches[m].challenge in db.catalog
              && db.matches[m].startedAt.value + db.catalog[db.matches[m].challenge].duration <= now
  {
    if m in db.matches {
      assert MatchOk(db.catalog, db.matches[m]);
    }
    hide Sound, SeatsOk, ProgressOk;
  }

  // Files and events.

  /** The aggregate over the other files decides as the whole tree after the write would. */
  lemma RoomIsWhatWouldFit(tree: Tree, path: Path, content: Content)
    ensures |tree - {path}| + 1 > MAX_WORKSPACE_FILES <==> |tree[path := content]| > MAX_WORKSPACE_FILES
    ensures Weights.Total(tree - {path}) + |content| > MAX_WORKSPACE_BYTES <==>
            Weights.Total(tree[path := content]) > MAX_WORKSPACE_BYTES
  {
    Weights.Replace(tree, path, content);
  }

  lemma WriteFileAnswers(db: Db, m: MatchId, u: UserId, path: Path, content: Content)
    ensures
      var (db', answer) := WriteFileStep(db, m, u, path, content);
      var allowed := Paths.Valid(path) && |content| <= MAX_FILE_BYTES && RequireActive(db, m, u).None?;
      var tree := TreeOf(db.trees, m, u)[path := content];
      && (answer == Done <==> allowed && |tree| <= 400 && Weights.Total(tree) <= 8_388_608)
      && (answer == Failed(WorkspaceFull) <==> allowed && (|tree| > 400 || Weights.Total(tree) > 8_388_608))
      && (answer == Failed(InvalidPath) <==> !Paths.Valid(path))
      && (answer == Failed(FileTooLarge) <==> Paths.Valid(path) && |content| > 1_048_576)
      && (answer == Failed(NotFound) <==>
            Paths.Valid(path) && |content| <= 1_048_576 && !(m in db.matches && u in db.matches[m].seats))
      && (answer == Failed(MatchNotActive) <==>
            && Paths.Valid(path) && |content| <= 1_048_576
            && m in db.matches && u in db.matches[m].seats && !db.matches[m].state.Active?)
      && (answer == Done ==> db' == db.(trees := db.trees[Owner(m, u) := tree]))
      && (answer != Done ==> db' == db)
  {
    RoomIsWhatWouldFit(TreeOf(db.trees, m, u), path, content);
    hide Paths.Valid, Weights.Total, TreeOf;
  }

  lemma DeleteFileAnswers(db: Db, m: MatchId, u: UserId, path: Path)
    ensures
      var (db', answer) := DeleteFileStep(db, m, u, path);
      var tree := TreeOf(db.trees, m, u);
      && (answer == Done <==>
            Paths.Valid(path) && m in db.matches && u in db.matches[m].seats && db.matches[m].state.Active?)
      && (answer == Failed(InvalidPath) <==> !Paths.Valid(path))
      && (answer == Failed(NotFound) <==> Paths.Valid(path) && !(m in db.matches && u in db.matches[m].seats))
      && (answer == Done ==> db' == db.(trees := db.trees[Owner(m, u) := tree - {path}]))
      && (answer != Done ==> db' == db)
  {
    hide Paths.Valid, TreeOf;
  }

  lemma AppendEventAnswers(db: Db, m: MatchId, kind: string, payload: string)
    requires Sound(db)
    ensures
      var (db', answer) := AppendEventStep(db, m, kind, payload);
      && (answer == Failed(NotFound) <==> m !in db.matches)
      && (answer.Appended? <==> m in db.matches && kind != "")
      && (answer.Appended? ==>
            && m in db'.logs && db'.matches == db.matches && db'.trees == db.trees
            && answer.number == |db.logs[m].events| + 1
            && db'.logs[m].events
               == db.logs[m].events + [Event(answer.number, kind, if payload == "" then "{}" else payload)]
            && forall n | n in db.logs && n != m :: n in db'.logs && db'.logs[n] == db.logs[n])
      && (answer.Failed? ==> db' == db)
  {
    hide MatchesOk, CodesUnique, OneUnfinishedSeat, TreesOk, CatalogOk;
    if m in db.logs {
      assert LogOk(db.logs[m]);
    }
  }

  // What calls do for each other.

  /** Exactly those may write who can change their tree, and a stranger is told what they would be told
      if the match were not there; whoever may write is in a running match of theirs. */
  lemma WhoMayWrite(db: Db, m: MatchId, u: UserId)
    ensures RequireActive(db, m, u).None? <==> exists path :: DeleteFileStep(db, m, u, path).1 == Done
    ensures !Seated(db.matches, m, u) ==>
              RequireActive(db, m, u) == RequireActive(db.(matches := db.matches - {m}), m, u)
    ensures Sound(db) && RequireActive(db, m, u).None? ==>
              && UnfinishedSeat(db.matches, m, u)
              && db.matches[m].startedAt.Some? && !AllSubmitted(db.matches[m])
  {
    if RequireActive(db, m, u).None? {
      SplitOfOnePart("a", '/');
      assert DeleteFileStep(db, m, u, "a").1 == Done;
      if Sound(db) {
        assert MatchOk(db.catalog, db.matches[m]);
      }
    }
  }

  /** Deleting what was just written leaves the tree without that file, as it was if the file is new. */
  lemma DeleteUndoesWrite(db: Db, m: MatchId, u: UserId, path: Path, content: Content)
    requires WriteFileStep(db, m, u, path, content).1 == Done
    ensures
      var (db', answer) := DeleteFileStep(WriteFileStep(db, m, u, path, content).0, m, u, path);
      var tree := TreeOf(db.trees, m, u);
      && answer == Done
      && db' == db.(trees := db.trees[Owner(m, u) := tree - {path}])
      && (path !in tree ==> TreeOf(db'.trees, m, u) == tree)
  {
    hide Paths.Valid, Weights.Total, TreeOf, RequireActive, WriteFileStep, DeleteFileStep;
    var tree := TreeOf(db.trees, m, u);
    var after := tree[path := content];
    WriteFileAnswers(db, m, u, path, content);
    var written := WriteFileStep(db, m, u, path, content).0;
    DeleteFileAnswers(written, m, u, path);
    TreesDecideNothing(db, written, m, u);
    OwnTree(db.trees, m, u, after);
    OwnTree(db.trees, m, u, tree - {path});
    PutAndTake(tree, path, content);
    assert written.trees[Owner(m, u) := tree - {path}] == db.trees[Owner(m, u) := tree - {path}];
  }

  lemma TreesDecideNothing(db: Db, db': Db, m: MatchId, u: UserId)
    requires db' == db.(trees := db'.trees)
    ensures RequireActive(db', m, u) == RequireActive(db, m, u)
  {}

  lemma OwnTree(trees: map<Owner, Tree>, m: MatchId, u: UserId, tree: Tree)
    ensures TreeOf(trees[Owner(m, u) := tree], m, u) == tree
  {}

  lemma PutAndTake(tree: Tree, path: Path, content: Content)
    ensures tree[path := content] - {path} == tree - {path}
    ensures path !in tree ==> tree - {path} == tree
  {}

  /** A cancelled lobby gives back its code and both its players: either of them can open a lobby under
      the same code at once. */
  lemma CancelledLobbyCanBeReopened(db: Db, m: MatchId, u: UserId, now: int, v: UserId, id: MatchId, key: Key)
    requires Sound(db) && Seated(db.matches, m, u) && db.matches[m].state.Lobby? && db.matches[m].code != ""
    requires v in db.matches[m].seats && v in db.users && key in db.catalog && id !in db.matches
    ensures
      var db' := CancelLobbyStep(db, m, u, now).0;
      id !in db'.matches && CreateLobbyStep(db', id, v, key, db.matches[m].code).1.Shown?
  {
    var r := db.matches[m];
    var db' := CancelLobbyStep(db, m, u, now).0;
    CancelLobbyAnswers(db, m, u, now);
    assert MatchOk(db.catalog, r);
    hide MatchesOk, LogsOk, TreesOk, CatalogOk, ClockOk, ProgressOk, CancelLobbyStep;
    assert UnfinishedSeat(db.matches, m, v) && OpenLobby(db.matches, m, r.code);
    forall n | n in db'.matches ensures !UnfinishedSeat(db'.matches, n, v) && !OpenLobby(db'.matches, n, r.code) {
      if n != m {
        assert db'.matches[n] == db.matches[n];
        assert !UnfinishedSeat(db.matches, n, v) && !OpenLobby(db.matches, n, r.code);
      }
    }
    hide Sound, CreateLobbyStep;
    CreateLobbyAnswers(db', id, v, key, r.code);
  }

  lemma StepExtendsLogs(db: Db, e: Runs.Entry, db': Db, m: MatchId)
    requires Sound(db) && AtomicStep(db, e.op, e.now, e.answer, db') && m in db.logs
    ensures m in db'.logs && db.logs[m].events <= db'.logs[m].events
  {
    hide Sound, AtomicStep;
    match e.op
    case CreateLobby(id, host, key, code) => CreateKeepsLogs(db, e, db', m);
    case AppendEvent(n, kind, payload) =>
      AppendIsItsStep(db, e, db');
      AppendEventAnswers(db, n, kind, payload);
      hide AppendEventStep;
    case _ => OthersKeepLogs(db, e, db');
  }

  lemma CreateKeepsLogs(db: Db, e: Runs.Entry, db': Db, m: MatchId)
    requires Sound(db) && AtomicStep(db, e.op, e.now, e.answer, db') && e.op.CreateLobby? && m in db.logs
    ensures m in db'.logs && db.logs[m] == db'.logs[m]
  {
    hide CodeTaken, UserTaken, WithSeat, NewMatch, MatchesOk, CodesUnique, OneUnfinishedSeat, TreesOk, CatalogOk;
    assert m in db.matches;
  }

  lemma PlayKeepsLogs(db: Db, m: MatchId, u: UserId, now: int)
    ensures ReadyUpStep(db, m, u, now).0.logs == db.logs && SubmitStep(db, m, u, now).0.logs == db.logs
  {
    hide MarkReady, CanStart, Start, SeedRows, SeedsSomething, MarkSubmitted, CanFinish, Judge;
  }

  lemma FilesKeepLogs(db: Db, m: MatchId, u: UserId, path: Path, content: Content)
    ensures WriteFileStep(db, m, u, path, content).0.logs == db.logs
    ensures DeleteFileStep(db, m, u, path).0.logs == db.logs
  {
    hide Paths.Valid, Weights.Total, TreeOf, RequireActive;
  }

  lemma LobbiesKeepLogs(db: Db, m: MatchId, u: UserId, now: int)
    ensures m in db.matches ==> JoinLobbyStep(db, m, u).0.logs == db.logs
    ensures CancelLobbyStep(db, m, u, now).0.logs == db.logs && ExpireStep(db, m, now).0.logs == db.logs
  {
    hide WithSeat, FreeSlot, UserTaken, Abandon, Judge, Due;
  }

  lemma OthersKeepLogs(db: Db, e: Runs.Entry, db': Db)
    requires AtomicStep(db, e.op, e.now, e.answer, db') && !e.op.CreateLobby? && !e.op.AppendEvent?
    ensures db'.logs == db.logs
  {
    hide CreateLobbyStep, JoinLobbyStep, CancelLobbyStep, ReadyUpStep, SubmitStep, ExpireStep, AppendEventStep,
      WriteFileStep, DeleteFileStep, Swept, DueMatches;
    match e.op
    case JoinLobby(u, code) =>
      if CodeTaken(db.matches, code) {
        var n :| OpenLobby(db.matches, n, code) && (db', e.answer) == JoinLobbyStep(db, n, u);
        LobbiesKeepLogs(db, n, u, e.now);
      }
    case CancelLobby(m, u) => LobbiesKeepLogs(db, m, u, e.now);
    case Expire(m) => LobbiesKeepLogs(db, m, 0, e.now);
    case ReadyUp(m, u) => PlayKeepsLogs(db, m, u, e.now);
    case Submit(m, u) => PlayKeepsLogs(db, m, u, e.now);
    case WriteFile(m, u, path, content) => FilesKeepLogs(db, m, u, path, content);
    case DeleteFile(m, u, path) => FilesKeepLogs(db, m, u, path, "");
    case ExpireDue(_) =>
  }

  lemma {:induction false} LogsExtend(states: seq<Db>, log: seq<Runs.Entry>, i: nat, j: nat, m: MatchId)
    requires Runs.IsRun(states, log) && i <= j < |states| && m in states[i].logs
    ensures m in states[j].logs && states[i].logs[m].events <= states[j].logs[m].events
    decreases j - i
  {
    hide AtomicStep, Sound;
    if i < j {
      LogsExtend(states, log, i, j - 1, m);
      Runs.EveryStateIsSound(states, log, j - 1);
      var e := log[j - 1];
      assert AtomicStep(states[j - 1], e.op, e.now, e.answer, states[j]);
      StepExtendsLogs(states[j - 1], e, states[j], m);
    }
  }

  /** The number AppendEvent gives its caller is where its event is in every later state of the run. */
  lemma AppendedEventStays(states: seq<Db>, log: seq<Runs.Entry>, i: nat, j: nat)
    requires Runs.IsRun(states, log) && i < j < |states| && log[i].op.AppendEvent? && log[i].answer.Appended?
    ensures
      var AppendEvent(m, kind, payload) := log[i].op;
      var n := log[i].answer.number;
      && m in states[j].logs && 1 <= n <= |states[j].logs[m].events|
      && states[j].logs[m].events[n - 1] == Event(n, kind, if payload == "" then "{}" else payload)
  {
    hide AtomicStep, Sound, AppendEventStep;
    var AppendEvent(m, kind, payload) := log[i].op;
    Runs.EveryStateIsSound(states, log, i);
    assert AtomicStep(states[i], log[i].op, log[i].now, log[i].answer, states[i + 1]);
    AppendIsItsStep(states[i], log[i], states[i + 1]);
    AppendEventAnswers(states[i], m, kind, payload);
    LogsExtend(states, log, i + 1, j, m);
  }

  lemma AppendIsItsStep(db: Db, e: Runs.Entry, db': Db)
    requires e.op.AppendEvent? && AtomicStep(db, e.op, e.now, e.answer, db')
    ensures (db', e.answer) == AppendEventStep(db, e.op.m, e.op.kind, e.op.payload)
  {
    hide AppendEventStep;
  }

  // A whole match.

  ghost predicate FreshPair(db: Db, a: UserId, b: UserId) {
    && a != b && a in db.users && b in db.users
    && !UserTaken(db.matches, a) && !UserTaken(db.matches, b)
  }

  lemma SecondPlayerFitsIn(db: Db, id: MatchId, a: UserId, b: UserId, key: Key, code: Code)
    requires Sound(db) && id !in db.matches && FreshPair(db, a, b)
    requires code != "" && !CodeTaken(db.matches, code) && key in db.catalog
    ensures
      var db1 := CreateLobbyStep(db, id, a, key, code).0;
      && Sound(db1) && OpenLobby(db1.matches, id, code)
      && var (db2, answer) := JoinLobbyStep(db1, id, b);
         && answer.Shown? && Sound(db2) && id in db2.matches
         && db2.matches[id].state.Lobby? && db2.matches[id].seats.Keys == {a, b}
         && db2.matches[id].challenge == key && db2.catalog == db.catalog
         && forall u | u in {a, b} ::
              db2.matches[id].seats[u].readyAt.None? && db2.matches[id].seats[u].submittedAt.None?
  {
    hide Sound, CreateLobbyStep, JoinLobbyStep;
    CreateLobbyAnswers(db, id, a, key, code);
    CreateLobbyKeeps(db, id, a, key, code);
    var db1 := CreateLobbyStep(db, id, a, key, code).0;
    JoinLobbyAnswers(db1, id, b);
    JoinLobbyKeeps(db1, id, b);
    assert !UserTaken(db1.matches, b) by {
      forall n | n in db1.matches ensures !UnfinishedSeat(db1.matches, n, b) {
        assert n != id ==> !UnfinishedSeat(db.matches, n, b);
      }
    }
    JoiningTakesTheFreeSeat(db1, id, b);
    assert JoinLobbyStep(db1, id, b).0.matches[id].seats.Keys == {a, b};
  }

  lemma PairIsTwo(a: UserId, b: UserId, r: Match)
    requires a != b && r.seats.Keys == {a, b}
    ensures |r.seats| == SLOTS
  {
    assert |r.seats.Keys| == |{a, b}|;
  }

  lemma ReadyingStarts(db: Db, m: MatchId, a: UserId, b: UserId, t: int, t': int)
    requires Sound(db) && m in db.matches && a != b && db.matches[m].seats.Keys == {a, b}
    requires db.matches[m].state.Lobby? && db.matches[m].challenge in db.catalog
    requires db.catalog[db.matches[m].challenge].files != map[]
    requires forall u | u in {a, b} :: db.matches[m].seats[u].readyAt.None? && db.matches[m].seats[u].submittedAt.None?
    ensures
      var (db1, first) := ReadyUpStep(db, m, a, t);
      && first.Moved? && !first.moved
      && var (db2, second) := ReadyUpStep(db1, m, b, t');
         && second.Moved? && second.moved && Sound(db2) && m in db2.matches
         && db2.matches[m].state.Active? && db2.matches[m].seats.Keys == {a, b}
         && forall u | u in {a, b} :: db2.matches[m].seats[u].submittedAt.None?
  {
    hide Sound, ReadyUpStep;
    PairIsTwo(a, b, db.matches[m]);
    ReadyUpAnswers(db, m, a, t);
    ReadyUpKeeps(db, m, a, t);
    var (db1, first) := ReadyUpStep(db, m, a, t);
    assert db.matches[m].seats[b].readyAt.None? && b != a;
    assert !OthersReady(db.matches[m], a);
    PairIsTwo(a, b, db1.matches[m]);
    ReadyUpAnswers(db1, m, b, t');
    ReadyUpKeeps(db1, m, b, t');
    assert OthersReady(db1.matches[m], b);
  }

  lemma SubmittingFinishes(db: Db, m: MatchId, a: UserId, b: UserId, t: int, t': int)
    requires m in db.matches && a != b && db.matches[m].seats.Keys == {a, b} && db.matches[m].state.Active?
    requires forall u | u in {a, b} :: db.matches[m].seats[u].submittedAt.None?
    ensures
      var (db1, first) := SubmitStep(db, m, a, t);
      && first.Moved? && !first.moved
      && var (db2, second) := SubmitStep(db1, m, b, t');
         second.Moved? && second.moved && m in db2.matches && db2.matches[m].state.Judging?
  {
    hide SubmitStep;
    SubmitAnswers(db, m, a, t);
    var (db1, first) := SubmitStep(db, m, a, t);
    assert !OthersSubmitted(db.matches[m], a) by {
      assert db.matches[m].seats[b].submittedAt.None?;
    }
    SubmitAnswers(db1, m, b, t');
    assert OthersSubmitted(db1.matches[m], b);
  }

  /** From any sound state two players who are both free can play a match to the end: the second to be
      ready starts it and the second to submit sends it to judging. */
  lemma AMatchCanBePlayed(db: Db, id: MatchId, a: UserId, b: UserId, key: Key, code: Code, t: seq<int>)
    requires Sound(db) && id !in db.matches && FreshPair(db, a, b) && |t| == 4
    requires code != "" && !CodeTaken(db.matches, code) && key in db.catalog && db.catalog[key].files != map[]
    ensures
      var created := CreateLobbyStep(db, id, a, key, code).0;
      && OpenLobby(created.matches, id, code)
      && var joined := JoinLobbyStep(created, id, b).0;
         var (ready, first) := ReadyUpStep(joined, id, a, t[0]);
         var (started, second) := ReadyUpStep(ready, id, b, t[1]);
         var (submitted, third) := SubmitStep(started, id, a, t[2]);
         var (judging, fourth) := SubmitStep(submitted, id, b, t[3]);
         && first.Moved? && !first.moved && second.Moved? && second.moved
         && third.Moved? && !third.moved && fourth.Moved? && fourth.moved
         && id in judging.matches && judging.matches[id].state.Judging?
  {
    hide Sound, CreateLobbyStep, JoinLobbyStep, ReadyUpStep, SubmitStep, CodeTaken, UserTaken;
    SecondPlayerFitsIn(db, id, a, b, key, code);
    var created := CreateLobbyStep(db, id, a, key, code).0;
    var joined := JoinLobbyStep(created, id, b).0;
    ReadyingStarts(joined, id, a, b, t[0], t[1]);
    var started := ReadyUpStep(ReadyUpStep(joined, id, a, t[0]).0, id, b, t[1]).0;
    SubmittingFinishes(started, id, a, b, t[2], t[3]);
  }
}
