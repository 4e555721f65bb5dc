/** What holds over whole runs of the match store. */
module Runs {
  import opened Prelude
  import opened Rows
  import opened Transitions
  import opened Soundness
  import Paths
  import Weights

  datatype Entry = Entry(op: Op, now: int, answer: Answer)

  /** states[i] is the database before log[i], and the last state is where the run has come to. */
  ghost predicate IsRun(states: seq<Db>, log: seq<Entry>) {
    && |states| == |log| + 1
    && Initial(states[0])
    && forall i | 0 <= i < |log| ::
         AtomicStep(states[i], log[i].op, log[i].now, log[i].answer, states[i + 1])
  }

  lemma RunPrefix(states: seq<Db>, log: seq<Entry>, n: nat)
    requires IsRun(states, log) && n <= |log|
    ensures IsRun(states[..n + 1], log[..n])
  {
    hide AtomicStep;
    forall i | 0 <= i < n
      ensures AtomicStep(states[..n + 1][i], log[..n][i].op, log[..n][i].now, log[..n][i].answer,
                         states[..n + 1][i + 1])
    {}
  }

  /** The invariant holds of every state of every run. */
  lemma {:induction false} EveryStateIsSound(states: seq<Db>, log: seq<Entry>, n: nat)
    requires IsRun(states, log) && n < |states|
    ensures Sound(states[n])
  {
    hide AtomicStep, Sound;
    if n == 0 {
      InitialIsSound(states[0]);
    } else {
      EveryStateIsSound(states, log, n - 1);
      var e := log[n - 1];
      assert AtomicStep(states[n - 1], e.op, e.now, e.answer, states[n]);
      EveryStepKeepsSound(states[n - 1], e.op, e.now, e.answer, states[n]);
    }
  }

  lemma LastStateIsSound(states: seq<Db>, log: seq<Entry>)
    requires IsRun(states, log)
    ensures |states| == |log| + 1 && Sound(states[|log|])
  {
    hide AtomicStep, Sound, Initial;
    EveryStateIsSound(states, log, |log|);
  }

  // One step, seen from one match.

  predicate Starts(e: Entry, m: MatchId) {
    e.op.ReadyUp? && e.op.m == m && e.answer.Moved? && e.answer.moved
  }

  /** Submit, Expire and ExpireDue each tell their caller which match they moved to judging. */
  predicate Claims(e: Entry, m: MatchId) {
    || (e.op.Submit? && e.op.m == m && e.answer.Moved? && e.answer.moved)
    || (e.op.Expire? && e.op.m == m && e.answer == Expired(true))
    || (e.op.ExpireDue? && e.answer.ExpiredAll? && m in e.answer.swept)
  }

  function StateOf(db: Db, m: MatchId): Option<State> {
    if m in db.matches then Some(db.matches[m].state) else None
  }

  /** The edges of the life of a match. */
  predicate Edge(a: Option<State>, b: Option<State>) {
    || a == b
    || (a == None && b == Some(Lobby))
    || (a == Some(Lobby) && (b == Some(Active) || b == Some(Abandoned)))
    || (a == Some(Active) && b == Some(Judging))
  }

  ghost predicate SameClock(r: Match, r': Match) {
    r'.startedAt == r.startedAt && r'.deadlineAt == r.deadlineAt
  }

  /** How one step may change match m. */
  ghost predicate Effect(db: Db, e: Entry, db': Db, m: MatchId) {
    && Edge(StateOf(db, m), StateOf(db', m))
    && (Starts(e, m) <==> StateOf(db, m) == Some(Lobby) && StateOf(db', m) == Some(Active))
    && (Claims(e, m) <==> StateOf(db, m) == Some(Active) && StateOf(db', m) == Some(Judging))
    && (m in db.matches ==>
          var r, r' := db.matches[m], db'.matches[m];
          && r'.challenge == r.challenge && r'.code == r.code
          && r.seats.Keys <= r'.seats.Keys
          && (!Starts(e, m) ==> SameClock(r, r'))
          && (Starts(e, m) ==> r'.startedAt == Some(e.now)))
    && db'.catalog == db.catalog && db'.users == db.users
  }

  /** What stays of a match row when its state and seats' marks change. */
  ghost predicate SameMatch(r: Match, r': Match) {
    r'.challenge == r.challenge && r'.code == r.code && r.seats.Keys <= r'.seats.Keys
  }

  lemma ReadyingShape(r: Match, u: UserId, now: int, duration: int)
    ensures
      var ready := MarkReady(r, u, now);
      var started := Start(ready, duration, now);
      && SameMatch(r, ready) && SameClock(r, ready) && ready.state == r.state
      && SameMatch(r, started) && started.state.Active? && started.startedAt == Some(now)
  {}

  lemma ReadyUpOutcome(db: Db, m: MatchId, u: UserId, now: int)
    ensures
      var (db', answer) := ReadyUpStep(db, m, u, now);
      && db'.catalog == db.catalog && db'.users == db.users
      && if answer.Failed? then db' == db
         else
           && answer.Moved? && m in db.matches && db.matches[m].state.Lobby?
           && db'.matches == db.matches[m := answer.after]
           && var ready := MarkReady(db.matches[m], u, now);
              if answer.moved then
                exists duration :: answer.after == Start(ready, duration, now)
              else answer.after == ready
  {
    hide SeedsSomething, SeedRows, CanStart, MarkReady, Start;
  }

  lemma ReadyUpEffect(db: Db, e: Entry, db': Db, m: MatchId)
    requires e.op.ReadyUp? && (db', e.answer) == ReadyUpStep(db, e.op.m, e.op.user, e.now)
    ensures Effect(db, e, db', m)
  {
    ReadyUpOutcome(db, e.op.m, e.op.user, e.now);
    hide ReadyUpStep, MarkReady, Start;
    if e.answer.Moved? {
      var r := db.matches[e.op.m];
      ReadyingShape(r, e.op.user, e.now, 0);
      if e.answer.moved {
        var duration :| e.answer.after == Start(MarkReady(r, e.op.user, e.now), duration, e.now);
        ReadyingShape(r, e.op.user, e.now, duration);
      }
    }
  }

  lemma SubmittingShape(r: Match, u: UserId, now: int)
    ensures
      var submitted := MarkSubmitted(r, u, now);
      && SameMatch(r, submitted) && SameClock(r, submitted) && submitted.state == r.state
      && SameMatch(r, Judge(submitted)) && SameClock(r, Judge(submitted)) && Judge(submitted).state.Judging?
  {}

  lemma SubmitOutcome(db: Db, m: MatchId, u: UserId, now: int)
    ensures
      var (db', answer) := SubmitStep(db, m, u, now);
      && db'.catalog == db.catalog && db'.users == db.users
      && if answer.Failed? then db' == db
         else
           && answer.Moved? && m in db.matches && db.matches[m].state.Active?
           && db'.matches == db.matches[m := answer.after]
           && var submitted := MarkSubmitted(db.matches[m], u, now);
              answer.after == if answer.moved then Judge(submitted) else submitted
  {
    hide AllSubmitted, CanFinish, MarkSubmitted, Judge;
  }

  lemma SubmitEffect(db: Db, e: Entry, db': Db, m: MatchId)
    requires e.op.Submit? && (db', e.answer) == SubmitStep(db, e.op.m, e.op.user, e.now)
    ensures Effect(db, e, db', m)
  {
    SubmitOutcome(db, e.op.m, e.op.user, e.now);
    hide SubmitStep, MarkSubmitted, Judge;
    if e.answer.Moved? {
      SubmittingShape(db.matches[e.op.m], e.op.user, e.now);
    }
  }

  lemma CreateLobbyEffect(db: Db, e: Entry, db': Db, m: MatchId)
    requires e.op.CreateLobby? && e.op.id !in db.matches
    requires (db', e.answer) == CreateLobbyStep(db, e.op.id, e.op.host, e.op.key, e.op.code)
    ensures Effect(db, e, db', m)
  {
    hide CodeTaken, UserTaken;
  }

  lemma JoinLobbyEffect(db: Db, e: Entry, db': Db, n: MatchId, m: MatchId)
    requires e.op.JoinLobby? && n in db.matches
    requires (db', e.answer) == JoinLobbyStep(db, n, e.op.joiner)
    ensures Effect(db, e, db', m)
  {
    hide FreeSlot, UserTaken;
  }

  lemma CancelLobbyEffect(db: Db, e: Entry, db': Db, m: MatchId)
    requires e.op.CancelLobby? && (db', e.answer) == CancelLobbyStep(db, e.op.m, e.op.user, e.now)
    ensures Effect(db, e, db', m)
  {
    hide Synced;
  }

  lemma SweepEffect(db: Db, e: Entry, db': Db, m: MatchId)
    requires e.op.ExpireDue? && e.answer.ExpiredAll? && e.answer.swept <= DueMatches(db.matches, e.now)
    requires db' == db.(matches := Swept(db.matches, e.answer.swept))
    ensures Effect(db, e, db', m)
  {
    assert m in e.answer.swept ==> m in DueMatches(db.matches, e.now);
  }

  /** The steps that leave every match row alone. */
  lemma NoEffect(db: Db, e: Entry, db': Db, m: MatchId)
    requires db'.matches == db.matches && db'.catalog == db.catalog && db'.users == db.users
    requires !Starts(e, m) && !Claims(e, m)
    ensures Effect(db, e, db', m)
  {}

  lemma StepEffect(db: Db, e: Entry, db': Db, m: MatchId)
    requires AtomicStep(db, e.op, e.now, e.answer, db')
    ensures Effect(db, e, db', m)
  {
    hide CreateLobbyStep, JoinLobbyStep, CancelLobbyStep, ReadyUpStep, SubmitStep, ExpireStep, AppendEventStep,
      WriteFileStep, DeleteFileStep, DueMatches, Swept, Effect;
    match e.op
    case CreateLobby(_, _, _, _) => CreateLobbyEffect(db, e, db', m);
    case JoinLobby(u, code) =>
      if CodeTaken(db.matches, code) {
        var n :| OpenLobby(db.matches, n, code) && (db', e.answer) == JoinLobbyStep(db, n, u);
        JoinLobbyEffect(db, e, db', n, m);
      } else {
        NoEffect(db, e, db', m);
      }
    case CancelLobby(_, _) => CancelLobbyEffect(db, e, db', m);
    case ReadyUp(_, _) => ReadyUpEffect(db, e, db', m);
    case Submit(_, _) => SubmitEffect(db, e, db', m);
    case Expire(_) => ExpireEffect(db, e, db', m);
    case ExpireDue(limit) =>
      if limit < 0 {
        NoEffect(db, e, db', m);
      } else {
        SweepEffect(db, e, db', m);
      }
    case _ =>
      LogsAndTreesAreNotMatches(db, e, db');
      NoEffect(db, e, db', m);
  }

  lemma LogsAndTreesAreNotMatches(db: Db, e: Entry, db': Db)
    requires e.op.AppendEvent? || e.op.WriteFile? || e.op.DeleteFile?
    requires AtomicStep(db, e.op, e.now, e.answer, db')
    ensures db'.matches == db.matches && db'.catalog == db.catalog && db'.users == db.users
  {
    hide Paths.Valid, Weights.Total, TreeOf, RequireActive, WithEvent;
  }

  lemma ExpireEffect(db: Db, e: Entry, db': Db, m: MatchId)
    requires e.op.Expire? && (db', e.answer) == ExpireStep(db, e.op.m, e.now)
    ensures Effect(db, e, db', m)
  {}

  lemma StepOf(states: seq<Db>, log: seq<Entry>, i: nat, m: MatchId)
    requires IsRun(states, log) && i < |log|
    ensures Effect(states[i], log[i], states[i + 1], m)
  {
    hide AtomicStep, Effect;
    assert AtomicStep(states[i], log[i].op, log[i].now, log[i].answer, states[i + 1]);
    StepEffect(states[i], log[i], states[i + 1], m);
  }

  // Whole runs, seen from one match.

  /** Lobby, active, judging, in that order; or lobby, abandoned. Nothing is ever complete. */
  predicate Reaches(a: Option<State>, b: Option<State>) {
    || a == b
    || (a == None && b.Some? && !b.value.Complete?)
    || (a == Some(Lobby) && (b == Some(Active) || b == Some(Judging) || b == Some(Abandoned)))
    || (a == Some(Active) && b == Some(Judging))
  }

  lemma {:induction false} LifeOfAMatch(states: seq<Db>, log: seq<Entry>, i: nat, j: nat, m: MatchId)
    requires IsRun(states, log) && i <= j < |states|
    ensures Reaches(StateOf(states[i], m), StateOf(states[j], m))
    decreases j - i
  {
    hide AtomicStep;
    if i < j {
      LifeOfAMatch(states, log, i, j - 1, m);
      StepOf(states, log, j - 1, m);
    }
  }

  function Count(log: seq<Entry>, p: Entry -> bool): nat {
    if log == [] then 0
    else Count(log[..|log| - 1], p) + if p(log[|log| - 1]) then 1 else 0
  }

  /** ReadyUp reports true exactly once for a match that has started, and never for one that has not. */
  lemma {:induction false} StartedExactlyOnce(states: seq<Db>, log: seq<Entry>, m: MatchId)
    requires IsRun(states, log)
    ensures
      var s := StateOf(states[|log|], m);
      Count(log, e => Starts(e, m)) == if s == Some(Active) || s == Some(Judging) then 1 else 0
    decreases |log|
  {
    hide AtomicStep;
    if log != [] {
      var n := |log| - 1;
      RunPrefix(states, log, n);
      StartedExactlyOnce(states[..n + 1], log[..n], m);
      StepOf(states, log, n, m);
    }
  }

  /** Of all the calls that submit, expire or sweep, exactly one claims the move to judging. */
  lemma {:induction false} ClaimedExactlyOnce(states: seq<Db>, log: seq<Entry>, m: MatchId)
    requires IsRun(states, log)
    ensures Count(log, e => Claims(e, m)) == if StateOf(states[|log|], m) == Some(Judging) then 1 else 0
    decreases |log|
  {
    hide AtomicStep;
    if log != [] {
      var n := |log| - 1;
      RunPrefix(states, log, n);
      ClaimedExactlyOnce(states[..n + 1], log[..n], m);
      StepOf(states, log, n, m);
    }
  }

  /** The clock is written by the call that starts the match and never again. */
  lemma {:induction false} ClockIsWrittenOnce(states: seq<Db>, log: seq<Entry>, i: nat, j: nat, m: MatchId)
    requires IsRun(states, log) && i <= j < |states|
    requires m in states[i].matches && states[i].matches[m].startedAt.Some?
    ensures m in states[j].matches && SameClock(states[i].matches[m], states[j].matches[m])
    decreases j - i
  {
    hide AtomicStep, Sound;
    if i < j {
      ClockIsWrittenOnce(states, log, i, j - 1, m);
      EveryStateIsSound(states, log, j - 1);
      StartedIsNotLobby(states[j - 1], m);
      StepOf(states, log, j - 1, m);
    }
  }

  lemma StartedIsNotLobby(db: Db, m: MatchId)
    requires Sound(db) && m in db.matches && db.matches[m].startedAt.Some?
    ensures StateOf(db, m) != Some(Lobby)
    ensures
      var r := db.matches[m];
      r.challenge in db.catalog
      && r.deadlineAt == Some(r.startedAt.value + db.catalog[r.challenge].duration)
  {
    assert MatchOk(db.catalog, db.matches[m]);
  }

  /** At the step that starts a match, the clock is this call's now and the challenge's duration. */
  lemma StartSetsTheClock(states: seq<Db>, log: seq<Entry>, i: nat, m: MatchId)
    requires IsRun(states, log) && i < |log| && Starts(log[i], m)
    ensures m in states[i].matches && m in states[i + 1].matches
    ensures
      var r := states[i + 1].matches[m];
      && r.challenge == states[i].matches[m].challenge && r.challenge in states[i].catalog
      && r.startedAt == Some(log[i].now)
      && r.deadlineAt == Some(log[i].now + states[i].catalog[r.challenge].duration)
  {
    hide AtomicStep, Sound;
    StepOf(states, log, i, m);
    EveryStateIsSound(states, log, i + 1);
    StartedIsNotLobby(states[i + 1], m);
  }

  // Memberships.

  /** The matches a player is held by: those they sit in that are in lobby, active or judging. */
  ghost predicate PlaysIn(db: Db, m: MatchId, u: UserId) {
    && m in db.matches && u in db.matches[m].seats
    && (db.matches[m].state == Lobby || db.matches[m].state == Active || db.matches[m].state == Judging)
  }

  /** A player counts as taken exactly while they play in a match, and that match is the only one. */
  lemma CurrentMatchIsSingle(db: Db, u: UserId)
    requires Sound(db)
    ensures forall m :: UnfinishedSeat(db.matches, m, u) <==> PlaysIn(db, m, u)
    ensures UserTaken(db.matches, u) <==> exists m :: PlaysIn(db, m, u)
    ensures forall m, n :: PlaysIn(db, m, u) && PlaysIn(db, n, u) ==> m == n
  {
    hide CodesUnique, LogsOk, TreesOk, CatalogOk;
    forall m ensures UnfinishedSeat(db.matches, m, u) <==> PlaysIn(db, m, u) {
      if m in db.matches {
        assert MatchOk(db.catalog, db.matches[m]);
      }
    }
    hide MatchesOk, PlaysIn;
    if m :| PlaysIn(db, m, u) {
      assert UnfinishedSeat(db.matches, m, u);
    }
  }

  /** Cancelling a lobby leaves neither of its players in any unfinished match. */
  lemma CancelFreesBothPlayers(db: Db, m: MatchId, u: UserId, now: int, db': Db)
    requires Sound(db) && AtomicStep(db, CancelLobby(m, u), now, Done, db')
    ensures m in db'.matches && db'.matches[m].state.Abandoned?
    ensures db.matches[m].state.Lobby? ==>
              forall v | v in db.matches[m].seats :: !UserTaken(db'.matches, v)
  {
    hide LogsOk, TreesOk, CatalogOk, CodesUnique;
    if db.matches[m].state.Lobby? {
      assert MatchOk(db.catalog, db.matches[m]);
      forall v | v in db.matches[m].seats ensures !UserTaken(db'.matches, v) {
        assert UnfinishedSeat(db.matches, m, v);
        forall n | n in db'.matches ensures !UnfinishedSeat(db'.matches, n, v) {
          if n != m {
            assert db'.matches[n] == db.matches[n];
            assert !UnfinishedSeat(db.matches, n, v);
          }
        }
      }
    }
  }

  // Trees.

  predicate WritesTree(e: Entry, o: Owner) {
    (e.op.WriteFile? || e.op.DeleteFile?) && e.op.m == o.match_ && e.op.user == o.user
  }

  /** A tree changes only when its match starts, or when its own player writes to it while the match
      is active. */
  lemma TreesChangeOnlyWhileActive(db: Db, e: Entry, db': Db, o: Owner)
    requires AtomicStep(db, e.op, e.now, e.answer, db')
    ensures
      TreeOf(db'.trees, o.match_, o.user) == TreeOf(db.trees, o.match_, o.user)
      || Starts(e, o.match_)
      || (WritesTree(e, o) && StateOf(db, o.match_) == Some(Active))
  {
    hide CreateLobbyStep, JoinLobbyStep, CancelLobbyStep, ReadyUpStep, SubmitStep, DueMatches, Swept,
      FreeSlot, OpenLobby, WriteFileStep, DeleteFileStep, TreeOf;
    if e.op.ReadyUp? {
      StartSeedsOnlyItsOwnTrees(db, e, db', o);
    } else if e.op.WriteFile? || e.op.DeleteFile? {
      FileStepsNeedActive(db, e, db', o);
    } else {
      OthersLeaveTrees(db, e, db');
    }
  }

  lemma FileStepsNeedActive(db: Db, e: Entry, db': Db, o: Owner)
    requires e.op.WriteFile? || e.op.DeleteFile?
    requires (db', e.answer) ==
             if e.op.WriteFile? then WriteFileStep(db, e.op.m, e.op.user, e.op.path, e.op.content)
             else DeleteFileStep(db, e.op.m, e.op.user, e.op.path)
    ensures
      TreeOf(db'.trees, o.match_, o.user) == TreeOf(db.trees, o.match_, o.user)
      || (WritesTree(e, o) && StateOf(db, o.match_) == Some(Active))
  {
    FileStepShape(db, e, db');
    hide WriteFileStep, DeleteFileStep;
  }

  /** No tree but one differs. */
  ghost predicate OnlyTree(trees: map<Owner, Tree>, trees': map<Owner, Tree>, owner: Owner) {
    forall o | o != owner :: (o in trees' <==> o in trees) && (o in trees ==> trees'[o] == trees[o])
  }

  lemma FileStepShape(db: Db, e: Entry, db': Db)
    requires e.op.WriteFile? || e.op.DeleteFile?
    requires (db', e.answer) ==
             if e.op.WriteFile? then WriteFileStep(db, e.op.m, e.op.user, e.op.path, e.op.content)
             else DeleteFileStep(db, e.op.m, e.op.user, e.op.path)
    ensures
      || db'.trees == db.trees
      || (StateOf(db, e.op.m) == Some(Active) && OnlyTree(db.trees, db'.trees, Owner(e.op.m, e.op.user)))
  {
    hide Paths.Valid, Weights.Total, TreeOf;
  }

  lemma StartSeedsOnlyItsOwnTrees(db: Db, e: Entry, db': Db, o: Owner)
    requires e.op.ReadyUp? && (db', e.answer) == ReadyUpStep(db, e.op.m, e.op.user, e.now)
    ensures !Starts(e, o.match_) ==> TreeOf(db'.trees, o.match_, o.user) == TreeOf(db.trees, o.match_, o.user)
  {
    hide SeedsSomething, AllReady, CanStart, MarkReady, WithState, Seeded;
  }

  lemma OthersLeaveTrees(db: Db, e: Entry, db': Db)
    requires AtomicStep(db, e.op, e.now, e.answer, db')
    requires !e.op.ReadyUp? && !e.op.WriteFile? && !e.op.DeleteFile?
    ensures db'.trees == db.trees
  {
    hide MarkSubmitted, CanFinish, WithSeat, FreeSlot, WithState, Due, Swept;
    if e.op.JoinLobby? && CodeTaken(db.matches, e.op.code) {
      var n :| OpenLobby(db.matches, n, e.op.code) && (db', e.answer) == JoinLobbyStep(db, n, e.op.joiner);
    }
  }

  /** The tree there is at the buzzer is the tree there is ever after. */
  lemma {:induction false} TreesFreezeAtJudging(states: seq<Db>, log: seq<Entry>, i: nat, j: nat, o: Owner)
    requires IsRun(states, log) && i <= j < |states|
    requires StateOf(states[i], o.match_) == Some(Judging)
    ensures TreeOf(states[j].trees, o.match_, o.user) == TreeOf(states[i].trees, o.match_, o.user)
    decreases j - i
  {
    hide AtomicStep, Sound;
    if i < j {
      var e := log[j - 1];
      TreesFreezeAtJudging(states, log, i, j - 1, o);
      LifeOfAMatch(states, log, i, j - 1, o.match_);
      assert AtomicStep(states[j - 1], e.op, e.now, e.answer, states[j]);
      TreesChangeOnlyWhileActive(states[j - 1], e, states[j], o);
      StepOf(states, log, j - 1, o.match_);
    }
  }

  /** Both players start from exactly the challenge's files. */
  lemma BothStartFromTheSameCode(db: Db, m: MatchId, u: UserId, now: int, after: Match, db': Db)
    requires Sound(db) && (db', Moved(after, true)) == ReadyUpStep(db, m, u, now)
    ensures m in db.matches && db.matches[m].challenge in db.catalog
    ensures |after.seats| == SLOTS && after.challenge == db.matches[m].challenge
    ensures db'.matches == db.matches[m := after]
    ensures forall v | v in after.seats ::
              TreeOf(db'.trees, m, v) == db.catalog[db.matches[m].challenge].files
  {
    hide MatchesOk, CodesUnique, OneUnfinishedSeat, LogsOk, CatalogOk;
    var r := db.matches[m];
    var c := db.catalog[r.challenge];
    SeedingIsExact(db.matches, db.trees, m, after, c.files);
    SyncKeys(MarkReady(r, u, now), Active);
    forall v | v in after.seats ensures TreeOf(db'.trees, m, v) == c.files {
      assert Owner(m, v) in SeedRows(db.trees, m, after, c.files);
    }
  }

  lemma SyncKeys(r: Match, s: State)
    ensures |WithState(r, s).seats| == |r.seats|
  {
    assert WithState(r, s).seats.Keys == r.seats.Keys;
    assert |WithState(r, s).seats.Keys| == |r.seats.Keys|;
  }

  /** Every tree in every state is within the ceilings. */
  lemma TreesStayWithinCeilings(states: seq<Db>, log: seq<Entry>, i: nat, m: MatchId, u: UserId)
    requires IsRun(states, log) && i < |states|
    ensures
      var tree := TreeOf(states[i].trees, m, u);
      && |tree| <= 400 && Weights.Total(tree) <= 8 * 1024 * 1024
      && (forall p | p in tree :: |tree[p]| <= 1024 * 1024)
  {
    hide AtomicStep;
    EveryStateIsSound(states, log, i);
    hide MatchesOk, CodesUnique, OneUnfinishedSeat, LogsOk, CatalogOk;
    if Owner(m, u) in states[i].trees {
      assert TreeOk(states[i].trees[Owner(m, u)]);
    }
  }
}
