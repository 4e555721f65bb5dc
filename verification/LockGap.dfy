/**
 Why interleaved calls need ids that cannot be named early.

 A lock statement that runs before its match is committed locks no row and is no error. If the match is
 committed, and joined, before the call's next read, the call goes on without the lock. Two ReadyUp calls
 in that position miss each other.

 The run shown here obeys every rule of the interleaved model but the guard `Unguessed`, and what it
 commits is not what any run of whole operations commits.
 */
module LockGap {
  import opened Prelude
  import opened Rows
  import opened Transitions
  import opened Soundness
  import opened Runs
  import opened Interleaving
  import opened Outcomes

  // Unguarded runs.

  ghost predicate IsUnguardedTrace(trace: seq<Sys>, labels: seq<Label>) {
    && |trace| == |labels| + 1
    && Start0(trace[0])
    && forall i | 0 <= i < |labels| :: UnguardedStep(trace[i], labels[i], trace[i + 1])
  }

  ghost predicate Reachable(s: Sys) {
    exists trace, labels :: IsUnguardedTrace(trace, labels) && trace[|labels|] == s
  }

  lemma OneStepMore(s: Sys, l: Label, s': Sys)
    requires Reachable(s) && UnguardedStep(s, l, s')
    ensures Reachable(s')
  {
    hide UnguardedStep, Start0;
    var trace, labels :| IsUnguardedTrace(trace, labels) && trace[|labels|] == s;
    var trace', labels' := trace + [s'], labels + [l];
    forall i | 0 <= i < |labels'| ensures UnguardedStep(trace'[i], labels'[i], trace'[i + 1]) {
      assert i < |labels| ==> trace'[i] == trace[i] && trace'[i + 1] == trace[i + 1] && labels'[i] == labels[i];
    }
    assert IsUnguardedTrace(trace', labels') && trace'[|labels'|] == s';
  }

  lemma Starts0(s: Sys)
    requires Start0(s)
    ensures Reachable(s)
  {
    hide Start0;
    var labels: seq<Label> := [];
    assert IsUnguardedTrace([s], labels) && [s][|labels|] == s;
  }

  /** The next n statements of a transaction at one state of the database. */
  ghost function Ran(db: Db, tx: Tx, n: nat): (r: Tx)
    requires Transactional(tx.op)
    ensures r.op == tx.op
  {
    if n == 0 then tx
    else
      match Exec(db, Ran(db, tx, n - 1))
      case Go(next) => next.(op := tx.op)
      case _ => Ran(db, tx, n - 1)
  }

  /** The k-th of them is taken, and does not end the transaction. */
  ghost predicate GoesOn(db: Db, tx: Tx, k: nat)
    requires Transactional(tx.op)
  {
    && !Ran(db, tx, k).pc.Committing?
    && Exec(db, Ran(db, tx, k)) == Go(Ran(db, tx, k + 1))
  }

  lemma {:induction false} RunsOn(s: Sys, t: TxId, n: nat)
    requires Reachable(s) && t in s.txs && Transactional(s.txs[t].op)
    requires forall k | 0 <= k < n :: GoesOn(s.db, s.txs[t], k)
    requires forall k, t' | 0 <= k < n && t' in s.txs && t' != t :: !MustWait(s.db, Ran(s.db, s.txs[t], k), s.txs[t'])
    ensures Reachable(s.(txs := s.txs[t := Ran(s.db, s.txs[t], n)]))
  {
    hide Reachable, MustWait, Exec;
    if n == 0 {
      assert s.txs[t := s.txs[t]] == s.txs;
    } else {
      RunsOn(s, t, n - 1);
      var before := s.(txs := s.txs[t := Ran(s.db, s.txs[t], n - 1)]);
      var after := s.(txs := s.txs[t := Ran(s.db, s.txs[t], n)]);
      assert GoesOn(s.db, s.txs[t], n - 1);
      assert Clear(before, t);
      hide Ran;
      assert UnguardedStep(before, Statement(t), after);
      OneStepMore(before, Statement(t), after);
    }
  }

  /** A transaction that holds nothing and has written nothing keeps nobody waiting. */
  predicate Idle(tx: Tx) {
    tx.holds == {} && tx.rows == map[]
  }

  lemma IdleKeepsNobodyWaiting(db: Db, tx: Tx, ty: Tx)
    requires Idle(ty)
    ensures !MustWait(db, tx, ty)
  {}

  // The scene.

  datatype Scene = Scene(db: Db, m: MatchId, a: UserId, b: UserId, key: Key, code: Code, t: int, t': int)

  /** Two users, a challenge with files, and an empty store. */
  ghost predicate Staged(x: Scene) {
    && Initial(x.db) && x.a != x.b && x.a in x.db.users && x.b in x.db.users
    && x.key in x.db.catalog && x.db.catalog[x.key].files != map[] && x.code != ""
  }

  function Creating(x: Scene): Op { CreateLobby(x.m, x.a, x.key, x.code) }
  function Joins(x: Scene): Op { JoinLobby(x.b, x.code) }

  function OneSeat(x: Scene): Match { WithSeat(NewMatch(x.key, x.code), x.a, 1) }
  function TwoSeats(x: Scene): Match { WithSeat(OneSeat(x), x.b, 2) }

  function Created(x: Scene): Db {
    x.db.(matches := map[x.m := OneSeat(x)], logs := map[x.m := Log(0, [])])
  }

  function Joined(x: Scene): Db {
    Created(x).(matches := map[x.m := TwoSeats(x)])
  }

  function FirstReady(x: Scene): Db {
    Joined(x).(matches := map[x.m := MarkReady(TwoSeats(x), x.a, x.t)])
  }

  function SecondReady(x: Scene): Db {
    Joined(x).(matches := map[x.m := MarkReady(TwoSeats(x), x.b, x.t')])
  }

  /** A ReadyUp whose lock statement has found no row. */
  function Unlocked(m: MatchId, u: UserId, now: int): Tx {
    Begun(ReadyUp(m, u), now).(pc := NoRow)
  }

  function Pair(x: Scene): map<TxId, Tx> {
    map[1 := Unlocked(x.m, x.a, x.t), 2 := Unlocked(x.m, x.b, x.t')]
  }

  function AfterLocks(x: Scene): Sys {
    Sys(x.db, Pair(x)[0 := Begun(Creating(x), 0)], [x.db], [])
  }

  function AfterCreate(x: Scene): Sys {
    Sys(Created(x), Pair(x), [x.db, Created(x)], [Entry(Creating(x), 0, Shown(x.m, OneSeat(x)))])
  }

  function AfterJoin(x: Scene): Sys {
    Sys(Joined(x), Pair(x), [x.db, Created(x), Joined(x)],
        [Entry(Creating(x), 0, Shown(x.m, OneSeat(x))), Entry(Joins(x), 0, Shown(x.m, TwoSeats(x)))])
  }

  function ReadyTx(x: Scene, u: UserId, now: int): Tx {
    var r := MarkReady(TwoSeats(x), u, now);
    Unlocked(x.m, u, now).(rows := map[x.m := r], pc := Committing, answer := Moved(r, false))
  }

  function BothThrough(x: Scene): Sys {
    AfterJoin(x).(txs := map[1 := ReadyTx(x, x.a, x.t), 2 := ReadyTx(x, x.b, x.t')])
  }

  function AtTheEnd(x: Scene): Sys {
    Sys(SecondReady(x), map[],
        AfterJoin(x).states + [FirstReady(x), SecondReady(x)],
        AfterJoin(x).log + [Entry(ReadyUp(x.m, x.a), x.t, Moved(MarkReady(TwoSeats(x), x.a, x.t), false)),
                            Entry(ReadyUp(x.m, x.b), x.t', Moved(MarkReady(TwoSeats(x), x.b, x.t'), false))])
  }

  // Act one: the lobby is being created, and both lock statements find nothing.

  lemma BeginOne(s: Sys, t: TxId, op: Op, now: int)
    requires Reachable(s) && t !in s.txs && Transactional(op) && (op.CreateLobby? ==> op.id !in s.db.matches)
    ensures Reachable(s.(txs := s.txs[t := Begun(op, now)]))
  {
    hide Reachable;
    OneStepMore(s, Begin(t, op, now), s.(txs := s.txs[t := Begun(op, now)]));
  }

  lemma LockFindsNothing(s: Sys, t: TxId, m: MatchId, u: UserId, now: int)
    requires Reachable(s) && t in s.txs && s.txs[t] == Begun(ReadyUp(m, u), now) && m !in s.db.matches
    ensures Reachable(s.(txs := s.txs[t := Unlocked(m, u, now)]))
  {
    hide Reachable;
    OneStepMore(s, Statement(t), s.(txs := s.txs[t := Unlocked(m, u, now)]));
  }

  lemma ActOne(x: Scene)
    requires Staged(x)
    ensures Reachable(AfterLocks(x))
  {
    hide Reachable, CatalogOk;
    var s0 := Sys(x.db, map[], [x.db], []);
    Starts0(s0);
    BeginOne(s0, 0, Creating(x), 0);
    var s1 := s0.(txs := s0.txs[0 := Begun(Creating(x), 0)]);
    BeginOne(s1, 1, ReadyUp(x.m, x.a), x.t);
    var s2 := s1.(txs := s1.txs[1 := Begun(ReadyUp(x.m, x.a), x.t)]);
    BeginOne(s2, 2, ReadyUp(x.m, x.b), x.t');
    var s3 := s2.(txs := s2.txs[2 := Begun(ReadyUp(x.m, x.b), x.t')]);
    LockFindsNothing(s3, 1, x.m, x.a, x.t);
    var s4 := s3.(txs := s3.txs[1 := Unlocked(x.m, x.a, x.t)]);
    LockFindsNothing(s4, 2, x.m, x.b, x.t');
    assert s4.(txs := s4.txs[2 := Unlocked(x.m, x.b, x.t')]) == AfterLocks(x);
  }

  // Act two: the lobby is committed and the second player joins.

  lemma NobodyThere(x: Scene, u: UserId)
    requires Staged(x)
    ensures !CodeTaken(x.db.matches, x.code) && !UserTaken(x.db.matches, u)
  {}

  lemma CreatingGoes(x: Scene)
    requires Staged(x)
    ensures
      var tx := Begun(Creating(x), 0);
      && Ran(x.db, tx, 3) == tx.(pc := Committing, holds := {x.m}, rows := map[x.m := OneSeat(x)],
                                 logs := map[x.m := Log(0, [])], answer := Shown(x.m, OneSeat(x)))
      && forall k | 0 <= k < 3 :: GoesOn(x.db, tx, k)
  {
    NobodyThere(x, x.a);
    hide CodeTaken, UserTaken, WithSeat, NewMatch, CatalogOk;
    var tx := Begun(Creating(x), 0);
    var inserted := tx.(pc := InsertHost, holds := {x.m}, rows := map[x.m := NewMatch(x.key, x.code)],
                        logs := map[x.m := Log(0, [])]);
    var seated := inserted.(pc := ReadBack, rows := map[x.m := OneSeat(x)]);
    var done := seated.(pc := Committing, answer := Shown(x.m, OneSeat(x)));
    assert Exec(x.db, tx) == Go(inserted) && Exec(x.db, inserted) == Go(seated) && Exec(x.db, seated) == Go(done);
    hide Exec;
    ThreeInARow(x.db, tx, inserted, seated, done);
  }

  lemma ThreeInARow(db: Db, t0: Tx, t1: Tx, t2: Tx, t3: Tx)
    requires Transactional(t0.op) && t1.op == t2.op == t3.op == t0.op
    requires Exec(db, t0) == Go(t1) && Exec(db, t1) == Go(t2) && Exec(db, t2) == Go(t3)
    requires !t0.pc.Committing? && !t1.pc.Committing? && !t2.pc.Committing?
    ensures Ran(db, t0, 0) == t0 && Ran(db, t0, 1) == t1 && Ran(db, t0, 2) == t2 && Ran(db, t0, 3) == t3
    ensures forall k | 0 <= k < 3 :: GoesOn(db, t0, k)
  {
    hide Exec;
    assert Ran(db, t0, 1) == t1;
    assert Ran(db, t0, 2) == t2;
    assert Ran(db, t0, 3) == t3;
    hide Ran;
    forall k | 0 <= k < 3 ensures GoesOn(db, t0, k) {
      assert k == 0 || k == 1 || k == 2;
    }
  }

  lemma FourInARow(db: Db, t0: Tx, t1: Tx, t2: Tx, t3: Tx, t4: Tx)
    requires Transactional(t0.op) && t1.op == t2.op == t3.op == t4.op == t0.op
    requires Exec(db, t0) == Go(t1) && Exec(db, t1) == Go(t2) && Exec(db, t2) == Go(t3) && Exec(db, t3) == Go(t4)
    requires !t0.pc.Committing? && !t1.pc.Committing? && !t2.pc.Committing? && !t3.pc.Committing?
    ensures Ran(db, t0, 0) == t0 && Ran(db, t0, 1) == t1 && Ran(db, t0, 2) == t2
    ensures Ran(db, t0, 3) == t3 && Ran(db, t0, 4) == t4
    ensures forall k | 0 <= k < 4 :: GoesOn(db, t0, k)
  {
    hide Exec;
    ThreeInARow(db, t0, t1, t2, t3);
    assert Ran(db, t0, 4) == t4;
    hide Ran;
    forall k | 0 <= k < 4 ensures GoesOn(db, t0, k) {
      assert k < 3 || k == 3;
    }
  }

  lemma CommitOne(s: Sys, t: TxId)
    requires Reachable(s) && t in s.txs && s.txs[t].pc.Committing?
    ensures
      var tx := s.txs[t];
      Reachable(Recorded(Ended(s, t), Entry(tx.op, tx.now, tx.answer), Merged(s.db, tx)))
  {
    hide Reachable, Merged;
    var tx := s.txs[t];
    OneStepMore(s, Commit(t), Recorded(Ended(s, t), Entry(tx.op, tx.now, tx.answer), Merged(s.db, tx)));
  }

  /** Beside idle transactions one runs to its commit without waiting. */
  lemma RunAndCommit(s: Sys, t: TxId, n: nat, done: Tx, db': Db)
    requires Reachable(s) && t in s.txs && Transactional(s.txs[t].op)
    requires forall t' | t' in s.txs && t' != t :: Idle(s.txs[t'])
    requires forall k | 0 <= k < n :: GoesOn(s.db, s.txs[t], k)
    requires Ran(s.db, s.txs[t], n) == done && done.pc.Committing? && Merged(s.db, done) == db'
    ensures Reachable(Recorded(Ended(s, t), Entry(done.op, done.now, done.answer), db'))
  {
    hide Reachable, Merged, Ran, GoesOn, MustWait, Idle;
    forall k, t' | 0 <= k < n && t' in s.txs && t' != t ensures !MustWait(s.db, Ran(s.db, s.txs[t], k), s.txs[t']) {
      IdleKeepsNobodyWaiting(s.db, Ran(s.db, s.txs[t], k), s.txs[t']);
    }
    RunsOn(s, t, n);
    var through := s.(txs := s.txs[t := done]);
    CommitOne(through, t);
    assert through.txs - {t} == s.txs - {t};
  }

  lemma Created0(x: Scene)
    requires Staged(x)
    ensures Reachable(AfterCreate(x))
  {
    hide Reachable, Staged, Exec, Ran, GoesOn, OneSeat, Merged, Created;
    ActOne(x);
    CreatingGoes(x);
    var s := AfterLocks(x);
    var done := Ran(x.db, s.txs[0], 3);
    CreateMerges(x, done);
    RunAndCommit(s, 0, 3, done, Created(x));
    hide Unlocked;
    assert s.txs - {0} == Pair(x);
    assert [x.db] + [Created(x)] == AfterCreate(x).states;
    assert [] + [Entry(Creating(x), 0, Shown(x.m, OneSeat(x)))] == AfterCreate(x).log;
  }

  lemma CreateMerges(x: Scene, tx: Tx)
    requires Staged(x) && tx.rows == map[x.m := OneSeat(x)] && tx.logs == map[x.m := Log(0, [])] && tx.trees == map[]
    ensures Merged(x.db, tx) == Created(x)
  {
    hide WithSeat, NewMatch, CatalogOk;
    assert x.db.trees + map[] == x.db.trees;
  }

  lemma OneSeatIsOpen(x: Scene)
    requires Staged(x)
    ensures
      var ms := Created(x).matches;
      && CodeTaken(ms, x.code) && LobbyNamed(ms, x.code) == x.m && !UserTaken(ms, x.b)
      && FreeSlot(OneSeat(x)) == Some(2) && x.b !in OneSeat(x).seats
  {
    var ms := Created(x).matches;
    var r := OneSeat(x);
    assert r.seats == map[x.a := Seat(1, None, None, true)];
    assert OpenLobby(ms, x.m, x.code);
    assert SlotTaken(r, 1) && !SlotTaken(r, 2) by {
      assert r.seats[x.a].slot == 1;
    }
    forall n | n in ms ensures !UnfinishedSeat(ms, n, x.b) {}
  }

  lemma JoiningGoes(x: Scene)
    requires Staged(x)
    ensures
      var tx := Begun(Joins(x), 0);
      && Ran(Created(x), tx, 4) == tx.(pc := Committing, m := x.m, holds := {x.m},
                                       rows := map[x.m := TwoSeats(x)], answer := Shown(x.m, TwoSeats(x)))
      && forall k | 0 <= k < 4 :: GoesOn(Created(x), tx, k)
  {
    OneSeatIsOpen(x);
    hide CodeTaken, UserTaken, WithSeat, NewMatch, FreeSlot, CatalogOk;
    var db, tx := Created(x), Begun(Joins(x), 0);
    var found := tx.(pc := ReadLobby, m := x.m, holds := {x.m});
    var free := found.(pc := TakeSeat(2));
    var seated := free.(pc := ReadBack, rows := map[x.m := TwoSeats(x)]);
    var done := seated.(pc := Committing, answer := Shown(x.m, TwoSeats(x)));
    assert Exec(db, tx) == Go(found) && Exec(db, found) == Go(free);
    assert Exec(db, free) == Go(seated) && Exec(db, seated) == Go(done);
    hide Exec;
    FourInARow(db, tx, found, free, seated, done);
  }

  lemma ActTwo(x: Scene)
    requires Staged(x)
    ensures Reachable(AfterJoin(x))
  {
    hide Reachable, Staged, Exec, Ran, GoesOn, OneSeat, TwoSeats, Merged;
    Created0(x);
    JoiningGoes(x);
    var s0 := AfterCreate(x);
    BeginOne(s0, 3, Joins(x), 0);
    var s := s0.(txs := s0.txs[3 := Begun(Joins(x), 0)]);
    var done := Ran(Created(x), s.txs[3], 4);
    RowMerges(x, Created(x), TwoSeats(x), done);
    RunAndCommit(s, 3, 4, done, Joined(x));
    hide Unlocked;
    assert s.txs - {3} == Pair(x);
    assert s0.states + [Joined(x)] == AfterJoin(x).states;
    assert s0.log + [Entry(Joins(x), 0, Shown(x.m, TwoSeats(x)))] == AfterJoin(x).log;
  }

  lemma RowMerges(x: Scene, db: Db, r: Match, tx: Tx)
    requires db.matches.Keys == {x.m} && tx.rows == map[x.m := r] && tx.logs == map[] && tx.trees == map[]
    ensures Merged(db, tx) == db.(matches := map[x.m := r])
  {
    assert db.logs + map[] == db.logs && db.trees + map[] == db.trees;
    assert db.matches + map[x.m := r] == map[x.m := r];
  }

  // Act three: both calls go through without a lock.

  ghost predicate WaitingPair(r: Match, a: UserId, b: UserId) {
    && a != b && r.state.Lobby? && r.seats.Keys == {a, b}
    && r.seats[a].readyAt.None? && r.seats[b].readyAt.None?
  }

  /** Read, mark, see the other not ready, read back: the call comes to its commit without a lock, and
      reports that it did not start the match. */
  lemma UnlockedCallGoesThrough(db: Db, m: MatchId, a: UserId, b: UserId, now: int)
    requires m in db.matches && WaitingPair(db.matches[m], a, b)
    ensures
      var tx := Unlocked(m, a, now);
      var r := MarkReady(db.matches[m], a, now);
      && Ran(db, tx, 4) == tx.(rows := map[m := r], pc := Committing, answer := Moved(r, false))
      && (forall k | 0 <= k < 4 :: GoesOn(db, tx, k))
      && forall k | 0 <= k <= 4 ::
           var t := Ran(db, tx, k);
           t.holds == {} && (t.rows == map[] || t.rows == map[m := r]) && !t.pc.LockRow?
  {
    var r := db.matches[m];
    var tx := Unlocked(m, a, now);
    PairIsTwo(a, b, r);
    assert MarkReady(r, a, now).seats[b].readyAt.None?;
    var marked := MarkReady(r, a, now);
    hide MarkReady, SeedsSomething, SeedRows, Start;
    var read := tx.(pc := ReadySeat);
    var ready := tx.(rows := map[m := marked], pc := StartRow);
    var back := ready.(pc := ReadBack);
    var done := back.(answer := Moved(marked, false), pc := Committing);
    assert Exec(db, tx) == Go(read) && Exec(db, read) == Go(ready);
    assert Exec(db, ready) == Go(back) && Exec(db, back) == Go(done);
    hide Exec, CanStart;
    FourInARow(db, tx, read, ready, back, done);
    hide Ran;
    forall k | 0 <= k <= 4
      ensures
        var t := Ran(db, tx, k);
        t.holds == {} && (t.rows == map[] || t.rows == map[m := marked]) && !t.pc.LockRow?
    {
      assert k == 0 || k == 1 || k == 2 || k == 3 || k == 4;
    }
  }

  /** Wherever the two calls stand, neither waits for the other. */
  lemma NeitherWaits(db: Db, m: MatchId, a: UserId, b: UserId, t: int, t': int, n: nat, k: nat)
    requires m in db.matches && WaitingPair(db.matches[m], a, b) && n <= 4 && k <= 4
    ensures !MustWait(db, Ran(db, Unlocked(m, a, t), n), Ran(db, Unlocked(m, b, t'), k))
  {
    UnlockedCallGoesThrough(db, m, a, b, t);
    UnlockedCallGoesThrough(db, m, b, a, t');
    hide Ran, MarkReady;
  }

  lemma TwoSeatsWait(x: Scene)
    requires Staged(x)
    ensures WaitingPair(TwoSeats(x), x.a, x.b) && WaitingPair(TwoSeats(x), x.b, x.a)
    ensures TwoSeats(x).challenge == x.key
  {}

  /** Beside one other transaction that it never has to wait for, one runs on. */
  lemma RunsBeside(s: Sys, t: TxId, other: TxId, n: nat, done: Tx)
    requires Reachable(s) && s.txs.Keys == {t, other} && t != other && Transactional(s.txs[t].op)
    requires forall k | 0 <= k < n :: GoesOn(s.db, s.txs[t], k) && !MustWait(s.db, Ran(s.db, s.txs[t], k), s.txs[other])
    requires Ran(s.db, s.txs[t], n) == done
    ensures Reachable(s.(txs := s.txs[t := done]))
  {
    hide Reachable, Ran, GoesOn, MustWait;
    forall k, t' | 0 <= k < n && t' in s.txs && t' != t ensures !MustWait(s.db, Ran(s.db, s.txs[t], k), s.txs[t']) {
      assert t' == other;
    }
    RunsOn(s, t, n);
  }

  function OneThrough(x: Scene): Sys {
    AfterJoin(x).(txs := map[1 := ReadyTx(x, x.a, x.t), 2 := Unlocked(x.m, x.b, x.t')])
  }

  lemma JoinedWaits(x: Scene)
    requires Staged(x)
    ensures
      && x.m in Joined(x).matches && Joined(x).matches[x.m] == TwoSeats(x)
      && WaitingPair(TwoSeats(x), x.a, x.b) && WaitingPair(TwoSeats(x), x.b, x.a)
  {
    TwoSeatsWait(x);
  }

  lemma FirstGoesThrough(x: Scene)
    requires Staged(x)
    ensures Reachable(OneThrough(x))
  {
    hide Reachable, Staged, WaitingPair, MarkReady, TwoSeats, MustWait, Joined, GoesOn;
    ActTwo(x);
    JoinedWaits(x);
    var s, db := AfterJoin(x), Joined(x);
    var first, second := Unlocked(x.m, x.a, x.t), Unlocked(x.m, x.b, x.t');
    UnlockedCallGoesThrough(db, x.m, x.a, x.b, x.t);
    assert Ran(db, second, 0) == second;
    hide Ran;
    forall k | 0 <= k < 4 ensures !MustWait(db, Ran(db, first, k), second) {
      NeitherWaits(db, x.m, x.a, x.b, x.t, x.t', k, 0);
    }
    RunsBeside(s, 1, 2, 4, ReadyTx(x, x.a, x.t));
    assert s.txs[1 := ReadyTx(x, x.a, x.t)] == OneThrough(x).txs;
  }

  lemma ActThree(x: Scene)
    requires Staged(x)
    ensures Reachable(BothThrough(x))
  {
    hide Reachable, Staged, WaitingPair, MarkReady, TwoSeats, MustWait, Joined, Ran, GoesOn;
    FirstGoesThrough(x);
    JoinedWaits(x);
    var s, db := OneThrough(x), Joined(x);
    UnlockedCallGoesThrough(db, x.m, x.a, x.b, x.t);
    UnlockedCallGoesThrough(db, x.m, x.b, x.a, x.t');
    forall k | 0 <= k < 4 ensures !MustWait(db, Ran(db, s.txs[2], k), s.txs[1]) {
      NeitherWaits(db, x.m, x.b, x.a, x.t', x.t, k, 4);
    }
    RunsBeside(s, 2, 1, 4, ReadyTx(x, x.b, x.t'));
    assert s.txs[2 := ReadyTx(x, x.b, x.t')] == BothThrough(x).txs;
  }

  lemma ActFour(x: Scene)
    requires Staged(x)
    ensures Reachable(AtTheEnd(x))
  {
    hide Reachable, Staged, MarkReady, TwoSeats, OneSeat, Merged, Joined;
    ActThree(x);
    var s := BothThrough(x);
    JoinedHasOneMatch(x);
    CommitOne(s, 1);
    RowMerges(x, Joined(x), MarkReady(TwoSeats(x), x.a, x.t), s.txs[1]);
    var e := Entry(ReadyUp(x.m, x.a), x.t, s.txs[1].answer);
    var first := Recorded(Ended(s, 1), e, FirstReady(x));
    CommitOne(first, 2);
    RowMerges(x, FirstReady(x), MarkReady(TwoSeats(x), x.b, x.t'), first.txs[2]);
    TwoMore(s.states, FirstReady(x), SecondReady(x));
    TwoMore(s.log, e, Entry(ReadyUp(x.m, x.b), x.t', s.txs[2].answer));
  }

  lemma JoinedHasOneMatch(x: Scene)
    ensures Joined(x).matches.Keys == {x.m}
  {}

  lemma TwoMore<T>(s: seq<T>, a: T, b: T)
    ensures s + [a] + [b] == s + [a, b]
  {}

  /** Taken whole, the second of the two calls would have reported the start. */
  lemma SecondWouldHaveStarted(x: Scene, db': Db, after: Match)
    requires Staged(x) && Sound(FirstReady(x))
    ensures !AtomicStep(FirstReady(x), ReadyUp(x.m, x.b), x.t', Moved(after, false), db')
  {
    hide Sound, ReadyUpStep, OnlyReadied;
    FirstIsReady(x);
    hide MarkReady, TwoSeats, OthersReady, Staged;
    ReadyUpAnswers(FirstReady(x), x.m, x.b, x.t');
  }

  lemma FirstIsReady(x: Scene)
    requires Staged(x)
    ensures
      var r := MarkReady(TwoSeats(x), x.a, x.t);
      && r.state.Lobby? && x.b in r.seats && |r.seats| == SLOTS && OthersReady(r, x.b)
      && r.challenge in x.db.catalog && x.db.catalog[r.challenge].files != map[]
  {
    hide CatalogOk;
    var r := MarkReady(TwoSeats(x), x.a, x.t);
    assert r.seats.Keys == {x.a, x.b};
    PairIsTwo(x.a, x.b, r);
    assert r.seats[x.a].readyAt.Some?;
  }

  /** Without the guard there is a run of the interleaved statements whose committed history is no run of
      whole operations: both players have called, neither call reports the start, and the match is still
      in its lobby. */
  lemma WithoutTheGuardHistoryIsNoRun(x: Scene)
    requires Staged(x)
    ensures exists trace, labels ::
              && IsUnguardedTrace(trace, labels)
              && trace[|labels|] == AtTheEnd(x)
    ensures
      var s := AtTheEnd(x);
      && !IsRun(s.states, s.log)
      && x.m in s.db.matches && s.db.matches[x.m].state.Lobby?
      && Count(s.log, e => Starts(e, x.m)) == 0
  {
    ActFour(x);
    var s := AtTheEnd(x);
    hide IsUnguardedTrace;
    HistoryIsNoRun(x);
    NobodySaysItStarted(x);
  }

  lemma HistoryIsNoRun(x: Scene)
    requires Staged(x)
    ensures !IsRun(AtTheEnd(x).states, AtTheEnd(x).log)
  {
    hide AtomicStep, Sound, Initial, MarkReady, TwoSeats, OneSeat;
    var s := AtTheEnd(x);
    if IsRun(s.states, s.log) {
      EveryStateIsSound(s.states, s.log, 3);
      assert s.states[3] == FirstReady(x) && s.log[3].op == ReadyUp(x.m, x.b);
      assert AtomicStep(s.states[3], s.log[3].op, s.log[3].now, s.log[3].answer, s.states[4]);
      SecondWouldHaveStarted(x, s.states[4], MarkReady(TwoSeats(x), x.b, x.t'));
    }
  }

  lemma NobodySaysItStarted(x: Scene)
    ensures Count(AtTheEnd(x).log, e => Starts(e, x.m)) == 0
    ensures AtTheEnd(x).db.matches[x.m].state.Lobby?
  {
    var log := AtTheEnd(x).log;
    assert |log| == 4 && forall i | 0 <= i < 4 :: !Starts(log[i], x.m);
    NoneCounted(log, x.m);
  }

  lemma {:induction false} NoneCounted(log: seq<Entry>, m: MatchId)
    requires forall i | 0 <= i < |log| :: !Starts(log[i], m)
    ensures Count(log, e => Starts(e, m)) == 0
  {
    if log != [] {
      NoneCounted(log[..|log| - 1], m);
    }
  }

  // What the database itself is left with.

  /** In the interleaved model a commit writes whole match rows, as it may while the lock keeps others out.
      The database writes the two seat rows apart, so there both marks stand. */
  function BothMarked(r: Match, a: UserId, b: UserId, t: int, t': int): Match
    requires a in r.seats && b in r.seats
  {
    r.(seats := r.seats[a := r.seats[a].(readyAt := Stamp(r.seats[a].readyAt, t))]
                       [b := r.seats[b].(readyAt := Stamp(r.seats[b].readyAt, t'))])
  }

  /** With the seat rows written apart, both players are ready, the match is not started, and neither call
      said it was. No sound database looks like that. */
  lemma UnlockedReadiesStrandTheMatch(db: Db, m: MatchId, a: UserId, b: UserId, t: int, t': int)
    requires m in db.matches && WaitingPair(db.matches[m], a, b)
    ensures
      var r := db.matches[m];
      var stranded := BothMarked(r, a, b, t, t');
      && Ran(db, Unlocked(m, a, t), 4).answer == Moved(MarkReady(r, a, t), false)
      && Ran(db, Unlocked(m, b, t'), 4).answer == Moved(MarkReady(r, b, t'), false)
      && stranded.seats[a] == MarkReady(r, a, t).seats[a] && stranded.seats[b] == MarkReady(r, b, t').seats[b]
      && stranded.state.Lobby? && |stranded.seats| == SLOTS && AllReady(stranded)
      && !Sound(WithMatch(db, m, stranded))
  {
    UnlockedCallGoesThrough(db, m, a, b, t);
    UnlockedCallGoesThrough(db, m, b, a, t');
    hide Ran, Unlocked, Exec;
    StrandedIsUnsound(db, m, a, b, t, t');
    hide Sound;
  }

  lemma StrandedIsUnsound(db: Db, m: MatchId, a: UserId, b: UserId, t: int, t': int)
    requires m in db.matches && WaitingPair(db.matches[m], a, b)
    ensures
      var r := BothMarked(db.matches[m], a, b, t, t');
      && r.state.Lobby? && |r.seats| == SLOTS && AllReady(r) && !Sound(WithMatch(db, m, r))
  {
    var r := BothMarked(db.matches[m], a, b, t, t');
    assert r.seats.Keys == {a, b};
    PairIsTwo(a, b, r);
    assert AllReady(r);
    assert !MatchOk(db.catalog, r);
    assert WithMatch(db, m, r).matches[m] == r;
  }

  /** Taken whole, whichever comes first, the second of the two calls starts the match and says so. */
  lemma WholeReadiesStartIt(db: Db, m: MatchId, a: UserId, b: UserId, t: int, t': int)
    requires Sound(db) && m in db.matches && WaitingPair(db.matches[m], a, b)
    requires db.matches[m].challenge in db.catalog && db.catalog[db.matches[m].challenge].files != map[]
    ensures
      var (db1, first) := ReadyUpStep(db, m, a, t);
      var second := ReadyUpStep(db1, m, b, t').1;
      first.Moved? && !first.moved && second.Moved? && second.moved
  {
    hide ReadyUpStep;
    NothingSubmittedYet(db, m);
    ReadyingStarts(db, m, a, b, t, t');
  }

  lemma NothingSubmittedYet(db: Db, m: MatchId)
    requires Sound(db) && m in db.matches && db.matches[m].state.Lobby?
    ensures forall u | u in db.matches[m].seats :: db.matches[m].seats[u].submittedAt.None?
  {
    assert MatchOk(db.catalog, db.matches[m]);
  }
}
