/**
 Deadlock freedom of the single operations of the match store.

 `MayWait` is everything a statement could be made to wait for, including entries whose
 transaction has touched them without deciding their fate. Waits only go up: from lobby codes and
 match rows to memberships, and from memberships to transactions that wait for nothing more.
 */
module Waiting {
  import opened Rows
  import opened Transitions
  import opened Runs
  import opened Interleaving
  import opened Simulation

  ghost predicate MayWait(db: Db, tx: Tx, ty: Tx) {
    || (exists m | m in ty.holds :: Wants(db, tx, m))
    || (tx.op.CreateLobby? && tx.pc.InsertMatch? && exists m | m in ty.rows || m in ty.logs ::
          OpenLobby(ty.rows, m, tx.op.code) || OpenLobby(db.matches, m, tx.op.code))
    || (Joining(tx).Some? && exists m | m in ty.rows ::
          || UnfinishedSeat(ty.rows, m, Joining(tx).value)
          || UnfinishedSeat(db.matches, m, Joining(tx).value))
  }

  lemma MustWaitMayWait(db: Db, tx: Tx, ty: Tx)
    requires MustWait(db, tx, ty)
    ensures MayWait(db, tx, ty)
  {}

  /** 0: about to take a lobby code or a match row. 1: about to take a membership. 2: waits no more. */
  function Rank(tx: Tx): nat {
    match tx.pc
    case InsertMatch => 0
    case FindLobby => 0
    case LockRow => 0
    case ExpireRow => 0
    case BumpSeq => 0
    case InsertHost => 1
    case TakeSeat(_) => 1
    case _ => 2
  }

  /** At rank 0 a transaction has nothing another could want. */
  lemma NothingHeldAtRankZero(db: Db, ty: Tx)
    requires TxOk(db, ty) && Rank(ty) == 0
    ensures Clean(ty)
  {
    hide CodeTaken, UserTaken, SeedsSomething, SeedRows, CanStart, Start, MarkReady, MarkSubmitted, CanFinish,
      Judge, Due, WithSeat, FreeSlot, WithEvent, Abandon;
  }

  /** At rank 1 it has written no membership, and no row that holds one. */
  lemma NoMembershipAtRankOne(db: Db, ty: Tx, m: MatchId, u: UserId)
    requires TxOk(db, ty) && Rank(ty) == 1 && m in ty.rows
    ensures !UnfinishedSeat(ty.rows, m, u) && !UnfinishedSeat(db.matches, m, u)
  {
    hide CodeTaken, UserTaken, SeedsSomething, SeedRows, CanStart, Start, MarkReady, MarkSubmitted, CanFinish,
      Judge, Due, WithSeat, FreeSlot, WithEvent, Abandon;
  }

  /** A wait goes strictly up, so no chain of waits returns to where it began. */
  lemma WaitsGoUp(db: Db, tx: Tx, ty: Tx)
    requires TxOk(db, tx) && TxOk(db, ty) && MayWait(db, tx, ty)
    ensures Rank(tx) < Rank(ty)
  {
    if Rank(ty) == 0 {
      NothingHeldAtRankZero(db, ty);
    } else if Rank(ty) == 1 && Joining(tx).Some? {
      hide TxOk;
      forall m | m in ty.rows
        ensures !UnfinishedSeat(ty.rows, m, Joining(tx).value) && !UnfinishedSeat(db.matches, m, Joining(tx).value)
      {
        NoMembershipAtRankOne(db, ty, m, Joining(tx).value);
      }
    }
    hide TxOk;
  }

  ghost predicate WaitChain(s: Sys, chain: seq<TxId>) {
    && (forall i | 0 <= i < |chain| :: chain[i] in s.txs)
    && (forall i | 0 <= i < |chain| - 1 :: MayWait(s.db, s.txs[chain[i]], s.txs[chain[i + 1]]))
  }

  lemma {:induction false} RanksAscend(ranks: seq<nat>)
    requires forall i | 0 <= i < |ranks| - 1 :: ranks[i] < ranks[i + 1]
    ensures forall i, j | 0 <= i < j < |ranks| :: ranks[i] < ranks[j]
    ensures forall i | 0 <= i < |ranks| :: ranks[i] >= i
    ensures (forall i | 0 <= i < |ranks| :: ranks[i] <= 2) ==> |ranks| <= 3
  {
    if |ranks| > 0 {
      assert ranks[|ranks| - 1] >= 0;
    }
    if |ranks| > 1 {
      RanksAscend(ranks[..|ranks| - 1]);
      forall i | 0 <= i < |ranks| - 1 ensures ranks[i] < ranks[|ranks| - 1] && ranks[i] >= i {
        assert ranks[..|ranks| - 1][i] == ranks[i];
        assert ranks[|ranks| - 2] < ranks[|ranks| - 2 + 1];
      }
      assert ranks[..|ranks| - 1][|ranks| - 2] >= |ranks| - 2;
    }
  }

  /** In every reachable state the longest chain of waits has three transactions, none twice. */
  lemma WaitsAreAcyclic(trace: seq<Sys>, labels: seq<Label>, n: nat, chain: seq<TxId>)
    requires IsTrace(trace, labels) && n < |trace| && WaitChain(trace[n], chain)
    ensures |chain| <= 3
    ensures forall i, j | 0 <= i < j < |chain| :: chain[i] != chain[j]
  {
    ReachableIsInv(trace, labels, n);
    hide Step, IsRun, TxOk, Apart, MayWait;
    var s := trace[n];
    forall i | 0 <= i < |chain| - 1 ensures Rank(s.txs[chain[i]]) < Rank(s.txs[chain[i + 1]]) {
      WaitsGoUp(s.db, s.txs[chain[i]], s.txs[chain[i + 1]]);
    }
    var ranks := seq(|chain|, i requires 0 <= i < |chain| => Rank(s.txs[chain[i]]));
    RanksAscend(ranks);
    forall i, j | 0 <= i < j < |chain| ensures chain[i] != chain[j] {
      assert ranks[i] < ranks[j];
    }
  }

  ghost predicate WaitsForNobody(s: Sys, t: TxId)
    requires t in s.txs
  {
    forall t' | t' in s.txs && t' != t :: !MayWait(s.db, s.txs[t], s.txs[t'])
  }

  lemma {:induction false} HighestRank(txs: map<TxId, Tx>) returns (t: TxId)
    requires txs != map[]
    ensures t in txs && forall t' | t' in txs :: Rank(txs[t']) <= Rank(txs[t])
    decreases |txs|
  {
    var first :| first in txs;
    t := first;
    var rest := txs - {first};
    if rest != map[] {
      var best := HighestRank(rest);
      if Rank(txs[best]) > Rank(txs[first]) {
        t := best;
      }
      forall t' | t' in txs ensures Rank(txs[t']) <= Rank(txs[t]) {
        assert t' == first || t' in rest;
      }
    }
  }

  lemma RowIsMissing(db: Db, tx: Tx)
    requires TxOk(db, tx)
    ensures Transactional(tx.op)
    ensures tx.pc.NoRow? ==> tx.m !in db.matches
  {
    hide CodeTaken, UserTaken;
  }

  /** A transaction that nothing holds up has a next step. */
  lemma FreeToStep(s: Sys, t: TxId)
    requires t in s.txs && Transactional(s.txs[t].op) && Clear(s, t)
    ensures exists s' :: Step(s, Statement(t), s') || Step(s, Commit(t), s')
  {
    hide Exec, MustWait, Merged;
    var tx := s.txs[t];
    var s' := if tx.pc.Committing?
              then Recorded(Ended(s, t), Entry(tx.op, tx.now, tx.answer), Merged(s.db, tx))
              else After(s, t, Exec(s.db, tx));
    hide After;
    assert Step(s, Statement(t), s') || Step(s, Commit(t), s');
  }

  /** The transaction furthest on waits for nobody. */
  lemma FurthestWaitsForNobody(s: Sys, t: TxId)
    requires TxsOk(s.db, s.txs) && t in s.txs && forall t' | t' in s.txs :: Rank(s.txs[t']) <= Rank(s.txs[t])
    ensures WaitsForNobody(s, t) && Clear(s, t)
  {
    hide TxOk, Apart, MayWait, MustWait, Rank;
    forall t' | t' in s.txs && t' != t
      ensures !MayWait(s.db, s.txs[t], s.txs[t']) && !MustWait(s.db, s.txs[t], s.txs[t'])
    {
      if MayWait(s.db, s.txs[t], s.txs[t']) {
        WaitsGoUp(s.db, s.txs[t], s.txs[t']);
      }
      if MustWait(s.db, s.txs[t], s.txs[t']) {
        MustWaitMayWait(s.db, s.txs[t], s.txs[t']);
      }
    }
  }

  /** In every reachable state with a transaction in flight, one of them waits for nobody and can take
      its next statement or commit. */
  lemma SomebodyCanStep(trace: seq<Sys>, labels: seq<Label>, n: nat)
    requires IsTrace(trace, labels) && n < |trace| && trace[n].txs != map[]
    ensures exists t, s' :: t in trace[n].txs && WaitsForNobody(trace[n], t)
              && (Step(trace[n], Statement(t), s') || Step(trace[n], Commit(t), s'))
  {
    hide IsRun, TxOk, Apart, Step, WaitsForNobody, Clear, Rank, Transactional;
    var s := trace[n];
    ReachableIsInv(trace, labels, n);
    var t := HighestRank(s.txs);
    RowIsMissing(s.db, s.txs[t]);
    FurthestWaitsForNobody(s, t);
    FreeToStep(s, t);
  }

  // Everything in flight can be finished.

  /** Any operation may begin beside any others, at any moment, unless it names the id of a lobby that is
      still being created; and one that creates a lobby needs an id nobody has named. */
  lemma AnybodyCanBegin(s: Sys, t: TxId, op: Op, now: int) returns (s': Sys)
    requires t !in s.txs && !op.WriteFile? && !op.DeleteFile?
    requires forall u | u in s.txs && s.txs[u].op.CreateLobby? ::
               op.JoinLobby? || op.ExpireDue? || Target(op) != s.txs[u].op.id
    requires op.CreateLobby? ==>
               && op.id !in s.db.matches
               && forall u | u in s.txs ::
                    s.txs[u].op.JoinLobby? || s.txs[u].op.ExpireDue? || Target(s.txs[u].op) != op.id
    ensures Step(s, Begin(t, op, now), s')
    ensures s'.db == s.db && s'.log == s.log && s'.txs.Keys == s.txs.Keys + {t}
  {
    hide AtomicStep, Exec;
    s' := s.(txs := s.txs[t := Begun(op, now)]);
  }

  /** How many statements a transaction has before it at most, its commit included. */
  function StatementsLeft(pc: Pc): nat {
    match pc
    case InsertMatch => 4
    case InsertHost => 3
    case FindLobby => 5
    case ReadLobby => 4
    case TakeSeat(_) => 3
    case LockRow => 8
    case NoRow => 7
    case ReadMatch => 7
    case AbandonRow => 2
    case ReadySeat => 6
    case StartRow => 5
    case SeedFiles => 4
    case SubmitSeat => 6
    case FinishRow => 5
    case ReadBack => 2
    case ExpireRow => 2
    case PickDue => 2
    case BumpSeq => 3
    case InsertEvent => 2
    case Committing => 1
  }

  /** Which statements an operation is made of. */
  predicate Fits(op: Op, pc: Pc) {
    pc.Committing? ||
    match op
    case CreateLobby(_, _, _, _) => pc.InsertMatch? || pc.InsertHost? || pc.ReadBack?
    case JoinLobby(_, _) => pc.FindLobby? || pc.ReadLobby? || pc.TakeSeat? || pc.ReadBack?
    case CancelLobby(_, _) => pc.LockRow? || pc.NoRow? || pc.ReadMatch? || pc.AbandonRow?
    case ReadyUp(_, _) =>
      || pc.LockRow? || pc.NoRow? || pc.ReadMatch? || pc.ReadySeat? || pc.StartRow? || pc.SeedFiles? || pc.ReadBack?
    case Submit(_, _) =>
      pc.LockRow? || pc.NoRow? || pc.ReadMatch? || pc.SubmitSeat? || pc.FinishRow? || pc.ReadBack?
    case Expire(_) => pc.ExpireRow?
    case ExpireDue(_) => pc.PickDue?
    case AppendEvent(_, _, _) => pc.BumpSeq? || pc.InsertEvent?
    case _ => false
  }

  lemma OwnStatements(db: Db, tx: Tx)
    requires TxOk(db, tx)
    ensures Fits(tx.op, tx.pc)
  {
    hide CodeTaken, UserTaken, SeedRows, SeedsSomething, CanStart, Start, MarkReady, MarkSubmitted, CanFinish,
      Judge, Abandon, WithSeat, FreeSlot, Due, WithEvent;
  }

  lemma CreateAdvances(db: Db, tx: Tx)
    requires tx.op.CreateLobby? && Fits(tx.op, tx.pc) && !tx.pc.Committing? && ExecCreate(db, tx).Go?
    ensures StatementsLeft(ExecCreate(db, tx).tx.pc) < StatementsLeft(tx.pc)
  {
    hide CodeTaken, UserTaken, SeedRows, SeedsSomething, CanStart, Start, MarkReady, MarkSubmitted, CanFinish,
      Judge, Abandon, WithSeat, FreeSlot, Due, Visible, WithEvent, NewMatch;
  }

  lemma JoinAdvances(db: Db, tx: Tx)
    requires tx.op.JoinLobby? && Fits(tx.op, tx.pc) && !tx.pc.Committing? && ExecJoin(db, tx).Go?
    ensures StatementsLeft(ExecJoin(db, tx).tx.pc) < StatementsLeft(tx.pc)
  {
    hide CodeTaken, UserTaken, SeedRows, SeedsSomething, CanStart, Start, MarkReady, MarkSubmitted, CanFinish,
      Judge, Abandon, WithSeat, FreeSlot, Due, Visible, WithEvent, NewMatch;
  }

  lemma CancelAdvances(db: Db, tx: Tx)
    requires tx.op.CancelLobby? && Fits(tx.op, tx.pc) && !tx.pc.Committing? && ExecCancel(db, tx).Go?
    ensures StatementsLeft(ExecCancel(db, tx).tx.pc) < StatementsLeft(tx.pc)
  {
    hide CodeTaken, UserTaken, SeedRows, SeedsSomething, CanStart, Start, MarkReady, MarkSubmitted, CanFinish,
      Judge, Abandon, WithSeat, FreeSlot, Due, Visible, WithEvent, NewMatch;
  }

  lemma ReadyUpAdvances(db: Db, tx: Tx)
    requires tx.op.ReadyUp? && Fits(tx.op, tx.pc) && !tx.pc.Committing? && ExecReadyUp(db, tx).Go?
    ensures StatementsLeft(ExecReadyUp(db, tx).tx.pc) < StatementsLeft(tx.pc)
  {
    hide CodeTaken, UserTaken, SeedRows, SeedsSomething, CanStart, Start, MarkReady, MarkSubmitted, CanFinish,
      Judge, Abandon, WithSeat, FreeSlot, Due, Visible, WithEvent, NewMatch;
  }

  lemma SubmitAdvances(db: Db, tx: Tx)
    requires tx.op.Submit? && Fits(tx.op, tx.pc) && !tx.pc.Committing? && ExecSubmit(db, tx).Go?
    ensures StatementsLeft(ExecSubmit(db, tx).tx.pc) < StatementsLeft(tx.pc)
  {
    hide CodeTaken, UserTaken, SeedRows, SeedsSomething, CanStart, Start, MarkReady, MarkSubmitted, CanFinish,
      Judge, Abandon, WithSeat, FreeSlot, Due, Visible, WithEvent, NewMatch;
  }

  lemma StatementAdvances(db: Db, tx: Tx)
    requires Transactional(tx.op) && Fits(tx.op, tx.pc) && !tx.pc.Committing? && Exec(db, tx).Go?
    ensures StatementsLeft(Exec(db, tx).tx.pc) < StatementsLeft(tx.pc)
  {
    hide ExecCreate, ExecJoin, ExecCancel, ExecReadyUp, ExecSubmit, Due, WithEvent, Judge;
    match tx.op
    case CreateLobby(_, _, _, _) => CreateAdvances(db, tx);
    case JoinLobby(_, _) => JoinAdvances(db, tx);
    case CancelLobby(_, _) => CancelAdvances(db, tx);
    case ReadyUp(_, _) => ReadyUpAdvances(db, tx);
    case Submit(_, _) => SubmitAdvances(db, tx);
    case _ =>
  }

  ghost function Work(txs: map<TxId, Tx>): nat {
    if txs == map[] then 0
    else
      var t :| t in txs;
      StatementsLeft(txs[t].pc) + Work(txs - {t})
  }

  lemma FirstWorked(txs: map<TxId, Tx>) returns (t: TxId)
    requires txs != map[]
    ensures t in txs && Work(txs) == StatementsLeft(txs[t].pc) + Work(txs - {t})
  {
    hide StatementsLeft;
    t :| t in txs && Work(txs) == StatementsLeft(txs[t].pc) + Work(txs - {t});
  }

  lemma {:induction false} WorkWithout(txs: map<TxId, Tx>, t: TxId)
    requires t in txs
    ensures Work(txs) == StatementsLeft(txs[t].pc) + Work(txs - {t})
    decreases |txs|
  {
    hide Work, StatementsLeft;
    var first := FirstWorked(txs);
    if first != t {
      WorkWithout(txs - {first}, t);
      WorkWithout(txs - {t}, first);
      assert txs - {first} - {t} == txs - {t} - {first};
    }
  }

  lemma EndIsWork(txs: map<TxId, Tx>, t: TxId)
    requires t in txs
    ensures Work(txs - {t}) < Work(txs)
  {
    WorkWithout(txs, t);
    hide Work;
  }

  lemma AdvanceIsWork(txs: map<TxId, Tx>, t: TxId, tx: Tx)
    requires t in txs && StatementsLeft(tx.pc) < StatementsLeft(txs[t].pc)
    ensures Work(txs[t := tx]) < Work(txs)
  {
    WorkWithout(txs, t);
    WorkWithout(txs[t := tx], t);
    hide Work, StatementsLeft;
    assert txs[t := tx] - {t} == txs - {t};
  }

  lemma StepIsWork(s: Sys, t: TxId, s': Sys)
    requires t in s.txs && TxOk(s.db, s.txs[t]) && (Step(s, Statement(t), s') || Step(s, Commit(t), s'))
    ensures Work(s'.txs) < Work(s.txs)
  {
    OwnStatements(s.db, s.txs[t]);
    EndIsWork(s.txs, t);
    hide Exec, Work, Merged, Clear, TxOk, StatementsLeft, Fits;
    if t in s'.txs {
      StatementAdvances(s.db, s.txs[t]);
      AdvanceIsWork(s.txs, t, Exec(s.db, s.txs[t]).tx);
    }
  }

  lemma TxsAreOk(trace: seq<Sys>, labels: seq<Label>, n: nat)
    requires IsTrace(trace, labels) && n < |trace|
    ensures forall t | t in trace[n].txs :: TxOk(trace[n].db, trace[n].txs[t])
  {
    hide Step, IsRun, TxOk, Apart;
    ReachableIsInv(trace, labels, n);
  }

  lemma TraceLength(trace: seq<Sys>, labels: seq<Label>)
    requires IsTrace(trace, labels)
    ensures |trace| == |labels| + 1
  {
    hide Step, Start0;
  }

  lemma OneStepMore(trace: seq<Sys>, labels: seq<Label>, l: Label, s: Sys)
    requires IsTrace(trace, labels) && Step(trace[|labels|], l, s)
    ensures IsTrace(trace + [s], labels + [l]) && (trace + [s])[|labels + [l]|] == s
  {
    hide Step, Start0;
  }

  lemma OneCanGoOn(trace: seq<Sys>, labels: seq<Label>) returns (l: Label, s: Sys)
    requires IsTrace(trace, labels) && trace[|labels|].txs != map[]
    ensures IsTrace(trace + [s], labels + [l]) && (trace + [s])[|labels + [l]|] == s
    ensures Work(s.txs) < Work(trace[|labels|].txs) && (l.Statement? || l.Commit?)
  {
    hide Step, WaitsForNobody, Work, TxOk, Start0;
    SomebodyCanStep(trace, labels, |labels|);
    TxsAreOk(trace, labels, |labels|);
    var was := trace[|labels|];
    var t, s' :| t in was.txs && WaitsForNobody(was, t) && (Step(was, Statement(t), s') || Step(was, Commit(t), s'));
    l, s := if Step(was, Statement(t), s') then Statement(t) else Commit(t), s';
    StepIsWork(was, t, s);
    OneStepMore(trace, labels, l, s);
  }

  /** From every reachable state the transactions in flight can all be brought to their end by their own
      statements and commits, whatever they are and wherever they stand: nobody needs to be aborted. */
  lemma {:induction false} EverybodyCanFinish(trace: seq<Sys>, labels: seq<Label>)
    returns (trace': seq<Sys>, labels': seq<Label>)
    requires IsTrace(trace, labels)
    ensures IsTrace(trace', labels') && trace <= trace' && labels <= labels'
    ensures trace'[|labels'|].txs == map[]
    ensures forall i | |labels| <= i < |labels'| :: labels'[i].Statement? || labels'[i].Commit?
    decreases Work(trace[|labels|].txs)
  {
    TraceLength(trace, labels);
    hide Work, IsTrace;
    if trace[|labels|].txs == map[] {
      trace', labels' := trace, labels;
    } else {
      var l, s := OneCanGoOn(trace, labels);
      trace', labels' := EverybodyCanFinish(trace + [s], labels + [l]);
      assert labels'[|labels|] == l;
    }
  }

  // Sweeps.

  /** The due matches no transaction in flight has locked. */
  ghost function FreeDue(s: Sys, now: int): set<MatchId> {
    set m | m in DueMatches(s.db.matches, now) && forall t | t in s.txs :: m !in s.txs[t].holds
  }

  /** s with a sweep t that has locked these rows. */
  function Picking(s: Sys, t: TxId, limit: int, now: int, holds: set<MatchId>): Sys {
    s.(txs := s.txs[t := Begun(ExpireDue(limit), now).(holds := holds)])
  }

  lemma OnePick(s: Sys, t: TxId, limit: int, now: int, holds: set<MatchId>, m: MatchId)
    requires t !in s.txs && m in FreeDue(s, now) && m !in holds && |holds| < limit
    ensures Step(Picking(s, t, limit, now, holds), Pick(t, m), Picking(s, t, limit, now, holds + {m}))
  {
    hide DueMatches, AtomicStep;
  }

  /** The locking subselect can take all of them, whoever else is in flight. */
  lemma {:induction false} PickAll(
      trace: seq<Sys>, labels: seq<Label>, s: Sys, t: TxId, limit: int, now: int, holds: set<MatchId>,
      left: set<MatchId>)
    returns (trace': seq<Sys>, labels': seq<Label>)
    requires IsTrace(trace, labels) && trace[|labels|] == Picking(s, t, limit, now, holds) && t !in s.txs
    requires left <= FreeDue(s, now) && left !! holds && |holds| + |left| <= limit
    ensures IsTrace(trace', labels') && trace <= trace' && labels <= labels'
    ensures trace'[|labels'|] == Picking(s, t, limit, now, holds + left)
    decreases |left|
  {
    TraceLength(trace, labels);
    hide IsTrace, FreeDue, Step, Picking;
    if left == {} {
      assert holds + left == holds;
      trace', labels' := trace, labels;
    } else {
      var m :| m in left;
      var s' := Picking(s, t, limit, now, holds + {m});
      OnePick(s, t, limit, now, holds, m);
      OneStepMore(trace, labels, Pick(t, m), s');
      SetsMove(holds, left, m);
      trace', labels' := PickAll(trace + [s'], labels + [Pick(t, m)], s, t, limit, now, holds + {m}, left - {m});
    }
  }

  lemma SetsMove(holds: set<MatchId>, left: set<MatchId>, m: MatchId)
    requires m in left && left !! holds
    ensures m !in holds && holds + {m} + (left - {m}) == holds + left && left - {m} !! holds + {m}
    ensures |holds + {m}| == |holds| + 1 && |left - {m}| == |left| - 1
  {}

  lemma SweepBegins(s: Sys, t: TxId, limit: int, now: int)
    requires t !in s.txs
    ensures Step(s, Begin(t, ExpireDue(limit), now), Picking(s, t, limit, now, {}))
  {}

  /** The update waits for nothing, and the commit moves what was locked. */
  lemma SweepEnds(s: Sys, t: TxId, limit: int, now: int, holds: set<MatchId>) returns (s1: Sys, s2: Sys)
    requires t !in s.txs && limit >= 0 && holds <= s.db.matches.Keys
    ensures Step(Picking(s, t, limit, now, holds), Statement(t), s1) && Step(s1, Commit(t), s2)
    ensures s2.txs == s.txs && s2.db == s.db.(matches := Swept(s.db.matches, holds))
    ensures s2.log == s.log + [Entry(ExpireDue(limit), now, ExpiredAll(holds))]
  {
    hide Judge, AtomicStep, OpenLobby, UnfinishedSeat;
    var before := Picking(s, t, limit, now, holds);
    var tx := before.txs[t];
    s1 := After(before, t, Exec(s.db, tx));
    s2 := Recorded(Ended(s1, t), Entry(tx.op, now, ExpiredAll(holds)), Merged(s.db, s1.txs[t]));
    assert s1.txs - {t} == s.txs;
    SweptRows(s.db, s1.txs[t], holds);
  }

  lemma SweptRows(db: Db, tx: Tx, holds: set<MatchId>)
    requires tx.rows == (map m | m in holds && m in db.matches :: Judge(db.matches[m]))
    requires tx.logs == map[] && tx.trees == map[]
    ensures Merged(db, tx) == db.(matches := Swept(db.matches, holds))
  {
    hide Judge;
    assert db.matches + tx.rows == Swept(db.matches, holds);
    assert db.logs + tx.logs == db.logs && db.trees + tx.trees == db.trees;
  }

  lemma SweepGoesThrough(
      trace: seq<Sys>, labels: seq<Label>, s: Sys, t: TxId, limit: int, now: int, swept: set<MatchId>)
    returns (trace': seq<Sys>, labels': seq<Label>)
    requires IsTrace(trace, labels) && trace[|labels|] == Picking(s, t, limit, now, swept) && t !in s.txs
    requires limit >= 0 && swept <= s.db.matches.Keys
    ensures IsTrace(trace', labels') && trace <= trace' && labels <= labels'
    ensures
      var end := trace'[|labels'|];
      && end.txs == s.txs && end.db == s.db.(matches := Swept(s.db.matches, swept))
      && end.log == s.log + [Entry(ExpireDue(limit), now, ExpiredAll(swept))]
  {
    hide IsTrace, FreeDue, Step, Picking, Swept;
    var s1, s2 := SweepEnds(s, t, limit, now, swept);
    OneStepMore(trace, labels, Statement(t), s1);
    trace', labels' := trace + [s1], labels + [Statement(t)];
    OneStepMore(trace', labels', Commit(t), s2);
    trace', labels' := trace' + [s2], labels' + [Commit(t)];
  }

  lemma FreeDueAreMatches(s: Sys, now: int)
    ensures FreeDue(s, now) <= s.db.matches.Keys
  {}

  /** A sweep never waits: whatever is in flight, it can begin, lock every due match that is free, and
      commit, having moved exactly those. */
  lemma ASweepNeverWaits(trace: seq<Sys>, labels: seq<Label>, t: TxId, limit: int, now: int)
    returns (trace': seq<Sys>, labels': seq<Label>)
    requires IsTrace(trace, labels) && t !in trace[|labels|].txs
    requires |FreeDue(trace[|labels|], now)| <= limit
    ensures IsTrace(trace', labels') && trace <= trace' && labels <= labels'
    ensures
      var s, end, swept := trace[|labels|], trace'[|labels'|], FreeDue(trace[|labels|], now);
      && end.txs == s.txs && end.db == s.db.(matches := Swept(s.db.matches, swept))
      && end.log == s.log + [Entry(ExpireDue(limit), now, ExpiredAll(swept))]
  {
    TraceLength(trace, labels);
    hide IsTrace, FreeDue, Step, Picking, Swept;
    var s, swept := trace[|labels|], FreeDue(trace[|labels|], now);
    FreeDueAreMatches(s, now);
    SweepBegins(s, t, limit, now);
    var l, s0 := Begin(t, ExpireDue(limit), now), Picking(s, t, limit, now, {});
    OneStepMore(trace, labels, l, s0);
    trace', labels' := PickAll(trace + [s0], labels + [l], s, t, limit, now, {}, swept);
    assert {} + swept == swept;
    trace', labels' := SweepGoesThrough(trace', labels', s, t, limit, now, swept);
  }
}
