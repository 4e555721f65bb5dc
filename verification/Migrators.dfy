/**
 Several processes migrating one database at once, each carrying the first so many of one growing set
 of migrations, under the advisory lock of migrateConn.

 A process may fail at any call, lose its session at any moment, the one between a commit and its
 answer included, or fail to release the lock.
 */
module Migrators {
  import opened Prelude
  import opened Migrations

  type ProcessId = nat

  datatype Pc =
    | Waiting                         // for the advisory lock
    | Reading                         // schema_migrations
    | Applying(todo: seq<Migration>)
    | Unlocking(ok: bool)
    | Ended(ok: bool)

  /** One process: how many of the migrations it carries, and what it has applied so far. */
  datatype Process = Process(carries: nat, pc: Pc, applied: seq<Migration>)

  datatype Run = Run(migration: Migration, runner: ProcessId)

  datatype Sys = Sys(lock: Option<ProcessId>, done: Table, ran: seq<Run>, processes: map<ProcessId, Process>)

  datatype Label =
    | Begin(p: ProcessId, carries: nat)
    | Lock(p: ProcessId)
    | Read(p: ProcessId)
    | Apply(p: ProcessId)
    | ApplyUnheard(p: ProcessId)      // the commit stands, but its answer never comes
    | Complete(p: ProcessId)
    | Fail(p: ProcessId)
    | Unlock(p: ProcessId)
    | UnlockFails(p: ProcessId)
    | LoseSession(p: ProcessId)

  function At(s: Sys, p: ProcessId, pc: Pc): Sys
    requires p in s.processes
  {
    s.(processes := s.processes[p := s.processes[p].(pc := pc)])
  }

  function Released(s: Sys, p: ProcessId): Sys {
    if s.lock == Some(p) then s.(lock := None) else s
  }

  ghost predicate Step(all: seq<Migration>, s: Sys, l: Label, s': Sys) {
    if l.Begin? then
      && l.p !in s.processes && 0 < l.carries <= |all|
      && s' == s.(processes := s.processes[l.p := Process(l.carries, Waiting, [])])
    else if l.p !in s.processes then false
    else
      var p, x := l.p, s.processes[l.p];
      var files := all[..if x.carries <= |all| then x.carries else |all|];
      match l
      case Lock(_) => x.pc.Waiting? && s.lock == None && s' == At(s.(lock := Some(p)), p, Reading)
      case Read(_) =>
        && x.pc.Reading?
        && s' == At(s, p, if InConflict(files, s.done) then Unlocking(false) else Applying(Pending(files, s.done)))
      case Apply(_) =>
        && x.pc.Applying? && x.pc.todo != [] && x.pc.todo[0].version !in s.done
        && var m := x.pc.todo[0];
           s' == s.(done := s.done[m.version := m.checksum], ran := s.ran + [Run(m, p)],
                    processes := s.processes[p := x.(pc := Applying(x.pc.todo[1..]), applied := x.applied + [m])])
      case ApplyUnheard(_) =>
        && x.pc.Applying? && x.pc.todo != [] && x.pc.todo[0].version !in s.done
        && var m := x.pc.todo[0];
           s' == s.(done := s.done[m.version := m.checksum], ran := s.ran + [Run(m, p)],
                    processes := s.processes[p := x.(pc := Unlocking(false))])
      case Complete(_) => x.pc == Applying([]) && s' == At(s, p, Unlocking(true))
      case Fail(_) => (x.pc.Reading? || x.pc.Applying?) && s' == At(s, p, Unlocking(false))
      case Unlock(_) => x.pc.Unlocking? && s' == At(Released(s, p), p, Ended(x.pc.ok))
      case UnlockFails(_) => x.pc.Unlocking? && s' == At(s, p, Ended(x.pc.ok))
      case LoseSession(_) => s' == At(Released(s, p), p, if x.pc.Ended? then x.pc else Ended(false))
  }

  function MigrationsOf(ran: seq<Run>): (ms: seq<Migration>)
    ensures |ms| == |ran|
    ensures forall i | 0 <= i < |ran| :: ms[i] == ran[i].migration
  {
    seq(|ran|, i requires 0 <= i < |ran| => ran[i].migration)
  }

  /** What one process ran, in order. */
  function RunBy(ran: seq<Run>, p: ProcessId): seq<Migration> {
    if ran == [] then []
    else
      var last := ran[|ran| - 1];
      RunBy(ran[..|ran| - 1], p) + if last.runner == p then [last.migration] else []
  }

  predicate InsideLock(pc: Pc) {
    pc.Reading? || pc.Applying? || pc.Unlocking?
  }

  ghost predicate ProcessOk(all: seq<Migration>, s: Sys, p: ProcessId) {
    p in s.processes ==>
      var x := s.processes[p];
      && 0 < x.carries <= |all|
      && (InsideLock(x.pc) ==> s.lock == Some(p))
      && (x.pc.Applying? ==> |s.ran| <= x.carries && x.pc.todo == all[|s.ran|..x.carries])
      && (x.pc == Unlocking(true) || x.pc == Ended(true) ==> x.carries <= |s.ran|)
      && Reported(x, RunBy(s.ran, p))
  }

  /** What a process reports is what it ran, except that a process on its way out with an error may have
      missed the answer to its last commit. */
  ghost predicate Reported(x: Process, run: seq<Migration>) {
    || x.applied == run
    || ((x.pc == Unlocking(false) || x.pc == Ended(false)) && run != [] && x.applied == run[..|run| - 1])
  }

  /** The database has run the first |ran| migrations, each once and in order. */
  ghost predicate DatabaseOk(all: seq<Migration>, s: Sys) {
    && |s.ran| <= |all|
    && MigrationsOf(s.ran) == all[..|s.ran|]
    && s.done == TableOf(all, |s.ran|)
  }

  ghost predicate Inv(all: seq<Migration>, s: Sys) {
    && DatabaseOk(all, s)
    && (forall p | p !in s.processes :: RunBy(s.ran, p) == [])
    && (forall p :: ProcessOk(all, s, p))
  }

  /** A process that carries fewer migrations than the database has run refuses; any other has exactly
      the rest of its own to run. */
  lemma WhatIsRead(all: seq<Migration>, k: nat, n: nat)
    requires Numbered(all) && k <= |all| && 0 < n <= |all|
    ensures InConflict(all[..n], TableOf(all, k)) <==> n < k
    ensures k <= n ==> Pending(all[..n], TableOf(all, k)) == all[k..n]
  {
    var files := all[..n];
    assert Numbered(files);
    TableHolds(all, k);
    if k <= n {
      assert files[..k] == all[..k];
      assert files[k..] == all[k..n];
      PrefixGrowsToPrefix(files, k, 0);
    } else {
      assert k in TableOf(all, k);
      assert Disagrees(files, k, TableOf(all, k)[k]);
    }
  }

  lemma OneMoreRun(all: seq<Migration>, s: Sys, p: ProcessId)
    requires Numbered(all) && DatabaseOk(all, s) && |s.ran| < |all|
    ensures
      var m := all[|s.ran|];
      DatabaseOk(all, s.(done := s.done[m.version := m.checksum], ran := s.ran + [Run(m, p)]))
  {
    var k := |s.ran|;
    assert all[..k + 1][..k] == all[..k];
    assert all[..k + 1] == all[..k] + [all[k]];
  }

  lemma RunByOneMore(ran: seq<Run>, r: Run, p: ProcessId)
    ensures RunBy(ran + [r], p) == RunBy(ran, p) + if r.runner == p then [r.migration] else []
  {
    assert (ran + [r])[..|ran|] == ran;
  }

  lemma ApplyKeepsInv(all: seq<Migration>, s: Sys, p: ProcessId, s': Sys)
    requires Numbered(all) && Inv(all, s) && Step(all, s, Apply(p), s')
    ensures Inv(all, s')
  {
    assert ProcessOk(all, s, p);
    var k := |s.ran|;
    var x := s.processes[p];
    assert x.pc.todo[0] == all[k] && x.pc.todo[1..] == all[k + 1..x.carries];
    OneMoreRun(all, s, p);
    hide DatabaseOk, RunBy;
    forall q ensures ProcessOk(all, s', q) && (q !in s'.processes ==> RunBy(s'.ran, q) == []) {
      RunByOneMore(s.ran, Run(all[k], p), q);
      assert ProcessOk(all, s, q);
    }
  }

  lemma UnheardIsReported(all: seq<Migration>, s: Sys, p: ProcessId, s': Sys)
    requires ProcessOk(all, s, p) && Step(all, s, ApplyUnheard(p), s')
    ensures ProcessOk(all, s', p)
  {
    var last := s.processes[p].pc.todo[0];
    RunByOneMore(s.ran, Run(last, p), p);
    hide RunBy, InConflict, Pending;
    assert (RunBy(s.ran, p) + [last])[..|RunBy(s.ran, p)|] == RunBy(s.ran, p);
  }

  lemma UnheardKeepsInv(all: seq<Migration>, s: Sys, p: ProcessId, s': Sys)
    requires Numbered(all) && Inv(all, s) && Step(all, s, ApplyUnheard(p), s')
    ensures Inv(all, s')
  {
    assert ProcessOk(all, s, p);
    var m := s.processes[p].pc.todo[0];
    assert m == all[|s.ran|];
    OneMoreRun(all, s, p);
    UnheardIsReported(all, s, p, s');
    hide DatabaseOk, RunBy, InConflict, Pending;
    forall q ensures ProcessOk(all, s', q) && (q !in s'.processes ==> RunBy(s'.ran, q) == []) {
      if q != p {
        RunByOneMore(s.ran, Run(m, p), q);
        assert ProcessOk(all, s, q);
      }
    }
  }

  lemma ReadKeepsInv(all: seq<Migration>, s: Sys, p: ProcessId, s': Sys)
    requires Numbered(all) && Inv(all, s) && Step(all, s, Read(p), s')
    ensures Inv(all, s')
  {
    assert ProcessOk(all, s, p);
    WhatIsRead(all, |s.ran|, s.processes[p].carries);
    assert s.done == TableOf(all, |s.ran|);
    hide DatabaseOk, RunBy, InConflict, Pending, TableOf, Numbered, MigrationsOf;
    forall q ensures ProcessOk(all, s', q) {
      assert ProcessOk(all, s, q);
    }
  }

  lemma OthersKeepInv(all: seq<Migration>, s: Sys, l: Label, s': Sys)
    requires Inv(all, s) && Step(all, s, l, s') && !l.Apply? && !l.ApplyUnheard? && !l.Read?
    ensures Inv(all, s')
  {
    hide RunBy, InConflict, Pending, TableOf, MigrationsOf;
    assert ProcessOk(all, s, l.p);
    forall q ensures ProcessOk(all, s', q) {
      assert ProcessOk(all, s, q);
    }
  }

  lemma StepKeepsInv(all: seq<Migration>, s: Sys, l: Label, s': Sys)
    requires Numbered(all) && Inv(all, s) && Step(all, s, l, s')
    ensures Inv(all, s')
  {
    hide Inv, Step;
    match l
    case Apply(p) => ApplyKeepsInv(all, s, p, s');
    case ApplyUnheard(p) => UnheardKeepsInv(all, s, p, s');
    case Read(p) => ReadKeepsInv(all, s, p, s');
    case _ => OthersKeepInv(all, s, l, s');
  }

  /** From an empty database. */
  ghost predicate IsTrace(all: seq<Migration>, trace: seq<Sys>, labels: seq<Label>) {
    && |trace| == |labels| + 1
    && trace[0] == Sys(None, map[], [], map[])
    && forall i | 0 <= i < |labels| :: Step(all, trace[i], labels[i], trace[i + 1])
  }

  lemma {:induction false} ReachableIsInv(all: seq<Migration>, trace: seq<Sys>, labels: seq<Label>, n: nat)
    requires Numbered(all) && IsTrace(all, trace, labels) && n < |trace|
    ensures Inv(all, trace[n])
  {
    if n == 0 {
      assert all[..0] == [];
      assert MigrationsOf([]) == [];
    } else {
      hide Step, Inv;
      ReachableIsInv(all, trace, labels, n - 1);
      assert Step(all, trace[n - 1], labels[n - 1], trace[n]);
      StepKeepsInv(all, trace[n - 1], labels[n - 1], trace[n]);
    }
  }

  /** Whatever the interleaving and the failures, each version runs at most once and in order. A process
      reports only what it ran itself, in order, all of it unless it failed, and then all but at most the
      last; and a process that succeeds leaves everything it carries applied. */
  lemma EachVersionRunsOnce(all: seq<Migration>, trace: seq<Sys>, labels: seq<Label>, n: nat)
    requires Numbered(all) && IsTrace(all, trace, labels) && n < |trace|
    ensures
      var s := trace[n];
      && |s.ran| <= |all| && MigrationsOf(s.ran) == all[..|s.ran|] && s.done == TableOf(all, |s.ran|)
      && (forall i | 0 <= i < |s.ran| :: s.ran[i].migration.version == i + 1)
      && (forall p | p in s.processes ::
            var x, run := s.processes[p], RunBy(s.ran, p);
            && x.applied <= run && |run| <= |x.applied| + 1
            && (x.pc != Unlocking(false) && x.pc != Ended(false) ==> x.applied == run))
      && (forall p | p in s.processes && s.processes[p].pc == Ended(true) :: s.processes[p].carries <= |s.ran|)
  {
    hide Step, RunBy, TableOf;
    ReachableIsInv(all, trace, labels, n);
    var s := trace[n];
    forall p | p in s.processes ensures ProcessOk(all, s, p) && s.processes[p].applied <= RunBy(s.ran, p) {
      assert ProcessOk(all, s, p);
    }
    forall i | 0 <= i < |s.ran| ensures s.ran[i].migration.version == i + 1 {
      assert MigrationsOf(s.ran)[i] == all[..|s.ran|][i];
    }
  }

  /** At most one process is between taking the lock and giving it back. */
  lemma OneAtATime(all: seq<Migration>, trace: seq<Sys>, labels: seq<Label>, n: nat, p: ProcessId, q: ProcessId)
    requires Numbered(all) && IsTrace(all, trace, labels) && n < |trace|
    requires p in trace[n].processes && q in trace[n].processes
    requires InsideLock(trace[n].processes[p].pc) && InsideLock(trace[n].processes[q].pc)
    ensures p == q
  {
    hide Step, RunBy, TableOf, DatabaseOk;
    ReachableIsInv(all, trace, labels, n);
    assert ProcessOk(all, trace[n], p) && ProcessOk(all, trace[n], q);
  }

  // Progress.

  ghost predicate IsPath(all: seq<Migration>, states: seq<Sys>, labels: seq<Label>) {
    && |states| == |labels| + 1
    && forall i | 0 <= i < |labels| :: Step(all, states[i], labels[i], states[i + 1])
  }

  lemma Prepend(all: seq<Migration>, s: Sys, l: Label, states: seq<Sys>, labels: seq<Label>)
    requires IsPath(all, states, labels) && Step(all, s, l, states[0])
    ensures IsPath(all, [s] + states, [l] + labels)
  {
    hide Step;
  }

  lemma Append(all: seq<Migration>, states: seq<Sys>, labels: seq<Label>, l: Label, s: Sys)
    requires IsPath(all, states, labels) && Step(all, states[|labels|], l, s)
    ensures IsPath(all, states + [s], labels + [l])
  {
    hide Step;
  }

  lemma {:induction false} ApplyAll(all: seq<Migration>, s: Sys, p: ProcessId)
    returns (states: seq<Sys>, labels: seq<Label>)
    requires Numbered(all) && Inv(all, s) && p in s.processes && s.processes[p].pc.Applying?
    ensures IsPath(all, states, labels) && states[0] == s
    ensures
      var end := states[|labels|];
      && Inv(all, end) && end.lock == Some(p) && p in end.processes
      && end.processes[p].pc == Applying([]) && end.processes[p].carries == s.processes[p].carries
      && |end.ran| == s.processes[p].carries
    decreases |s.processes[p].pc.todo|
  {
    assert ProcessOk(all, s, p);
    var x := s.processes[p];
    if x.pc.todo == [] {
      states, labels := [s], [];
    } else {
      NextIsNew(all, s, p);
      var m := x.pc.todo[0];
      var s' := s.(done := s.done[m.version := m.checksum], ran := s.ran + [Run(m, p)],
                   processes := s.processes[p := x.(pc := Applying(x.pc.todo[1..]), applied := x.applied + [m])]);
      assert Step(all, s, Apply(p), s');
      hide Step, Inv;
      StepKeepsInv(all, s, Apply(p), s');
      states, labels := ApplyAll(all, s', p);
      Prepend(all, s, Apply(p), states, labels);
      states, labels := [s] + states, [Apply(p)] + labels;
    }
  }

  lemma NextIsNew(all: seq<Migration>, s: Sys, p: ProcessId)
    requires Numbered(all) && Inv(all, s) && p in s.processes
    requires s.processes[p].pc.Applying? && s.processes[p].pc.todo != []
    ensures s.processes[p].pc.todo[0].version !in s.done
  {
    assert ProcessOk(all, s, p);
    TableHolds(all, |s.ran|);
    hide TableOf;
    assert s.processes[p].pc.todo[0] == all[|s.ran|];
  }

  lemma GetsToApply(all: seq<Migration>, s: Sys, p: ProcessId) returns (s1: Sys, s2: Sys)
    requires Numbered(all) && Inv(all, s) && s.lock == None && p in s.processes
    requires s.processes[p].pc.Waiting? && |s.ran| <= s.processes[p].carries
    ensures Step(all, s, Lock(p), s1) && Step(all, s1, Read(p), s2)
    ensures p in s2.processes && s2.processes[p].pc.Applying? && s2.processes[p].carries == s.processes[p].carries
  {
    assert ProcessOk(all, s, p);
    WhatIsRead(all, |s.ran|, s.processes[p].carries);
    var files := all[..s.processes[p].carries];
    assert !InConflict(files, s.done);
    hide InConflict, Pending, Inv;
    s1 := At(s.(lock := Some(p)), p, Reading);
    s2 := At(s1, p, Applying(Pending(files, s.done)));
  }

  lemma GetsToEnd(all: seq<Migration>, s: Sys, p: ProcessId) returns (done: Sys, end: Sys)
    requires s.lock == Some(p) && p in s.processes && s.processes[p].pc == Applying([])
    ensures Step(all, s, Complete(p), done) && Step(all, done, Unlock(p), end)
    ensures p in end.processes && end.processes[p].pc == Ended(true) && end.lock == None && end.ran == s.ran
  {
    done := At(s, p, Unlocking(true));
    end := At(Released(done, p), p, Ended(true));
  }

  /** From any state a process could find, one that waits for a free lock can go on to its end, and leave
      everything it carries applied, unless the database has run more than it carries. */
  lemma AMigratorCanFinish(all: seq<Migration>, s: Sys, p: ProcessId)
    returns (states: seq<Sys>, labels: seq<Label>)
    requires Numbered(all) && Inv(all, s) && s.lock == None && p in s.processes
    requires s.processes[p].pc.Waiting? && |s.ran| <= s.processes[p].carries
    ensures IsPath(all, states, labels) && states[0] == s
    ensures
      var end := states[|labels|];
      && p in end.processes && end.processes[p].pc == Ended(true) && end.lock == None
      && |end.ran| == s.processes[p].carries
  {
    var s1, s2 := GetsToApply(all, s, p);
    hide Inv, Step, IsPath;
    StepKeepsInv(all, s, Lock(p), s1);
    StepKeepsInv(all, s1, Read(p), s2);
    states, labels := ApplyAll(all, s2, p);
    PathLength(all, states, labels);
    var done, end := GetsToEnd(all, states[|labels|], p);
    Append(all, states, labels, Complete(p), done);
    states, labels := states + [done], labels + [Complete(p)];
    Append(all, states, labels, Unlock(p), end);
    states, labels := states + [end], labels + [Unlock(p)];
    Prepend(all, s1, Read(p), states, labels);
    states, labels := [s1] + states, [Read(p)] + labels;
    Prepend(all, s, Lock(p), states, labels);
    states, labels := [s] + states, [Lock(p)] + labels;
  }

  lemma PathLength(all: seq<Migration>, states: seq<Sys>, labels: seq<Label>)
    requires IsPath(all, states, labels)
    ensures |states| == |labels| + 1
  {
    hide Step;
  }
}
