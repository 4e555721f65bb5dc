/** judge.go and names.go: who owns what, under failing runtimes and concurrent jobs. */
module Judges {
  import opened Prelude
  import opened Text
  import opened ResultDocument
  import opened Results
  import opened Verify

  type Name = string
  type RunId = nat

  // Names.

  const PREFIX := "devduel-"
  const RUNNER := "-runner"
  const TESTER := "-tester"

  function NetworkOf(job: string): Name { PREFIX + job }
  function RunnerOf(job: string): Name { PREFIX + job + RUNNER }
  function TesterOf(job: string): Name { PREFIX + job + TESTER }

  /** What jobIDPattern accepts. */
  predicate ValidJobId(job: string) {
    IsSlug(job)
  }

  lemma SameSuffix(a: string, b: string, x: string, y: string)
    requires a + x == b + y && |x| == |y|
    ensures a == b && x == y
  {
    assert |a| == |b|;
    assert a == (a + x)[..|a|] && b == (b + y)[..|a|];
    assert x == (a + x)[|a|..] && y == (b + y)[|a|..];
  }

  /** Objects of one kind have different names for different jobs, and a job's two containers differ. */
  lemma NamesAreDistinct(i: string, j: string)
    ensures NetworkOf(i) == NetworkOf(j) <==> i == j
    ensures RunnerOf(i) == RunnerOf(j) <==> i == j
    ensures TesterOf(i) == TesterOf(j) <==> i == j
    ensures RunnerOf(i) != TesterOf(j)
  {
    if NetworkOf(i) == NetworkOf(j) {
      assert i == NetworkOf(i)[|PREFIX|..] && j == NetworkOf(j)[|PREFIX|..];
    }
    if RunnerOf(i) == RunnerOf(j) {
      SameSuffix(PREFIX + i, PREFIX + j, RUNNER, RUNNER);
      assert i == (PREFIX + i)[|PREFIX|..] && j == (PREFIX + j)[|PREFIX|..];
    }
    if TesterOf(i) == TesterOf(j) {
      SameSuffix(PREFIX + i, PREFIX + j, TESTER, TESTER);
      assert i == (PREFIX + i)[|PREFIX|..] && j == (PREFIX + j)[|PREFIX|..];
    }
    if RunnerOf(i) == TesterOf(j) {
      SameSuffix(PREFIX + i, PREFIX + j, RUNNER, TESTER);
      assert false;
    }
  }

  /** Across kinds names do meet: one job's network is named like another's container exactly when its
      id is the other's id with the container's suffix, which is itself a valid id. */
  lemma NetworksCanBeNamedLikeContainers(i: string, j: string)
    ensures NetworkOf(j) == RunnerOf(i) <==> j == i + RUNNER
    ensures NetworkOf(j) == TesterOf(i) <==> j == i + TESTER
    ensures ValidJobId(i) ==> ValidJobId(i + RUNNER) && ValidJobId(i + TESTER)
  {
    SamePrefix(j, i, RUNNER);
    SamePrefix(j, i, TESTER);
    SuffixedIdIsValid(i, "runner");
    SuffixedIdIsValid(i, "tester");
    assert i + RUNNER == i + "-" + "runner" && i + TESTER == i + "-" + "tester";
  }

  lemma SamePrefix(j: string, i: string, suffix: string)
    ensures PREFIX + j == PREFIX + i + suffix <==> j == i + suffix
  {
    assert (PREFIX + j)[|PREFIX|..] == j;
    assert (PREFIX + i + suffix)[|PREFIX|..] == i + suffix;
    assert PREFIX + (i + suffix) == PREFIX + i + suffix;
  }

  lemma SuffixedIdIsValid(i: string, word: string)
    requires word != "" && forall c | c in word :: SlugChar(c)
    ensures ValidJobId(i) ==> ValidJobId(i + "-" + word)
  {
    SplitAtSeparator(i, '-', word);
    assert '-' !in word;
    SplitOfOnePart(word, '-');
  }

  // One run, call by call.

  datatype Kind = Network | Runner | Tester

  datatype Owned = Owned(network: bool, runner: bool, tester: bool)

  datatype Pc =
    | CreateNetwork | CreateRunner | StartRunner | CreateTester | StartTester | WaitAndRead
    | RemoveRunner | RemoveTester | RemoveNetwork | Finished

  /** errs is what the TeardownError will list, and kept says the same of each object. */
  datatype Progress = Progress(job: string, pc: Pc, created: Owned, kept: Owned, errs: seq<Kind>)

  const NOTHING := Owned(false, false, false)

  /** Before any removal was tried. */
  function At(job: string, pc: Pc, created: Owned): Progress {
    Progress(job, pc, created, NOTHING, [])
  }

  function Begun(job: string): Progress {
    At(job, CreateNetwork, NOTHING)
  }

  /** The live objects, each with the run that created it; runs outside `runs` stand for anything else
      on the host. */
  datatype Host = Host(networks: map<Name, RunId>, containers: map<Name, RunId>)

  datatype Sys = Sys(host: Host, runs: map<RunId, Progress>)

  datatype Label = Begin(r: RunId, job: string) | Call(r: RunId, fault: bool)

  /** One runtime call. A failed create makes nothing, a failed remove removes nothing, and a create
      fails when the name is taken. */
  function After(host: Host, r: RunId, run: Progress, fault: bool): (next: (Host, Progress))
    ensures run.pc != Finished ==> Position(next.1.pc) > Position(run.pc)
  {
    var j := run.job;
    match run.pc
    case CreateNetwork =>
      if fault || NetworkOf(j) in host.networks then (host, run.(pc := RemoveRunner))
      else (host.(networks := host.networks[NetworkOf(j) := r]),
            run.(pc := CreateRunner, created := run.created.(network := true)))
    case CreateRunner =>
      if fault || RunnerOf(j) in host.containers then (host, run.(pc := RemoveRunner))
      else (host.(containers := host.containers[RunnerOf(j) := r]),
            run.(pc := StartRunner, created := run.created.(runner := true)))
    case StartRunner => (host, run.(pc := if fault then RemoveRunner else CreateTester))
    case CreateTester =>
      if fault || TesterOf(j) in host.containers then (host, run.(pc := RemoveRunner))
      else (host.(containers := host.containers[TesterOf(j) := r]),
            run.(pc := StartTester, created := run.created.(tester := true)))
    case StartTester => (host, run.(pc := if fault then RemoveRunner else WaitAndRead))
    case WaitAndRead => (host, run.(pc := RemoveRunner))
    case RemoveRunner =>
      if !run.created.runner then (host, run.(pc := RemoveTester))
      else if fault then
        (host, run.(pc := RemoveTester, kept := run.kept.(runner := true), errs := run.errs + [Runner]))
      else (host.(containers := host.containers - {RunnerOf(j)}), run.(pc := RemoveTester))
    case RemoveTester =>
      if !run.created.tester then (host, run.(pc := RemoveNetwork))
      else if fault then
        (host, run.(pc := RemoveNetwork, kept := run.kept.(tester := true), errs := run.errs + [Tester]))
      else (host.(containers := host.containers - {TesterOf(j)}), run.(pc := RemoveNetwork))
    case RemoveNetwork =>
      if !run.created.network then (host, run.(pc := Finished))
      else if fault then
        (host, run.(pc := Finished, kept := run.kept.(network := true), errs := run.errs + [Network]))
      else (host.(networks := host.networks - {NetworkOf(j)}), run.(pc := Finished))
    case Finished => (host, run)
  }

  ghost predicate OwnsNothing(host: Host, r: RunId) {
    && (forall n | n in host.networks :: host.networks[n] != r)
    && (forall n | n in host.containers :: host.containers[n] != r)
  }

  ghost predicate Step(s: Sys, l: Label, s': Sys) {
    match l
    case Begin(r, job) =>
      && r !in s.runs && ValidJobId(job) && OwnsNothing(s.host, r)
      && s' == s.(runs := s.runs[r := Begun(job)])
    case Call(r, fault) =>
      && r in s.runs && s.runs[r].pc != Finished
      && var (host, run) := After(s.host, r, s.runs[r], fault);
         s' == Sys(host, s.runs[r := run])
  }

  // What a run owns at each position.

  function Position(pc: Pc): nat {
    match pc
    case CreateNetwork => 0
    case CreateRunner => 1
    case StartRunner => 2
    case CreateTester => 3
    case StartTester => 4
    case WaitAndRead => 5
    case RemoveRunner => 6
    case RemoveTester => 7
    case RemoveNetwork => 8
    case Finished => 9
  }

  predicate HasNetwork(run: Progress) {
    run.created.network && (Position(run.pc) <= 8 || run.kept.network)
  }

  predicate HasRunner(run: Progress) {
    run.created.runner && (Position(run.pc) <= 6 || run.kept.runner)
  }

  predicate HasTester(run: Progress) {
    run.created.tester && (Position(run.pc) <= 7 || run.kept.tester)
  }

  /** In the order teardown works. */
  function Listed(kept: Owned): seq<Kind> {
    (if kept.runner then [Runner] else []) + (if kept.tester then [Tester] else [])
    + if kept.network then [Network] else []
  }

  /** Entries in the order teardown makes them, only for what was created and has been tried. */
  predicate ErrsOk(run: Progress) {
    && run.errs == Listed(run.kept)
    && (run.kept.runner ==> run.created.runner && Position(run.pc) > 6)
    && (run.kept.tester ==> run.created.tester && Position(run.pc) > 7)
    && (run.kept.network ==> run.created.network && Position(run.pc) > 8)
  }

  /** Containers are created only after the network, and flags match the position. */
  predicate FlagsOk(run: Progress) {
    && (run.created.runner || run.created.tester ==> run.created.network)
    && (run.pc == CreateNetwork ==> run.created == NOTHING)
    && (run.pc == CreateRunner ==> run.created == Owned(true, false, false))
    && (run.pc == StartRunner || run.pc == CreateTester ==> run.created == Owned(true, true, false))
    && (run.pc == StartTester || run.pc == WaitAndRead ==> run.created == Owned(true, true, true))
  }

  ghost predicate OwnsNetworks(host: Host, r: RunId, run: Progress) {
    forall n :: n in host.networks && host.networks[n] == r <==> n == NetworkOf(run.job) && HasNetwork(run)
  }

  ghost predicate OwnsContainers(host: Host, r: RunId, run: Progress) {
    forall n :: n in host.containers && host.containers[n] == r <==>
      || (n == RunnerOf(run.job) && HasRunner(run))
      || (n == TesterOf(run.job) && HasTester(run))
  }

  /** The live objects of a run are exactly what it created and has not removed. */
  ghost predicate OwnsExactly(host: Host, r: RunId, run: Progress) {
    OwnsNetworks(host, r, run) && OwnsContainers(host, r, run)
  }

  ghost predicate Inv(s: Sys) {
    forall r | r in s.runs :: FlagsOk(s.runs[r]) && ErrsOk(s.runs[r]) && OwnsExactly(s.host, r, s.runs[r])
  }

  /** A call changes nothing that belongs to another run or to anything else on the host. */
  ghost predicate OthersUntouched(host: Host, host': Host, r: RunId) {
    && SameBut(host.networks, host'.networks, r) && SameBut(host'.networks, host.networks, r)
    && SameBut(host.containers, host'.containers, r) && SameBut(host'.containers, host.containers, r)
  }

  ghost predicate SameBut(before: map<Name, RunId>, after: map<Name, RunId>, r: RunId) {
    forall n | n in before && before[n] != r :: n in after && after[n] == before[n]
  }

  lemma CallTouchesOnlyItsOwn(host: Host, r: RunId, run: Progress, fault: bool)
    requires FlagsOk(run) && ErrsOk(run) && OwnsExactly(host, r, run)
    ensures OthersUntouched(host, After(host, r, run, fault).0, r)
  {
    hide NetworkOf, RunnerOf, TesterOf, FlagsOk, ErrsOk;
    assert HasNetwork(run) ==> NetworkOf(run.job) in host.networks && host.networks[NetworkOf(run.job)] == r;
    assert HasRunner(run) ==> RunnerOf(run.job) in host.containers && host.containers[RunnerOf(run.job)] == r;
    assert HasTester(run) ==> TesterOf(run.job) in host.containers && host.containers[TesterOf(run.job)] == r;
  }

  lemma CallKeepsFlags(host: Host, r: RunId, run: Progress, fault: bool)
    requires FlagsOk(run) && ErrsOk(run)
    ensures FlagsOk(After(host, r, run, fault).1) && ErrsOk(After(host, r, run, fault).1)
    ensures After(host, r, run, fault).1.job == run.job
  {
    hide NetworkOf, RunnerOf, TesterOf;
  }

  lemma CallKeepsNetworks(host: Host, r: RunId, run: Progress, fault: bool)
    requires FlagsOk(run) && ErrsOk(run) && OwnsNetworks(host, r, run)
    ensures OwnsNetworks(After(host, r, run, fault).0, r, After(host, r, run, fault).1)
  {
    hide NetworkOf, RunnerOf, TesterOf, Listed, HasRunner, HasTester;
  }

  lemma CallKeepsContainers(host: Host, r: RunId, run: Progress, fault: bool)
    requires FlagsOk(run) && ErrsOk(run) && OwnsContainers(host, r, run)
    ensures OwnsContainers(After(host, r, run, fault).0, r, After(host, r, run, fault).1)
  {
    NamesAreDistinct(run.job, run.job);
    hide NetworkOf, RunnerOf, TesterOf, Listed, HasNetwork;
  }

  lemma CallKeepsOwned(host: Host, r: RunId, run: Progress, fault: bool)
    requires FlagsOk(run) && ErrsOk(run) && OwnsExactly(host, r, run)
    ensures OwnsExactly(After(host, r, run, fault).0, r, After(host, r, run, fault).1)
  {
    CallKeepsNetworks(host, r, run, fault);
    CallKeepsContainers(host, r, run, fault);
  }

  lemma StepKeepsInv(s: Sys, l: Label, s': Sys)
    requires Inv(s) && Step(s, l, s')
    ensures Inv(s')
  {
    hide NetworkOf, RunnerOf, TesterOf, After, FlagsOk, ErrsOk, OwnsExactly, OthersUntouched;
    match l
    case Begin(r, job) => FreshRunIsOk(s.host, r, job);
    case Call(r, fault) =>
      var run := s.runs[r];
      CallKeepsFlags(s.host, r, run, fault);
      CallKeepsOwned(s.host, r, run, fault);
      CallTouchesOnlyItsOwn(s.host, r, run, fault);
      forall o | o in s'.runs && o != r ensures OwnsExactly(s'.host, o, s'.runs[o]) {
        OthersKeepWhatTheyOwn(s.host, s'.host, r, o, s.runs[o]);
      }
  }

  lemma FreshRunIsOk(host: Host, r: RunId, job: string)
    requires OwnsNothing(host, r)
    ensures
      var run := Begun(job);
      FlagsOk(run) && ErrsOk(run) && OwnsExactly(host, r, run)
  {}

  lemma OthersKeepWhatTheyOwn(host: Host, host': Host, r: RunId, o: RunId, run: Progress)
    requires OthersUntouched(host, host', r) && o != r && OwnsExactly(host, o, run)
    ensures OwnsExactly(host', o, run)
  {
    hide NetworkOf, RunnerOf, TesterOf, HasNetwork, HasRunner, HasTester;
  }

  ghost predicate IsTrace(trace: seq<Sys>, labels: seq<Label>) {
    && |trace| == |labels| + 1 && trace[0].runs == map[]
    && forall i | 0 <= i < |labels| :: Step(trace[i], labels[i], trace[i + 1])
  }

  lemma {:induction false} ReachableIsInv(trace: seq<Sys>, labels: seq<Label>, n: nat)
    requires IsTrace(trace, labels) && n < |trace|
    ensures Inv(trace[n])
  {
    if n > 0 {
      hide Step, Inv;
      ReachableIsInv(trace, labels, n - 1);
      assert Step(trace[n - 1], labels[n - 1], trace[n]);
      StepKeepsInv(trace[n - 1], labels[n - 1], trace[n]);
    }
  }

  // Main results, for any pattern of failures and any interleaving of jobs.

  function NameOf(job: string, k: Kind): Name {
    match k
    case Network => NetworkOf(job)
    case Runner => RunnerOf(job)
    case Tester => TesterOf(job)
  }

  ghost predicate Lives(host: Host, r: RunId, job: string, k: Kind) {
    var n := NameOf(job, k);
    if k.Network? then n in host.networks && host.networks[n] == r
    else n in host.containers && host.containers[n] == r
  }

  lemma ListedHolds(kept: Owned)
    ensures Network in Listed(kept) <==> kept.network
    ensures Runner in Listed(kept) <==> kept.runner
    ensures Tester in Listed(kept) <==> kept.tester
    ensures forall i, j | 0 <= i < j < |Listed(kept)| :: Listed(kept)[i] != Listed(kept)[j]
  {}

  lemma ReachedRunIsOk(trace: seq<Sys>, labels: seq<Label>, n: nat, r: RunId)
    requires IsTrace(trace, labels) && n < |trace| && r in trace[n].runs
    ensures
      var run := trace[n].runs[r];
      FlagsOk(run) && ErrsOk(run) && OwnsExactly(trace[n].host, r, run)
  {
    hide Step, FlagsOk, ErrsOk, OwnsExactly;
    ReachableIsInv(trace, labels, n);
  }

  /** What a finished run leaves: the objects its TeardownError lists, one entry each, and no others. */
  ghost predicate LeavesOnlyItsErrs(host: Host, r: RunId, run: Progress) {
    && (forall k :: k in run.errs <==> Lives(host, r, run.job, k))
    && (forall i, j | 0 <= i < j < |run.errs| :: run.errs[i] != run.errs[j])
    && (forall m | m in host.networks && host.networks[m] == r :: m == NetworkOf(run.job))
    && (forall m | m in host.containers && host.containers[m] == r :: m == RunnerOf(run.job) || m == TesterOf(run.job))
  }

  lemma FinishedRunLeavesOnlyItsErrs(host: Host, r: RunId, run: Progress)
    requires ErrsOk(run) && OwnsExactly(host, r, run) && run.pc == Finished
    ensures LeavesOnlyItsErrs(host, r, run)
  {
    NamesAreDistinct(run.job, run.job);
    ListedHolds(run.kept);
    hide NetworkOf, RunnerOf, TesterOf, Listed;
    forall k ensures k in run.errs <==> Lives(host, r, run.job, k) {
      match k
      case Network =>
      case Runner =>
      case Tester =>
    }
  }

  /** A finished run has left behind exactly the objects its TeardownError lists, one entry each,
      whatever failed and whoever ran beside it. */
  lemma FinishedLeavesOnlyWhatFailed(trace: seq<Sys>, labels: seq<Label>, n: nat, r: RunId)
    requires IsTrace(trace, labels) && n < |trace| && r in trace[n].runs && trace[n].runs[r].pc == Finished
    ensures LeavesOnlyItsErrs(trace[n].host, r, trace[n].runs[r])
  {
    hide Step, ErrsOk, OwnsExactly, LeavesOnlyItsErrs;
    ReachedRunIsOk(trace, labels, n, r);
    FinishedRunLeavesOnlyItsErrs(trace[n].host, r, trace[n].runs[r]);
  }

  function RemovalOf(k: Kind): Pc {
    match k
    case Network => RemoveNetwork
    case Runner => RemoveRunner
    case Tester => RemoveTester
  }

  predicate Made(created: Owned, k: Kind) {
    match k
    case Network => created.network
    case Runner => created.runner
    case Tester => created.tester
  }

  /** In step i the run tried to remove its object of this kind and failed. */
  ghost predicate RemovalFailed(trace: seq<Sys>, labels: seq<Label>, i: nat, r: RunId, k: Kind)
    requires i < |trace| && i < |labels|
  {
    && labels[i] == Call(r, true) && r in trace[i].runs
    && trace[i].runs[r].pc == RemovalOf(k) && Made(trace[i].runs[r].created, k)
  }

  lemma ErrsStep(s: Sys, l: Label, s': Sys, r: RunId, k: Kind)
    requires Step(s, l, s') && r in s'.runs
    ensures r !in s.runs ==> s'.runs[r].errs == []
    ensures r in s.runs ==>
              (k in s'.runs[r].errs <==>
                 || k in s.runs[r].errs
                 || (l == Call(r, true) && s.runs[r].pc == RemovalOf(k) && Made(s.runs[r].created, k)))
  {
    hide NetworkOf, RunnerOf, TesterOf;
  }

  lemma {:induction false} RunsStay(trace: seq<Sys>, labels: seq<Label>, i: nat, n: nat, r: RunId)
    requires IsTrace(trace, labels) && i <= n < |trace| && r in trace[i].runs
    ensures r in trace[n].runs
    decreases n - i
  {
    hide After;
    if i < n {
      RunsStay(trace, labels, i, n - 1, r);
      assert Step(trace[n - 1], labels[n - 1], trace[n]);
    }
  }

  /** A TeardownError lists exactly the removals that failed: each call of the run that tried to remove
      something it had created, and did not, has its entry, and no entry is there without one. */
  lemma {:induction false} ErrsAreFailedCalls(trace: seq<Sys>, labels: seq<Label>, n: nat, r: RunId, k: Kind)
    requires IsTrace(trace, labels) && n < |trace| && r in trace[n].runs
    ensures k in trace[n].runs[r].errs <==> exists i | 0 <= i < n :: RemovalFailed(trace, labels, i, r, k)
  {
    if n > 0 {
      assert Step(trace[n - 1], labels[n - 1], trace[n]);
      ErrsStep(trace[n - 1], labels[n - 1], trace[n], r, k);
      hide Step;
      if r in trace[n - 1].runs {
        ErrsAreFailedCalls(trace, labels, n - 1, r, k);
        hide IsTrace;
        assert RemovalFailed(trace, labels, n - 1, r, k) ==> k in trace[n].runs[r].errs;
      } else {
        forall i | 0 <= i < n ensures !RemovalFailed(trace, labels, i, r, k) {
          if r in trace[i].runs {
            RunsStay(trace, labels, i, n - 1, r);
          }
        }
      }
    }
  }

  /** No call of any run changes an object of another owner. */
  lemma OthersObjectsAreSafe(trace: seq<Sys>, labels: seq<Label>, i: nat, r: RunId, fault: bool)
    requires IsTrace(trace, labels) && i < |labels| && labels[i] == Call(r, fault)
    ensures OthersUntouched(trace[i].host, trace[i + 1].host, r)
  {
    hide After, FlagsOk, ErrsOk, OwnsExactly, OthersUntouched;
    ReachableIsInv(trace, labels, i);
    assert Step(trace[i], labels[i], trace[i + 1]);
    CallTouchesOnlyItsOwn(trace[i].host, r, trace[i].runs[r], fault);
  }

  /** Between creating its network and removing it. */
  predicate Inside(run: Progress) {
    run.created.network && run.pc != Finished
  }

  lemma InsideHoldsTheNetwork(host: Host, r: RunId, run: Progress)
    requires OwnsExactly(host, r, run) && Inside(run)
    ensures NetworkOf(run.job) in host.networks && host.networks[NetworkOf(run.job)] == r
  {
    hide NetworkOf, RunnerOf, TesterOf, HasRunner, HasTester;
    assert HasNetwork(run);
  }

  lemma ContainersAreHandledInside(host: Host, r: RunId, run: Progress, fault: bool)
    requires FlagsOk(run)
    ensures After(host, r, run, fault).0.containers != host.containers ==> Inside(run)
  {
    hide NetworkOf, RunnerOf, TesterOf;
  }

  /** The network is a mutex on the job id: no two runs of one job are inside together, and every
      container call that can change anything is made from inside, because the containers go before
      the network. */
  lemma NetworkIsAMutex(trace: seq<Sys>, labels: seq<Label>, n: nat, r: RunId, r': RunId)
    requires IsTrace(trace, labels) && n < |trace| && r in trace[n].runs && r' in trace[n].runs && r != r'
    requires trace[n].runs[r].job == trace[n].runs[r'].job
    ensures !(Inside(trace[n].runs[r]) && Inside(trace[n].runs[r']))
    ensures forall fault ::
              After(trace[n].host, r, trace[n].runs[r], fault).0.containers != trace[n].host.containers
              ==> Inside(trace[n].runs[r]) && !Inside(trace[n].runs[r'])
  {
    hide Step, After, NetworkOf, FlagsOk, ErrsOk, OwnsExactly, Inside;
    var a, b := trace[n].runs[r], trace[n].runs[r'];
    ReachedRunIsOk(trace, labels, n, r);
    ReachedRunIsOk(trace, labels, n, r');
    if Inside(a) && Inside(b) {
      InsideHoldsTheNetwork(trace[n].host, r, a);
      InsideHoldsTheNetwork(trace[n].host, r', b);
      assert false;
    }
    forall fault ensures After(trace[n].host, r, a, fault).0.containers != trace[n].host.containers ==> Inside(a) {
      ContainersAreHandledInside(trace[n].host, r, a, fault);
    }
  }

  // Run itself.

  /** Which calls fail for reasons of the runtime's own, by the position they are made from. */
  type Faults = Pc -> bool

  /** A run with nobody beside it, from wherever it stands to its end. */
  function Alone(host: Host, r: RunId, run: Progress, faults: Faults): (Host, Progress)
    decreases 9 - Position(run.pc)
  {
    if run.pc == Finished then (host, run)
    else
      var (host', run') := After(host, r, run, faults(run.pc));
      Alone(host', r, run', faults)
  }

  /** The runtime as the judge finds it. */
  class Runtime {
    var networks: map<Name, RunId>
    var containers: map<Name, RunId>

    constructor ()
      ensures Live() == Host(map[], map[])
    {
      networks, containers := map[], map[];
    }

    ghost function Live(): Host
      reads this
    {
      Host(networks, containers)
    }

    method CreateNetwork(r: RunId, n: Name, fault: bool) returns (ok: bool)
      modifies this`networks
      ensures ok <==> !fault && n !in old(networks)
      ensures networks == if ok then old(networks)[n := r] else old(networks)
    {
      ok := !fault && n !in networks;
      if ok {
        networks := networks[n := r];
      }
    }

    method CreateContainer(r: RunId, n: Name, fault: bool) returns (ok: bool)
      modifies this`containers
      ensures ok <==> !fault && n !in old(containers)
      ensures containers == if ok then old(containers)[n := r] else old(containers)
    {
      ok := !fault && n !in containers;
      if ok {
        containers := containers[n := r];
      }
    }

    method RemoveContainer(n: Name, fault: bool) returns (ok: bool)
      modifies this`containers
      ensures ok <==> !fault
      ensures containers == if ok then old(containers) - {n} else old(containers)
    {
      ok := !fault;
      if ok {
        containers := containers - {n};
      }
    }

    method RemoveNetwork(n: Name, fault: bool) returns (ok: bool)
      modifies this`networks
      ensures ok <==> !fault
      ensures networks == if ok then old(networks) - {n} else old(networks)
    {
      ok := !fault;
      if ok {
        networks := networks - {n};
      }
    }
  }

  datatype Job = Job(id: string, requirements: seq<Requirement>, workspace: string)

  datatype JudgeError = InvalidJob | SetUpFailed(at: Pc) | OutputUnreadable | Protocol(error: ParseError)

  predicate ValidJob(job: Job) {
    ValidJobId(job.id) && job.workspace != ""
  }

  /** The first call of a run, and the one between its set-up and its teardown. */
  lemma FirstCall(host: Host, r: RunId, job: string, faults: Faults)
    ensures
      Alone(host, r, Begun(job), faults) ==
        if faults(CreateNetwork) || NetworkOf(job) in host.networks
        then Alone(host, r, At(job, RemoveRunner, NOTHING), faults)
        else Alone(host.(networks := host.networks[NetworkOf(job) := r]), r,
                   At(job, CreateRunner, NOTHING.(network := true)), faults)
  {
    hide NetworkOf, RunnerOf, TesterOf;
  }

  lemma WaitChangesNothing(host: Host, r: RunId, job: string, created: Owned, faults: Faults)
    ensures Alone(host, r, At(job, WaitAndRead, created), faults)
            == Alone(host, r, At(job, RemoveRunner, created), faults)
  {
    hide NetworkOf, RunnerOf, TesterOf;
  }

  lemma WhatAJobNeeds(job: Job)
    ensures ValidJob(job) <==> IsSlug(job.id) && job.workspace != ""
  {
    hide IsSlug;
  }

  /** Where setting up stops: at the first call that fails, or at the tests. */
  function SetUpTo(host: Host, job: string, faults: Faults): Pc {
    if faults(CreateNetwork) || NetworkOf(job) in host.networks then CreateNetwork
    else if faults(CreateRunner) || RunnerOf(job) in host.containers then CreateRunner
    else if faults(StartRunner) then StartRunner
    else if faults(CreateTester) || TesterOf(job) in host.containers then CreateTester
    else if faults(StartTester) then StartTester
    else WaitAndRead
  }

  class Judge {
    const runtime: Runtime

    constructor (runtime: Runtime)
      ensures this.runtime == runtime
    {
      this.runtime := runtime;
    }

    /** One job, judged to the end. faults(WaitAndRead) is a failure to read the tester's output. */
    method Run(r: RunId, job: Job, faults: Faults, tested: Results.Run, decode: Decoder)
      returns (report: Result<seq<TestResult>, JudgeError>, errs: seq<Kind>)
      modifies runtime
      ensures report == Err(InvalidJob) <==> !(IsSlug(job.id) && job.workspace != "")
      ensures !ValidJob(job) ==>
                report == Err(InvalidJob) && errs == [] && runtime.Live() == old(runtime.Live())
      ensures ValidJob(job) ==>
                var (host, run) := Alone(old(runtime.Live()), r, Begun(job.id), faults);
                runtime.Live() == host && errs == run.errs
      ensures ValidJob(job) ==>
                var at := SetUpTo(old(runtime.Live()), job.id, faults);
                && (report == Err(SetUpFailed(at)) <==> at != WaitAndRead)
                && (report == Err(OutputUnreadable) <==> at == WaitAndRead && faults(WaitAndRead))
                && (report.Ok? <==>
                      && at == WaitAndRead && !faults(WaitAndRead)
                      && (tested.err.Some? || Document(tested.stdout).None?
                          || ReadableRun(job.requirements, tested, decode)))
      ensures report.Ok? ==> Collected(job.requirements, tested, decode, report.value)
    {
      WhatAJobNeeds(job);
      FirstCall(runtime.Live(), r, job.id, faults);
      hide Collected, ReadableRun, Document, ValidJob, NetworkOf, RunnerOf, TesterOf, Alone, After;
      errs := [];
      if !ValidJob(job) {
        return Err(InvalidJob), errs;
      }
      var created := NOTHING;
      var ok := runtime.CreateNetwork(r, NetworkOf(job.id), faults(CreateNetwork));
      if !ok {
        report := Err(SetUpFailed(CreateNetwork));
      } else {
        created := created.(network := true);
        var failed;
        created, failed := StartRunner(r, job.id, created, faults);
        if failed.None? {
          created, failed := StartTester(r, job.id, created, faults);
        }
        if failed.Some? {
          report := Err(SetUpFailed(failed.value));
        } else if faults(WaitAndRead) {
          report := Err(OutputUnreadable);
        } else {
          var results := Collect(job.requirements, tested, decode);
          report := if results.Ok? then Ok(results.value) else Err(Protocol(results.error));
        }
      }
      WaitChangesNothing(runtime.Live(), r, job.id, created, faults);
      errs := Teardown(r, job.id, created, faults);
    }

    method StartRunner(r: RunId, job: string, created: Owned, faults: Faults)
      returns (created': Owned, failed: Option<Pc>)
      modifies runtime
      ensures runtime.networks == old(runtime.networks)
      ensures failed == if faults(CreateRunner) || RunnerOf(job) in old(runtime.containers) then Some(CreateRunner)
                        else if faults(Pc.StartRunner) then Some(Pc.StartRunner)
                        else None
      ensures TesterOf(job) in runtime.containers <==> TesterOf(job) in old(runtime.containers)
      ensures Alone(runtime.Live(), r, At(job, if failed.None? then CreateTester else RemoveRunner, created'), faults)
              == Alone(old(runtime.Live()), r, At(job, CreateRunner, created), faults)
    {
      NamesAreDistinct(job, job);
      hide NetworkOf, RunnerOf, TesterOf;
      created', failed := created, None;
      var ok := runtime.CreateContainer(r, RunnerOf(job), faults(CreateRunner));
      if !ok {
        failed := Some(CreateRunner);
        return;
      }
      created' := created'.(runner := true);
      if faults(Pc.StartRunner) {
        failed := Some(Pc.StartRunner);
      }
    }

    method StartTester(r: RunId, job: string, created: Owned, faults: Faults)
      returns (created': Owned, failed: Option<Pc>)
      modifies runtime
      ensures runtime.networks == old(runtime.networks)
      ensures failed == if faults(CreateTester) || TesterOf(job) in old(runtime.containers) then Some(CreateTester)
                        else if faults(Pc.StartTester) then Some(Pc.StartTester)
                        else None
      ensures Alone(runtime.Live(), r, At(job, if failed.None? then WaitAndRead else RemoveRunner, created'), faults)
              == Alone(old(runtime.Live()), r, At(job, CreateTester, created), faults)
    {
      hide NetworkOf, RunnerOf, TesterOf;
      created', failed := created, None;
      var ok := runtime.CreateContainer(r, TesterOf(job), faults(CreateTester));
      if !ok {
        failed := Some(CreateTester);
        return;
      }
      created' := created'.(tester := true);
      if faults(Pc.StartTester) {
        failed := Some(Pc.StartTester);
      }
    }

    method Teardown(r: RunId, job: string, created: Owned, faults: Faults) returns (errs: seq<Kind>)
      modifies runtime
      ensures
        var (host, run) := Alone(old(runtime.Live()), r, At(job, RemoveRunner, created), faults);
        runtime.Live() == host && errs == run.errs
    {
      hide NetworkOf, RunnerOf, TesterOf;
      ghost var was := Alone(runtime.Live(), r, At(job, RemoveRunner, created), faults);
      ghost var kept := NOTHING;
      errs := [];
      var containers := [(Runner, created.runner), (Tester, created.tester)];
      var calls := [RemoveRunner, RemoveTester];
      for i := 0 to 2
        invariant
          var at := (calls + [Pc.RemoveNetwork])[i];
          was == Alone(runtime.Live(), r, Progress(job, at, created, kept, errs), faults)
      {
        var (kind, ours) := containers[i];
        if ours {
          var ok := runtime.RemoveContainer(NameOf(job, kind), faults(calls[i]));
          if !ok {
            errs := errs + [kind];
            kept := if kind.Runner? then kept.(runner := true) else kept.(tester := true);
          }
        }
      }
      if created.network {
        var ok := runtime.RemoveNetwork(NetworkOf(job), faults(Pc.RemoveNetwork));
        if !ok {
          errs := errs + [Network];
        }
      }
    }
  }

  lemma {:induction false} AloneKeepsOwnership(host: Host, r: RunId, run: Progress, faults: Faults)
    requires FlagsOk(run) && ErrsOk(run) && OwnsExactly(host, r, run)
    ensures
      var (host', run') := Alone(host, r, run, faults);
      && run'.pc == Finished && run'.job == run.job && ErrsOk(run') && OwnsExactly(host', r, run')
      && OthersUntouched(host, host', r)
    decreases 9 - Position(run.pc)
  {
    hide After, FlagsOk, ErrsOk, OwnsExactly;
    if run.pc != Finished {
      var fault := faults(run.pc);
      CallKeepsFlags(host, r, run, fault);
      CallKeepsOwned(host, r, run, fault);
      CallTouchesOnlyItsOwn(host, r, run, fault);
      AloneKeepsOwnership(After(host, r, run, fault).0, r, After(host, r, run, fault).1, faults);
    }
  }

  // Which objects a run makes, and which of their removals fail.

  lemma TeardownErrs(host: Host, r: RunId, job: string, created: Owned, faults: Faults)
    ensures Alone(host, r, At(job, RemoveRunner, created), faults).1.errs
            == Listed(Owned(created.network && faults(RemoveNetwork), created.runner && faults(RemoveRunner),
                            created.tester && faults(RemoveTester)))
  {
    hide NetworkOf, RunnerOf, TesterOf;
    var (host1, run1) := After(host, r, At(job, RemoveRunner, created), faults(RemoveRunner));
    var (host2, run2) := After(host1, r, run1, faults(RemoveTester));
    var (host3, run3) := After(host2, r, run2, faults(RemoveNetwork));
    assert Alone(host1, r, run1, faults) == Alone(host2, r, run2, faults);
    assert Alone(host2, r, run2, faults) == Alone(host3, r, run3, faults) == (host3, run3);
  }

  /** The rest of a set-up from the tester on. */
  lemma TesterOn(host: Host, r: RunId, job: string, faults: Faults)
    ensures
      var tester := !faults(CreateTester) && TesterOf(job) !in host.containers;
      Alone(host, r, At(job, CreateTester, Owned(true, true, false)), faults).1.errs
      == Listed(Owned(faults(RemoveNetwork), faults(RemoveRunner), tester && faults(RemoveTester)))
  {
    hide NetworkOf, RunnerOf, TesterOf, Listed;
    var (host1, run1) := After(host, r, At(job, CreateTester, Owned(true, true, false)), faults(CreateTester));
    assert Alone(host1, r, run1, faults).1.errs
        == Alone(host, r, At(job, CreateTester, Owned(true, true, false)), faults).1.errs;
    if run1.pc == StartTester {
      var (host2, run2) := After(host1, r, run1, faults(StartTester));
      assert Alone(host1, r, run1, faults) == Alone(host2, r, run2, faults);
      assert run2.pc == WaitAndRead ==>
        Alone(host2, r, run2, faults) == Alone(host2, r, run2.(pc := RemoveRunner), faults);
    }
    var h := host.(containers := host.containers[TesterOf(job) := r]);
    TeardownErrs(host, r, job, Owned(true, true, false), faults);
    TeardownErrs(h, r, job, Owned(true, true, true), faults);
  }

  /** And from the runner on. */
  lemma RunnerOn(host: Host, r: RunId, job: string, faults: Faults)
    ensures
      var runner := !faults(CreateRunner) && RunnerOf(job) !in host.containers;
      var tester := runner && !faults(StartRunner) && !faults(CreateTester) && TesterOf(job) !in host.containers;
      Alone(host, r, At(job, CreateRunner, Owned(true, false, false)), faults).1.errs
      == Listed(Owned(faults(RemoveNetwork), runner && faults(RemoveRunner), tester && faults(RemoveTester)))
  {
    NamesAreDistinct(job, job);
    hide NetworkOf, RunnerOf, TesterOf, Listed;
    var h := host.(containers := host.containers[RunnerOf(job) := r]);
    TeardownErrs(host, r, job, Owned(true, false, false), faults);
    TeardownErrs(h, r, job, Owned(true, true, false), faults);
    TesterOn(h, r, job, faults);
  }

  /** The TeardownError lists exactly those of the run's objects whose removal failed: the ones it got as
      far as creating, under names that were free. */
  lemma ErrsAreFailedRemovals(host: Host, r: RunId, job: string, faults: Faults)
    ensures
      var errs := Alone(host, r, Begun(job), faults).1.errs;
      var network := !faults(CreateNetwork) && NetworkOf(job) !in host.networks;
      var runner := network && !faults(CreateRunner) && RunnerOf(job) !in host.containers;
      var tester := runner && !faults(StartRunner) && !faults(CreateTester) && TesterOf(job) !in host.containers;
      && (Network in errs <==> network && faults(RemoveNetwork))
      && (Runner in errs <==> runner && faults(RemoveRunner))
      && (Tester in errs <==> tester && faults(RemoveTester))
  {
    hide NetworkOf, RunnerOf, TesterOf, Listed;
    var h := host.(networks := host.networks[NetworkOf(job) := r]);
    TeardownErrs(host, r, job, NOTHING, faults);
    RunnerOn(h, r, job, faults);
    ListedHolds(NOTHING);
    ListedHolds(Owned(faults(RemoveNetwork),
                      !faults(CreateRunner) && RunnerOf(job) !in host.containers && faults(RemoveRunner),
                      && !faults(CreateRunner) && RunnerOf(job) !in host.containers && !faults(StartRunner)
                      && !faults(CreateTester) && TesterOf(job) !in host.containers && faults(RemoveTester)));
  }

  /** A run gets as far as its tests exactly when none of the five calls before them fails and its three
      names are free. */
  lemma WhatSettingUpTakes(host: Host, job: string, faults: Faults)
    ensures SetUpTo(host, job, faults) == WaitAndRead <==>
              && NetworkOf(job) !in host.networks
              && RunnerOf(job) !in host.containers && TesterOf(job) !in host.containers
              && forall pc | pc in {CreateNetwork, CreateRunner, StartRunner, CreateTester, StartTester} :: !faults(pc)
  {
    hide NetworkOf, RunnerOf, TesterOf;
    assert StartTester in {CreateNetwork, CreateRunner, StartRunner, CreateTester, StartTester};
  }

  /** Whatever fails, Run leaves what was there before and, of its own objects, exactly those its
      TeardownError lists. */
  lemma RunLeavesOnlyWhatFailed(host: Host, r: RunId, job: string, faults: Faults)
    requires OwnsNothing(host, r)
    ensures
      var (host', run) := Alone(host, r, Begun(job), faults);
      OthersUntouched(host, host', r) && LeavesOnlyItsErrs(host', r, run) && run.job == job
  {
    hide Alone, FlagsOk, ErrsOk, OwnsExactly, OthersUntouched, LeavesOnlyItsErrs;
    FreshRunIsOk(host, r, job);
    AloneKeepsOwnership(host, r, Begun(job), faults);
    var (host', run) := Alone(host, r, Begun(job), faults);
    FinishedRunLeavesOnlyItsErrs(host', r, run);
  }
}
