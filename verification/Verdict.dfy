/** A challenge from its requirements to its verdict: validation, three judge runs, and the report. */
module Verdicts {
  import opened Prelude
  import opened Results
  import opened Verify
  import ResultDocument
  import opened Judges

  /** One judge run: what its runtime calls and its tester turn out to do. */
  datatype Attempt = Attempt(run: RunId, job: Job, faults: Faults, tested: Results.Run)

  /** What Judge.Run's two results amount to for its caller: a teardown error is joined to any other. */
  function OutcomeOf(report: Result<seq<TestResult>, JudgeError>, errs: seq<Kind>): JudgeOutcome {
    JudgeOutcome(if report.Ok? then report.value else [], report.Err? || errs != [], errs != [])
  }

  /** Whether one run comes to results: a valid job is set up, its output is read, and what the tester
      said can be made sense of. */
  ghost predicate ComesToResults(host: Host, a: Attempt, decode: Decoder) {
    && ValidJob(a.job)
    && SetUpTo(host, a.job.id, a.faults) == WaitAndRead && !a.faults(WaitAndRead)
    && (a.tested.err.Some? || ResultDocument.Document(a.tested.stdout).None?
        || ReadableRun(a.job.requirements, a.tested, decode))
  }

  /** The runtime after one run, whatever it came to. */
  function HostAfter(host: Host, a: Attempt): Host {
    if ValidJob(a.job) then Alone(host, a.run, Begun(a.job.id), a.faults).0 else host
  }

  /** A run that left something behind still counts, unless there was nothing to report. */
  ghost predicate Counts(host: Host, a: Attempt, decode: Decoder) {
    && ComesToResults(host, a, decode)
    && (a.job.requirements != [] || Alone(host, a.run, Begun(a.job.id), a.faults).1.errs == [])
  }

  ghost predicate Joined(
    requirements: seq<Requirement>, ws: Results.Run, sol: Results.Run, rep: Results.Run, decode: Decoder,
    report: Report, w: seq<TestResult>, s: seq<TestResult>, r: seq<TestResult>)
  {
    && Collected(requirements, ws, decode, w) && Collected(requirements, sol, decode, s)
    && Collected(requirements, rep, decode, r)
    && Matches(requirements, w) && Matches(requirements, s) && Matches(requirements, r)
    && (Valid(report) <==>
          && FailsExactlyTheBroken(requirements, w)
          && PassesEverything(requirements, s) && PassesEverything(requirements, r))
    && (Valid(report) ==> exists i :: 0 <= i < |w| && requirements[i].broken && w[i].status == "fail")
  }

  /** What a verdict says of the three runs: they were collected from what the testers said, and the
      report finds nothing wrong exactly when the workspace fails the broken requirements and only those
      and the solution passes everything twice. */
  ghost predicate SaysSo(
    requirements: seq<Requirement>, ws: Results.Run, sol: Results.Run, rep: Results.Run, decode: Decoder,
    report: Report)
  {
    exists w, s, r :: Joined(requirements, ws, sol, rep, decode, report, w, s, r)
  }

  class Verifier {
    const judge: Judge

    constructor (judge: Judge)
      ensures this.judge == judge
    {
      this.judge := judge;
    }

    /** A phase counts exactly when its run comes to results, whether or not it cleaned up, and then has
        the results its tester reported. */
    method JudgePhase(a: Attempt, decode: Decoder) returns (o: JudgeOutcome)
      modifies judge.runtime
      ensures PhaseResults(o).Some? <==> Counts(old(judge.runtime.Live()), a, decode)
      ensures PhaseResults(o).Some? ==> Collected(a.job.requirements, a.tested, decode, o.results)
      ensures judge.runtime.Live() == HostAfter(old(judge.runtime.Live()), a)
    {
      hide Collected, Alone, SetUpTo, ReadableRun, ValidJob, ResultDocument.Document;
      var report, errs := judge.Run(a.run, a.job, a.faults, a.tested, decode);
      o := OutcomeOf(report, errs);
      if report.Ok? {
        AsManyResults(a.job.requirements, a.tested, decode, report.value);
      }
    }

    /** There is a report exactly when the requirements validate, the image builds and all three runs, one
        after the other, come to results; and it says what the three testers said. */
    method Verdict(requirements: seq<Requirement>, built: bool, ws: Attempt, sol: Attempt, rep: Attempt,
                   decode: Decoder)
      returns (report: Option<Report>)
      requires ws.job.requirements == sol.job.requirements == rep.job.requirements == requirements
      modifies judge.runtime
      ensures
        var host := old(judge.runtime.Live());
        report.Some? <==>
          && Validated(requirements) && built
          && ComesToResults(host, ws, decode)
          && ComesToResults(HostAfter(host, ws), sol, decode)
          && ComesToResults(HostAfter(HostAfter(host, ws), sol), rep, decode)
      ensures report.Some? ==> SaysSo(requirements, ws.tested, sol.tested, rep.tested, decode, report.value)
    {
      hide Collected, Validated, Joined, PhaseResults, AsDeclared, Valid, ComesToResults, HostAfter;
      ValidatedIsNotEmpty(requirements);
      var problems := ValidateRequirements(requirements);
      if problems != [] || !built {
        return None;
      }
      var workspace := JudgePhase(ws, decode);
      if PhaseResults(workspace).None? {
        return None;
      }
      var solution := JudgePhase(sol, decode);
      if PhaseResults(solution).None? {
        return None;
      }
      var again := JudgePhase(rep, decode);
      if PhaseResults(again).None? {
        return None;
      }
      report := Challenge(requirements, built, workspace, solution, again);
      JoinsUp(requirements, ws.tested, sol.tested, rep.tested, decode, report.value,
              workspace.results, solution.results, again.results);
    }
  }

  lemma AsManyResults(requirements: seq<Requirement>, run: Results.Run, decode: Decoder, results: seq<TestResult>)
    requires Collected(requirements, run, decode, results)
    ensures |results| == |requirements|
  {
    CollectedIsComplete(requirements, run, decode, results);
    hide Collected;
  }

  lemma ValidatedIsNotEmpty(requirements: seq<Requirement>)
    ensures Validated(requirements) ==> requirements != []
  {}

  lemma JoinsUp(
      requirements: seq<Requirement>, ws: Results.Run, sol: Results.Run, rep: Results.Run, decode: Decoder,
      report: Report, w: seq<TestResult>, s: seq<TestResult>, r: seq<TestResult>)
    requires Validated(requirements)
    requires Collected(requirements, ws, decode, w) && Collected(requirements, sol, decode, s)
    requires Collected(requirements, rep, decode, r)
    requires Valid(report) <==> AsDeclared(requirements, w, s, r)
    ensures Joined(requirements, ws, sol, rep, decode, report, w, s, r)
  {
    hide Collected, Validated, AsDeclared, FailsExactlyTheBroken, PassesEverything, DistinctKeys, Matches, Valid;
    CollectedIsComplete(requirements, ws, decode, w);
    CollectedIsComplete(requirements, sol, decode, s);
    CollectedIsComplete(requirements, rep, decode, r);
    ValidatedIsDistinct(requirements);
    ValidMeansFit(requirements, w, s, r);
    if Valid(report) {
      ValidIsNotAlreadySolved(requirements, w, s, r);
    }
  }

  lemma ValidatedIsDistinct(requirements: seq<Requirement>)
    requires Validated(requirements)
    ensures DistinctKeys(requirements)
  {
    hide IsSlug, TextOk;
  }
}
