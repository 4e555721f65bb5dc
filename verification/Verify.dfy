/** verify.go: whether a challenge is what it claims to be, and validate.go's rules for requirements. */
module Verify {
  import opened Prelude
  import opened Results
  import opened Text
  import ResultDocument

  datatype Phase = Workspace | Solution | Repeat

  datatype Problem = Problem(phase: Phase, requirement: string, want: string, got: string)

  datatype Report = Report(runs: map<Phase, seq<TestResult>>, problems: seq<Problem>)

  predicate Valid(r: Report) {
    |r.problems| == 0
  }

  /** The last result with this key. */
  function Latest(results: seq<TestResult>, key: string): Option<TestResult> {
    if results == [] then None
    else if results[|results| - 1].key == key then Some(results[|results| - 1])
    else Latest(results[..|results| - 1], key)
  }

  /** The status it reports, or "" when there is none. */
  function StatusOf(results: seq<TestResult>, key: string): string {
    match Latest(results, key)
    case None => ""
    case Some(r) => r.status
  }

  lemma {:induction false} LatestComesLast(results: seq<TestResult>, key: string)
    ensures Latest(results, key).None? <==> forall i | 0 <= i < |results| :: results[i].key != key
    ensures forall i | 0 <= i < |results| && results[i].key == key ::
              (forall j | i < j < |results| :: results[j].key != key) ==> Latest(results, key) == Some(results[i])
  {
    if results != [] && results[|results| - 1].key != key {
      var before := results[..|results| - 1];
      LatestComesLast(before, key);
      assert forall i | 0 <= i < |before| :: before[i] == results[i];
    }
  }

  /** index: later results replace earlier ones. */
  method Index(results: seq<TestResult>) returns (byKey: map<string, TestResult>)
    ensures forall key :: Latest(results, key) == if key in byKey then Some(byKey[key]) else None
  {
    byKey := map[];
    for i := 0 to |results|
      invariant forall key :: Latest(results[..i], key) == if key in byKey then Some(byKey[key]) else None
    {
      assert results[..i + 1][..i] == results[..i];
      byKey := byKey[results[i].key := results[i]];
    }
    assert results[..|results|] == results;
  }

  function Describe(byKey: map<string, TestResult>, key: string): string {
    if key !in byKey || byKey[key].status == "" then "no result at all"
    else if byKey[key].status == "error" then
      if byKey[key].message != "" then "error: " + byKey[key].message else "error"
    else byKey[key].status
  }

  function Got(byKey: map<string, TestResult>, key: string): string {
    if key in byKey then byKey[key].status else ""
  }

  function Wanted(r: Requirement): string {
    if r.broken then "fail" else "pass"
  }

  function DeclaredAs(broken: bool): string {
    if broken then "fail, as declared broken" else "pass, as not declared broken"
  }

  /** Whether some problem of this phase names this requirement. */
  ghost predicate Blamed(problems: seq<Problem>, phase: Phase, key: string) {
    exists k :: 0 <= k < |problems| && problems[k].phase == phase && problems[k].requirement == key
  }

  /** Whether a run disagrees with what it should have shown of one requirement. */
  predicate Disagrees(runs: map<Phase, seq<TestResult>>, phase: Phase, r: Requirement)
    requires Workspace in runs && Solution in runs && Repeat in runs
  {
    match phase
    case Workspace => StatusOf(runs[Workspace], r.key) != Wanted(r)
    case Solution => StatusOf(runs[Solution], r.key) != "pass"
    case Repeat => StatusOf(runs[Solution], r.key) != StatusOf(runs[Repeat], r.key)
  }

  /** A phase has been inspected for the first n requirements: to the problems of before it has added one
      for each that disagrees. */
  ghost predicate Inspected(
    requirements: seq<Requirement>, runs: map<Phase, seq<TestResult>>, phase: Phase, n: nat,
    before: seq<Problem>, problems: seq<Problem>)
    requires Workspace in runs && Solution in runs && Repeat in runs && n <= |requirements|
  {
    && (problems == [] <==> before == [] && forall i | 0 <= i < n :: !Disagrees(runs, phase, requirements[i]))
    && forall other, key :: Blamed(problems, other, key) <==>
         || Blamed(before, other, key)
         || (other == phase
             && exists i :: 0 <= i < n && requirements[i].key == key && Disagrees(runs, phase, requirements[i]))
  }

  lemma BlamedOneMore(problems: seq<Problem>, p: Problem, phase: Phase, key: string)
    ensures Blamed(problems + [p], phase, key) <==>
            Blamed(problems, phase, key) || (p.phase == phase && p.requirement == key)
  {
    var all := problems + [p];
    if k :| 0 <= k < |problems| && problems[k].phase == phase && problems[k].requirement == key {
      assert all[k] == problems[k];
    }
    assert all[|problems|] == p;
  }

  lemma NothingInspected(
      requirements: seq<Requirement>, runs: map<Phase, seq<TestResult>>, phase: Phase, before: seq<Problem>)
    requires Workspace in runs && Solution in runs && Repeat in runs
    ensures Inspected(requirements, runs, phase, 0, before, before)
  {
    hide Disagrees, Blamed;
  }

  lemma OneMoreInspected(
      requirements: seq<Requirement>, runs: map<Phase, seq<TestResult>>, phase: Phase, n: nat,
      before: seq<Problem>, problems: seq<Problem>, p: Problem)
    requires Workspace in runs && Solution in runs && Repeat in runs && n < |requirements|
    requires Inspected(requirements, runs, phase, n, before, problems)
    requires p.phase == phase && p.requirement == requirements[n].key
    ensures
      Inspected(requirements, runs, phase, n + 1, before,
                if Disagrees(runs, phase, requirements[n]) then problems + [p] else problems)
  {
    hide Disagrees, Blamed;
    forall other, key
      ensures Blamed(problems + [p], other, key) <==>
              Blamed(problems, other, key) || (p.phase == other && p.requirement == key)
    {
      BlamedOneMore(problems, p, other, key);
    }
  }

  /** inspect: the three runs against the declared requirements. */
  method Inspect(requirements: seq<Requirement>, runs: map<Phase, seq<TestResult>>)
    returns (problems: seq<Problem>)
    requires Workspace in runs && Solution in runs && Repeat in runs
    ensures problems == [] <==>
              forall i | 0 <= i < |requirements| ::
                var r := requirements[i];
                && StatusOf(runs[Workspace], r.key) == Wanted(r)
                && StatusOf(runs[Solution], r.key) == "pass"
                && StatusOf(runs[Repeat], r.key) == StatusOf(runs[Solution], r.key)
    ensures forall key :: Blamed(problems, Workspace, key) <==>
              exists i :: 0 <= i < |requirements| && requirements[i].key == key
                && StatusOf(runs[Workspace], key) != if requirements[i].broken then "fail" else "pass"
    ensures forall key :: Blamed(problems, Solution, key) <==>
              exists i :: 0 <= i < |requirements| && requirements[i].key == key
                && StatusOf(runs[Solution], key) != "pass"
    ensures forall key :: Blamed(problems, Repeat, key) <==>
              exists i :: 0 <= i < |requirements| && requirements[i].key == key
                && StatusOf(runs[Repeat], key) != StatusOf(runs[Solution], key)
  {
    hide Describe, DeclaredAs, Wanted, Inspected, Blamed, Latest;
    problems := [];
    NothingInspected(requirements, runs, Workspace, problems);
    var workspace := Index(runs[Workspace]);
    for i := 0 to |requirements|
      invariant Inspected(requirements, runs, Workspace, i, [], problems)
    {
      var r := requirements[i];
      var problem := Problem(Workspace, r.key, DeclaredAs(r.broken), Describe(workspace, r.key));
      OneMoreInspected(requirements, runs, Workspace, i, [], problems, problem);
      if Got(workspace, r.key) != Wanted(r) {
        problems := problems + [problem];
      }
    }
    ghost var afterWorkspace := problems;

    NothingInspected(requirements, runs, Solution, problems);
    var solution := Index(runs[Solution]);
    for i := 0 to |requirements|
      invariant Inspected(requirements, runs, Solution, i, afterWorkspace, problems)
    {
      var r := requirements[i];
      var problem := Problem(Solution, r.key, "pass", Describe(solution, r.key));
      OneMoreInspected(requirements, runs, Solution, i, afterWorkspace, problems, problem);
      if Got(solution, r.key) != "pass" {
        problems := problems + [problem];
      }
    }
    ghost var afterSolution := problems;

    NothingInspected(requirements, runs, Repeat, problems);
    var again := Index(runs[Repeat]);
    for i := 0 to |requirements|
      invariant Inspected(requirements, runs, Repeat, i, afterSolution, problems)
    {
      var r := requirements[i];
      var want := "the same result twice, " + Got(solution, r.key);
      var problem := Problem(Repeat, r.key, want, Got(again, r.key));
      OneMoreInspected(requirements, runs, Repeat, i, afterSolution, problems, problem);
      if Got(solution, r.key) != Got(again, r.key) {
        problems := problems + [problem];
      }
    }
    AllInspected(requirements, runs, afterWorkspace, afterSolution, problems);
  }

  lemma AllInspected(
      requirements: seq<Requirement>, runs: map<Phase, seq<TestResult>>,
      a: seq<Problem>, b: seq<Problem>, c: seq<Problem>)
    requires Workspace in runs && Solution in runs && Repeat in runs
    requires Inspected(requirements, runs, Workspace, |requirements|, [], a)
    requires Inspected(requirements, runs, Solution, |requirements|, a, b)
    requires Inspected(requirements, runs, Repeat, |requirements|, b, c)
    ensures c == [] <==>
              forall i | 0 <= i < |requirements| ::
                var r := requirements[i];
                && StatusOf(runs[Workspace], r.key) == Wanted(r)
                && StatusOf(runs[Solution], r.key) == "pass"
                && StatusOf(runs[Repeat], r.key) == StatusOf(runs[Solution], r.key)
    ensures forall key :: Blamed(c, Workspace, key) <==>
              exists i :: 0 <= i < |requirements| && requirements[i].key == key
                && StatusOf(runs[Workspace], key) != if requirements[i].broken then "fail" else "pass"
    ensures forall key :: Blamed(c, Solution, key) <==>
              exists i :: 0 <= i < |requirements| && requirements[i].key == key
                && StatusOf(runs[Solution], key) != "pass"
    ensures forall key :: Blamed(c, Repeat, key) <==>
              exists i :: 0 <= i < |requirements| && requirements[i].key == key
                && StatusOf(runs[Repeat], key) != StatusOf(runs[Solution], key)
  {
    forall phase, key ensures !Blamed([], phase, key) {}
    hide Blamed, StatusOf;
  }

  // One phase.

  /** What Judge.Run hands back: results, an error, and whether a teardown error is part of it. */
  datatype JudgeOutcome = JudgeOutcome(results: seq<TestResult>, failed: bool, teardown: bool)

  /** judge: a run that produced results and then only failed to clean up still counts. */
  function PhaseResults(o: JudgeOutcome): Option<seq<TestResult>> {
    if o.failed && (|o.results| == 0 || !o.teardown) then None else Some(o.results)
  }

  /** Every requirement fails or passes against the workspace as it is declared to, and passes against the
      solution both times. */
  predicate AsDeclared(
    requirements: seq<Requirement>, ws: seq<TestResult>, sol: seq<TestResult>, rep: seq<TestResult>)
  {
    forall i | 0 <= i < |requirements| ::
      var r := requirements[i];
      && StatusOf(ws, r.key) == Wanted(r)
      && StatusOf(sol, r.key) == "pass" && StatusOf(rep, r.key) == "pass"
  }

  /** Verifier.Challenge: build, judge three times, inspect. None when a run could not be carried out. */
  method Challenge(requirements: seq<Requirement>, built: bool,
                   workspace: JudgeOutcome, solution: JudgeOutcome, again: JudgeOutcome)
    returns (report: Option<Report>)
    ensures report.Some? <==>
              built && PhaseResults(workspace).Some? && PhaseResults(solution).Some? && PhaseResults(again).Some?
    ensures report.Some? ==>
              (Valid(report.value) <==>
                 AsDeclared(requirements, workspace.results, solution.results, again.results))
    ensures report.Some? ==>
              && report.value.runs
                 == map[Workspace := workspace.results, Solution := solution.results, Repeat := again.results]
  {
    if !built {
      return None;
    }
    var runs: map<Phase, seq<TestResult>> := map[];
    var phases := [(Workspace, workspace), (Solution, solution), (Repeat, again)];
    for i := 0 to |phases|
      invariant forall k | 0 <= k < i ::
                  PhaseResults(phases[k].1).Some? && phases[k].0 in runs && runs[phases[k].0] == phases[k].1.results
      invariant forall phase | phase in runs :: exists k :: 0 <= k < i && phases[k].0 == phase
    {
      var results := PhaseResults(phases[i].1);
      if results.None? {
        return None;
      }
      runs := runs[phases[i].0 := results.value];
    }
    assert phases[0].0 in runs && phases[1].0 in runs && phases[2].0 in runs;
    assert runs == map[Workspace := workspace.results, Solution := solution.results, Repeat := again.results];
    var problems := Inspect(requirements, runs);
    report := Some(Report(runs, problems));
  }

  // Over what Collect produces.

  predicate DistinctKeys(requirements: seq<Requirement>) {
    forall i, j | 0 <= i < j < |requirements| :: requirements[i].key != requirements[j].key
  }

  /** Where results follow the requirements, a key's status is the status at its place. */
  lemma {:induction false} StatusAtItsPlace(requirements: seq<Requirement>, results: seq<TestResult>, i: nat)
    requires Matches(requirements, results) && DistinctKeys(requirements) && i < |results|
    ensures StatusOf(results, requirements[i].key) == results[i].status
  {
    if i < |results| - 1 {
      var n := |results| - 1;
      assert requirements[..n][i] == requirements[i] && results[..n][i] == results[i];
      StatusAtItsPlace(requirements[..n], results[..n], i);
    }
  }

  /** The declared requirements whose result is not a pass. */
  function KeysWith(requirements: seq<Requirement>, results: seq<TestResult>, status: string): set<string>
    requires |results| == |requirements|
  {
    set i | 0 <= i < |results| && results[i].status == status :: requirements[i].key
  }

  function BrokenKeys(requirements: seq<Requirement>): set<string> {
    set i | 0 <= i < |requirements| && requirements[i].broken :: requirements[i].key
  }

  /** The broken requirements fail, all others pass, and nothing errors. */
  predicate FailsExactlyTheBroken(requirements: seq<Requirement>, results: seq<TestResult>)
    requires |results| == |requirements|
  {
    && KeysWith(requirements, results, "fail") == BrokenKeys(requirements)
    && KeysWith(requirements, results, "pass") == KeysOf(requirements) - BrokenKeys(requirements)
  }

  predicate PassesEverything(requirements: seq<Requirement>, results: seq<TestResult>)
    requires |results| == |requirements|
  {
    KeysWith(requirements, results, "pass") == KeysOf(requirements)
  }

  /** With results as Collect arranges them, a challenge is valid exactly when the workspace fails the
      broken requirements, passes all others, and the solution passes everything both times. */
  lemma ValidMeansFit(requirements: seq<Requirement>, ws: seq<TestResult>, sol: seq<TestResult>, rep: seq<TestResult>)
    requires DistinctKeys(requirements)
    requires Matches(requirements, ws) && Matches(requirements, sol) && Matches(requirements, rep)
    ensures
      AsDeclared(requirements, ws, sol, rep) <==>
      && FailsExactlyTheBroken(requirements, ws)
      && PassesEverything(requirements, sol) && PassesEverything(requirements, rep)
  {
    DeclaredByPlace(requirements, ws, sol, rep);
    StatusSets(requirements, ws);
    StatusSets(requirements, sol);
    StatusSets(requirements, rep);
    hide AsDeclared, FailsExactlyTheBroken, PassesEverything, Wanted, DistinctKeys;
  }

  lemma DeclaredByPlace(
      requirements: seq<Requirement>, ws: seq<TestResult>, sol: seq<TestResult>, rep: seq<TestResult>)
    requires DistinctKeys(requirements)
    requires Matches(requirements, ws) && Matches(requirements, sol) && Matches(requirements, rep)
    ensures
      AsDeclared(requirements, ws, sol, rep) <==>
      && (forall i | 0 <= i < |ws| :: ws[i].status == Wanted(requirements[i]))
      && (forall i | 0 <= i < |sol| :: sol[i].status == "pass")
      && (forall i | 0 <= i < |rep| :: rep[i].status == "pass")
  {
    StatusesInPlace(requirements, ws);
    StatusesInPlace(requirements, sol);
    StatusesInPlace(requirements, rep);
    hide StatusOf, Wanted, DistinctKeys;
  }

  lemma StatusesInPlace(requirements: seq<Requirement>, results: seq<TestResult>)
    requires DistinctKeys(requirements) && Matches(requirements, results)
    ensures forall i | 0 <= i < |requirements| :: StatusOf(results, requirements[i].key) == results[i].status
  {
    hide StatusOf;
    forall i | 0 <= i < |requirements| ensures StatusOf(results, requirements[i].key) == results[i].status {
      StatusAtItsPlace(requirements, results, i);
    }
  }

  lemma StatusSets(requirements: seq<Requirement>, results: seq<TestResult>)
    requires DistinctKeys(requirements) && |results| == |requirements|
    ensures (forall i | 0 <= i < |results| :: results[i].status == Wanted(requirements[i])) <==>
              FailsExactlyTheBroken(requirements, results)
    ensures (forall i | 0 <= i < |results| :: results[i].status == "pass") <==>
              PassesEverything(requirements, results)
  {
    forall i | 0 <= i < |results|
      ensures requirements[i].key in KeysOf(requirements)
      ensures requirements[i].key in BrokenKeys(requirements) <==> requirements[i].broken
      ensures requirements[i].key in KeysWith(requirements, results, "fail") <==> results[i].status == "fail"
      ensures requirements[i].key in KeysWith(requirements, results, "pass") <==> results[i].status == "pass"
    {}
  }

  // validateRequirements.

  predicate SlugChar(c: char) {
    'a' <= c <= 'z' || '0' <= c <= '9'
  }

  /** Lowercase letters and digits in groups joined by single hyphens. */
  predicate IsSlug(s: string) {
    forall part | part in Split(s, '-') :: part != "" && forall c | c in part :: SlugChar(c)
  }

  /** What the pattern asks for, character by character. */
  lemma SlugMeans(s: string)
    ensures IsSlug(s) <==>
              && s != "" && s[0] != '-' && s[|s| - 1] != '-'
              && (forall i | 0 <= i < |s| :: 'a' <= s[i] <= 'z' || '0' <= s[i] <= '9' || s[i] == '-')
              && (forall i | 0 <= i < |s| - 1 :: !(s[i] == '-' && s[i + 1] == '-'))
  {
    EmptyParts(s, '-');
    hide Split;
    if IsSlug(s) {
      forall i | 0 <= i < |s| && s[i] != '-' ensures SlugChar(s[i]) {
        CharsOfParts(s, '-', s[i]);
        var part :| part in Split(s, '-') && s[i] in part;
      }
    } else {
      var part :| part in Split(s, '-') && !(part != "" && forall c | c in part :: SlugChar(c));
      if part != "" {
        var c :| c in part && !SlugChar(c);
        CharsOfParts(s, '-', c);
      }
    }
  }

  const MAX_TITLE := 120

  predicate TextOk(r: Requirement) {
    && ResultDocument.TrimSpace(r.title) != "" && |r.title| <= MAX_TITLE
    && ResultDocument.TrimSpace(r.description) != "" && r.weight > 0
  }

  ghost predicate Validated(requirements: seq<Requirement>) {
    && requirements != []
    && (forall i | 0 <= i < |requirements| ::
          requirements[i].key != "" && IsSlug(requirements[i].key) && TextOk(requirements[i]))
    && DistinctKeys(requirements)
    && exists i | 0 <= i < |requirements| :: requirements[i].broken
  }

  datatype Complaint =
    | NoRequirements | KeyRequired(at: nat) | KeyNotSlug(at: nat) | KeyUsed(at: nat, first: nat)
    | TitleRequired(at: nat) | TitleTooLong(at: nat) | DescriptionRequired(at: nat) | WeightNotPositive(at: nat)
    | NothingBroken

  predicate KeyFine(r: Requirement) {
    r.key != "" && IsSlug(r.key)
  }

  /** What is wrong with a list of requirements, one complaint at a time. */
  ghost predicate Wrong(requirements: seq<Requirement>, c: Complaint) {
    match c
    case NoRequirements => requirements == []
    case NothingBroken => requirements != [] && forall i | 0 <= i < |requirements| :: !requirements[i].broken
    case KeyRequired(i) => i < |requirements| && requirements[i].key == ""
    case KeyNotSlug(i) => i < |requirements| && requirements[i].key != "" && !IsSlug(requirements[i].key)
    case KeyUsed(i, first) =>
      && first < i < |requirements| && KeyFine(requirements[i]) && requirements[first].key == requirements[i].key
      && forall k | 0 <= k < first :: requirements[k].key != requirements[i].key
    case TitleRequired(i) => i < |requirements| && ResultDocument.TrimSpace(requirements[i].title) == ""
    case TitleTooLong(i) =>
      && i < |requirements| && ResultDocument.TrimSpace(requirements[i].title) != ""
      && |requirements[i].title| > MAX_TITLE
    case DescriptionRequired(i) => i < |requirements| && ResultDocument.TrimSpace(requirements[i].description) == ""
    case WeightNotPositive(i) => i < |requirements| && requirements[i].weight <= 0
  }

  /** The requirement a complaint is about; those about the whole list come last. */
  function About(c: Complaint, n: nat): nat {
    if c.NoRequirements? || c.NothingBroken? then n else c.at
  }

  /** The title, the description and the weight, each with its own complaint. */
  function TextProblems(r: Requirement, i: nat): seq<Complaint> {
    (if ResultDocument.TrimSpace(r.title) == "" then [TitleRequired(i)]
     else if |r.title| > MAX_TITLE then [TitleTooLong(i)]
     else [])
    + (if ResultDocument.TrimSpace(r.description) == "" then [DescriptionRequired(i)] else [])
    + if r.weight <= 0 then [WeightNotPositive(i)] else []
  }

  /** The complaint about one key, if there is one. */
  ghost function KeyProblems(r: Requirement, i: nat, seen: map<string, nat>): seq<Complaint> {
    if r.key == "" then [KeyRequired(i)]
    else if !IsSlug(r.key) then [KeyNotSlug(i)]
    else if r.key in seen then [KeyUsed(i, seen[r.key])]
    else []
  }

  /** The keys accepted so far, each with the place that first used it. */
  ghost predicate SeenUpTo(requirements: seq<Requirement>, n: nat, seen: map<string, nat>)
    requires n <= |requirements|
  {
    && (forall k | k in seen ::
          && seen[k] < n && requirements[seen[k]].key == k
          && forall j | 0 <= j < seen[k] :: requirements[j].key != k)
    && (forall k | 0 <= k < n && KeyFine(requirements[k]) :: requirements[k].key in seen)
  }

  lemma NothingSeen(requirements: seq<Requirement>)
    ensures SeenUpTo(requirements, 0, map[])
  {}

  lemma SeenStep(requirements: seq<Requirement>, i: nat, seen: map<string, nat>)
    requires i < |requirements| && SeenUpTo(requirements, i, seen)
    ensures
      var r := requirements[i];
      && (KeyFine(r) && r.key !in seen ==> SeenUpTo(requirements, i + 1, seen[r.key := i]))
      && (!KeyFine(r) || r.key in seen ==> SeenUpTo(requirements, i + 1, seen))
  {
    hide IsSlug;
  }

  /** Everything wrong with the first n requirements, and nothing else. */
  ghost predicate Found(requirements: seq<Requirement>, n: nat, problems: seq<Complaint>) {
    forall c :: c in problems <==> About(c, |requirements|) < n && Wrong(requirements, c)
  }

  lemma NothingFound(requirements: seq<Requirement>)
    ensures Found(requirements, 0, [])
  {}

  lemma WrongHere(requirements: seq<Requirement>, i: nat, seen: map<string, nat>)
    requires i < |requirements| && SeenUpTo(requirements, i, seen)
    ensures
      var r := requirements[i];
      forall c :: c in KeyProblems(r, i, seen) + TextProblems(r, i) <==>
                  About(c, |requirements|) == i && Wrong(requirements, c)
  {
    hide IsSlug, ResultDocument.TrimSpace;
    var r := requirements[i];
    forall first: nat | Wrong(requirements, KeyUsed(i, first)) ensures r.key in seen && seen[r.key] == first {
      assert KeyFine(requirements[first]);
    }
  }

  lemma FoundOneMore(requirements: seq<Requirement>, i: nat, seen: map<string, nat>, problems: seq<Complaint>)
    requires i < |requirements| && SeenUpTo(requirements, i, seen) && Found(requirements, i, problems)
    ensures
      var r := requirements[i];
      Found(requirements, i + 1, problems + (KeyProblems(r, i, seen) + TextProblems(r, i)))
  {
    WrongHere(requirements, i, seen);
    hide Wrong, KeyProblems, TextProblems, SeenUpTo, About;
  }

  lemma {:induction false} FirstWith(requirements: seq<Requirement>, j: nat) returns (first: nat)
    requires j < |requirements|
    ensures first <= j && requirements[first].key == requirements[j].key
    ensures forall k | 0 <= k < first :: requirements[k].key != requirements[j].key
  {
    first := j;
    if i :| 0 <= i < j && requirements[i].key == requirements[j].key {
      first := FirstWith(requirements, i);
    }
  }

  /** Requirements are validated exactly when nothing is wrong with them. */
  lemma ValidatedMeansNothingWrong(requirements: seq<Requirement>)
    ensures Validated(requirements) <==> forall c :: !Wrong(requirements, c)
  {
    hide IsSlug, ResultDocument.TrimSpace;
    if forall c :: !Wrong(requirements, c) {
      assert !Wrong(requirements, NoRequirements) && !Wrong(requirements, NothingBroken);
      forall i | 0 <= i < |requirements| ensures KeyFine(requirements[i]) && TextOk(requirements[i]) {
        assert !Wrong(requirements, KeyRequired(i)) && !Wrong(requirements, KeyNotSlug(i));
        assert !Wrong(requirements, TitleRequired(i)) && !Wrong(requirements, TitleTooLong(i));
        assert !Wrong(requirements, DescriptionRequired(i)) && !Wrong(requirements, WeightNotPositive(i));
      }
      forall i, j | 0 <= i < j < |requirements| ensures requirements[i].key != requirements[j].key {
        var first := FirstWith(requirements, j);
        assert !Wrong(requirements, KeyUsed(j, first));
      }
    }
  }

  lemma FoundAll(requirements: seq<Requirement>, found: seq<Complaint>, broken: bool, problems: seq<Complaint>)
    requires requirements != [] && Found(requirements, |requirements|, found)
    requires broken <==> exists k :: 0 <= k < |requirements| && requirements[k].broken
    requires problems == if broken then found else found + [NothingBroken]
    ensures forall c :: c in problems <==> Wrong(requirements, c)
    ensures problems == [] <==> Validated(requirements)
  {
    ValidatedMeansNothingWrong(requirements);
    hide IsSlug, ResultDocument.TrimSpace, Validated;
    assert problems != [] ==> problems[0] in problems;
  }

  lemma EmptyIsWrong(requirements: seq<Requirement>)
    requires requirements == []
    ensures forall c :: c in [NoRequirements] <==> Wrong(requirements, c)
    ensures !Validated(requirements)
  {}

  /** Each complaint is made exactly when it is due, and so none is made exactly of a non-empty list of
      well-formed requirements under distinct keys, at least one of them broken. */
  method ValidateRequirements(requirements: seq<Requirement>) returns (problems: seq<Complaint>)
    ensures forall c :: c in problems <==> Wrong(requirements, c)
    ensures problems == [] <==> Validated(requirements)
  {
    hide IsSlug, TextOk, TextProblems, SeenUpTo, Found, Wrong, Validated;
    if |requirements| == 0 {
      EmptyIsWrong(requirements);
      return [NoRequirements];
    }
    problems := [];
    var seen: map<string, nat> := map[];
    var broken := 0;
    NothingSeen(requirements);
    NothingFound(requirements);
    for i := 0 to |requirements|
      invariant SeenUpTo(requirements, i, seen) && Found(requirements, i, problems)
      invariant broken > 0 <==> exists k :: 0 <= k < i && requirements[k].broken
    {
      var r := requirements[i];
      ghost var before, wrong := problems, KeyProblems(r, i, seen) + TextProblems(r, i);
      SeenStep(requirements, i, seen);
      FoundOneMore(requirements, i, seen, problems);
      if r.key == "" {
        problems := problems + [KeyRequired(i)];
      } else if !IsSlug(r.key) {
        problems := problems + [KeyNotSlug(i)];
      } else if r.key in seen {
        problems := problems + [KeyUsed(i, seen[r.key])];
      } else {
        seen := seen[r.key := i];
      }
      problems := problems + TextProblems(r, i);
      assert problems == before + wrong;
      if r.broken {
        broken := broken + 1;
      }
    }
    ghost var found := problems;
    if broken == 0 {
      problems := problems + [NothingBroken];
    }
    FoundAll(requirements, found, broken > 0, problems);
  }

  /** So a valid report of a validated challenge shows a starting workspace that is not already solved. */
  lemma ValidIsNotAlreadySolved(
      requirements: seq<Requirement>, ws: seq<TestResult>, sol: seq<TestResult>, rep: seq<TestResult>)
    requires Validated(requirements) && Matches(requirements, ws)
    requires AsDeclared(requirements, ws, sol, rep)
    ensures exists i :: 0 <= i < |ws| && requirements[i].broken && ws[i].status == "fail"
  {
    hide IsSlug, TextOk;
    var i :| 0 <= i < |requirements| && requirements[i].broken;
    StatusAtItsPlace(requirements, ws, i);
  }
}
