/** parse.go and collect.go: from a tester's output to one result per declared requirement. */
module Results {
  import opened Prelude
  import opened ResultDocument
  import CappedBuffers
  import Decimals

  const SCHEMA := "devduel.results/1"
  const MISSING := "the tester reported no result for this requirement"

  datatype WireResult = WireResult(key: string, status: string, durationMs: int, message: string)
  datatype Wire = Wire(schema: string, results: seq<WireResult>)

  /** What the JSON decoder makes of a document: a value of the schema's shape, or nothing. */
  type Decoder = string -> Option<Wire>

  datatype TestResult = TestResult(key: string, status: string, duration: int, message: string)

  datatype Problem =
    | SchemaMissing | SchemaUnknown
    | KeyMissing(at: nat) | KeyUndeclared(at: nat) | KeyTwice(at: nat, first: nat)
    | StatusMissing(at: nat) | StatusUnknown(at: nat)
    | DurationNegative(at: nat)

  datatype ParseError = NoResults | EmptyDocument | Undecodable | Malformed(problems: seq<Problem>)

  predicate IsStatus(s: string) {
    s == "pass" || s == "fail" || s == "error"
  }

  const TWO_63 := 0x8000_0000_0000_0000
  const MILLISECOND := 1_000_000

  /** int64 arithmetic wraps. */
  function Wrap64(x: int): int {
    (x + TWO_63) % (2 * TWO_63) - TWO_63
  }

  function Converted(r: WireResult): TestResult {
    TestResult(r.key, r.status, Wrap64(r.durationMs * MILLISECOND), r.message)
  }

  /** The conversion to nanoseconds keeps the duration exactly while the product fits an int64. */
  lemma DurationIsExact(r: WireResult)
    requires 0 <= r.durationMs < TWO_63
    ensures Converted(r).duration == r.durationMs * MILLISECOND <==> r.durationMs <= 9_223_372_036_854
  {}

  predicate KeyOk(key: string, declared: Option<set<string>>) {
    key != "" && (declared.Some? ==> key in declared.value)
  }

  /** What a readable document is. */
  predicate WellFormed(w: Wire, declared: Option<set<string>>) {
    && w.schema == SCHEMA
    && (forall i | 0 <= i < |w.results| ::
          KeyOk(w.results[i].key, declared) && IsStatus(w.results[i].status) && w.results[i].durationMs >= 0)
    && (forall i, j | 0 <= i < j < |w.results| :: w.results[i].key != w.results[j].key)
  }

  predicate Blank(s: string) {
    TrimSpace(s) == ""
  }

  /** parse, with its loop over the results; the document is well formed exactly when nothing is
      found wrong with it. */
  method Parse(stdout: string, declared: Option<set<string>>, decode: Decoder)
    returns (r: Result<seq<TestResult>, ParseError>)
    ensures Document(stdout).None? <==> r == Err(NoResults)
    ensures Document(stdout).Some? ==>
              var doc := Document(stdout).value;
              && (r == Err(EmptyDocument) <==> Blank(doc))
              && (r == Err(Undecodable) <==> !Blank(doc) && decode(doc).None?)
              && (r.Ok? <==> !Blank(doc) && decode(doc).Some? && WellFormed(decode(doc).value, declared))
              && (r.Ok? ==> r.value == ConvertedAll(decode(doc).value.results))
              && (r.Err? && r.error.Malformed? ==>
                    forall p :: p in r.error.problems <==> Wrong(decode(doc).value, declared, p))
    ensures r.Ok? ==>
              var wire := decode(Document(stdout).value).value.results;
              && |r.value| == |wire|
              && forall i | 0 <= i < |wire| ::
                   && r.value[i].key == wire[i].key && r.value[i].status == wire[i].status
                   && r.value[i].message == wire[i].message
                   && (wire[i].durationMs <= 9_223_372_036_854 ==>
                         r.value[i].duration == wire[i].durationMs * 1_000_000)
  {
    hide Document, TrimSpace;
    var doc := DocumentAfterMarker(stdout);
    if doc.None? {
      return Err(NoResults);
    }
    if TrimSpace(doc.value) == "" {
      return Err(EmptyDocument);
    }
    var wire := decode(doc.value);
    if wire.None? {
      return Err(Undecodable);
    }
    var problems, results := Check(wire.value, declared);
    if |problems| > 0 {
      return Err(Malformed(problems));
    }
    r := Ok(results);
  }

  function ConvertedAll(results: seq<WireResult>): (out: seq<TestResult>)
    ensures |out| == |results|
    ensures forall i | 0 <= i < |results| :: out[i] == Converted(results[i])
  {
    seq(|results|, i requires 0 <= i < |results| => Converted(results[i]))
  }

  /** The keys accepted so far, each with the index that first used it. */
  ghost predicate SeenOk(results: seq<WireResult>, n: nat, declared: Option<set<string>>, seen: map<string, nat>)
    requires n <= |results|
  {
    && (forall k | k in seen ::
          seen[k] < n && results[seen[k]].key == k && forall j | 0 <= j < seen[k] :: results[j].key != k)
    && (forall i | 0 <= i < n && KeyOk(results[i].key, declared) :: results[i].key in seen)
  }

  lemma NothingSeen(results: seq<WireResult>, declared: Option<set<string>>)
    ensures SeenOk(results, 0, declared, map[])
  {}

  lemma SeenStep(results: seq<WireResult>, i: nat, declared: Option<set<string>>, seen: map<string, nat>)
    requires i < |results| && SeenOk(results, i, declared, seen)
    ensures
      var r := results[i];
      && (KeyOk(r.key, declared) && r.key !in seen ==> SeenOk(results, i + 1, declared, seen[r.key := i]))
      && (!KeyOk(r.key, declared) || r.key in seen ==> SeenOk(results, i + 1, declared, seen))
  {}

  /** What is wrong with a document, one complaint at a time. */
  ghost predicate Wrong(w: Wire, declared: Option<set<string>>, p: Problem) {
    match p
    case SchemaMissing => w.schema == ""
    case SchemaUnknown => w.schema != "" && w.schema != SCHEMA
    case KeyMissing(i) => i < |w.results| && w.results[i].key == ""
    case KeyUndeclared(i) =>
      i < |w.results| && w.results[i].key != "" && declared.Some? && w.results[i].key !in declared.value
    case KeyTwice(i, first) =>
      && first < i < |w.results| && KeyOk(w.results[i].key, declared)
      && w.results[first].key == w.results[i].key
      && forall k | 0 <= k < first :: w.results[k].key != w.results[i].key
    case StatusMissing(i) => i < |w.results| && w.results[i].status == ""
    case StatusUnknown(i) => i < |w.results| && w.results[i].status !in {"", "pass", "fail", "error"}
    case DurationNegative(i) => i < |w.results| && w.results[i].durationMs < 0
  }

  /** The result a problem is about; the schema comes before them all. */
  function About(p: Problem): int {
    if p.SchemaMissing? || p.SchemaUnknown? then -1 else p.at
  }

  /** The status and duration checks of one result. */
  function FieldProblems(r: WireResult, i: nat): seq<Problem> {
    (if r.status == "" then [StatusMissing(i)] else if !IsStatus(r.status) then [StatusUnknown(i)] else [])
    + if r.durationMs < 0 then [DurationNegative(i)] else []
  }

  lemma {:induction false} FirstWith(results: seq<WireResult>, j: nat) returns (first: nat)
    requires j < |results|
    ensures first <= j && results[first].key == results[j].key
    ensures forall k | 0 <= k < first :: results[k].key != results[j].key
  {
    first := j;
    if i :| 0 <= i < j && results[i].key == results[j].key {
      first := FirstWith(results, i);
    }
  }

  /** A document is well formed exactly when nothing is wrong with it. */
  lemma WellFormedMeansNothingWrong(w: Wire, declared: Option<set<string>>)
    ensures WellFormed(w, declared) <==> forall p :: !Wrong(w, declared, p)
  {
    if forall p :: !Wrong(w, declared, p) {
      assert !Wrong(w, declared, SchemaMissing) && !Wrong(w, declared, SchemaUnknown);
      forall i | 0 <= i < |w.results|
        ensures KeyOk(w.results[i].key, declared) && IsStatus(w.results[i].status) && w.results[i].durationMs >= 0
      {
        assert !Wrong(w, declared, KeyMissing(i)) && !Wrong(w, declared, KeyUndeclared(i));
        assert !Wrong(w, declared, StatusMissing(i)) && !Wrong(w, declared, StatusUnknown(i));
        assert !Wrong(w, declared, DurationNegative(i));
      }
      forall i, j | 0 <= i < j < |w.results| ensures w.results[i].key != w.results[j].key {
        var first := FirstWith(w.results, j);
        assert !Wrong(w, declared, KeyTwice(j, first));
      }
    }
  }

  /** The complaint about one result's key, if there is one. */
  ghost function KeyProblems(r: WireResult, i: nat, declared: Option<set<string>>, seen: map<string, nat>)
    : seq<Problem>
  {
    if r.key == "" then [KeyMissing(i)]
    else if declared.Some? && r.key !in declared.value then [KeyUndeclared(i)]
    else if r.key in seen then [KeyTwice(i, seen[r.key])]
    else []
  }

  lemma WrongHere(w: Wire, declared: Option<set<string>>, i: nat, seen: map<string, nat>)
    requires i < |w.results| && SeenOk(w.results, i, declared, seen)
    ensures
      var r := w.results[i];
      forall p :: p in KeyProblems(r, i, declared, seen) + FieldProblems(r, i) <==>
                  About(p) == i && Wrong(w, declared, p)
  {
    var r := w.results[i];
    forall first: nat | Wrong(w, declared, KeyTwice(i, first)) ensures r.key in seen && seen[r.key] == first {
      assert w.results[first].key in seen;
    }
  }

  /** Everything wrong with the schema and the first n results, and nothing else. */
  ghost predicate Found(w: Wire, declared: Option<set<string>>, n: nat, problems: seq<Problem>) {
    forall p :: p in problems <==> About(p) < n && Wrong(w, declared, p)
  }

  lemma FoundInSchema(w: Wire, declared: Option<set<string>>)
    ensures Found(w, declared, 0, if w.schema == "" then [SchemaMissing]
                                  else if w.schema != SCHEMA then [SchemaUnknown] else [])
  {
    hide IsStatus, KeyOk;
  }

  lemma FoundOneMore(w: Wire, declared: Option<set<string>>, i: nat, seen: map<string, nat>, problems: seq<Problem>)
    requires i < |w.results| && SeenOk(w.results, i, declared, seen) && Found(w, declared, i, problems)
    ensures
      var r := w.results[i];
      Found(w, declared, i + 1, problems + (KeyProblems(r, i, declared, seen) + FieldProblems(r, i)))
  {
    WrongHere(w, declared, i, seen);
    hide Wrong, KeyProblems, FieldProblems, SeenOk;
  }

  lemma FoundAll(w: Wire, declared: Option<set<string>>, problems: seq<Problem>)
    requires Found(w, declared, |w.results|, problems)
    ensures forall p :: p in problems <==> Wrong(w, declared, p)
    ensures problems == [] <==> WellFormed(w, declared)
  {
    WellFormedMeansNothingWrong(w, declared);
    hide WellFormed, IsStatus;
    if problems != [] {
      assert problems[0] in problems;
    }
  }

  method Check(w: Wire, declared: Option<set<string>>) returns (problems: seq<Problem>, results: seq<TestResult>)
    ensures forall p :: p in problems <==> Wrong(w, declared, p)
    ensures problems == [] <==> WellFormed(w, declared)
    ensures results == ConvertedAll(w.results)
  {
    hide SeenOk, IsStatus, Wrong, Found, FieldProblems, Converted, WellFormed;
    problems, results := [], [];
    if w.schema == "" {
      problems := [SchemaMissing];
    } else if w.schema != SCHEMA {
      problems := [SchemaUnknown];
    }
    var seen: map<string, nat> := map[];
    FoundInSchema(w, declared);
    NothingSeen(w.results, declared);
    for i := 0 to |w.results|
      invariant SeenOk(w.results, i, declared, seen)
      invariant Found(w, declared, i, problems)
      invariant |results| == i && forall k | 0 <= k < i :: results[k] == Converted(w.results[k])
    {
      var r := w.results[i];
      ghost var before, wrong := problems, KeyProblems(r, i, declared, seen) + FieldProblems(r, i);
      SeenStep(w.results, i, declared, seen);
      FoundOneMore(w, declared, i, seen, problems);
      if r.key == "" {
        problems := problems + [KeyMissing(i)];
      } else if declared.Some? && r.key !in declared.value {
        problems := problems + [KeyUndeclared(i)];
      } else if r.key in seen {
        problems := problems + [KeyTwice(i, seen[r.key])];
      } else {
        seen := seen[r.key := i];
      }

      problems := problems + FieldProblems(r, i);
      assert problems == before + wrong;
      results := results + [Converted(r)];
    }
    FoundAll(w, declared, problems);
  }

  // Collect.

  datatype Requirement = Requirement(key: string, title: string, description: string, weight: int, broken: bool)

  /** One execution of the tester container; err says why it did not finish. */
  datatype Run = Run(stdout: string, exitCode: int, err: Option<string>)

  function KeysOf(requirements: seq<Requirement>): set<string> {
    set i | 0 <= i < |requirements| :: requirements[i].key
  }

  ghost predicate ReadableRun(requirements: seq<Requirement>, run: Run, decode: Decoder) {
    && run.err.None? && Document(run.stdout).Some?
    && !Blank(Document(run.stdout).value) && decode(Document(run.stdout).value).Some?
    && WellFormed(decode(Document(run.stdout).value).value, Some(KeysOf(requirements)))
  }

  ghost function Reported(run: Run, decode: Decoder): seq<WireResult>
    requires Document(run.stdout).Some? && decode(Document(run.stdout).value).Some?
  {
    decode(Document(run.stdout).value).value.results
  }

  /** The result a requirement gets from a readable document. */
  ghost predicate FromDocument(key: string, reported: seq<WireResult>, out: TestResult) {
    if exists j :: 0 <= j < |reported| && reported[j].key == key
    then exists j :: 0 <= j < |reported| && reported[j].key == key && out == Converted(reported[j])
    else out == TestResult(key, "error", 0, MISSING)
  }

  ghost predicate Matches(requirements: seq<Requirement>, results: seq<TestResult>) {
    && |results| == |requirements|
    && forall i | 0 <= i < |results| :: results[i].key == requirements[i].key
  }

  function ErrorsFor(requirements: seq<Requirement>, message: string): (out: seq<TestResult>)
    ensures |out| == |requirements|
    ensures forall i | 0 <= i < |out| :: out[i] == TestResult(requirements[i].key, "error", 0, message)
  {
    seq(|requirements|, i requires 0 <= i < |requirements| =>
      TestResult(requirements[i].key, "error", 0, message))
  }

  function Exited(code: int): string {
    "the tester exited with status " + (if code < 0 then "-" else "")
    + Decimals.Print(if code < 0 then -code else code) + " without reporting any results"
  }

  /** The set of results one run stands for. */
  ghost predicate Collected(requirements: seq<Requirement>, run: Run, decode: Decoder, results: seq<TestResult>) {
    if run.err.Some? then results == ErrorsFor(requirements, "the tester did not finish: " + run.err.value)
    else if Document(run.stdout).None? then results == ErrorsFor(requirements, Exited(run.exitCode))
    else
      && ReadableRun(requirements, run, decode) && |results| == |requirements|
      && forall i | 0 <= i < |requirements| ::
           FromDocument(requirements[i].key, Reported(run, decode), results[i])
  }

  /** One result per declared requirement, in the challenge's order, or a protocol error. */
  method Collect(requirements: seq<Requirement>, run: Run, decode: Decoder)
    returns (r: Result<seq<TestResult>, ParseError>)
    ensures r.Ok? ==> Collected(requirements, run, decode, r.value)
    ensures r.Err? <==>
              run.err.None? && Document(run.stdout).Some? && !ReadableRun(requirements, run, decode)
  {
    hide Document, TrimSpace, Exited;
    if run.err.Some? {
      var all := AllErrors(requirements, "the tester did not finish: " + run.err.value);
      return Ok(all);
    }

    var declared: set<string> := {};
    for i := 0 to |requirements|
      invariant declared == KeysOf(requirements[..i])
    {
      assert requirements[..i + 1] == requirements[..i] + [requirements[i]];
      declared := declared + {requirements[i].key};
    }
    assert requirements[..|requirements|] == requirements;

    var reported := Parse(run.stdout, Some(declared), decode);
    if reported == Err(NoResults) {
      var all := AllErrors(requirements, Exited(run.exitCode));
      return Ok(all);
    }
    if reported.Err? {
      return Err(reported.error);
    }
    var results := Arrange(requirements, reported.value);
    r := Ok(results);
    assert ReadableRun(requirements, run, decode);
    ArrangedFromDocument(requirements, Reported(run, decode), results);
  }

  method AllErrors(requirements: seq<Requirement>, message: string) returns (results: seq<TestResult>)
    ensures results == ErrorsFor(requirements, message)
  {
    results := [];
    for i := 0 to |requirements|
      invariant |results| == i
      invariant forall k | 0 <= k < i :: results[k] == TestResult(requirements[k].key, "error", 0, message)
    {
      results := results + [TestResult(requirements[i].key, "error", 0, message)];
    }
  }

  ghost predicate ArrangedAs(key: string, reported: seq<TestResult>, out: TestResult) {
    if exists j :: 0 <= j < |reported| && reported[j].key == key
    then exists j :: 0 <= j < |reported| && reported[j].key == key && out == reported[j]
    else out == TestResult(key, "error", 0, MISSING)
  }

  /** Collect's second half: by key, then in the order of the requirements. */
  method Arrange(requirements: seq<Requirement>, reported: seq<TestResult>) returns (results: seq<TestResult>)
    ensures |results| == |requirements|
    ensures forall i | 0 <= i < |requirements| :: ArrangedAs(requirements[i].key, reported, results[i])
  {
    var byKey: map<string, TestResult> := map[];
    for j := 0 to |reported|
      invariant forall k | k in byKey :: exists a :: 0 <= a < j && reported[a].key == k && byKey[k] == reported[a]
      invariant forall a | 0 <= a < j :: reported[a].key in byKey
    {
      byKey := byKey[reported[j].key := reported[j]];
    }
    results := [];
    for i := 0 to |requirements|
      invariant |results| == i
      invariant forall k | 0 <= k < i :: ArrangedAs(requirements[k].key, reported, results[k])
    {
      var key := requirements[i].key;
      results := results + [if key in byKey then byKey[key] else TestResult(key, "error", 0, MISSING)];
    }
  }

  lemma ArrangedFromDocument(requirements: seq<Requirement>, wire: seq<WireResult>, results: seq<TestResult>)
    requires |results| == |requirements|
    requires forall i | 0 <= i < |requirements| :: ArrangedAs(requirements[i].key, ConvertedAll(wire), results[i])
    ensures forall i | 0 <= i < |requirements| :: FromDocument(requirements[i].key, wire, results[i])
  {
    var reported := ConvertedAll(wire);
    forall i | 0 <= i < |requirements|
      ensures FromDocument(requirements[i].key, wire, results[i])
    {
      var key := requirements[i].key;
      assert ArrangedAs(key, reported, results[i]);
      if j :| 0 <= j < |wire| && wire[j].key == key {
        assert reported[j].key == key;
      }
      if j :| 0 <= j < |reported| && reported[j].key == key {
        assert wire[j].key == key;
      }
    }
  }

  /** Always one result per requirement, in the challenge's order, whatever the tester did. */
  lemma CollectedIsComplete(requirements: seq<Requirement>, run: Run, decode: Decoder, results: seq<TestResult>)
    requires Collected(requirements, run, decode, results)
    ensures Matches(requirements, results)
    ensures forall i | 0 <= i < |results| :: results[i].status in {"pass", "fail", "error"}
  {
    hide Document, TrimSpace, Exited;
    if run.err.None? && Document(run.stdout).Some? {
      forall i | 0 <= i < |results|
        ensures results[i].key == requirements[i].key && IsStatus(results[i].status)
      {
        assert FromDocument(requirements[i].key, Reported(run, decode), results[i]);
      }
    }
  }

  /** A tester that did not finish, or finished without a document, errs on every requirement, and each
      result says why. */
  lemma WithoutADocumentAllErr(requirements: seq<Requirement>, run: Run, decode: Decoder, results: seq<TestResult>)
    requires Collected(requirements, run, decode, results)
    requires run.err.Some? || Document(run.stdout).None?
    ensures |results| == |requirements|
    ensures forall i | 0 <= i < |results| ::
              && results[i].key == requirements[i].key && results[i].status == "error" && results[i].duration == 0
              && (run.err.Some? ==> results[i].message == "the tester did not finish: " + run.err.value)
              && (run.err.None? && run.exitCode >= 0 ==>
                    results[i].message == "the tester exited with status " + Decimals.Print(run.exitCode)
                                          + " without reporting any results")
  {
    hide Document;
  }

  predicate Mentioned(said: seq<WireResult>, key: string) {
    exists j :: 0 <= j < |said| && said[j].key == key
  }

  predicate Says(said: seq<WireResult>, key: string, status: string) {
    exists j :: 0 <= j < |said| && said[j].key == key && said[j].status == status
  }

  lemma ReportedOnce(w: Wire, declared: Option<set<string>>, key: string, out: TestResult)
    requires WellFormed(w, declared) && FromDocument(key, w.results, out)
    ensures forall j | 0 <= j < |w.results| && w.results[j].key == key ::
              && out == Converted(w.results[j]) && IsStatus(out.status)
              && (w.results[j].durationMs <= 9_223_372_036_854 ==>
                    out.duration == w.results[j].durationMs * 1_000_000)
    ensures !Mentioned(w.results, key) ==> out == TestResult(key, "error", 0, MISSING)
  {
    forall j | 0 <= j < |w.results| && w.results[j].key == key
      ensures out == Converted(w.results[j]) && IsStatus(w.results[j].status)
    {
      var j' :| 0 <= j' < |w.results| && w.results[j'].key == key && out == Converted(w.results[j']);
      assert j' == j;
    }
  }

  /** Of a readable run every requirement gets the status, the message and the duration that were
      reported for its key, whichever they are, and an error if nothing was. */
  lemma ResultsAreAsReported(
      requirements: seq<Requirement>, run: Run, decode: Decoder, results: seq<TestResult>, i: nat)
    requires Collected(requirements, run, decode, results) && ReadableRun(requirements, run, decode)
    requires i < |requirements|
    ensures i < |results|
    ensures
      var key, said, out := requirements[i].key, Reported(run, decode), results[i];
      && (out.status == "pass" <==> Says(said, key, "pass"))
      && (out.status == "fail" <==> Says(said, key, "fail"))
      && (out.status == "error" <==> Says(said, key, "error") || !Mentioned(said, key))
      && (forall j | 0 <= j < |said| && said[j].key == key ::
            && out.status == said[j].status && out.message == said[j].message
            && (said[j].durationMs <= 9_223_372_036_854 ==> out.duration == said[j].durationMs * 1_000_000))
      && (!Mentioned(said, key) ==>
            out == TestResult(key, "error", 0, "the tester reported no result for this requirement"))
  {
    hide Document, TrimSpace, Exited, WellFormed;
    var key, said := requirements[i].key, Reported(run, decode);
    assert FromDocument(key, said, results[i]);
    ReportedOnce(decode(Document(run.stdout).value).value, Some(KeysOf(requirements)), key, results[i]);
    hide Collected, FromDocument, Reported;
    if j :| 0 <= j < |said| && said[j].key == key {
      assert Mentioned(said, key) && Says(said, key, said[j].status);
    }
  }

  /** A requirement passes only if the run finished and its readable document says so, once. */
  lemma PassesOnlyIfReported(
      requirements: seq<Requirement>, run: Run, decode: Decoder, results: seq<TestResult>, i: nat)
    requires Collected(requirements, run, decode, results) && i < |results| && results[i].status == "pass"
    ensures ReadableRun(requirements, run, decode) && i < |requirements|
    ensures exists j :: 0 <= j < |Reported(run, decode)|
              && Reported(run, decode)[j].key == requirements[i].key && Reported(run, decode)[j].status == "pass"
              && forall k | 0 <= k < |Reported(run, decode)| && k != j ::
                   Reported(run, decode)[k].key != requirements[i].key
  {
    hide Document, TrimSpace, Exited;
    assert FromDocument(requirements[i].key, Reported(run, decode), results[i]);
    var j :| 0 <= j < |Reported(run, decode)| && Reported(run, decode)[j].key == requirements[i].key
             && results[i] == Converted(Reported(run, decode)[j]);
  }

  /** Truncation does not change what is collected, as long as the last marker line of the whole
      output starts in the part that is kept. */
  lemma CollectSurvivesTruncation(
      requirements: seq<Requirement>, run: Run, decode: Decoder, h: nat, t: nat, p: nat, results: seq<TestResult>)
    requires MarkerLineAt(run.stdout, p) && p + t >= |run.stdout|
    ensures Collected(requirements, run.(stdout := CappedBuffers.Shown(run.stdout, h, t)), decode, results)
            <==> Collected(requirements, run, decode, results)
  {
    hide Document, TrimSpace, Exited, MarkerLineAt, CappedBuffers.Shown;
    DocumentSurvivesTruncation(run.stdout, h, t, p);
  }
}
