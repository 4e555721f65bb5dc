/** parse.go: finding the result document in a tester's output, and reading it. */
module ResultDocument {
  import opened Prelude
  import opened Text
  import opened CappedBuffers
  import Decimals

  const MARKER := "##DEVDUEL_RESULTS##"

  /** strings.TrimSpace's set, over ASCII. */
  predicate IsSpace(c: char) {
    c == '\t' || c == '\n' || c == 11 as char || c == 12 as char || c == '\r' || c == ' '
  }

  function TrimLeft(s: string): string {
    if s != "" && IsSpace(s[0]) then TrimLeft(s[1..]) else s
  }

  function TrimRight(s: string): string {
    if s != "" && IsSpace(s[|s| - 1]) then TrimRight(s[..|s| - 1]) else s
  }

  function TrimSpace(s: string): string {
    TrimRight(TrimLeft(s))
  }

  predicate Blanks(s: string) {
    forall c | c in s :: c in {'\t', '\n', 11 as char, 12 as char, '\r', ' '}
  }

  lemma {:induction false} LeftTrimmed(s: string) returns (a: string)
    ensures s == a + TrimLeft(s) && Blanks(a)
    ensures TrimLeft(s) != "" ==> !Blanks(TrimLeft(s)[..1])
  {
    if s != "" && IsSpace(s[0]) {
      a := LeftTrimmed(s[1..]);
      a := [s[0]] + a;
    } else {
      a := "";
      assert s != "" ==> s[0] in s[..1];
    }
  }

  lemma {:induction false} RightTrimmed(s: string) returns (b: string)
    ensures s == TrimRight(s) + b && Blanks(b)
    ensures TrimRight(s) != "" ==> !Blanks(TrimRight(s)[|TrimRight(s)| - 1..])
  {
    var n := |s| - 1;
    if s != "" && IsSpace(s[n]) {
      b := RightTrimmed(s[..n]);
      b := b + [s[n]];
      assert s == s[..n] + [s[n]];
    } else {
      b := "";
      assert s != "" ==> s[n] in s[n..];
    }
  }

  /** What is trimmed is white space, all there is at either end. */
  lemma TrimmedIsSpace(s: string) returns (a: string, b: string)
    ensures s == a + TrimSpace(s) + b && Blanks(a) && Blanks(b)
    ensures TrimSpace(s) != "" ==> !Blanks(TrimSpace(s)[..1]) && !Blanks(TrimSpace(s)[|TrimSpace(s)| - 1..])
  {
    hide TrimLeft, TrimRight, Blanks;
    a := LeftTrimmed(s);
    b := RightTrimmed(TrimLeft(s));
    assert TrimSpace(s) != "" ==> TrimSpace(s)[..1] == TrimLeft(s)[..1];
  }

  predicate IsMarker(line: string) {
    TrimSpace(line) == MARKER
  }

  predicate HasMarker(lines: seq<string>) {
    exists i | 0 <= i < |lines| :: IsMarker(lines[i])
  }

  /** The lines after the last marker line. */
  function LinesAfterMarker(lines: seq<string>): seq<string>
    requires HasMarker(lines)
  {
    if IsMarker(lines[|lines| - 1]) then [] else LinesAfterMarker(lines[..|lines| - 1]) + [lines[|lines| - 1]]
  }

  function DocumentOf(lines: seq<string>): Option<string> {
    if HasMarker(lines) then Some(Join(LinesAfterMarker(lines), '\n')) else None
  }

  function Document(stdout: string): Option<string> {
    DocumentOf(Split(stdout, '\n'))
  }

  /** documentAfterMarker: from the last line backwards. */
  method DocumentAfterMarker(stdout: string) returns (doc: Option<string>)
    ensures doc == Document(stdout)
  {
    var lines := Split(stdout, '\n');
    var i := |lines| - 1;
    while i >= 0
      invariant -1 <= i < |lines|
      invariant forall k | i < k < |lines| :: !IsMarker(lines[k])
    {
      if IsMarker(lines[i]) {
        LastMarkerSplits(lines, i);
        return Some(Join(lines[i + 1..], '\n'));
      }
      i := i - 1;
    }
    doc := None;
  }

  lemma {:induction false} LastMarkerSplits(lines: seq<string>, i: nat)
    requires i < |lines| && IsMarker(lines[i])
    requires forall k | i < k < |lines| :: !IsMarker(lines[k])
    ensures HasMarker(lines) && LinesAfterMarker(lines) == lines[i + 1..]
    decreases |lines|
  {
    if i < |lines| - 1 {
      var front := lines[..|lines| - 1];
      assert front[i] == lines[i];
      LastMarkerSplits(front, i);
      assert lines[i + 1..] == front[i + 1..] + [lines[|lines| - 1]];
    }
  }

  // What the document of two stretches of lines is.

  lemma HasMarkerOfTwo(a: seq<string>, b: seq<string>)
    ensures HasMarker(a + b) <==> HasMarker(a) || HasMarker(b)
  {
    var both := a + b;
    forall i | 0 <= i < |a| && IsMarker(a[i]) ensures HasMarker(both) { assert both[i] == a[i]; }
    forall i | 0 <= i < |b| && IsMarker(b[i]) ensures HasMarker(both) { assert both[|a| + i] == b[i]; }
    if HasMarker(both) {
      var k :| 0 <= k < |both| && IsMarker(both[k]);
      assert if k < |a| then both[k] == a[k] else both[k] == b[k - |a|];
    }
  }

  lemma {:induction false} MarkersOfTwo(a: seq<string>, b: seq<string>)
    ensures HasMarker(a + b) <==> HasMarker(a) || HasMarker(b)
    ensures HasMarker(b) ==> LinesAfterMarker(a + b) == LinesAfterMarker(b)
    ensures HasMarker(a) && !HasMarker(b) ==> LinesAfterMarker(a + b) == LinesAfterMarker(a) + b
    decreases |b|
  {
    var both := a + b;
    HasMarkerOfTwo(a, b);
    if b == [] {
      assert both == a;
    } else {
      var b', last := b[..|b| - 1], b[|b| - 1];
      assert both[..|both| - 1] == a + b';
      assert b == b' + [last];
      MarkersOfTwo(a, b');
      HasMarkerOfTwo(b', [last]);
      assert HasMarker([last]) <==> IsMarker(last) by {
        assert IsMarker(last) ==> IsMarker([last][0]);
      }
      hide HasMarker, IsMarker;
    }
  }

  /** What follows a marker in a is followed by all of b. */
  function Continued(after: seq<string>, b: string): string {
    if after == [] then b else Join(after, '\n') + "\n" + b
  }

  /** The document of two texts on consecutive lines. */
  lemma DocumentOfTwo(a: string, b: string)
    ensures Document(a + "\n" + b) ==
            if Document(b).Some? then Document(b)
            else if Document(a).Some? then Some(Continued(LinesAfterMarker(Split(a, '\n')), b))
            else None
  {
    var la, lb := Split(a, '\n'), Split(b, '\n');
    SplitAtSeparator(a, '\n', b);
    MarkersOfTwo(la, lb);
    if HasMarker(la) && !HasMarker(lb) {
      JoinUndoesSplit(b, '\n');
      var after := LinesAfterMarker(la);
      if after == [] {
        assert after + lb == lb;
      } else {
        JoinOfConcatenation(after, lb, '\n');
      }
    }
  }

  // Marker lines by position.

  predicate LineStart(s: string, p: nat) {
    p <= |s| && (p == 0 || s[p - 1] == '\n')
  }

  /** The line that starts at p. */
  function LineAt(s: string, p: nat): string
    requires p <= |s|
    decreases |s| - p
  {
    if p == |s| || s[p] == '\n' then "" else [s[p]] + LineAt(s, p + 1)
  }

  predicate MarkerLineAt(s: string, p: nat) {
    LineStart(s, p) && IsMarker(LineAt(s, p))
  }

  lemma {:induction false} FirstLine(s: string, p: nat)
    requires p <= |s|
    ensures Split(s[p..], '\n')[0] == LineAt(s, p)
    decreases |s| - p
  {
    if p < |s| {
      FirstLine(s, p + 1);
      assert s[p..][1..] == s[p + 1..];
    }
  }

  /** From a marker line on, what comes before does not matter. */
  lemma DocumentFromMarkerLine(s: string, p: nat)
    requires MarkerLineAt(s, p)
    ensures Document(s) == Document(s[p..]) && Document(s).Some?
  {
    FirstLine(s, p);
    assert HasMarker(Split(s[p..], '\n'));
    if p == 0 {
      assert s[p..] == s;
    } else {
      DocumentOfTwo(s[..p - 1], s[p..]);
      assert s == s[..p - 1] + "\n" + s[p..];
    }
  }

  /** A line that ends inside a text is the same line in what follows it. */
  lemma {:induction false} LineAtSuffix(s: string, c: nat, p: nat)
    requires c <= p <= |s|
    ensures LineAt(s[c..], p - c) == LineAt(s, p)
    decreases |s| - p
  {
    if p < |s| {
      LineAtSuffix(s, c, p + 1);
    }
  }

  lemma {:induction false} LineEnds(s: string, p: nat)
    requires p <= |s|
    ensures
      var e := p + |LineAt(s, p)|;
      && e <= |s| && LineAt(s, p) == s[p..e] && '\n' !in LineAt(s, p)
      && (e < |s| ==> s[e] == '\n')
    decreases |s| - p
  {
    if p < |s| && s[p] != '\n' {
      LineEnds(s, p + 1);
      assert s[p..p + |LineAt(s, p)|] == [s[p]] + s[p + 1..p + |LineAt(s, p)|];
    }
  }

  /** Where a marker line is, if some line is one. */
  lemma {:induction false} MarkerHasAPlace(s: string) returns (p: nat)
    requires Document(s).Some?
    ensures MarkerLineAt(s, p)
    decreases |s|
  {
    hide IsMarker, LinesAfterMarker, Join;
    FirstLine(s, 0);
    LineEnds(s, 0);
    assert s[0..] == s;
    var e := |LineAt(s, 0)|;
    if IsMarker(LineAt(s, 0)) {
      p := 0;
    } else if e == |s| {
      SplitOfOnePart(s, '\n');
      assert false;
    } else {
      var rest := s[e + 1..];
      assert s == s[..e] + "\n" + rest;
      SplitAtSeparator(s[..e], '\n', rest);
      SplitOfOnePart(s[..e], '\n');
      MarkersOfTwo([s[..e]], Split(rest, '\n'));
      var q := MarkerHasAPlace(rest);
      LineAtSuffix(s, e + 1, e + 1 + q);
      p := e + 1 + q;
    }
  }

  /** A marker line is the marker with nothing but white space around it. */
  lemma MarkerLineMeans(line: string)
    ensures IsMarker(line) <==>
              exists a, b | Blanks(a) && Blanks(b) :: line == a + "##DEVDUEL_RESULTS##" + b
  {
    var a, b := TrimmedIsSpace(line);
    if a', b' :| Blanks(a') && Blanks(b') && line == a' + MARKER + b' {
      SpaceGoes(a', MARKER, b');
    }
  }

  /** There is a document exactly when some line is a marker line. */
  lemma DocumentNeedsAMarkerLine(s: string)
    ensures Document(s).Some? <==> exists p :: 0 <= p <= |s| && MarkerLineAt(s, p)
  {
    hide Document, IsMarker;
    if Document(s).Some? {
      var p := MarkerHasAPlace(s);
    }
    if p :| 0 <= p <= |s| && MarkerLineAt(s, p) {
      DocumentFromMarkerLine(s, p);
    }
  }

  lemma MarkerFurtherOn(s: string, c: nat) returns (p: nat)
    requires LineStart(s, c) && Document(s[c..]).Some?
    ensures p >= c && MarkerLineAt(s, p)
  {
    hide Document, IsMarker;
    var q := MarkerHasAPlace(s[c..]);
    p := c + q;
    LineAtSuffix(s, c, p);
  }

  /** The document is what follows the last marker line. */
  lemma DocumentFollowsLastMarker(s: string, p: nat)
    requires MarkerLineAt(s, p) && forall q | p < q <= |s| :: !MarkerLineAt(s, q)
    ensures
      var e := p + |LineAt(s, p)|;
      Document(s) == Some(if e < |s| then s[e + 1..] else "")
  {
    var line := LineAt(s, p);
    var e := p + |line|;
    DocumentFromMarkerLine(s, p);
    LineEnds(s, p);
    SplitOfOnePart(line, '\n');
    assert IsMarker(Split(line, '\n')[0]);
    if e == |s| {
      assert s[p..] == line;
    } else {
      var rest := s[e + 1..];
      assert s[p..] == line + "\n" + rest;
      DocumentOfTwo(line, rest);
      if Document(rest).Some? {
        var q := MarkerFurtherOn(s, e + 1);
        assert false;
      }
    }
  }

  // The document survives truncation.

  function NoticeLine(n: nat): string {
    "... " + Decimals.Print(n) + " bytes elided ..."
  }

  lemma ShownByLines(stream: string, h: nat, t: nat)
    requires |stream| > h + t
    ensures Shown(stream, h, t)
            == stream[..h] + "\n" + (NoticeLine(|stream| - h - t) + "\n" + stream[|stream| - t..])
  {}

  lemma {:induction false} TrimsNothing(s: string)
    requires s != "" && !IsSpace(s[0]) && !IsSpace(s[|s| - 1])
    ensures TrimSpace(s) == s
  {}

  lemma SpaceGoes(a: string, s: string, b: string)
    requires Blanks(a) && Blanks(b) && s != "" && !IsSpace(s[0]) && !IsSpace(s[|s| - 1])
    ensures TrimSpace(a + s + b) == s
  {
    LeftGoes(a, s + b);
    assert a + s + b == a + (s + b);
    RightGoes(s, b);
  }

  lemma {:induction false} LeftGoes(a: string, s: string)
    requires Blanks(a) && s != "" && !IsSpace(s[0])
    ensures TrimLeft(a + s) == s
  {
    if a == "" {
      assert a + s == s;
    } else {
      assert (a + s)[1..] == a[1..] + s && a[0] in a;
      assert forall c | c in a[1..] :: c in a;
      LeftGoes(a[1..], s);
    }
  }

  lemma {:induction false} RightGoes(s: string, b: string)
    requires Blanks(b) && s != "" && !IsSpace(s[|s| - 1])
    ensures TrimRight(s + b) == s
  {
    if b == "" {
      assert s + b == s;
    } else {
      var n := |b| - 1;
      assert (s + b)[..|s| + n] == s + b[..n] && b[n] in b;
      assert forall c | c in b[..n] :: c in b;
      RightGoes(s, b[..n]);
    }
  }

  lemma NoticeIsNoMarker(n: nat)
    ensures Split(NoticeLine(n), '\n') == [NoticeLine(n)] && Document(NoticeLine(n)) == None
  {
    var line := NoticeLine(n);
    assert '\n' !in line by {
      assert Decimals.AllDigits(Decimals.Print(n));
    }
    SplitOfOnePart(line, '\n');
    TrimsNothing(line);
    assert line[0] == '.' && MARKER[0] == '#';
  }

  /** If the last marker line of the whole stream starts within its last tailLimit bytes, the document
      read from the shown text is the document of the whole stream, wherever the cut falls. */
  lemma DocumentSurvivesTruncation(stream: string, h: nat, t: nat, p: nat)
    requires MarkerLineAt(stream, p) && p + t >= |stream|
    ensures Document(Shown(stream, h, t)) == Document(stream)
  {
    hide Document, IsMarker, NoticeLine, Notice;
    if |stream| > h + t {
      var c := |stream| - t;
      DocumentFromMarkerLine(stream, p);
      LineAtSuffix(stream, c, p);
      DocumentFromMarkerLine(stream[c..], p - c);
      assert stream[c..][p - c..] == stream[p..];
      DocumentOfTruncated(stream, h, t);
    }
  }

  /** What is read from a truncated stream in every case: the tail decides, and only a tail without a
      marker lets the head speak, with the notice and the tail as part of its document. */
  lemma DocumentOfTruncated(stream: string, h: nat, t: nat)
    requires |stream| > h + t
    ensures
      var head, tail := stream[..h], stream[|stream| - t..];
      Document(Shown(stream, h, t)) ==
        if Document(tail).Some? then Document(tail)
        else if Document(head).Some?
        then Some(Continued(LinesAfterMarker(Split(head, '\n')), NoticeLine(|stream| - h - t) + "\n" + tail))
        else None
  {
    hide Document, NoticeLine, LinesAfterMarker, Continued;
    var head, tail := stream[..h], stream[|stream| - t..];
    var notice := NoticeLine(|stream| - h - t);
    ShownByLines(stream, h, t);
    NoticeIsNoMarker(|stream| - h - t);
    hide Shown;
    DocumentOfTwo(notice, tail);
    DocumentOfTwo(head, notice + "\n" + tail);
  }

  // The two lines a cut can make.

  /** The line a text ends in. */
  function LastLine(s: string): string {
    if s == "" || s[|s| - 1] == '\n' then "" else LastLine(s[..|s| - 1]) + [s[|s| - 1]]
  }

  lemma LastLineUnfolds(s: string)
    requires s != ""
    ensures
      var n := |s| - 1;
      LastLine(s) == if s[n] == '\n' then "" else LastLine(s[..n]) + [s[n]]
  {}

  lemma TakeOneMore(s: string, k: nat)
    requires k < |s|
    ensures s[..|s| - 1][k..] + [s[|s| - 1]] == s[k..]
  {}

  lemma {:induction false} LastLineEnds(s: string)
    ensures
      var k := |s| - |LastLine(s)|;
      && k >= 0 && LastLine(s) == s[k..] && '\n' !in LastLine(s)
      && (k > 0 ==> s[k - 1] == '\n')
  {
    if s == "" {
      assert LastLine(s) == "";
    } else {
      LastLineUnfolds(s);
      LastLineEnds(s[..|s| - 1]);
      hide LastLine;
      var k := |s| - |LastLine(s)|;
      if k < |s| {
        TakeOneMore(s, k);
      }
    }
  }

  /** One line has a document exactly when it is a marker line. */
  lemma DocumentOfOneLine(line: string)
    requires '\n' !in line
    ensures Document(line).Some? <==> IsMarker(line)
  {
    hide IsMarker;
    SplitOfOnePart(line, '\n');
    assert Split(line, '\n')[0] == line;
  }

  /** What follows a line break in a stream without a document has none either, nor has what precedes. */
  lemma PartsAreSilent(stream: string, before: string, rest: string)
    requires stream == before + "\n" + rest && Document(stream) == None
    ensures Document(before) == None && Document(rest) == None
  {
    hide Document;
    DocumentOfTwo(before, rest);
  }

  lemma CutAt(s: string, c: nat, line: string)
    requires c + |line| < |s| && s[c..c + |line|] == line && s[c + |line|] == '\n'
    ensures
      var e := c + |line|;
      s[c..] == line + "\n" + s[e + 1..] && s == s[..e] + "\n" + s[e + 1..]
  {}

  /** In a stream without a marker line, what starts at c has one exactly when the line it starts with
      reads as one. */
  lemma TailSpeaks(stream: string, c: nat)
    requires c <= |stream| && Document(stream) == None
    ensures Document(stream[c..]).Some? <==> IsMarker(LineAt(stream, c))
  {
    var line := LineAt(stream, c);
    var e := c + |line|;
    LineEnds(stream, c);
    hide Document, IsMarker, LineAt;
    DocumentOfOneLine(line);
    if e == |stream| {
      assert stream[c..] == line;
    } else {
      CutAt(stream, c, line);
      PartsAreSilent(stream, stream[..e], stream[e + 1..]);
      DocumentOfTwo(line, stream[e + 1..]);
    }
  }

  /** And what ends before h has one exactly when the line it ends in reads as one. */
  lemma HeadSpeaks(stream: string, h: nat)
    requires h <= |stream| && Document(stream) == None
    ensures Document(stream[..h]).Some? <==> IsMarker(LastLine(stream[..h]))
  {
    var head := stream[..h];
    var line := LastLine(head);
    var k := |head| - |line|;
    LastLineEnds(head);
    hide Document, IsMarker, LastLine;
    DocumentOfOneLine(line);
    if k == 0 {
      assert head == line;
    } else {
      LastCut(stream, h, k);
      PartsAreSilent(stream, stream[..k - 1], stream[k..]);
      DocumentOfTwo(stream[..k - 1], line);
    }
  }

  lemma LastCut(s: string, h: nat, k: nat)
    requires 0 < k <= h <= |s| && s[k - 1] == '\n'
    ensures s == s[..k - 1] + "\n" + s[k..]
    ensures s[..h] == s[..k - 1] + "\n" + s[..h][k..]
  {}

  /** A stream that reports nothing is read as reporting nothing exactly when neither of the two lines
      the cut leaves reads as a marker line: the one the head ends in and the one the tail starts with. */
  lemma SilenceSurvivesTruncation(stream: string, h: nat, t: nat)
    requires |stream| > h + t && Document(stream) == None
    ensures Document(Shown(stream, h, t)) == Document(stream) <==>
            !IsMarker(LastLine(stream[..h])) && !IsMarker(LineAt(stream, |stream| - t))
  {
    hide Document, IsMarker, LastLine, LineAt, Shown, NoticeLine, Continued, LinesAfterMarker;
    DocumentOfTruncated(stream, h, t);
    TailSpeaks(stream, |stream| - t);
    HeadSpeaks(stream, h);
  }

  /** A long line that merely ends in the marker's text, with filler after it to fill the tail. */
  function Forgery(h: nat, t: nat): string
    requires t >= |MARKER|
  {
    seq(h + 1, _ => 'x') + MARKER + if t == |MARKER| then "" else "\n" + seq(t - |MARKER| - 1, _ => 'y')
  }

  /** The cut can make a marker whatever the sizes of the two ends: the beginning of a line is elided
      and its end reads as one. */
  lemma CutCanForgeAMarker(h: nat, t: nat)
    requires t >= |MARKER|
    ensures Document(Forgery(h, t)) == None && Document(Shown(Forgery(h, t), h, t)).Some?
  {
    hide Document, IsMarker, LineAt;
    var stream := Forgery(h, t);
    ForgeryIsSilent(h, t);
    ForgeryHidesTheMarker(h, t);
    hide Forgery;
    TailSpeaks(stream, h + 1);
    DocumentOfTruncated(stream, h, t);
  }

  lemma ForgeryIsSilent(h: nat, t: nat)
    requires t >= |MARKER|
    ensures Document(Forgery(h, t)) == None
  {
    hide Document;
    var line: string := seq(h + 1, _ => 'x') + MARKER;
    assert line[0] == 'x';
    OneLine(line);
    assert line != MARKER by {
      assert |line| > |MARKER|;
    }
    if t == |MARKER| {
      assert Forgery(h, t) == line;
    } else {
      var filler: string := seq(t - |MARKER| - 1, _ => 'y');
      assert Forgery(h, t) == line + "\n" + filler;
      FillerIsSilent(filler);
      DocumentOfTwo(line, filler);
    }
  }

  lemma ForgeryHidesTheMarker(h: nat, t: nat)
    requires t >= |MARKER|
    ensures |Forgery(h, t)| == h + 1 + t && IsMarker(LineAt(Forgery(h, t), h + 1))
  {
    hide IsMarker, LineAt;
    var stream := Forgery(h, t);
    assert |stream| == h + 1 + t;
    assert stream[h + 1..h + 1 + |MARKER|] == MARKER;
    MarkerAt(stream, h + 1);
  }

  lemma FillerIsSilent(filler: string)
    requires forall c | c in filler :: c == 'y'
    ensures Document(filler) == None
  {
    if filler != "" {
      assert filler[0] in filler && filler[|filler| - 1] in filler;
      OneLine(filler);
      assert MARKER[0] != 'y';
    } else {
      DocumentOfOneLine("");
    }
  }

  /** The marker's text up to a line break or the end is a line that reads as the marker. */
  lemma MarkerAt(s: string, p: nat)
    requires p + |MARKER| <= |s| && s[p..p + |MARKER|] == MARKER
    requires p + |MARKER| < |s| ==> s[p + |MARKER|] == '\n'
    ensures IsMarker(LineAt(s, p))
  {
    LineTo(s, p, p + |MARKER|);
    assert LineAt(s, p) == MARKER;
    TrimsNothing(MARKER);
  }

  lemma {:induction false} LineTo(s: string, p: nat, e: nat)
    requires p <= e <= |s| && '\n' !in s[p..e] && (e < |s| ==> s[e] == '\n')
    ensures LineAt(s, p) == s[p..e]
    decreases e - p
  {
    if p < e {
      assert s[p] == s[p..e][0];
      assert s[p..e] == [s[p]] + s[p + 1..e];
      LineTo(s, p + 1, e);
    }
  }

  /** A text of one line without surrounding space has a document exactly when it is the marker. */
  lemma OneLine(line: string)
    requires line != "" && '\n' !in line && !IsSpace(line[0]) && !IsSpace(line[|line| - 1])
    ensures Document(line) == if line == MARKER then Some("") else None
  {
    SplitOfOnePart(line, '\n');
    TrimsNothing(line);
    assert Split(line, '\n')[0] == line;
  }
}
