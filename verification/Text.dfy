/** strings.Split and strings.Join on a one-byte separator. */
module Text {

  function Split(s: string, sep: char): (parts: seq<string>)
    ensures |parts| >= 1
  {
    if s == "" then [""]
    else
      var rest := Split(s[1..], sep);
      if s[0] == sep then [""] + rest else [[s[0]] + rest[0]] + rest[1..]
  }

  function Join(parts: seq<string>, sep: char): string {
    if parts == [] then ""
    else if |parts| == 1 then parts[0]
    else parts[0] + [sep] + Join(parts[1..], sep)
  }

  /** Splitting loses nothing. */
  lemma {:induction false} JoinUndoesSplit(s: string, sep: char)
    ensures Join(Split(s, sep), sep) == s
  {
    if s != "" {
      JoinUndoesSplit(s[1..], sep);
      var rest := Split(s[1..], sep);
      if s[0] != sep && |rest| > 1 {
        assert ([[s[0]] + rest[0]] + rest[1..])[1..] == rest[1..];
      }
    }
  }

  /** A text without the separator is one part. */
  lemma {:induction false} SplitOfOnePart(s: string, sep: char)
    requires sep !in s
    ensures Split(s, sep) == [s]
  {
    if s != "" {
      SplitOfOnePart(s[1..], sep);
      assert [s[0]] + s[1..] == s;
    }
  }

  /** Splitting at a separator splits both sides. */
  lemma {:induction false} SplitAtSeparator(a: string, sep: char, b: string)
    ensures Split(a + [sep] + b, sep) == Split(a, sep) + Split(b, sep)
  {
    var whole := a + [sep] + b;
    if a == "" {
      assert whole[1..] == b;
    } else {
      assert whole[1..] == a[1..] + [sep] + b;
      SplitAtSeparator(a[1..], sep, b);
    }
  }

  /** Joining two lists of parts. */
  lemma {:induction false} JoinOfConcatenation(a: seq<string>, b: seq<string>, sep: char)
    requires a != [] && b != []
    ensures Join(a + b, sep) == Join(a, sep) + [sep] + Join(b, sep)
  {
    if |a| == 1 {
      assert (a + b)[1..] == b;
    } else {
      JoinOfConcatenation(a[1..], b, sep);
      assert (a + b)[1..] == a[1..] + b;
    }
  }

  /** Parts without the separator come back from a joined text. */
  lemma {:induction false} SplitUndoesJoin(parts: seq<string>, sep: char)
    requires parts != [] && forall part | part in parts :: sep !in part
    ensures Split(Join(parts, sep), sep) == parts
  {
    SplitOfOnePart(parts[0], sep);
    if |parts| > 1 {
      SplitUndoesJoin(parts[1..], sep);
      SplitAtSeparator(parts[0], sep, Join(parts[1..], sep));
      assert parts == [parts[0]] + parts[1..];
    }
  }

  predicate Doubled(s: string, sep: char) {
    exists i | 0 <= i < |s| - 1 :: s[i] == sep && s[i + 1] == sep
  }

  /** A part is empty exactly where a separator has nothing beside it. */
  lemma {:induction false} EmptyParts(s: string, sep: char)
    ensures "" in Split(s, sep) <==>
            s == "" || s[0] == sep || s[|s| - 1] == sep || Doubled(s, sep)
    ensures s != "" && s[0] != sep ==> Split(s, sep)[0] != ""
  {
    if s != "" {
      var tail := s[1..];
      EmptyParts(tail, sep);
      var rest := Split(tail, sep);
      forall i | 0 <= i < |tail| - 1 && tail[i] == sep && tail[i + 1] == sep
        ensures Doubled(s, sep)
      {
        assert s[i + 1] == sep && s[i + 2] == sep;
      }
      if Doubled(s, sep) && tail != "" && tail[0] != sep {
        var i :| 0 <= i < |s| - 1 && s[i] == sep && s[i + 1] == sep;
        assert tail[i - 1] == sep && tail[i] == sep;
      }
      if s[0] != sep {
        assert rest == [rest[0]] + rest[1..];
        if tail != "" && tail[0] == sep {
          var rest' := Split(tail[1..], sep);
          assert rest == [""] + rest';
          EmptyParts(tail[1..], sep);
          assert s[1] == sep;
          if |tail| > 1 && tail[1] == sep {
            assert s[2] == sep;
          }
        }
      }
    }
  }

  /** The parts hold the characters of the text, but for the separators. */
  lemma {:induction false} CharsOfParts(s: string, sep: char, c: char)
    ensures (exists part | part in Split(s, sep) :: c in part) <==> c in s && c != sep
  {
    if s != "" {
      CharsOfParts(s[1..], sep, c);
      var rest := Split(s[1..], sep);
      assert s == [s[0]] + s[1..] && rest == [rest[0]] + rest[1..];
      if s[0] == sep {
        assert forall part :: part in Split(s, sep) <==> part == "" || part in rest;
      } else {
        var first := [s[0]] + rest[0];
        assert forall part :: part in Split(s, sep) <==> part == first || part in rest[1..];
        assert c in first <==> c == s[0] || c in rest[0];
        assert first in Split(s, sep) && rest[0] in rest;
      }
    }
  }
}
