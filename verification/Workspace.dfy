/** workspace.go: reading a challenge's starting files. */
module Workspaces {
  import opened Prelude
  import opened Rows
  import opened Sorting
  import Paths
  import opened Soundness
  import opened Transitions
  import Weights

  datatype File = File(path: Path, content: Content)

  datatype EntryKind = Directory | Regular | Symlink | Other

  /** What the walk meets, with the path already relative and the content as it would be read. */
  datatype Entry = Entry(path: Path, kind: EntryKind, content: Content)

  datatype LoadError =
    | NotRegular(at: nat) | BadPath(at: nat) | TooLarge(at: nat) | TooMuch(at: nat) | TooMany(at: nat) | Empty

  function Size(files: seq<File>): nat {
    if files == [] then 0 else Size(files[..|files| - 1]) + |files[|files| - 1].content|
  }

  lemma SizeOneMore(files: seq<File>, f: File)
    ensures Size(files + [f]) == Size(files) + |f.content|
  {
    assert (files + [f])[..|files|] == files;
  }

  /** The regular files of a walk. */
  function FilesOf(entries: seq<Entry>): seq<File> {
    if entries == [] then []
    else
      var last := entries[|entries| - 1];
      FilesOf(entries[..|entries| - 1]) + if last.kind.Directory? then [] else [File(last.path, last.content)]
  }

  lemma FilesOneMore(entries: seq<Entry>, i: nat)
    requires i < |entries|
    ensures
      var e := entries[i];
      FilesOf(entries[..i + 1]) == FilesOf(entries[..i]) + if e.kind.Directory? then [] else [File(e.path, e.content)]
  {
    assert entries[..i + 1][..i] == entries[..i];
  }

  /** The places in the walk where something other than a directory is. */
  function FilePlaces(entries: seq<Entry>): set<nat> {
    set i: nat | i < |entries| && !entries[i].kind.Directory?
  }

  /** The files are what the walk met that is no directory, one for each and nothing else. */
  lemma {:induction false} FilesAreTheEntries(entries: seq<Entry>)
    ensures |FilesOf(entries)| == |FilePlaces(entries)|
    ensures forall f :: f in FilesOf(entries) <==>
              exists e :: e in entries && !e.kind.Directory? && f == File(e.path, e.content)
  {
    if entries == [] {
      assert FilePlaces(entries) == {};
    } else {
      var n := |entries| - 1;
      FilesAreTheEntries(entries[..n]);
      PlacesOneMore(entries);
      hide FilePlaces;
      assert entries == entries[..n] + [entries[n]];
    }
  }

  lemma PlacesOneMore(entries: seq<Entry>)
    requires entries != []
    ensures
      var n := |entries| - 1;
      |FilePlaces(entries)| == |FilePlaces(entries[..n])| + if entries[n].kind.Directory? then 0 else 1
  {
    var n := |entries| - 1;
    assert FilePlaces(entries) == FilePlaces(entries[..n]) + if entries[n].kind.Directory? then {} else {n};
  }

  predicate EntryOk(e: Entry) {
    e.kind.Directory? || (e.kind.Regular? && Paths.Valid(e.path) && |e.content| <= MAX_FILE_BYTES)
  }

  predicate WithinLimits(files: seq<File>) {
    |files| <= MAX_CHALLENGE_FILES && Size(files) <= MAX_CHALLENGE_BYTES
  }

  // Path order: bytes, as strings.Compare.

  predicate PathLeq(a: Path, b: Path) {
    a == "" || (b != "" && (a[0] < b[0] || (a[0] == b[0] && PathLeq(a[1..], b[1..]))))
  }

  /** Where two paths first differ, or one of them ends, decides. */
  lemma {:induction false} PathOrderIsLexicographic(a: Path, b: Path)
    ensures PathLeq(a, b) <==> a <= b || exists k | 0 <= k < |a| && k < |b| :: a[..k] == b[..k] && a[k] < b[k]
  {
    if a != "" && b != "" {
      var a', b' := a[1..], b[1..];
      PathOrderIsLexicographic(a', b');
      assert a == [a[0]] + a' && b == [b[0]] + b';
      if a[0] == b[0] {
        if k :| 0 <= k < |a'| && k < |b'| && a'[..k] == b'[..k] && a'[k] < b'[k] {
          assert a[..k + 1] == [a[0]] + a'[..k] && b[..k + 1] == [b[0]] + b'[..k] && a[k + 1] < b[k + 1];
        }
        if k :| 0 <= k < |a| && k < |b| && a[..k] == b[..k] && a[k] < b[k] {
          assert k > 0;
          assert a'[..k - 1] == a[..k][1..] && b'[..k - 1] == b[..k][1..] && a'[k - 1] < b'[k - 1];
        }
      } else if a[0] < b[0] {
        assert a[..0] == b[..0];
      } else {
        assert forall k | 0 < k <= |a| && k <= |b| :: a[..k][0] != b[..k][0];
      }
    }
  }

  predicate ByPath(f: File, g: File) {
    PathLeq(f.path, g.path)
  }

  lemma {:induction false} PathsAreComparable(a: Path, b: Path)
    ensures PathLeq(a, b) || PathLeq(b, a)
    ensures PathLeq(a, b) && PathLeq(b, a) ==> a == b
  {
    if a != "" && b != "" {
      PathsAreComparable(a[1..], b[1..]);
      assert a == [a[0]] + a[1..] && b == [b[0]] + b[1..];
    }
  }

  lemma {:induction false} PathsAreTransitive(a: Path, b: Path, c: Path)
    requires PathLeq(a, b) && PathLeq(b, c)
    ensures PathLeq(a, c)
  {
    if a != "" && a[0] == b[0] && b[0] == c[0] {
      PathsAreTransitive(a[1..], b[1..], c[1..]);
    }
  }

  lemma PathOrderIsTotal()
    ensures TotalPreorder(ByPath)
  {
    forall f: File, g: File ensures ByPath(f, g) || ByPath(g, f) {
      PathsAreComparable(f.path, g.path);
    }
    forall f: File, g: File, h: File | ByPath(f, g) && ByPath(g, h) ensures ByPath(f, h) {
      PathsAreTransitive(f.path, g.path, h.path);
    }
  }

  // Loading.

  ghost predicate Loadable(entries: seq<Entry>) {
    && (forall i | 0 <= i < |entries| :: EntryOk(entries[i]))
    && FilesOf(entries) != [] && WithinLimits(FilesOf(entries))
  }

  /** What an error says of the entry it names. */
  ghost predicate Offends(entries: seq<Entry>, error: LoadError) {
    if error.Empty? then FilesOf(entries) == []
    else
      && error.at < |entries|
      && var e, found := entries[error.at], FilesOf(entries[..error.at + 1]);
         match error
         case NotRegular(_) => e.kind.Symlink? || e.kind.Other?
         case BadPath(_) => e.kind.Regular? && !Paths.Valid(e.path)
         case TooLarge(_) => e.kind.Regular? && |e.content| > MAX_FILE_BYTES
         case TooMuch(_) => Size(found) > MAX_CHALLENGE_BYTES
         case TooMany(_) => |found| > MAX_CHALLENGE_FILES
  }

  /** The entries before this one are in order. */
  ghost predicate FineBefore(entries: seq<Entry>, error: LoadError) {
    var n := if error.Empty? then |entries| else if error.at <= |entries| then error.at else |entries|;
    (forall j | 0 <= j < n :: EntryOk(entries[j])) && WithinLimits(FilesOf(entries[..n]))
  }

  /** The limits are checked as the files come, so nothing after the first offence is read; what is
      loaded is every file, in path order. */
  method LoadWorkspace(entries: seq<Entry>) returns (r: Result<seq<File>, LoadError>)
    ensures r.Ok? <==>
              && (forall e | e in entries ::
                    e.kind.Directory? || (e.kind.Regular? && Paths.Valid(e.path) && |e.content| <= 1_048_576))
              && FilesOf(entries) != [] && |FilesOf(entries)| <= 200 && Size(FilesOf(entries)) <= 5_242_880
    ensures r.Ok? <==> Loadable(entries)
    ensures r.Err? ==> Offends(entries, r.error) && FineBefore(entries, r.error)
    ensures r.Ok? ==> SortedBy(r.value, ByPath) && multiset(r.value) == multiset(FilesOf(entries))
  {
    hide Paths.Valid, PathLeq, FilesOf, Size, ByPath;
    var files: seq<File> := [];
    var total := 0;
    NoEntries();
    for i := 0 to |entries|
      invariant forall j | 0 <= j < i :: EntryOk(entries[j])
      invariant files == FilesOf(entries[..i]) && total == Size(files)
      invariant WithinLimits(files)
    {
      var e := entries[i];
      FilesOneMore(entries, i);
      MoreFilesWeighMore(entries, i + 1);
      if !e.kind.Directory? {
        if !e.kind.Regular? {
          return Err(NotRegular(i));
        }
        if !Paths.Valid(e.path) {
          return Err(BadPath(i));
        }
        if |e.content| > MAX_FILE_BYTES {
          return Err(TooLarge(i));
        }
        var file := File(e.path, e.content);
        SizeOneMore(files, file);
        total := total + |e.content|;
        if total > MAX_CHALLENGE_BYTES {
          return Err(TooMuch(i));
        }
        if |files| == MAX_CHALLENGE_FILES {
          return Err(TooMany(i));
        }
        files := files + [file];
      }
    }
    assert entries[..|entries|] == entries;
    if |files| == 0 {
      return Err(Empty);
    }
    PathOrderIsTotal();
    var sorted := Sort(files, ByPath);
    r := Ok(sorted);
  }

  lemma NoEntries()
    ensures FilesOf([]) == [] && Size([]) == 0
  {}

  lemma {:induction false} MoreFilesWeighMore(entries: seq<Entry>, n: nat)
    requires n <= |entries|
    ensures |FilesOf(entries[..n])| <= |FilesOf(entries)| && Size(FilesOf(entries[..n])) <= Size(FilesOf(entries))
    decreases |entries|
  {
    if n == |entries| {
      assert entries[..n] == entries;
    } else {
      var last := |entries| - 1;
      assert entries[..last + 1] == entries;
      MoreFilesWeighMore(entries[..last], n);
      assert entries[..last][..n] == entries[..n];
      FilesOneMore(entries, last);
      SizeOneMore(FilesOf(entries[..last]), File(entries[last].path, entries[last].content));
      hide FilesOf, Size;
      assert entries[last].kind.Directory? ==> FilesOf(entries) == FilesOf(entries[..last]);
    }
  }

  // What loading twice gives.

  predicate DistinctPaths(files: seq<File>) {
    forall i, j | 0 <= i < j < |files| :: files[i].path != files[j].path
  }

  lemma FirstIsLeast(a: seq<File>, f: File)
    requires SortedBy(a, ByPath) && f in a
    ensures PathLeq(a[0].path, f.path)
  {
    hide PathLeq;
    var i :| 0 <= i < |a| && a[i] == f;
    PathsAreComparable(f.path, f.path);
    assert i > 0 ==> ByPath(a[0], a[i]);
  }

  lemma TailsMatch(a: seq<File>, b: seq<File>)
    requires a != [] && b != [] && a[0] == b[0] && multiset(a) == multiset(b)
    ensures multiset(a[1..]) == multiset(b[1..])
  {
    assert a == [a[0]] + a[1..] && b == [b[0]] + b[1..];
    assert multiset(a[1..]) == multiset(a) - multiset{a[0]};
    assert multiset(b[1..]) == multiset(b) - multiset{b[0]};
  }

  lemma {:induction false} SortedIsUnique(a: seq<File>, b: seq<File>)
    requires SortedBy(a, ByPath) && SortedBy(b, ByPath) && multiset(a) == multiset(b)
    requires forall f, g | f in a && g in a && f.path == g.path :: f == g
    ensures a == b
  {
    SameElements(a, b);
    if a != [] {
      assert a[0] in a && a[0] in b && b[0] in b && b[0] in a;
      FirstIsLeast(a, b[0]);
      FirstIsLeast(b, a[0]);
      PathsAreComparable(a[0].path, b[0].path);
      hide PathLeq;
      TailsMatch(a, b);
      SortedIsUnique(a[1..], b[1..]);
      assert a == [a[0]] + a[1..] && b == [b[0]] + b[1..];
    }
  }

  /** Two walks that meet the same files in different orders load the same list. */
  lemma OrderOfTheWalkDoesNotShow(a: seq<Entry>, b: seq<Entry>, r: seq<File>, r': seq<File>)
    requires multiset(FilesOf(a)) == multiset(FilesOf(b)) && DistinctPaths(FilesOf(a))
    requires SortedBy(r, ByPath) && multiset(r) == multiset(FilesOf(a))
    requires SortedBy(r', ByPath) && multiset(r') == multiset(FilesOf(b))
    ensures r == r'
  {
    SameElements(r, FilesOf(a));
    SortedIsUnique(r, r');
  }

  // The loaded list as a tree.

  /** `on conflict do nothing`: the first file of a path wins. */
  function Inserted(tree: Tree, files: seq<File>): Tree {
    if files == [] then tree
    else
      var before := Inserted(tree, files[..|files| - 1]);
      var f := files[|files| - 1];
      if f.path in before then before else before[f.path := f.content]
  }

  function AsTree(files: seq<File>): Tree {
    Inserted(map[], files)
  }

  function PathsIn(files: seq<File>): set<Path> {
    set i | 0 <= i < |files| :: files[i].path
  }

  lemma PathsOneMore(files: seq<File>)
    requires files != []
    ensures
      var n := |files| - 1;
      PathsIn(files) == PathsIn(files[..n]) + {files[n].path}
  {}

  lemma {:induction false} TreePaths(files: seq<File>)
    ensures AsTree(files).Keys == PathsIn(files)
  {
    if files != [] {
      PathsOneMore(files);
      hide PathsIn;
      TreePaths(files[..|files| - 1]);
    } else {
      assert PathsIn(files) == {};
    }
  }

  lemma LastIsNew(files: seq<File>)
    requires DistinctPaths(files) && files != []
    ensures
      var n := |files| - 1;
      && DistinctPaths(files[..n]) && files[n].path !in AsTree(files[..n])
      && AsTree(files) == AsTree(files[..n])[files[n].path := files[n].content]
  {
    var n := |files| - 1;
    TreePaths(files[..n]);
    assert forall i | 0 <= i < n :: files[..n][i] == files[i];
  }

  lemma PathTwice(files: seq<File>)
    requires !DistinctPaths(files)
    ensures
      var n := |files| - 1;
      !DistinctPaths(files[..n]) || files[n].path in AsTree(files[..n])
  {
    var n := |files| - 1;
    var i, j :| 0 <= i < j < |files| && files[i].path == files[j].path;
    TreePaths(files[..n]);
    hide AsTree;
    if j < n {
      assert files[..n][i].path == files[..n][j].path;
    } else {
      assert files[..n][i].path in PathsIn(files[..n]);
    }
  }

  /** A tree has as many files as the list it was made of exactly when no path occurs in it twice. */
  lemma {:induction false} RepeatsAreLost(files: seq<File>)
    ensures |AsTree(files)| <= |files|
    ensures |AsTree(files)| == |files| <==> DistinctPaths(files)
  {
    if DistinctPaths(files) {
      TreeOfDistinct(files);
    } else {
      var n := |files| - 1;
      var before, f := AsTree(files[..n]), files[n];
      PathTwice(files);
      RepeatsAreLost(files[..n]);
      hide DistinctPaths, AsTree;
      if f.path !in before {
        OneMorePath(before, f);
      }
      assert AsTree(files) == if f.path in before then before else before[f.path := f.content] by {
        LastInserted(files);
      }
    }
  }

  lemma OneMorePath(tree: Tree, f: File)
    requires f.path !in tree
    ensures |tree[f.path := f.content]| == |tree| + 1
  {
    Weights.OneMoreFile(tree, f.path, f.content);
  }

  lemma LastInserted(files: seq<File>)
    requires files != []
    ensures
      var n := |files| - 1;
      var before, f := AsTree(files[..n]), files[n];
      AsTree(files) == if f.path in before then before else before[f.path := f.content]
  {}

  lemma {:induction false} TreeOfDistinct(files: seq<File>)
    requires DistinctPaths(files)
    ensures |AsTree(files)| == |files| && Weights.Total(AsTree(files)) == Size(files)
    ensures forall i | 0 <= i < |files| ::
              files[i].path in AsTree(files) && AsTree(files)[files[i].path] == files[i].content
  {
    if files == [] {
    } else {
      var n := |files| - 1;
      LastIsNew(files);
      TreeOfDistinct(files[..n]);
      var before, f := AsTree(files[..n]), files[n];
      Weights.Replace(before, f.path, f.content);
      Weights.Without(before, f.path);
      hide AsTree, Weights.Total;
      forall i | 0 <= i < |files|
        ensures files[i].path in AsTree(files) && AsTree(files)[files[i].path] == files[i].content
      {
        assert i < n ==> files[..n][i] == files[i];
      }
    }
  }

  lemma {:induction false} DistinctAfterSorting(a: seq<File>, b: seq<File>)
    requires multiset(a) == multiset(b) && DistinctPaths(a)
    ensures DistinctPaths(b)
  {
    SameElements(a, b);
    forall i, j | 0 <= i < j < |b| ensures b[i].path != b[j].path {
      if b[i] == b[j] {
        TwiceMeansTwo(b, i, j);
        OnceEach(a, b[i]);
        assert false;
      }
      assert b[i] in a && b[j] in a;
    }
  }

  lemma TwiceMeansTwo(b: seq<File>, i: nat, j: nat)
    requires i < j < |b| && b[i] == b[j]
    ensures multiset(b)[b[i]] >= 2
  {
    assert b == b[..j] + [b[j]] + b[j + 1..];
    assert b[i] in b[..j];
  }

  lemma {:induction false} OnceEach(a: seq<File>, f: File)
    requires DistinctPaths(a)
    ensures multiset(a)[f] <= 1
  {
    if a != [] {
      var n := |a| - 1;
      OnceEach(a[..n], f);
      assert a == a[..n] + [a[n]];
      if a[n] == f {
        assert f !in a[..n];
      }
    }
  }

  lemma WithoutOne(s: seq<File>, k: nat)
    requires k < |s|
    ensures s == s[..k] + [s[k]] + s[k + 1..]
    ensures multiset(s[..k] + s[k + 1..]) == multiset(s) - multiset{s[k]}
  {
    assert s == s[..k] + [s[k]] + s[k + 1..];
  }

  lemma {:induction false} SizeOfSorted(a: seq<File>, b: seq<File>)
    requires multiset(a) == multiset(b)
    ensures Size(a) == Size(b)
  {
    SameElements(a, b);
    if a != [] {
      var n := |a| - 1;
      assert a[n] in b;
      var k :| 0 <= k < |b| && b[k] == a[n];
      WithoutOne(a, n);
      WithoutOne(b, k);
      SizeWithout(a[..n], a[n], a[n + 1..]);
      SizeWithout(b[..k], b[k], b[k + 1..]);
      hide Size;
      SizeOfSorted(a[..n] + a[n + 1..], b[..k] + b[k + 1..]);
    }
  }

  lemma {:induction false} SizeWithout(a: seq<File>, f: File, b: seq<File>)
    ensures Size(a + [f] + b) == Size(a + b) + |f.content|
  {
    if b == [] {
      assert a + [f] + b == a + [f] && a + b == a;
      assert (a + [f])[..|a|] == a;
    } else {
      var n := |b| - 1;
      SizeWithout(a, f, b[..n]);
      assert (a + [f] + b)[..|a| + 1 + n] == a + [f] + b[..n];
      assert (a + b)[..|a| + n] == a + b[..n];
    }
  }

  /** A loaded workspace is within what the match store's invariant asks of a challenge, so no tree it
      seeds can start beyond the ceilings. */
  lemma LoadedChallengeIsOk(entries: seq<Entry>, files: seq<File>, duration: int)
    requires Loadable(entries) && DistinctPaths(FilesOf(entries)) && multiset(files) == multiset(FilesOf(entries))
    requires duration > 0
    ensures DistinctPaths(files)
    ensures ChallengeOk(Challenge(duration, AsTree(files)))
    ensures AsTree(files) != map[]
  {
    DistinctAfterSorting(FilesOf(entries), files);
    SizeOfSorted(files, FilesOf(entries));
    TreeOfDistinct(files);
    TreePaths(files);
    SameElements(files, FilesOf(entries));
    FilesAreEntries(entries);
    assert files[0].path in AsTree(files);
  }

  lemma {:induction false} FilesAreEntries(entries: seq<Entry>)
    requires forall i | 0 <= i < |entries| :: EntryOk(entries[i])
    ensures forall f | f in FilesOf(entries) :: Paths.Valid(f.path) && |f.content| <= MAX_FILE_BYTES
  {
    hide Paths.Valid;
    if entries != [] {
      FilesAreEntries(entries[..|entries| - 1]);
    }
  }
}
