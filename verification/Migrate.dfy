/** migrate.go: numbered schema changes, applied in order and once each. */
module Migrations {
  import opened Prelude
  import opened Decimals
  import opened Sorting

  /** Go's int. */
  type Version = v: int | -MAX_INT - 1 <= v <= MAX_INT

  const MAX_INT := 0x7FFF_FFFF_FFFF_FFFF

  datatype Migration = Migration(version: Version, name: string, sql: string, checksum: string)

  datatype Applied = Applied(version: Version, name: string)

  // The embedded set.

  datatype Entry = Entry(name: string, isDir: bool, body: string)

  predicate NameChar(c: char) {
    'a' <= c <= 'z' || '0' <= c <= '9' || c == '_'
  }

  /** The two groups of ^(\d+)_([a-z0-9_]+)\.sql$. */
  function Groups(name: string): Option<(string, string)> {
    var n := DigitRun(name);
    var end := |name| - 4;
    if 0 < n && n + 1 < end && name[n] == '_' && name[end..] == ".sql" && (forall i | n < i < end :: NameChar(name[i]))
    then Some((name[..n], name[n + 1..end]))
    else None
  }

  function FromEntry(e: Entry, digest: string -> string): Option<Migration> {
    match Groups(e.name)
    case None => None
    case Some((digits, name)) =>
      if !AllDigits(digits) then None
      else
        var version := Value(digits);
        if version < 1 || version > MAX_INT then None
        else Some(Migration(version, name, e.body, digest(e.body)))
  }

  /** <version>_<name>.sql. */
  predicate NamedAs(file: string, digits: string, name: string) {
    && digits != "" && AllDigits(digits)
    && name != "" && (forall c | c in name :: 'a' <= c <= 'z' || '0' <= c <= '9' || c == '_')
    && file == digits + "_" + name + ".sql"
  }

  lemma GroupsOfName(file: string, digits: string, name: string)
    requires NamedAs(file, digits, name)
    ensures Groups(file) == Some((digits, name))
  {
    var rest := "_" + name + ".sql";
    DigitsRunOn(digits, rest);
    assert file == digits + rest;
    hide DigitRun;
    var n, end := |digits|, |file| - 4;
    assert file[..n] == digits && file[n + 1..end] == name && file[end..] == ".sql";
    forall i | n < i < end ensures NameChar(file[i]) {
      assert file[i] == name[i - n - 1] && name[i - n - 1] in name;
    }
  }

  lemma NameOfGroups(file: string)
    requires Groups(file).Some?
    ensures NamedAs(file, Groups(file).value.0, Groups(file).value.1)
  {
    var (digits, name) := Groups(file).value;
    var n, end := |digits|, |file| - 4;
    assert file == file[..n] + [file[n]] + file[n + 1..end] + file[end..];
    forall c | c in name ensures NameChar(c) {
      var k :| 0 <= k < |name| && name[k] == c;
      assert file[n + 1 + k] == c;
    }
  }

  /** An entry is a migration exactly when its name is a version from 1 to the greatest int and a name, and
      then it carries both, the file's text and that text's digest. */
  lemma EntryIsReadByItsName(e: Entry, digest: string -> string)
    ensures FromEntry(e, digest).Some? <==>
              exists digits, name :: NamedAs(e.name, digits, name) && 1 <= Value(digits) <= 0x7FFF_FFFF_FFFF_FFFF
    ensures forall digits, name | NamedAs(e.name, digits, name) && 1 <= Value(digits) <= 0x7FFF_FFFF_FFFF_FFFF ::
              FromEntry(e, digest) == Some(Migration(Value(digits), name, e.body, digest(e.body)))
  {
    hide Groups, NamedAs;
    forall digits, name | NamedAs(e.name, digits, name)
      ensures Groups(e.name) == Some((digits, name)) && AllDigits(digits)
    {
      GroupsOfName(e.name, digits, name);
      NameOfGroups(e.name);
      DigitsOfName(e.name, digits, name);
    }
    if FromEntry(e, digest).Some? {
      NameOfGroups(e.name);
    }
  }

  lemma DigitsOfName(file: string, digits: string, name: string)
    requires NamedAs(file, digits, name)
    ensures AllDigits(digits)
  {}

  /** The files among the entries, if every one of them is named like a migration. */
  function FromEntries(entries: seq<Entry>, digest: string -> string): Option<seq<Migration>> {
    if entries == [] then Some([])
    else
      var last := entries[|entries| - 1];
      match FromEntries(entries[..|entries| - 1], digest)
      case None => None
      case Some(before) =>
        if last.isDir then Some(before)
        else
          match FromEntry(last, digest)
          case None => None
          case Some(m) => Some(before + [m])
  }

  /** Some entry that is no directory cannot be read. */
  ghost predicate Unreadable(entries: seq<Entry>, digest: string -> string) {
    exists i :: 0 <= i < |entries| && !entries[i].isDir && FromEntry(entries[i], digest).None?
  }

  lemma {:induction false} FilesAreReadOneByOne(entries: seq<Entry>, digest: string -> string)
    ensures FromEntries(entries, digest).None? <==> Unreadable(entries, digest)
    ensures FromEntries(entries, digest).Some? ==>
              forall m :: m in FromEntries(entries, digest).value <==>
                exists e :: e in entries && !e.isDir && FromEntry(e, digest) == Some(m)
  {
    hide FromEntry;
    if entries != [] {
      var before, last := entries[..|entries| - 1], entries[|entries| - 1];
      FilesAreReadOneByOne(before, digest);
      assert entries == before + [last];
    }
  }

  predicate InOrder(files: seq<Migration>) {
    forall i | 0 <= i < |files| :: files[i].version == i + 1
  }

  predicate Numbered(files: seq<Migration>) {
    files != [] && InOrder(files)
  }

  function Versions(files: seq<Migration>): set<int> {
    set i | 0 <= i < |files| :: files[i].version
  }

  function UpTo(n: nat): (s: set<int>)
    ensures forall v :: v in s <==> 1 <= v <= n
    ensures |s| == n
  {
    if n == 0 then {} else UpTo(n - 1) + {n}
  }

  /** What loadMigrations looks for: each of 1..n once. */
  ghost predicate IsSet(files: seq<Migration>) {
    files != [] && Versions(files) == UpTo(|files|)
  }

  predicate ByVersion(a: Migration, b: Migration) {
    a.version <= b.version
  }

  predicate Sorted(files: seq<Migration>) {
    SortedBy(files, ByVersion)
  }

  lemma SameVersions(a: seq<Migration>, b: seq<Migration>)
    requires multiset(a) == multiset(b)
    ensures |a| == |b| && Versions(a) == Versions(b)
  {
    SameElements(a, b);
    forall i | 0 <= i < |a| ensures a[i].version in Versions(b) {
      assert a[i] in b;
    }
    forall i | 0 <= i < |b| ensures b[i].version in Versions(a) {
      assert b[i] in a;
    }
  }

  lemma {:induction false} VersionCount(files: seq<Migration>)
    ensures |Versions(files)| <= |files|
  {
    if files != [] {
      var n := |files| - 1;
      VersionCount(files[..n]);
      SplitVersions(files);
    }
  }

  lemma SplitVersions(files: seq<Migration>)
    requires files != []
    ensures
      var n := |files| - 1;
      Versions(files) == Versions(files[..n]) + {files[n].version}
  {}

  lemma SameSize(a: set<int>, b: set<int>)
    requires a <= b && |b| <= |a|
    ensures a == b
  {
    assert |b| == |a| + |b - a| by { assert b == a + (b - a); }
  }

  lemma GreatestIsLast(files: seq<Migration>)
    requires Sorted(files) && IsSet(files)
    ensures files[|files| - 1].version == |files|
  {
    assert |files| in Versions(files);
    var k :| 0 <= k < |files| && files[k].version == |files|;
    assert files[|files| - 1].version in Versions(files);
  }

  lemma OthersAreASet(files: seq<Migration>)
    requires Sorted(files) && IsSet(files)
    ensures Versions(files[..|files| - 1]) == UpTo(|files| - 1)
  {
    var n := |files| - 1;
    GreatestIsLast(files);
    SplitVersions(files);
    VersionCount(files[..n]);
    hide Versions;
    SameSize(UpTo(n), Versions(files[..n]));
  }

  lemma {:induction false} NumberedVersions(files: seq<Migration>)
    requires Numbered(files)
    ensures Versions(files) == UpTo(|files|)
  {
    var n := |files| - 1;
    SplitVersions(files);
    if n > 0 {
      assert Numbered(files[..n]);
      NumberedVersions(files[..n]);
    } else {
      assert Versions(files[..n]) == {};
    }
  }

  lemma {:induction false} SetIsNumbered(files: seq<Migration>)
    requires Sorted(files) && IsSet(files)
    ensures InOrder(files)
  {
    GreatestIsLast(files);
    OthersAreASet(files);
    var before := files[..|files| - 1];
    assert Sorted(before);
    hide Versions, UpTo, Sorted;
    if before != [] {
      assert IsSet(before);
      hide IsSet;
      SetIsNumbered(before);
    }
    OneMoreInOrder(files);
  }

  lemma OneMoreInOrder(files: seq<Migration>)
    requires files != [] && files[|files| - 1].version == |files| && InOrder(files[..|files| - 1])
    ensures InOrder(files)
  {
    var before := files[..|files| - 1];
    forall i | 0 <= i < |files| ensures files[i].version == i + 1 {
      assert i < |before| ==> files[i] == before[i];
    }
  }

  /** In a sorted list, each of 1..n once means 1, 2, ..., n in that order. */
  lemma SortedSetIsNumbered(files: seq<Migration>)
    requires Sorted(files) && files != []
    ensures Numbered(files) <==> IsSet(files)
  {
    hide Versions, UpTo;
    if Numbered(files) {
      NumberedVersions(files);
    } else if IsSet(files) {
      SetIsNumbered(files);
    }
  }

  datatype LoadError = BadName | BadNumbering

  /** Exactly the sets numbered 1..n are loaded, in order. */
  method LoadMigrations(entries: seq<Entry>, digest: string -> string) returns (r: Result<seq<Migration>, LoadError>)
    ensures r == Err(BadName) <==>
              exists i :: 0 <= i < |entries| && !entries[i].isDir && FromEntry(entries[i], digest).None?
    ensures r.Ok? ==> forall m :: m in r.value <==>
              exists e :: e in entries && !e.isDir && FromEntry(e, digest) == Some(m)
    ensures r.Ok? <==> FromEntries(entries, digest).Some? && IsSet(FromEntries(entries, digest).value)
    ensures r.Ok? ==> Numbered(r.value) && multiset(r.value) == multiset(FromEntries(entries, digest).value)
  {
    FilesAreReadOneByOne(entries, digest);
    hide FromEntry, IsSet, SortedBy, Versions;
    var out: seq<Migration> := [];
    for i := 0 to |entries|
      invariant FromEntries(entries[..i], digest) == Some(out)
    {
      assert entries[..i + 1][..i] == entries[..i];
      if !entries[i].isDir {
        var m := FromEntry(entries[i], digest);
        if m.None? {
          StaysUnreadable(entries, i + 1, digest);
          return Err(BadName);
        }
        out := out + [m.value];
      }
    }
    assert entries[..|entries|] == entries;
    var files := Sort(out, ByVersion);
    SetOfSorted(files, out);
    if files != [] {
      SortedSetIsNumbered(files);
    }
    for i := 0 to |files|
      invariant forall j | 0 <= j < i :: files[j].version == j + 1
    {
      if files[i].version != i + 1 {
        return Err(BadNumbering);
      }
    }
    if |files| == 0 {
      return Err(BadNumbering);
    }
    r := Ok(files);
  }

  lemma SetOfSorted(files: seq<Migration>, out: seq<Migration>)
    requires multiset(files) == multiset(out)
    ensures IsSet(files) <==> IsSet(out)
    ensures files == [] ==> !IsSet(out)
    ensures forall m :: m in files <==> m in out
  {
    SameVersions(files, out);
    SameElements(files, out);
  }

  lemma {:induction false} StaysUnreadable(entries: seq<Entry>, n: nat, digest: string -> string)
    requires n <= |entries| && FromEntries(entries[..n], digest).None?
    ensures FromEntries(entries, digest).None?
    decreases |entries|
  {
    if n == |entries| {
      assert entries[..n] == entries;
    } else {
      var before := entries[..|entries| - 1];
      assert before[..n] == entries[..n];
      StaysUnreadable(before, n, digest);
    }
  }

  // One migrator.

  type Table = map<Version, string>

  datatype MigrateError =
    | UnknownMigration(version: Version)
    | ChecksumMismatch(version: Version)
    | StepFailed

  /** What goes wrong: a call before the loop, scripts that fail, and commits that stand although their
      answer never comes. */
  datatype Failing = Failing(lock: bool, table: bool, read: bool, scripts: set<int>, unheard: set<int>)

  predicate Disagrees(files: seq<Migration>, version: Version, checksum: string) {
    !exists i | 0 <= i < |files| :: files[i].version == version && files[i].checksum == checksum
  }

  /** What the database has run that the files do not account for. */
  ghost predicate InConflict(files: seq<Migration>, done: Table) {
    exists v | v in done :: Disagrees(files, v, done[v])
  }

  /** The error names the lowest version the files do not account for, and says whether it has a file at
      all or one that has changed since. */
  ghost predicate Refusal(files: seq<Migration>, done: Table, e: MigrateError) {
    match e
    case StepFailed => false
    case UnknownMigration(version) =>
      LowestToDisagree(files, done, version) && forall i | 0 <= i < |files| :: files[i].version != version
    case ChecksumMismatch(version) =>
      && LowestToDisagree(files, done, version)
      && exists i :: 0 <= i < |files| && files[i].version == version && files[i].checksum != done[version]
  }

  ghost predicate LowestToDisagree(files: seq<Migration>, done: Table, version: Version) {
    && version in done && Disagrees(files, version, done[version])
    && forall v | v in done && Disagrees(files, v, done[v]) :: version <= v
  }

  lemma CheckMeans(files: seq<Migration>, done: Table)
    ensures InConflict(files, done) <==>
              exists v | v in done ::
                forall i | 0 <= i < |files| :: !(files[i].version == v && files[i].checksum == done[v])
  {}

  ghost predicate Indexed(files: seq<Migration>, n: nat, byVersion: map<Version, Migration>)
    requires n <= |files|
  {
    && (forall v | v in byVersion :: exists j :: 0 <= j < n && byVersion[v] == files[j] && files[j].version == v)
    && (forall j | 0 <= j < n :: files[j].version in byVersion && byVersion[files[j].version] == files[j])
  }

  lemma IndexStep(files: seq<Migration>, i: nat, byVersion: map<Version, Migration>)
    requires i < |files| && DistinctVersions(files) && Indexed(files, i, byVersion)
    ensures Indexed(files, i + 1, byVersion[files[i].version := files[i]])
  {}

  lemma VersionMeans(files: seq<Migration>, done: Table, byVersion: map<Version, Migration>, v: Version)
    requires DistinctVersions(files) && v in done && Indexed(files, |files|, byVersion)
    ensures Disagrees(files, v, done[v]) <==> v !in byVersion || byVersion[v].checksum != done[v]
    ensures LowestToDisagree(files, done, v) && v !in byVersion ==> Refusal(files, done, UnknownMigration(v))
    ensures LowestToDisagree(files, done, v) && v in byVersion ==> Refusal(files, done, ChecksumMismatch(v))
  {
    if v in byVersion {
      var i :| 0 <= i < |files| && files[i] == byVersion[v];
    }
  }

  /** The versions that are not left are below those that are, and none of them disagrees. */
  ghost predicate Checked(files: seq<Migration>, done: Table, left: set<Version>) {
    && left <= done.Keys
    && forall v | v in done && v !in left :: !Disagrees(files, v, done[v]) && forall w | w in left :: v < w
  }

  lemma NothingChecked(files: seq<Migration>, done: Table)
    ensures Indexed(files, 0, map[]) && Checked(files, done, done.Keys)
    ensures Checked(files, done, {}) ==> !InConflict(files, done)
  {}

  lemma CheckStep(files: seq<Migration>, done: Table, left: set<Version>, version: Version)
    requires Checked(files, done, left) && version in left && forall v | v in left :: version <= v
    ensures version in done
    ensures Disagrees(files, version, done[version]) ==>
              LowestToDisagree(files, done, version) && InConflict(files, done)
    ensures !Disagrees(files, version, done[version]) ==> Checked(files, done, left - {version})
  {
    hide Disagrees;
  }

  /** The files the database has not run, in order. */
  function Pending(files: seq<Migration>, done: Table): seq<Migration> {
    if files == [] then []
    else
      var before := Pending(files[..|files| - 1], done);
      var m := files[|files| - 1];
      if m.version in done then before else before + [m]
  }

  function Recorded(done: Table, run: seq<Migration>): Table {
    if run == [] then done
    else Recorded(done, run[..|run| - 1])[run[|run| - 1].version := run[|run| - 1].checksum]
  }

  /** Each script that ran, by version and name. */
  ghost predicate Reports(applied: seq<Applied>, todo: seq<Migration>) {
    && |applied| <= |todo|
    && forall i | 0 <= i < |applied| :: applied[i] == Applied(todo[i].version, todo[i].name)
  }

  /** The database: schema_migrations, and the scripts whose effects the schema has. */
  class Database {
    var done: Table
    var ran: seq<Migration>

    constructor ()
      ensures done == map[] && ran == []
    {
      done, ran := map[], [];
    }

    /** One transaction: the script and its row, or neither. */
    method Apply(m: Migration, fails: bool, unheard: bool) returns (ok: bool)
      modifies this
      ensures ok <==> !fails && !unheard && m.version !in old(done)
      ensures
        var stands := !fails && m.version !in old(done);
        && done == (if stands then old(done)[m.version := m.checksum] else old(done))
        && ran == if stands then old(ran) + [m] else old(ran)
    {
      var ran0 := ran;
      if fails {
        return false;
      }
      ran := ran + [m];
      if m.version in done {
        ran := ran0;
        return false;
      }
      done := done[m.version := m.checksum];
      ok := !unheard;
    }

    /** Nothing is wrong exactly when every version that has run has a file with the checksum it ran
        with; otherwise the lowest version without one is named, as unknown or as changed. */
    method CheckAgainstFiles(files: seq<Migration>) returns (e: Option<MigrateError>)
      requires DistinctVersions(files)
      ensures e.Some? <==>
                exists v | v in done ::
                  forall i | 0 <= i < |files| :: !(files[i].version == v && files[i].checksum == done[v])
      ensures e.Some? <==> InConflict(files, done)
      ensures e.Some? ==> !e.value.StepFailed? && Refusal(files, done, e.value)
    {
      CheckMeans(files, done);
      hide Refusal, Disagrees, DistinctVersions, InConflict, LowestToDisagree, Indexed, Checked;
      var byVersion: map<Version, Migration> := map[];
      NothingChecked(files, done);
      for i := 0 to |files|
        invariant Indexed(files, i, byVersion)
      {
        IndexStep(files, i, byVersion);
        byVersion := byVersion[files[i].version := files[i]];
      }
      var left := done.Keys;
      while left != {}
        invariant Checked(files, done, left)
        decreases |left|
      {
        var version := Smallest(left);
        CheckStep(files, done, left, version);
        VersionMeans(files, done, byVersion, version);
        if version !in byVersion {
          return Some(UnknownMigration(version));
        }
        if byVersion[version].checksum != done[version] {
          return Some(ChecksumMismatch(version));
        }
        left := left - {version};
      }
      e := None;
    }

    /** migrateConn, once it has the advisory lock. */
    method Migrate(files: seq<Migration>, failing: Failing)
      returns (applied: seq<Applied>, e: Option<MigrateError>)
      requires Numbered(files)
      modifies this
      ensures applied != [] || e.None? ==> !Early(failing) && !InConflict(files, old(done))
      ensures
        var todo := Pending(files, old(done));
        && HasRun(old(done), old(ran), todo, |applied| + Unreported(todo, |applied|, e, failing), done, ran)
        && |applied| <= |todo| && Reports(applied, todo)
        && (e.None? <==> !Early(failing) && !InConflict(files, old(done)) && |applied| == |todo|)
        && (e == Some(StepFailed) ==>
              || Early(failing)
              || (|applied| < |todo| && todo[|applied|].version in failing.scripts + failing.unheard))
        && (forall i | 0 <= i < |applied| :: todo[i].version !in failing.scripts + failing.unheard)
      ensures !Early(failing) ==> (e.Some? && !e.value.StepFailed? <==> InConflict(files, old(done)))
      ensures !Early(failing) && InConflict(files, old(done)) ==>
                && applied == [] && e.Some? && Refusal(files, old(done), e.value)
                && done == old(done) && ran == old(ran)
    {
      hide Disagrees, InConflict, Refusal, Versions, HasRun, Reports, DistinctVersions, Pending, Recorded;
      applied, e := [], None;
      ghost var done0, ran0 := done, ran;
      ghost var todo := Pending(files, done);
      NothingRun(done, ran, todo);
      NothingPending(done);
      if Early(failing) {
        return applied, Some(StepFailed);
      }
      NumberedIsDistinct(files);
      var refused := CheckAgainstFiles(files);
      if refused.Some? {
        return applied, refused;
      }
      var known := done;
      for i := 0 to |files|
        invariant |applied| <= |todo|
        invariant Pending(files[..i], done0) == todo[..|applied|]
        invariant HasRun(done0, ran0, todo, |applied|, done, ran)
        invariant Reports(applied, todo)
        invariant forall k | 0 <= k < |applied| :: todo[k].version !in failing.scripts + failing.unheard
      {
        PendingStep(files, i, done0);
        if files[i].version !in known {
          assert todo[|applied|] == files[i];
          NotYetRecorded(files, i, done0);
          RunOneMore(done0, ran0, todo, |applied|, done, ran);
          var version := files[i].version;
          var ok := Apply(files[i], version in failing.scripts, version in failing.unheard);
          if !ok {
            return applied, Some(StepFailed);
          }
          ReportOneMore(applied, todo);
          assert todo[..|applied| + 1] == todo[..|applied|] + [files[i]];
          applied := applied + [Applied(files[i].version, files[i].name)];
        }
      }
      assert files[..|files|] == files;
      assert todo[..|todo|] == todo;
    }
  }

  predicate Early(failing: Failing) {
    failing.lock || failing.table || failing.read
  }

  /** 1 when the run stopped at a commit that stands but was not heard of, and 0 otherwise. */
  function Unreported(todo: seq<Migration>, applied: nat, e: Option<MigrateError>, failing: Failing): nat {
    if e == Some(StepFailed) && !Early(failing) && applied < |todo| && todo[applied].version !in failing.scripts
    then 1 else 0
  }

  /** The first n of the scripts to do have run, in order, each with its row. */
  ghost predicate HasRun(
    done0: Table, ran0: seq<Migration>, todo: seq<Migration>, n: nat, done: Table, ran: seq<Migration>)
  {
    n <= |todo| && ran == ran0 + todo[..n] && done == Recorded(done0, todo[..n])
  }

  lemma NothingRun(done: Table, ran: seq<Migration>, todo: seq<Migration>)
    ensures HasRun(done, ran, todo, 0, done, ran) && Reports([], todo)
  {}

  lemma RunOneMore(
      done0: Table, ran0: seq<Migration>, todo: seq<Migration>, n: nat, done: Table, ran: seq<Migration>)
    requires HasRun(done0, ran0, todo, n, done, ran) && n < |todo|
    ensures done == Recorded(done0, todo[..n])
    ensures HasRun(done0, ran0, todo, n + 1, done[todo[n].version := todo[n].checksum], ran + [todo[n]])
  {
    assert todo[..n + 1] == todo[..n] + [todo[n]];
  }

  predicate DistinctVersions(files: seq<Migration>) {
    forall i, j | 0 <= i < j < |files| :: files[i].version != files[j].version
  }

  lemma NumberedIsDistinct(files: seq<Migration>)
    requires Numbered(files)
    ensures DistinctVersions(files)
  {}

  method Smallest(s: set<Version>) returns (least: Version)
    requires s != {}
    ensures least in s && forall x | x in s :: least <= x
  {
    least :| least in s;
    var left := s - {least};
    while left != {}
      invariant least in s && left <= s
      invariant forall x | x in s && x !in left :: least <= x
      decreases |left|
    {
      var x :| x in left;
      if x < least {
        least := x;
      }
      left := left - {x};
    }
  }

  lemma ReportOneMore(applied: seq<Applied>, todo: seq<Migration>)
    requires Reports(applied, todo) && |applied| < |todo|
    ensures
      var m := todo[|applied|];
      Reports(applied + [Applied(m.version, m.name)], todo)
  {}

  lemma {:induction false} PendingPrefix(files: seq<Migration>, n: nat, done: Table)
    requires n <= |files|
    ensures Pending(files[..n], done) <= Pending(files, done)
    decreases |files|
  {
    if n == |files| {
      assert files[..n] == files;
    } else {
      PendingPrefix(files[..|files| - 1], n, done);
      assert files[..|files| - 1][..n] == files[..n];
    }
  }

  lemma NothingPending(done: Table)
    ensures Pending([], done) == []
  {}

  lemma PendingStep(files: seq<Migration>, i: nat, done: Table)
    requires i < |files|
    ensures Pending(files[..i + 1], done) ==
            Pending(files[..i], done) + if files[i].version in done then [] else [files[i]]
    ensures Pending(files[..i + 1], done) <= Pending(files, done)
  {
    assert files[..i + 1][..i] == files[..i];
    PendingPrefix(files, i + 1, done);
  }

  lemma {:induction false} PendingAreFiles(files: seq<Migration>, done: Table)
    ensures forall m | m in Pending(files, done) :: m in files
  {
    if files != [] {
      PendingAreFiles(files[..|files| - 1], done);
    }
  }

  predicate Ascending(files: seq<Migration>) {
    forall i, j | 0 <= i < j < |files| :: files[i].version < files[j].version
  }

  /** What is still to run is every file whose version has not run, in ascending order. */
  lemma {:induction false} PendingIsTheRest(files: seq<Migration>, done: Table)
    requires InOrder(files)
    ensures forall m :: m in Pending(files, done) <==> m in files && m.version !in done
    ensures Ascending(Pending(files, done))
  {
    if files != [] {
      var n := |files| - 1;
      var before := files[..n];
      PendingIsTheRest(before, done);
      LastIsGreatest(files, Pending(before, done));
      hide Ascending;
      assert files == before + [files[n]];
    }
  }

  lemma LastIsGreatest(files: seq<Migration>, some: seq<Migration>)
    requires InOrder(files) && files != [] && Ascending(some)
    requires forall m | m in some :: m in files[..|files| - 1]
    ensures Ascending(some + [files[|files| - 1]])
  {
    var last := files[|files| - 1];
    forall i | 0 <= i < |some| ensures some[i].version < last.version {
      assert some[i] in some;
      var k :| 0 <= k < |files| - 1 && files[k] == some[i];
    }
  }

  lemma {:induction false} RecordedKeys(done: Table, run: seq<Migration>)
    ensures forall v :: v in Recorded(done, run) <==> v in done || exists m | m in run :: m.version == v
  {
    if run != [] {
      var n := |run| - 1;
      RecordedKeys(done, run[..n]);
      assert forall m :: m in run <==> m in run[..n] || m == run[n];
    }
  }

  lemma NotYetRecorded(files: seq<Migration>, i: nat, done: Table)
    requires Numbered(files) && i < |files| && files[i].version !in done
    ensures files[i].version !in Recorded(done, Pending(files[..i], done))
  {
    PendingAreFiles(files[..i], done);
    RecordedKeys(done, Pending(files[..i], done));
  }

  // From a prefix, to a longer one.

  /** The table of a database that has run the first k files and nothing else. */
  function TableOf(files: seq<Migration>, k: nat): Table
    requires k <= |files|
  {
    Recorded(map[], files[..k])
  }

  lemma {:induction false} TableHolds(files: seq<Migration>, k: nat)
    requires Numbered(files) && k <= |files|
    ensures forall v :: v in TableOf(files, k) <==> 1 <= v <= k
    ensures forall v | 1 <= v <= k :: TableOf(files, k)[v] == files[v - 1].checksum
  {
    if k > 0 {
      TableHolds(files, k - 1);
      assert files[..k][..k - 1] == files[..k - 1];
      assert files[..k][k - 1] == files[k - 1] && files[k - 1].version == k;
      assert TableOf(files, k) == TableOf(files, k - 1)[k := files[k - 1].checksum];
    }
  }

  lemma PrefixHolds(files: seq<Migration>, k: nat, n: nat)
    requires Numbered(files) && k <= |files| && 0 < n <= |files|
    ensures files[n - 1].version in TableOf(files, k) <==> n <= k
  {
    TableHolds(files, k);
    assert files[n - 1].version == n;
  }

  lemma OneMorePiece(files: seq<Migration>, k: nat, n: nat)
    requires k < n <= |files|
    ensures files[k..n] == files[k..n - 1] + [files[n - 1]]
  {}

  lemma {:induction false} PendingOfPrefix(files: seq<Migration>, k: nat, n: nat)
    requires Numbered(files) && k <= |files| && n <= |files|
    ensures Pending(files[..n], TableOf(files, k)) == if n <= k then [] else files[k..n]
  {
    hide TableOf, Pending;
    if n == 0 {
      NothingPending(TableOf(files, k));
      assert files[..0] == [];
    } else {
      PendingOfPrefix(files, k, n - 1);
      PrefixHolds(files, k, n);
      PendingStep(files, n - 1, TableOf(files, k));
      if n > k {
        OneMorePiece(files, k, n);
      }
    }
  }

  lemma {:induction false} RecordedAppends(done: Table, a: seq<Migration>, b: seq<Migration>)
    ensures Recorded(Recorded(done, a), b) == Recorded(done, a + b)
  {
    if b == [] {
      assert a + b == a;
    } else {
      RecordedAppends(done, a, b[..|b| - 1]);
      assert (a + b)[..|a + b| - 1] == a + b[..|b| - 1];
    }
  }

  /** A database that has run the first k files is not in conflict with them, has files[k..] still to
      run, and having run the first j of those has run the first k + j. */
  lemma PrefixGrowsToPrefix(files: seq<Migration>, k: nat, j: nat)
    requires Numbered(files) && k + j <= |files|
    ensures !InConflict(files, TableOf(files, k))
    ensures Pending(files, TableOf(files, k)) == files[k..]
    ensures HasRun(TableOf(files, k), files[..k], files[k..], j, TableOf(files, k + j), files[..k + j])
  {
    PrefixAgrees(files, k);
    RestIsPending(files, k);
    FirstPieces(files, k, j);
    hide InConflict, Pending, Recorded, Numbered, Disagrees;
    RecordedAppends(map[], files[..k], files[k..][..j]);
  }

  lemma FirstPieces(files: seq<Migration>, k: nat, j: nat)
    requires k + j <= |files|
    ensures files[..k] + files[k..][..j] == files[..k + j]
  {}

  lemma RestIsPending(files: seq<Migration>, k: nat)
    requires Numbered(files) && k <= |files|
    ensures Pending(files, TableOf(files, k)) == files[k..]
  {
    hide Pending, TableOf;
    PendingOfPrefix(files, k, |files|);
    assert files[..|files|] == files;
    assert files[k..|files|] == files[k..];
  }

  lemma PrefixAgrees(files: seq<Migration>, k: nat)
    requires Numbered(files) && k <= |files|
    ensures !InConflict(files, TableOf(files, k))
  {
    TableHolds(files, k);
    hide TableOf;
    forall v | v in TableOf(files, k) ensures !Disagrees(files, v, TableOf(files, k)[v]) {
      assert files[v - 1].version == v;
    }
  }

  /** A file that was edited after it ran is noticed, whatever else was edited after it: Migrate refuses,
      and names the first of them. */
  lemma EditIsNoticed(files: seq<Migration>, edited: seq<Migration>, k: nat, i: nat)
    requires Numbered(files) && Numbered(edited) && i < k <= |files| && i < |edited|
    requires edited[i].checksum != files[i].checksum
    requires forall j | 0 <= j < i :: edited[j].checksum == files[j].checksum
    ensures InConflict(edited, TableOf(files, k))
    ensures forall e :: Refusal(edited, TableOf(files, k), e) <==> e == ChecksumMismatch(i + 1)
  {
    TableHolds(files, k);
    var done := TableOf(files, k);
    hide TableOf;
    var version: Version := i + 1;
    assert version in done && edited[i].version == version;
    assert Disagrees(edited, version, done[version]);
    forall v | v in done && v <= i ensures !Disagrees(edited, v, done[v]) {
      assert edited[v - 1].version == v;
    }
  }

  /** So is a file that is missing. */
  lemma MissingFileIsNoticed(files: seq<Migration>, k: nat, n: nat)
    requires Numbered(files) && 0 < n < k <= |files|
    ensures InConflict(files[..n], TableOf(files, k))
    ensures forall e :: Refusal(files[..n], TableOf(files, k), e) <==> e == UnknownMigration(n + 1)
  {
    TableHolds(files, k);
    var done := TableOf(files, k);
    hide TableOf;
    var version: Version := n + 1;
    assert version in done && Disagrees(files[..n], version, done[version]);
    forall v | v in done && v <= n ensures !Disagrees(files[..n], v, done[v]) {
      assert files[..n][v - 1].version == v;
    }
  }

  /** A database that has run everything runs nothing more. */
  lemma NothingLeftToRun(files: seq<Migration>)
    requires Numbered(files)
    ensures Pending(files, TableOf(files, |files|)) == []
  {
    PrefixGrowsToPrefix(files, |files|, 0);
  }
}
