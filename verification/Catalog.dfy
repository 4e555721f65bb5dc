/** catalog.go: registering a challenge version, again and again. */
module Catalogs {
  import opened Prelude
  import opened Rows
  import opened Transitions
  import opened Workspaces
  import opened Results
  import Paths
  import Verify
  import ResultDocument
  import opened Sorting

  datatype Head = Head(category: string, difficulty: string, duration: int, image: string)

  datatype Spec = Spec(key: Key, head: Head, requirements: seq<Requirement>)

  /** The tables challenges, requirements (in position order) and challenge_files. */
  datatype Tables = Tables(heads: map<Key, Head>, requirements: map<Key, seq<Requirement>>, files: map<Key, Tree>)

  datatype RegisterError = Conflict | NoWorkspace | Refused   // Refused by a schema constraint

  // Schema constraints.

  /** The greatest value of an integer column. */
  const MAX_INTEGER := 0x7FFF_FFFF

  predicate HeadOk(key: Key, head: Head) {
    && Verify.IsSlug(key.id) && 0 < key.version <= MAX_INTEGER
    && (head.category == "debugging" || head.category == "build")
    && (head.difficulty == "easy" || head.difficulty == "medium" || head.difficulty == "hard")
    && head.duration > 0 && head.image != ""
  }

  predicate RequirementOk(r: Requirement) {
    r.key != "" && r.title != "" && 0 < r.weight <= MAX_INTEGER
  }

  predicate RequirementsOk(requirements: seq<Requirement>) {
    && (forall i | 0 <= i < |requirements| :: RequirementOk(requirements[i]))
    && (forall i, j | 0 <= i < j < |requirements| :: requirements[i].key != requirements[j].key)
  }

  predicate FileOk(f: File) {
    Paths.Valid(f.path) && |f.content| <= MAX_FILE_BYTES
  }

  predicate FilesOk(files: seq<File>) {
    forall i | 0 <= i < |files| :: FileOk(files[i])
  }

  function FilesStored(t: Tables, key: Key): Tree {
    if key in t.files then t.files[key] else map[]
  }

  /** Every version has its requirements, and only registered versions have files. */
  ghost predicate Valid(t: Tables) {
    && t.requirements.Keys == t.heads.Keys
    && t.files.Keys <= t.heads.Keys
  }

  /** The row and the requirements: written by the first to arrive, compared by everyone after. The row's
      own constraints are checked even where the insert then finds one there. */
  function WithHead(t: Tables, spec: Spec): Result<Tables, RegisterError>
    requires spec.key in t.heads ==> spec.key in t.requirements
  {
    var key := spec.key;
    if !HeadOk(key, spec.head) then Err(Refused)
    else if key in t.heads then
      if t.heads[key] == spec.head && t.requirements[key] == spec.requirements then Ok(t) else Err(Conflict)
    else if RequirementsOk(spec.requirements) then
      Ok(t.(heads := t.heads[key := spec.head], requirements := t.requirements[key := spec.requirements]))
    else Err(Refused)
  }

  /** The files: written if there are none, compared otherwise. */
  function WithFiles(t: Tables, key: Key, files: seq<File>): Result<Tables, RegisterError> {
    if files == [] then Err(NoWorkspace)
    else if FilesStored(t, key) == map[] then
      if FilesOk(files) then Ok(t.(files := t.files[key := AsTree(files)])) else Err(Refused)
    else if FilesStored(t, key) == AsTree(files) then Ok(t)
    else Err(Conflict)
  }

  /** What registering means, for files with distinct paths: the first to arrive writes, and whoever
      comes later must bring the same. */
  function Registered(t: Tables, spec: Spec, files: seq<File>): Result<Tables, RegisterError>
    requires spec.key in t.heads ==> spec.key in t.requirements
  {
    match WithHead(t, spec)
    case Err(e) => Err(e)
    case Ok(u) => WithFiles(u, spec.key, files)
  }

  /** No two contents share a digest. */
  ghost predicate Faithful(digest: Content -> string) {
    forall a, b :: digest(a) == digest(b) ==> a == b
  }

  /** A digest in hexadecimal has digits. */
  ghost predicate NeverEmpty(digest: Content -> string) {
    forall a :: digest(a) != ""
  }

  function Digests(tree: Tree, digest: Content -> string): map<Path, string> {
    map p | p in tree :: digest(tree[p])
  }

  lemma AsManyDigests(tree: Tree, digest: Content -> string)
    ensures |Digests(tree, digest)| == |tree|
  {
    assert Digests(tree, digest).Keys == tree.Keys;
    assert |Digests(tree, digest).Keys| == |tree.Keys|;
  }

  predicate FileAgrees(tree: Tree, f: File, digest: Content -> string) {
    f.path in tree && digest(tree[f.path]) == digest(f.content)
  }

  /** A path that is not stored reads as the empty string, which no digest is. */
  function StoredDigest(digests: map<Path, string>, path: Path): string {
    if path in digests then digests[path] else ""
  }

  lemma DigestsDecide(tree: Tree, f: File, digest: Content -> string)
    requires NeverEmpty(digest)
    ensures StoredDigest(Digests(tree, digest), f.path) == digest(f.content) <==> FileAgrees(tree, f, digest)
  {}

  /** checkWorkspace's verdict: as many rows as files, and the digest of every file. */
  predicate Agrees(tree: Tree, files: seq<File>, digest: Content -> string) {
    && |tree| == |files|
    && forall i | 0 <= i < |files| :: FileAgrees(tree, files[i], digest)
  }

  /** For distinct paths, counting rows and comparing digests compares whole trees. */
  lemma AgreesIffSameTree(tree: Tree, files: seq<File>, digest: Content -> string)
    requires Faithful(digest) && DistinctPaths(files)
    ensures Agrees(tree, files, digest) <==> tree == AsTree(files)
  {
    TreeOfDistinct(files);
    TreePaths(files);
    var other := AsTree(files);
    hide AsTree;
    if Agrees(tree, files, digest) {
      forall p | p in other ensures p in tree && tree[p] == other[p] {
        assert p in PathsIn(files);
      }
      SameKeys(other.Keys, tree.Keys);
      assert tree == other;
    }
  }

  lemma SameKeys(a: set<Path>, b: set<Path>)
    requires a <= b && |a| == |b|
    ensures a == b
  {
    assert b == a + (b - a);
  }

  /** The check compares whole trees exactly for the lists in which no path occurs twice. A list with a
      repeat always has its own tree against it, which holds fewer files than the list counts. */
  lemma CheckIsEqualityIffDistinct(files: seq<File>, digest: Content -> string)
    requires Faithful(digest)
    ensures DistinctPaths(files) <==> forall tree :: Agrees(tree, files, digest) <==> tree == AsTree(files)
  {
    RepeatsAreLost(files);
    if DistinctPaths(files) {
      forall tree ensures Agrees(tree, files, digest) <==> tree == AsTree(files) {
        AgreesIffSameTree(tree, files, digest);
      }
    } else {
      RepeatsNeverAgree(files, digest);
    }
  }

  lemma RepeatsNeverAgree(files: seq<File>, digest: Content -> string)
    ensures !DistinctPaths(files) ==> !Agrees(AsTree(files), files, digest)
  {
    RepeatsAreLost(files);
  }

  /** A repeat can also let too much through: these two files agree with a stored tree that holds a path
      neither of them has. */
  lemma DuplicatesFoolTheCheck(digest: Content -> string, content: Content)
    ensures
      var files := [File("a", content), File("a", content)];
      var tree := map["a" := content, "b" := content];
      Agrees(tree, files, digest) && tree != AsTree(files)
  {
    var tree := map["a" := content, "b" := content];
    assert tree.Keys == {"a", "b"};
    var files := [File("a", content), File("a", content)];
    TreePaths(files);
    assert "b" !in PathsIn(files);
  }

  // Registering twice.

  /** Other versions keep their rows. */
  ghost predicate OthersKept(t: Tables, t': Tables, key: Key) {
    forall k | k != key ::
      && (k in t'.heads <==> k in t.heads)
      && (k in t.heads && k in t.requirements && k in t'.requirements ==>
            t'.heads[k] == t.heads[k] && t'.requirements[k] == t.requirements[k])
      && FilesStored(t', k) == FilesStored(t, k)
  }

  lemma HeadIsTheSpec(t: Tables, spec: Spec, u: Tables)
    requires Valid(t) && WithHead(t, spec) == Ok(u)
    ensures Valid(u) && spec.key in u.heads && u.files == t.files && OthersKept(t, u, spec.key)
    ensures u.heads[spec.key] == spec.head && u.requirements[spec.key] == spec.requirements
    ensures spec.key in t.heads ==> u == t
  {
    hide HeadOk, RequirementsOk;
  }

  lemma FilesAreTheSpec(t: Tables, key: Key, files: seq<File>, u: Tables)
    requires Valid(t) && key in t.heads && DistinctPaths(files) && WithFiles(t, key, files) == Ok(u)
    ensures Valid(u) && u.heads == t.heads && u.requirements == t.requirements
    ensures FilesStored(u, key) == AsTree(files) != map[] && OthersKept(t, u, key)
    ensures FilesStored(t, key) != map[] ==> u == t
  {
    TreeOfDistinct(files);
    hide FilesOk, AsTree;
    assert |AsTree(files)| > 0;
  }

  /** Success means what is stored is the spec, and other versions are untouched. */
  lemma RegisteredIsTheSpec(t: Tables, spec: Spec, files: seq<File>, t': Tables)
    requires Valid(t) && DistinctPaths(files) && Registered(t, spec, files) == Ok(t')
    ensures Valid(t') && spec.key in t'.heads && OthersKept(t, t', spec.key)
    ensures t'.heads[spec.key] == spec.head && t'.requirements[spec.key] == spec.requirements
    ensures FilesStored(t', spec.key) == AsTree(files) != map[]
    ensures |FilesStored(t', spec.key)| == |files|
    ensures forall i | 0 <= i < |files| ::
              && files[i].path in FilesStored(t', spec.key)
              && FilesStored(t', spec.key)[files[i].path] == files[i].content
    ensures spec.key in t.heads && FilesStored(t, spec.key) != map[] ==> t' == t
  {
    TreeOfDistinct(files);
    hide WithHead, WithFiles, AsTree;
    var u := WithHead(t, spec).value;
    HeadIsTheSpec(t, spec, u);
    FilesAreTheSpec(u, spec.key, files, t');
  }

  /** Every answer exactly when it is due: what the schema asks of a version's row, its requirements and
      its files, and what a version that is there already must agree with. */
  lemma RegisterAnswers(
      t: Tables, spec: Spec, files: seq<File>, rowFits: bool, requirementsFit: bool, filesFit: bool, same: bool)
    requires Valid(t) && DistinctPaths(files)
    requires rowFits <==>
             && Verify.IsSlug(spec.key.id) && 1 <= spec.key.version <= 2_147_483_647
             && spec.head.category in {"debugging", "build"} && spec.head.difficulty in {"easy", "medium", "hard"}
             && spec.head.duration > 0 && spec.head.image != ""
    requires requirementsFit <==>
             && (forall r | r in spec.requirements :: r.key != "" && r.title != "" && 1 <= r.weight <= 2_147_483_647)
             && (forall i, j | 0 <= i < j < |spec.requirements| ::
                   spec.requirements[i].key != spec.requirements[j].key)
    requires filesFit <==> forall f | f in files :: Paths.Valid(f.path) && |f.content| <= 1_048_576
    requires same <==>
             && spec.key in t.heads && spec.key in t.requirements
             && t.heads[spec.key] == spec.head && t.requirements[spec.key] == spec.requirements
    ensures
      var stored, r := FilesStored(t, spec.key), Registered(t, spec, files);
      var agreed := rowFits && (same || (spec.key !in t.heads && requirementsFit));
      && (r.Ok? <==> agreed && files != [] && if stored == map[] then filesFit else stored == AsTree(files))
      && (r == Err(NoWorkspace) <==> agreed && files == [])
      && (r == Err(Conflict) <==>
            || (rowFits && spec.key in t.heads && !same)
            || (agreed && files != [] && stored != map[] && stored != AsTree(files)))
      && (r == Err(Refused) <==>
            || !rowFits || (spec.key !in t.heads && !requirementsFit)
            || (agreed && files != [] && stored == map[] && !filesFit))
  {
    hide Verify.IsSlug, Paths.Valid, AsTree;
  }

  /** A validated challenge with the workspace that was loaded for it can be registered in any catalogue
      that does not have its version yet, provided its numbers fit their columns. */
  lemma LoadedChallengeRegisters(t: Tables, spec: Spec, entries: seq<Entry>, files: seq<File>)
    requires Valid(t) && spec.key !in t.heads
    requires Verify.IsSlug(spec.key.id) && spec.key.version >= 1
    requires spec.head.category == "debugging" || spec.head.category == "build"
    requires spec.head.difficulty == "easy" || spec.head.difficulty == "medium" || spec.head.difficulty == "hard"
    requires spec.head.duration > 0 && spec.head.image != ""
    requires Verify.Validated(spec.requirements)
    requires Loadable(entries) && DistinctPaths(FilesOf(entries)) && multiset(files) == multiset(FilesOf(entries))
    ensures Registered(t, spec, files).Ok? <==>
              spec.key.version <= 2_147_483_647 && forall r | r in spec.requirements :: r.weight <= 2_147_483_647
  {
    DistinctAfterSorting(FilesOf(entries), files);
    FilesAreEntries(entries);
    SameElements(files, FilesOf(entries));
    NoFilesWithoutAKey(t, spec.key);
    ValidatedFits(spec.requirements);
    hide Verify.IsSlug, Verify.Validated, Paths.Valid, AsTree, FilesOf, DistinctPaths, Loadable;
    LoadableHasFiles(entries);
    var fits := forall r | r in spec.requirements :: r.weight <= 2_147_483_647;
    RegisterAnswers(t, spec, files, spec.key.version <= 2_147_483_647, fits, true, false);
  }

  lemma LoadableHasFiles(entries: seq<Entry>)
    requires Loadable(entries)
    ensures FilesOf(entries) != []
  {}

  lemma NoFilesWithoutAKey(t: Tables, key: Key)
    requires Valid(t) && key !in t.heads
    ensures FilesStored(t, key) == map[]
  {}

  lemma ValidatedFits(requirements: seq<Requirement>)
    requires Verify.Validated(requirements)
    ensures forall r | r in requirements :: r.key != "" && r.title != "" && r.weight >= 1
    ensures forall i, j | 0 <= i < j < |requirements| :: requirements[i].key != requirements[j].key
  {
    hide Verify.IsSlug;
    assert ResultDocument.TrimSpace("") == "";
  }

  /** The same registration again succeeds and changes nothing; any other under the same key is a
      conflict, is refused or has no workspace, and changes nothing either. */
  lemma FirstWriterWins(t: Tables, spec: Spec, files: seq<File>, t': Tables, spec': Spec, files': seq<File>)
    requires Valid(t) && DistinctPaths(files) && DistinctPaths(files') && Registered(t, spec, files) == Ok(t')
    requires spec'.key == spec.key
    ensures Valid(t')
    ensures Registered(t', spec', files').Ok? <==>
              spec'.head == spec.head && spec'.requirements == spec.requirements && AsTree(files') == AsTree(files)
    ensures Registered(t', spec', files').Ok? ==> Registered(t', spec', files') == Ok(t')
    ensures files' != [] && HeadOk(spec'.key, spec'.head) && Registered(t', spec', files').Err? ==>
              Registered(t', spec', files') == Err(Conflict)
  {
    hide HeadOk, RequirementsOk, FilesOk;
    RegisteredIsTheSpec(t, spec, files, t');
    TreeOfDistinct(files');
    if files' == [] {
      assert AsTree(files') == map[];
    }
  }

  // The transaction.

  class Catalog {
    var tables: Tables
    const digest: Content -> string

    constructor (digest: Content -> string)
      ensures Valid(tables) && tables == Tables(map[], map[], map[]) && this.digest == digest
    {
      this.digest := digest;
      tables := Tables(map[], map[], map[]);
    }

    /** Any failure puts everything back. For distinct paths the outcome is Registered's; for others it
        is whatever the comparison of counts and digests lets through. */
    method RegisterChallenge(spec: Spec, files: seq<File>) returns (r: Result<(), RegisterError>)
      requires Valid(tables) && NeverEmpty(digest)
      modifies this`tables
      ensures Valid(tables)
      ensures r.Err? ==> tables == old(tables)
      ensures r.Ok? ==> spec.key in tables.heads && Agrees(FilesStored(tables, spec.key), files, digest)
      ensures !DistinctPaths(files) && FilesStored(old(tables), spec.key) == map[] ==> r.Err?
      ensures Faithful(digest) && DistinctPaths(files) ==>
                match Registered(old(tables), spec, files)
                case Ok(t) => r == Ok(()) && tables == t
                case Err(e) => r == Err(e)
    {
      hide WithFiles, Agrees, Faithful, NeverEmpty, DistinctPaths;
      var was := tables;
      r := RegisterHead(spec);
      if r.Err? {
        tables := was;
        return;
      }
      r := RegisterFiles(spec.key, files);
      if r.Err? {
        tables := was;
      }
    }

    method RegisterHead(spec: Spec) returns (r: Result<(), RegisterError>)
      requires Valid(tables)
      modifies this`tables
      ensures match WithHead(old(tables), spec)
              case Ok(t) => r == Ok(()) && tables == t
              case Err(e) => r == Err(e)
    {
      hide HeadOk, RequirementOk, RequirementsOk;
      var key := spec.key;
      if !HeadOk(key, spec.head) {
        return Err(Refused);
      }
      if key in tables.heads {
        var same := CheckRegistration(spec);
        r := if same then Ok(()) else Err(Conflict);
      } else {
        tables := tables.(heads := tables.heads[key := spec.head], requirements := tables.requirements[key := []]);
        var inserted := InsertRequirements(spec);
        r := if inserted then Ok(()) else Err(Refused);
      }
    }

    method InsertRequirements(spec: Spec) returns (ok: bool)
      requires spec.key in tables.requirements && tables.requirements[spec.key] == []
      modifies this`tables
      ensures ok <==> RequirementsOk(spec.requirements)
      ensures ok ==> tables == old(tables).(requirements := old(tables).requirements[spec.key := spec.requirements])
    {
      hide RequirementOk;
      ghost var was := tables;
      for position := 0 to |spec.requirements|
        invariant tables == was.(requirements := was.requirements[spec.key := spec.requirements[..position]])
        invariant RequirementsOk(spec.requirements[..position])
      {
        var r := spec.requirements[position];
        var rows := tables.requirements[spec.key];
        assert spec.requirements[..position + 1] == rows + [r];
        if !RequirementOk(r) {
          return false;
        }
        if exists i | 0 <= i < |rows| :: rows[i].key == r.key {
          return false;
        }
        tables := tables.(requirements := tables.requirements[spec.key := rows + [r]]);
      }
      assert spec.requirements[..|spec.requirements|] == spec.requirements;
      ok := true;
    }

    /** Compared in order, so reordering the checklist is a difference too. */
    method CheckRegistration(spec: Spec) returns (same: bool)
      requires spec.key in tables.heads && spec.key in tables.requirements
      ensures same <==> tables.heads[spec.key] == spec.head && tables.requirements[spec.key] == spec.requirements
    {
      var head := tables.heads[spec.key];
      if head.category != spec.head.category || head.difficulty != spec.head.difficulty
         || head.duration != spec.head.duration || head.image != spec.head.image {
        return false;
      }
      var rows := tables.requirements[spec.key];
      var registered: seq<Requirement> := [];
      for i := 0 to |rows|
        invariant registered == rows[..i]
      {
        registered := registered + [rows[i]];
      }
      assert rows[..|rows|] == rows;
      same := registered == spec.requirements;
    }

    /** Files are written only when the version has none, and then compared whoever wrote them. */
    method RegisterFiles(key: Key, files: seq<File>) returns (r: Result<(), RegisterError>)
      requires key in tables.heads && NeverEmpty(digest)
      modifies this`tables
      ensures tables.heads == old(tables).heads && tables.requirements == old(tables).requirements
      ensures r.Ok? ==> tables.files.Keys == old(tables).files.Keys + {key}
      ensures r.Ok? ==> Agrees(FilesStored(tables, key), files, digest)
      ensures !DistinctPaths(files) && FilesStored(old(tables), key) == map[] ==> r.Err?
      ensures Faithful(digest) && DistinctPaths(files) ==>
                match WithFiles(old(tables), key, files)
                case Ok(t) => r == Ok(()) && tables == t
                case Err(e) => r == Err(e)
    {
      hide FilesOk, Agrees, NeverEmpty, Faithful, DistinctPaths, AsTree;
      if |files| == 0 {
        return Err(NoWorkspace);
      }
      var stored := |FilesStored(tables, key)|;
      assert stored == 0 <==> FilesStored(tables, key) == map[];
      if stored == 0 {
        var inserted := InsertFiles(key, files);
        if !inserted {
          return Err(Refused);
        }
      }
      RepeatsNeverAgree(files, digest);
      hide FilesStored;
      if Faithful(digest) && DistinctPaths(files) {
        AgreesIffSameTree(FilesStored(tables, key), files, digest);
      }
      var same := CheckWorkspace(key, files);
      r := if same then Ok(()) else Err(Conflict);
    }

    method InsertFiles(key: Key, files: seq<File>) returns (ok: bool)
      requires FilesStored(tables, key) == map[] && files != []
      modifies this`tables
      ensures ok <==> FilesOk(files)
      ensures tables.heads == old(tables).heads && tables.requirements == old(tables).requirements
      ensures ok ==> tables == old(tables).(files := old(tables).files[key := AsTree(files)])
    {
      hide FileOk;
      ghost var was := tables;
      for i := 0 to |files|
        invariant FilesStored(tables, key) == AsTree(files[..i])
        invariant tables == if i == 0 then was else was.(files := was.files[key := AsTree(files[..i])])
        invariant FilesOk(files[..i])
      {
        var f := files[i];
        assert files[..i + 1][..i] == files[..i];
        if !FileOk(f) {
          return false;
        }
        var tree := FilesStored(tables, key);
        tables := tables.(files := tables.files[key := if f.path in tree then tree else tree[f.path := f.content]]);
        assert FilesOk(files[..i + 1]);
      }
      assert files[..|files|] == files;
      ok := true;
    }

    method CheckWorkspace(key: Key, files: seq<File>) returns (same: bool)
      requires NeverEmpty(digest)
      ensures same <==> Agrees(FilesStored(tables, key), files, digest)
    {
      var tree := FilesStored(tables, key);
      hide FilesStored, NeverEmpty, Digests, StoredDigest, FileAgrees;
      var registered := ReadDigests(tree);
      AsManyDigests(tree, digest);
      if |registered| != |files| {
        return false;
      }
      for i := 0 to |files|
        invariant forall j | 0 <= j < i :: FileAgrees(tree, files[j], digest)
      {
        DigestsDecide(tree, files[i], digest);
        if StoredDigest(registered, files[i].path) != digest(files[i].content) {
          return false;
        }
      }
      same := true;
    }

    method ReadDigests(tree: Tree) returns (registered: map<Path, string>)
      ensures registered == Digests(tree, digest)
    {
      registered := map[];
      var left := tree.Keys;
      while left != {}
        invariant left <= tree.Keys
        invariant registered == Digests(tree - left, digest)
        decreases |left|
      {
        var p :| p in left;
        registered := registered[p := digest(tree[p])];
        left := left - {p};
      }
      assert tree - left == tree;
    }
  }
}
