/** Which workspace paths are accepted. */
module Paths {
  import opened Rows
  import opened Text

  /** validPath, test by test. */
  predicate Valid(path: Path) {
    && path != "" && |path| <= 512
    && path[0] != '/' && path[|path| - 1] != '/' && !Doubled(path, '/')
    && 0 as char !in path
    && forall part | part in Split(path, '/') :: part != "." && part != ".."
  }

  /** What the tests amount to: every segment is a proper name. */
  predicate ProperSegments(path: Path) {
    forall part | part in Split(path, '/') :: part !in {"", ".", ".."}
  }

  lemma ValidMeansProperSegments(path: Path)
    ensures Valid(path) <==> |path| <= 512 && 0 as char !in path && ProperSegments(path)
  {
    EmptyParts(path, '/');
  }
}
