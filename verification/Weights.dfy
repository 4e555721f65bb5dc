/** How many bytes a tree of files holds, and how writes change it. */
module Weights {
  import opened Rows

  ghost function Total(tree: Tree): nat {
    if tree == map[] then 0
    else
      var p :| p in tree;
      |tree[p]| + Total(tree - {p})
  }

  lemma FirstCounted(tree: Tree) returns (q: Path)
    requires tree != map[]
    ensures q in tree && Total(tree) == |tree[q]| + Total(tree - {q})
  {
    q :| q in tree && Total(tree) == |tree[q]| + Total(tree - {q});
  }

  /** Any file may be counted first. */
  lemma {:induction false} Without(tree: Tree, p: Path)
    ensures p in tree ==> Total(tree) == |tree[p]| + Total(tree - {p})
    ensures p !in tree ==> tree - {p} == tree
    decreases |tree|
  {
    hide Total;
    if p in tree {
      var q := FirstCounted(tree);
      if q != p {
        Without(tree - {q}, p);
        Without(tree - {p}, q);
        assert tree - {q} - {p} == tree - {p} - {q};
      }
    }
  }

  /** A write counts the old size out and the new size in. */
  lemma Replace(tree: Tree, p: Path, content: Content)
    ensures Total(tree[p := content]) == Total(tree - {p}) + |content|
    ensures |tree[p := content]| == |tree - {p}| + 1
  {
    hide Total;
    var others := tree - {p};
    Without(tree[p := content], p);
    assert tree[p := content] - {p} == others;
    assert tree[p := content] == others[p := content];
    OneMoreFile(others, p, content);
  }

  lemma OneMoreFile(tree: Tree, p: Path, content: Content)
    requires p !in tree
    ensures |tree[p := content]| == |tree| + 1
  {
    assert tree[p := content].Keys == tree.Keys + {p};
    assert |tree[p := content].Keys| == |tree.Keys| + 1;
  }

  lemma Subset(a: set<Path>, b: set<Path>)
    requires a <= b
    ensures |a| <= |b|
  {
    assert b == a + (b - a);
    assert |b| == |a| + |b - a|;
  }
}
