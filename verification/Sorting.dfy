/** slices.SortFunc, for an order given as a function. */
module Sorting {

  predicate SortedBy<T>(s: seq<T>, leq: (T, T) -> bool) {
    forall i, j | 0 <= i < j < |s| :: leq(s[i], s[j])
  }

  ghost predicate TotalPreorder<T(!new)>(leq: (T, T) -> bool) {
    && (forall a, b :: leq(a, b) || leq(b, a))
    && (forall a, b, c :: leq(a, b) && leq(b, c) ==> leq(a, c))
  }

  method Sort<T(!new)>(s: seq<T>, leq: (T, T) -> bool) returns (out: seq<T>)
    requires TotalPreorder(leq)
    ensures SortedBy(out, leq) && multiset(out) == multiset(s)
  {
    out := [];
    for i := 0 to |s|
      invariant SortedBy(out, leq) && multiset(out) == multiset(s[..i])
    {
      hide SortedBy;
      assert s[..i + 1] == s[..i] + [s[i]];
      out := Insert(out, s[i], leq);
    }
    assert s[..|s|] == s;
  }

  method Insert<T(!new)>(sorted: seq<T>, x: T, leq: (T, T) -> bool) returns (out: seq<T>)
    requires TotalPreorder(leq) && SortedBy(sorted, leq)
    ensures SortedBy(out, leq) && multiset(out) == multiset(sorted) + multiset{x}
  {
    var at := |sorted|;
    while at > 0 && !leq(sorted[at - 1], x)
      invariant 0 <= at <= |sorted|
      invariant forall j | at <= j < |sorted| :: leq(x, sorted[j])
    {
      at := at - 1;
    }
    assert sorted == sorted[..at] + sorted[at..];
    out := sorted[..at] + [x] + sorted[at..];
    InsertedIsSorted(sorted, at, x, leq);
    hide SortedBy;
  }

  lemma InsertedIsSorted<T(!new)>(sorted: seq<T>, at: nat, x: T, leq: (T, T) -> bool)
    requires TotalPreorder(leq) && SortedBy(sorted, leq) && at <= |sorted|
    requires at > 0 ==> leq(sorted[at - 1], x)
    requires forall j | at <= j < |sorted| :: leq(x, sorted[j])
    ensures SortedBy(sorted[..at] + [x] + sorted[at..], leq)
  {
    var out := sorted[..at] + [x] + sorted[at..];
    forall i, j | 0 <= i < j < |out| ensures leq(out[i], out[j]) {
      var a := if i < at then i else i - 1;
      var b := if j < at then j else j - 1;
      assert i != at ==> out[i] == sorted[a];
      assert j != at ==> out[j] == sorted[b];
      assert j == at && i < at - 1 ==> leq(sorted[i], sorted[at - 1]);
    }
  }

  /** Nothing is lost and nothing invented. */
  lemma SameElements<T>(a: seq<T>, b: seq<T>)
    requires multiset(a) == multiset(b)
    ensures |a| == |b|
    ensures forall x :: x in a <==> x in b
  {
    assert |multiset(a)| == |a| && |multiset(b)| == |b|;
    assert forall x :: x in a <==> x in multiset(a);
    assert forall x :: x in b <==> x in multiset(b);
  }
}
