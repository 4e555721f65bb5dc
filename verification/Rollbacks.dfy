/**
 What rolling back undoes: the events a log ends up with, told from the calls alone.

 Nothing here looks at a transaction's view. Calls nest as their labels say, and an event belongs to
 every call it was inserted in; it is committed when all of them have returned without failing.
 */
module Rollbacks {
  import opened Prelude
  import opened Rows
  import opened EventLog

  // What the labels alone say.

  /** How many calls of t are open after the first n labels. */
  function Depth(labels: seq<Label>, n: nat, t: TxId): nat
    requires n <= |labels|
  {
    if n == 0 then 0
    else
      var d := Depth(labels, n - 1, t);
      var l := labels[n - 1];
      if l == Enter(t) then d + 1
      else if l == Leave(t) || l == Undo(t) then (if d == 0 then 0 else d - 1)
      else if l == Lost(t) then 0
      else d
  }

  /** The match t last drew a number for. */
  function LastBump(labels: seq<Label>, n: nat, t: TxId): Option<MatchId>
    requires n <= |labels|
  {
    if n == 0 then None
    else if labels[n - 1].Bump? && labels[n - 1].t == t then Some(labels[n - 1].m)
    else LastBump(labels, n - 1, t)
  }

  /** The call of t that was the d-th open one at p has returned without failing. */
  ghost predicate Left(labels: seq<Label>, p: nat, n: nat, t: TxId, d: nat)
    requires n <= |labels|
  {
    exists j | p < j < n ::
      labels[j] == Leave(t) && Depth(labels, j, t) == d && forall k | p < k <= j :: Depth(labels, k, t) >= d
  }

  /** Every call the event at p was inserted in has, by n, returned without failing. */
  ghost predicate EveryCallLeft(labels: seq<Label>, p: nat, n: nat)
    requires p < n <= |labels| && labels[p].Insert?
  {
    forall d | 1 <= d <= Depth(labels, p, labels[p].t) :: Left(labels, p, n, labels[p].t, d)
  }

  /** The events for m inserted by the first k labels whose every call has left by n, in the order they
      were inserted. */
  ghost function Lasting(labels: seq<Label>, k: nat, n: nat, m: MatchId): seq<(string, string)>
    requires k <= n <= |labels|
  {
    if k == 0 then []
    else
      var l := labels[k - 1];
      Lasting(labels, k - 1, n, m)
      + if l.Insert? && LastBump(labels, k - 1, l.t) == Some(m) && EveryCallLeft(labels, k - 1, n)
        then [(l.kind, l.payload)] else []
  }

  // Undoing one call.

  function DepthOf(s: Sys, t: TxId): nat {
    if t in s.txs then |s.txs[t].below| else 0
  }

  lemma {:induction false} DepthIsBelow(trace: seq<Sys>, labels: seq<Label>, n: nat, t: TxId)
    requires IsTrace(trace, labels) && n < |trace|
    ensures Depth(labels, n, t) == DepthOf(trace[n], t)
    ensures t in trace[n].txs ==> DepthOf(trace[n], t) > 0
  {
    hide Step;
    ReachableIsInv(trace, labels, n);
    assert t in trace[n].txs ==> TxOk(trace[n].logs, trace[n].txs[t]);
    hide Inv, TxOk;
    if n > 0 {
      DepthIsBelow(trace, labels, n - 1, t);
      assert Step(trace[n - 1], labels[n - 1], trace[n]);
      DepthStep(trace[n - 1], labels[n - 1], trace[n], t);
    }
  }

  lemma DepthStep(s: Sys, l: Label, s': Sys, t: TxId)
    requires Step(s, l, s') && (t in s.txs ==> DepthOf(s, t) > 0)
    ensures
      var d := DepthOf(s, t);
      DepthOf(s', t) ==
        if l == Enter(t) then d + 1
        else if l == Leave(t) || l == Undo(t) then (if d == 0 then 0 else d - 1)
        else if l == Lost(t) then 0
        else d
  {}

  /** What a call of t entered now is to go back to, on top of what the calls around it are. */
  function StackAfterEnter(s: Sys, t: TxId): seq<View> {
    if t in s.txs then s.txs[t].below + [s.txs[t].view] else [EMPTY]
  }

  ghost predicate Stacked(s: Sys, t: TxId, stack: seq<View>) {
    t in s.txs && stack <= s.txs[t].below
  }

  lemma StackStays(s: Sys, l: Label, s': Sys, t: TxId, stack: seq<View>)
    requires Step(s, l, s') && stack != [] && Stacked(s, t, stack) && DepthOf(s', t) >= |stack|
    ensures Stacked(s', t, stack)
  {}

  lemma StackBegins(s: Sys, t: TxId, s': Sys)
    requires Step(s, Enter(t), s')
    ensures Stacked(s', t, StackAfterEnter(s, t))
  {}

  /** While the call of t entered at i is open, what it goes back to is where t stood before. */
  lemma {:induction false} OpenCallRemembers(trace: seq<Sys>, labels: seq<Label>, i: nat, k: nat, t: TxId)
    requires IsTrace(trace, labels) && i < k < |trace| && labels[i] == Enter(t)
    requires forall k' | i < k' <= k :: Depth(labels, k', t) > Depth(labels, i, t)
    ensures Stacked(trace[k], t, StackAfterEnter(trace[i], t))
    decreases k
  {
    hide Step, Stacked;
    assert Step(trace[k - 1], labels[k - 1], trace[k]);
    if k == i + 1 {
      StackBegins(trace[i], t, trace[k]);
    } else {
      OpenCallRemembers(trace, labels, i, k - 1, t);
      DepthIsBelow(trace, labels, i, t);
      DepthIsBelow(trace, labels, k, t);
      StackStays(trace[k - 1], labels[k - 1], trace[k], t, StackAfterEnter(trace[i], t));
    }
  }

  /** A call that fails leaves its transaction as the call found it, whatever was done in it and however
      many calls were made inside; the outermost call that fails leaves no transaction. Either way
      nothing committed changes. */
  lemma UndoRestores(trace: seq<Sys>, labels: seq<Label>, i: nat, j: nat, t: TxId)
    requires IsTrace(trace, labels) && i < j < |labels| && labels[i] == Enter(t) && labels[j] == Undo(t)
    requires Depth(labels, j, t) == Depth(labels, i, t) + 1
    requires forall k | i < k <= j :: Depth(labels, k, t) > Depth(labels, i, t)
    ensures t in trace[j + 1].txs <==> t in trace[i].txs
    ensures t in trace[i].txs ==> trace[j + 1].txs[t] == trace[i].txs[t]
    ensures trace[j + 1].logs == trace[j].logs
  {
    OpenCallRemembers(trace, labels, i, j, t);
    DepthIsBelow(trace, labels, i, t);
    DepthIsBelow(trace, labels, j, t);
    assert Step(trace[j], labels[j], trace[j + 1]);
    hide Depth;
    if t in trace[i].txs {
      var was := trace[i].txs[t];
      assert trace[j].txs[t].below == was.below + [was.view];
    }
  }

  // The way of one event.

  /** Where an event is on its way: in the hands of the level-th open call, committed, or gone. */
  datatype Fate = Open(level: nat) | Kept | Gone

  function FateOf(labels: seq<Label>, p: nat, n: nat): Fate
    requires p < n <= |labels| && labels[p].Insert?
  {
    var t := labels[p].t;
    if n == p + 1 then Open(Depth(labels, p, t))
    else
      var f := FateOf(labels, p, n - 1);
      var l := labels[n - 1];
      if !f.Open? then f
      else if l == Lost(t) then Gone
      else if f.level != Depth(labels, n - 1, t) then f
      else if l == Undo(t) then Gone
      else if l == Leave(t) then (if f.level <= 1 then Kept else Open(f.level - 1))
      else f
  }

  /** What a fate says of the calls around the event. */
  ghost predicate FateMeans(labels: seq<Label>, p: nat, n: nat, f: Fate)
    requires p < n <= |labels| && labels[p].Insert?
  {
    var t := labels[p].t;
    var depth := Depth(labels, p, t);
    match f
    case Open(l) =>
      && 1 <= l <= depth && (forall k | p < k <= n :: Depth(labels, k, t) >= l)
      && (forall d | 1 <= d <= depth :: Left(labels, p, n, t, d) <==> d > l)
    case Kept => EveryCallLeft(labels, p, n)
    case Gone => exists d | 1 <= d <= depth :: Ended(labels, p, n, t, d) && !Left(labels, p, n, t, d)
  }

  /** The call of t that was the d-th open one at p is over. */
  ghost predicate Ended(labels: seq<Label>, p: nat, n: nat, t: TxId, d: nat)
    requires n <= |labels|
  {
    exists k | p < k <= n :: Depth(labels, k, t) < d
  }

  lemma LeftStep(labels: seq<Label>, p: nat, n: nat, t: TxId, d: nat)
    requires p < n < |labels|
    ensures Left(labels, p, n, t, d) ==> Left(labels, p, n + 1, t, d)
    ensures Left(labels, p, n + 1, t, d) && !Left(labels, p, n, t, d) ==>
              && labels[n] == Leave(t) && Depth(labels, n, t) == d
              && forall k | p < k <= n :: Depth(labels, k, t) >= d
    ensures labels[n] == Leave(t) && Depth(labels, n, t) == d && (forall k | p < k <= n :: Depth(labels, k, t) >= d)
            ==> Left(labels, p, n + 1, t, d)
  {
    hide Depth;
  }

  /** The gone stay gone: the call that failed cannot leave any more. */
  lemma GoneStays(labels: seq<Label>, p: nat, n: nat)
    requires p < n < |labels| && labels[p].Insert? && FateMeans(labels, p, n, Gone)
    ensures FateMeans(labels, p, n + 1, Gone)
  {
    hide Depth, Left;
    var t := labels[p].t;
    var d :| 1 <= d <= Depth(labels, p, t) && Ended(labels, p, n, t, d) && !Left(labels, p, n, t, d);
    LeftStep(labels, p, n, t, d);
  }

  lemma KeptStays(labels: seq<Label>, p: nat, n: nat)
    requires p < n < |labels| && labels[p].Insert? && FateMeans(labels, p, n, Kept)
    ensures FateMeans(labels, p, n + 1, Kept)
  {
    hide Depth, Left;
    var t, after := labels[p].t, n + 1;
    forall d | 1 <= d <= Depth(labels, p, t) ensures Left(labels, p, after, t, d) {
      LeftStep(labels, p, n, t, d);
    }
  }

  lemma DepthMoves(labels: seq<Label>, n: nat, t: TxId)
    requires n < |labels|
    ensures
      var d, d' := Depth(labels, n, t), Depth(labels, n + 1, t);
      && (labels[n] == Leave(t) || labels[n] == Undo(t) ==> d' == if d == 0 then 0 else d - 1)
      && (labels[n] == Lost(t) ==> d' == 0)
      && (labels[n] != Leave(t) && labels[n] != Undo(t) && labels[n] != Lost(t) ==> d' >= d)
      && (labels[n] != Enter(t) && labels[n] != Leave(t) && labels[n] != Undo(t) && labels[n] != Lost(t) ==> d' == d)
  {}

  /** What becomes of an open event's fate, and what that says of the calls. */
  lemma OpenMoves(labels: seq<Label>, p: nat, n: nat)
    requires p < n < |labels| && labels[p].Insert?
    requires FateOf(labels, p, n).Open? && FateMeans(labels, p, n, FateOf(labels, p, n))
    ensures FateMeans(labels, p, n + 1, FateOf(labels, p, n + 1))
  {
    var t, after := labels[p].t, n + 1;
    var l := FateOf(labels, p, n).level;
    DepthMoves(labels, n, t);
    forall d | 1 <= d <= Depth(labels, p, t)
      ensures Left(labels, p, after, t, d) <==>
              d > l || (d == l && labels[n] == Leave(t) && Depth(labels, n, t) == l)
    {
      LeftStep(labels, p, n, t, d);
    }
    FateUnfolds(labels, p, n);
    hide Depth, Left, FateOf;
    if labels[n] == Lost(t) {
      GoneAt(labels, p, n, l);
    } else if l == Depth(labels, n, t) && labels[n] == Undo(t) {
      GoneAt(labels, p, n, l);
    }
  }

  lemma GoneAt(labels: seq<Label>, p: nat, n: nat, d: nat)
    requires p < n < |labels| && labels[p].Insert?
    requires 1 <= d <= Depth(labels, p, labels[p].t)
    requires !Left(labels, p, n + 1, labels[p].t, d) && Depth(labels, n + 1, labels[p].t) < d
    ensures FateMeans(labels, p, n + 1, Gone)
  {
    hide Depth, Left;
    assert Ended(labels, p, n + 1, labels[p].t, d);
  }

  lemma FateUnfolds(labels: seq<Label>, p: nat, n: nat)
    requires p < n < |labels| && labels[p].Insert?
    ensures
      var t, f, l := labels[p].t, FateOf(labels, p, n), labels[n];
      FateOf(labels, p, n + 1) ==
        if !f.Open? then f
        else if l == Lost(t) then Gone
        else if f.level != Depth(labels, n, t) then f
        else if l == Undo(t) then Gone
        else if l == Leave(t) then (if f.level <= 1 then Kept else Open(f.level - 1))
        else f
  {
    hide Depth;
  }

  lemma {:induction false} FateIsMeant(labels: seq<Label>, p: nat, n: nat)
    requires p < n <= |labels| && labels[p].Insert? && Depth(labels, p, labels[p].t) > 0
    ensures FateMeans(labels, p, n, FateOf(labels, p, n))
    decreases n
  {
    if n == p + 1 {
      DepthMoves(labels, p, labels[p].t);
      hide Depth;
    } else {
      FateIsMeant(labels, p, n - 1);
      FateUnfolds(labels, p, n - 1);
      hide FateMeans;
      match FateOf(labels, p, n - 1)
      case Open(_) => OpenMoves(labels, p, n - 1);
      case Kept => KeptStays(labels, p, n - 1);
      case Gone => GoneStays(labels, p, n - 1);
    }
  }

  /** An event is kept exactly when every call around it has left. */
  lemma KeptMeansEveryCallLeft(labels: seq<Label>, p: nat, n: nat)
    requires p < n <= |labels| && labels[p].Insert? && Depth(labels, p, labels[p].t) > 0
    ensures FateOf(labels, p, n) == Kept <==> EveryCallLeft(labels, p, n)
  {
    FateIsMeant(labels, p, n);
    hide Depth, FateOf, Left;
    var f := FateOf(labels, p, n);
    if f.Open? {
      assert !Left(labels, p, n, labels[p].t, f.level);
    }
  }

  lemma InsertsAreInCalls(trace: seq<Sys>, labels: seq<Label>, p: nat)
    requires IsTrace(trace, labels) && p < |labels| && labels[p].Insert?
    ensures Depth(labels, p, labels[p].t) > 0
  {
    DepthIsBelow(trace, labels, p, labels[p].t);
    assert Step(trace[p], labels[p], trace[p + 1]);
    hide Depth;
  }

  /** Whatever is still open is in the hands of a call that is. */
  ghost predicate LevelsOk(labels: seq<Label>, n: nat)
    requires n <= |labels|
  {
    forall p | 0 <= p < n && labels[p].Insert? && FateOf(labels, p, n).Open? ::
      1 <= FateOf(labels, p, n).level <= Depth(labels, n, labels[p].t)
  }

  lemma LevelsAreOk(trace: seq<Sys>, labels: seq<Label>, n: nat)
    requires IsTrace(trace, labels) && n <= |labels|
    ensures LevelsOk(labels, n)
  {
    hide IsTrace, FateOf, Depth, Left;
    forall p | 0 <= p < n && labels[p].Insert? && FateOf(labels, p, n).Open?
      ensures 1 <= FateOf(labels, p, n).level <= Depth(labels, n, labels[p].t)
    {
      InsertsAreInCalls(trace, labels, p);
      FateIsMeant(labels, p, n);
    }
  }

  lemma {:induction false} BumpedIsLast(trace: seq<Sys>, labels: seq<Label>, n: nat, t: TxId)
    requires IsTrace(trace, labels) && n < |trace| && t in trace[n].txs && trace[n].txs[t].view.bumped.Some?
    ensures LastBump(labels, n, t) == trace[n].txs[t].view.bumped
  {
    hide Step, Inv;
    if n > 0 {
      ReachableIsInv(trace, labels, n - 1);
      assert Step(trace[n - 1], labels[n - 1], trace[n]);
      BumpStep(trace[n - 1], labels[n - 1], trace[n], t);
      if labels[n - 1] != Bump(t, trace[n].txs[t].view.bumped.value) {
        BumpedIsLast(trace, labels, n - 1, t);
      }
    }
  }

  lemma BumpStep(s: Sys, l: Label, s': Sys, t: TxId)
    requires Inv(s) && Step(s, l, s') && t in s'.txs && s'.txs[t].view.bumped.Some?
    ensures
      || l == Bump(t, s'.txs[t].view.bumped.value)
      || ((l.Bump? ==> l.t != t) && t in s.txs && s.txs[t].view.bumped == s'.txs[t].view.bumped)
  {
    assert t in s.txs ==> TxOk(s.logs, s.txs[t]);
    hide ViewOk, ClientOk;
  }

  // What a view holds.

  function TextsOf(events: seq<Event>): (texts: seq<(string, string)>)
    ensures |texts| == |events|
    ensures forall i | 0 <= i < |events| :: texts[i] == (events[i].kind, events[i].payload)
  {
    seq(|events|, i requires 0 <= i < |events| => (events[i].kind, events[i].payload))
  }

  predicate InsertFor(labels: seq<Label>, p: nat, m: MatchId)
    requires p < |labels|
  {
    labels[p].Insert? && LastBump(labels, p, labels[p].t) == Some(m)
  }

  /** Whether the event at p is committed by n, or in the hands of one of the first d calls of t. */
  ghost predicate Counts(labels: seq<Label>, p: nat, n: nat, t: TxId, d: nat)
    requires p < n <= |labels| && labels[p].Insert?
  {
    var f := FateOf(labels, p, n);
    f == Kept || (labels[p].t == t && f.Open? && f.level <= d)
  }

  /** The events for m among the first k labels that count. */
  ghost function Counted(labels: seq<Label>, k: nat, n: nat, m: MatchId, t: TxId, d: nat): seq<(string, string)>
    requires k <= n <= |labels|
  {
    if k == 0 then []
    else
      Counted(labels, k - 1, n, m, t, d)
      + if InsertFor(labels, k - 1, m) && Counts(labels, k - 1, n, t, d)
        then [(labels[k - 1].kind, labels[k - 1].payload)] else []
  }

  ghost predicate SameCounts(labels: seq<Label>, n: nat, m: MatchId, t: TxId, d: nat, n': nat, t': TxId, d': nat)
    requires n <= n' <= |labels|
  {
    forall p | 0 <= p < n && InsertFor(labels, p, m) :: Counts(labels, p, n', t', d') <==> Counts(labels, p, n, t, d)
  }

  lemma {:induction false} SameCounted(
      labels: seq<Label>, k: nat, n: nat, m: MatchId, t: TxId, d: nat, n': nat, t': TxId, d': nat)
    requires k <= n <= n' <= |labels| && SameCounts(labels, n, m, t, d, n', t', d')
    ensures Counted(labels, k, n', m, t', d') == Counted(labels, k, n, m, t, d)
  {
    hide Counts, InsertFor;
    if k > 0 {
      SameCounted(labels, k - 1, n, m, t, d, n', t', d');
    }
  }

  /** No event for m is in the hands of the first d calls of t. */
  ghost predicate NoneOpen(labels: seq<Label>, n: nat, m: MatchId, t: TxId, d: nat)
    requires n <= |labels|
  {
    forall p | 0 <= p < n && InsertFor(labels, p, m) && labels[p].t == t ::
      !(FateOf(labels, p, n).Open? && FateOf(labels, p, n).level <= d)
  }

  /** The view of the d-th open call holds what is committed and what these calls have inserted. */
  ghost predicate ViewAgrees(labels: seq<Label>, n: nat, t: TxId, d: nat, v: View)
    requires n <= |labels|
  {
    && (forall m | m in v.logs :: TextsOf(v.logs[m].events) == Counted(labels, n, n, m, t, d))
    && (forall m | m !in v.logs :: NoneOpen(labels, n, m, t, d))
  }

  /** below[d] is where t stood when it had d calls open. */
  function ViewAt(tx: Tx, d: nat): View
    requires d <= |tx.below|
  {
    if d < |tx.below| then tx.below[d] else tx.view
  }

  ghost predicate LogsAgree(labels: seq<Label>, n: nat, logs: map<MatchId, Log>)
    requires n <= |labels|
  {
    forall m | m in logs :: TextsOf(logs[m].events) == Counted(labels, n, n, m, 0, 0)
  }

  ghost predicate TxAgrees(labels: seq<Label>, n: nat, t: TxId, tx: Tx)
    requires n <= |labels|
  {
    forall d | 0 <= d <= |tx.below| :: ViewAgrees(labels, n, t, d, ViewAt(tx, d))
  }

  ghost predicate Agrees(s: Sys, labels: seq<Label>, n: nat)
    requires n <= |labels|
  {
    LogsAgree(labels, n, s.logs) && forall t | t in s.txs :: TxAgrees(labels, n, t, s.txs[t])
  }

  // How the counts move.

  predicate Ends(l: Label, t: TxId) {
    l == Leave(t) || l == Undo(t) || l == Lost(t)
  }

  /** Step n + 1 neither ends one of the first d calls of t nor commits an event for m. */
  ghost predicate Spares(labels: seq<Label>, n: nat, m: MatchId, t: TxId, d: nat)
    requires n < |labels|
  {
    var l := labels[n];
    && (d > 0 && Ends(l, t) ==> !l.Lost? && d < Depth(labels, n, t) && (l.Leave? ==> d + 1 < Depth(labels, n, t)))
    && (l.Leave? ==> Depth(labels, n, l.t) > 1 || NoneOpen(labels, n, m, l.t, 1))
  }

  lemma StillCounts(labels: seq<Label>, n: nat, m: MatchId, t: TxId, d: nat)
    requires n < |labels| && LevelsOk(labels, n) && Spares(labels, n, m, t, d)
    ensures SameCounts(labels, n, m, t, d, n + 1, t, d)
  {
    hide Depth, FateOf;
    forall p | 0 <= p < n && InsertFor(labels, p, m)
      ensures Counts(labels, p, n + 1, t, d) <==> Counts(labels, p, n, t, d)
    {
      FateUnfolds(labels, p, n);
    }
  }

  /** What a call that leaves hands to the one it was made in. */
  lemma HandedUp(labels: seq<Label>, n: nat, m: MatchId, t: TxId)
    requires n < |labels| && LevelsOk(labels, n) && labels[n] == Leave(t) && Depth(labels, n, t) > 1
    ensures SameCounts(labels, n, m, t, Depth(labels, n, t), n + 1, t, Depth(labels, n, t) - 1)
  {
    hide Depth, FateOf;
    var d := Depth(labels, n, t);
    forall p | 0 <= p < n && InsertFor(labels, p, m)
      ensures Counts(labels, p, n + 1, t, d - 1) <==> Counts(labels, p, n, t, d)
    {
      FateUnfolds(labels, p, n);
    }
  }

  /** What the outermost call commits when it leaves. */
  lemma Committed(labels: seq<Label>, n: nat, m: MatchId, t: TxId)
    requires n < |labels| && LevelsOk(labels, n) && labels[n] == Leave(t) && Depth(labels, n, t) == 1
    ensures SameCounts(labels, n, m, t, 1, n + 1, 0, 0)
  {
    hide Depth, FateOf;
    forall p | 0 <= p < n && InsertFor(labels, p, m)
      ensures Counts(labels, p, n + 1, 0, 0) <==> Counts(labels, p, n, t, 1)
    {
      FateUnfolds(labels, p, n);
      assert !(FateOf(labels, p, n + 1).Open? && FateOf(labels, p, n + 1).level <= 0);
    }
  }

  lemma CountedOneMore(labels: seq<Label>, n: nat, m: MatchId, t: TxId, d: nat)
    requires n < |labels|
    ensures
      Counted(labels, n + 1, n + 1, m, t, d) ==
        Counted(labels, n, n + 1, m, t, d)
        + if InsertFor(labels, n, m) && labels[n].t == t && Depth(labels, n, t) <= d
          then [(labels[n].kind, labels[n].payload)] else []
  {
    hide Depth;
  }

  /** Nothing new counts for m with the first d calls of t. */
  predicate AddsNothing(labels: seq<Label>, n: nat, m: MatchId, t: TxId, d: nat)
    requires n < |labels|
  {
    !(InsertFor(labels, n, m) && labels[n].t == t && Depth(labels, n, t) <= d)
  }

  lemma CountedStays(labels: seq<Label>, n: nat, m: MatchId, t: TxId, d: nat)
    requires n < |labels| && LevelsOk(labels, n) && Spares(labels, n, m, t, d) && AddsNothing(labels, n, m, t, d)
    ensures Counted(labels, n + 1, n + 1, m, t, d) == Counted(labels, n, n, m, t, d)
  {
    StillCounts(labels, n, m, t, d);
    SameCounted(labels, n, n, m, t, d, n + 1, t, d);
    CountedOneMore(labels, n, m, t, d);
    hide Counted, SameCounts, Spares, LevelsOk, Depth;
  }

  /** For what t holds, only its own calls matter. */
  predicate SparesOwn(labels: seq<Label>, n: nat, t: TxId, d: nat)
    requires n < |labels|
  {
    var l := labels[n];
    && (l.Insert? && l.t == t ==> Depth(labels, n, t) > d)
    && (Ends(l, t) ==> d == 0 || (!l.Lost? && d < Depth(labels, n, t) && (l.Leave? ==> d + 1 < Depth(labels, n, t))))
  }

  lemma NoneOpenStays(labels: seq<Label>, n: nat, m: MatchId, t: TxId, d: nat)
    requires n < |labels| && LevelsOk(labels, n) && SparesOwn(labels, n, t, d) && NoneOpen(labels, n, m, t, d)
    ensures NoneOpen(labels, n + 1, m, t, d)
  {
    hide Depth, FateOf;
    forall p | 0 <= p < n + 1 && InsertFor(labels, p, m) && labels[p].t == t
      ensures !(FateOf(labels, p, n + 1).Open? && FateOf(labels, p, n + 1).level <= d)
    {
      if p < n {
        FateUnfolds(labels, p, n);
      } else {
        FateBegins(labels, n);
      }
    }
  }

  lemma FateBegins(labels: seq<Label>, p: nat)
    requires p < |labels| && labels[p].Insert?
    ensures FateOf(labels, p, p + 1) == Open(Depth(labels, p, labels[p].t))
  {}

  /** Whoever commits holds nothing of the logs in v. */
  ghost predicate CommitsElsewhere(labels: seq<Label>, n: nat, v: View)
    requires n < |labels|
  {
    labels[n].Leave? && Depth(labels, n, labels[n].t) <= 1 ==>
      forall m | m in v.logs :: NoneOpen(labels, n, m, labels[n].t, 1)
  }

  lemma ViewStays(labels: seq<Label>, n: nat, t: TxId, d: nat, v: View)
    requires n < |labels| && LevelsOk(labels, n) && ViewAgrees(labels, n, t, d, v)
    requires SparesOwn(labels, n, t, d) && CommitsElsewhere(labels, n, v)
    ensures ViewAgrees(labels, n + 1, t, d, v)
  {
    hide Depth, Counted, NoneOpen, LevelsOk;
    forall m | m in v.logs ensures TextsOf(v.logs[m].events) == Counted(labels, n + 1, n + 1, m, t, d) {
      CountedStays(labels, n, m, t, d);
    }
    forall m | m !in v.logs ensures NoneOpen(labels, n + 1, m, t, d) {
      NoneOpenStays(labels, n, m, t, d);
    }
  }

  /** The view of a call that leaves is then that of the call it was made in. */
  lemma ViewHandedUp(labels: seq<Label>, n: nat, t: TxId, v: View)
    requires n < |labels| && LevelsOk(labels, n) && labels[n] == Leave(t) && Depth(labels, n, t) > 1
    requires ViewAgrees(labels, n, t, Depth(labels, n, t), v)
    ensures ViewAgrees(labels, n + 1, t, Depth(labels, n, t) - 1, v)
  {
    hide Depth, Counted, NoneOpen, LevelsOk;
    var d := Depth(labels, n, t);
    forall m | m in v.logs ensures TextsOf(v.logs[m].events) == Counted(labels, n + 1, n + 1, m, t, d - 1) {
      HandedUp(labels, n, m, t);
      SameCounted(labels, n, n, m, t, d, n + 1, t, d - 1);
      CountedOneMore(labels, n, m, t, d - 1);
    }
    forall m | m !in v.logs ensures NoneOpen(labels, n + 1, m, t, d - 1) {
      NoneOpenHandedUp(labels, n, m, t);
    }
  }

  lemma NoneOpenHandedUp(labels: seq<Label>, n: nat, m: MatchId, t: TxId)
    requires n < |labels| && LevelsOk(labels, n) && labels[n] == Leave(t) && Depth(labels, n, t) > 1
    requires NoneOpen(labels, n, m, t, Depth(labels, n, t))
    ensures NoneOpen(labels, n + 1, m, t, Depth(labels, n, t) - 1)
  {
    hide Depth, FateOf;
    forall p | 0 <= p < n + 1 && InsertFor(labels, p, m) && labels[p].t == t
      ensures !(FateOf(labels, p, n + 1).Open? && FateOf(labels, p, n + 1).level <= Depth(labels, n, t) - 1)
    {
      FateUnfolds(labels, p, n);
    }
  }

  // Every step keeps logs and views in agreement with the labels.

  /** The state after n labels, and what every step below relies on. */
  ghost predicate Stands(s: Sys, labels: seq<Label>, n: nat)
    requires n <= |labels|
  {
    && Inv(s) && LevelsOk(labels, n) && Agrees(s, labels, n)
    && (forall t :: Depth(labels, n, t) == DepthOf(s, t))
    && (forall t | t in s.txs :: DepthOf(s, t) > 0)
    && (forall t | t in s.txs && s.txs[t].view.bumped.Some? :: LastBump(labels, n, t) == s.txs[t].view.bumped)
  }

  lemma NothingHeld(labels: seq<Label>, n: nat, t: TxId, d: nat)
    requires n <= |labels| && LevelsOk(labels, n) && Depth(labels, n, t) == 0
    ensures ViewAgrees(labels, n, t, d, EMPTY)
  {
    hide Depth, FateOf;
  }

  /** A call that has done nothing yet stands where the one around it does. */
  lemma OneDeeper(labels: seq<Label>, n: nat, t: TxId, v: View)
    requires n <= |labels| && LevelsOk(labels, n) && ViewAgrees(labels, n, t, Depth(labels, n, t), v)
    ensures ViewAgrees(labels, n, t, Depth(labels, n, t) + 1, v)
  {
    hide Depth, FateOf, Counted;
    var d := Depth(labels, n, t);
    forall m | m in v.logs ensures Counted(labels, n, n, m, t, d + 1) == Counted(labels, n, n, m, t, d) {
      SameCounted(labels, n, n, m, t, d, n, t, d + 1);
    }
  }

  /** A drawn number is no event. */
  lemma BumpAgrees(labels: seq<Label>, n: nat, t: TxId, d: nat, logs: map<MatchId, Log>, v: View, m: MatchId)
    requires n <= |labels| && LevelsOk(labels, n) && LogsAgree(labels, n, logs) && m in logs
    requires ViewAgrees(labels, n, t, d, v)
    ensures
      var l := if m in v.logs then v.logs[m] else logs[m];
      ViewAgrees(labels, n, t, d, View(v.logs[m := Log(l.eventSeq + 1, l.events)], Some(m)))
  {
    hide Depth, FateOf, Counted;
    if m !in v.logs {
      SameCounted(labels, n, n, m, 0, 0, n, t, d);
    }
  }

  /** The inserted event is the latest that counts. */
  lemma InsertAgrees(labels: seq<Label>, n: nat, v: View, m: MatchId)
    requires n < |labels| && labels[n].Insert? && LevelsOk(labels, n) && m in v.logs
    requires LastBump(labels, n, labels[n].t) == Some(m)
    requires ViewAgrees(labels, n, labels[n].t, Depth(labels, n, labels[n].t), v)
    ensures
      var Insert(t, kind, payload) := labels[n];
      var l := v.logs[m];
      ViewAgrees(labels, n + 1, t, Depth(labels, n, t),
                 View(v.logs[m := Log(l.eventSeq, l.events + [Event(l.eventSeq, kind, payload)])], None))
  {
    hide Depth, Counted, LevelsOk, FateOf, NoneOpen, LastBump;
    var Insert(t, kind, payload) := labels[n];
    var d := Depth(labels, n, t);
    forall k | k in v.logs && k != m ensures Counted(labels, n + 1, n + 1, k, t, d) == Counted(labels, n, n, k, t, d) {
      CountedStays(labels, n, k, t, d);
    }
    StillCounts(labels, n, m, t, d);
    SameCounted(labels, n, n, m, t, d, n + 1, t, d);
    CountedOneMore(labels, n, m, t, d);
    var l := v.logs[m];
    assert TextsOf(l.events + [Event(l.eventSeq, kind, payload)]) == TextsOf(l.events) + [(kind, payload)];
    forall k | k !in v.logs ensures NoneOpen(labels, n + 1, k, t, d) {
      InsertedElsewhere(labels, n, k, d);
    }
  }

  lemma InsertedElsewhere(labels: seq<Label>, n: nat, m: MatchId, d: nat)
    requires n < |labels| && labels[n].Insert? && LastBump(labels, n, labels[n].t) != Some(m)
    requires NoneOpen(labels, n, m, labels[n].t, d)
    ensures NoneOpen(labels, n + 1, m, labels[n].t, d)
  {
    hide Depth, FateOf, LastBump;
    var t := labels[n].t;
    forall p | 0 <= p < n + 1 && InsertFor(labels, p, m) && labels[p].t == t
      ensures !(FateOf(labels, p, n + 1).Open? && FateOf(labels, p, n + 1).level <= d)
    {
      FateUnfolds(labels, p, n);
    }
  }

  lemma LogsStay(s: Sys, labels: seq<Label>, n: nat)
    requires n < |labels| && LevelsOk(labels, n) && LogsAgree(labels, n, s.logs)
    requires labels[n].Insert? ==> Depth(labels, n, labels[n].t) > 0
    requires labels[n].Leave? ==> Depth(labels, n, labels[n].t) > 1
    ensures LogsAgree(labels, n + 1, s.logs)
  {
    hide Depth, Counted, LevelsOk;
    forall m | m in s.logs ensures Counted(labels, n + 1, n + 1, m, 0, 0) == Counted(labels, n, n, m, 0, 0) {
      CountedStays(labels, n, m, 0, 0);
    }
  }

  lemma LogsCommitted(s: Sys, labels: seq<Label>, n: nat)
    requires n < |labels| && labels[n].Leave? && Depth(labels, n, labels[n].t) == 1
    requires LevelsOk(labels, n) && LogsAgree(labels, n, s.logs)
    requires labels[n].t in s.txs && ViewAgrees(labels, n, labels[n].t, 1, s.txs[labels[n].t].view)
    ensures LogsAgree(labels, n + 1, s.logs + s.txs[labels[n].t].view.logs)
  {
    hide Depth, Counted, LevelsOk, NoneOpen;
    var t := labels[n].t;
    var v := s.txs[t].view;
    var logs := s.logs + v.logs;
    forall m | m in logs ensures TextsOf(logs[m].events) == Counted(labels, n + 1, n + 1, m, 0, 0) {
      if m in v.logs {
        Committed(labels, n, m, t);
        SameCounted(labels, n, n, m, t, 1, n + 1, 0, 0);
        CountedOneMore(labels, n, m, 0, 0);
      } else {
        CountedStays(labels, n, m, 0, 0);
      }
    }
  }

  /** Everybody else's views stay as they are, and right. */
  lemma OthersAgree(s: Sys, labels: seq<Label>, n: nat, t: TxId)
    requires n < |labels| && Stands(s, labels, n) && t in s.txs
    requires labels[n].Poll? || labels[n].t != t
    requires labels[n].Leave? ==> labels[n].t in s.txs
    ensures TxAgrees(labels, n + 1, t, s.txs[t])
  {
    hide Depth, LevelsOk, FateOf, NoneOpen, LogsAgree, LastBump;
    var tx := s.txs[t];
    assert TxOk(s.logs, tx) && TxAgrees(labels, n, t, tx);
    hide ViewOk, ClientOk;
    forall d | 0 <= d <= |tx.below| ensures ViewAgrees(labels, n + 1, t, d, ViewAt(tx, d)) {
      assert ViewAgrees(labels, n, t, d, ViewAt(tx, d));
      if labels[n].Leave? {
        var u := labels[n].t;
        assert TxAgrees(labels, n, u, s.txs[u]);
        assert Depth(labels, n, u) == 1 ==> ViewAgrees(labels, n, u, 1, ViewAt(s.txs[u], 1));
      }
      ViewStays(labels, n, t, d, ViewAt(tx, d));
    }
  }

  /** The views below d are those of calls the step does not end. */
  lemma BelowAgrees(s: Sys, labels: seq<Label>, n: nat, t: TxId, d: nat)
    requires n < |labels| && Stands(s, labels, n) && t in s.txs && d <= |s.txs[t].below|
    requires SparesOwn(labels, n, t, d) && (labels[n].Leave? ==> labels[n].t == t && Depth(labels, n, t) > 1)
    ensures ViewAgrees(labels, n + 1, t, d, ViewAt(s.txs[t], d))
  {
    hide Depth, LevelsOk, FateOf, NoneOpen, LogsAgree, LastBump, Inv;
    assert TxAgrees(labels, n, t, s.txs[t]);
    ViewStays(labels, n, t, d, ViewAt(s.txs[t], d));
  }

  lemma EnterAgrees(s: Sys, labels: seq<Label>, n: nat, t: TxId, s': Sys)
    requires n < |labels| && Stands(s, labels, n) && labels[n] == Enter(t) && Step(s, Enter(t), s')
    ensures TxAgrees(labels, n + 1, t, s'.txs[t])
  {
    hide Depth, LevelsOk, ViewAgrees, LogsAgree, LastBump, Inv;
    var tx' := s'.txs[t];
    if t in s.txs {
      var tx := s.txs[t];
      var depth := |tx.below|;
      assert TxAgrees(labels, n, t, tx);
      assert ViewAgrees(labels, n, t, depth, ViewAt(tx, depth));
      OneDeeper(labels, n, t, tx.view);
      ViewStays(labels, n, t, depth + 1, tx.view);
      forall d | 0 <= d <= depth ensures ViewAgrees(labels, n + 1, t, d, ViewAt(tx', d)) {
        BelowAgrees(s, labels, n, t, d);
      }
    } else {
      forall d | 0 <= d <= 1 ensures ViewAgrees(labels, n + 1, t, d, ViewAt(tx', d)) {
        NothingHeld(labels, n, t, d);
        ViewStays(labels, n, t, d, EMPTY);
      }
    }
  }

  lemma BumpKeepsAgreement(s: Sys, labels: seq<Label>, n: nat, t: TxId, m: MatchId, s': Sys)
    requires n < |labels| && Stands(s, labels, n) && labels[n] == Bump(t, m) && Step(s, Bump(t, m), s')
    ensures TxAgrees(labels, n + 1, t, s'.txs[t])
  {
    hide Depth, LevelsOk, ViewAgrees, LogsAgree, LastBump, Inv;
    var tx, tx' := s.txs[t], s'.txs[t];
    var depth := |tx.below|;
    assert TxAgrees(labels, n, t, tx);
    assert ViewAgrees(labels, n, t, depth, ViewAt(tx, depth));
    BumpAgrees(labels, n, t, depth, s.logs, tx.view, m);
    ViewStays(labels, n, t, depth, tx'.view);
    forall d | 0 <= d < depth ensures ViewAgrees(labels, n + 1, t, d, ViewAt(tx', d)) {
      BelowAgrees(s, labels, n, t, d);
    }
  }

  lemma InsertKeepsAgreement(s: Sys, labels: seq<Label>, n: nat, s': Sys)
    requires n < |labels| && Stands(s, labels, n) && labels[n].Insert? && Step(s, labels[n], s')
    ensures TxAgrees(labels, n + 1, labels[n].t, s'.txs[labels[n].t])
  {
    hide Depth, LevelsOk, ViewAgrees, LogsAgree, LastBump, Inv;
    var t := labels[n].t;
    var tx, tx' := s.txs[t], s'.txs[t];
    var depth := |tx.below|;
    assert TxAgrees(labels, n, t, tx);
    assert ViewAgrees(labels, n, t, depth, ViewAt(tx, depth));
    InsertAgrees(labels, n, tx.view, tx.view.bumped.value);
    forall d | 0 <= d < depth ensures ViewAgrees(labels, n + 1, t, d, ViewAt(tx', d)) {
      BelowAgrees(s, labels, n, t, d);
    }
  }

  /** The end of an inner call: of what it did, all is handed up or nothing is left. */
  lemma InnerEndAgrees(s: Sys, labels: seq<Label>, n: nat, t: TxId, s': Sys)
    requires n < |labels| && Stands(s, labels, n) && t in s.txs && |s.txs[t].below| > 1
    requires labels[n] == Leave(t) || labels[n] == Undo(t)
    requires Step(s, labels[n], s')
    ensures TxAgrees(labels, n + 1, t, s'.txs[t])
  {
    hide Depth, LevelsOk, ViewAgrees, LogsAgree, LastBump, Inv;
    var tx, tx' := s.txs[t], s'.txs[t];
    var depth := |tx.below|;
    assert TxAgrees(labels, n, t, tx);
    if labels[n].Leave? {
      assert ViewAgrees(labels, n, t, depth, ViewAt(tx, depth));
      ViewHandedUp(labels, n, t, tx.view);
    } else {
      BelowAgrees(s, labels, n, t, depth - 1);
    }
    forall d | 0 <= d < depth - 1 ensures ViewAgrees(labels, n + 1, t, d, ViewAt(tx', d)) {
      BelowAgrees(s, labels, n, t, d);
    }
  }

  lemma CommittedAgree(s: Sys, labels: seq<Label>, n: nat, s': Sys)
    requires n < |labels| && Stands(s, labels, n) && Step(s, labels[n], s')
    ensures LogsAgree(labels, n + 1, s'.logs)
  {
    hide Depth, LevelsOk, ViewAgrees, LastBump, Inv;
    var l := labels[n];
    if l.Leave? && |s.txs[l.t].below| == 1 {
      assert TxAgrees(labels, n, l.t, s.txs[l.t]);
      assert ViewAgrees(labels, n, l.t, 1, ViewAt(s.txs[l.t], 1));
      LogsCommitted(s, labels, n);
    } else {
      hide LogsAgree;
      LogsStay(s, labels, n);
    }
  }

  lemma StepAgrees(s: Sys, labels: seq<Label>, n: nat, s': Sys)
    requires n < |labels| && Stands(s, labels, n) && Step(s, labels[n], s')
    ensures Agrees(s', labels, n + 1)
  {
    CommittedAgree(s, labels, n, s');
    forall t | t in s'.txs ensures TxAgrees(labels, n + 1, t, s'.txs[t]) {
      TxStepAgrees(s, labels, n, s', t);
    }
  }

  lemma TxStepAgrees(s: Sys, labels: seq<Label>, n: nat, s': Sys, t: TxId)
    requires n < |labels| && Stands(s, labels, n) && Step(s, labels[n], s') && t in s'.txs
    ensures TxAgrees(labels, n + 1, t, s'.txs[t])
  {
    OthersKeep(s, labels[n], s', t);
    if labels[n].Poll? || labels[n].t != t {
      OthersAgree(s, labels, n, t);
    } else {
      InnerOnly(s, labels[n], s');
      hide Stands, Step;
      match labels[n]
      case Enter(_) => EnterAgrees(s, labels, n, t, s');
      case Bump(_, m) => BumpKeepsAgreement(s, labels, n, t, m, s');
      case Insert(_, _, _) => InsertKeepsAgreement(s, labels, n, s');
      case _ => InnerEndAgrees(s, labels, n, t, s');
    }
  }

  lemma OthersKeep(s: Sys, l: Label, s': Sys, t: TxId)
    requires Step(s, l, s') && t in s'.txs
    ensures l.Poll? || l.t != t ==> t in s.txs && s'.txs[t] == s.txs[t]
    ensures l.Leave? ==> l.t in s.txs
  {}

  lemma InnerOnly(s: Sys, l: Label, s': Sys)
    requires Step(s, l, s') && !l.Poll? && l.t in s'.txs
    ensures !l.Lost? && (l.Leave? || l.Undo? ==> l.t in s.txs && |s.txs[l.t].below| > 1)
  {}

  lemma {:induction false} TraceStands(trace: seq<Sys>, labels: seq<Label>, n: nat)
    requires IsTrace(trace, labels) && n <= |labels|
    ensures Stands(trace[n], labels, n)
  {
    hide Step, Inv, Agrees, LevelsOk, Depth, DepthOf, LastBump;
    if n == 0 {
      NothingCounted(trace[0], labels);
    } else {
      TraceStands(trace, labels, n - 1);
      assert Step(trace[n - 1], labels[n - 1], trace[n]);
      StepAgrees(trace[n - 1], labels, n - 1, trace[n]);
    }
    ReachableIsInv(trace, labels, n);
    LevelsAreOk(trace, labels, n);
    forall t ensures Depth(labels, n, t) == DepthOf(trace[n], t) && (t in trace[n].txs ==> DepthOf(trace[n], t) > 0) {
      DepthIsBelow(trace, labels, n, t);
    }
    forall t | t in trace[n].txs && trace[n].txs[t].view.bumped.Some?
      ensures LastBump(labels, n, t) == trace[n].txs[t].view.bumped
    {
      BumpedIsLast(trace, labels, n, t);
    }
  }

  lemma NothingCounted(s: Sys, labels: seq<Label>)
    requires Start0(s)
    ensures Agrees(s, labels, 0)
  {
    forall m | m in s.logs ensures TextsOf(s.logs[m].events) == Counted(labels, 0, 0, m, 0, 0) {
      assert TextsOf([]) == [];
    }
  }

  // Main results.

  lemma {:induction false} CountedIsLasting(trace: seq<Sys>, labels: seq<Label>, k: nat, n: nat, m: MatchId)
    requires IsTrace(trace, labels) && k <= n <= |labels|
    ensures Counted(labels, k, n, m, 0, 0) == Lasting(labels, k, n, m)
  {
    hide IsTrace, Depth, FateOf, EveryCallLeft;
    if k > 0 {
      CountedIsLasting(trace, labels, k - 1, n, m);
      if labels[k - 1].Insert? {
        LevelsAreOk(trace, labels, n);
        InsertsAreInCalls(trace, labels, k - 1);
        KeptMeansEveryCallLeft(labels, k - 1, n);
      }
    }
  }

  /** A log is exactly the events inserted for its match in calls that have all returned without
      failing, in the order they were inserted and numbered from 1: a call that fails leaves nothing in
      any log, and what fails inside a call takes nothing of the rest with it. */
  lemma LogsHoldWhatLasts(trace: seq<Sys>, labels: seq<Label>, n: nat, m: MatchId)
    requires IsTrace(trace, labels) && n <= |labels| && m in trace[n].logs
    ensures
      var events, lasting := trace[n].logs[m].events, Lasting(labels, n, n, m);
      |events| == |lasting|
      && forall i | 0 <= i < |events| :: events[i] == Event(i + 1, lasting[i].0, lasting[i].1)
  {
    TraceStands(trace, labels, n);
    CountedIsLasting(trace, labels, n, n, m);
    CommittedLogsAreGapless(trace, labels, n, m);
    hide IsTrace, Lasting, Counted;
  }

  /** Only the end of an outermost call that does not fail changes a committed log. */
  lemma OnlyLeavingCommits(trace: seq<Sys>, labels: seq<Label>, i: nat)
    requires IsTrace(trace, labels) && i < |labels| && trace[i + 1].logs != trace[i].logs
    ensures labels[i].Leave? && Depth(labels, i, labels[i].t) == 1
  {
    assert Step(trace[i], labels[i], trace[i + 1]);
    if labels[i].Leave? {
      DepthIsBelow(trace, labels, i, labels[i].t);
    }
    hide Depth;
  }
}
