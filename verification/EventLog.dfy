/**
 The event log of a match under nested transactions.

 A transaction is a stack of InTx calls: the outermost begins and commits, the others are savepoints.
 AppendEvent bumps `matches.event_seq`, which locks the match row until the lock's frame is undone or
 the whole transaction ends, and then inserts the event under the new number. Any call may fail and
 undo its own work, at any depth, while other transactions append to the same and other matches and
 clients read.
 */
module EventLog {
  import opened Prelude
  import opened Rows
  import opened Soundness

  type TxId = nat
  type ClientId = nat

  /** A transaction's own view of the logs it has locked, and the number it has drawn but not used. */
  datatype View = View(logs: map<MatchId, Log>, bumped: Option<MatchId>)

  /** below[i] is what the i-th open InTx call goes back to when it fails. */
  datatype Tx = Tx(view: View, below: seq<View>)

  /** A reader that has kept everything it was given, and the last number among it. */
  datatype Client = Client(m: MatchId, seen: seq<Event>, last: nat)

  datatype Sys = Sys(logs: map<MatchId, Log>, txs: map<TxId, Tx>, clients: map<ClientId, Client>)

  datatype Label =
    | Enter(t: TxId)                                   // InTx: begin or savepoint
    | Bump(t: TxId, m: MatchId)
    | Insert(t: TxId, kind: string, payload: string)
    | Leave(t: TxId)                                   // the closure returned nil: release or commit
    | Undo(t: TxId)                                    // the closure failed: roll back to the savepoint, or all
    | Lost(t: TxId)                                    // the connection is gone
    | Poll(c: ClientId)

  const EMPTY := View(map[], None)

  predicate Free(s: Sys, t: TxId, m: MatchId) {
    forall t' | t' in s.txs && t' != t :: m !in s.txs[t'].view.logs
  }

  /** The rows EventsAfter selects. */
  function After(events: seq<Event>, number: nat): seq<Event> {
    if events == [] then []
    else (if events[0].number > number then [events[0]] else []) + After(events[1..], number)
  }

  function Polled(c: Client, l: Log): Client {
    var news := After(l.events, c.last);
    Client(c.m, c.seen + news, if news == [] then c.last else news[|news| - 1].number)
  }

  ghost predicate Step(s: Sys, l: Label, s': Sys) {
    match l
    case Enter(t) =>
      if t in s.txs
      then s' == s.(txs := s.txs[t := Tx(s.txs[t].view, s.txs[t].below + [s.txs[t].view])])
           && s.txs[t].view.bumped.None?
      else s' == s.(txs := s.txs[t := Tx(EMPTY, [EMPTY])])
    case Bump(t, m) =>
      && t in s.txs && m in s.logs && Free(s, t, m) && s.txs[t].view.bumped.None?
      && var v := s.txs[t].view;
         var l := if m in v.logs then v.logs[m] else s.logs[m];
         s' == s.(txs := s.txs[t := s.txs[t].(view := View(v.logs[m := Log(l.eventSeq + 1, l.events)], Some(m)))])
    case Insert(t, kind, payload) =>
      && t in s.txs && s.txs[t].view.bumped.Some? && s.txs[t].view.bumped.value in s.txs[t].view.logs
      && var v := s.txs[t].view;
         var m := v.bumped.value;
         var l := v.logs[m];
         s' == s.(txs := s.txs[t := s.txs[t].(view :=
                 View(v.logs[m := Log(l.eventSeq, l.events + [Event(l.eventSeq, kind, payload)])], None))])
    case Leave(t) =>
      && t in s.txs && s.txs[t].below != [] && s.txs[t].view.bumped.None?
      && var tx := s.txs[t];
         if |tx.below| > 1
         then s' == s.(txs := s.txs[t := Tx(tx.view, tx.below[..|tx.below| - 1])])
         else s' == s.(logs := s.logs + tx.view.logs, txs := s.txs - {t})
    case Undo(t) =>
      && t in s.txs && s.txs[t].below != []
      && var tx := s.txs[t];
         if |tx.below| > 1
         then s' == s.(txs := s.txs[t := Tx(tx.below[|tx.below| - 1], tx.below[..|tx.below| - 1])])
         else s' == s.(txs := s.txs - {t})
    case Lost(t) => t in s.txs && s' == s.(txs := s.txs - {t})
    case Poll(c) =>
      && c in s.clients && s.clients[c].m in s.logs
      && s' == s.(clients := s.clients[c := Polled(s.clients[c], s.logs[s.clients[c].m])])
  }

  /** Matches with empty logs, no transactions, and clients that have seen nothing. */
  ghost predicate Start0(s: Sys) {
    && s.txs == map[]
    && (forall m | m in s.logs :: s.logs[m] == Log(0, []))
    && (forall c | c in s.clients :: s.clients[c].m in s.logs && s.clients[c].seen == [] && s.clients[c].last == 0)
  }

  ghost predicate IsTrace(trace: seq<Sys>, labels: seq<Label>) {
    && |trace| == |labels| + 1
    && Start0(trace[0])
    && forall i | 0 <= i < |labels| :: Step(trace[i], labels[i], trace[i + 1])
  }

  // The invariant.

  /** l is what the events of l' were before some more were appended. */
  ghost predicate Extends(l: Log, l': Log) {
    |l.events| <= |l'.events| && l'.events[..|l.events|] == l.events
  }

  /** A log in a transaction's hands: whole, or one number ahead of its events. */
  ghost predicate HeldOk(l: Log, ahead: bool) {
    if ahead then l.eventSeq > 0 && LogOk(Log(l.eventSeq - 1, l.events)) else LogOk(l)
  }

  ghost predicate ViewOk(logs: map<MatchId, Log>, v: View) {
    && v.logs.Keys <= logs.Keys
    && (v.bumped.Some? ==> v.bumped.value in v.logs)
    && (forall m | m in v.logs :: HeldOk(v.logs[m], v.bumped == Some(m)) && Extends(logs[m], v.logs[m]))
  }

  ghost predicate TxOk(logs: map<MatchId, Log>, tx: Tx) {
    && ViewOk(logs, tx.view)
    && tx.below != []
    && (forall i | 0 <= i < |tx.below| ::
          && ViewOk(logs, tx.below[i]) && tx.below[i].bumped.None?
          && tx.below[i].logs.Keys <= tx.view.logs.Keys)
    && (forall i, j | 0 <= i < j < |tx.below| :: tx.below[i].logs.Keys <= tx.below[j].logs.Keys)
  }

  ghost predicate ClientOk(logs: map<MatchId, Log>, c: Client) {
    c.m in logs && c.last == |c.seen| <= |logs[c.m].events| && c.seen == logs[c.m].events[..|c.seen|]
  }

  ghost predicate Inv(s: Sys) {
    && (forall m | m in s.logs :: LogOk(s.logs[m]))
    && (forall t | t in s.txs :: TxOk(s.logs, s.txs[t]))
    && (forall t, t' | t in s.txs && t' in s.txs && t != t' ::
          s.txs[t].view.logs.Keys !! s.txs[t'].view.logs.Keys)
    && (forall c | c in s.clients :: ClientOk(s.logs, s.clients[c]))
  }

  // Reading.

  /** In a gapless log, everything after number n is everything from position n. */
  lemma {:induction false} AfterIsTheRest(events: seq<Event>, first: nat, n: nat)
    requires forall i | 0 <= i < |events| :: events[i].number == first + i + 1
    requires n <= first + |events|
    ensures After(events, n) == if n <= first then events else events[n - first..]
    decreases |events|
  {
    if events != [] {
      var rest := events[1..];
      assert forall i | 0 <= i < |rest| :: rest[i] == events[i + 1];
      AfterIsTheRest(rest, first + 1, n);
      assert events[0].number == first + 1;
      if n <= first {
        assert [events[0]] + rest == events;
      } else {
        DropTwice(events, n - first);
      }
    }
  }

  lemma DropTwice(events: seq<Event>, k: nat)
    requires 1 <= k <= |events|
    ensures events[1..][k - 1..] == events[k..]
  {}

  /** One poll brings a client up to date. */
  lemma PollCatchesUp(logs: map<MatchId, Log>, c: Client)
    requires ClientOk(logs, c) && LogOk(logs[c.m])
    ensures ClientOk(logs, Polled(c, logs[c.m])) && Polled(c, logs[c.m]).seen == logs[c.m].events
  {
    var l := logs[c.m];
    AfterIsTheRest(l.events, 0, c.last);
    assert l.events[c.last..] == if c.last <= 0 then l.events else l.events[c.last - 0..];
    assert c.seen + l.events[c.last..] == l.events;
  }

  // Preservation.

  lemma TxOkWhenHeldLogsStay(logs: map<MatchId, Log>, logs': map<MatchId, Log>, tx: Tx)
    requires TxOk(logs, tx) && logs.Keys <= logs'.Keys
    requires forall m | m in tx.view.logs :: logs'[m] == logs[m]
    ensures TxOk(logs', tx)
  {
    hide HeldOk, Extends;
  }

  lemma OneTxChanges(s: Sys, t: TxId, tx: Tx)
    requires Inv(s) && TxOk(s.logs, tx)
    requires t in s.txs ==> forall m | m in tx.view.logs && m !in s.txs[t].view.logs :: Free(s, t, m)
    requires t !in s.txs ==> tx.view.logs == map[]
    ensures Inv(s.(txs := s.txs[t := tx]))
  {
    hide TxOk, ClientOk, LogOk;
  }

  lemma TxEnds(s: Sys, t: TxId)
    requires Inv(s)
    ensures Inv(s.(txs := s.txs - {t}))
  {
    hide TxOk, ClientOk, LogOk;
  }

  lemma BumpOk(logs: map<MatchId, Log>, tx: Tx, m: MatchId)
    requires TxOk(logs, tx) && m in logs && tx.view.bumped.None? && LogOk(logs[m])
    ensures
      var l := if m in tx.view.logs then tx.view.logs[m] else logs[m];
      TxOk(logs, tx.(view := View(tx.view.logs[m := Log(l.eventSeq + 1, l.events)], Some(m))))
  {
    var l := if m in tx.view.logs then tx.view.logs[m] else logs[m];
    var v := View(tx.view.logs[m := Log(l.eventSeq + 1, l.events)], Some(m));
    assert HeldOk(l, false) && Extends(logs[m], l);
    assert Log(l.eventSeq + 1 - 1, l.events) == l;
    hide LogOk;
    assert HeldOk(v.logs[m], true) && Extends(logs[m], v.logs[m]);
    hide HeldOk, Extends;
    forall n | n in v.logs ensures HeldOk(v.logs[n], v.bumped == Some(n)) && Extends(logs[n], v.logs[n]) {
      if n != m { assert HeldOk(tx.view.logs[n], tx.view.bumped == Some(n)); }
    }
    assert ViewOk(logs, v);
  }

  lemma InsertHeldOk(c: Log, l: Log, kind: string, payload: string)
    requires HeldOk(l, true) && Extends(c, l)
    ensures
      var l' := Log(l.eventSeq, l.events + [Event(l.eventSeq, kind, payload)]);
      HeldOk(l', false) && Extends(c, l')
  {
    var l' := Log(l.eventSeq, l.events + [Event(l.eventSeq, kind, payload)]);
    assert LogOk(Log(l.eventSeq - 1, l.events));
    forall i | 0 <= i < |l'.events| ensures l'.events[i].number == i + 1 {
      assert i < |l.events| ==> l'.events[i] == l.events[i];
    }
    assert l'.events[..|c.events|] == l.events[..|c.events|];
  }

  lemma InsertOk(logs: map<MatchId, Log>, tx: Tx, kind: string, payload: string)
    requires TxOk(logs, tx) && tx.view.bumped.Some?
    ensures
      var m := tx.view.bumped.value;
      && m in tx.view.logs
      && var l := tx.view.logs[m];
         TxOk(logs, tx.(view := View(
           tx.view.logs[m := Log(l.eventSeq, l.events + [Event(l.eventSeq, kind, payload)])], None)))
  {
    hide HeldOk, Extends;
    var m := tx.view.bumped.value;
    assert HeldOk(tx.view.logs[m], tx.view.bumped == Some(m));
    InsertHeldOk(logs[m], tx.view.logs[m], kind, payload);
    var l := tx.view.logs[m];
    var v := View(tx.view.logs[m := Log(l.eventSeq, l.events + [Event(l.eventSeq, kind, payload)])], None);
    forall n | n in v.logs ensures HeldOk(v.logs[n], v.bumped == Some(n)) && Extends(logs[n], v.logs[n]) {
      if n != m { assert HeldOk(tx.view.logs[n], tx.view.bumped == Some(n)); }
    }
    assert ViewOk(logs, v);
  }

  lemma CommitExtends(s: Sys, t: TxId)
    requires Inv(s) && t in s.txs && s.txs[t].view.bumped.None?
    ensures
      var logs' := s.logs + s.txs[t].view.logs;
      && logs'.Keys == s.logs.Keys
      && (forall m | m in logs' :: LogOk(logs'[m]) && Extends(s.logs[m], logs'[m]))
  {
    hide LogOk, ClientOk;
    var v := s.txs[t].view;
    assert TxOk(s.logs, s.txs[t]);
    forall m | m in v.logs ensures LogOk(v.logs[m]) {
      assert HeldOk(v.logs[m], v.bumped == Some(m));
    }
  }

  lemma CommitKeepsInv(s: Sys, t: TxId)
    requires Inv(s) && t in s.txs && s.txs[t].view.bumped.None?
    ensures Inv(s.(logs := s.logs + s.txs[t].view.logs, txs := s.txs - {t}))
  {
    var logs' := s.logs + s.txs[t].view.logs;
    CommitExtends(s, t);
    hide TxOk, LogOk;
    forall t' | t' in s.txs - {t} ensures TxOk(logs', s.txs[t']) {
      TxOkWhenHeldLogsStay(s.logs, logs', s.txs[t']);
    }
    forall c | c in s.clients ensures ClientOk(logs', s.clients[c]) {
      var n := |s.clients[c].seen|;
      var m := s.clients[c].m;
      assert ClientOk(s.logs, s.clients[c]) && Extends(s.logs[m], logs'[m]);
      assert logs'[m].events[..n] == logs'[m].events[..|s.logs[m].events|][..n];
    }
  }

  lemma EnterKeepsInv(s: Sys, t: TxId, s': Sys)
    requires Inv(s) && Step(s, Enter(t), s')
    ensures Inv(s')
  {
    hide HeldOk, Extends, ClientOk, LogOk;
    if t in s.txs {
      var tx := s.txs[t];
      assert TxOk(s.logs, tx);
      OneTxChanges(s, t, Tx(tx.view, tx.below + [tx.view]));
    } else {
      OneTxChanges(s, t, Tx(EMPTY, [EMPTY]));
    }
  }

  lemma UndoKeepsInv(s: Sys, t: TxId, tx': Tx)
    requires Inv(s) && t in s.txs && |s.txs[t].below| > 1
    requires tx'.below == s.txs[t].below[..|s.txs[t].below| - 1]
    requires tx'.view == s.txs[t].view || tx'.view == s.txs[t].below[|s.txs[t].below| - 1]
    ensures Inv(s.(txs := s.txs[t := tx']))
  {
    hide HeldOk, Extends, ClientOk, LogOk;
    assert TxOk(s.logs, s.txs[t]);
    assert TxOk(s.logs, tx');
    OneTxChanges(s, t, tx');
  }

  lemma StepKeepsInv(s: Sys, l: Label, s': Sys)
    requires Inv(s) && Step(s, l, s')
    ensures Inv(s')
  {
    hide TxOk, ClientOk, LogOk, ViewOk;
    match l
    case Enter(t) => EnterKeepsInv(s, t, s');
    case Bump(t, m) =>
      BumpOk(s.logs, s.txs[t], m);
      OneTxChanges(s, t, s'.txs[t]);
    case Insert(t, kind, payload) =>
      InsertOk(s.logs, s.txs[t], kind, payload);
      OneTxChanges(s, t, s'.txs[t]);
    case Leave(t) =>
      if |s.txs[t].below| > 1 { UndoKeepsInv(s, t, s'.txs[t]); } else { CommitKeepsInv(s, t); }
    case Undo(t) =>
      if |s.txs[t].below| > 1 { UndoKeepsInv(s, t, s'.txs[t]); } else { TxEnds(s, t); }
    case Lost(t) => TxEnds(s, t);
    case Poll(c) => PollCatchesUp(s.logs, s.clients[c]);
  }

  lemma {:induction false} ReachableIsInv(trace: seq<Sys>, labels: seq<Label>, n: nat)
    requires IsTrace(trace, labels) && n < |trace|
    ensures Inv(trace[n])
  {
    if n > 0 {
      hide Step, Inv;
      ReachableIsInv(trace, labels, n - 1);
      assert Step(trace[n - 1], labels[n - 1], trace[n]);
      StepKeepsInv(trace[n - 1], labels[n - 1], trace[n]);
    }
  }

  // Main results.

  /** Whatever was appended, undone, nested or lost, the committed events of every match are numbered
      exactly 1..event_seq. */
  lemma CommittedLogsAreGapless(trace: seq<Sys>, labels: seq<Label>, n: nat, m: MatchId)
    requires IsTrace(trace, labels) && n < |trace| && m in trace[n].logs
    ensures
      var l := trace[n].logs[m];
      |l.events| == l.eventSeq && forall i | 0 <= i < |l.events| :: l.events[i].number == i + 1
  {
    hide Step;
    ReachableIsInv(trace, labels, n);
  }

  lemma StepExtends(s: Sys, l: Label, s': Sys, m: MatchId)
    requires Inv(s) && Step(s, l, s') && m in s.logs
    ensures m in s'.logs && Extends(s.logs[m], s'.logs[m])
  {
    if l.Leave? && |s.txs[l.t].below| <= 1 {
      CommitExtends(s, l.t);
    }
    hide Inv;
  }

  /** Nothing that was ever committed moves or changes. */
  lemma {:induction false} LogsOnlyGrow(trace: seq<Sys>, labels: seq<Label>, i: nat, j: nat, m: MatchId)
    requires IsTrace(trace, labels) && i <= j < |trace| && m in trace[i].logs
    ensures m in trace[j].logs && Extends(trace[i].logs[m], trace[j].logs[m])
    decreases j - i
  {
    hide Step, Inv;
    if i < j {
      LogsOnlyGrow(trace, labels, i, j - 1, m);
      ReachableIsInv(trace, labels, j - 1);
      assert Step(trace[j - 1], labels[j - 1], trace[j]);
      StepExtends(trace[j - 1], labels[j - 1], trace[j], m);
      var a, b, c := trace[i].logs[m].events, trace[j - 1].logs[m].events, trace[j].logs[m].events;
      assert c[..|a|] == c[..|b|][..|a|];
    }
  }

  /** A client that keeps asking for what follows the last number it saw holds, at every moment, an
      exact prefix of the log as it is then and as it will ever be. */
  lemma ClientsHoldPrefixes(trace: seq<Sys>, labels: seq<Label>, i: nat, j: nat, c: ClientId)
    requires IsTrace(trace, labels) && i <= j < |trace| && c in trace[i].clients
    ensures
      var k := trace[i].clients[c];
      && k.m in trace[j].logs
      && |k.seen| <= |trace[j].logs[k.m].events|
      && k.seen == trace[j].logs[k.m].events[..|k.seen|]
  {
    hide Step;
    ReachableIsInv(trace, labels, i);
    var k := trace[i].clients[c];
    assert ClientOk(trace[i].logs, k);
    LogsOnlyGrow(trace, labels, i, j, k.m);
    var a, b := trace[i].logs[k.m].events, trace[j].logs[k.m].events;
    assert b[..|k.seen|] == b[..|a|][..|k.seen|];
  }

  /** Nothing stops an append to a match nobody else has locked, and what it appends is there for all
      once the call returns. */
  lemma AnAppendGoesThrough(s: Sys, t: TxId, m: MatchId, kind: string, payload: string)
    returns (run: seq<Sys>)
    requires Inv(s) && t !in s.txs && m in s.logs && Free(s, t, m)
    ensures |run| == 5 && run[0] == s
    ensures Step(run[0], Enter(t), run[1]) && Step(run[1], Bump(t, m), run[2])
    ensures Step(run[2], Insert(t, kind, payload), run[3]) && Step(run[3], Leave(t), run[4])
    ensures
      var n := s.logs[m].eventSeq + 1;
      run[4] == s.(logs := s.logs[m := Log(n, s.logs[m].events + [Event(n, kind, payload)])])
  {
    hide Inv;
    var n := s.logs[m].eventSeq + 1;
    var events := s.logs[m].events;
    var s1 := s.(txs := s.txs[t := Tx(EMPTY, [EMPTY])]);
    var s2 := s.(txs := s.txs[t := Tx(View(map[m := Log(n, events)], Some(m)), [EMPTY])]);
    var l := Log(n, events + [Event(n, kind, payload)]);
    var s3 := s.(txs := s.txs[t := Tx(View(map[m := l], None), [EMPTY])]);
    var s4 := s.(logs := s.logs[m := l]);
    assert s1.txs[t := s2.txs[t]] == s2.txs && s2.txs[t := s3.txs[t]] == s3.txs && s3.txs - {t} == s.txs;
    assert map[m := Log(n, events)][m := l] == map[m := l] && s.logs + map[m := l] == s4.logs;
    run := [s, s1, s2, s3, s4];
  }
}
