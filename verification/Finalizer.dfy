/** finalizer.go: the worker that sweeps matches whose time is up. */
module Finalizers {
  import opened Rows
  import opened Transitions
  import Store = Queries

  const SECOND := 1_000_000_000
  const DEFAULT_INTERVAL := 5 * SECOND
  const DEFAULT_BATCH := 100

  /** What one pass meets: whether the worker has been told to stop, whether the call fails, the rows
      other transactions hold, the transaction's time, and what others committed just before. */
  datatype Weather = Weather(
    cancelled: bool, fails: bool, held: set<MatchId>, now: int, others: Matches -> Matches)

  function ActiveMatches(ms: Matches): set<MatchId> {
    set m | m in ms && ms[m].state.Active?
  }

  /** Nothing has started, and the deadlines of what is still active stand. */
  ghost predicate NoNewStarts(ms: Matches, ms': Matches) {
    forall m | m in ActiveMatches(ms') :: m in ActiveMatches(ms) && ms'[m].deadlineAt == ms[m].deadlineAt
  }

  ghost predicate Quiet(sky: nat -> Weather) {
    forall i, ms :: NoNewStarts(ms, sky(i).others(ms))
  }

  ghost predicate Undisturbed(sky: nat -> Weather) {
    forall i, ms :: sky(i).others(ms) == ms
  }

  ghost predicate Unhindered(sky: nat -> Weather) {
    forall i :: !sky(i).cancelled && !sky(i).fails && sky(i).held == {}
  }

  ghost predicate ClockStands(sky: nat -> Weather) {
    forall i :: sky(i).now == sky(0).now
  }

  lemma Fewer(a: set<MatchId>, b: set<MatchId>)
    requires a <= b
    ensures |a| <= |b|
    ensures |b - a| == |b| - |a|
  {
    assert a + (b - a) == b;
  }

  lemma OthersOnlyShrink(ms: Matches, ms': Matches, now: int)
    requires NoNewStarts(ms, ms')
    ensures ActiveMatches(ms') <= ActiveMatches(ms) && |ActiveMatches(ms')| <= |ActiveMatches(ms)|
    ensures DueMatches(ms', now) <= DueMatches(ms, now) && |DueMatches(ms', now)| <= |DueMatches(ms, now)|
  {
    forall m | m in DueMatches(ms', now) ensures m in DueMatches(ms, now) {
      assert m in ActiveMatches(ms') && m in ActiveMatches(ms);
    }
    Fewer(ActiveMatches(ms'), ActiveMatches(ms));
    Fewer(DueMatches(ms', now), DueMatches(ms, now));
  }

  lemma SweepTakesOut(ms: Matches, swept: set<MatchId>, now: int)
    requires swept <= DueMatches(ms, now)
    ensures swept <= ActiveMatches(ms)
    ensures ActiveMatches(Swept(ms, swept)) == ActiveMatches(ms) - swept
    ensures DueMatches(Swept(ms, swept), now) == DueMatches(ms, now) - swept
    ensures |ActiveMatches(Swept(ms, swept))| == |ActiveMatches(ms)| - |swept|
    ensures |DueMatches(Swept(ms, swept), now)| == |DueMatches(ms, now)| - |swept|
  {
    forall m | m in swept ensures m in ActiveMatches(ms) && m !in ActiveMatches(Swept(ms, swept)) {
      assert m in DueMatches(ms, now);
    }
    assert ActiveMatches(Swept(ms, swept)) == ActiveMatches(ms) - swept;
    assert DueMatches(Swept(ms, swept), now) == DueMatches(ms, now) - swept;
    Fewer(swept, ActiveMatches(ms));
    Fewer(swept, DueMatches(ms, now));
  }

  lemma SweepsCompose(ms: Matches, a: set<MatchId>, b: set<MatchId>)
    requires a !! b
    ensures Swept(Swept(ms, a), b) == Swept(ms, a + b)
  {}

  lemma WholeBatches(calls: nat, batch: nat, moved: nat, due: nat)
    requires batch > 0 && calls * batch == moved && moved <= due
    ensures calls <= due / batch
  {
    var quotient := due / batch;
    Products(quotient, calls, batch);
    assert due < quotient * batch + batch;
  }

  lemma {:induction false} Products(a: nat, b: nat, c: nat)
    ensures a < b ==> a * c + c <= b * c
  {
    if a < b {
      assert b * c == (b - 1) * c + c;
      Products(a, b - 1, c);
    }
  }

  lemma LogOneBatch(logged: seq<MatchId>, batch: seq<MatchId>)
    requires Store.Distinct(logged) && Store.Distinct(batch)
    requires Store.Members(logged) !! Store.Members(batch)
    ensures Store.Distinct(logged + batch)
    ensures Store.Members(logged + batch) == Store.Members(logged) + Store.Members(batch)
  {
    var all := logged + batch;
    forall i, j | 0 <= i < j < |all| ensures all[i] != all[j] {
      assert i < |logged| ==> all[i] in Store.Members(logged);
      assert j >= |logged| ==> all[j] in Store.Members(batch);
    }
  }

  class Finalizer {
    const store: Store.Queries
    const interval: int
    const batch: int

    constructor (store: Store.Queries, interval: int, batch: int)
      ensures this.store == store
      ensures this.interval == if interval <= 0 then DEFAULT_INTERVAL else interval
      ensures this.batch == if batch <= 0 then DEFAULT_BATCH else batch
      ensures Ready()
    {
      this.store := store;
      this.interval := if interval <= 0 then DEFAULT_INTERVAL else interval;
      this.batch := if batch <= 0 then DEFAULT_BATCH else batch;
    }

    predicate Ready() {
      batch > 0 && interval > 0
    }

    /**
     Sweeps until a pass is short. That it ends at all rests on batch > 0: a full pass takes batch
     matches out of the finitely many that are active.

     logged has a line for every match moved, calls counts the calls of ExpireDue, and drained is
     false when a failure or a cancellation cut the tick short.
     */
    method Tick(sky: nat -> Weather) returns (logged: seq<MatchId>, calls: nat, drained: bool)
      requires Ready() && Quiet(sky)
      modifies store`matches
      ensures Store.Distinct(logged)
      ensures Store.Members(logged) <= ActiveMatches(old(store.matches)) - ActiveMatches(store.matches)
      ensures Undisturbed(sky) ==> store.matches == Swept(old(store.matches), Store.Members(logged))
      ensures calls <= |ActiveMatches(old(store.matches))| / batch + 1
      ensures ClockStands(sky) ==> calls <= |DueMatches(old(store.matches), sky(0).now)| / batch + 1
      ensures !drained ==> sky(calls).cancelled || (calls > 0 && sky(calls - 1).fails)
      ensures drained ==>
                && calls > 0 && !sky(calls - 1).fails
                && DueMatches(store.matches, sky(calls - 1).now) <= sky(calls - 1).held
      ensures Unhindered(sky) ==> drained && DueMatches(store.matches, sky(calls - 1).now) == {}
    {
      hide DueMatches, Swept, ActiveMatches, SoFar, Quiet, Undisturbed, Store.Chosen, Store.Distinct,
        Store.Members;
      logged, calls, drained := [], 0, false;
      ghost var ms0 := store.matches;
      NothingYet(sky, ms0);
      while true
        invariant SoFar(sky, ms0, store.matches, logged)
        invariant calls * batch == |logged|
        decreases |ActiveMatches(store.matches)|
      {
        SoFarMeans(sky, ms0, store.matches, logged);
        FewCalls(sky, ms0, store.matches, logged, calls, batch);
        var pass := sky(calls);
        if pass.cancelled {
          return;
        }
        OthersKeep(sky, ms0, store.matches, logged, calls);
        store.matches := pass.others(store.matches);
        SoFarMeans(sky, ms0, store.matches, logged);
        calls := calls + 1;
        if pass.fails {
          return;
        }
        ghost var found := store.matches;
        var swept := store.ExpireDue(batch, pass.held, pass.now);
        var expired := swept.value;
        PassTakesOut(found, expired, batch, pass.held, pass.now);
        PassKeeps(sky, ms0, found, logged, expired, batch, pass.held, pass.now);
        logged := logged + expired;
        SoFarMeans(sky, ms0, store.matches, logged);
        if |expired| < batch {
          drained := true;
          return;
        }
      }
    }
  }

  /** What holds between passes: every line of the log is a match taken out of the active ones, and
      others have only taken more. */
  ghost predicate SoFar(sky: nat -> Weather, ms0: Matches, ms: Matches, logged: seq<MatchId>) {
    && Store.Distinct(logged)
    && Store.Members(logged) <= ActiveMatches(ms0) - ActiveMatches(ms)
    && (Undisturbed(sky) ==> ms == Swept(ms0, Store.Members(logged)))
    && ActiveMatches(ms) <= ActiveMatches(ms0)
    && |ActiveMatches(ms)| + |logged| <= |ActiveMatches(ms0)|
    && (ClockStands(sky) ==> |DueMatches(ms, sky(0).now)| + |logged| <= |DueMatches(ms0, sky(0).now)|)
  }

  lemma NothingYet(sky: nat -> Weather, ms: Matches)
    ensures SoFar(sky, ms, ms, [])
  {
    hide DueMatches, Swept, ActiveMatches, Undisturbed, ClockStands;
    NothingLogged(ms);
  }

  /** The parts of SoFar that Tick promises. */
  lemma SoFarMeans(sky: nat -> Weather, ms0: Matches, ms: Matches, logged: seq<MatchId>)
    requires SoFar(sky, ms0, ms, logged)
    ensures Store.Distinct(logged) && Store.Members(logged) <= ActiveMatches(ms0) - ActiveMatches(ms)
    ensures Undisturbed(sky) ==> ms == Swept(ms0, Store.Members(logged))
  {
    hide DueMatches, Swept, ActiveMatches, Undisturbed, ClockStands, Store.Distinct, Store.Members;
  }

  lemma FewCalls(sky: nat -> Weather, ms0: Matches, ms: Matches, logged: seq<MatchId>, calls: nat, batch: nat)
    requires SoFar(sky, ms0, ms, logged) && batch > 0 && calls * batch == |logged|
    ensures calls <= |ActiveMatches(ms0)| / batch
    ensures ClockStands(sky) ==> calls <= |DueMatches(ms0, sky(0).now)| / batch
  {
    hide DueMatches, Swept, ActiveMatches, Undisturbed, ClockStands, Store.Distinct, Store.Members;
    WholeBatches(calls, batch, |logged|, |ActiveMatches(ms0)|);
    if ClockStands(sky) {
      WholeBatches(calls, batch, |logged|, |DueMatches(ms0, sky(0).now)|);
    }
  }

  lemma OthersKeep(sky: nat -> Weather, ms0: Matches, ms: Matches, logged: seq<MatchId>, i: nat)
    requires SoFar(sky, ms0, ms, logged) && Quiet(sky)
    ensures SoFar(sky, ms0, sky(i).others(ms), logged)
    ensures |ActiveMatches(sky(i).others(ms))| <= |ActiveMatches(ms)|
  {
    hide DueMatches, Swept, ActiveMatches, ClockStands, NoNewStarts, Store.Distinct, Store.Members;
    OthersOnlyShrink(ms, sky(i).others(ms), sky(0).now);
  }

  lemma PassKeeps(
      sky: nat -> Weather, ms0: Matches, ms: Matches, logged: seq<MatchId>, expired: seq<MatchId>,
      batch: nat, held: set<MatchId>, now: int)
    requires SoFar(sky, ms0, ms, logged)
    requires Store.Distinct(expired) && Store.Chosen(ms, expired, batch, held, now)
    requires ClockStands(sky) ==> now == sky(0).now
    ensures SoFar(sky, ms0, Swept(ms, Store.Members(expired)), logged + expired)
  {
    hide DueMatches, Swept, ActiveMatches, ClockStands, Undisturbed, Store.Distinct, Store.Members, Store.Chosen;
    PassTakesOut(ms, expired, batch, held, now);
    LogOneBatch(logged, expired);
    SweepsCompose(ms0, Store.Members(logged), Store.Members(expired));
  }

  lemma NothingLogged(ms: Matches)
    ensures Store.Distinct([]) && Store.Members([]) == {} && Swept(ms, {}) == ms
  {}

  lemma PassTakesOut(ms: Matches, expired: seq<MatchId>, batch: nat, held: set<MatchId>, now: int)
    requires Store.Distinct(expired) && Store.Chosen(ms, expired, batch, held, now)
    ensures
      var swept := Store.Members(expired);
      && swept <= ActiveMatches(ms)
      && ActiveMatches(Swept(ms, swept)) == ActiveMatches(ms) - swept
      && |ActiveMatches(Swept(ms, swept))| == |ActiveMatches(ms)| - |expired|
      && |DueMatches(Swept(ms, swept), now)| == |DueMatches(ms, now)| - |expired|
      && (|expired| < batch ==> DueMatches(Swept(ms, swept), now) <= held)
      && |expired| <= batch
  {
    hide DueMatches, Swept, ActiveMatches, Store.Sooner;
    var swept := Store.Members(expired);
    SweepTakesOut(ms, swept, now);
    Store.DistinctSize(expired);
  }
}
