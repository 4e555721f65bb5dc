/**
 The methods of matches.go, lobbies.go, workspaces.go and events.go, statement by statement, on a
 database of their own.

 Each is proved to be one atomic step of `Transitions`. A transaction that fails puts back what it
 found (InTx).
 */
module Queries {
  import opened Prelude
  import opened Rows
  import opened Transitions
  import opened Soundness
  import Paths
  import Weights

  class Queries {
    var users: set<UserId>
    var catalog: map<Key, Challenge>
    var matches: Matches
    var logs: map<MatchId, Log>
    var trees: map<Owner, Tree>

    ghost function Snapshot(): Db
      reads this
    {
      Db(users, catalog, matches, logs, trees)
    }

    constructor (users: set<UserId>, catalog: map<Key, Challenge>)
      ensures Snapshot() == Db(users, catalog, map[], map[], map[])
    {
      this.users, this.catalog := users, catalog;
      matches, logs, trees := map[], map[], map[];
    }

    // Triggers of migration 0003.

    /** An insert into match_players: the trigger derives the flag, then the primary key, the seat and
        the partial unique index are consulted, and then the foreign key. */
    method InsertSeat(m: MatchId, u: UserId, slot: int) returns (r: Result<(), Error>)
      requires m in matches
      modifies this`matches
      ensures
        var row := old(matches)[m];
        r == if u in row.seats || SlotTaken(row, slot) then Err(ConstraintViolated)
             else if Unfinished(row.state) && UserTaken(old(matches), u) then Err(InUnfinishedMatch)
             else if u !in users then Err(ConstraintViolated)
             else Ok(())
      ensures r.Ok? ==> matches == old(matches)[m := WithSeat(old(matches)[m], u, slot)]
      ensures r.Err? ==> matches == old(matches)
    {
      var unfinished := Unfinished(matches[m].state);
      if u in matches[m].seats || SlotTaken(matches[m], slot) {
        return Err(ConstraintViolated);
      }
      if unfinished && UserTaken(matches, u) {
        return Err(InUnfinishedMatch);
      }
      if u !in users {
        return Err(ConstraintViolated);
      }
      var row := matches[m];
      matches := matches[m := row.(seats := row.seats[u := Seat(slot, None, None, unfinished)])];
      r := Ok(());
    }

    /** An update of matches.state, and the trigger that revisits every seat. */
    method UpdateState(m: MatchId, s: State)
      requires m in matches && matches[m].state != s
      modifies this`matches
      ensures matches == old(matches)[m := WithState(old(matches)[m], s)]
    {
      matches := matches[m := matches[m].(state := s)];
      ghost var was := old(matches)[m].seats;
      var left := matches[m].seats.Keys;
      while left != {}
        invariant m in matches
        invariant left <= was.Keys == matches[m].seats.Keys
        invariant matches == old(matches)[m := old(matches)[m].(state := s, seats := matches[m].seats)]
        invariant forall u | u in was ::
                    matches[m].seats[u] == if u in left then was[u] else was[u].(unfinished := Unfinished(s))
        decreases |left|
      {
        var u :| u in left;
        var row := matches[m];
        matches := matches[m := row.(seats := row.seats[u := row.seats[u].(unfinished := Unfinished(row.state))])];
        left := left - {u};
      }
      assert matches[m].seats == Synced(was, s);
    }

    // Reads.

    method MatchById(m: MatchId) returns (r: Result<Match, Error>)
      ensures r == if m in matches && matches[m].seats != map[] then Ok(matches[m]) else Err(NotFound)
    {
      if m in matches && matches[m].seats != map[] {
        r := Ok(matches[m]);
      } else {
        r := Err(NotFound);
      }
    }

    /** Someone who is not seated gets the answer of a match that is not there. */
    method MatchForPlayer(m: MatchId, u: UserId) returns (r: Result<Match, Error>)
      ensures r == if Seated(matches, m, u) then Ok(matches[m]) else Err(NotFound)
    {
      r := MatchById(m);
      if r.Ok? && u !in r.value.seats {
        r := Err(NotFound);
      }
    }

    method CurrentMatch(u: UserId) returns (r: Result<Match, Error>)
      requires Sound(Snapshot())
      ensures r.Err? ==> r == Err(NotFound) && !UserTaken(matches, u)
      ensures r.Ok? ==> exists m ::
                && UnfinishedSeat(matches, m, u) && r == Ok(matches[m])
                && forall n :: UnfinishedSeat(matches, n, u) ==> n == m
    {
      if m :| m in matches && UnfinishedSeat(matches, m, u) {
        hide MatchesOk, CodesUnique, LogsOk, TreesOk, CatalogOk;
        r := MatchById(m);
      } else {
        r := Err(NotFound);
      }
    }

    // Lobbies.

    method CreateLobby(id: MatchId, host: UserId, key: Key, code: Code) returns (r: Result<Match, Error>)
      requires id !in matches
      modifies this`matches, this`logs
      ensures AtomicStep(old(Snapshot()), Op.CreateLobby(id, host, key, code), 0,
                         if r.Ok? then Shown(id, r.value) else Failed(r.error), Snapshot())
    {
      var matches0, logs0 := matches, logs;
      if code == "" {
        return Err(ConstraintViolated);
      }
      if CodeTaken(matches, code) {
        return Err(LobbyCodeTaken);
      }
      if key !in catalog {
        return Err(ConstraintViolated);
      }
      matches := matches[id := NewMatch(key, code)];
      logs := logs[id := Log(0, [])];
      EmptyLobbySeatsNobody(matches0, id, key, code, host);
      var seated := InsertSeat(id, host, 1);
      if seated.Err? {
        matches, logs := matches0, logs0;
        return Err(seated.error);
      }
      assert matches == matches0[id := WithSeat(NewMatch(key, code), host, 1)];
      r := MatchById(id);
    }

    method JoinLobby(u: UserId, code: Code) returns (r: Result<(MatchId, Match), Error>)
      requires Sound(Snapshot())
      modifies this`matches
      ensures AtomicStep(old(Snapshot()), Op.JoinLobby(u, code), 0,
                         if r.Ok? then Shown(r.value.0, r.value.1) else Failed(r.error), Snapshot())
      ensures r == Err(NotFound) <==>
                forall m | m in old(matches) :: !(old(matches)[m].state.Lobby? && old(matches)[m].code == code)
      ensures r.Ok? ==>
                var (m, out) := r.value;
                && m in old(matches) && old(matches)[m].state.Lobby? && old(matches)[m].code == code
                && u in out.seats && matches == old(matches)[m := out]
                && (u !in old(matches)[m].seats ==> |out.seats| == SLOTS)
      ensures r.Err? ==> matches == old(matches)
    {
      hide CodesUnique, OneUnfinishedSeat, LogsOk, TreesOk, CatalogOk, ClockOk, ProgressOk;
      if m :| m in matches && OpenLobby(matches, m, code) {
        assert MatchOk(catalog, matches[m]);
        FreeSlotMeansRoom(matches[m]);
        ghost var was := Snapshot();
        OnlyLobbyOfItsCode(was, m, code);
        var current := MatchById(m);
        assert current == Ok(matches[m]);
        if u in current.value.seats {
          assert (was, Shown(m, matches[m])) == JoinLobbyStep(was, m, u);
          return Ok((m, current.value));
        }
        var slot := FreeSlotOf(current.value);
        if slot.None? {
          assert (was, Failed(LobbyFull)) == JoinLobbyStep(was, m, u);
          return Err(LobbyFull);
        }
        var seated := InsertSeat(m, u, slot.value);
        if seated.Err? {
          assert (was, Failed(seated.error)) == JoinLobbyStep(was, m, u);
          return Err(seated.error);
        }
        var out := MatchById(m);
        assert (Snapshot(), Shown(m, matches[m])) == JoinLobbyStep(was, m, u);
        return Ok((m, out.value));
      } else {
        r := Err(NotFound);
      }
    }

    method CancelLobby(m: MatchId, u: UserId, now: int) returns (r: Result<(), Error>)
      modifies this`matches
      ensures AtomicStep(old(Snapshot()), Op.CancelLobby(m, u), now,
                         if r.Ok? then Done else Failed(r.error), Snapshot())
    {
      var found := MatchForPlayer(m, u);
      if found.Err? {
        return Err(found.error);
      }
      if found.value.state.Abandoned? {
        return Ok(());
      }
      if !found.value.state.Lobby? {
        return Err(MatchStarted);
      }
      if matches[m].state.Lobby? {
        UpdateState(m, Abandoned);
        matches := matches[m := matches[m].(endedAt := Some(now))];
        assert matches == old(matches)[m := Abandon(old(matches)[m], now)];
      }
      r := Ok(());
    }

    // Transitions.

    method ReadyUp(m: MatchId, u: UserId, now: int) returns (r: Result<(Match, bool), Error>)
      modifies this`matches, this`trees
      ensures AtomicStep(old(Snapshot()), Op.ReadyUp(m, u), now,
                         if r.Ok? then Moved(r.value.0, r.value.1) else Failed(r.error), Snapshot())
    {
      var matches0, trees0 := matches, trees;
      var current := MatchForPlayer(m, u);
      if current.Err? {
        return Err(current.error);
      }
      if !current.value.state.Lobby? {
        return Err(MatchStarted);
      }
      if |current.value.seats| < SLOTS {
        return Err(LobbyIncomplete);
      }

      if matches[m].seats[u].readyAt.None? {
        var row := matches[m];
        matches := matches[m := row.(seats := row.seats[u := row.seats[u].(readyAt := Some(now))])];
      }
      ghost var ready := MarkReady(matches0[m], u, now);
      assert matches == matches0[m := ready];

      var started := false;
      if CanStart(catalog, matches[m]) {
        var duration := catalog[matches[m].challenge].duration;
        UpdateState(m, Active);
        matches := matches[m := matches[m].(startedAt := Some(now), deadlineAt := Some(now + duration))];
        started := true;
        assert matches == matches0[m := Start(ready, duration, now)];
      }
      if started {
        var rows := SeedWorkspaces(m);
        if rows == 0 {
          matches, trees := matches0, trees0;
          return Err(NoStartingWorkspace);
        }
      }
      assert u in matches[m].seats;
      var out := MatchById(m);
      r := Ok((out.value, started));
    }

    /** The insert-select that copies the challenge's files, and how many rows it touched. */
    method SeedWorkspaces(m: MatchId) returns (rows: nat)
      requires m in matches && matches[m].challenge in catalog
      modifies this`trees
      ensures
        var files := catalog[matches[m].challenge].files;
        && trees == old(trees) + SeedRows(old(trees), m, matches[m], files)
        && (rows > 0 <==> SeedsSomething(old(trees), m, matches[m], files))
    {
      var files := catalog[matches[m].challenge].files;
      var r := matches[m];
      rows := 0;
      var left := r.seats.Keys;
      ghost var was := trees;
      NobodySeeded(was, m, left, files);
      hide SeededBut, SeedRows, SeedsSomething, Lacks, Seeded, TreeOf;
      while left != {}
        invariant SeededBut(left, was, m, r.seats.Keys, files, trees, rows)
        decreases |left|
      {
        var v :| v in left;
        ghost var before := trees;
        var count := SeedOne(m, v, files);
        SeedOneMore(left, v, was, m, r.seats.Keys, files, before, rows, count);
        rows := rows + count;
        left := left - {v};
      }
      EverybodySeeded(was, m, r, files, trees, rows);
    }

    method SeedOne(m: MatchId, u: UserId, files: Tree) returns (rows: nat)
      modifies this`trees
      ensures trees == old(trees)[Owner(m, u) := Seeded(files, TreeOf(old(trees), m, u))]
      ensures rows > 0 <==> Lacks(TreeOf(old(trees), m, u), files)
    {
      hide Seeded, Lacks;
      var tree;
      tree, rows := SeedTree(TreeOf(trees, m, u), files);
      trees := trees[Owner(m, u) := tree];
    }

    method Submit(m: MatchId, u: UserId, now: int) returns (r: Result<(Match, bool), Error>)
      modifies this`matches
      ensures AtomicStep(old(Snapshot()), Op.Submit(m, u), now,
                         if r.Ok? then Moved(r.value.0, r.value.1) else Failed(r.error), Snapshot())
    {
      ghost var matches0 := matches;
      var current := MatchForPlayer(m, u);
      if current.Err? {
        return Err(current.error);
      }
      if !current.value.state.Active? {
        return Err(MatchNotActive);
      }
      if matches[m].seats[u].submittedAt.None? {
        var row := matches[m];
        matches := matches[m := row.(seats := row.seats[u := row.seats[u].(submittedAt := Some(now))])];
      }
      ghost var submitted := MarkSubmitted(matches0[m], u, now);
      assert matches == matches0[m := submitted];

      var judging := false;
      if CanFinish(matches[m]) {
        UpdateState(m, Judging);
        judging := true;
        assert matches == matches0[m := Judge(submitted)];
      }
      assert u in matches[m].seats;
      var out := MatchById(m);
      r := Ok((out.value, judging));
    }

    method Expire(m: MatchId, now: int) returns (moved: bool)
      modifies this`matches
      ensures AtomicStep(old(Snapshot()), Op.Expire(m), now, Expired(moved), Snapshot())
    {
      moved := false;
      if m in matches && Due(matches[m], now) {
        UpdateState(m, Judging);
        moved := true;
      }
    }

    /** ExpireDue while other transactions hold some match rows: up to limit of the due matches that
        are free, the ones longest overdue. */
    method ExpireDue(limit: int, held: set<MatchId>, now: int) returns (r: Result<seq<MatchId>, Error>)
      modifies this`matches
      ensures AtomicStep(old(Snapshot()), Op.ExpireDue(limit), now,
                         if r.Ok? then ExpiredAll(Members(r.value)) else Failed(r.error), Snapshot())
      ensures r.Ok? <==> limit >= 0
      ensures r.Ok? ==> Distinct(r.value) && Chosen(old(matches), r.value, limit, held, now)
    {
      var picked := PickDue(limit, held, now);
      if picked.Err? {
        return Err(picked.error);
      }
      var rows := picked.value;
      hide Chosen, Swept, DueMatches, AtomicStep, Distinct, Members;
      var expired: seq<MatchId> := [];
      ghost var was := matches;
      SweepNothing(was);
      for i := 0 to |rows|
        invariant expired == rows[..i]
        invariant matches == Swept(was, Members(rows[..i]))
      {
        var m := rows[i];
        SweepOneMore(was, rows, i, limit, held, now);
        UpdateState(m, Judging);
        expired := expired + [m];
      }
      assert expired == rows;
      SweepIsAtomic(Db(users, catalog, was, logs, trees), rows, limit, held, now);
      r := Ok(expired);
    }

    /** `order by deadline_at limit n for update skip locked`. */
    method PickDue(limit: int, held: set<MatchId>, now: int) returns (r: Result<seq<MatchId>, Error>)
      ensures limit < 0 <==> r == Err(ConstraintViolated)
      ensures limit >= 0 <==> r.Ok? && Distinct(r.value) && Chosen(matches, r.value, limit, held, now)
    {
      if limit < 0 {
        return Err(ConstraintViolated);
      }
      var rows: seq<MatchId> := [];
      var free := DueMatches(matches, now) - held;
      var left := free;
      while left != {} && |rows| < limit
        invariant left <= free && Members(rows) == free - left
        invariant Distinct(rows) && |rows| <= limit
        invariant forall m, n | m in rows && n in left :: Sooner(matches, m, n)
        decreases |left|
      {
        var m := Earliest(left, now);
        OneMember(rows, m);
        rows, left := rows + [m], left - {m};
      }
      PickedAreChosen(matches, rows, left, limit, held, now);
      r := Ok(rows);
    }

    method Earliest(due: set<MatchId>, now: int) returns (m: MatchId)
      requires due != {} && due <= DueMatches(matches, now)
      ensures m in due && forall n | n in due :: Sooner(matches, m, n)
    {
      m :| m in due;
      assert m in DueMatches(matches, now);
      var left := due - {m};
      while left != {}
        invariant m in due && left <= due
        invariant forall n | n in due && n !in left :: Sooner(matches, m, n)
        decreases |left|
      {
        var n :| n in left;
        assert n in DueMatches(matches, now) && m in DueMatches(matches, now);
        if matches[n].deadlineAt.value < matches[m].deadlineAt.value {
          m := n;
        }
        left := left - {n};
      }
    }

    // Workspaces.

    method RequireActive(m: MatchId, u: UserId) returns (e: Option<Error>)
      ensures e.None? <==> Seated(matches, m, u) && matches[m].state.Active?
      ensures e == Some(NotFound) <==> !Seated(matches, m, u)
      ensures e.None? || e == Some(NotFound) || e == Some(MatchNotActive)
    {
      if !(m in matches && u in matches[m].seats) {
        e := Some(NotFound);
      } else if !matches[m].state.Active? {
        e := Some(MatchNotActive);
      } else {
        e := None;
      }
    }

    /** The aggregate query: how many files there are besides path, and what they weigh. */
    method Room(m: MatchId, u: UserId, path: Path) returns (files: nat, bytes: nat)
      ensures files == |TreeOf(trees, m, u) - {path}|
      ensures bytes == Weights.Total(TreeOf(trees, m, u) - {path})
    {
      var others := TreeOf(trees, m, u) - {path};
      files, bytes := |others|, 0;
      var left := others;
      while left != map[]
        invariant bytes + Weights.Total(left) == Weights.Total(others)
        decreases |left|
      {
        var p :| p in left;
        Weights.Without(left, p);
        bytes := bytes + |left[p]|;
        left := left - {p};
      }
    }

    method WriteWorkspaceFile(m: MatchId, u: UserId, path: Path, content: Content) returns (r: Result<(), Error>)
      modifies this`trees
      ensures AtomicStep(old(Snapshot()), WriteFile(m, u, path, content), 0,
                         if r.Ok? then Done else Failed(r.error), Snapshot())
    {
      hide Paths.Valid;
      if !Paths.Valid(path) {
        return Err(InvalidPath);
      }
      if |content| > MAX_FILE_BYTES {
        return Err(FileTooLarge);
      }
      var refused := RequireActive(m, u);
      if refused.Some? {
        return Err(refused.value);
      }
      var files, bytes := Room(m, u, path);
      if files + 1 > MAX_WORKSPACE_FILES || bytes + |content| > MAX_WORKSPACE_BYTES {
        return Err(WorkspaceFull);
      }
      trees := trees[Owner(m, u) := TreeOf(trees, m, u)[path := content]];
      r := Ok(());
    }

    method DeleteWorkspaceFile(m: MatchId, u: UserId, path: Path) returns (r: Result<(), Error>)
      modifies this`trees
      ensures AtomicStep(old(Snapshot()), DeleteFile(m, u, path), 0,
                         if r.Ok? then Done else Failed(r.error), Snapshot())
    {
      hide Paths.Valid;
      if !Paths.Valid(path) {
        return Err(InvalidPath);
      }
      var refused := RequireActive(m, u);
      if refused.Some? {
        return Err(refused.value);
      }
      trees := trees[Owner(m, u) := TreeOf(trees, m, u) - {path}];
      r := Ok(());
    }

    // Events.

    method AppendEvent(m: MatchId, kind: string, payload: string) returns (r: Result<nat, Error>)
      requires logs.Keys == matches.Keys
      modifies this`logs
      ensures AtomicStep(old(Snapshot()), Op.AppendEvent(m, kind, payload), 0,
                         if r.Ok? then Appended(r.value) else Failed(r.error), Snapshot())
    {
      var logs0 := logs;
      var body := if payload == "" then "{}" else payload;
      if m !in logs {
        return Err(NotFound);
      }
      var number := logs[m].eventSeq + 1;
      logs := logs[m := logs[m].(eventSeq := number)];
      if kind == "" {
        logs := logs0;
        return Err(ConstraintViolated);
      }
      logs := logs[m := logs[m].(events := logs[m].events + [Event(number, kind, body)])];
      assert logs == logs0[m := WithEvent(logs0[m], kind, Payload(payload))];
      r := Ok(number);
    }

    /** Everything after the number a client last saw is exactly the rest of the log. */
    method EventsAfter(m: MatchId, number: int) returns (out: seq<Event>)
      requires m in logs ==> LogOk(logs[m])
      ensures m !in logs ==> out == []
      ensures m in logs ==> out == logs[m].events[Within(number, logs[m].eventSeq)..]
    {
      out := [];
      if m in logs {
        var events := logs[m].events;
        ghost var from := Within(number, logs[m].eventSeq);
        for i := 0 to |events|
          invariant out == if i <= from then [] else events[from..i]
        {
          if events[i].number > number {
            out := out + [events[i]];
          }
        }
      }
    }
  }

  function Within(x: int, n: nat): (y: nat)
    ensures y <= n
  {
    if x < 0 then 0 else if x <= n then x else n
  }

  function Members(ids: seq<MatchId>): set<MatchId> {
    set m | m in ids
  }

  lemma OneMember(ids: seq<MatchId>, m: MatchId)
    ensures Members(ids + [m]) == Members(ids) + {m}
  {}

  lemma SweepOneMore(was: Matches, rows: seq<MatchId>, i: nat, limit: nat, held: set<MatchId>, now: int)
    requires i < |rows| && Distinct(rows) && Chosen(was, rows, limit, held, now)
    ensures
      var m := rows[i];
      var ms := Swept(was, Members(rows[..i]));
      && m in ms && ms[m].state.Active?
      && Swept(was, Members(rows[..i + 1])) == ms[m := WithState(ms[m], Judging)]
  {
    assert rows[..i + 1] == rows[..i] + [rows[i]];
    hide Sooner, WithState;
    var m := rows[i];
    assert m in Members(rows) && m in DueMatches(was, now);
    assert m !in rows[..i];
    OneMember(rows[..i], m);
  }

  lemma SweepNothing(ms: Matches)
    ensures Swept(ms, Members([])) == ms
  {}

  lemma SweepIsAtomic(db: Db, rows: seq<MatchId>, limit: nat, held: set<MatchId>, now: int)
    requires Distinct(rows) && Chosen(db.matches, rows, limit, held, now)
    ensures AtomicStep(db, ExpireDue(limit), now, ExpiredAll(Members(rows)),
                       db.(matches := Swept(db.matches, Members(rows))))
  {
    hide Swept, Sooner;
    DistinctSize(rows);
  }

  predicate Distinct(ids: seq<MatchId>) {
    forall i, j | 0 <= i < j < |ids| :: ids[i] != ids[j]
  }

  lemma {:induction false} DistinctSize(ids: seq<MatchId>)
    requires Distinct(ids)
    ensures |Members(ids)| == |ids|
  {
    if ids == [] {
      assert Members(ids) == {};
    } else {
      DistinctSize(ids[1..]);
      assert Members(ids) == {ids[0]} + Members(ids[1..]);
    }
  }

  predicate Sooner(ms: Matches, m: MatchId, n: MatchId) {
    && m in ms && n in ms && ms[m].deadlineAt.Some? && ms[n].deadlineAt.Some?
    && ms[m].deadlineAt.value <= ms[n].deadlineAt.value
  }

  /** As many due and free matches as the limit allows, and none left that has waited longer. */
  ghost predicate Chosen(ms: Matches, ids: seq<MatchId>, limit: int, held: set<MatchId>, now: int) {
    var free := DueMatches(ms, now) - held;
    && Members(ids) <= free && |ids| <= limit
    && (|ids| < limit ==> Members(ids) == free)
    && (forall m, n | m in ids && n in free && n !in ids :: Sooner(ms, m, n))
  }

  /** The rows picked are due and free, and any other row like them was due no sooner than any of them, and
      was left only because the limit was reached. */
  lemma LongestOverdueFirst(ms: Matches, ids: seq<MatchId>, limit: int, held: set<MatchId>, now: int)
    requires Chosen(ms, ids, limit, held, now)
    ensures |ids| <= limit
    ensures forall m | m in ids ::
              && m in ms && m !in held && ms[m].state.Active?
              && ms[m].deadlineAt.Some? && ms[m].deadlineAt.value <= now
    ensures forall n | n in ms && n !in held && n !in ids && ms[n].state.Active?
                       && ms[n].deadlineAt.Some? && ms[n].deadlineAt.value <= now ::
              |ids| == limit && forall m | m in ids :: ms[m].deadlineAt.value <= ms[n].deadlineAt.value
  {
    var free := DueMatches(ms, now) - held;
    forall m | m in ids ensures m in free {
      assert m in Members(ids);
    }
    forall n | n in free && n !in ids ensures |ids| == limit {
      assert n !in Members(ids);
    }
    assert forall m, n | m in ids && n in free && n !in ids :: Sooner(ms, m, n);
  }

  lemma PickedAreChosen(
      ms: Matches, rows: seq<MatchId>, left: set<MatchId>, limit: nat, held: set<MatchId>, now: int)
    requires left <= DueMatches(ms, now) - held && Members(rows) == DueMatches(ms, now) - held - left
    requires |rows| <= limit && (left == {} || |rows| == limit)
    requires forall m, n | m in rows && n in left :: Sooner(ms, m, n)
    ensures Chosen(ms, rows, limit, held, now)
  {
    hide DueMatches, Sooner;
    forall m, n | m in rows && n in DueMatches(ms, now) - held && n !in rows ensures Sooner(ms, m, n) {
      assert n !in Members(rows);
    }
  }

  predicate Lacks(tree: Tree, files: Tree) {
    exists p | p in files :: p !in tree
  }

  lemma FileOneMore(files: Tree, left: set<Path>, was: Tree, p: Path)
    requires p in left && left <= files.Keys
    ensures Seeded(files - (left - {p}), was)
            == if p in was then Seeded(files - left, was) else Seeded(files - left, was)[p := files[p]]
    ensures Lacks(was, files - (left - {p})) <==> Lacks(was, files - left) || p !in was
    ensures p in Seeded(files - left, was) <==> p in was
  {
    var more := files - (left - {p});
    assert p in more;
    assert forall q | q in more :: q == p || q in files - left;
  }

  /** What the insert has done and counted once all of these players but those left have had their rows. */
  ghost predicate SeededBut(left: set<UserId>, was: map<Owner, Tree>, m: MatchId, users: set<UserId>, files: Tree,
                            trees: map<Owner, Tree>, rows: nat) {
    left <= users && SeededSoFar(was, m, users - left, files, trees, rows)
  }

  ghost predicate SeededSoFar(was: map<Owner, Tree>, m: MatchId, done: set<UserId>, files: Tree,
                              trees: map<Owner, Tree>, rows: nat) {
    && trees == was + SeededTrees(was, m, done, files)
    && (rows > 0 <==> SomeoneLacks(was, m, done, files))
  }

  ghost predicate SomeoneLacks(was: map<Owner, Tree>, m: MatchId, users: set<UserId>, files: Tree) {
    exists u | u in users :: Lacks(TreeOf(was, m, u), files)
  }

  lemma NobodySeeded(was: map<Owner, Tree>, m: MatchId, users: set<UserId>, files: Tree)
    ensures SeededBut(users, was, m, users, files, was, 0)
  {
    assert users - users == {};
    assert SeededTrees(was, m, {}, files) == map[];
  }

  lemma SeedOneMore(left: set<UserId>, v: UserId, was: map<Owner, Tree>, m: MatchId, users: set<UserId>, files: Tree,
                    trees: map<Owner, Tree>, rows: nat, count: nat)
    requires v in left
    requires SeededBut(left, was, m, users, files, trees, rows)
    requires count > 0 <==> Lacks(TreeOf(trees, m, v), files)
    ensures SeededBut(left - {v}, was, m, users, files,
                      trees[Owner(m, v) := Seeded(files, TreeOf(trees, m, v))], rows + count)
  {
    hide SeededSoFar, Seeded, Lacks, TreeOf;
    var done := users - left;
    assert users - (left - {v}) == done + {v};
    SeededOneMore(was, m, done, v, files, trees, rows, count);
  }

  lemma SeededOneMore(was: map<Owner, Tree>, m: MatchId, done: set<UserId>, v: UserId, files: Tree,
                      trees: map<Owner, Tree>, rows: nat, count: nat)
    requires v !in done
    requires SeededSoFar(was, m, done, files, trees, rows)
    requires count > 0 <==> Lacks(TreeOf(trees, m, v), files)
    ensures SeededSoFar(was, m, done + {v}, files, trees[Owner(m, v) := Seeded(files, TreeOf(trees, m, v))],
                        rows + count)
  {
    NotYetSeeded(was, m, done, v, files);
    TreesOneMore(was, m, done, v, files);
    LacksOneMore(was, m, done, v, files);
    hide SeededTrees, SomeoneLacks, TreeOf, Seeded, Lacks;
    SetLater(was, SeededTrees(was, m, done, files), Owner(m, v), Seeded(files, TreeOf(was, m, v)));
  }

  lemma SetLater<K, V>(a: map<K, V>, b: map<K, V>, k: K, v: V)
    ensures (a + b)[k := v] == a + b[k := v]
  {}

  lemma NotYetSeeded(was: map<Owner, Tree>, m: MatchId, done: set<UserId>, v: UserId, files: Tree)
    requires v !in done
    ensures TreeOf(was + SeededTrees(was, m, done, files), m, v) == TreeOf(was, m, v)
  {
    hide Seeded;
  }

  lemma TreesOneMore(was: map<Owner, Tree>, m: MatchId, done: set<UserId>, v: UserId, files: Tree)
    ensures SeededTrees(was, m, done + {v}, files)
            == SeededTrees(was, m, done, files)[Owner(m, v) := Seeded(files, TreeOf(was, m, v))]
  {
    hide Seeded, TreeOf;
  }

  lemma LacksOneMore(was: map<Owner, Tree>, m: MatchId, done: set<UserId>, v: UserId, files: Tree)
    ensures SomeoneLacks(was, m, done + {v}, files) <==>
            SomeoneLacks(was, m, done, files) || Lacks(TreeOf(was, m, v), files)
  {
    hide Lacks, TreeOf;
    assert v in done + {v};
  }

  lemma EverybodySeeded(was: map<Owner, Tree>, m: MatchId, r: Match, files: Tree, trees: map<Owner, Tree>, rows: nat)
    requires SeededBut({}, was, m, r.seats.Keys, files, trees, rows)
    ensures trees == was + SeedRows(was, m, r, files)
    ensures rows > 0 <==> SeedsSomething(was, m, r, files)
  {
    hide TreeOf;
    assert r.seats.Keys - {} == r.seats.Keys;
  }

  /** One player's rows of the seeding insert. */
  method SeedTree(was: Tree, files: Tree) returns (tree: Tree, rows: nat)
    ensures tree == Seeded(files, was)
    ensures rows > 0 <==> Lacks(was, files)
  {
    hide Seeded, Lacks;
    tree, rows := was, 0;
    var left := files.Keys;
    NoFileYet(files, was);
    while left != {}
      invariant left <= files.Keys
      invariant tree == Seeded(files - left, was)
      invariant rows > 0 <==> Lacks(was, files - left)
      decreases |left|
    {
      var p :| p in left;
      FileOneMore(files, left, was, p);
      if p !in tree {
        tree := tree[p := files[p]];
        rows := rows + 1;
      }
      left := left - {p};
    }
    assert files - left == files;
  }

  lemma NoFileYet(files: Tree, was: Tree)
    ensures Seeded(files - files.Keys, was) == was && !Lacks(was, files - files.Keys)
  {}

  /** freeSlot: the lowest seat nobody holds. */
  method FreeSlotOf(r: Match) returns (slot: Option<int>)
    ensures slot == FreeSlot(r)
    ensures slot.Some? ==> 1 <= slot.value <= 2 && forall u | u in r.seats :: r.seats[u].slot != slot.value
    ensures forall s | 1 <= s <= 2 && (slot.Some? ==> s < slot.value) :: SlotTaken(r, s)
  {
    var taken: set<int> := {};
    var left := r.seats.Keys;
    while left != {}
      invariant left <= r.seats.Keys
      invariant taken == set u | u in r.seats && u !in left :: r.seats[u].slot
      decreases |left|
    {
      var u :| u in left;
      taken := taken + {r.seats[u].slot};
      left := left - {u};
    }
    for s := 1 to SLOTS + 1
      invariant forall k | 1 <= k < s :: SlotTaken(r, k)
    {
      if s !in taken {
        return Some(s);
      }
    }
    slot := None;
  }

  lemma EmptyLobbySeatsNobody(ms: Matches, id: MatchId, key: Key, code: Code, u: UserId)
    requires id !in ms
    ensures UserTaken(ms[id := NewMatch(key, code)], u) == UserTaken(ms, u)
  {
    var ms' := ms[id := NewMatch(key, code)];
    assert forall m | m in ms :: UnfinishedSeat(ms, m, u) == UnfinishedSeat(ms', m, u);
  }
}
