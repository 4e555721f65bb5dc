/**
 The tables a match lives in, and what each single statement does to the rows of one match.

 A `Match` holds the row of `matches` together with its rows of `match_players`, because every
 writer of either takes the match row first. `event_seq` is kept beside the events it numbers, in a
 `Log`, so a `Match` is exactly what `matchByID` reads.
 */
module Rows {
  import opened Prelude

  type MatchId = nat
  type UserId = nat
  type Code = string
  type Path = string
  type Content = string   // one char per byte

  datatype Key = Key(id: string, version: int)

  datatype State = Lobby | Active | Judging | Complete | Abandoned

  datatype Seat = Seat(slot: int, readyAt: Option<int>, submittedAt: Option<int>, unfinished: bool)

  datatype Match = Match(
    code: Code,
    challenge: Key,
    state: State,
    startedAt: Option<int>,
    deadlineAt: Option<int>,
    endedAt: Option<int>,
    seats: map<UserId, Seat>)

  datatype Event = Event(number: nat, kind: string, payload: string)

  datatype Log = Log(eventSeq: nat, events: seq<Event>)

  type Tree = map<Path, Content>

  datatype Owner = Owner(match_: MatchId, user: UserId)

  datatype Challenge = Challenge(duration: int, files: Tree)

  datatype Db = Db(
    users: set<UserId>,
    catalog: map<Key, Challenge>,
    matches: map<MatchId, Match>,
    logs: map<MatchId, Log>,
    trees: map<Owner, Tree>)

  /** The store's sentinel errors; ConstraintViolated stands for any other schema constraint, which
      `translate` passes through unchanged. */
  datatype Error =
    | NotFound
    | LobbyCodeTaken
    | InUnfinishedMatch
    | LobbyFull
    | MatchStarted
    | LobbyIncomplete
    | MatchNotActive
    | NoStartingWorkspace
    | WorkspaceFull
    | FileTooLarge
    | InvalidPath
    | ConstraintViolated

  const SLOTS := 2

  /** The set of states the triggers of migration 0003 call unfinished. */
  predicate Unfinished(s: State) {
    s.Lobby? || s.Active? || s.Judging?
  }

  type Matches = map<MatchId, Match>

  function TreeOf(trees: map<Owner, Tree>, m: MatchId, u: UserId): Tree {
    if Owner(m, u) in trees then trees[Owner(m, u)] else map[]
  }

  // Inserts.

  function NewMatch(key: Key, code: Code): Match {
    Match(code, key, Lobby, None, None, None, map[])
  }

  /** A seat insert; the derive trigger computes `unfinished` from the match row. */
  function WithSeat(r: Match, u: UserId, slot: int): Match {
    r.(seats := r.seats[u := Seat(slot, None, None, Unfinished(r.state))])
  }

  // The state update and the trigger that follows it.

  function Synced(seats: map<UserId, Seat>, s: State): map<UserId, Seat> {
    map u | u in seats :: seats[u].(unfinished := Unfinished(s))
  }

  function WithState(r: Match, s: State): (r': Match)
    ensures r'.seats.Keys == r.seats.Keys
  {
    r.(state := s, seats := Synced(r.seats, s))
  }

  // Guarded updates of matches.go and lobbies.go.

  function Abandon(r: Match, now: int): Match {
    if r.state.Lobby? then WithState(r, Abandoned).(endedAt := Some(now)) else r
  }

  function MarkReady(r: Match, u: UserId, now: int): Match {
    if u in r.seats && r.seats[u].readyAt.None?
    then r.(seats := r.seats[u := r.seats[u].(readyAt := Some(now))])
    else r
  }

  predicate AllReady(r: Match) {
    forall u | u in r.seats :: r.seats[u].readyAt.Some?
  }

  predicate CanStart(catalog: map<Key, Challenge>, r: Match) {
    r.challenge in catalog && r.state.Lobby? && |r.seats| == SLOTS && AllReady(r)
  }

  function Start(r: Match, duration: int, now: int): Match {
    WithState(r, Active).(startedAt := Some(now), deadlineAt := Some(now + duration))
  }

  function MarkSubmitted(r: Match, u: UserId, now: int): Match {
    if u in r.seats && r.seats[u].submittedAt.None?
    then r.(seats := r.seats[u := r.seats[u].(submittedAt := Some(now))])
    else r
  }

  predicate AllSubmitted(r: Match) {
    forall u | u in r.seats :: r.seats[u].submittedAt.Some?
  }

  predicate CanFinish(r: Match) {
    r.state.Active? && AllSubmitted(r)
  }

  predicate Due(r: Match, now: int) {
    r.state.Active? && r.deadlineAt.Some? && r.deadlineAt.value <= now
  }

  function Judge(r: Match): Match {
    WithState(r, Judging)
  }

  // Partial unique indexes.

  predicate OpenLobby(ms: Matches, m: MatchId, code: Code) {
    m in ms && ms[m].state.Lobby? && ms[m].code == code
  }

  predicate CodeTaken(ms: Matches, code: Code) {
    exists m | m in ms :: OpenLobby(ms, m, code)
  }

  predicate UnfinishedSeat(ms: Matches, m: MatchId, u: UserId) {
    m in ms && u in ms[m].seats && ms[m].seats[u].unfinished
  }

  predicate UserTaken(ms: Matches, u: UserId) {
    exists m | m in ms :: UnfinishedSeat(ms, m, u)
  }

  predicate Seated(ms: Matches, m: MatchId, u: UserId) {
    m in ms && u in ms[m].seats
  }

  // Seat choice (freeSlot).

  predicate SlotTaken(r: Match, slot: int) {
    exists u | u in r.seats :: r.seats[u].slot == slot
  }

  function FreeSlot(r: Match): Option<int> {
    if !SlotTaken(r, 1) then Some(1)
    else if !SlotTaken(r, 2) then Some(2)
    else None
  }

  // Workspace rows.

  /** `insert ... on conflict do nothing`: rows that are already there win. */
  function Seeded(files: Tree, tree: Tree): Tree {
    files + tree
  }

  function Owners(m: MatchId, users: set<UserId>): (owners: set<Owner>)
    ensures forall o :: o in owners <==> o.match_ == m && o.user in users
  {
    var owners := set u | u in users :: Owner(m, u);
    assert forall o: Owner | o.match_ == m && o.user in users :: o == Owner(m, o.user);
    owners
  }

  /** The trees the seeding insert leaves for some of the players. */
  function SeededTrees(trees: map<Owner, Tree>, m: MatchId, users: set<UserId>, files: Tree): map<Owner, Tree> {
    map o | o in Owners(m, users) :: Seeded(files, TreeOf(trees, m, o.user))
  }

  function SeedRows(trees: map<Owner, Tree>, m: MatchId, r: Match, files: Tree): map<Owner, Tree> {
    SeededTrees(trees, m, r.seats.Keys, files)
  }

  /** Whether the seeding insert touched at least one row. */
  predicate SeedsSomething(trees: map<Owner, Tree>, m: MatchId, r: Match, files: Tree) {
    exists u, p | u in r.seats && p in files :: p !in TreeOf(trees, m, u)
  }

  function WithEvent(l: Log, kind: string, payload: string): Log {
    Log(l.eventSeq + 1, l.events + [Event(l.eventSeq + 1, kind, payload)])
  }
}
