# DevDuel, modelled and proved in Dafny

DevDuel runs timed duels: two players join a lobby, start from the same broken code, and are judged by
hidden tests in a container when both have submitted or the clock has run out. This project models the
parts of it whose correctness is spread over several functions, and proves what those parts promise.
`dafny verify dfyconfig.toml` checks everything.

## What is modelled

**The match store** (`internal/store`). A database is finite maps: match rows with their seats, event
logs, workspace trees, and the challenge catalogue.

- `Rows.dfy` says what single statements and triggers do to rows, `Transitions.dfy` what each operation
  does as one step. `Outcomes.dfy` says of each step when which answer is due and what is different
  afterwards, `Soundness.dfy` has the invariant, and `Runs.dfy` what follows for whole runs.
- `Queries.dfy` is the imperative form: a class whose methods follow the Go methods statement by
  statement, including the triggers' loops and what a failed transaction puts back. Every method is
  proved to be the atomic step of its operation, so what is proved about steps holds of the methods.
- `Interleaving.dfy` takes the same operations one SQL statement at a time, in any number of concurrent
  transactions under READ COMMITTED with row locks held to the end, inserts waiting on uncommitted
  unique-index entries, `skip locked`, and transactions that abort at any point. `Simulation.dfy` proves
  that the committed outcome is always that of whole operations in some order, namely the order the
  transactions ended, and what follows for every interleaving; `Waiting.dfy` proves that they cannot
  deadlock and can always all be finished, and `LockGap.dfy` shows what the one guard on ids keeps out.
- `EventLog.dfy` is the gapless log under nested transactions (savepoints) and rollbacks, with polling
  clients. `Rollbacks.dfy` says which events a log ends up with from the calls alone.
- `Workspace.dfy` and `Catalog.dfy` load and register a challenge, up to the limits the invariant starts
  from. `Migrate.dfy` and `Migrators.dfy` are the schema runner, alone and among others.

**The results pipeline.** `CappedBuffer.dfy` is the two-ended output buffer, `ResultDocument.dfy` the
search for the result document in what it shows, `Results.dfy` parsing and collecting, `Verify.dfy` the
inspection of a challenge's three runs, and `Verdict.dfy` the whole way from requirements to verdict.

**The judge and the finalizer.** `Judge.dfy` follows who owns which network and container, as a class
for one run and as a transition system for many. `Finalizer.dfy` is the sweep loop over `Queries`.

**Codecs.** `Ids.dfy`, `Base64.dfy`, `PasswordHash.dfy`, `SessionToken.dfy`.

`Prelude.dfy`, `Text.dfy`, `Decimals.dfy`, `Sorting.dfy`, `Weights.dfy` and `Paths.dfy` are shared
vocabulary.

## How the model reads the code

- A `now` is a parameter: `now()` is fixed per transaction. So are fresh ids, lobby codes, random bytes,
  digests, key derivation, JSON decoding and every failure of the runtime or the database.
- Strings stand for bytes, one `char` each, except that the numbers of a password hash are scanned rune by
  rune, as package fmt does; integers are unbounded except where the code's width shows
  (the milliseconds of an id, the nanoseconds of a duration, the widths of scanned parameters).
- A statement that has to wait is a statement that is not taken yet. JoinLobby's locking select is
  evaluated when its lock is free. A statement that fails writes nothing, so it may be placed at the
  moment it is evaluated.
- A commit and the answer to it are one event, except in `Migrate.dfy` and `Migrators.dfy`, where a commit
  may stand although its answer never comes.
- ExpireDue picks its rows one by one, each at a moment when nobody holds it.

## Where code and comments part, and what turned out false

- The buffer's comment promises at most one and a half times the limit at any moment. That holds after
  each Write exactly for even limits: every buffer can be filled to the bound (`FillTheSlack`). Within a
  Write the whole chunk is held.
- Truncation can make a marker line out of the end of a longer line (`CutCanForgeAMarker`), so a run
  that reported nothing may seem to have reported something. It does exactly when one of the two lines
  the cut leaves, the last of the head or the first of the tail, reads as the marker
  (`SilenceSurvivesTruncation`).
- `duration_ms` wraps above 9223372036854 (`DurationIsExact`).
- `checkWorkspace` compares file maps exactly for the lists in which no path occurs twice
  (`CheckIsEqualityIffDistinct`). `RegisterChallenge` takes any list, so a caller that puts one together
  by hand can repeat a path; `LoadWorkspace`, which the server uses, reads a directory and cannot.
- A version or a weight can pass validation and be refused by the catalogue, because both are integer
  columns; no other constraint of the schema can fail for one with a loaded workspace
  (`LoadedChallengeRegisters`).
- The lock statement of ReadyUp, Submit and CancelLobby finds no row for a match that is not committed
  yet, and the call then goes on without a lock if the commit comes before its next read. Two ReadyUp
  calls in that position pass each other by: `WithoutTheGuardHistoryIsNoRun` has the run, and
  `UnlockedReadiesStrandTheMatch` what it leaves, both players ready and the match not started. The
  interleaved results therefore rest on ids that nobody can name before CreateLobby has returned them,
  which the guard `Unguessed` states. Ids are 74 random bits and a time.
- A migration whose commit is not heard of has run, although the process that ran it reports neither it
  nor success (`EachVersionRunsOnce`).
- The judge's name for the network of job `a-runner` is its name for the runner container of job `a`
  (`NetworksCanBeNamedLikeContainers`). Docker keeps the two kinds apart, and so does the model.
- `Time` undoes `newAt` exactly from 1970 until 2^48 milliseconds later (`TimeUndoesNewAt`).

## Model

| member | source | states |
|---|---|---|
| `Soundness.EveryStepKeepsSound` | internal/store/matches.go:28-197 | Every operation, from any state the invariant holds of, ends in one it holds of: seats, clock, memberships, lobby codes, logs, trees and ceilings together. |
| `Soundness.CreateLobbyKeeps` | internal/store/lobbies.go:79-103 | Opening a lobby keeps the whole invariant, whichever of its five outcomes it has. |
| `Soundness.JoinLobbyKeeps` | internal/store/lobbies.go:112-155 | Taking the second seat keeps the invariant: two players, different slots, no second unfinished membership. |
| `Soundness.CancelLobbyKeeps` | internal/store/lobbies.go:201-225 | Cancelling keeps the invariant in every state a match can be found in. |
| `Soundness.ReadyUpKeeps` | internal/store/matches.go:28-85 | Readying up keeps the invariant: a full lobby with both players ready never exists, because the call that completes the pair starts the match and fills both trees. |
| `Soundness.SubmitKeeps` | internal/store/matches.go:93-131 | Submitting keeps the invariant: an active match with both submissions never exists. |
| `Soundness.ExpireKeeps` | internal/store/matches.go:143-152 | The lazy deadline check keeps the invariant. |
| `Soundness.SweepKeeps` | internal/store/matches.go:168-197 | Moving any set of active matches at once keeps the invariant. |
| `Soundness.AppendEventKeeps` | internal/store/events.go:30-58 | A bumped counter and its event keep every log numbered 1..event_seq. |
| `Soundness.WriteFileKeeps` | internal/store/workspaces.go:95-133 | A write that passes the checks leaves at most 400 files, 8 MiB in all and 1 MiB each, counting the old file out and the new one in. |
| `Soundness.DeleteFileKeeps` | internal/store/workspaces.go:137-154 | A delete keeps the ceilings and everything else. |
| `Soundness.SeedingIsExact` | internal/store/matches.go:209-227 | Although seeding is "on conflict do nothing", it writes exactly the challenge's files, because no workspace row exists while the match is a lobby. |
| `Soundness.FreeSlotMeansRoom` | internal/store/lobbies.go:158-169 | A seat is free exactly while there is one player, and the free seat is 1 or 2 and unoccupied. |
| `Soundness.ReleaseKeepsIndexes` | internal/store/migrations/0003_lobby_membership.sql:18-59 | A state change that opens nothing new keeps both partial unique indexes, with the memberships the trigger recomputes. |
| `Soundness.SeatKeepsIndexes` | internal/store/migrations/0003_lobby_membership.sql:23-43 | A derived membership inserted for a player with no other keeps both partial unique indexes. |
| `Soundness.SyncKeepsSeats` | internal/store/migrations/0003_lobby_membership.sql:49-59 | After the trigger every seat's flag says again whether its match is unfinished, and slots and marks are as they were. |
| `Soundness.StartOk` | internal/store/migrations/0001_init.sql:123-131 | Starting satisfies the clock constraints: whole, set once played, deadline after start. |
| `Queries.Queries.InsertSeat` | internal/store/migrations/0003_lobby_membership.sql:18-43 | A seat is inserted with the derived flag exactly when player and seat are free in the match, an unfinished membership would be the player's only one, and the player exists; otherwise the right error and no change. |
| `Queries.Queries.UpdateState` | internal/store/migrations/0003_lobby_membership.sql:49-59 | A state change and the trigger's loop over the seats amount to the new state with every flag recomputed and nothing else touched. |
| `Queries.Queries.MatchForPlayer` | internal/store/lobbies.go:174-183 | A player gets their match, and anyone else exactly the answer of a match that is not there. |
| `Queries.Queries.CurrentMatch` | internal/store/lobbies.go:187-194 | In a sound database the answer is the one match the player holds an unfinished seat in, or "not found" exactly when there is none. |
| `Queries.Queries.CreateLobby` | internal/store/lobbies.go:79-103 | The two inserts, with all that can refuse them, are one atomic step; a refused second insert takes the first back. |
| `Queries.Queries.JoinLobby` | internal/store/lobbies.go:112-155 | Finding the open lobby, choosing the seat and inserting it are one atomic step: "not found" exactly when no open lobby has the code, and otherwise the lobby that has it is the only row that may change; a newcomer who gets in fills it. |
| `Queries.Queries.CancelLobby` | internal/store/lobbies.go:201-225 | One atomic step, idempotent on an abandoned lobby, refused once the match has started. |
| `Queries.Queries.ReadyUp` | internal/store/matches.go:28-85 | Mark, guarded start, seeding and read-back are one atomic step; seeding that touches no row takes the start back. |
| `Queries.Queries.SeedWorkspaces` | internal/store/matches.go:209-227 | The insert loop gives each player the challenge's files under the rows already there, and reports rows exactly when some row was missing. |
| `Queries.Queries.Submit` | internal/store/matches.go:93-131 | Mark and guarded move to judging are one atomic step, repeatable by the same player. |
| `Queries.Queries.Expire` | internal/store/matches.go:143-152 | Moves exactly the named match, exactly when it is active and past its deadline. |
| `Queries.Queries.ExpireDue` | internal/store/matches.go:168-197 | Moves up to limit distinct due matches nobody holds, all of them if they fit the limit, and otherwise the ones longest overdue; the loop of updates is one atomic sweep. A negative limit is an error that moves nothing. |
| `Queries.Queries.PickDue` | internal/store/matches.go:168-177 | The locking subselect returns distinct, due, free rows, full up to the limit, and leaves no row that was due sooner; it fails exactly for a negative limit. |
| `Queries.LongestOverdueFirst` | internal/store/matches.go:154-177 | Every row picked is active, past its deadline and free, and any other such row is left only for the limit and was due no sooner than all of them. |
| `Queries.Queries.Room` | internal/store/workspaces.go:95-133 | The aggregate counts and weighs exactly the other files of the tree. |
| `Queries.Queries.WriteWorkspaceFile` | internal/store/workspaces.go:95-133 | One atomic step: path, size, who and when, and room are checked in that order, and a refusal changes nothing. |
| `Queries.Queries.DeleteWorkspaceFile` | internal/store/workspaces.go:137-154 | One atomic step: only the named file of the caller's own tree goes, and only while the match is active. |
| `Outcomes.WhoMayWrite` | internal/store/workspaces.go:157-176 | The check lets through exactly those who can change their tree; a stranger gets the answer they would get if the match were not there; whoever passes is in a running, unfinished match of theirs. |
| `Queries.Queries.AppendEvent` | internal/store/events.go:30-58 | The bump and the insert are one atomic step that returns the new number; a refused insert takes the bump back. |
| `Queries.Queries.EventsAfter` | internal/store/events.go:63-85 | On a gapless log the rows after a number are exactly the rest of the log, for any number asked for, negative ones and ones beyond the end included. |
| `Queries.FreeSlotOf` | internal/store/lobbies.go:158-169 | The scan over the taken seats finds the lowest of 1 and 2 that nobody holds, or none when both are held. |
| `Runs.EveryStateIsSound` | internal/store/matches.go:28-197 | The invariant holds of every state of every run of operations, in any order and at any times. |
| `Runs.LifeOfAMatch` | internal/store/migrations/0001_init.sql:107-131 | Between any two moments of any run a match only goes lobby, active, judging in that order, or lobby, abandoned; nothing becomes complete. |
| `Runs.StartedExactlyOnce` | internal/store/matches.go:14-85 | In any run, exactly one ReadyUp call reports having started a match that has started, and none does for one that has not. |
| `Runs.ClaimedExactlyOnce` | internal/store/matches.go:87-197 | Of all Submit, Expire and ExpireDue calls in any run, exactly one claims the move to judging of a match that got there, and none otherwise. |
| `Runs.ClockIsWrittenOnce` | internal/store/migrations/0001_init.sql:123-131 | Once a clock is set it is the same in every later state. |
| `Runs.StartSetsTheClock` | internal/store/matches.go:28-85 | The call that reports the start set the clock to its own time and the deadline to that plus the challenge's duration. |
| `Runs.CurrentMatchIsSingle` | internal/store/lobbies.go:187-194 | The seats flagged unfinished are exactly those in matches that are in lobby, active or judging; a player counts as taken exactly while they sit in one, and then in only one. |
| `Runs.CancelFreesBothPlayers` | internal/store/lobbies.go:195-225 | After a lobby is cancelled neither of its players holds an unfinished seat anywhere. |
| `Runs.TreesChangeOnlyWhileActive` | internal/store/workspaces.go:163-176 | A step changes a tree only if it starts the tree's match, or is a write or delete by the tree's own player while the match is active. |
| `Runs.TreesFreezeAtJudging` | internal/store/workspaces.go:157-176 | From the state a match enters judging, its trees are the same in every later state. |
| `Runs.BothStartFromTheSameCode` | internal/store/matches.go:66-85 | At the step that starts a match both players' trees equal the challenge's files. |
| `Runs.TreesStayWithinCeilings` | internal/store/workspaces.go:24-29 | In every state of every run each tree has at most 400 files, 8 MiB in all and 1 MiB each. |
| `Outcomes.CreateLobbyAnswers` | internal/store/lobbies.go:71-103 | Every answer exactly when it is due; a lobby that opens is shown as it is written: the code and challenge asked for, no clock, the host unmarked in seat 1, an empty log, and nothing else changed. |
| `Outcomes.JoinLobbyGoesByCode` | internal/store/lobbies.go:105-155 | The lobby joined is the open one the code names, which is shown as it then is and is all that changes; exactly a code that names no open lobby is not found. |
| `Outcomes.JoinLobbyAnswers` | internal/store/lobbies.go:105-155 | Full, already playing and let in, each exactly when; someone already seated is shown the lobby again unchanged. |
| `Outcomes.JoiningTakesTheFreeSeat` | internal/store/lobbies.go:112-169 | A newcomer gets the other seat, unmarked, and nothing else changes. |
| `Outcomes.CancelLobbyAnswers` | internal/store/lobbies.go:195-225 | Every answer exactly when it is due; cancelling a lobby marks it abandoned and ended now, clears both flags and leaves seats, marks, logs, trees and other matches alone. |
| `Outcomes.CancelledLobbyCanBeReopened` | internal/store/lobbies.go:195-225 | A cancelled lobby gives back its code and both its players: either of them can open a lobby under the same code at once. |
| `Outcomes.ReadyUpAnswers` | internal/store/matches.go:14-85 | Every answer exactly when it is due: in a full lobby the call starts the match exactly when the other player is ready, and fails for want of a workspace exactly when the challenge has no files; of the row only the caller's mark and, at a start, state, flags and clock change, and nobody else's tree. |
| `Outcomes.SubmitAnswers` | internal/store/matches.go:87-131 | Every answer exactly when it is due: the call claims the match exactly when the other player has submitted; only the caller's own submission is new, the first time stays, and of the row only the state can change besides. |
| `Outcomes.ExpireAnswers` | internal/store/matches.go:133-152 | Moves a match exactly when it is active and its challenge's duration since its start has passed; seats keep their marks, and nothing but its state and flags changes. |
| `Outcomes.ExpireDueAnswers` | internal/store/matches.go:154-197 | A sweep moves at most as many matches as asked for, each of them one Expire would move and as Expire would, and leaves all others alone. |
| `Outcomes.DueMeansTimeIsUp` | internal/store/matches.go:133-152 | The due matches are exactly the active ones whose start plus their challenge's duration has come. |
| `Outcomes.WriteFileAnswers` | internal/store/workspaces.go:89-133 | Bad path, too large, no such match, not active and full, each exactly when it is the first that applies; otherwise, when the tree after the write has at most 400 files and 8 MiB, that tree, and nothing else, is written. |
| `Outcomes.DeleteFileAnswers` | internal/store/workspaces.go:135-154 | Succeeds exactly for a valid path of a seated player's active match, and then takes that file out of their tree and changes nothing else. |
| `Outcomes.DeleteUndoesWrite` | internal/store/workspaces.go:89-154 | Deleting what was just written always succeeds and leaves the tree without that file and nothing else changed, which is the tree as it was if the file was new. |
| `Outcomes.AppendedEventStays` | internal/store/events.go:22-58 | In any run, the number AppendEvent gave its caller is where its event is, with its kind and payload, in every later state. |
| `Outcomes.AMatchCanBePlayed` | internal/store/matches.go:10-131 | From any sound state two free players can create, join, ready up and submit; the second ready starts the match and the second submission sends it to judging. |
| `Simulation.InterleavedIsAtomic` | internal/store/matches.go:14-238 | After any interleaving of the statements of any number of transactions, with aborts at any point, the recorded answers and the committed database are those of a run of whole operations in the order the transactions ended. |
| `Simulation.StepKeepsInv` | internal/store/lobbies.go:79-225 | Every statement, pick, commit, abort and file step keeps what each transaction has established about the committed rows, and keeps transactions apart in rows, codes and memberships. |
| `Simulation.CommitIsAtomic` | internal/store/store.go:101-120 | At commit, merging a transaction's private rows is its whole operation applied to the database as it is then. |
| `Simulation.CommitLeavesOthersUndisturbed` | internal/store/migrations/0003_lobby_membership.sql:25-43 | A commit changes no row, index entry or tree another transaction in flight relies on. |
| `Simulation.StatementGoes` | internal/store/matches.go:28-238 | A statement that does not wait either advances its transaction with its facts intact, or decides the atomic answer on the spot. |
| `Simulation.GoReserves` | internal/store/migrations/0001_init.sql:134-136 | An index entry a statement puts in was free among the committed rows. |
| `Simulation.ReservedIsMet` | internal/store/migrations/0003_lobby_membership.sql:18-43 | Another insert of the same lobby code or membership waits for the transaction that put it in first. |
| `Simulation.RacesHaveOneWinner` | internal/store/matches.go:14-197 | Under every interleaving exactly one call starts a started match, and exactly one claims a match that is in judging. |
| `LockGap.WithoutTheGuardHistoryIsNoRun` | internal/store/matches.go:229-238 | From an empty store with two users and a challenge there is a run of the interleaved statements, legal in all but the guard on ids, in which two ReadyUp calls lock nothing and pass each other by: neither reports the start, the match stays in its lobby, and the committed history is no run of whole operations. |
| `LockGap.UnlockedReadiesStrandTheMatch` | internal/store/matches.go:28-85 | With the two seat rows written apart, as the database writes them, both players end up ready, the match not started and neither call having said it was, which no sound database is. |
| `LockGap.NeitherWaits` | internal/store/matches.go:28-85 | Wherever the two calls stand, neither waits for the other. |
| `LockGap.WholeReadiesStartIt` | internal/store/matches.go:14-85 | Taken whole, whichever comes first, the second of the two starts the match and says so. |
| `Simulation.InterleavedLifeOfAMatch` | internal/store/migrations/0001_init.sql:107-131 | Between any two moments of any interleaving a match only goes on through its life. |
| `Simulation.InterleavedStartIsFair` | internal/store/matches.go:66-85 | Under every interleaving, the commit that starts a match gives both its players exactly the challenge's files and sets its clock to the call's time and the challenge's duration. |
| `Simulation.InterleavedTreesFreeze` | internal/store/workspaces.go:157-176 | From the moment a match is in judging, no interleaving changes its trees. |
| `Waiting.WaitsGoUp` | internal/store/matches.go:18-21 | Whatever a statement could be made to wait for belongs to a transaction at a strictly later stage: rows and codes before memberships before nothing. |
| `Waiting.WaitsAreAcyclic` | internal/store/migrations/0003_lobby_membership.sql:25-43 | In every reachable state no chain of waits meets a transaction twice, and none is longer than three. |
| `Waiting.SomebodyCanStep` | internal/store/matches.go:154-197 | In every reachable state with a transaction in flight, some transaction waits for nobody and can run its next statement or commit. |
| `Waiting.EverybodyCanFinish` | internal/store/matches.go:14-238 | From every reachable state all the transactions in flight can be brought to their end by their own statements and commits alone, none of them aborted: every statement brings its transaction nearer its end. |
| `Waiting.AnybodyCanBegin` | internal/store/store.go:101-120 | Any operation may begin beside any others in flight, except under the id of a lobby that is still being created. |
| `Waiting.ASweepNeverWaits` | internal/store/matches.go:154-197 | Whatever is in flight, a sweep can begin, lock every due match that is free and commit, having moved exactly those. |
| `EventLog.CommittedLogsAreGapless` | internal/store/events.go:22-58 | Under any interleaving of appenders, nested calls, rollbacks and lost connections, committed events are numbered exactly 1..event_seq. |
| `EventLog.LogsOnlyGrow` | internal/store/migrations/0001_init.sql:98-109 | What has been committed to a log stays where it is in every later state. |
| `EventLog.ClientsHoldPrefixes` | internal/store/events.go:60-85 | A client that keeps asking for what follows the last number it saw always holds an exact prefix of the log, as it is and as it will be. |
| `EventLog.PollCatchesUp` | internal/store/events.go:63-85 | One poll gives a client everything committed. |
| `EventLog.StepKeepsInv` | internal/store/store.go:92-120 | Begin, savepoint, release, commit, rollback to a savepoint and rollback of everything keep each transaction's logs whole and apart. |
| `EventLog.AnAppendGoesThrough` | internal/store/events.go:30-58 | An append to a match nobody else has locked goes through in four steps and leaves its event, under the next number, at the end of the committed log. |
| `Rollbacks.LogsHoldWhatLasts` | internal/store/store.go:92-120 | After any nesting, failing, losing and interleaving of InTx calls, a committed log is exactly the events, with kind and payload, inserted for its match in calls that all returned without failing, the enclosing ones included, in the order of insertion. |
| `Rollbacks.UndoRestores` | internal/store/store.go:92-120 | An InTx call that fails leaves its transaction exactly as the call found it, whatever was done and nested inside, or no transaction if it was the outermost; nothing committed changes. |
| `Rollbacks.OnlyLeavingCommits` | internal/store/store.go:92-120 | Committed logs change only when an outermost call returns without failing. |
| `Rollbacks.KeptMeansEveryCallLeft` | internal/store/store.go:92-120 | Following one event from call to call ends in the log exactly when every call it was inserted in has left. |
| `CappedBuffers.CappedBuffer.constructor` | internal/container/capped.go:24-29 | The limit is split in two halves of at least one byte, the odd byte going to the tail. |
| `CappedBuffers.CappedBuffer.Write` | internal/container/capped.go:31-49 | Accepts every byte, keeps the first headLimit and enough of the last, compacts exactly when the tail passes twice its limit and then to its limit, never holds more than headLimit + 2 * tailLimit, and over all writes copies no more bytes than it has dropped. |
| `CappedBuffers.CappedBuffer.Trim` | internal/container/capped.go:52-59 | Drops exactly the oldest bytes beyond tailLimit and counts them. |
| `CappedBuffers.CappedBuffer.String` | internal/container/capped.go:61-67 | For any writes in any chunks with reads anywhere between, shows the whole stream if it fits and otherwise its two ends around the exact count. |
| `CappedBuffers.CappedBuffer.Elided` | internal/container/capped.go:70-73 | The exact number of bytes neither end holds. |
| `CappedBuffers.ShownKeepsBothEnds` | internal/container/capped.go:11-22 | The shown text is the stream's beginning, the notice with the exact number of bytes left out, and the stream's end; ends and count account for every byte. |
| `CappedBuffers.FillTheSlack` | internal/container/capped.go:24-49 | For every limit of at least 2 one chunk fills a fresh buffer to the most it ever holds, and that is within the "1.5x the limit" of the comment exactly when the limit is even. |
| `ResultDocument.DocumentAfterMarker` | internal/tester/parse.go:116-124 | The backward scan returns what follows the last marker line, or nothing when no line is one. |
| `ResultDocument.DocumentFollowsLastMarker` | internal/tester/parse.go:110-124 | The document is, byte for byte, the text after the line at the last position where a marker line starts. |
| `ResultDocument.DocumentNeedsAMarkerLine` | internal/tester/parse.go:110-124 | There is a document exactly when some position starts a line that trims to the marker. |
| `ResultDocument.MarkerLineMeans` | internal/tester/parse.go:116-124 | A line reads as the marker exactly when it is the marker between stretches of white space. |
| `ResultDocument.TrimmedIsSpace` | internal/tester/parse.go:43-53 | Trimming takes off white space, all there is at either end, and nothing else. |
| `ResultDocument.DocumentSurvivesTruncation` | internal/container/capped.go:11-67 | If the last marker line of the stream starts within its last tailLimit bytes, the truncated text yields the document of the whole stream, wherever the cut falls. |
| `ResultDocument.DocumentOfTruncated` | internal/container/capped.go:61-67 | What any truncated text yields: the tail decides, else the head speaks with the notice and the tail in its document, else nothing. |
| `ResultDocument.SilenceSurvivesTruncation` | internal/tester/parse.go:116-124 | A stream with no document is read as having none exactly when neither of the two lines the cut leaves, the last of the head and the first of the tail, trims to the marker. |
| `ResultDocument.TailSpeaks` | internal/tester/parse.go:116-124 | In a stream without a document, what starts at any byte has one exactly when the partial line it starts with trims to the marker. |
| `ResultDocument.HeadSpeaks` | internal/tester/parse.go:116-124 | In a stream without a document, what ends at any byte has one exactly when the partial line it ends in trims to the marker. |
| `ResultDocument.CutCanForgeAMarker` | internal/tester/parse.go:116-124 | For every size of head and every tail that can hold the marker, a concrete stream without a document whose truncated text has one. |
| `Results.Parse` | internal/tester/parse.go:38-108 | Each outcome exactly when it is due: no marker, blank, undecodable, or the list of exactly the problems there are; otherwise the results in document order, each with the key, the status, the message and the duration that were reported. |
| `Results.Check` | internal/tester/parse.go:58-107 | The validation loop makes each complaint exactly when it is due, naming the result and the earlier use of a repeated key, and so none exactly for a document with the right schema, non-empty declared keys used once, known statuses and no negative duration. |
| `Results.DurationIsExact` | internal/tester/parse.go:58-107 | Milliseconds become nanoseconds exactly, precisely up to 9223372036854; beyond that the product wraps. |
| `Results.Collect` | internal/tester/collect.go:23-56 | One result per requirement in order from a readable document, a full set of errors when the run failed or said nothing, and a protocol error exactly for an unreadable document. |
| `Results.CollectedIsComplete` | internal/tester/collect.go:13-20 | Whatever the tester did, the results match the requirements one to one with a known status each. |
| `Results.PassesOnlyIfReported` | internal/tester/collect.go:13-20 | A requirement passes only if the run finished and its well-formed document says so, in exactly one place. |
| `Results.ResultsAreAsReported` | internal/tester/collect.go:36-55 | Of a readable run each requirement has the status pass, fail or error exactly if the document reports it so, with the reported message and duration, and is an error saying so exactly if the document does not mention it. |
| `Results.WithoutADocumentAllErr` | internal/tester/collect.go:23-34 | A tester that did not finish, or said nothing, gives an error for every requirement, with the reason or the exit status in its message. |
| `Results.CollectSurvivesTruncation` | internal/tester/collect.go:23-56 | Collecting from the truncated output gives the results of the whole output when the last marker line starts in the kept tail. |
| `Verify.Index` | internal/verify/verify.go:210-216 | Looks up for every key its last result, or none. |
| `Verify.LatestComesLast` | internal/verify/verify.go:210-216 | The result looked up is the one no later result shares its key with, and there is none exactly when no result has the key. |
| `Verify.Inspect` | internal/verify/verify.go:157-208 | Finds no problem exactly when the workspace fails the broken requirements and passes the rest, the solution passes all, and the repeat says the same; and each phase has a problem naming a requirement exactly when that phase disagrees about it. |
| `Verify.Challenge` | internal/verify/verify.go:102-153 | Reports exactly when the image built and all three runs counted, a teardown failure alone not spoiling one, with the three runs' results; valid exactly when every requirement came out as declared in all three. |
| `Verify.ValidMeansFit` | internal/verify/verify.go:157-208 | Over results as Collect arranges them, as declared means the failing set is the broken set, the rest passes, and both solution runs pass everything. |
| `Verdicts.Verifier.JudgePhase` | internal/verify/verify.go:135-153 | A phase counts exactly when its job is set up, its output is read and the tester's words make sense, whatever teardown did, provided there is something to report; it then has the results collected from what its tester said. |
| `Verdicts.Verifier.Verdict` | internal/verify/verify.go:95-153 | From the requirements through validation, three judge runs and collection: there is a report exactly when the requirements validate, the image builds and all three runs come to results, and it is valid exactly when the workspace run fails exactly the broken set and both solution runs pass everything. |
| `Verify.ValidIsNotAlreadySolved` | internal/challenge/validate.go:236-285 | A valid report of a validated challenge shows at least one declared-broken requirement failing. |
| `Verify.ValidateRequirements` | internal/challenge/validate.go:236-285 | Each complaint is made exactly when it is due, naming the requirement and the earlier use of a repeated key, and so none exactly when there are requirements, keys are distinct slugs, titles, descriptions and weights are each in range, and something is broken. |
| `Verify.SlugMeans` | internal/challenge/validate.go:42-44 | The pattern accepts exactly non-empty texts of lowercase letters, digits and hyphens with no hyphen first, last or next to another. |
| `Paths.ValidMeansProperSegments` | internal/store/workspaces.go:180-195 | The prefix, suffix and double-slash tests amount to: at most 512 characters, no NUL, and every segment a name other than empty, "." and "..". |
| `Judges.NamesAreDistinct` | internal/judge/names.go:25-34 | Networks, runners and testers of different jobs have different names, and a runner is never named like a tester. |
| `Judges.NetworksCanBeNamedLikeContainers` | internal/judge/names.go:9-34 | A job's network is named like another's container exactly when its id is the other's with the suffix, and that is a valid id; the two kinds are separate name spaces. |
| `Judges.Judge.Run` | internal/judge/judge.go:156-233 | Set-up stops at the first call that fails; whatever happens teardown follows, the runtime ends as the call-by-call model says with the same TeardownError entries, and a report is given exactly when the output was read and is sound. |
| `Judges.WhatSettingUpTakes` | internal/judge/judge.go:176-307 | A run gets to its tests exactly when none of the five calls before them fails and its three names are free. |
| `Judges.Judge.StartRunner` | internal/judge/judge.go:235-271 | Creates and starts the runner, marking it created exactly when the create succeeded. |
| `Judges.Judge.StartTester` | internal/judge/judge.go:273-307 | Creates and starts the tester, marking it created exactly when the create succeeded. |
| `Judges.Judge.Teardown` | internal/judge/judge.go:320-352 | Tries to remove what was created, containers first, carrying on past failures and listing each. |
| `Judges.RunLeavesOnlyWhatFailed` | internal/judge/judge.go:163-352 | For every pattern of failures Run leaves what was there before, and of its own objects exactly those whose removal failed, one entry each. |
| `Judges.ErrsAreFailedRemovals` | internal/judge/judge.go:320-352 | An object is in the TeardownError exactly when the run got as far as creating it and its removal failed. |
| `Judges.FinishedLeavesOnlyWhatFailed` | internal/judge/judge.go:309-352 | The same with any number of other jobs' calls interleaved. |
| `Judges.ErrsAreFailedCalls` | internal/judge/judge.go:320-352 | With any other jobs in between, the entries of a TeardownError are exactly the run's removals of created objects that failed. |
| `Judges.OthersObjectsAreSafe` | internal/judge/judge.go:309-318 | No call of a run ever removes or replaces an object of another owner, even under a job id already in use. |
| `Judges.NetworkIsAMutex` | internal/judge/judge.go:325-352 | Two runs of one job id are never both between creating and removing its network, and every container call that changes anything is made from in between. |
| `Finalizers.Finalizer.constructor` | internal/finalizer/finalizer.go:62-76 | A batch or interval that is not positive becomes the default. |
| `Finalizers.Finalizer.Tick` | internal/finalizer/finalizer.go:107-133 | Ends, after at most active/batch + 1 calls and, on a standing clock, due/batch + 1; logs each match it moved once; moves exactly the logged ones when undisturbed; unless cut short leaves only held rows overdue, and with none held leaves nothing overdue. |
| `Ids.NewAt` | internal/id/id.go:40-62 | Six bytes of milliseconds modulo 2^48, then the random bytes around the version and the variant. |
| `Ids.TimeUndoesNewAt` | internal/id/id.go:64-71 | Time gives the minting millisecond back exactly when it is in [0, 2^48), and the version and variant are right. |
| `Ids.MintedIsNotNil` | internal/id/id.go:30-34 | The nil id is never minted. |
| `Ids.String` | internal/id/id.go:77-89 | The encoded groups and hyphens are the canonical text. |
| `Ids.TextIsFiveGroups` | internal/id/id.go:77-89 | The text is the lowercase hexadecimal of bytes 0-3, 4-5, 6-7, 8-9 and 10-15, joined by hyphens. |
| `Ids.Parse` | internal/id/id.go:97-112 | Accepts exactly hyphens in their four places and hexadecimal digits elsewhere, and returns the bytes they spell. |
| `Ids.ParseUndoesString` | internal/id/id.go:77-112 | Parsing an id's text gives the id back. |
| `Ids.StringOfParsed` | internal/id/id.go:94-112 | An accepted text is the id's own text up to case. |
| `Ids.EarlierSortsFirst` | internal/id/id.go:3-18 | Ids of different milliseconds sort by time, as bytes and as text, whatever the random bytes. |
| `Base64.DecodeUndoesEncode` | internal/auth/password.go:126-135 | Unpadded base64 is read back, strictly or not, in either alphabet. |
| `Base64.EncodeUndoesStrictDecode` | internal/auth/auth.go:158-165 | What is read strictly is what would be written, up to line breaks. |
| `Base64.SextetCount` | internal/auth/auth.go:158-161 | The encoded length of any number of bytes. |
| `Base64.SymbolsAreSixBits` | internal/auth/password.go:131-135 | Each symbol written stands, in the alphabet of section 4 or 5 of RFC 4648, for its six bits of a zero-padded 24-bit group. |
| `Base64.OctetsAccept` | internal/auth/auth.go:158-165 | Reading accepts exactly the symbol counts that leave no lone symbol, and strictly only if the bits no byte uses are zero. |
| `PasswordHashes.Decode` | internal/auth/password.go:137-174 | The checks in order; what is accepted has costs in range and a salt and a key. |
| `PasswordHashes.DecodeUndoesEncode` | internal/auth/password.go:131-174 | Every hash with costs in range and non-empty salt and key is read back exactly. |
| `PasswordHashes.CostsAreWrittenByName` | internal/auth/password.go:131-135 | The text of a hash has memory under m, iterations under t and parallelism under p, and reading it gives each back as what it was. |
| `PasswordHashes.DecodeReadsItsParts` | internal/auth/password.go:137-174 | Exactly the hashes of scheme argon2id and version 19 with costs in range and base64 of a salt and of a key are read, as what their parts say. |
| `PasswordHashes.CostsAreReadSo` | internal/auth/password.go:151-156 | The cost part is read exactly if it is three numbers within their widths, each after its letter and perhaps spaces, whatever follows the last; they are memory, iterations and parallelism in that order. |
| `PasswordHashes.VersionIsReadSo` | internal/auth/password.go:143-150 | The version part is read exactly if it is a number within an int64, with a sign or without, after its letter and perhaps spaces, whatever follows. |
| `PasswordHashes.AcceptedHashHasCanonicalSpelling` | internal/auth/password.go:137-174 | However an accepted hash is spelt, writing what was read gives a hash that reads the same. |
| `PasswordHashes.OutOfRangeIsNotDecoded` | internal/auth/password.go:151-168 | Of the hashes encode can write, exactly those in range with salt and key are accepted. |
| `PasswordHashes.VerifyComparesKeys` | internal/auth/password.go:72-124 | A password of at most 256 bytes is hashed; a stored hash matches one exactly when it derives the same key under the stored salt and costs; a rehash is due exactly when memory is below 64 MiB, iterations below 2 or the key shorter than 32. |
| `SessionTokens.AcceptedIffCanonical` | internal/auth/auth.go:156-165 | The two length checks and strict decoding accept exactly the canonical encodings of 32 bytes. |
| `SessionTokens.LineBreaksWouldPass` | internal/auth/auth.go:159-161 | Without the length check a token with a line break would decode too. |
| `SessionTokens.LooseBitsWouldPass` | internal/auth/auth.go:162 | Without strictness every token would have another spelling of its own length. |
| `SessionTokens.Sessions.Open` | internal/auth/auth.go:179-191 | Mints a canonical token that decodes to its bytes and stores its digest. |
| `SessionTokens.Sessions.Authenticate` | internal/auth/auth.go:156-171 | Admits exactly the canonical tokens whose digest is stored. |
| `Migrations.LoadMigrations` | internal/store/migrate.go:200-249 | Loads exactly the sets whose versions are each of 1..n once, in order, whatever order the directory lists them in: one migration for each file, and a bad name exactly when some file cannot be read as one. |
| `Migrations.EntryIsReadByItsName` | internal/store/migrate.go:214-236 | A file is a migration exactly when it is named version, underscore, name and .sql with a version from 1 to the greatest int; its text is the file's and its checksum that text's digest. |
| `Migrations.SortedSetIsNumbered` | internal/store/migrate.go:239-247 | In a sorted list, the position check accepts exactly the sets of versions 1..n. |
| `Migrations.Database.CheckAgainstFiles` | internal/store/migrate.go:150-173 | Refuses exactly when some version that has run has no file with the checksum it ran with, and names the lowest such version: unknown if it has no file, a mismatch if its file has another checksum. |
| `Migrations.EditIsNoticed` | internal/store/migrate.go:150-173 | If a file was edited after it ran, whatever else was edited after it, the only refusal possible is a checksum mismatch naming the first edited version. |
| `Migrations.MissingFileIsNoticed` | internal/store/migrate.go:150-173 | If files that have run are missing at the end, the only refusal possible is an unknown migration naming the first missing version. |
| `Migrations.PendingIsTheRest` | internal/store/migrate.go:101-111 | What is still to run is exactly the files whose version has not run, in ascending order. |
| `Migrations.Database.Apply` | internal/store/migrate.go:175-198 | A script and its row together, or neither; success is reported exactly when they stand and the answer to the commit arrived. |
| `Migrations.Database.Migrate` | internal/store/migrate.go:74-111 | Runs the pending files in order up to the first that fails or whose commit is not heard of, and reports exactly those it heard of, at most one fewer than it ran; in conflict with the files it refuses as the check does and changes nothing. |
| `Migrations.PrefixGrowsToPrefix` | internal/store/migrate.go:52-111 | From a database that has run the first k files the rest is pending, and any number of them run leaves one that has run the first so many. |
| `Migrations.NothingLeftToRun` | internal/store/migrate.go:52-55 | Migrating an up to date database applies nothing. |
| `Migrators.EachVersionRunsOnce` | internal/store/migrate.go:28-31 | With any number of processes of different ages, failures, lost sessions and unheard commits, versions run in order and at most once; a process reports only what it ran, all of it unless it failed and then all but at most the last; and one that succeeds leaves all it carries applied. |
| `Migrators.OneAtATime` | internal/store/migrate.go:74-87 | At most one process is inside the advisory lock. |
| `Migrators.WhatIsRead` | internal/store/migrate.go:150-173 | A binary older than the database refuses, and any other finds exactly the rest of its own set pending. |
| `Migrators.AMigratorCanFinish` | internal/store/migrate.go:74-111 | Any process that waits for a free lock and carries at least what has run can go on to succeed, and then exactly what it carries has run. |
| `Workspaces.LoadWorkspace` | internal/challenge/workspace.go:55-121 | Succeeds exactly when every entry is a directory or a regular file with a proper path of at most 1 MiB, and there are 1 to 200 files of at most 5 MiB together; gives all of them in path order, and otherwise the first entry that offends and how. |
| `Workspaces.FilesAreTheEntries` | internal/challenge/workspace.go:55-114 | The files are those the walk met, one for each entry that is no directory, with its path and content, and nothing else. |
| `Workspaces.PathOrderIsLexicographic` | internal/challenge/workspace.go:116-120 | Path order is that of the first byte in which two paths differ, a path coming before its extensions. |
| `Workspaces.OrderOfTheWalkDoesNotShow` | internal/challenge/workspace.go:116-120 | Two walks that meet the same files in different orders load the same list. |
| `Workspaces.LoadedChallengeIsOk` | internal/challenge/workspace.go:26-39 | A loaded workspace is within what the match store's invariant asks of a challenge, so seeding starts every tree under the ceilings. |
| `Catalogs.Catalog.RegisterChallenge` | internal/store/catalog.go:25-69 | A failure changes nothing; for distinct paths and a digest without collisions the outcome is exactly first-writer-wins registration, with the right error; a list with a repeated path never fills an empty workspace. |
| `Catalogs.Catalog.CheckRegistration` | internal/store/catalog.go:149-191 | Same head and the same requirements in the same order. |
| `Catalogs.Catalog.RegisterFiles` | internal/store/catalog.go:78-105 | Files are written only when there are none, and compared in any case. |
| `Catalogs.Catalog.CheckWorkspace` | internal/store/catalog.go:112-146 | Count and digests, with a path that is not stored never agreeing. |
| `Catalogs.AgreesIffSameTree` | internal/store/catalog.go:107-146 | For distinct paths and a digest without collisions the count-and-digest check is equality of whole file maps. |
| `Catalogs.CheckIsEqualityIffDistinct` | internal/store/catalog.go:107-146 | With a digest without collisions, the check is equality of file maps exactly for the lists in which no path occurs twice. |
| `Catalogs.DuplicatesFoolTheCheck` | internal/store/catalog.go:137-145 | An instance that lets too much through: a list with a path twice agrees with a stored tree that holds a file the list lacks. |
| `Catalogs.RegisteredIsTheSpec` | internal/store/catalog.go:17-24 | Success means the stored row, ordered requirements and file map equal the spec, file by file, and other versions are untouched. |
| `Catalogs.RegisterAnswers` | internal/store/catalog.go:25-146 | Every answer exactly when it is due, for versions that are new, known without files and known with files: success, no workspace, a conflict with what is stored, or a row, requirement or file the schema refuses. |
| `Catalogs.LoadedChallengeRegisters` | cmd/api/main.go:61-78 | A validated challenge with the workspace loaded for it registers in any catalogue that lacks its version, exactly if its version and weights fit an integer column. |
| `Catalogs.FirstWriterWins` | internal/store/catalog.go:17-24 | After a success the same registration succeeds and changes nothing, and any other under the same key that the schema would take and that brings files is a conflict. |

## Left out

- Queries.Queries.WriteWorkspaceFile: is one atomic step in both layers, and so is Queries.Queries.DeleteWorkspaceFile, because `requireActive` takes no lock; the freeze at judging and the ceilings are not claimed for interleaved statements of two writes, or of a write and a transition.
- Simulation.InterleavedIsAtomic: covers each operation as its own transaction, under the guard that nobody names an id before its CreateLobby commits; several operations inside one enclosing transaction are modelled for the event log only.
- Waiting.SomebodyCanStep: is about single operations too; a caller that takes match rows in several operations of one transaction can deadlock, and nothing here says it cannot.
- Simulation.RacesHaveOneWinner: ExpireDue's picks are taken one row at a time, so the set it moves is any set of due free rows up to the limit; that it prefers the longest overdue is shown for the call alone (`Queries.Queries.ExpireDue`).
- Queries.Queries.SeedWorkspaces: matches are a map from ids to rows, so a player list is not ordered by seat, and joining times, user names, scores, ratings and winners are not columns.
- Catalogs.Catalog.RegisterChallenge: is atomic; two instances that fill the same empty workspace at once are not modelled. Durations are exact numbers, without the rounding of `make_interval`.
- Results.Parse: starts from the decoded document; JSON syntax, unknown fields and the texts of problems are not modelled. White space is that of ASCII.
- ResultDocument.DocumentSurvivesTruncation: the marker and white space are bytes; a cut inside a multi-byte character is just a cut.
- Verify.ValidateRequirements: only the requirements part of spec validation; identity, image, app, tester and limits are single-field range checks.
- Workspaces.LoadWorkspace: starts from the entries a walk delivers; walking, reading and the path's conversion are not modelled. File names cannot hold NUL, so the store's path check is used for both.
- Judges.Judge.Run: a runtime call either does its whole work or fails having done nothing, except that WaitContainer and reading the runner's logs only matter through what Collect is given; deadlines and contexts are the failure pattern.
- Finalizers.Finalizer.Tick: between passes others may move matches on but start none; the endless ticker around it is left out.
- PasswordHashes.VerifyComparesKeys: argon2 is any function of password, salt and costs that gives keys of the length asked for; constant-time comparison and the decoy hash are not functional properties.
- SessionTokens.Sessions.Authenticate: expiry and the user lookup are the store's; a row here has not expired.
- Migrations.Database.Apply: a script is a value whose effect is having run; DDL and the table's own creation are not modelled.
- HTTP handlers, cookies, middleware, rate limits, the command line tools and the web client.
- Docker's command lines, process groups, sandbox settings and log streaming beyond the capped buffer.
- YAML decoding of challenge specs.
- Users, registration, login, session storage and ratings.
- The state `complete`, judge_jobs and scoring, which nothing writes yet.
