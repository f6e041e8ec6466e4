# Pickup-game session state machine

A Dafny model of the server of a pickup-game tracker. For each play area
(a court) the server keeps one session record: a rotation mode, a queue of
waiting teams, the teams in play and a score. Each HTTP route loads the
area's record, applies one transition and writes the record back. The model
covers the routes that read or change a record:

- get-or-create
- configure (set the mode)
- add team
- reorder the queue
- remove team
- start game
- record a game result, under the winner-stays-on and classic policies
- update score

Layout:

- `types.dfy` (`Types`): the record, teams, score, error kinds, and JavaScript truthiness of optional strings.
- `text.dfy` (`Text`): `String.prototype.trim`, which normalises team names.
- `transitions.dfy` (`Transitions`): one function per handler body, from the record before to the record after or an error. These are the specification.
- `server.dfy` (`Server`): class `Session` with the record's fields as mutable `seq` fields. Its methods change them in place as the handlers do. The winner-stays-on refill is a `while` loop proved against `Transitions.Refill`. One handler method per route works on the store, a map from area name to record. A refused request leaves the store unchanged.
- `invariants.dfy` (`Invariants`): the session invariant `Valid`. It holds when at most two teams are in play, team ids are unique across the queue and play, and the score is non-negative. The module proves which transitions keep `Valid` and which break it.
- `scenarios.dfy` (`Scenarios`): concrete runs, including one in which a team disappears from the session.

## Where the code departs from the intended behaviour

The model follows `backend/server.js` where it differs from what a session is meant to do:

- start-game refuses only when two or more teams are in play. With one team left in play (after a remove), it adds two more, so three are in play (`Invariants.StartGameOverfills`). A winner-stays-on result then drops the third team from the session (`Scenarios.OverfilledCourtLosesTeam`).
- The duplicate-name check of add-team looks only at the queue. A name held by a team in play is accepted (`Invariants.AddTeamAcceptsNameInPlay`).
- A winner-stays-on result whose winner and loser are the same id succeeds. The team then appears twice among queue and play (twice in play when the queue was empty, `Scenarios.SameIdEmptyQueue`), and the other team in play is dropped from the session (`Invariants.WinnerIsLoserDuplicates`).
- Configure accepts any mode value and stores it verbatim. A game result under an unrecognised, truthy mode succeeds and changes nothing.
- Reorder stores any list. The invariant survives exactly when the list has unique ids that are not in play (`Invariants.ReorderValid`), for example a permutation of the queue.
- An unreadable data file reads as an empty store, so there is no separate storage-failure error. The error for an unknown winner or loser id is `InvalidTeamIds`.

## Model

| member | source | states |
|---|---|---|
| `Transitions.NewSession` | backend/server.js:44-49 | a new record has the mode given (none on a GET; a POST builds the same record at lines 64-69), an empty queue, nobody in play and score (0, 0) |
| `Transitions.Configure` | backend/server.js:70-75 | configuring an existing record overwrites the mode with the value sent, backfills a missing score with (0, 0) and keeps an existing score, queue and teams in play |
| `Transitions.TeamName` | backend/server.js:86-88 | a name is refused exactly when it is missing or consists only of white space; otherwise the registered name is its trimmed, non-empty form |
| `Transitions.AddTeam` | backend/server.js:98-102 | add-team fails with DuplicateName exactly when a queued team already has the name; otherwise the queue grows by exactly `{id, name}` at the back and play, score and mode are unchanged |
| `Transitions.Without` | backend/server.js:145-146 | the filtered list is never longer than the input, and is exactly as long iff no team in it has the id |
| `Transitions.WithoutMembers` | backend/server.js:145-146 | filtering by id keeps exactly the teams with other ids, and returns the list itself when no team has that id |
| `Transitions.RemoveTeam` | backend/server.js:145-146 | remove drops every team with the id from the queue and from play, keeps all others, and leaves mode and score alone |
| `Transitions.Reorder` | backend/server.js:127 | reorder replaces the queue by the list sent, unchecked, and keeps play, mode and score |
| `Transitions.StartGame` | backend/server.js:162-179 | GameInProgress iff two or more teams are in play; InsufficientTeams iff fewer are in play and fewer than two are queued; otherwise the two front queue teams, in order, are appended to play, the rest of the queue stays, and a present score becomes (0, 0) |
| `Transitions.Find` | backend/server.js:207-208 | finds a team iff one in the list has the id, and then returns the first such team |
| `Transitions.Refill` | backend/server.js:221-223 | refill moves a boundary only: play followed by queue is unchanged, the old play is a prefix of the new one, and afterwards two or more play or the queue is empty, with never more than two unless there were already more |
| `Transitions.WinnerStaysOnResult` | backend/server.js:200-223 | both-lose always succeeds and keeps play followed by queue equal to the old queue followed by play; otherwise success iff winner and loser are truthy and found in play, with InvalidTeamIds or InvalidGameResult as the source chooses; on success play followed by queue is winner, old queue, loser; at most two play, or fewer only with an empty queue; mode and score untouched |
| `Transitions.ClassicResult` | backend/server.js:224-237 | classic accepts exactly both-lose: play is appended to the queue, play empties, a present score becomes (0, 0); anything else is InvalidGameResult |
| `Transitions.RecordResult` | backend/server.js:196-238 | ModeNotSet iff the mode is falsy; winner-stays-on and classic dispatch to their policies; any other mode succeeds with the record unchanged |
| `Transitions.ScoreField` | backend/server.js:259-264 | an omitted field keeps its value; a supplied one is non-negative, equal to the number when it is non-negative and 0 when it is negative or not numeric |
| `Transitions.UpdateScore` | backend/server.js:255-264 | the score is present afterwards; each field is the clamped input or, if omitted, the old value (0 when the score was missing); queue, play and mode are unchanged |
| `Text.Trim` | backend/server.js:86-102 | the trimmed name is the slice of the input that starts after the leading white space, with only white space cut off at either end and no white space at its ends; it is empty iff the input is all white space |
| `Text.TrimIdempotent` | backend/server.js:98-102 | a trimmed name trims to itself |
| `Text.TrimUnique` | backend/server.js:86-102 | any non-empty slice with non-space ends and only white space around it is the trimmed string |
| `Text.TrimPadded` | backend/server.js:98-102 | white space added around a name does not change its trimmed form |
| `Invariants.NewSessionValid` | backend/server.js:43-49 | a freshly created record satisfies the invariant |
| `Invariants.ConfigureLastWriteWins` | backend/server.js:70-75 | configuring twice equals configuring once with the last mode, and configuring keeps the invariant |
| `Invariants.AddTeamPreservesValid` | backend/server.js:98-102 | adding a team under an id unused in the session keeps the invariant |
| `Invariants.AddTeamAcceptsNameInPlay` | backend/server.js:98 | a name held only by a team in play is accepted, leaving two teams of that name |
| `Invariants.WithoutAppend` | backend/server.js:145-146 | filtering distributes over concatenation, so the order of the remaining teams is kept |
| `Invariants.RemoveTeamPreservesValid` | backend/server.js:145-146 | removing a team keeps the invariant |
| `Invariants.RemoveTeamAbsentIsNoop` | backend/server.js:145-146 | removing an id held by no team leaves the record unchanged, and removing twice equals removing once |
| `Invariants.ReorderValid` | backend/server.js:127 | after reorder the invariant holds iff the new list has unique ids disjoint from the ids in play |
| `Invariants.ReorderPermutationValid` | backend/server.js:127 | reordering to a permutation of the queue keeps the invariant |
| `Invariants.StartGameConserves` | backend/server.js:173-174 | start-game keeps the multiset of the session's teams and keeps ids unique |
| `Invariants.StartGamePreservesValid` | backend/server.js:162-179 | from an empty court, start-game keeps the invariant |
| `Invariants.StartGameOverfills` | backend/server.js:162-174 | with one team in play and two queued, start-game succeeds with three in play, breaking the invariant |
| `Invariants.WinnerStaysOnConservation` | backend/server.js:205-223 | after a winner/loser result the session's teams are the old queue plus the winner and loser found in play; they equal the old teams iff those two were exactly the teams in play |
| `Invariants.WinnerIsLoserDuplicates` | backend/server.js:207-223 | the same id as winner and loser succeeds; the session's teams become the old queue plus that team twice, so the other teams in play are dropped and the invariant breaks |
| `Invariants.RecordResultPreservesValid` | backend/server.js:196-238 | every successful result keeps the invariant, except a winner-stays-on result with the same winner and loser |
| `Invariants.UpdateScoreStable` | backend/server.js:255-264 | updating the score keeps the invariant, and repeating the same update changes nothing more |
| `Server.Session.Configure` | backend/server.js:70-75 | the in-place update leaves the record that `Transitions.Configure` describes |
| `Server.Session.AddTeam` | backend/server.js:98-102 | the in-place push agrees with `Transitions.AddTeam`, and a refused add changes no field |
| `Server.Session.Reorder` | backend/server.js:127 | the queue field is replaced by the list sent |
| `Server.Session.RemoveTeam` | backend/server.js:145-146 | the filtered fields are those of `Transitions.RemoveTeam` |
| `Server.Session.StartGame` | backend/server.js:162-179 | the splice and append agree with `Transitions.StartGame`, and a refused start changes no field |
| `Server.Session.Refill` | backend/server.js:221-223 | the shift-and-push loop ends in the state `Transitions.Refill` gives and touches neither mode nor score |
| `Server.Session.RecordResult` | backend/server.js:196-238 | the in-place result agrees with `Transitions.RecordResult`, and a refused result changes no field |
| `Server.Session.UpdateScore` | backend/server.js:255-264 | the in-place score assignments agree with `Transitions.UpdateScore` |
| `Server.GetQueue` | backend/server.js:39-54 | an existing area is returned and the store is untouched; an unknown area gets a new record with no mode, empty queue and play, and score (0, 0) |
| `Server.PostQueue` | backend/server.js:57-79 | the stored record has the mode sent; a new area starts empty with score (0, 0); an existing one is configured |
| `Server.PostTeam` | backend/server.js:82-106 | a missing or blank name is InvalidInput before the area is looked up; an unknown area is NotFound; otherwise add-team's outcome is stored or reported |
| `Server.PostReorder` | backend/server.js:109-132 | NotFound before the array check; a non-array is InvalidInput with the store unchanged; otherwise the queue is replaced and returned |
| `Server.DeleteTeam` | backend/server.js:135-150 | NotFound for an unknown area; otherwise the record with the team removed is stored and returned |
| `Server.PostStartGame` | backend/server.js:153-183 | NotFound for an unknown area; otherwise start-game's outcome is stored, or its error reported with the store unchanged |
| `Server.PostGameResult` | backend/server.js:186-242 | NotFound for an unknown area; otherwise the result's outcome is stored, or its error reported with the store unchanged |
| `Server.PostScore` | backend/server.js:245-268 | NotFound for an unknown area; otherwise the updated score is stored and returned |
| `Scenarios.WinnerStaysOnRotation` | backend/server.js:162-223 | queue [A, B, C]: start gives play [A, B] and queue [C]; A beats B gives play [A, C] and queue [B] |
| `Scenarios.SameIdEmptyQueue` | backend/server.js:205-223 | with an empty queue and play [A, B], winner = loser = A gives play [A, A], an empty queue, and B gone |
| `Scenarios.ClassicBothLose` | backend/server.js:224-237 | classic both-lose with play [A, B] and score (3, 5) appends A, B to the queue, empties play and resets the score; a winner/loser result is refused |
| `Scenarios.PaddedDuplicateRejected` | backend/server.js:86-102 | " Alpha " trims to "Alpha" and is refused as a duplicate of a queued "Alpha" |
| `Scenarios.ScoreClamp` | backend/server.js:259-264 | -5 is stored as 0, an omitted field keeps its value, a non-numeric value is stored as 0 |
| `Scenarios.OverfilledCourtLosesTeam` | backend/server.js:145-223 | from a valid five-team session: start, remove the other team in play, start again (three in play), then a result drops one team from the session |

## Left out

- Reading and writing the data file (`readData`, `writeData`, the fallback to `{}` on a parse error) is I/O. The store is an in-memory map passed to and returned from each handler.
- The daily reset job replaces the whole store with an empty map. It is time-driven and races with the handlers, so it is not modelled.
- The HTTP layer is not modelled: routing, CORS, status codes, JSON bodies and `listen`. Outcomes are `Result` values over the `Error` kinds.
- Team ids come from `Date.now()`, so they depend on the clock and can collide. Here the id is a parameter. The invariant lemmas assume it is fresh.
- `parseInt` string parsing is not modelled. A score field is `Omitted`, `Numeric(n)` or `NotNumeric`.
- Listing areas (`/api/areas`) returns the store's keys and is not modelled.
- Concurrency is not modelled. Concurrent requests can lose updates because read-modify-write is not atomic.
- The React frontend is not part of this model. Its drag-and-drop move is presentation-side only.
- JSON values of other types are not modelled. The mode, name and ids are strings or absent, and `bothLose` is a boolean. A non-string truthy name would make `trim` throw, and a numeric id never matches.
- Reorder list elements are `Team` values. The source accepts arbitrary JSON elements.
- Area names that are keys of `Object.prototype` (such as `constructor`) are looked up as ordinary map keys. In the source they read as existing entries.
