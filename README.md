# Panela Tracker: session engine, in Dafny

Panela Tracker records "jogatinas": gaming sessions of a group of friends.
A Discord bot drives the sessions through three HTTP routes. Each player ends
a session with a status: "Dropo", "Zero", "Dava pra jogar" or "Em andamento".
This project models those routes, plus the helpers that read statuses back.
It proves what the routes guarantee about the tables they write.

- `POST /api/discord/events` is the current session engine.
  - A `player_joined` event opens the game's current bot session, or adds
    the player to it. A newly opened session is tied to the game's active
    season.
  - A `player_left` event deactivates the player. When nobody is left, it
    closes the session. Closing reconstructs every player's solo, group and
    total minutes from the event log, then rolls them into the season's
    participant totals.
  - Modules `DiscordEvents` (the handlers) and `EventLog` (the log and the
    duration reconstruction).
- `POST`/`PUT /api/discord` is the older start/end route. It starts a
  session with a fixed player list. It ends the open session whose members
  are exactly the players found for the given Discord ids; an id with no
  player row is ignored. Module `DiscordSessions`.
- `lib/status-helpers.ts` decides which status counts for a membership.
  Sessions inside a season use the season participant's status; older
  sessions use their own. It computes the status statistics, and the
  per-player statistics sorted by drops. Module `StatusHelpers`.
- `POST`/`GET /api/players` registers and lists players. Module `Players`.

## Shared modules

- The database is one `Tables.Database` object. Its fields hold one
  sequence of rows per table (players, games, jogatinas, memberships,
  events, seasons, season participants), plus a counter for fresh ids.
  Route handlers are methods that modify it.
- `Valid()` keeps primary keys distinct and below the counter.
- A `.single()` query is `Common.Single`: it finds a row only when exactly
  one row matches.
- `Text` models JavaScript's `trim`. `Auth` models the bearer-token check.
- Timestamps are integer milliseconds. The clock and the environment key
  are parameters.

## Model

| member | source | states |
|---|---|---|
| Auth.VerifyAuth | app/api/discord/events/route.ts:14-21 | accepted exactly when the header is "Bearer " followed by the configured key; never when the key is unset |
| Text.TrimStart | app/api/players/route.ts:30 | the result is a suffix; only white space was dropped; it starts with a non-space |
| Text.TrimEnd | app/api/players/route.ts:30 | the result is a prefix; only white space was dropped; it ends with a non-space |
| Text.Trim | app/api/players/route.ts:30 | the result is a slice of the input that neither starts nor ends with white space |
| Text.TrimIdempotent | app/api/players/route.ts:42 | trimming a trimmed name changes nothing |
| Text.TrimEmptyIffBlank | app/api/players/route.ts:30 | the trimmed name is empty exactly when the name is all white space |
| Tables.TypeFor | app/api/discord/events/route.ts:212 | a session is "group" exactly when more than one player is active |
| Tables.Database.constructor | app/api/discord/events/route.ts:58-118 | an empty, valid database |
| Tables.Database.FindOrCreatePlayer | app/api/discord/events/route.ts:79-93 | the single player with that Discord id is reused; otherwise one named after the Discord id is appended under a fresh id; no other table changes |
| Tables.Database.FindOrCreateGame | app/api/discord/events/route.ts:95-104 | the single game with that title is reused; otherwise it is appended under a fresh id; no other table changes |
| Tables.PlayerResolved | app/api/discord/events/route.ts:79-93 | afterwards a player holds the Discord id under the returned id; the tables are untouched exactly when one row already held it, else one row named after the Discord id is added under a fresh id |
| Tables.GameResolved | app/api/discord/events/route.ts:95-104 | afterwards a game has the title under the returned id; the tables are untouched exactly when one game already had it, else it is added under a fresh id |
| DiscordEvents.ParseEventType | app/api/discord/events/route.ts:72-74 | only "player_joined" and "player_left" parse, each to the kind it names |
| DiscordEvents.EventTypeRoundTrip | app/api/discord/events/route.ts:72-74 | printing a kind and parsing it back gives the same kind |
| DiscordEvents.ValidateEvent | app/api/discord/events/route.ts:67-74 | accepted exactly when all three fields are non-empty and the type is known; a missing field wins over a bad type; accepted values are the payload's |
| DiscordEvents.SeasonFor | app/api/discord/events/route.ts:30-41 | a season is chosen exactly when one active season of the game spans `now`, and it is that season |
| DiscordEvents.NewBotSession | app/api/discord/events/route.ts:140-150 | the row a join inserts when the game has none: a current bot session of the game, solo, with no active players, dated and first seen at the event time, not yet in a season and not ended |
| DiscordEvents.AssociateToActiveSeason | app/api/discord/events/route.ts:24-55 | returns the chosen season and records it on the session only when there is one; nothing else changes |
| DiscordEvents.AfterJoin | app/api/discord/events/route.ts:210-225 | the counter goes up by one and the type becomes group exactly when someone was already counted; the session's identity is kept |
| DiscordEvents.JoinMembership | app/api/discord/events/route.ts:164-197 | the memberships after a join: a new active "Dava pra jogar" row when the session has no single row for the player, else that row made active |
| DiscordEvents.JoinMembershipFacts | app/api/discord/events/route.ts:164-197 | after a join the player has exactly one membership in the session and it is active; no other (session, player) pair gains a row |
| DiscordEvents.JoinActiveCount | app/api/discord/events/route.ts:164-197 | the session's active count rises by one unless the player was already active; other sessions' counts are unchanged |
| DiscordEvents.JoinCounterAgrees | app/api/discord/events/route.ts:210-225 | a counter that matched the active memberships still matches after a join exactly when the player was not already active, so a repeated join double-counts |
| DiscordEvents.SameKeyKeepsCurrentCounts | app/api/discord/events/route.ts:213-224 | rewriting a session without touching its game, current flag or source keeps every game's count of current bot sessions |
| DiscordEvents.OpenKeepsAtMostOneCurrent | app/api/discord/events/route.ts:138-161 | opening a session when the game has none keeps at most one current bot session per game, and the new one is found next time |
| DiscordEvents.CloseEndsCurrent | app/api/discord/events/route.ts:316-326 | closing the current session keeps the rule and leaves the game with no current session |
| DiscordEvents.JoinSessions | app/api/discord/events/route.ts:128-225 | the sessions after a join: the current bot session, or a new one tied to the chosen season, with its counter and type updated |
| DiscordEvents.JoinResponse | app/api/discord/events/route.ts:226-235 | the join's response, built from the session as read before the join |
| DiscordEvents.JoinKeepsAtMostOneCurrent | app/api/discord/events/route.ts:128-236 | a join keeps at most one current bot session per game; afterwards the current one is the session the response names, with the count and type it reports |
| DiscordEvents.NewSessionReportsNoSeason | app/api/discord/events/route.ts:158-160 | a session opened by the join stores the chosen season, but the response reports no season |
| DiscordEvents.FindOrOpenSession | app/api/discord/events/route.ts:128-161 | the current bot session is reused as read; otherwise a solo session with no players is appended and tied to the chosen season; only the sessions table changes |
| DiscordEvents.AddOrReactivateMember | app/api/discord/events/route.ts:164-197 | the memberships become the join's memberships (a new active row, or the existing row made active); nothing else changes |
| DiscordEvents.RecordJoin | app/api/discord/events/route.ts:164-225 | the membership is recorded, the join event appended and the session's counter and type updated; nothing else changes |
| DiscordEvents.AfterJoinTables | app/api/discord/events/route.ts:120-236 | every table after a join: sessions and memberships as the join changes them, one join event appended, three fresh ids spent |
| DiscordEvents.HandlePlayerJoined | app/api/discord/events/route.ts:120-236 | the tables become `AfterJoinTables` of the old ones, so players, games, seasons and participants are unchanged; the response is built from the session as read |
| EventLog.InsertByTime | app/api/discord/events/route.ts:433-438 | inserting keeps every event and adds one |
| EventLog.InsertKeepsOrder | app/api/discord/events/route.ts:438 | inserting into a time-ordered log keeps it time-ordered |
| EventLog.SortByTime | app/api/discord/events/route.ts:438 | the result is a permutation of the input |
| EventLog.SessionLog | app/api/discord/events/route.ts:433-438 | the session's log is time-ordered and holds exactly the session's events |
| EventLog.PlayerEvents | app/api/discord/events/route.ts:457 | the player's own events: as many as the log holds for them, and only theirs |
| EventLog.FilterKeepsOrder | app/api/discord/events/route.ts:457 | a player's sub-log of a time-ordered log is time-ordered |
| EventLog.IntervalAt | app/api/discord/events/route.ts:465-475 | a join pairs with the first later leave of the player, with only joins between; a leave, or a join no leave follows, opens no interval |
| EventLog.OtherStillActive | app/api/discord/events/route.ts:478-493 | the per-entry test as written: another player's join no later than the leave, where that player's first leave at or after the join time is missing or strictly later |
| EventLog.LeaveOfAtOrAfter | app/api/discord/events/route.ts:483-487 | the `find` predicate: a leave of that player, accepted exactly when it is at or after the join time |
| EventLog.IsGroupInterval | app/api/discord/events/route.ts:478-499 | an interval is group time when some log entry passes the per-entry test |
| EventLog.GroupIffWitness | app/api/discord/events/route.ts:478-499 | an interval is group time exactly when some log entry passes the other-player test |
| EventLog.TallyUpTo | app/api/discord/events/route.ts:465-500 | the three sums over the first `n` of the player's events: each interval adds its length to the total and to group or to solo |
| EventLog.PlayerTally | app/api/discord/events/route.ts:455-500 | the three sums over all of the player's events in the session's log |
| EventLog.ComputePlayerTally | app/api/discord/events/route.ts:457-500 | the loop's three accumulators equal the per-interval reference sums |
| EventLog.TallySplits | app/api/discord/events/route.ts:474-499 | the total is solo plus group after any prefix of the player's events |
| EventLog.TallyNonNegative | app/api/discord/events/route.ts:474-499 | on a time-ordered log no accumulator is negative |
| EventLog.PlayerTallyFacts | app/api/discord/events/route.ts:455-500 | for a session's log, solo and group add up to the total and none is negative |
| EventLog.RoundMinutes | app/api/discord/events/route.ts:507-509 | the nearest whole minute, halves up: within half a minute of the milliseconds |
| EventLog.FloorMinutes | app/api/discord/events/route.ts:314 | whole minutes rounded down: the largest minute count not past the milliseconds |
| EventLog.RoundedTotalNearSum | app/api/discord/events/route.ts:507-509 | the rounded total is within one minute of rounded solo plus rounded group |
| EventLog.RoundedTotalCanDiffer | app/api/discord/events/route.ts:507-509 | a tally whose rounded total is not rounded solo plus rounded group |
| EventLog.WithDurations | app/api/discord/events/route.ts:455-511 | a membership of the session whose player has events gets the three rounded sums; any other row is kept |
| EventLog.RecomputeDurations | app/api/discord/events/route.ts:455-516 | one row per membership, in place |
| EventLog.RecomputeIdempotent | app/api/discord/events/route.ts:455-516 | recomputing the durations twice gives the same rows as once |
| EventLog.RecomputeKeepsIdentity | app/api/discord/events/route.ts:503-511 | only the three duration columns change; ids, session, player, status and active flag stay |
| EventLog.DoubleJoinCountedTwice | app/api/discord/events/route.ts:465-475 | two joins before one leave both pair with that leave: three minutes present count as five |
| EventLog.PastPlayerCountsAsGroup | app/api/discord/events/route.ts:478-492 | a player who left before the interval began still makes it group time |
| EventLog.BoundaryLeaveCountsAsSolo | app/api/discord/events/route.ts:483-488 | a leave at the very instant the interval opens makes it solo, even when that player rejoins inside it |
| EventLog.OverlapIsWhollyGroup | app/api/discord/events/route.ts:474-499 | two overlapping stays count wholly as group time for both players, minutes spent alone included |
| DiscordEvents.CalculatePlayerDurations | app/api/discord/events/route.ts:432-517 | the memberships become their recomputation from the session's time-ordered log; nothing else changes |
| DiscordEvents.AddContribution | app/api/discord/events/route.ts:394-422 | one roll-up step: the single participant gains one session and the row's minutes, a missing one read as zero; otherwise an "Em andamento" participant holding them is added |
| DiscordEvents.Contribution | app/api/discord/events/route.ts:408-418 | what one membership adds: one session, and each minutes column with a missing value read as 0 |
| DiscordEvents.RollUp | app/api/discord/events/route.ts:392-424 | the roll-up steps in membership order, each insert taking the next fresh id |
| DiscordEvents.AddContributionSum | app/api/discord/events/route.ts:392-422 | one roll-up step adds the row's contribution to its player's season total and nothing to anyone else's |
| DiscordEvents.RollUpSum | app/api/discord/events/route.ts:392-423 | after the roll-up, each player's season total is the old total plus everything that player's membership rows contribute |
| DiscordEvents.AddContributionKeepsUnique | app/api/discord/events/route.ts:394-421 | a roll-up step keeps at most one participant row per (season, player) |
| DiscordEvents.RollUpKeepsUnique | app/api/discord/events/route.ts:392-423 | the whole roll-up keeps at most one participant row per (season, player) |
| DiscordEvents.RollUpKeyed | app/api/discord/events/route.ts:413-421 | the roll-up keeps participant keys distinct, spending at most one fresh id per row |
| DiscordEvents.RollUpRows | app/api/discord/events/route.ts:392-423 | the loop computes the roll-up and spends one id per membership row |
| DiscordEvents.UpdateSeasonMetrics | app/api/discord/events/route.ts:377-429 | the participants become the roll-up of the session's memberships; nothing else changes |
| DiscordEvents.CheckLeave | app/api/discord/events/route.ts:246-271 | a refusal for no single current session, then for no single membership, then for an inactive one; otherwise the session and active membership that leave |
| DiscordEvents.CheckLeaveCases | app/api/discord/events/route.ts:257-271 | with unique memberships, the leave goes ahead exactly when the player is active in the session, and "not in this jogatina" exactly when there is no membership |
| DiscordEvents.LeftMembers | app/api/discord/events/route.ts:273-282 | the memberships with the leaving row made inactive |
| DiscordEvents.LeaveActiveCount | app/api/discord/events/route.ts:273-301 | deactivating an active membership lowers its session's active count by one and no other session's |
| DiscordEvents.LeaveFromAgreedCounter | app/api/discord/events/route.ts:295-301 | when the counter matched the memberships, the recount after a leave is the old counter minus one |
| DiscordEvents.SessionMinutes | app/api/discord/events/route.ts:312-314 | the session's floored length from its first event to now |
| DiscordEvents.SessionAfterLeave | app/api/discord/events/route.ts:305-365 | with nobody left the session is no longer current and holds its floored length; otherwise it stays current with the recount and its type; identity and season kept |
| DiscordEvents.LeaveResponse | app/api/discord/events/route.ts:334-364 | a 200 naming the session and its season, reporting it finished exactly when nobody is left |
| DiscordEvents.LeaveKeepsAtMostOneCurrent | app/api/discord/events/route.ts:305-365 | a leave keeps at most one current bot session per game; the session stays current while anyone is active, else the next lookup misses |
| DiscordEvents.SecondLeaveRefused | app/api/discord/events/route.ts:246-271 | repeating a leave is refused: "not active" while the session goes on, "no active jogatina" once it closed |
| DiscordEvents.SeasonTotals | app/api/discord/events/route.ts:331-334 | the participants after the close: rolled up only when the session has a season |
| DiscordEvents.Deactivated | app/api/discord/events/route.ts:273-292 | the tables after the membership is made inactive and the leave logged under a fresh id |
| DiscordEvents.Closed | app/api/discord/events/route.ts:305-334 | the tables after the close: durations recomputed, the session closed, season totals rolled up |
| DiscordEvents.AfterLeave | app/api/discord/events/route.ts:273-365 | the tables after a leave that goes ahead: deactivated and logged, then closed when nobody is active, else the session row follows the recount |
| DiscordEvents.AfterLeaveTables | app/api/discord/events/route.ts:273-365 | table by table: the leave event appended, the session row updated, durations recomputed and totals rolled up only when the session closes, other tables unchanged |
| DiscordEvents.DeactivateAndLog | app/api/discord/events/route.ts:273-292 | the membership is made inactive and the leave event appended under a fresh id; nothing else changes |
| DiscordEvents.FinishSession | app/api/discord/events/route.ts:305-331 | durations recomputed, the session closed, and season totals rolled up when the session has a season |
| DiscordEvents.LeaveAndClose | app/api/discord/events/route.ts:305-344 | the tables after a leave that empties the session, and a finished response |
| DiscordEvents.LeaveAndContinue | app/api/discord/events/route.ts:345-365 | the tables after a leave with players remaining, and a response with the recount and type |
| DiscordEvents.LeaveOutcome | app/api/discord/events/route.ts:238-374 | the tables and response after a leave request: a refusal never changes the tables, any change comes with a 200, and the answer is never a join or a 401 |
| DiscordEvents.HandlePlayerLeft | app/api/discord/events/route.ts:238-374 | the tables and response are `LeaveOutcome` of the old tables: each of the three refusals answers its own error and changes no table; otherwise the tables after the leave, and its response |
| DiscordEvents.DispatchOutcome | app/api/discord/events/route.ts:106-113 | a join response exactly for a join event, never a 401; players, games and seasons are never changed by the handlers |
| DiscordEvents.Dispatch | app/api/discord/events/route.ts:106-113 | the tables and response become `DispatchOutcome` of the old tables |
| DiscordEvents.PostEvent | app/api/discord/events/route.ts:58-118 | 401 exactly when auth fails; a validation error changes nothing; otherwise the player and the game are found or created, and every table and the response are then those of the handler for the event's kind, run on the ids found |
| DiscordSessions.ParseSessionType | app/api/discord/route.ts:61-66 | only "solo" and "group" parse, each to the type it names |
| DiscordSessions.ValidateStart | app/api/discord/route.ts:44-81 | accepted exactly when the ids are non-empty, the title present, the type known, and the count fits (one for solo, two or more for group); missing ids are reported first |
| DiscordSessions.PlayerCountRule | app/api/discord/route.ts:68-81 | a solo request without exactly one id, and a group request with fewer than two, are refused with their own messages |
| DiscordSessions.StartedSession | app/api/discord/route.ts:138-150 | the session row `POST` inserts: current, fed by the bot, of the requested type, started at the given time |
| DiscordSessions.NewMembers | app/api/discord/route.ts:155-164 | one "Dava pra jogar" membership per requested player, in order, in the new session |
| DiscordSessions.PlayersResolved | app/api/discord/route.ts:86-112 | the lookup-or-create loop as a fold: one player id per Discord id, in order; only the players table and the id counter change, and players are only added |
| DiscordSessions.PlayersResolvedFound | app/api/discord/route.ts:86-112 | the `j`-th resolved id names a player row holding the `j`-th Discord id |
| DiscordSessions.PlayersResolvedKeepsSingle | app/api/discord/route.ts:88-92 | a Discord id held by exactly one player before the loop is still held by exactly that row after it |
| DiscordSessions.PlayersResolvedReuses | app/api/discord/route.ts:88-111 | a Discord id held by exactly one existing player resolves to that player's id, with no new row |
| DiscordSessions.PlayersResolvedInserts | app/api/discord/route.ts:95-100 | every created player takes a fresh id, is named after its Discord id and has no avatar; the counter advances by the number created |
| DiscordSessions.ResolvePlayers | app/api/discord/route.ts:86-112 | the loop leaves the store and the id list exactly as PlayersResolved gives them; each id names a row with its Discord id; players are only added and nothing else changes |
| DiscordSessions.StartOutcome | app/api/discord/route.ts:83-186 | the store and response after an accepted start: players as PlayersResolved leaves them, games as GameResolved leaves them, exactly one new session row (StartedSession under the response id and the resolved game) and exactly NewMembers for the resolved players; other tables unchanged; the response reports title, type, count and start |
| DiscordSessions.StartOutcomeSession | app/api/discord/route.ts:114-150 | the new session takes a fresh id, is a current bot session of the requested type started at the given time, and its game is titled as requested |
| DiscordSessions.StartOutcomeMembers | app/api/discord/route.ts:159-168 | each added membership belongs to the new session, is "Dava pra jogar" with the column default's active flag, and takes a fresh id |
| DiscordSessions.ResolvedMembersHold | app/api/discord/route.ts:159-164 | the `j`-th membership built for the resolved ids names the player holding the `j`-th Discord id |
| DiscordSessions.InsertSession | app/api/discord/route.ts:138-168 | the two inserts: the session row under the next fresh id, then one membership per player under the ids after it; nothing else changes |
| DiscordSessions.OpenSession | app/api/discord/route.ts:83-186 | the store and response after the writes are exactly StartOutcome of the store before: the resolved players, the found or created game, the new session and its memberships |
| DiscordSessions.StartSession | app/api/discord/route.ts:33-194 | 401 exactly when auth fails; a validation error changes nothing; otherwise the store and response are exactly StartOutcome of the validated request, with the given start time or now |
| DiscordSessions.MemberPlayerIds | app/api/discord/route.ts:284-286 | one player id per membership row of the session |
| DiscordSessions.OpenCandidate | app/api/discord/route.ts:264-278 | the candidate filter: the game's current, open bot sessions of the requested type |
| DiscordSessions.HasExactly | app/api/discord/route.ts:287-292 | the loop's test: every requested id is a member and the counts agree |
| DiscordSessions.IsMatch | app/api/discord/route.ts:280-295 | a candidate passing the loop's test |
| DiscordSessions.FindMatchingSession | app/api/discord/route.ts:262-295 | the loop finds the first open candidate that passes the loop's own test (every id present, same count) |
| DiscordSessions.HasExactlyIsSameSet | app/api/discord/route.ts:287-292 | without repeated ids, the loop's test (every id a member, same count) is set equality |
| DiscordSessions.UniqueMembershipsNoRepeats | app/api/discord/route.ts:284-286 | with one membership per (session, player), a session's member ids have no repeats |
| DiscordSessions.MatchIsExactSet | app/api/discord/route.ts:280-302 | with unique memberships and no repeated requested ids, the matched session's members are exactly the requested players |
| DiscordSessions.EndDuration | app/api/discord/route.ts:309-316 | a given non-zero duration wins; otherwise the floored minutes from start to end |
| DiscordSessions.EndedSession | app/api/discord/route.ts:305-319 | the ended session is no longer current and holds the end time and duration; identity kept |
| DiscordSessions.EndedIsNoCandidate | app/api/discord/route.ts:274-278 | an ended session is never again a candidate for ending |
| DiscordSessions.Ids | app/api/discord/route.ts:262 | the ids of the found players, in order |
| DiscordSessions.GameIdTitled | app/api/discord/route.ts:241-250 | a game id exactly when one game has the title, and it is that game's id |
| DiscordSessions.FoundPlayerIds | app/api/discord/route.ts:252-262 | the ids of the players holding one of the Discord ids |
| DiscordSessions.PlayersIn | app/api/discord/route.ts:256 | the `.in("discord_id", ...)` filter: a player passes exactly when its Discord id is one of the requested ids |
| DiscordSessions.LookUpEnd | app/api/discord/route.ts:241-302 | the three lookups in route order, each miss stated as an iff; a match is the first candidate passing the loop's test |
| DiscordSessions.EndedMembersAreFoundPlayers | app/api/discord/route.ts:280-302 | with unique memberships and no player found twice, the ended session's members are exactly the players found |
| DiscordSessions.ValidateEnd | app/api/discord/route.ts:214-237 | accepted exactly when the ids are non-empty, the title present and the end time given |
| DiscordSessions.EndSession | app/api/discord/route.ts:197-345 | 401 exactly when auth fails; each validation error, and each of the three 404s exactly when its lookup misses, answers its own error and changes nothing; otherwise the first matching session is ended and reported; no other table changes |
| StatusHelpers.GroupByStatusSource | lib/status-helpers.ts:16-29 | the season and non-season memberships, each in input order |
| StatusHelpers.GroupsPartition | lib/status-helpers.ts:16-29 | the two groups together are a permutation of the input |
| StatusHelpers.TagsWithinTotal | lib/status-helpers.ts:41-58 | the four status counts together never exceed the row count |
| StatusHelpers.CalculateStatusStats | lib/status-helpers.ts:34-78 | the combined counts are the sums of the two sources; "Em andamento" comes only from participants; the old total counts only non-season memberships and the season total every participant; the four counts never exceed the total. The per-status counts of each side are fixed by NothingCounted, OldEntryCounted and ParticipantCounted |
| StatusHelpers.SeasonEntryIgnored | lib/status-helpers.ts:38-47 | a membership of a season session changes no statistic |
| StatusHelpers.OldEntryCounted | lib/status-helpers.ts:38-47 | a non-season membership adds one to the old-system total and to its own old-system status, the same to the combined fields (never to "Em andamento"), and leaves the season-side counts unchanged |
| StatusHelpers.ParticipantCounted | lib/status-helpers.ts:50-66 | a season participant adds one to the season-side total and to the season-side count of its own status, "Em andamento" included, the same to the combined fields, and leaves the old-system counts unchanged |
| StatusHelpers.NothingCounted | lib/status-helpers.ts:38-66 | with no memberships and no participants every count is zero; with OldEntryCounted, SeasonEntryIgnored and ParticipantCounted this fixes every field for every input |
| StatusHelpers.CountSessionRow | lib/status-helpers.ts:122-127 | an old membership adds one session and at most one bucket; the player's identity is kept |
| StatusHelpers.PositiveSessions | lib/status-helpers.ts:152-154 | a participant's session count when it is positive, and 0 otherwise |
| StatusHelpers.CountSeasonRow | lib/status-helpers.ts:149-159 | a participant adds its positive sessions and one bucket when its status is one of the four |
| StatusHelpers.SeasonName | lib/status-helpers.ts:138 | the name fallback: never empty; the joined player's name when it has one, otherwise "Unknown" |
| StatusHelpers.SeasonAvatar | lib/status-helpers.ts:139 | the avatar fallback: the joined player's non-empty avatar, otherwise none |
| StatusHelpers.AddSessionRowFacts | lib/status-helpers.ts:105-128 | one step of the first loop (AddSessionRow): the map stays well formed, gains only the row's player, and only that player's entry changes, by one session and one bucket for its status |
| StatusHelpers.AddSeasonRowFacts | lib/status-helpers.ts:131-160 | one step of the second loop (AddSeasonRow): the map stays well formed, gains only the row's player, and only that player's entry changes, by its positive sessions and one bucket for its status, "Em andamento" included |
| StatusHelpers.SessionTalliesCount | lib/status-helpers.ts:105-128 | the first loop as a fold (SessionTallies): a player is tallied exactly when they have a membership; their sessions and buckets are the counts of their memberships |
| StatusHelpers.SessionTalliesName | lib/status-helpers.ts:108-120 | a player's name and avatar come from their first membership |
| StatusHelpers.SeasonTalliesCount | lib/status-helpers.ts:131-160 | the second loop as a fold (SeasonTallies): the participant pass adds each player's positive sessions and status counts to what the first pass found |
| StatusHelpers.SeasonTalliesName | lib/status-helpers.ts:135-147 | a player first seen in the participant pass takes that row's name ("Unknown" when missing) and avatar |
| StatusHelpers.InsertByDropos | lib/status-helpers.ts:169 | inserting keeps every row and adds one |
| StatusHelpers.InsertByDroposKeepsOrder | lib/status-helpers.ts:169 | inserting into a list ordered by drops, most first, keeps it ordered |
| StatusHelpers.SortByDropos | lib/status-helpers.ts:169 | a permutation ordered by drops, most first |
| StatusHelpers.SortKeepsDistinct | lib/status-helpers.ts:169 | sorting keeps one line per player |
| StatusHelpers.Values | lib/status-helpers.ts:163 | the map's values in insertion order |
| StatusHelpers.TalliesMatchReference | lib/status-helpers.ts:105-160 | a player is in the map exactly when some row mentions them, and their line equals the reference counts over all rows |
| StatusHelpers.PlayerStatsOf | lib/status-helpers.ts:83-170 | the per-player lines come out ordered by drops |
| StatusHelpers.PlayerStatsDistinct | lib/status-helpers.ts:83-170 | one line per player |
| StatusHelpers.PlayerStatsMatchReference | lib/status-helpers.ts:83-170 | every line equals the reference counts for its player |
| StatusHelpers.PlayerStatsCoverMentioned | lib/status-helpers.ts:83-170 | a player has a line exactly when some row mentions them |
| StatusHelpers.TallySessionRows | lib/status-helpers.ts:105-128 | the loop builds the same map as the reference fold over memberships |
| StatusHelpers.TallySeasonRows | lib/status-helpers.ts:131-160 | the loop builds the same map as the reference fold over participants |
| StatusHelpers.CalculatePlayerStats | lib/status-helpers.ts:83-170 | sorted by drops, one line per player, each equal to the reference counts over the non-season memberships and the participants |
| StatusHelpers.StatusForJogatina | lib/status-helpers.ts:175-191 | a non-season membership keeps its own status; in a season, the first matching participant's status when it is non-empty, and "Em andamento" when it is empty or no participant matches |
| StatusHelpers.UniqueParticipantDecides | lib/status-helpers.ts:180-186 | when exactly one participant matches the season and player, its non-empty status is the one that counts |
| Players.CheckCreate | app/api/players/route.ts:30-65 | a refusal for a blank name, then for a name one row has, then for a Discord id one row has; otherwise the trimmed name |
| Players.NewPlayer | app/api/players/route.ts:67-73 | the inserted row: the given name, with an empty or absent avatar or Discord id stored as null |
| Players.CreatePlayer | app/api/players/route.ts:21-95 | 401 without auth; every refusal leaves the tables unchanged; a registration appends exactly the new row under a fresh id |
| Players.ListPlayers | app/api/players/route.ts:97-128 | 401 exactly when auth fails; otherwise every player, newest first |
| Players.CreateKeepsUnique | app/api/players/route.ts:39-75 | when names and Discord ids are unique, a registration keeps them unique |
| Players.SharedNameNotRefused | app/api/players/route.ts:39-50 | once two rows share a name, a third registration under it is let through |

## Left out

- Storage failures are not modelled: every query and write succeeds. The
  500 answers, the caught exceptions and request-body parsing are left out.
  So is the rule that the leave handler stops midway when a write fails.
- There is no concurrency. Each request runs alone, so the races between
  two bot events for the same game are not captured.
- The clock is a parameter. The events route takes the time once per
  request. Its season lookup reads the clock again, and the model uses the
  same `now` for both.
- ISO timestamps are integer milliseconds. The database's ordering of
  events with equal timestamps is unspecified. The model uses a stable sort
  of the session's events in table order.
- Durations: the source adds up floating-point minutes and rounds once. The
  model adds whole milliseconds and rounds once, so floating-point error is
  not modelled.
- `dropRate` and `dropoPercentage` are floating-point percentages and are
  left out. So are console logging and the `notes` column.
- Ids stand for the generated UUIDs. They are fresh integers from the
  database counter.
- The old start route never sets `is_active` on its memberships, so the
  column default decides it. The model takes that default as the
  database's `memberActiveDefault`.
- `updateSeasonMetrics` reads the participant row per membership as it
  goes. The model folds the rows in order over the participants table.
  This agrees with the source because each step sees the writes before it.
- DiscordSessions.LookUpEnd, DiscordSessions.FindMatchingSession,
  DiscordSessions.EndSession: the candidate query
  (app/api/discord/route.ts:264-278) has no ordering, so which matching
  session comes first is up to the database. The model takes table order.
  Two identical starts leave two candidates with the same players; the
  source ends either one, the model always the earlier row.
- The group test is modelled as the code writes it. An
  interval-intersection test would split an interval into solo and group
  parts. The code gives each interval wholly to one side.
  OverlapIsWhollyGroup, PastPlayerCountsAsGroup and BoundaryLeaveCountsAsSolo
  show where the two differ.
- Players.ListPlayers: the model has no `created_at` column. It takes
  table order as creation order, so newest first is the table reversed.
- The old start route never sets `active_players`, so the column default
  decides it. The model stores 0, as StartedSession shows. A null default
  would give the same counts, because JavaScript's `null + 1` is 1.
