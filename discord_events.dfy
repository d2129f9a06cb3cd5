/** The bot-event route (`POST /api/discord/events`): the Discord bot
    reports that a player joined or left a game, and the route keeps one
    current bot session per game, its memberships, the join/leave log, the
    live player count, and, when the last player leaves, closes the session,
    writes per-player durations and rolls them into the season totals.
    The event's timestamp and the season clock are one parameter `now`. */
module DiscordEvents {
  import opened Common
  import opened Tables
  import opened Auth
  import opened EventLog

  // ---- Request and response --------------------------------------------------

  datatype EventPayload = EventPayload(discordId: Option<string>, gameTitle: Option<string>, eventType: Option<string>)

  datatype EventResponse =
    | Unauthorized
    | BadRequest(error: string)
    | NotFound(error: string)
    | Joined(jogatinaId: Id, gameTitle: string, activePlayers: int, sessionType: SessionType, seasonId: Option<Id>)
    | Left(jogatinaId: Id, gameTitle: string, activePlayers: int, sessionType: SessionType, seasonId: Option<Id>)
    | Finished(jogatinaId: Id, gameTitle: string, totalDurationMinutes: int, seasonId: Option<Id>)
  {
    function Status(): int {
      match this
      case Unauthorized => 401
      case BadRequest(_) => 400
      case NotFound(_) => 404
      case _ => 200
    }
  }

  const MissingFields: string := "discord_id, game_title e event_type s\U{00E3}o obrigat\U{00F3}rios"
  const BadEventType: string := "event_type deve ser 'player_joined' ou 'player_left'"
  const NoActiveSession: string := "No active jogatina found for this game"
  const NotInSession: string := "Player is not in this jogatina"
  const NotActiveInSession: string := "Player is not currently active in this jogatina"

  function EventTypeName(k: EventKind): string {
    match k
    case PlayerJoined => "player_joined"
    case PlayerLeft => "player_left"
  }

  function ParseEventType(s: string): (r: Option<EventKind>)
    ensures r.Some? <==> s == "player_joined" || s == "player_left"
    ensures r.Some? ==> EventTypeName(r.value) == s
  {
    if s == "player_joined" then Some(PlayerJoined)
    else if s == "player_left" then Some(PlayerLeft)
    else None
  }

  /** The two event-type spellings and the two kinds correspond one to one. */
  lemma EventTypeRoundTrip(k: EventKind)
    ensures ParseEventType(EventTypeName(k)) == Some(k)
  {
  }

  datatype Checked =
    | Rejected(error: string)
    | Accepted(discordId: string, gameTitle: string, kind: EventKind)

  /** The payload checks, in the route's order: all three fields present and
      non-empty, then a known event type. */
  function ValidateEvent(p: EventPayload): (c: Checked)
    ensures c.Accepted? <==> Truthy(p.discordId) && Truthy(p.gameTitle) && Truthy(p.eventType)
                             && ParseEventType(p.eventType.value).Some?
    ensures !(Truthy(p.discordId) && Truthy(p.gameTitle) && Truthy(p.eventType)) ==> c == Rejected(MissingFields)
    ensures c.Rejected? ==> c.error == MissingFields || c.error == BadEventType
    ensures c.Accepted? ==> Some(c.discordId) == p.discordId && Some(c.gameTitle) == p.gameTitle
                            && Some(EventTypeName(c.kind)) == p.eventType
  {
    if !Truthy(p.discordId) || !Truthy(p.gameTitle) || !Truthy(p.eventType) then Rejected(MissingFields)
    else match ParseEventType(p.eventType.value)
      case None => Rejected(BadEventType)
      case Some(k) => Accepted(p.discordId.value, p.gameTitle.value, k)
  }

  // ---- Rows the route writes -------------------------------------------------

  /** The session a join opens when the game has no current bot session. */
  function NewBotSession(id: Id, gameId: Id, now: Millis): (r: JogatinaRow)
    ensures CurrentBotSessionOf(gameId)(r) && r.id == id
    ensures r.sessionType == Solo && r.activePlayers == 0 && r.date == now && r.firstEventAt == Some(now)
    ensures r.seasonId.None? && r.endedAt.None? && r.totalDurationMinutes.None?
  {
    JogatinaRow(id, gameId, now, true, DiscordBot, Solo, 0, Some(now), None, None, None, None, None, None)
  }

  /** The season a new session joins: the one active season of the game
      whose window contains `now`; none when no season or several match. */
  function SeasonFor(seasons: seq<SeasonRow>, gameId: Id, now: Millis): (r: Option<Id>)
    ensures r.Some? <==> CountWhere(seasons, SeasonActiveAt(gameId, now)) == 1
    ensures r.Some? ==> exists k :: 0 <= k < |seasons| && seasons[k].id == r.value
                                    && SeasonActiveAt(gameId, now)(seasons[k])
  {
    match Single(seasons, SeasonActiveAt(gameId, now))
    case None => None
    case Some(k) => Some(seasons[k].id)
  }

  /** The session row after a join: the stored count goes up by one whatever
      the memberships say, and the type follows the new count. */
  function AfterJoin(s: JogatinaRow, now: Millis): (r: JogatinaRow)
    ensures r.id == s.id && r.gameId == s.gameId && r.isCurrent == s.isCurrent && r.source == s.source
    ensures r.activePlayers == s.activePlayers + 1
    ensures r.sessionType == Group <==> s.activePlayers >= 1
  {
    s.(activePlayers := s.activePlayers + 1, sessionType := TypeFor(s.activePlayers + 1), lastEventAt := Some(now))
  }

  /** Whether some membership row of the player in the session is active. */
  ghost predicate ActiveMember(ms: seq<MemberRow>, jogatinaId: Id, playerId: Id) {
    exists k :: 0 <= k < |ms| && MembershipOf(jogatinaId, playerId)(ms[k]) && ms[k].isActive
  }

  /** The memberships after a join: a player without a (single) membership
      row gets a new active one; an existing row is made active (it is left
      as it is when it already was). */
  function JoinMembership(ms: seq<MemberRow>, jogatinaId: Id, playerId: Id, freshId: Id): seq<MemberRow> {
    match Single(ms, MembershipOf(jogatinaId, playerId))
    case None => ms + [MemberRow(freshId, jogatinaId, playerId, DavaPraJogar, true, None, None, None)]
    case Some(k) => ms[k := ms[k].(isActive := true)]
  }

  /** A join leaves exactly one membership of the player in the session, and
      it is active; no other (session, player) pair gains a row. */
  lemma JoinMembershipFacts(ms: seq<MemberRow>, jogatinaId: Id, playerId: Id, freshId: Id)
    requires CountWhere(ms, MembershipOf(jogatinaId, playerId)) <= 1
    ensures var r := JoinMembership(ms, jogatinaId, playerId, freshId);
            CountWhere(r, MembershipOf(jogatinaId, playerId)) == 1
            && ActiveMember(r, jogatinaId, playerId)
            && forall j, p :: CountWhere(r, MembershipOf(j, p)) <= CountWhere(ms, MembershipOf(j, p))
                                + (if j == jogatinaId && p == playerId then 1 else 0)
  {
    var r := JoinMembership(ms, jogatinaId, playerId, freshId);
    match Single(ms, MembershipOf(jogatinaId, playerId))
    case None =>
      SingleMissMeansNone(ms, MembershipOf(jogatinaId, playerId));
      var row := MemberRow(freshId, jogatinaId, playerId, DavaPraJogar, true, None, None, None);
      assert r == ms + [row];
      CountAppend(ms, row, MembershipOf(jogatinaId, playerId));
      assert r[|ms|] == row;
      forall j, p
        ensures CountWhere(r, MembershipOf(j, p)) <= CountWhere(ms, MembershipOf(j, p))
                + (if j == jogatinaId && p == playerId then 1 else 0)
      {
        CountAppend(ms, row, MembershipOf(j, p));
      }
    case Some(k) =>
      var row := ms[k].(isActive := true);
      CountUpdate(ms, k, row, MembershipOf(jogatinaId, playerId));
      assert r[k] == row;
      forall j, p
        ensures CountWhere(r, MembershipOf(j, p)) <= CountWhere(ms, MembershipOf(j, p))
                + (if j == jogatinaId && p == playerId then 1 else 0)
      {
        CountUpdate(ms, k, row, MembershipOf(j, p));
      }
  }

  /** Joining adds one to the session's active memberships exactly when the
      player was not active in it already, and leaves every other session's
      count alone. */
  lemma {:induction false} JoinActiveCount(ms: seq<MemberRow>, jogatinaId: Id, playerId: Id, freshId: Id)
    requires CountWhere(ms, MembershipOf(jogatinaId, playerId)) <= 1
    ensures ActiveCount(JoinMembership(ms, jogatinaId, playerId, freshId), jogatinaId)
         == ActiveCount(ms, jogatinaId) + (if ActiveMember(ms, jogatinaId, playerId) then 0 else 1)
    ensures forall j :: j != jogatinaId ==>
              ActiveCount(JoinMembership(ms, jogatinaId, playerId, freshId), j) == ActiveCount(ms, j)
  {
    match Single(ms, MembershipOf(jogatinaId, playerId))
    case None =>
      SingleMissMeansNone(ms, MembershipOf(jogatinaId, playerId));
      var row := MemberRow(freshId, jogatinaId, playerId, DavaPraJogar, true, None, None, None);
      forall j
        ensures CountWhere(ms + [row], ActiveIn(j)) == CountWhere(ms, ActiveIn(j)) + (if j == jogatinaId then 1 else 0)
      {
        CountAppend(ms, row, ActiveIn(j));
      }
    case Some(k) =>
      var row := ms[k].(isActive := true);
      assert ActiveMember(ms, jogatinaId, playerId) <==> ms[k].isActive;
      forall j
        ensures CountWhere(ms[k := row], ActiveIn(j))
             == CountWhere(ms, ActiveIn(j)) + (if j == jogatinaId && !ms[k].isActive then 1 else 0)
      {
        CountUpdate(ms, k, row, ActiveIn(j));
      }
  }

  /** Whether a session's stored count equals its active memberships. */
  predicate CounterAgrees(s: JogatinaRow, ms: seq<MemberRow>) {
    s.activePlayers == ActiveCount(ms, s.id)
  }

  /** A join keeps an agreeing counter agreeing if and only if the player was
      not already active: a repeated join counts the same player twice. */
  lemma JoinCounterAgrees(s: JogatinaRow, ms: seq<MemberRow>, playerId: Id, freshId: Id, now: Millis)
    requires CountWhere(ms, MembershipOf(s.id, playerId)) <= 1
    requires CounterAgrees(s, ms)
    ensures CounterAgrees(AfterJoin(s, now), JoinMembership(ms, s.id, playerId, freshId))
        <==> !ActiveMember(ms, s.id, playerId)
  {
    JoinActiveCount(ms, s.id, playerId, freshId);
  }

  // ---- The one-current-session rule -------------------------------------------

  /** Rewriting a session without touching its game, current flag or source
      leaves every game's count of current bot sessions as it was. */
  lemma {:induction false} SameKeyKeepsCurrentCounts(js: seq<JogatinaRow>, k: nat, row: JogatinaRow)
    requires k < |js|
    requires row.gameId == js[k].gameId && row.isCurrent == js[k].isCurrent && row.source == js[k].source
    ensures forall g :: CountWhere(js[k := row], CurrentBotSessionOf(g)) == CountWhere(js, CurrentBotSessionOf(g))
  {
    forall g
      ensures CountWhere(js[k := row], CurrentBotSessionOf(g)) == CountWhere(js, CurrentBotSessionOf(g))
    {
      CountUpdate(js, k, row, CurrentBotSessionOf(g));
    }
  }

  /** Opening a session only when the lookup missed keeps at most one current
      bot session per game, and the lookup then finds the new one. */
  lemma {:induction false} OpenKeepsAtMostOneCurrent(js: seq<JogatinaRow>, gameId: Id, row: JogatinaRow)
    requires AtMostOneCurrent(js)
    requires Single(js, CurrentBotSessionOf(gameId)).None?
    requires row.gameId == gameId && row.isCurrent && row.source == DiscordBot
    ensures AtMostOneCurrent(js + [row])
    ensures Single(js + [row], CurrentBotSessionOf(gameId)) == Some(|js|)
  {
    SingleMissMeansNone(js, CurrentBotSessionOf(gameId));
    forall g
      ensures CountWhere(js + [row], CurrentBotSessionOf(g)) <= 1
    {
      CountAppend(js, row, CurrentBotSessionOf(g));
    }
    CountAppend(js, row, CurrentBotSessionOf(gameId));
    assert (js + [row])[|js|] == row;
  }

  /** Closing the current session keeps the rule, and the next lookup for the
      game misses, so the next join opens a fresh session. */
  lemma {:induction false} CloseEndsCurrent(js: seq<JogatinaRow>, k: nat, row: JogatinaRow)
    requires AtMostOneCurrent(js)
    requires k < |js| && CurrentBotSessionOf(js[k].gameId)(js[k])
    requires row.gameId == js[k].gameId && !row.isCurrent
    ensures AtMostOneCurrent(js[k := row])
    ensures Single(js[k := row], CurrentBotSessionOf(row.gameId)).None?
  {
    forall g
      ensures CountWhere(js[k := row], CurrentBotSessionOf(g)) <= 1
    {
      CountUpdate(js, k, row, CurrentBotSessionOf(g));
    }
    CountUpdate(js, k, row, CurrentBotSessionOf(row.gameId));
  }

  // ---- Season roll-up ----------------------------------------------------------

  /** The totals of a season participant the roll-up adds to. */
  datatype Metric = Sessions | TotalMinutes | SoloMinutes | GroupMinutes

  function ParticipantValue(r: ParticipantRow, m: Metric): int {
    match m
    case Sessions => r.totalSessions
    case TotalMinutes => r.totalMinutes
    case SoloMinutes => r.soloMinutes
    case GroupMinutes => r.groupMinutes
  }

  /** What one membership row of the finished session adds: one session, and
      its minutes with a missing value read as zero. */
  function Contribution(jp: MemberRow, m: Metric): (n: int)
    ensures m.Sessions? ==> n == 1
    ensures m.TotalMinutes? ==> n == (if jp.totalMinutes.Some? then jp.totalMinutes.value else 0)
    ensures m.SoloMinutes? ==> n == (if jp.soloMinutes.Some? then jp.soloMinutes.value else 0)
    ensures m.GroupMinutes? ==> n == (if jp.groupMinutes.Some? then jp.groupMinutes.value else 0)
  {
    match m
    case Sessions => 1
    case TotalMinutes => jp.totalMinutes.GetOr(0)
    case SoloMinutes => jp.soloMinutes.GetOr(0)
    case GroupMinutes => jp.groupMinutes.GetOr(0)
  }

  /** One step of `updateSeasonMetrics`: add the row's contribution to the
      player's (single) participant, or insert a participant holding it. */
  function AddContribution(ps: seq<ParticipantRow>, seasonId: Id, jp: MemberRow, freshId: Id): seq<ParticipantRow> {
    match Single(ps, ParticipantOf(seasonId, jp.playerId))
    case Some(k) =>
      ps[k := ps[k].(totalSessions := ps[k].totalSessions + 1,
                     totalMinutes := ps[k].totalMinutes + jp.totalMinutes.GetOr(0),
                     soloMinutes := ps[k].soloMinutes + jp.soloMinutes.GetOr(0),
                     groupMinutes := ps[k].groupMinutes + jp.groupMinutes.GetOr(0))]
    case None =>
      ps + [ParticipantRow(freshId, seasonId, jp.playerId, EmAndamento, 1,
                           jp.totalMinutes.GetOr(0), jp.soloMinutes.GetOr(0), jp.groupMinutes.GetOr(0))]
  }

  /** The participants after rolling in `jps[i..]` in order, the row at
      index `i + n` inserting, if it inserts, with id `freshId + n`. */
  function RollUp(ps: seq<ParticipantRow>, seasonId: Id, jps: seq<MemberRow>, i: nat, freshId: Id): seq<ParticipantRow>
    requires i <= |jps|
    decreases |jps| - i
  {
    if i == |jps| then ps
    else RollUp(AddContribution(ps, seasonId, jps[i], freshId), seasonId, jps, i + 1, freshId + 1)
  }

  function ValueOf(m: Metric): ParticipantRow -> int {
    (r: ParticipantRow) => ParticipantValue(r, m)
  }

  function ContributionOf(m: Metric): MemberRow -> int {
    (jp: MemberRow) => Contribution(jp, m)
  }

  function RowOfPlayer(playerId: Id): MemberRow -> bool {
    (jp: MemberRow) => jp.playerId == playerId
  }

  /** One step adds the row's contribution to the player's season total and
      nothing to anyone else's. */
  lemma AddContributionSum(ps: seq<ParticipantRow>, seasonId: Id, jp: MemberRow, freshId: Id, playerId: Id, m: Metric)
    ensures SumWhere(AddContribution(ps, seasonId, jp, freshId), ParticipantOf(seasonId, playerId), ValueOf(m))
         == SumWhere(ps, ParticipantOf(seasonId, playerId), ValueOf(m))
            + (if jp.playerId == playerId then Contribution(jp, m) else 0)
  {
    match Single(ps, ParticipantOf(seasonId, jp.playerId))
    case Some(k) =>
      var row := ps[k].(totalSessions := ps[k].totalSessions + 1,
                        totalMinutes := ps[k].totalMinutes + jp.totalMinutes.GetOr(0),
                        soloMinutes := ps[k].soloMinutes + jp.soloMinutes.GetOr(0),
                        groupMinutes := ps[k].groupMinutes + jp.groupMinutes.GetOr(0));
      SumUpdate(ps, k, row, ParticipantOf(seasonId, playerId), ValueOf(m));
    case None =>
      var row := ParticipantRow(freshId, seasonId, jp.playerId, EmAndamento, 1,
                                jp.totalMinutes.GetOr(0), jp.soloMinutes.GetOr(0), jp.groupMinutes.GetOr(0));
      SumAppend(ps, row, ParticipantOf(seasonId, playerId), ValueOf(m));
  }

  /** Conservation: after the roll-up, each player's season total of each
      metric has grown by exactly the contributions of that player's rows
      (one session per row, minutes as stored), whether the participant
      existed or was inserted. */
  lemma {:induction false} RollUpSum(ps: seq<ParticipantRow>, seasonId: Id, jps: seq<MemberRow>, i: nat, freshId: Id,
                                     playerId: Id, m: Metric)
    requires i <= |jps|
    decreases |jps| - i
    ensures SumWhere(RollUp(ps, seasonId, jps, i, freshId), ParticipantOf(seasonId, playerId), ValueOf(m))
         == SumWhere(ps, ParticipantOf(seasonId, playerId), ValueOf(m))
            + SumWhere(jps[i..], RowOfPlayer(playerId), ContributionOf(m))
  {
    if i < |jps| {
      var next := AddContribution(ps, seasonId, jps[i], freshId);
      RollUpSum(next, seasonId, jps, i + 1, freshId + 1, playerId, m);
      AddContributionSum(ps, seasonId, jps[i], freshId, playerId, m);
      SumFront(jps, i, RowOfPlayer(playerId), ContributionOf(m));
    }
  }

  /** At most one participant row per (season, player) pair. */
  ghost predicate UniqueParticipants(ps: seq<ParticipantRow>) {
    forall s, p :: CountWhere(ps, ParticipantOf(s, p)) <= 1
  }

  lemma AddContributionKeepsUnique(ps: seq<ParticipantRow>, seasonId: Id, jp: MemberRow, freshId: Id)
    requires UniqueParticipants(ps)
    ensures UniqueParticipants(AddContribution(ps, seasonId, jp, freshId))
  {
    match Single(ps, ParticipantOf(seasonId, jp.playerId))
    case Some(k) =>
      var row := ps[k].(totalSessions := ps[k].totalSessions + 1,
                        totalMinutes := ps[k].totalMinutes + jp.totalMinutes.GetOr(0),
                        soloMinutes := ps[k].soloMinutes + jp.soloMinutes.GetOr(0),
                        groupMinutes := ps[k].groupMinutes + jp.groupMinutes.GetOr(0));
      forall s, p
        ensures CountWhere(ps[k := row], ParticipantOf(s, p)) <= 1
      {
        CountUpdate(ps, k, row, ParticipantOf(s, p));
      }
    case None =>
      SingleMissMeansNone(ps, ParticipantOf(seasonId, jp.playerId));
      var row := ParticipantRow(freshId, seasonId, jp.playerId, EmAndamento, 1,
                                jp.totalMinutes.GetOr(0), jp.soloMinutes.GetOr(0), jp.groupMinutes.GetOr(0));
      forall s, p
        ensures CountWhere(ps + [row], ParticipantOf(s, p)) <= 1
      {
        CountAppend(ps, row, ParticipantOf(s, p));
      }
  }

  /** Participant keys are distinct and below `bound`. */
  ghost predicate KeyedBelow(ps: seq<ParticipantRow>, bound: Id) {
    && (forall a, b :: 0 <= a < b < |ps| ==> ps[a].id != ps[b].id)
    && (forall k :: 0 <= k < |ps| ==> ps[k].id < bound)
  }

  /** A roll-up step keeps participant keys distinct, spending one fresh id. */
  lemma AddContributionKeyed(ps: seq<ParticipantRow>, seasonId: Id, jp: MemberRow, freshId: Id)
    requires KeyedBelow(ps, freshId)
    ensures KeyedBelow(AddContribution(ps, seasonId, jp, freshId), freshId + 1)
  {
  }

  /** The whole roll-up keeps participant keys distinct and below the
      advanced id counter. */
  lemma {:induction false} RollUpKeyed(ps: seq<ParticipantRow>, seasonId: Id, jps: seq<MemberRow>, i: nat, freshId: Id)
    requires i <= |jps|
    requires KeyedBelow(ps, freshId)
    decreases |jps| - i
    ensures KeyedBelow(RollUp(ps, seasonId, jps, i, freshId), freshId + |jps| - i)
  {
    if i < |jps| {
      AddContributionKeyed(ps, seasonId, jps[i], freshId);
      RollUpKeyed(AddContribution(ps, seasonId, jps[i], freshId), seasonId, jps, i + 1, freshId + 1);
    }
  }

  /** The roll-up never creates a second participant for a player. */
  lemma {:induction false} RollUpKeepsUnique(ps: seq<ParticipantRow>, seasonId: Id, jps: seq<MemberRow>, i: nat, freshId: Id)
    requires i <= |jps|
    requires UniqueParticipants(ps)
    decreases |jps| - i
    ensures UniqueParticipants(RollUp(ps, seasonId, jps, i, freshId))
  {
    if i < |jps| {
      AddContributionKeepsUnique(ps, seasonId, jps[i], freshId);
      RollUpKeepsUnique(AddContribution(ps, seasonId, jps[i], freshId), seasonId, jps, i + 1, freshId + 1);
    }
  }

  // ---- The handlers --------------------------------------------------------------

  /** `associateToActiveSeason`: records the season `SeasonFor` picks on the
      session at `jIdx`, and leaves it alone when there is none. */
  method AssociateToActiveSeason(db: Database, jIdx: nat, gameId: Id, now: Millis) returns (seasonId: Option<Id>)
    requires db.Valid() && jIdx < |db.jogatinas|
    modifies db
    ensures db.Valid()
    ensures seasonId == SeasonFor(db.seasons, gameId, now)
    ensures db.jogatinas == if seasonId.Some? then old(db.jogatinas)[jIdx := old(db.jogatinas)[jIdx].(seasonId := seasonId)]
                            else old(db.jogatinas)
    ensures db.players == old(db.players) && db.games == old(db.games) && db.members == old(db.members)
    ensures db.events == old(db.events) && db.seasons == old(db.seasons) && db.participants == old(db.participants)
    ensures db.nextId == old(db.nextId)
  {
    seasonId := SeasonFor(db.seasons, gameId, now);
    if seasonId.Some? {
      db.jogatinas := db.jogatinas[jIdx := db.jogatinas[jIdx].(seasonId := seasonId)];
    }
  }

  /** The membership step of a join: insert an active membership when the
      `.single()` lookup misses, reactivate the row when it is inactive. */
  method AddOrReactivateMember(db: Database, jogatinaId: Id, playerId: Id, freshId: Id)
    requires db.Valid() && freshId < db.nextId
    requires forall k :: 0 <= k < |db.members| ==> db.members[k].id != freshId
    modifies db
    ensures db.Valid()
    ensures db.members == JoinMembership(old(db.members), jogatinaId, playerId, freshId)
    ensures db.players == old(db.players) && db.games == old(db.games) && db.jogatinas == old(db.jogatinas)
    ensures db.events == old(db.events) && db.seasons == old(db.seasons) && db.participants == old(db.participants)
    ensures db.nextId == old(db.nextId)
  {
    var existing := Single(db.members, MembershipOf(jogatinaId, playerId));
    if existing.None? {
      db.AddMember(MemberRow(freshId, jogatinaId, playerId, DavaPraJogar, true, None, None, None));
    } else if !db.members[existing.value].isActive {
      db.SetMember(existing.value, db.members[existing.value].(isActive := true));
    } else {
      assert db.members[existing.value := db.members[existing.value].(isActive := true)] == db.members;
    }
  }

  // ---- A join, as a function of the tables ----------------------------------------

  /** The sessions after a join: the game's current bot session (found with
      `.single()`) gets `AfterJoin`; when the lookup misses, a new session
      with id `freshId`, tied to the season `SeasonFor` picks, is added and
      gets `AfterJoin`. */
  function JoinSessions(js: seq<JogatinaRow>, seasons: seq<SeasonRow>, gameId: Id, freshId: Id, now: Millis): seq<JogatinaRow> {
    match Single(js, CurrentBotSessionOf(gameId))
    case Some(k) => js[k := AfterJoin(js[k], now)]
    case None => js + [AfterJoin(NewBotSession(freshId, gameId, now).(seasonId := SeasonFor(seasons, gameId, now)), now)]
  }

  /** The response of a join. It is built from the session row as read
      before the join, so a session the join itself opened is reported with
      no season even when one was just recorded on it. */
  function JoinResponse(js: seq<JogatinaRow>, gameId: Id, gameTitle: string, freshId: Id): EventResponse {
    match Single(js, CurrentBotSessionOf(gameId))
    case Some(k) =>
      Joined(js[k].id, gameTitle, js[k].activePlayers + 1, TypeFor(js[k].activePlayers + 1), js[k].seasonId)
    case None => Joined(freshId, gameTitle, 1, Solo, None)
  }

  /** Every table after a join: the sessions, the memberships and the event
      log change as `JoinSessions`, `JoinMembership` and one appended join
      event say, and three fresh ids are spent. */
  function AfterJoinTables(st: Store, playerId: Id, gameId: Id, now: Millis): Store {
    var target := JoinResponse(st.jogatinas, gameId, [], st.nextId).jogatinaId;
    st.(jogatinas := JoinSessions(st.jogatinas, st.seasons, gameId, st.nextId, now),
        members := JoinMembership(st.members, target, playerId, st.nextId + 1),
        events := st.events + [EventRow(st.nextId + 2, target, playerId, PlayerJoined, now)],
        nextId := st.nextId + 3)
  }

  /** Under the one-current-session rule a join keeps the rule, and afterwards
      the game's current bot session is the one the response names, holding
      the count and type the response reports. */
  lemma {:induction false} JoinKeepsAtMostOneCurrent(js: seq<JogatinaRow>, seasons: seq<SeasonRow>, gameId: Id,
                                                     freshId: Id, gameTitle: string, now: Millis)
    requires AtMostOneCurrent(js)
    ensures var r := JoinSessions(js, seasons, gameId, freshId, now);
            var resp := JoinResponse(js, gameId, gameTitle, freshId);
            AtMostOneCurrent(r)
            && Single(r, CurrentBotSessionOf(gameId)).Some?
            && r[Single(r, CurrentBotSessionOf(gameId)).value].id == resp.jogatinaId
            && r[Single(r, CurrentBotSessionOf(gameId)).value].activePlayers == resp.activePlayers
            && r[Single(r, CurrentBotSessionOf(gameId)).value].sessionType == resp.sessionType
  {
    match Single(js, CurrentBotSessionOf(gameId))
    case Some(k) =>
      var row := AfterJoin(js[k], now);
      SameKeyKeepsCurrentCounts(js, k, row);
      assert js[k := row][k] == row;
      assert Single(js[k := row], CurrentBotSessionOf(gameId)) == Some(k);
    case None =>
      var row := AfterJoin(NewBotSession(freshId, gameId, now).(seasonId := SeasonFor(seasons, gameId, now)), now);
      OpenKeepsAtMostOneCurrent(js, gameId, row);
  }

  /** A session the join opens is reported without a season, whatever
      season was recorded on it. */
  lemma NewSessionReportsNoSeason(js: seq<JogatinaRow>, seasons: seq<SeasonRow>, gameId: Id, freshId: Id,
                                  gameTitle: string, now: Millis)
    requires Single(js, CurrentBotSessionOf(gameId)).None?
    ensures var r := JoinSessions(js, seasons, gameId, freshId, now);
            r[|r| - 1].seasonId == SeasonFor(seasons, gameId, now)
            && JoinResponse(js, gameId, gameTitle, freshId).seasonId == None
  {
  }

  /** The session step of a join: the game's current bot session, or a new
      one with id `freshId` tied to the active season. Returns its index and
      the row as the route holds it, read before any season was recorded. */
  method FindOrOpenSession(db: Database, gameId: Id, freshId: Id, now: Millis) returns (jIdx: nat, snapshot: JogatinaRow)
    requires db.Valid() && freshId < db.nextId
    requires forall k :: 0 <= k < |db.jogatinas| ==> db.jogatinas[k].id != freshId
    modifies db
    ensures db.Valid()
    ensures jIdx < |db.jogatinas| && db.jogatinas[jIdx].id == snapshot.id
    ensures db.jogatinas[jIdx].activePlayers == snapshot.activePlayers
    ensures match old(Single(db.jogatinas, CurrentBotSessionOf(gameId)))
            case Some(k) => jIdx == k && snapshot == old(db.jogatinas)[k] && db.jogatinas == old(db.jogatinas)
            case None => snapshot == NewBotSession(freshId, gameId, now) && jIdx == |old(db.jogatinas)|
                         && db.jogatinas == old(db.jogatinas) + [snapshot.(seasonId := SeasonFor(old(db.seasons), gameId, now))]
    ensures db.Snapshot() == old(db.Snapshot()).(jogatinas := db.jogatinas)
  {
    var found := Single(db.jogatinas, CurrentBotSessionOf(gameId));
    if found.Some? {
      jIdx := found.value;
      snapshot := db.jogatinas[jIdx];
    } else {
      snapshot := NewBotSession(freshId, gameId, now);
      db.AddJogatina(snapshot);
      jIdx := |db.jogatinas| - 1;
      var _ := AssociateToActiveSeason(db, jIdx, gameId, now);
    }
  }

  /** The writes of a join once its session is known: the membership is
      created or reactivated (id `freshId`), the join is logged (id
      `freshId + 1`), and the session row takes the incremented count. */
  method RecordJoin(db: Database, jIdx: nat, snapshot: JogatinaRow, playerId: Id, freshId: Id, now: Millis)
    requires db.Valid() && freshId + 1 < db.nextId
    requires forall k :: 0 <= k < |db.members| ==> db.members[k].id != freshId
    requires jIdx < |db.jogatinas| && db.jogatinas[jIdx].id == snapshot.id
    requires db.jogatinas[jIdx].activePlayers == snapshot.activePlayers
    modifies db
    ensures db.Valid()
    ensures db.Snapshot() == old(db.Snapshot()).(
              members := JoinMembership(old(db.members), snapshot.id, playerId, freshId),
              events := old(db.events) + [EventRow(freshId + 1, snapshot.id, playerId, PlayerJoined, now)],
              jogatinas := old(db.jogatinas)[jIdx := AfterJoin(old(db.jogatinas)[jIdx], now)])
  {
    AddOrReactivateMember(db, snapshot.id, playerId, freshId);
    db.AddEvent(EventRow(freshId + 1, snapshot.id, playerId, PlayerJoined, now));
    var newActiveCount := snapshot.activePlayers + 1;
    db.SetJogatina(jIdx, db.jogatinas[jIdx].(activePlayers := newActiveCount,
                                             sessionType := TypeFor(newActiveCount),
                                             lastEventAt := Some(now)));
  }

  /** `handlePlayerJoined`. Three fresh ids are reserved up front, for the
      session, the membership and the event, whether or not each is used. */
  method HandlePlayerJoined(db: Database, playerId: Id, gameId: Id, gameTitle: string, now: Millis)
    returns (resp: EventResponse)
    requires db.Valid()
    modifies db
    ensures db.Valid()
    ensures resp == JoinResponse(old(db.jogatinas), gameId, gameTitle, old(db.nextId))
    ensures db.jogatinas == JoinSessions(old(db.jogatinas), old(db.seasons), gameId, old(db.nextId), now)
    ensures db.members == JoinMembership(old(db.members), resp.jogatinaId, playerId, old(db.nextId) + 1)
    ensures db.events == old(db.events) + [EventRow(old(db.nextId) + 2, resp.jogatinaId, playerId, PlayerJoined, now)]
    ensures db.nextId == old(db.nextId) + 3
    ensures db.players == old(db.players) && db.games == old(db.games)
    ensures db.seasons == old(db.seasons) && db.participants == old(db.participants)
    ensures db.Snapshot() == AfterJoinTables(old(db.Snapshot()), playerId, gameId, now)
  {
    var base := db.nextId;
    db.Reserve(3);
    var jIdx, snapshot := FindOrOpenSession(db, gameId, base, now);
    RecordJoin(db, jIdx, snapshot, playerId, base + 1, now);
    var newActiveCount := snapshot.activePlayers + 1;
    resp := Joined(snapshot.id, gameTitle, newActiveCount, TypeFor(newActiveCount), snapshot.seasonId);
  }

  /** `calculatePlayerDurations`: every membership row of the session is
      given the rounded sums its player's events yield. */
  method CalculatePlayerDurations(db: Database, jogatinaId: Id)
    requires db.Valid()
    modifies db
    ensures db.Valid()
    ensures db.members == RecomputeDurations(old(db.members), SessionLog(db.events, jogatinaId), jogatinaId)
    ensures db.players == old(db.players) && db.games == old(db.games) && db.jogatinas == old(db.jogatinas)
    ensures db.events == old(db.events) && db.seasons == old(db.seasons) && db.participants == old(db.participants)
    ensures db.nextId == old(db.nextId)
  {
    var log := SessionLog(db.events, jogatinaId);
    var ms0 := db.members;
    var ms := ms0;
    for k := 0 to |ms0|
      invariant |ms| == |ms0|
      invariant forall i :: 0 <= i < k ==> ms[i] == WithDurations(ms0[i], log, jogatinaId)
      invariant forall i :: k <= i < |ms| ==> ms[i] == ms0[i]
      invariant unchanged(db)
    {
      var jp := ms[k];
      if jp.jogatinaId == jogatinaId && |PlayerEvents(log, jp.playerId)| > 0 {
        var t := ComputePlayerTally(log, jp.playerId);
        ms := ms[k := jp.(soloMinutes := Some(RoundMinutes(t.solo)),
                          groupMinutes := Some(RoundMinutes(t.group)),
                          totalMinutes := Some(RoundMinutes(t.total)))];
      }
      assert ms[k] == WithDurations(ms0[k], log, jogatinaId);
    }
    assert ms == RecomputeDurations(ms0, log, jogatinaId);
    forall i | 0 <= i < |ms|
      ensures ms[i].id == ms0[i].id && ms[i].jogatinaId == ms0[i].jogatinaId
    {
      RecomputeKeepsIdentity(ms0, log, jogatinaId, i);
    }
    db.members := ms;
  }

  /** The loop of `updateSeasonMetrics` over the finished session's rows,
      in table order: the player's (single) participant gets the row's
      contribution, or a participant holding it is inserted with the next
      fresh id. */
  method RollUpRows(ps0: seq<ParticipantRow>, seasonId: Id, jps: seq<MemberRow>, firstId: Id)
    returns (ps: seq<ParticipantRow>, nextId: Id)
    ensures ps == RollUp(ps0, seasonId, jps, 0, firstId)
    ensures nextId == firstId + |jps|
  {
    ps, nextId := ps0, firstId;
    for i := 0 to |jps|
      invariant nextId == firstId + i
      invariant RollUp(ps, seasonId, jps, i, nextId) == RollUp(ps0, seasonId, jps, 0, firstId)
    {
      var jp := jps[i];
      var participant := Single(ps, ParticipantOf(seasonId, jp.playerId));
      var next;
      if participant.Some? {
        var p := ps[participant.value];
        next := ps[participant.value := p.(
          totalSessions := p.totalSessions + 1,
          totalMinutes := p.totalMinutes + jp.totalMinutes.GetOr(0),
          soloMinutes := p.soloMinutes + jp.soloMinutes.GetOr(0),
          groupMinutes := p.groupMinutes + jp.groupMinutes.GetOr(0))];
      } else {
        next := ps + [ParticipantRow(nextId, seasonId, jp.playerId, EmAndamento, 1,
          jp.totalMinutes.GetOr(0), jp.soloMinutes.GetOr(0), jp.groupMinutes.GetOr(0))];
      }
      assert next == AddContribution(ps, seasonId, jp, nextId);
      ps, nextId := next, nextId + 1;
    }
  }

  /** `updateSeasonMetrics`: rolls every membership row of the finished
      session into the season's participants. */
  method UpdateSeasonMetrics(db: Database, seasonId: Id, jogatinaId: Id)
    requires db.Valid()
    modifies db
    ensures db.Valid()
    ensures db.participants
         == RollUp(old(db.participants), seasonId, Filter(old(db.members), MemberOfSession(jogatinaId)), 0, old(db.nextId))
    ensures db.nextId == old(db.nextId) + CountWhere(old(db.members), MemberOfSession(jogatinaId))
    ensures db.players == old(db.players) && db.games == old(db.games) && db.jogatinas == old(db.jogatinas)
    ensures db.members == old(db.members) && db.events == old(db.events) && db.seasons == old(db.seasons)
  {
    var jps := Filter(db.members, MemberOfSession(jogatinaId));
    var ps, nextId := RollUpRows(db.participants, seasonId, jps, db.nextId);
    RollUpKeyed(db.participants, seasonId, jps, 0, db.nextId);
    db.participants, db.nextId := ps, nextId;
  }

  // ---- A leave, as a function of the tables -----------------------------------

  /** What the two lookups a leave starts with find. */
  datatype LeaveCheck = NoSession | NotMember | NotActive | CanLeave(k: nat, m: nat)

  /** The lookups of a leave, in the route's order: the game's current bot
      session (`.single()`), the player's membership in it (`.single()`),
      then that membership's active flag. */
  function CheckLeave(js: seq<JogatinaRow>, ms: seq<MemberRow>, gameId: Id, playerId: Id): (c: LeaveCheck)
    ensures c.NoSession? <==> CountWhere(js, CurrentBotSessionOf(gameId)) != 1
    ensures !c.NoSession? ==> Single(js, CurrentBotSessionOf(gameId)).Some?
    ensures c.CanLeave? ==> c.k < |js| && CurrentBotSessionOf(gameId)(js[c.k]) && c.m < |ms|
                            && MembershipOf(js[c.k].id, playerId)(ms[c.m]) && ms[c.m].isActive
    ensures c.CanLeave? ==> Single(js, CurrentBotSessionOf(gameId)) == Some(c.k)
  {
    match Single(js, CurrentBotSessionOf(gameId))
    case None => NoSession
    case Some(k) =>
      match Single(ms, MembershipOf(js[k].id, playerId))
      case None => NotMember
      case Some(m) => if ms[m].isActive then CanLeave(k, m) else NotActive
  }

  /** With at most one membership per pair, once the session is found the
      leave goes ahead exactly when the player is active in it, and is
      refused as "not in this session" exactly when the player has no row. */
  lemma CheckLeaveCases(js: seq<JogatinaRow>, ms: seq<MemberRow>, gameId: Id, playerId: Id)
    requires UniqueMemberships(ms)
    requires Single(js, CurrentBotSessionOf(gameId)).Some?
    ensures var sid := js[Single(js, CurrentBotSessionOf(gameId)).value].id;
            && (CheckLeave(js, ms, gameId, playerId).CanLeave? <==> ActiveMember(ms, sid, playerId))
            && (CheckLeave(js, ms, gameId, playerId).NotMember? <==>
                  forall i :: 0 <= i < |ms| ==> !MembershipOf(sid, playerId)(ms[i]))
  {
    var sid := js[Single(js, CurrentBotSessionOf(gameId)).value].id;
    assert CountWhere(ms, MembershipOf(sid, playerId)) <= 1;
    match Single(ms, MembershipOf(sid, playerId))
    case None =>
      SingleMissMeansNone(ms, MembershipOf(sid, playerId));
    case Some(m) =>
  }

  /** The memberships after the leave marks row `m` inactive. */
  function LeftMembers(ms: seq<MemberRow>, m: nat): seq<MemberRow>
    requires m < |ms|
  {
    ms[m := ms[m].(isActive := false)]
  }

  /** Deactivating an active membership lowers its session's active count by
      one and leaves every other session's count alone. */
  lemma LeaveActiveCount(ms: seq<MemberRow>, m: nat)
    requires m < |ms| && ms[m].isActive
    ensures ActiveCount(LeftMembers(ms, m), ms[m].jogatinaId) == ActiveCount(ms, ms[m].jogatinaId) - 1
    ensures forall j :: j != ms[m].jogatinaId ==> ActiveCount(LeftMembers(ms, m), j) == ActiveCount(ms, j)
  {
    forall j
      ensures CountWhere(LeftMembers(ms, m), ActiveIn(j))
           == CountWhere(ms, ActiveIn(j)) - (if j == ms[m].jogatinaId then 1 else 0)
    {
      CountUpdate(ms, k := m, x := ms[m].(isActive := false), p := ActiveIn(j));
    }
  }

  /** When the stored counter agreed with the memberships, a leave reports
      one player fewer than the counter held. */
  lemma LeaveFromAgreedCounter(s: JogatinaRow, ms: seq<MemberRow>, m: nat)
    requires m < |ms| && ms[m].jogatinaId == s.id && ms[m].isActive
    requires CounterAgrees(s, ms)
    ensures ActiveCount(LeftMembers(ms, m), s.id) == s.activePlayers - 1
  {
    LeaveActiveCount(ms, m);
  }

  /** The session's minutes from its first event to `now`, rounded down; an
      unset first event reads as the epoch. */
  function SessionMinutes(s: JogatinaRow, now: Millis): int {
    FloorMinutes(now - s.firstEventAt.GetOr(0))
  }

  /** The session row after a leave that leaves `count` players active: with
      none it is closed, holding its length; otherwise its count and type
      follow the memberships. */
  function SessionAfterLeave(s: JogatinaRow, count: nat, now: Millis): (r: JogatinaRow)
    ensures r.id == s.id && r.gameId == s.gameId && r.source == s.source && r.seasonId == s.seasonId
    ensures r.isCurrent <==> s.isCurrent && count > 0
    ensures r.activePlayers == count
    ensures r.lastEventAt == Some(now)
    ensures count > 0 ==> (r.sessionType == Group <==> count > 1) && r.totalDurationMinutes == s.totalDurationMinutes
    ensures count == 0 ==> r.sessionType == s.sessionType && r.totalDurationMinutes == Some(SessionMinutes(s, now))
  {
    if count == 0 then
      s.(isCurrent := false, activePlayers := 0, lastEventAt := Some(now),
         totalDurationMinutes := Some(SessionMinutes(s, now)))
    else
      s.(activePlayers := count, sessionType := TypeFor(count), lastEventAt := Some(now))
  }

  /** The response of a leave that went ahead. */
  function LeaveResponse(s: JogatinaRow, gameTitle: string, count: nat, now: Millis): (r: EventResponse)
    ensures r.Status() == 200 && r.jogatinaId == s.id && r.seasonId == s.seasonId
    ensures r.Finished? <==> count == 0
    ensures r.Left? <==> count > 0
  {
    if count == 0 then Finished(s.id, gameTitle, SessionMinutes(s, now), s.seasonId)
    else Left(s.id, gameTitle, count, TypeFor(count), s.seasonId)
  }

  /** The season totals after the close of session `s`, whose memberships
      are among `ms`: rolled up when the session belongs to a season,
      untouched otherwise. */
  function SeasonTotals(ps: seq<ParticipantRow>, s: JogatinaRow, ms: seq<MemberRow>, freshId: Id): seq<ParticipantRow> {
    if s.seasonId.Some? then RollUp(ps, s.seasonId.value, Filter(ms, MemberOfSession(s.id)), 0, freshId) else ps
  }

  /** The fresh ids the close of `s` spends on the roll-up: one per membership. */
  function SeasonIdsSpent(s: JogatinaRow, ms: seq<MemberRow>): nat {
    if s.seasonId.Some? then CountWhere(ms, MemberOfSession(s.id)) else 0
  }

  /** A leave keeps the one-current-session rule; the session stays the
      game's current one while someone is active, and otherwise the next
      lookup misses, so the next join for the game opens a new session. */
  lemma {:induction false} LeaveKeepsAtMostOneCurrent(js: seq<JogatinaRow>, k: nat, count: nat, now: Millis)
    requires AtMostOneCurrent(js)
    requires k < |js| && CurrentBotSessionOf(js[k].gameId)(js[k])
    ensures AtMostOneCurrent(js[k := SessionAfterLeave(js[k], count, now)])
    ensures count == 0 ==> Single(js[k := SessionAfterLeave(js[k], count, now)], CurrentBotSessionOf(js[k].gameId)).None?
    ensures count > 0 ==> Single(js[k := SessionAfterLeave(js[k], count, now)], CurrentBotSessionOf(js[k].gameId)) == Some(k)
  {
    var row := SessionAfterLeave(js[k], count, now);
    if count == 0 {
      CloseEndsCurrent(js, k, row);
    } else {
      SameKeyKeepsCurrentCounts(js, k, row);
      CountPositive(js, CurrentBotSessionOf(js[k].gameId), k);
      assert js[k := row][k] == row;
    }
  }

  /** A second leave of the same player is refused: with players still
      active it is "not currently active", and after the close there is no
      current session at all. */
  lemma {:induction false} SecondLeaveRefused(js: seq<JogatinaRow>, ms: seq<MemberRow>, gameId: Id, playerId: Id, now: Millis)
    requires CheckLeave(js, ms, gameId, playerId).CanLeave?
    ensures var c := CheckLeave(js, ms, gameId, playerId);
            var ms1 := LeftMembers(ms, c.m);
            var count := ActiveCount(ms1, js[c.k].id);
            CheckLeave(js[c.k := SessionAfterLeave(js[c.k], count, now)], ms1, gameId, playerId)
              == if count == 0 then NoSession else NotActive
  {
    var c := CheckLeave(js, ms, gameId, playerId);
    var ms1 := LeftMembers(ms, c.m);
    var count := ActiveCount(ms1, js[c.k].id);
    var row := SessionAfterLeave(js[c.k], count, now);
    CountUpdate(js, c.k, row, CurrentBotSessionOf(gameId));
    if count > 0 {
      assert js[c.k := row][c.k] == row;
      assert Single(js[c.k := row], CurrentBotSessionOf(gameId)) == Some(c.k);
      CountUpdate(ms, c.m, ms1[c.m], MembershipOf(js[c.k].id, playerId));
      assert Single(ms1, MembershipOf(js[c.k].id, playerId)) == Some(c.m);
    }
  }

  // ---- The leave handler -----------------------------------------------------------

  /** The tables after the membership at `m` is deactivated and the leave logged. */
  function Deactivated(st: Store, m: nat, jogatinaId: Id, playerId: Id, now: Millis): Store
    requires m < |st.members|
  {
    st.(members := LeftMembers(st.members, m),
        events := st.events + [EventRow(st.nextId, jogatinaId, playerId, PlayerLeft, now)],
        nextId := st.nextId + 1)
  }

  /** The tables after the close of session `s` (at `k`): durations
      recomputed from the log, the session row closed, and the season
      totals rolled up when the session belongs to a season. */
  function Closed(st: Store, k: nat, s: JogatinaRow, now: Millis): Store
    requires k < |st.jogatinas|
  {
    var ms := RecomputeDurations(st.members, SessionLog(st.events, s.id), s.id);
    st.(members := ms,
        jogatinas := st.jogatinas[k := SessionAfterLeave(s, 0, now)],
        participants := SeasonTotals(st.participants, s, ms, st.nextId),
        nextId := st.nextId + SeasonIdsSpent(s, ms))
  }

  /** The tables after a leave that went ahead, for the session at `k` and
      the membership at `m`: deactivated and logged; then closed when nobody
      is left active, or else the session row follows the remaining count. */
  function AfterLeave(st: Store, k: nat, m: nat, playerId: Id, now: Millis): Store
    requires k < |st.jogatinas| && m < |st.members|
  {
    var s := st.jogatinas[k];
    var st1 := Deactivated(st, m, s.id, playerId, now);
    var count := ActiveCount(st1.members, s.id);
    if count == 0 then Closed(st1, k, s, now)
    else st1.(jogatinas := st1.jogatinas[k := SessionAfterLeave(s, count, now)])
  }

  /** What a leave that went ahead changes, table by table. */
  lemma AfterLeaveTables(st: Store, k: nat, m: nat, playerId: Id, now: Millis)
    requires k < |st.jogatinas| && m < |st.members|
    ensures var s, r := st.jogatinas[k], AfterLeave(st, k, m, playerId, now);
            var ms1 := LeftMembers(st.members, m);
            var count := ActiveCount(ms1, s.id);
            && r.events == st.events + [EventRow(st.nextId, s.id, playerId, PlayerLeft, now)]
            && r.jogatinas == st.jogatinas[k := SessionAfterLeave(s, count, now)]
            && r.members == (if count == 0 then RecomputeDurations(ms1, SessionLog(r.events, s.id), s.id) else ms1)
            && r.participants == (if count == 0 then SeasonTotals(st.participants, s, r.members, st.nextId + 1)
                                  else st.participants)
            && r.nextId == st.nextId + 1 + (if count == 0 then SeasonIdsSpent(s, r.members) else 0)
            && r.players == st.players && r.games == st.games && r.seasons == st.seasons
  {
  }

  /** Marks membership `m` inactive and appends the leave event, with the
      next fresh id. */
  method DeactivateAndLog(db: Database, m: nat, jogatinaId: Id, playerId: Id, now: Millis)
    requires db.Valid() && m < |db.members|
    modifies db
    ensures db.Valid()
    ensures db.Snapshot() == Deactivated(old(db.Snapshot()), m, jogatinaId, playerId, now)
  {
    db.SetMember(m, db.members[m].(isActive := false));
    var eventId := db.nextId;
    db.Reserve(1);
    db.AddEvent(EventRow(eventId, jogatinaId, playerId, PlayerLeft, now));
  }

  /** The close on the last leave. */
  method FinishSession(db: Database, k: nat, s: JogatinaRow, now: Millis)
    requires db.Valid() && k < |db.jogatinas| && db.jogatinas[k] == s
    modifies db
    ensures db.Valid()
    ensures db.Snapshot() == Closed(old(db.Snapshot()), k, s, now)
  {
    CalculatePlayerDurations(db, s.id);
    db.SetJogatina(k, SessionAfterLeave(s, 0, now));
    if s.seasonId.Some? {
      UpdateSeasonMetrics(db, s.seasonId.value, s.id);
    }
  }

  /** The effect of a leave that went ahead, for the session at `k` and the
      membership at `m`: the tables become `AfterLeave` of the old ones and
      the response reports the remaining active count. */
  twostate predicate LeaveApplied(db: Database, k: nat, m: nat, playerId: Id, gameTitle: string, now: Millis,
                                  resp: EventResponse)
    reads db
  {
    && k < |old(db.jogatinas)| && m < |old(db.members)|
    && db.Snapshot() == AfterLeave(old(db.Snapshot()), k, m, playerId, now)
    && resp == LeaveResponse(old(db.jogatinas)[k], gameTitle,
                             ActiveCount(LeftMembers(old(db.members), m), old(db.jogatinas)[k].id), now)
  }

  /** The tables and the response after a leave request: each refusal leaves
      the tables as they were; a leave that goes ahead gives `AfterLeave`. */
  function LeaveOutcome(st: Store, playerId: Id, gameId: Id, gameTitle: string, now: Millis): (r: (Store, EventResponse))
    ensures !r.1.Joined? && !r.1.Unauthorized?
    ensures r.0 != st ==> r.1.Status() == 200
    ensures r.1.Status() != 200 ==> r.0 == st
  {
    match CheckLeave(st.jogatinas, st.members, gameId, playerId)
    case NoSession => (st, NotFound(NoActiveSession))
    case NotMember => (st, BadRequest(NotInSession))
    case NotActive => (st, BadRequest(NotActiveInSession))
    case CanLeave(k, m) =>
      (AfterLeave(st, k, m, playerId, now),
       LeaveResponse(st.jogatinas[k], gameTitle, ActiveCount(LeftMembers(st.members, m), st.jogatinas[k].id), now))
  }

  /** A leave after which nobody is active: deactivate and log, then close. */
  method LeaveAndClose(db: Database, k: nat, m: nat, playerId: Id, gameTitle: string, now: Millis)
    returns (resp: EventResponse)
    requires db.Valid() && k < |db.jogatinas| && m < |db.members|
    requires ActiveCount(LeftMembers(db.members, m), db.jogatinas[k].id) == 0
    modifies db
    ensures db.Valid()
    ensures LeaveApplied(db, k, m, playerId, gameTitle, now, resp)
  {
    var s := db.jogatinas[k];
    DeactivateAndLog(db, m, s.id, playerId, now);
    FinishSession(db, k, s, now);
    resp := Finished(s.id, gameTitle, SessionMinutes(s, now), s.seasonId);
  }

  /** A leave after which `count` players are still active: deactivate and
      log, then store the count and the type it implies. */
  method LeaveAndContinue(db: Database, k: nat, m: nat, playerId: Id, gameTitle: string, now: Millis)
    returns (resp: EventResponse)
    requires db.Valid() && k < |db.jogatinas| && m < |db.members|
    requires ActiveCount(LeftMembers(db.members, m), db.jogatinas[k].id) > 0
    modifies db
    ensures db.Valid()
    ensures LeaveApplied(db, k, m, playerId, gameTitle, now, resp)
  {
    var s := db.jogatinas[k];
    DeactivateAndLog(db, m, s.id, playerId, now);
    var count := ActiveCount(db.members, s.id);
    db.SetJogatina(k, db.jogatinas[k].(activePlayers := count, sessionType := TypeFor(count), lastEventAt := Some(now)));
    resp := Left(s.id, gameTitle, count, TypeFor(count), s.seasonId);
  }

  /** `handlePlayerLeft`. The three refusals leave every table as it was. */
  method HandlePlayerLeft(db: Database, playerId: Id, gameId: Id, gameTitle: string, now: Millis)
    returns (resp: EventResponse)
    requires db.Valid()
    modifies db
    ensures db.Valid()
    ensures match old(CheckLeave(db.jogatinas, db.members, gameId, playerId))
            case NoSession => resp == NotFound(NoActiveSession) && unchanged(db)
            case NotMember => resp == BadRequest(NotInSession) && unchanged(db)
            case NotActive => resp == BadRequest(NotActiveInSession) && unchanged(db)
            case CanLeave(k, m) => LeaveApplied(db, k, m, playerId, gameTitle, now, resp)
    ensures !resp.Joined?
    ensures db.players == old(db.players) && db.games == old(db.games) && db.seasons == old(db.seasons)
    ensures (db.Snapshot(), resp) == LeaveOutcome(old(db.Snapshot()), playerId, gameId, gameTitle, now)
  {
    var found := Single(db.jogatinas, CurrentBotSessionOf(gameId));
    if found.None? {
      return NotFound(NoActiveSession);
    }
    var k := found.value;
    var membership := Single(db.members, MembershipOf(db.jogatinas[k].id, playerId));
    if membership.None? {
      return BadRequest(NotInSession);
    }
    var m := membership.value;
    if !db.members[m].isActive {
      return BadRequest(NotActiveInSession);
    }
    if ActiveCount(LeftMembers(db.members, m), db.jogatinas[k].id) == 0 {
      resp := LeaveAndClose(db, k, m, playerId, gameTitle, now);
    } else {
      resp := LeaveAndContinue(db, k, m, playerId, gameTitle, now);
    }
  }

  // ---- The route -------------------------------------------------------------------

  /** The tables and the response once the player and the game are known:
      a join as `HandlePlayerJoined` does it, a leave as `HandlePlayerLeft`. */
  function DispatchOutcome(st: Store, kind: EventKind, playerId: Id, gameId: Id, gameTitle: string, now: Millis)
    : (r: (Store, EventResponse))
    ensures r.1.Joined? <==> kind == PlayerJoined
    ensures !r.1.Unauthorized?
    ensures r.0.players == st.players && r.0.games == st.games && r.0.seasons == st.seasons
  {
    match kind
    case PlayerJoined => (AfterJoinTables(st, playerId, gameId, now), JoinResponse(st.jogatinas, gameId, gameTitle, st.nextId))
    case PlayerLeft =>
      var r := LeaveOutcome(st, playerId, gameId, gameTitle, now);
      AfterLeaveTablesKeep(st, playerId, gameId, gameTitle, now);
      r
  }

  lemma AfterLeaveTablesKeep(st: Store, playerId: Id, gameId: Id, gameTitle: string, now: Millis)
    ensures var r := LeaveOutcome(st, playerId, gameId, gameTitle, now).0;
            r.players == st.players && r.games == st.games && r.seasons == st.seasons
  {
    match CheckLeave(st.jogatinas, st.members, gameId, playerId)
    case CanLeave(k, m) => AfterLeaveTables(st, k, m, playerId, now);
    case _ =>
  }

  /** Hands the event to its handler once the player and the game are known. */
  method Dispatch(db: Database, kind: EventKind, playerId: Id, gameId: Id, gameTitle: string, now: Millis)
    returns (resp: EventResponse)
    requires db.Valid()
    modifies db
    ensures db.Valid()
    ensures (db.Snapshot(), resp) == DispatchOutcome(old(db.Snapshot()), kind, playerId, gameId, gameTitle, now)
  {
    if kind == PlayerJoined {
      resp := HandlePlayerJoined(db, playerId, gameId, gameTitle, now);
    } else {
      resp := HandlePlayerLeft(db, playerId, gameId, gameTitle, now);
    }
  }

  /** `POST /api/discord/events`: the bearer check, then the payload checks,
      both before any table is read; then the player (by Discord id) and the
      game (by title) are found or created and the event is dispatched. */
  method PostEvent(db: Database, authorization: Option<string>, apiKey: Option<string>, payload: EventPayload,
                   now: Millis)
    returns (resp: EventResponse)
    requires db.Valid()
    modifies db
    ensures db.Valid()
    ensures resp == Unauthorized <==> !VerifyAuth(authorization, apiKey)
    ensures !VerifyAuth(authorization, apiKey) ==> unchanged(db)
    ensures VerifyAuth(authorization, apiKey) && ValidateEvent(payload).Rejected? ==>
              resp == BadRequest(ValidateEvent(payload).error) && unchanged(db)
    ensures VerifyAuth(authorization, apiKey) && ValidateEvent(payload).Accepted? ==>
              && (resp.Joined? <==> ValidateEvent(payload).kind == PlayerJoined)
              && (exists k :: 0 <= k < |db.players| && db.players[k].discordId == Some(ValidateEvent(payload).discordId))
              && (exists k :: 0 <= k < |db.games| && db.games[k].title == ValidateEvent(payload).gameTitle)
    ensures VerifyAuth(authorization, apiKey) && ValidateEvent(payload).Accepted? ==>
              var c := ValidateEvent(payload);
              var player := PlayerResolved(old(db.Snapshot()), c.discordId);
              var game := GameResolved(player.0, c.gameTitle);
              (db.Snapshot(), resp) == DispatchOutcome(game.0, c.kind, player.1, game.1, c.gameTitle, now)
  {
    if !VerifyAuth(authorization, apiKey) {
      return Unauthorized;
    }
    var checked := ValidateEvent(payload);
    if checked.Rejected? {
      return BadRequest(checked.error);
    }
    var playerId, row := db.FindOrCreatePlayer(checked.discordId);
    var gameId := db.FindOrCreateGame(checked.gameTitle);
    resp := Dispatch(db, checked.kind, playerId, gameId, checked.gameTitle, now);
  }
}
