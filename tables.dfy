/** The rows of the relational store the routes work on, and the store
    itself as one object whose tables the route handlers update in place.
    Ids stand for the store's generated UUIDs: `nextId` is always fresh. */
module Tables {
  import opened Common

  type Id = nat

  /** A timestamp in integer milliseconds since the Unix epoch. */
  type Millis = int

  datatype Source = DiscordBot | Manual
  datatype SessionType = Solo | Group
  datatype EventKind = PlayerJoined | PlayerLeft

  /** The outcome tags a participation can carry. */
  const Dropo: string := "Dropo"
  const Zero: string := "Zero"
  const DavaPraJogar: string := "Dava pra jogar"
  const EmAndamento: string := "Em andamento"

  function SessionTypeName(t: SessionType): string {
    match t
    case Solo => "solo"
    case Group => "group"
  }

  /** A session is a group session exactly when more than one player is active. */
  function TypeFor(activeCount: int): (t: SessionType)
    ensures t == Group <==> activeCount > 1
  {
    if activeCount > 1 then Group else Solo
  }

  datatype PlayerRow = PlayerRow(id: Id, name: string, avatarUrl: Option<string>, discordId: Option<string>)

  datatype GameRow = GameRow(id: Id, title: string)

  /** A play session ("jogatina"). The bot-event route uses `firstEventAt`,
      `lastEventAt`, `activePlayers` and `totalDurationMinutes`; the older
      start/end route uses `startedAt`, `endedAt` and `durationMinutes`. */
  datatype JogatinaRow = JogatinaRow(
    id: Id,
    gameId: Id,
    date: Millis,
    isCurrent: bool,
    source: Source,
    sessionType: SessionType,
    activePlayers: int,
    firstEventAt: Option<Millis>,
    lastEventAt: Option<Millis>,
    totalDurationMinutes: Option<int>,
    seasonId: Option<Id>,
    startedAt: Option<Millis>,
    endedAt: Option<Millis>,
    durationMinutes: Option<int>)

  /** A player's membership in one session ("jogatina_player"). */
  datatype MemberRow = MemberRow(
    id: Id,
    jogatinaId: Id,
    playerId: Id,
    status: string,
    isActive: bool,
    soloMinutes: Option<int>,
    groupMinutes: Option<int>,
    totalMinutes: Option<int>)

  /** One entry of the append-only join/leave log. */
  datatype EventRow = EventRow(id: Id, jogatinaId: Id, playerId: Id, kind: EventKind, timestamp: Millis)

  datatype SeasonRow = SeasonRow(id: Id, gameId: Id, isActive: bool, startedAt: Millis, endedAt: Option<Millis>)

  /** A player's running totals within a season. */
  datatype ParticipantRow = ParticipantRow(
    id: Id,
    seasonId: Id,
    playerId: Id,
    status: string,
    totalSessions: int,
    totalMinutes: int,
    soloMinutes: int,
    groupMinutes: int)

  // The row filters the queries use.

  function CurrentBotSessionOf(gameId: Id): JogatinaRow -> bool {
    (r: JogatinaRow) => r.gameId == gameId && r.isCurrent && r.source == DiscordBot
  }

  function MembershipOf(jogatinaId: Id, playerId: Id): MemberRow -> bool {
    (m: MemberRow) => m.jogatinaId == jogatinaId && m.playerId == playerId
  }

  function MemberOfSession(jogatinaId: Id): MemberRow -> bool {
    (m: MemberRow) => m.jogatinaId == jogatinaId
  }

  function ActiveIn(jogatinaId: Id): MemberRow -> bool {
    (m: MemberRow) => m.jogatinaId == jogatinaId && m.isActive
  }

  function EventOfSession(jogatinaId: Id): EventRow -> bool {
    (e: EventRow) => e.jogatinaId == jogatinaId
  }

  function PlayerWithDiscordId(discordId: string): PlayerRow -> bool {
    (p: PlayerRow) => p.discordId == Some(discordId)
  }

  function PlayerNamed(name: string): PlayerRow -> bool {
    (p: PlayerRow) => p.name == name
  }

  function GameTitled(title: string): GameRow -> bool {
    (g: GameRow) => g.title == title
  }

  /** An active season of the game whose window contains `now`
      (`started_at <= now` and `ended_at` unset or `>= now`). */
  function SeasonActiveAt(gameId: Id, now: Millis): SeasonRow -> bool {
    (s: SeasonRow) => s.gameId == gameId && s.isActive && s.startedAt <= now
         && (s.endedAt.None? || s.endedAt.value >= now)
  }

  function ParticipantOf(seasonId: Id, playerId: Id): ParticipantRow -> bool {
    (p: ParticipantRow) => p.seasonId == seasonId && p.playerId == playerId
  }

  /** Number of memberships of the session that are active. */
  function ActiveCount(members: seq<MemberRow>, jogatinaId: Id): nat {
    CountWhere(members, ActiveIn(jogatinaId))
  }

  /** For every game, at most one current session fed by the bot. */
  ghost predicate AtMostOneCurrent(jogatinas: seq<JogatinaRow>) {
    forall g :: CountWhere(jogatinas, CurrentBotSessionOf(g)) <= 1
  }

  /** At most one membership row per (session, player) pair. */
  ghost predicate UniqueMemberships(members: seq<MemberRow>) {
    forall j, p :: CountWhere(members, MembershipOf(j, p)) <= 1
  }

  /** The contents of every table at one moment, as a value. */
  datatype Store = Store(
    players: seq<PlayerRow>,
    games: seq<GameRow>,
    jogatinas: seq<JogatinaRow>,
    members: seq<MemberRow>,
    events: seq<EventRow>,
    seasons: seq<SeasonRow>,
    participants: seq<ParticipantRow>,
    nextId: Id)

  /** The tables and the player id after a find-or-create by Discord id: the
      only row holding that Discord id is reused; otherwise (no row, or
      several) a row named after the Discord id is added under a fresh id. */
  function PlayerResolved(st: Store, discordId: string): (r: (Store, Id))
    ensures exists k :: 0 <= k < |r.0.players| && r.0.players[k].id == r.1 && r.0.players[k].discordId == Some(discordId)
    ensures r.0 == st <==> CountWhere(st.players, PlayerWithDiscordId(discordId)) == 1
    ensures r.0 != st ==> r.1 == st.nextId
                          && r.0 == st.(players := st.players + [PlayerRow(st.nextId, discordId, None, Some(discordId))],
                                        nextId := st.nextId + 1)
  {
    match Single(st.players, PlayerWithDiscordId(discordId))
    case Some(k) => (st, st.players[k].id)
    case None =>
      var row := PlayerRow(st.nextId, discordId, None, Some(discordId));
      assert (st.players + [row])[|st.players|] == row;
      (st.(players := st.players + [row], nextId := st.nextId + 1), st.nextId)
  }

  /** The tables and the game id after a find-or-create by title. */
  function GameResolved(st: Store, title: string): (r: (Store, Id))
    ensures exists k :: 0 <= k < |r.0.games| && r.0.games[k].id == r.1 && r.0.games[k].title == title
    ensures r.0 == st <==> CountWhere(st.games, GameTitled(title)) == 1
    ensures r.0 != st ==> r.1 == st.nextId
                          && r.0 == st.(games := st.games + [GameRow(st.nextId, title)], nextId := st.nextId + 1)
  {
    match Single(st.games, GameTitled(title))
    case Some(k) => (st, st.games[k].id)
    case None =>
      var row := GameRow(st.nextId, title);
      assert (st.games + [row])[|st.games|] == row;
      (st.(games := st.games + [row], nextId := st.nextId + 1), st.nextId)
  }

  /** No id occurs twice. */
  predicate NoRepeats(s: seq<Id>) {
    forall i, j :: 0 <= i < j < |s| ==> s[i] != s[j]
  }

  /** The relational store. Each table is a sequence of rows in insertion order. */
  class Database {
    var players: seq<PlayerRow>
    var games: seq<GameRow>
    var jogatinas: seq<JogatinaRow>
    var members: seq<MemberRow>
    var events: seq<EventRow>
    var seasons: seq<SeasonRow>
    var participants: seq<ParticipantRow>
    var nextId: Id
    /** The column default of `jogatina_players.is_active`, which the older
        start-session route leaves unset; the schema is not part of this model. */
    const memberActiveDefault: bool

    /** The rows the routes update by primary key (sessions, memberships,
        season participants) have distinct keys, all below `nextId`, so an
        update by key touches exactly one row and a fresh key is never taken. */
    ghost predicate Valid()
      reads this
    {
      && (forall a, b :: 0 <= a < b < |jogatinas| ==> jogatinas[a].id != jogatinas[b].id)
      && (forall a, b :: 0 <= a < b < |members| ==> members[a].id != members[b].id)
      && (forall a, b :: 0 <= a < b < |participants| ==> participants[a].id != participants[b].id)
      && (forall k :: 0 <= k < |jogatinas| ==> jogatinas[k].id < nextId)
      && (forall k :: 0 <= k < |members| ==> members[k].id < nextId)
      && (forall k :: 0 <= k < |participants| ==> participants[k].id < nextId)
    }

    /** The tables as a value. */
    function Snapshot(): Store
      reads this
    {
      Store(players, games, jogatinas, members, events, seasons, participants, nextId)
    }

    constructor (memberActiveDefault: bool)
      ensures Valid()
      ensures players == [] && games == [] && jogatinas == [] && members == []
      ensures events == [] && seasons == [] && participants == []
      ensures this.memberActiveDefault == memberActiveDefault
    {
      players, games, jogatinas, members := [], [], [], [];
      events, seasons, participants := [], [], [];
      nextId := 0;
      this.memberActiveDefault := memberActiveDefault;
    }

    /** Looks a player up by Discord id with `.single()` and inserts one
        named after the Discord id when the lookup misses (also when several
        rows carry that Discord id). */
    method FindOrCreatePlayer(discordId: string) returns (id: Id, ghost row: nat)
      requires Valid()
      modifies this
      ensures Valid()
      ensures games == old(games) && jogatinas == old(jogatinas) && members == old(members)
      ensures events == old(events) && seasons == old(seasons) && participants == old(participants)
      ensures match old(Single(players, PlayerWithDiscordId(discordId)))
              case Some(k) => id == old(players)[k].id && players == old(players) && nextId == old(nextId)
              case None => id == old(nextId) && nextId == old(nextId) + 1
                           && players == old(players) + [PlayerRow(id, discordId, None, Some(discordId))]
      ensures row < |players| && players[row].id == id && players[row].discordId == Some(discordId)
      ensures (Snapshot(), id) == PlayerResolved(old(Snapshot()), discordId)
    {
      var found := Single(players, PlayerWithDiscordId(discordId));
      if found.Some? {
        id, row := players[found.value].id, found.value;
      } else {
        id, row := nextId, |players|;
        players := players + [PlayerRow(id, discordId, None, Some(discordId))];
        nextId := nextId + 1;
      }
    }

    /** Looks a game up by title with `.single()` and inserts it when the lookup misses. */
    method FindOrCreateGame(title: string) returns (id: Id)
      requires Valid()
      modifies this
      ensures Valid()
      ensures players == old(players) && jogatinas == old(jogatinas) && members == old(members)
      ensures events == old(events) && seasons == old(seasons) && participants == old(participants)
      ensures match old(Single(games, GameTitled(title)))
              case Some(k) => id == old(games)[k].id && games == old(games) && nextId == old(nextId)
              case None => id == old(nextId) && nextId == old(nextId) + 1
                           && games == old(games) + [GameRow(id, title)]
      ensures (Snapshot(), id) == GameResolved(old(Snapshot()), title)
    {
      var found := Single(games, GameTitled(title));
      if found.Some? {
        id := games[found.value].id;
      } else {
        id := nextId;
        games := games + [GameRow(id, title)];
        nextId := nextId + 1;
      }
    }

    // Single-row writes. Each keeps `Valid()` given a fresh primary key;
    // everything else stays as it was.

    /** Sets aside `n` fresh ids for the rows about to be written. */
    method Reserve(n: nat)
      requires Valid()
      modifies this
      ensures Valid() && nextId == old(nextId) + n
      ensures players == old(players) && games == old(games) && jogatinas == old(jogatinas) && members == old(members)
      ensures events == old(events) && seasons == old(seasons) && participants == old(participants)
    {
      nextId := nextId + n;
    }

    method AddPlayer(row: PlayerRow)
      requires Valid()
      modifies this
      ensures Valid() && players == old(players) + [row] && nextId == old(nextId)
      ensures games == old(games) && jogatinas == old(jogatinas) && members == old(members)
      ensures events == old(events) && seasons == old(seasons) && participants == old(participants)
    {
      players := players + [row];
    }

    method AddJogatina(row: JogatinaRow)
      requires Valid() && row.id < nextId
      requires forall k :: 0 <= k < |jogatinas| ==> jogatinas[k].id != row.id
      modifies this
      ensures Valid() && jogatinas == old(jogatinas) + [row] && nextId == old(nextId)
      ensures players == old(players) && games == old(games) && members == old(members)
      ensures events == old(events) && seasons == old(seasons) && participants == old(participants)
    {
      jogatinas := jogatinas + [row];
    }

    method SetJogatina(k: nat, row: JogatinaRow)
      requires Valid() && k < |jogatinas| && row.id == jogatinas[k].id
      modifies this
      ensures Valid() && jogatinas == old(jogatinas)[k := row] && nextId == old(nextId)
      ensures players == old(players) && games == old(games) && members == old(members)
      ensures events == old(events) && seasons == old(seasons) && participants == old(participants)
    {
      jogatinas := jogatinas[k := row];
    }

    method AddMember(row: MemberRow)
      requires Valid() && row.id < nextId
      requires forall k :: 0 <= k < |members| ==> members[k].id != row.id
      modifies this
      ensures Valid() && members == old(members) + [row] && nextId == old(nextId)
      ensures players == old(players) && games == old(games) && jogatinas == old(jogatinas)
      ensures events == old(events) && seasons == old(seasons) && participants == old(participants)
    {
      members := members + [row];
    }

    /** A batch insert of memberships with fresh, distinct keys. */
    method AppendMembers(rows: seq<MemberRow>)
      requires Valid()
      requires forall a, b :: 0 <= a < b < |rows| ==> rows[a].id != rows[b].id
      requires forall i :: 0 <= i < |rows| ==> rows[i].id < nextId
      requires forall i, k :: 0 <= i < |rows| && 0 <= k < |members| ==> rows[i].id != members[k].id
      modifies this
      ensures Valid() && members == old(members) + rows && nextId == old(nextId)
      ensures players == old(players) && games == old(games) && jogatinas == old(jogatinas)
      ensures events == old(events) && seasons == old(seasons) && participants == old(participants)
    {
      members := members + rows;
      forall a, b | 0 <= a < b < |members|
        ensures members[a].id != members[b].id
      {
        if b >= |old(members)| {
          if a >= |old(members)| {
            assert members[a] == rows[a - |old(members)|];
          }
          assert members[b] == rows[b - |old(members)|];
        }
      }
    }

    method SetMember(k: nat, row: MemberRow)
      requires Valid() && k < |members| && row.id == members[k].id
      modifies this
      ensures Valid() && members == old(members)[k := row] && nextId == old(nextId)
      ensures players == old(players) && games == old(games) && jogatinas == old(jogatinas)
      ensures events == old(events) && seasons == old(seasons) && participants == old(participants)
    {
      members := members[k := row];
    }

    method AddEvent(row: EventRow)
      requires Valid()
      modifies this
      ensures Valid() && events == old(events) + [row] && nextId == old(nextId)
      ensures players == old(players) && games == old(games) && jogatinas == old(jogatinas)
      ensures members == old(members) && seasons == old(seasons) && participants == old(participants)
    {
      events := events + [row];
    }

    method AddParticipant(row: ParticipantRow)
      requires Valid() && row.id < nextId
      requires forall k :: 0 <= k < |participants| ==> participants[k].id != row.id
      modifies this
      ensures Valid() && participants == old(participants) + [row] && nextId == old(nextId)
      ensures players == old(players) && games == old(games) && jogatinas == old(jogatinas)
      ensures members == old(members) && events == old(events) && seasons == old(seasons)
    {
      participants := participants + [row];
    }

    method SetParticipant(k: nat, row: ParticipantRow)
      requires Valid() && k < |participants| && row.id == participants[k].id
      modifies this
      ensures Valid() && participants == old(participants)[k := row] && nextId == old(nextId)
      ensures players == old(players) && games == old(games) && jogatinas == old(jogatinas)
      ensures members == old(members) && events == old(events) && seasons == old(seasons)
    {
      participants := participants[k := row];
    }
  }
}
