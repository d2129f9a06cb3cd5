/** The older bot route (`/api/discord`): `POST` opens a session for a
    given list of Discord users in one go, and `PUT` closes the open session
    whose members are exactly the players found for the given Discord ids
    (an id with no player row is ignored). */
module DiscordSessions {
  import opened Common
  import opened Tables
  import opened Auth

  // ---- Requests and responses ------------------------------------------------

  /** `discordIds` is None when the field is missing or not an array;
      `startedAt` is None when missing or empty. */
  datatype StartPayload = StartPayload(discordIds: Option<seq<string>>, gameTitle: Option<string>,
                                       sessionType: Option<string>, startedAt: Option<Millis>)

  /** `sessionType` is not checked by `PUT`: it only filters the candidates. */
  datatype EndPayload = EndPayload(discordIds: Option<seq<string>>, gameTitle: Option<string>,
                                   sessionType: Option<string>, endedAt: Option<Millis>,
                                   durationMinutes: Option<int>)

  datatype SessionResponse =
    | Unauthorized
    | BadRequest(error: string)
    | NotFound(error: string)
    | Started(id: Id, gameTitle: string, sessionType: SessionType, playerCount: nat, startedAt: Millis)
    | Ended(id: Id, gameTitle: string, requestedType: Option<string>, durationMinutes: Option<int>, endedAt: Millis)
  {
    function Status(): int {
      match this
      case Unauthorized => 401
      case BadRequest(_) => 400
      case NotFound(_) => 404
      case _ => 200
    }
  }

  const IdsRequiredNonEmpty: string := "discord_ids is required and must be a non-empty array"
  const IdsRequired: string := "discord_ids is required"
  const TitleRequired: string := "game_title is required"
  const BadSessionType: string := "session_type must be 'solo' or 'group'"
  const SoloNeedsOne: string := "Solo sessions must have exactly one player"
  const GroupNeedsTwo: string := "Group sessions must have at least two players"
  const EndedAtRequired: string := "ended_at is required"
  const GameNotFound: string := "Game not found"
  const NoPlayersFound: string := "No players found"
  const SessionNotFound: string := "Active session not found"

  function ParseSessionType(s: string): (r: Option<SessionType>)
    ensures r.Some? <==> s == "solo" || s == "group"
    ensures r.Some? ==> SessionTypeName(r.value) == s
  {
    if s == "solo" then Some(Solo) else if s == "group" then Some(Group) else None
  }

  datatype StartCheck =
    | StartRejected(error: string)
    | StartAccepted(discordIds: seq<string>, gameTitle: string, sessionType: SessionType)

  /** The player-count rule of a session type. */
  predicate CountFits(t: SessionType, n: nat) {
    match t
    case Solo => n == 1
    case Group => n >= 2
  }

  /** `POST`'s checks, in the route's order. */
  function ValidateStart(p: StartPayload): (c: StartCheck)
    ensures c.StartAccepted? <==>
              && p.discordIds.Some? && |p.discordIds.value| > 0 && Truthy(p.gameTitle)
              && p.sessionType.Some? && ParseSessionType(p.sessionType.value).Some?
              && CountFits(ParseSessionType(p.sessionType.value).value, |p.discordIds.value|)
    ensures c.StartAccepted? ==> Some(c.discordIds) == p.discordIds && Some(c.gameTitle) == p.gameTitle
                                 && Some(SessionTypeName(c.sessionType)) == p.sessionType
    ensures c.StartAccepted? ==> CountFits(c.sessionType, |c.discordIds|)
    ensures p.discordIds.None? || p.discordIds == Some([]) ==> c == StartRejected(IdsRequiredNonEmpty)
  {
    if p.discordIds.None? || |p.discordIds.value| == 0 then StartRejected(IdsRequiredNonEmpty)
    else if !Truthy(p.gameTitle) then StartRejected(TitleRequired)
    else if p.sessionType.None? || ParseSessionType(p.sessionType.value).None? then StartRejected(BadSessionType)
    else
      var t := ParseSessionType(p.sessionType.value).value;
      if t == Solo && |p.discordIds.value| != 1 then StartRejected(SoloNeedsOne)
      else if t == Group && |p.discordIds.value| < 2 then StartRejected(GroupNeedsTwo)
      else StartAccepted(p.discordIds.value, p.gameTitle.value, t)
  }

  /** A solo session is refused unless it has exactly one player, a group
      session unless it has at least two, whatever else the payload holds. */
  lemma PlayerCountRule(p: StartPayload)
    requires p.discordIds.Some? && |p.discordIds.value| > 0 && Truthy(p.gameTitle)
    requires p.sessionType == Some("solo") || p.sessionType == Some("group")
    ensures p.sessionType == Some("solo") && |p.discordIds.value| != 1 ==> ValidateStart(p) == StartRejected(SoloNeedsOne)
    ensures p.sessionType == Some("group") && |p.discordIds.value| < 2 ==> ValidateStart(p) == StartRejected(GroupNeedsTwo)
  {
  }

  // ---- POST: open a session --------------------------------------------------

  /** The session `POST` inserts. */
  function StartedSession(id: Id, gameId: Id, t: SessionType, started: Millis): JogatinaRow {
    JogatinaRow(id, gameId, started, true, DiscordBot, t, 0, None, None, None, None, Some(started), None, None)
  }

  /** The membership rows `POST` inserts in one batch, the `i`-th with id
      `firstId + i`; the active flag is the column default. */
  function NewMembers(jogatinaId: Id, playerIds: seq<Id>, firstId: Id, active: bool): (r: seq<MemberRow>)
    ensures |r| == |playerIds|
    ensures forall i :: 0 <= i < |r| ==>
              r[i].id == firstId + i && r[i].jogatinaId == jogatinaId && r[i].playerId == playerIds[i]
              && r[i].status == DavaPraJogar
  {
    seq(|playerIds|, i requires 0 <= i < |playerIds| =>
      MemberRow(firstId + i, jogatinaId, playerIds[i], DavaPraJogar, active, None, None, None))
  }

  /** The tables and the player ids after resolving each Discord id in turn
      with `PlayerResolved`. Only the players table and the id counter
      change, and players are only added. */
  function PlayersResolved(st: Store, discordIds: seq<string>): (r: (Store, seq<Id>))
    ensures |r.1| == |discordIds|
    ensures r.0 == st.(players := r.0.players, nextId := r.0.nextId)
    ensures st.players <= r.0.players
    decreases |discordIds|
  {
    if discordIds == [] then (st, [])
    else
      var prev := PlayersResolved(st, discordIds[..|discordIds| - 1]);
      var one := PlayerResolved(prev.0, discordIds[|discordIds| - 1]);
      (one.0, prev.1 + [one.1])
  }

  /** Some player row carries both `id` and `discordId`. */
  predicate HoldsDiscordId(players: seq<PlayerRow>, id: Id, discordId: string) {
    exists k :: 0 <= k < |players| && players[k].id == id && players[k].discordId == Some(discordId)
  }

  /** Each resolved id names a player holding its Discord id. */
  lemma {:induction false} PlayersResolvedFound(st: Store, discordIds: seq<string>)
    ensures var r := PlayersResolved(st, discordIds);
            forall j :: 0 <= j < |discordIds| ==> HoldsDiscordId(r.0.players, r.1[j], discordIds[j])
    decreases |discordIds|
  {
    if discordIds != [] {
      var init := discordIds[..|discordIds| - 1];
      var prev := PlayersResolved(st, init);
      var one := PlayerResolved(prev.0, discordIds[|discordIds| - 1]);
      var r := PlayersResolved(st, discordIds);
      assert r == (one.0, prev.1 + [one.1]);
      PlayersResolvedFound(st, init);
      forall j | 0 <= j < |discordIds|
        ensures HoldsDiscordId(r.0.players, r.1[j], discordIds[j])
      {
        if j < |init| {
          assert discordIds[j] == init[j] && r.1[j] == prev.1[j];
          var k :| 0 <= k < |prev.0.players| && prev.0.players[k].id == prev.1[j]
                   && prev.0.players[k].discordId == Some(init[j]);
          assert prev.0.players <= one.0.players;
          assert r.0.players[k] == prev.0.players[k];
        } else {
          assert r.1[j] == one.1;
        }
      }
    }
  }

  /** A Discord id that exactly one row held beforehand keeps that row as its
      only holder. */
  lemma {:induction false} PlayersResolvedKeepsSingle(st: Store, discordIds: seq<string>)
    ensures var r := PlayersResolved(st, discordIds);
            forall d :: Single(st.players, PlayerWithDiscordId(d)).Some? ==>
              Single(r.0.players, PlayerWithDiscordId(d)) == Single(st.players, PlayerWithDiscordId(d))
    decreases |discordIds|
  {
    if discordIds != [] {
      var init := discordIds[..|discordIds| - 1];
      var prev := PlayersResolved(st, init);
      var one := PlayerResolved(prev.0, discordIds[|discordIds| - 1]);
      assert PlayersResolved(st, discordIds).0 == one.0;
      PlayersResolvedKeepsSingle(st, init);
      forall e | Single(st.players, PlayerWithDiscordId(e)).Some?
        ensures Single(one.0.players, PlayerWithDiscordId(e)) == Single(st.players, PlayerWithDiscordId(e))
      {
        if one.0 != prev.0 {
          var row := one.0.players[|prev.0.players|];
          CountAppend(prev.0.players, row, PlayerWithDiscordId(e));
          assert one.0.players == prev.0.players + [row];
        }
      }
    }
  }

  /** Every occurrence of a Discord id that exactly one row held beforehand
      resolves to that row's id. */
  lemma {:induction false} PlayersResolvedReuses(st: Store, discordIds: seq<string>)
    ensures var r := PlayersResolved(st, discordIds);
            forall j :: 0 <= j < |discordIds| && Single(st.players, PlayerWithDiscordId(discordIds[j])).Some? ==>
              r.1[j] == st.players[Single(st.players, PlayerWithDiscordId(discordIds[j])).value].id
    decreases |discordIds|
  {
    if discordIds != [] {
      var init := discordIds[..|discordIds| - 1];
      var d := discordIds[|discordIds| - 1];
      var prev := PlayersResolved(st, init);
      var one := PlayerResolved(prev.0, d);
      var r := PlayersResolved(st, discordIds);
      assert r == (one.0, prev.1 + [one.1]);
      PlayersResolvedReuses(st, init);
      PlayersResolvedKeepsSingle(st, init);
      forall j | 0 <= j < |discordIds| && Single(st.players, PlayerWithDiscordId(discordIds[j])).Some?
        ensures r.1[j] == st.players[Single(st.players, PlayerWithDiscordId(discordIds[j])).value].id
      {
        if j < |init| {
          assert discordIds[j] == init[j] && r.1[j] == prev.1[j];
        } else {
          assert Single(prev.0.players, PlayerWithDiscordId(d)) == Single(st.players, PlayerWithDiscordId(d));
          assert st.players <= prev.0.players;
        }
      }
    }
  }

  /** Every player added is named after its Discord id, has no avatar, and
      takes one fresh id. */
  lemma {:induction false} PlayersResolvedInserts(st: Store, discordIds: seq<string>)
    ensures var r := PlayersResolved(st, discordIds);
            r.0.nextId - st.nextId == |r.0.players| - |st.players|
    ensures var r := PlayersResolved(st, discordIds);
            forall i :: |st.players| <= i < |r.0.players| ==>
              && st.nextId <= r.0.players[i].id < r.0.nextId
              && r.0.players[i].discordId == Some(r.0.players[i].name) && r.0.players[i].avatarUrl == None
    decreases |discordIds|
  {
    if discordIds != [] {
      var init := discordIds[..|discordIds| - 1];
      var prev := PlayersResolved(st, init);
      var one := PlayerResolved(prev.0, discordIds[|discordIds| - 1]);
      assert PlayersResolved(st, discordIds) == (one.0, prev.1 + [one.1]);
      PlayersResolvedInserts(st, init);
    }
  }

  /** The resolution loop: each Discord id, in order, becomes the id of the
      player found by `.single()` or of the one inserted for it. */
  method ResolvePlayers(db: Database, discordIds: seq<string>) returns (playerIds: seq<Id>)
    requires db.Valid()
    modifies db
    ensures db.Valid()
    ensures (db.Snapshot(), playerIds) == PlayersResolved(old(db.Snapshot()), discordIds)
    ensures |playerIds| == |discordIds|
    ensures forall j :: 0 <= j < |discordIds| ==> HoldsDiscordId(db.players, playerIds[j], discordIds[j])
    ensures old(db.players) <= db.players && db.nextId >= old(db.nextId)
    ensures db.games == old(db.games) && db.jogatinas == old(db.jogatinas) && db.members == old(db.members)
    ensures db.events == old(db.events) && db.seasons == old(db.seasons) && db.participants == old(db.participants)
  {
    playerIds := [];
    for i := 0 to |discordIds|
      invariant db.Valid()
      invariant (db.Snapshot(), playerIds) == PlayersResolved(old(db.Snapshot()), discordIds[..i])
    {
      var id, row := db.FindOrCreatePlayer(discordIds[i]);
      playerIds := playerIds + [id];
      assert discordIds[..i + 1][..i] == discordIds[..i];
    }
    assert discordIds[..|discordIds|] == discordIds;
    PlayersResolvedFound(old(db.Snapshot()), discordIds);
    PlayersResolvedInserts(old(db.Snapshot()), discordIds);
  }

  /** The tables after the two inserts of `POST`: the session under the next
      fresh id, then one membership per player under the ids after it. */
  function Inserted(st: Store, gameId: Id, t: SessionType, started: Millis, playerIds: seq<Id>, active: bool): Store {
    st.(jogatinas := st.jogatinas + [StartedSession(st.nextId, gameId, t, started)],
        members := st.members + NewMembers(st.nextId, playerIds, st.nextId + 1, active),
        nextId := st.nextId + 1 + |playerIds|)
  }

  /** Every table and the response after an accepted `POST`: the players
      resolved in order, the game found or created, then the new session and
      one membership per resolved player, in order, under fresh ids. `active`
      is the column default of the memberships' active flag. */
  function StartOutcome(st: Store, c: StartCheck, started: Millis, active: bool): (r: (Store, SessionResponse))
    requires c.StartAccepted?
    ensures r.1.Started? && r.1.gameTitle == c.gameTitle && r.1.sessionType == c.sessionType
            && r.1.playerCount == |c.discordIds| && r.1.startedAt == started
    ensures r.0.events == st.events && r.0.seasons == st.seasons && r.0.participants == st.participants
    ensures var players := PlayersResolved(st, c.discordIds);
            var game := GameResolved(players.0, c.gameTitle);
            && r.0.players == players.0.players && r.0.games == game.0.games
            && r.0.jogatinas == st.jogatinas + [StartedSession(r.1.id, game.1, c.sessionType, started)]
            && r.0.members == st.members + NewMembers(r.1.id, players.1, r.1.id + 1, active)
  {
    var pl := PlayersResolved(st, c.discordIds);
    var g := GameResolved(pl.0, c.gameTitle);
    (Inserted(g.0, g.1, c.sessionType, started, pl.1, active),
     Started(g.0.nextId, c.gameTitle, c.sessionType, |pl.1|, started))
  }

  /** The session `POST` opens is reported by the response, takes a fresh id,
      and belongs to a game with the requested title. */
  lemma StartOutcomeSession(st: Store, c: StartCheck, started: Millis, active: bool)
    requires c.StartAccepted?
    ensures var r := StartOutcome(st, c, started, active);
            var s := r.0.jogatinas[|st.jogatinas|];
            && s.id == r.1.id && st.nextId <= s.id < r.0.nextId
            && s == StartedSession(s.id, s.gameId, c.sessionType, started)
            && exists g :: 0 <= g < |r.0.games| && r.0.games[g].id == s.gameId && r.0.games[g].title == c.gameTitle
  {
    PlayersResolvedInserts(st, c.discordIds);
  }

  /** The `j`-th membership `POST` adds belongs to the new session, is
      "Dava pra jogar" with the column default's active flag, and takes a
      fresh id. */
  lemma StartOutcomeMembers(st: Store, c: StartCheck, started: Millis, active: bool)
    requires c.StartAccepted?
    ensures var r := StartOutcome(st, c, started, active);
            forall i :: |st.members| <= i < |r.0.members| ==>
              var m := r.0.members[i];
              && m.jogatinaId == r.1.id && m.status == DavaPraJogar && m.isActive == active
              && st.nextId <= m.id < r.0.nextId
  {
    var pl := PlayersResolved(st, c.discordIds);
    var g := GameResolved(pl.0, c.gameTitle);
    var jid := g.0.nextId;
    var added := NewMembers(jid, pl.1, jid + 1, active);
    var r := StartOutcome(st, c, started, active);
    PlayersResolvedInserts(st, c.discordIds);
    assert r.0.members == g.0.members + added && r.0.nextId == jid + 1 + |added|;
    forall i | |st.members| <= i < |r.0.members|
      ensures r.0.members[i] == added[i - |st.members|]
    {
    }
  }

  /** A membership built for the `j`-th resolved id names the player that
      holds the `j`-th Discord id. */
  lemma ResolvedMembersHold(st: Store, discordIds: seq<string>, jogatinaId: Id, active: bool)
    ensures var players := PlayersResolved(st, discordIds);
            var added := NewMembers(jogatinaId, players.1, jogatinaId + 1, active);
            forall j :: 0 <= j < |discordIds| ==> HoldsDiscordId(players.0.players, added[j].playerId, discordIds[j])
  {
    PlayersResolvedFound(st, discordIds);
  }

  /** The two inserts of `POST` after its lookups: the session under the
      next fresh id, then its memberships under the ids after it. */
  method InsertSession(db: Database, gameId: Id, t: SessionType, started: Millis, playerIds: seq<Id>)
    returns (jid: Id)
    requires db.Valid()
    modifies db
    ensures db.Valid()
    ensures jid == old(db.nextId) && db.nextId == jid + 1 + |playerIds|
    ensures db.jogatinas == old(db.jogatinas) + [StartedSession(jid, gameId, t, started)]
    ensures db.members == old(db.members) + NewMembers(jid, playerIds, jid + 1, db.memberActiveDefault)
    ensures db.players == old(db.players) && db.games == old(db.games)
    ensures db.events == old(db.events) && db.seasons == old(db.seasons) && db.participants == old(db.participants)
    ensures jid == old(db.Snapshot()).nextId
    ensures db.Snapshot() == Inserted(old(db.Snapshot()), gameId, t, started, playerIds, db.memberActiveDefault)
  {
    jid := db.nextId;
    db.Reserve(1);
    db.AddJogatina(StartedSession(jid, gameId, t, started));
    db.Reserve(|playerIds|);
    db.AppendMembers(NewMembers(jid, playerIds, jid + 1, db.memberActiveDefault));
  }

  /** The writes of an accepted `POST`: the players, the game, a new current
      bot session, and one membership per resolved player. */
  method OpenSession(db: Database, c: StartCheck, started: Millis) returns (resp: SessionResponse)
    requires db.Valid() && c.StartAccepted?
    modifies db
    ensures db.Valid()
    ensures resp.Started? && resp.gameTitle == c.gameTitle && resp.sessionType == c.sessionType
            && resp.playerCount == |c.discordIds| && resp.startedAt == started
    ensures (db.Snapshot(), resp) == StartOutcome(old(db.Snapshot()), c, started, db.memberActiveDefault)
  {
    var playerIds := ResolvePlayers(db, c.discordIds);
    var gameId := db.FindOrCreateGame(c.gameTitle);
    var jid := InsertSession(db, gameId, c.sessionType, started, playerIds);
    resp := Started(jid, c.gameTitle, c.sessionType, |playerIds|, started);
  }

  /** `POST /api/discord`: open a session. A missing start time is `now`. */
  method StartSession(db: Database, authorization: Option<string>, apiKey: Option<string>, p: StartPayload, now: Millis)
    returns (resp: SessionResponse)
    requires db.Valid()
    modifies db
    ensures db.Valid()
    ensures resp == Unauthorized <==> !VerifyAuth(authorization, apiKey)
    ensures !VerifyAuth(authorization, apiKey) ==> unchanged(db)
    ensures VerifyAuth(authorization, apiKey) && ValidateStart(p).StartRejected? ==>
              resp == BadRequest(ValidateStart(p).error) && unchanged(db)
    ensures VerifyAuth(authorization, apiKey) && ValidateStart(p).StartAccepted? ==>
              && resp.Started? && resp.playerCount == |p.discordIds.value|
              && resp.startedAt == p.startedAt.GetOr(now)
              && |db.jogatinas| == |old(db.jogatinas)| + 1 && |db.members| == |old(db.members)| + |p.discordIds.value|
              && (db.Snapshot(), resp) == StartOutcome(old(db.Snapshot()), ValidateStart(p), p.startedAt.GetOr(now), db.memberActiveDefault)
  {
    if !VerifyAuth(authorization, apiKey) {
      return Unauthorized;
    }
    var c := ValidateStart(p);
    if c.StartRejected? {
      return BadRequest(c.error);
    }
    resp := OpenSession(db, c, p.startedAt.GetOr(now));
  }

  // ---- PUT: close the session of exactly these players ----------------------

  /** The player ids of a session's memberships, in table order (what the
      inner join `jogatina_players!inner(player_id)` yields). */
  function MemberPlayerIds(ms: seq<MemberRow>, jogatinaId: Id): (r: seq<Id>)
    ensures |r| == CountWhere(ms, MemberOfSession(jogatinaId))
  {
    if ms == [] then []
    else
      var init := MemberPlayerIds(ms[..|ms| - 1], jogatinaId);
      if ms[|ms| - 1].jogatinaId == jogatinaId then init + [ms[|ms| - 1].playerId] else init
  }

  /** The query's filter: an open current bot session of the game, of the
      requested type. A missing type matches no session. */
  function OpenCandidate(gameId: Id, sessionType: Option<string>): JogatinaRow -> bool {
    (r: JogatinaRow) => r.gameId == gameId && sessionType == Some(SessionTypeName(r.sessionType))
                        && r.isCurrent && r.source == DiscordBot && r.endedAt.None?
  }

  /** The loop's test: every requested player is a member, and there are as
      many members as requested players. */
  predicate HasExactly(memberIds: seq<Id>, playerIds: seq<Id>) {
    (forall i :: 0 <= i < |playerIds| ==> playerIds[i] in memberIds) && |memberIds| == |playerIds|
  }

  function IsMatch(ms: seq<MemberRow>, gameId: Id, sessionType: Option<string>, playerIds: seq<Id>): JogatinaRow -> bool {
    (r: JogatinaRow) => OpenCandidate(gameId, sessionType)(r) && HasExactly(MemberPlayerIds(ms, r.id), playerIds)
  }

  /** The search loop over the candidate sessions: the first that matches. */
  method FindMatchingSession(js: seq<JogatinaRow>, ms: seq<MemberRow>, gameId: Id, sessionType: Option<string>,
                             playerIds: seq<Id>)
    returns (found: Option<nat>)
    ensures found == FirstFrom(js, IsMatch(ms, gameId, sessionType, playerIds), 0)
  {
    found := None;
    var k := 0;
    while k < |js|
      invariant 0 <= k <= |js|
      invariant FirstFrom(js, IsMatch(ms, gameId, sessionType, playerIds), 0)
             == FirstFrom(js, IsMatch(ms, gameId, sessionType, playerIds), k)
      decreases |js| - k
    {
      if OpenCandidate(gameId, sessionType)(js[k]) {
        var memberIds := MemberPlayerIds(ms, js[k].id);
        if HasExactly(memberIds, playerIds) {
          return Some(k);
        }
      }
      k := k + 1;
    }
  }

  /** The ids a sequence holds, as a set. */
  function Elems(s: seq<Id>): set<Id> {
    set x | x in s
  }

  /** With no repeated ids on either side, the loop's test is set equality:
      the session's members are exactly the requested players. */
  lemma HasExactlyIsSameSet(memberIds: seq<Id>, playerIds: seq<Id>)
    requires NoRepeats(memberIds) && NoRepeats(playerIds)
    ensures HasExactly(memberIds, playerIds) <==> Elems(memberIds) == Elems(playerIds)
  {
    DistinctCard(memberIds);
    DistinctCard(playerIds);
    if HasExactly(memberIds, playerIds) {
      forall x | x in Elems(playerIds)
        ensures x in Elems(memberIds)
      {
        var i :| 0 <= i < |playerIds| && playerIds[i] == x;
      }
      SubsetSameSize(Elems(playerIds), Elems(memberIds));
    }
    if Elems(memberIds) == Elems(playerIds) {
      forall i | 0 <= i < |playerIds|
        ensures playerIds[i] in memberIds
      {
        assert playerIds[i] in Elems(playerIds);
      }
    }
  }

  lemma {:induction false} DistinctCard(s: seq<Id>)
    requires NoRepeats(s)
    ensures |Elems(s)| == |s|
  {
    if s != [] {
      var init, last := s[..|s| - 1], s[|s| - 1];
      assert s == init + [last];
      assert NoRepeats(init) by {
        forall i, j | 0 <= i < j < |init|
          ensures init[i] != init[j]
        {
          assert init[i] == s[i] && init[j] == s[j];
        }
      }
      DistinctCard(init);
      assert Elems(s) == Elems(init) + {last};
      assert Elems(init) * {last} == {};
    }
  }

  /** Every id the join yields is a member of the session. */
  lemma {:induction false} MemberIdsAreMembers(ms: seq<MemberRow>, jogatinaId: Id, playerId: Id)
    requires playerId in MemberPlayerIds(ms, jogatinaId)
    ensures CountWhere(ms, MembershipOf(jogatinaId, playerId)) >= 1
  {
    var init := ms[..|ms| - 1];
    if playerId in MemberPlayerIds(init, jogatinaId) {
      MemberIdsAreMembers(init, jogatinaId, playerId);
    }
  }

  /** With at most one membership per (session, player) pair, a session's
      member ids have no repeats, so `PUT` finds the session whose members
      are exactly the requested players. */
  lemma {:induction false} UniqueMembershipsNoRepeats(ms: seq<MemberRow>, jogatinaId: Id)
    requires UniqueMemberships(ms)
    ensures NoRepeats(MemberPlayerIds(ms, jogatinaId))
  {
    if ms != [] {
      var init, last := ms[..|ms| - 1], ms[|ms| - 1];
      assert UniqueMemberships(init) by {
        forall j, p
          ensures CountWhere(init, MembershipOf(j, p)) <= 1
        {
          assert CountWhere(init, MembershipOf(j, p)) <= CountWhere(ms, MembershipOf(j, p));
        }
      }
      UniqueMembershipsNoRepeats(init, jogatinaId);
      var ids := MemberPlayerIds(init, jogatinaId);
      if last.jogatinaId == jogatinaId && last.playerId in ids {
        MemberIdsAreMembers(init, jogatinaId, last.playerId);
        assert false;
      }
    }
  }

  /** The session `PUT` picks holds exactly the requested players, when
      memberships are unique and the requested ids have no repeats.
      `POST` itself can break the first hypothesis: a group start with the
      ids ["a", "a"] passes ValidateStart, resolves both to one player and
      inserts two memberships for that player. `PUT` can never match such a
      session: it has two members while the lookup finds one player. */
  lemma MatchIsExactSet(js: seq<JogatinaRow>, ms: seq<MemberRow>, gameId: Id, sessionType: Option<string>,
                        playerIds: seq<Id>)
    requires UniqueMemberships(ms) && NoRepeats(playerIds)
    requires FirstFrom(js, IsMatch(ms, gameId, sessionType, playerIds), 0).Some?
    ensures var k := FirstFrom(js, IsMatch(ms, gameId, sessionType, playerIds), 0).value;
            Elems(MemberPlayerIds(ms, js[k].id)) == Elems(playerIds)
  {
    var k := FirstFrom(js, IsMatch(ms, gameId, sessionType, playerIds), 0).value;
    UniqueMembershipsNoRepeats(ms, js[k].id);
    HasExactlyIsSameSet(MemberPlayerIds(ms, js[k].id), playerIds);
  }

  lemma SubsetSameSize(a: set<Id>, b: set<Id>)
    requires a <= b && |a| == |b|
    ensures a == b
  {
    assert b == a + (b - a);
    assert a * (b - a) == {};
  }

  /** The stored length: the payload's value when truthy (present and not
      0), otherwise the minutes from the session's start, rounded down; an
      unset start reads as the epoch. */
  function EndDuration(given: Option<int>, ended: Millis, started: Option<Millis>): (d: int)
    ensures given.Some? && given.value != 0 ==> d == given.value
    ensures given.None? || given.value == 0 ==> d == (ended - started.GetOr(0)) / 60000
  {
    if given.Some? && given.value != 0 then given.value else (ended - started.GetOr(0)) / 60000
  }

  /** The session row after `PUT`. */
  function EndedSession(s: JogatinaRow, ended: Millis, given: Option<int>): (r: JogatinaRow)
    ensures r.id == s.id && r.gameId == s.gameId && r.source == s.source && r.sessionType == s.sessionType
    ensures !r.isCurrent && r.endedAt == Some(ended) && r.durationMinutes == Some(EndDuration(given, ended, s.startedAt))
  {
    s.(endedAt := Some(ended), durationMinutes := Some(EndDuration(given, ended, s.startedAt)), isCurrent := false)
  }

  /** Once closed, a session is no longer a candidate, so the same request
      cannot close it twice. */
  lemma EndedIsNoCandidate(s: JogatinaRow, ended: Millis, given: Option<int>, gameId: Id, sessionType: Option<string>)
    ensures !OpenCandidate(gameId, sessionType)(EndedSession(s, ended, given))
  {
  }

  /** The players whose Discord id is among the requested ones, in table
      order (`.in("discord_id", ids)`). */
  function PlayersIn(discordIds: seq<string>): (p: PlayerRow -> bool)
    ensures forall q :: p(q) <==> exists k :: 0 <= k < |discordIds| && q.discordId == Some(discordIds[k])
  {
    (p: PlayerRow) => p.discordId.Some? && p.discordId.value in discordIds
  }

  function Ids(players: seq<PlayerRow>): (r: seq<Id>)
    ensures |r| == |players|
    ensures forall i :: 0 <= i < |r| ==> r[i] == players[i].id
  {
    seq(|players|, i requires 0 <= i < |players| => players[i].id)
  }

  /** `PUT`'s checks before any table is read, in the route's order. */
  function ValidateEnd(p: EndPayload): (r: Option<string>)
    ensures r.None? <==> p.discordIds.Some? && |p.discordIds.value| > 0 && Truthy(p.gameTitle) && p.endedAt.Some?
  {
    if p.discordIds.None? || |p.discordIds.value| == 0 then Some(IdsRequired)
    else if !Truthy(p.gameTitle) then Some(TitleRequired)
    else if p.endedAt.None? then Some(EndedAtRequired)
    else None
  }

  /** The id of the only game with this title (`.single()`), if there is one. */
  function GameIdTitled(games: seq<GameRow>, title: string): (r: Option<Id>)
    ensures r.Some? <==> CountWhere(games, GameTitled(title)) == 1
    ensures r.Some? ==> exists k :: 0 <= k < |games| && games[k].title == title && games[k].id == r.value
  {
    match Single(games, GameTitled(title))
    case Some(k) => Some(games[k].id)
    case None => None
  }

  /** The ids of the players holding one of the Discord ids, in table order. */
  function FoundPlayerIds(players: seq<PlayerRow>, discordIds: seq<string>): seq<Id> {
    Ids(Filter(players, PlayersIn(discordIds)))
  }

  /** What `PUT` finds once its payload is valid. */
  datatype EndLookup = NoGame | NoPlayers | NoMatch | Match(k: nat)

  /** `PUT`'s three lookups in the route's order: the game by title, the
      players by Discord id, then the first open candidate whose members are
      exactly the players found. */
  function LookUpEnd(games: seq<GameRow>, players: seq<PlayerRow>, js: seq<JogatinaRow>, ms: seq<MemberRow>,
                     p: EndPayload): (r: EndLookup)
    requires ValidateEnd(p).None?
    ensures r.NoGame? <==> GameIdTitled(games, p.gameTitle.value).None?
    ensures r.NoPlayers? <==> GameIdTitled(games, p.gameTitle.value).Some?
                              && forall i :: 0 <= i < |players| ==> !PlayersIn(p.discordIds.value)(players[i])
    ensures r.NoMatch? <==> GameIdTitled(games, p.gameTitle.value).Some?
                            && (exists i :: 0 <= i < |players| && PlayersIn(p.discordIds.value)(players[i]))
                            && forall c :: 0 <= c < |js| ==>
                                 !IsMatch(ms, GameIdTitled(games, p.gameTitle.value).value, p.sessionType,
                                          FoundPlayerIds(players, p.discordIds.value))(js[c])
    ensures r.Match? ==> GameIdTitled(games, p.gameTitle.value).Some? && r.k < |js|
                         && IsMatch(ms, GameIdTitled(games, p.gameTitle.value).value, p.sessionType,
                                    FoundPlayerIds(players, p.discordIds.value))(js[r.k])
                         && forall c :: 0 <= c < r.k ==>
                              !IsMatch(ms, GameIdTitled(games, p.gameTitle.value).value, p.sessionType,
                                       FoundPlayerIds(players, p.discordIds.value))(js[c])
  {
    CountZeroIffNone(players, PlayersIn(p.discordIds.value));
    match GameIdTitled(games, p.gameTitle.value)
    case None => NoGame
    case Some(g) =>
      if CountWhere(players, PlayersIn(p.discordIds.value)) == 0 then NoPlayers
      else
        match FirstFrom(js, IsMatch(ms, g, p.sessionType, FoundPlayerIds(players, p.discordIds.value)), 0)
        case None => NoMatch
        case Some(k) => Match(k)
  }

  /** With one membership per (session, player) and no player found twice,
      the session `PUT` ends has exactly the players found as its members.
      A start with a repeated Discord id gives its session two memberships
      of one player, so that session never meets the first hypothesis and
      is never matched. */
  lemma EndedMembersAreFoundPlayers(games: seq<GameRow>, players: seq<PlayerRow>, js: seq<JogatinaRow>,
                                    ms: seq<MemberRow>, p: EndPayload)
    requires ValidateEnd(p).None? && UniqueMemberships(ms) && NoRepeats(FoundPlayerIds(players, p.discordIds.value))
    requires LookUpEnd(games, players, js, ms, p).Match?
    ensures var k := LookUpEnd(games, players, js, ms, p).k;
            Elems(MemberPlayerIds(ms, js[k].id)) == Elems(FoundPlayerIds(players, p.discordIds.value))
  {
    var g := GameIdTitled(games, p.gameTitle.value).value;
    MatchIsExactSet(js, ms, g, p.sessionType, FoundPlayerIds(players, p.discordIds.value));
  }

  /** `PUT /api/discord`: close the open session of exactly these players. */
  method EndSession(db: Database, authorization: Option<string>, apiKey: Option<string>, p: EndPayload)
    returns (resp: SessionResponse)
    requires db.Valid()
    modifies db
    ensures db.Valid()
    ensures resp == Unauthorized <==> !VerifyAuth(authorization, apiKey)
    ensures !VerifyAuth(authorization, apiKey) ==> unchanged(db)
    ensures VerifyAuth(authorization, apiKey) && ValidateEnd(p).Some? ==>
              resp == BadRequest(ValidateEnd(p).value) && unchanged(db)
    ensures resp.NotFound? ==> unchanged(db)
    ensures resp.Ended? ==>
              exists k :: 0 <= k < |old(db.jogatinas)| && old(db.jogatinas)[k].id == resp.id
                          && db.jogatinas == old(db.jogatinas)[k := EndedSession(old(db.jogatinas)[k], resp.endedAt, p.durationMinutes)]
    ensures db.players == old(db.players) && db.games == old(db.games) && db.members == old(db.members)
    ensures db.events == old(db.events) && db.seasons == old(db.seasons) && db.participants == old(db.participants)
    ensures db.nextId == old(db.nextId)
    ensures VerifyAuth(authorization, apiKey) && ValidateEnd(p).None? ==>
              match old(LookUpEnd(db.games, db.players, db.jogatinas, db.members, p))
              case NoGame => resp == NotFound(GameNotFound) && unchanged(db)
              case NoPlayers => resp == NotFound(NoPlayersFound) && unchanged(db)
              case NoMatch => resp == NotFound(SessionNotFound) && unchanged(db)
              case Match(k) =>
                resp == Ended(old(db.jogatinas)[k].id, p.gameTitle.value, p.sessionType, p.durationMinutes, p.endedAt.value)
                && db.jogatinas == old(db.jogatinas)[k := EndedSession(old(db.jogatinas)[k], p.endedAt.value, p.durationMinutes)]
  {
    if !VerifyAuth(authorization, apiKey) {
      return Unauthorized;
    }
    var invalid := ValidateEnd(p);
    if invalid.Some? {
      return BadRequest(invalid.value);
    }
    var game := Single(db.games, GameTitled(p.gameTitle.value));
    if game.None? {
      return NotFound(GameNotFound);
    }
    var players := Filter(db.players, PlayersIn(p.discordIds.value));
    if |players| == 0 {
      return NotFound(NoPlayersFound);
    }
    var playerIds := Ids(players);
    var found := FindMatchingSession(db.jogatinas, db.members, db.games[game.value].id, p.sessionType, playerIds);
    if found.None? {
      return NotFound(SessionNotFound);
    }
    var k := found.value;
    var s := db.jogatinas[k];
    db.SetJogatina(k, EndedSession(s, p.endedAt.value, p.durationMinutes));
    resp := Ended(s.id, p.gameTitle.value, p.sessionType, p.durationMinutes, p.endedAt.value);
  }
}
