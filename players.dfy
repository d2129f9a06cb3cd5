/** The player registry route: `POST` registers a player under a trimmed,
    unused name and an unused Discord id; `GET` lists the players. */
module Players {
  import opened Common
  import opened Tables
  import opened Auth
  import opened Text

  datatype CreatePlayerPayload = CreatePlayerPayload(name: Option<string>, avatarUrl: Option<string>, discordId: Option<string>)

  datatype PlayersResponse =
    | Unauthorized
    | BadRequest(error: string)
    | Conflict(error: string)
    | Created(player: PlayerRow)
    | Listed(players: seq<PlayerRow>)
  {
    function Status(): int {
      match this
      case Unauthorized => 401
      case BadRequest(_) => 400
      case Conflict(_) => 409
      case _ => 200
    }
  }

  const NameRequired: string := "Name is required and cannot be empty"
  const NameTaken: string := "Player with this name already exists"
  const DiscordIdTaken: string := "Player with this Discord ID already exists"

  /** The first check a registration fails, or the trimmed name it registers under. */
  datatype CreateCheck = NameMissing | NameExists | DiscordIdExists | CanCreate(name: string)

  /** The checks in the route's order: a name that is missing or blank, then
      a `.single()` lookup of the trimmed name, then, when a Discord id is
      given, a `.single()` lookup of that id. */
  function CheckCreate(players: seq<PlayerRow>, p: CreatePlayerPayload): (c: CreateCheck)
    ensures c.NameMissing? <==> !Truthy(p.name) || AllWhiteSpace(p.name.value)
    ensures !c.NameMissing? ==> Trim(p.name.value) != []
    ensures c.NameExists? <==> !c.NameMissing? && CountWhere(players, PlayerNamed(Trim(p.name.value))) == 1
    ensures c.DiscordIdExists? <==> !c.NameMissing? && !c.NameExists?
                                    && Truthy(p.discordId) && CountWhere(players, PlayerWithDiscordId(p.discordId.value)) == 1
    ensures c.CanCreate? ==> c.name == Trim(p.name.value)
  {
    if !Truthy(p.name) then NameMissing
    else
      TrimEmptyIffBlank(p.name.value);
      var name := Trim(p.name.value);
      if |name| == 0 then NameMissing
      else if Single(players, PlayerNamed(name)).Some? then NameExists
      else if Truthy(p.discordId) && Single(players, PlayerWithDiscordId(p.discordId.value)).Some? then DiscordIdExists
      else CanCreate(name)
  }

  /** The row a registration inserts: empty or absent avatar and Discord id are stored as null. */
  function NewPlayer(id: Id, name: string, p: CreatePlayerPayload): PlayerRow {
    PlayerRow(id, name, if Truthy(p.avatarUrl) then p.avatarUrl else None,
              if Truthy(p.discordId) then p.discordId else None)
  }

  /** `POST`: on success exactly one row is appended, under a fresh id; on
      every refusal nothing changes. */
  method CreatePlayer(db: Database, authorization: Option<string>, apiKey: Option<string>, p: CreatePlayerPayload)
    returns (resp: PlayersResponse)
    requires db.Valid()
    modifies db
    ensures db.Valid()
    ensures !VerifyAuth(authorization, apiKey) ==> resp == Unauthorized && unchanged(db)
    ensures VerifyAuth(authorization, apiKey) ==>
              match old(CheckCreate(db.players, p))
              case NameMissing => resp == BadRequest(NameRequired) && unchanged(db)
              case NameExists => resp == Conflict(NameTaken) && unchanged(db)
              case DiscordIdExists => resp == Conflict(DiscordIdTaken) && unchanged(db)
              case CanCreate(name) =>
                resp == Created(NewPlayer(old(db.nextId), name, p))
                && db.players == old(db.players) + [resp.player]
                && db.nextId == old(db.nextId) + 1
                && db.games == old(db.games) && db.jogatinas == old(db.jogatinas) && db.members == old(db.members)
                && db.events == old(db.events) && db.seasons == old(db.seasons)
                && db.participants == old(db.participants)
  {
    if !VerifyAuth(authorization, apiKey) {
      return Unauthorized;
    }
    var check := CheckCreate(db.players, p);
    match check {
      case NameMissing => resp := BadRequest(NameRequired);
      case NameExists => resp := Conflict(NameTaken);
      case DiscordIdExists => resp := Conflict(DiscordIdTaken);
      case CanCreate(name) =>
        var row := NewPlayer(db.nextId, name, p);
        db.Reserve(1);
        db.AddPlayer(row);
        resp := Created(row);
    }
  }

  /** `GET`: every player, newest first (rows are created in table order). */
  method ListPlayers(db: Database, authorization: Option<string>, apiKey: Option<string>) returns (resp: PlayersResponse)
    ensures !VerifyAuth(authorization, apiKey) <==> resp == Unauthorized
    ensures resp.Listed? ==> |resp.players| == |db.players|
                             && forall i :: 0 <= i < |db.players| ==> resp.players[i] == db.players[|db.players| - 1 - i]
    ensures resp.Unauthorized? || resp.Listed?
  {
    if !VerifyAuth(authorization, apiKey) {
      return Unauthorized;
    }
    var newestFirst := [];
    for i := 0 to |db.players|
      invariant |newestFirst| == i
      invariant forall j :: 0 <= j < i ==> newestFirst[j] == db.players[|db.players| - 1 - j]
    {
      newestFirst := newestFirst + [db.players[|db.players| - 1 - i]];
    }
    resp := Listed(newestFirst);
  }

  /** No two players share a name. */
  ghost predicate UniqueNames(players: seq<PlayerRow>) {
    forall name :: CountWhere(players, PlayerNamed(name)) <= 1
  }

  /** No two players share a Discord id. */
  ghost predicate UniqueDiscordIds(players: seq<PlayerRow>) {
    forall d :: CountWhere(players, PlayerWithDiscordId(d)) <= 1
  }

  /** When this route is the only writer of the players table, names and
      Discord ids stay unique: a registration that passes the checks brings
      a name and a Discord id no row has. */
  lemma CreateKeepsUnique(players: seq<PlayerRow>, p: CreatePlayerPayload, id: Id)
    requires UniqueNames(players) && UniqueDiscordIds(players)
    requires CheckCreate(players, p).CanCreate?
    ensures UniqueNames(players + [NewPlayer(id, CheckCreate(players, p).name, p)])
    ensures UniqueDiscordIds(players + [NewPlayer(id, CheckCreate(players, p).name, p)])
  {
    var row := NewPlayer(id, CheckCreate(players, p).name, p);
    forall name
      ensures CountWhere(players + [row], PlayerNamed(name)) <= 1
    {
      CountAppend(players, row, PlayerNamed(name));
    }
    forall d
      ensures CountWhere(players + [row], PlayerWithDiscordId(d)) <= 1
    {
      CountAppend(players, row, PlayerWithDiscordId(d));
    }
  }

  /** The name lookup uses `.single()`, so once two rows share a name (as
      rows written by another route can) a third registration under that
      name is let through. */
  lemma SharedNameNotRefused()
    ensures var players := [PlayerRow(0, "Ana", None, None), PlayerRow(1, "Ana", None, None)];
            CheckCreate(players, CreatePlayerPayload(Some(" Ana "), None, None)) == CanCreate("Ana")
  {
    var players := [PlayerRow(0, "Ana", None, None), PlayerRow(1, "Ana", None, None)];
    TrimPadded();
    assert CountWhere(players, PlayerNamed("Ana")) == 2 by {
      assert players[..1] == [PlayerRow(0, "Ana", None, None)];
    }
  }

  lemma TrimPadded()
    ensures Trim(" Ana ") == "Ana"
  {
    assert TrimStart(" Ana ") == "Ana " by {
      assert " Ana "[1..] == "Ana ";
      assert IsWhiteSpace(' ') && !IsWhiteSpace('A');
    }
    assert TrimEnd("Ana ") == "Ana" by {
      assert "Ana "[..3] == "Ana";
      assert !IsWhiteSpace('a');
    }
  }
}
