/** Which table a participation's outcome status is read from, and the
    tallies built on that choice. A session linked to a season takes its
    status from the season's participant row; a session without a season
    (from before seasons existed) takes it from its own membership row. */
module StatusHelpers {
  import opened Common
  import opened Tables

  /** A membership joined with its player and, when the join found it, the
      season of its session (`None` when the session is missing from the
      join or has no season; ids are never empty, so a present id is truthy). */
  datatype SessionEntry = SessionEntry(member: MemberRow, player: PlayerRow, seasonId: Option<Id>)

  /** A season participant joined with its player, when the join found one. */
  datatype SeasonEntry = SeasonEntry(row: ParticipantRow, player: Option<PlayerRow>)

  // ---- Grouping by status source -------------------------------------------

  function HasSeason(): SessionEntry -> bool {
    (e: SessionEntry) => e.seasonId.Some?
  }

  function NoSeason(): SessionEntry -> bool {
    (e: SessionEntry) => e.seasonId.None?
  }

  /** Sends each entry to `withSeason` or `withoutSeason`, keeping input order. */
  method GroupByStatusSource(entries: seq<SessionEntry>) returns (withSeason: seq<SessionEntry>, withoutSeason: seq<SessionEntry>)
    ensures withSeason == Filter(entries, HasSeason())
    ensures withoutSeason == Filter(entries, NoSeason())
  {
    withSeason, withoutSeason := [], [];
    for i := 0 to |entries|
      invariant withSeason == Filter(entries[..i], HasSeason())
      invariant withoutSeason == Filter(entries[..i], NoSeason())
    {
      assert entries[..i + 1] == entries[..i] + [entries[i]];
      FilterAppend(entries[..i], entries[i], HasSeason());
      FilterAppend(entries[..i], entries[i], NoSeason());
      if entries[i].seasonId.Some? {
        withSeason := withSeason + [entries[i]];
      } else {
        withoutSeason := withoutSeason + [entries[i]];
      }
    }
    assert entries[..|entries|] == entries;
  }

  /** The two groups split the input: every entry lands in exactly one of them. */
  lemma {:induction false} GroupsPartition(entries: seq<SessionEntry>)
    ensures |Filter(entries, HasSeason())| + |Filter(entries, NoSeason())| == |entries|
    ensures multiset(Filter(entries, HasSeason())) + multiset(Filter(entries, NoSeason())) == multiset(entries)
  {
    if entries != [] {
      var init, last := entries[..|entries| - 1], entries[|entries| - 1];
      GroupsPartition(init);
      assert entries == init + [last];
    }
  }

  // ---- Status totals across both sources -----------------------------------

  function SessionStatus(e: SessionEntry): string {
    e.member.status
  }

  function ParticipantStatus(e: SeasonEntry): string {
    e.row.status
  }

  function HasTag<T>(tagOf: T -> string, tag: string): T -> bool {
    (x: T) => tagOf(x) == tag
  }

  /** Number of rows carrying the status `tag`. */
  function Tagged<T>(rows: seq<T>, tagOf: T -> string, tag: string): nat {
    CountWhere(rows, HasTag(tagOf, tag))
  }

  /** A row carries at most one of the four statuses, so the four counts
      never exceed the number of rows. */
  lemma {:induction false} TagsWithinTotal<T>(rows: seq<T>, tagOf: T -> string)
    ensures Tagged(rows, tagOf, Dropo) + Tagged(rows, tagOf, Zero) + Tagged(rows, tagOf, DavaPraJogar)
            + Tagged(rows, tagOf, EmAndamento) <= |rows|
  {
    if rows != [] {
      TagsWithinTotal(rows[..|rows| - 1], tagOf);
    }
  }

  datatype OldSystemStats = OldSystemStats(dropos: nat, zeros: nat, davaJogar: nat, total: nat)

  datatype SeasonSystemStats = SeasonSystemStats(dropos: nat, zeros: nat, davaJogar: nat, emAndamento: nat, total: nat)

  datatype StatusStats = StatusStats(
    dropos: nat,
    zeros: nat,
    davaJogar: nat,
    emAndamento: nat,
    totalParticipations: nat,
    oldSystem: OldSystemStats,
    newSystem: SeasonSystemStats)

  /** Totals of each status over the season-less memberships and all season
      participants; memberships of season sessions are not counted, since
      their participant row stands for them. */
  function CalculateStatusStats(entries: seq<SessionEntry>, participants: seq<SeasonEntry>): (r: StatusStats)
    ensures r.oldSystem.total == CountWhere(entries, NoSeason()) && r.newSystem.total == |participants|
    ensures r.dropos == r.oldSystem.dropos + r.newSystem.dropos
    ensures r.zeros == r.oldSystem.zeros + r.newSystem.zeros
    ensures r.davaJogar == r.oldSystem.davaJogar + r.newSystem.davaJogar
    ensures r.emAndamento == r.newSystem.emAndamento
    ensures r.totalParticipations == r.oldSystem.total + r.newSystem.total
    ensures r.oldSystem.dropos + r.oldSystem.zeros + r.oldSystem.davaJogar <= r.oldSystem.total
    ensures r.dropos + r.zeros + r.davaJogar + r.emAndamento <= r.totalParticipations
  {
    var withoutSeason := Filter(entries, NoSeason());
    TagsWithinTotal(withoutSeason, SessionStatus);
    TagsWithinTotal(participants, ParticipantStatus);
    var o := OldSystemStats(
      Tagged(withoutSeason, SessionStatus, Dropo),
      Tagged(withoutSeason, SessionStatus, Zero),
      Tagged(withoutSeason, SessionStatus, DavaPraJogar),
      |withoutSeason|);
    var n := SeasonSystemStats(
      Tagged(participants, ParticipantStatus, Dropo),
      Tagged(participants, ParticipantStatus, Zero),
      Tagged(participants, ParticipantStatus, DavaPraJogar),
      Tagged(participants, ParticipantStatus, EmAndamento),
      |participants|);
    StatusStats(o.dropos + n.dropos, o.zeros + n.zeros, o.davaJogar + n.davaJogar, n.emAndamento,
                o.total + n.total, o, n)
  }

  /** A membership of a season session changes none of the totals. */
  lemma SeasonEntryIgnored(entries: seq<SessionEntry>, e: SessionEntry, participants: seq<SeasonEntry>)
    requires e.seasonId.Some?
    ensures CalculateStatusStats(entries + [e], participants) == CalculateStatusStats(entries, participants)
  {
    FilterAppend(entries, e, NoSeason());
    assert Filter(entries + [e], NoSeason()) == Filter(entries, NoSeason());
  }

  /** No rows, no counts. */
  lemma NothingCounted()
    ensures CalculateStatusStats([], []) == StatusStats(0, 0, 0, 0, 0, OldSystemStats(0, 0, 0, 0), SeasonSystemStats(0, 0, 0, 0, 0))
  {
  }

  /** A season-less membership adds one to the old-system total and to its
      own old-system status, and the same to the combined fields, except
      "Em andamento", which only participants contribute; the season-side
      counts are untouched. */
  lemma OldEntryCounted(entries: seq<SessionEntry>, e: SessionEntry, participants: seq<SeasonEntry>)
    requires e.seasonId.None?
    ensures var before, after := CalculateStatusStats(entries, participants), CalculateStatusStats(entries + [e], participants);
            && after.newSystem == before.newSystem
            && after.oldSystem.total == before.oldSystem.total + 1
            && after.oldSystem.dropos == before.oldSystem.dropos + (if e.member.status == Dropo then 1 else 0)
            && after.oldSystem.zeros == before.oldSystem.zeros + (if e.member.status == Zero then 1 else 0)
            && after.oldSystem.davaJogar == before.oldSystem.davaJogar + (if e.member.status == DavaPraJogar then 1 else 0)
    ensures var before, after := CalculateStatusStats(entries, participants), CalculateStatusStats(entries + [e], participants);
            && after.totalParticipations == before.totalParticipations + 1
            && after.dropos == before.dropos + (if e.member.status == Dropo then 1 else 0)
            && after.zeros == before.zeros + (if e.member.status == Zero then 1 else 0)
            && after.davaJogar == before.davaJogar + (if e.member.status == DavaPraJogar then 1 else 0)
            && after.emAndamento == before.emAndamento
  {
    FilterAppend(entries, e, NoSeason());
    var w := Filter(entries, NoSeason());
    CountAppend(w, e, HasTag(SessionStatus, Dropo));
    CountAppend(w, e, HasTag(SessionStatus, Zero));
    CountAppend(w, e, HasTag(SessionStatus, DavaPraJogar));
  }

  /** A season participant adds one to the season-side total and to the
      season-side count of its own status, "Em andamento" included, and the
      same to the combined fields; the old-system counts are untouched. */
  lemma ParticipantCounted(entries: seq<SessionEntry>, participants: seq<SeasonEntry>, q: SeasonEntry)
    ensures var before, after := CalculateStatusStats(entries, participants), CalculateStatusStats(entries, participants + [q]);
            && after.oldSystem == before.oldSystem
            && after.newSystem.total == before.newSystem.total + 1
            && after.newSystem.dropos == before.newSystem.dropos + (if q.row.status == Dropo then 1 else 0)
            && after.newSystem.zeros == before.newSystem.zeros + (if q.row.status == Zero then 1 else 0)
            && after.newSystem.davaJogar == before.newSystem.davaJogar + (if q.row.status == DavaPraJogar then 1 else 0)
            && after.newSystem.emAndamento == before.newSystem.emAndamento + (if q.row.status == EmAndamento then 1 else 0)
    ensures var before, after := CalculateStatusStats(entries, participants), CalculateStatusStats(entries, participants + [q]);
            && after.totalParticipations == before.totalParticipations + 1
            && after.dropos == before.dropos + (if q.row.status == Dropo then 1 else 0)
            && after.zeros == before.zeros + (if q.row.status == Zero then 1 else 0)
            && after.davaJogar == before.davaJogar + (if q.row.status == DavaPraJogar then 1 else 0)
            && after.emAndamento == before.emAndamento + (if q.row.status == EmAndamento then 1 else 0)
  {
    CountAppend(participants, q, HasTag(ParticipantStatus, Dropo));
    CountAppend(participants, q, HasTag(ParticipantStatus, Zero));
    CountAppend(participants, q, HasTag(ParticipantStatus, DavaPraJogar));
    CountAppend(participants, q, HasTag(ParticipantStatus, EmAndamento));
  }

  // ---- Per-player statistics -----------------------------------------------

  /** One player's line in the statistics. */
  datatype PlayerStats = PlayerStats(
    playerId: Id,
    playerName: string,
    avatarUrl: Option<string>,
    totalJogatinas: int,
    dropos: nat,
    zeros: nat,
    davaPraJogar: nat,
    emAndamento: nat)

  function Blank(playerId: Id, name: string, avatarUrl: Option<string>): PlayerStats {
    PlayerStats(playerId, name, avatarUrl, 0, 0, 0, 0, 0)
  }

  function Buckets(s: PlayerStats): nat {
    s.dropos + s.zeros + s.davaPraJogar + s.emAndamento
  }

  predicate SameIdentity(a: PlayerStats, b: PlayerStats) {
    a.playerId == b.playerId && a.playerName == b.playerName && a.avatarUrl == b.avatarUrl
  }

  /** A season-less membership counts as one session and adds to at most one
      status; "Em andamento" on such a row adds to no status. */
  function CountSessionRow(s: PlayerStats, status: string): (r: PlayerStats)
    ensures SameIdentity(r, s)
    ensures r.totalJogatinas == s.totalJogatinas + 1
    ensures r.emAndamento == s.emAndamento
    ensures Buckets(s) <= Buckets(r) <= Buckets(s) + 1
  {
    var s := s.(totalJogatinas := s.totalJogatinas + 1);
    if status == Dropo then s.(dropos := s.dropos + 1)
    else if status == Zero then s.(zeros := s.zeros + 1)
    else if status == DavaPraJogar then s.(davaPraJogar := s.davaPraJogar + 1)
    else s
  }

  /** The sessions a participant row contributes: its count when positive, else none. */
  function PositiveSessions(e: SeasonEntry): (n: int)
    ensures n >= 0 && (e.row.totalSessions > 0 ==> n == e.row.totalSessions)
    ensures e.row.totalSessions <= 0 ==> n == 0
  {
    if e.row.totalSessions > 0 then e.row.totalSessions else 0
  }

  /** A participant row adds its positive session count and one to the
      status it carries, "Em andamento" included. */
  function CountSeasonRow(s: PlayerStats, e: SeasonEntry): (r: PlayerStats)
    ensures SameIdentity(r, s)
    ensures r.totalJogatinas == s.totalJogatinas + PositiveSessions(e)
    ensures Buckets(r) == Buckets(s) + (if e.row.status in [Dropo, Zero, DavaPraJogar, EmAndamento] then 1 else 0)
  {
    var s := if e.row.totalSessions > 0 then s.(totalJogatinas := s.totalJogatinas + e.row.totalSessions) else s;
    var status := e.row.status;
    if status == Dropo then s.(dropos := s.dropos + 1)
    else if status == Zero then s.(zeros := s.zeros + 1)
    else if status == DavaPraJogar then s.(davaPraJogar := s.davaPraJogar + 1)
    else if status == EmAndamento then s.(emAndamento := s.emAndamento + 1)
    else s
  }

  /** The player name a participant row introduces: "Unknown" when the
      join found no player or an empty name. */
  function SeasonName(p: Option<PlayerRow>): (r: string)
    ensures r != ""
    ensures r == "Unknown" || (p.Some? && r == p.value.name)
    ensures p.Some? && p.value.name != "" ==> r == p.value.name
  {
    if p.Some? && p.value.name != "" then p.value.name else "Unknown"
  }

  /** The avatar a participant row introduces: absent unless a non-empty one was joined. */
  function SeasonAvatar(p: Option<PlayerRow>): (r: Option<string>)
    ensures r.Some? ==> r.value != "" && p.Some? && r == p.value.avatarUrl
    ensures p.Some? && Truthy(p.value.avatarUrl) ==> r == p.value.avatarUrl
  {
    if p.Some? && Truthy(p.value.avatarUrl) then p.value.avatarUrl else None
  }

  /** The map the statistics are gathered in, with its keys in insertion order. */
  datatype Entries = Entries(byId: map<Id, PlayerStats>, order: seq<Id>)

  /** Keys and order agree, the order has no repeats, and each entry is keyed by its player. */
  ghost predicate WellFormed(e: Entries) {
    (forall id :: id in e.byId <==> id in e.order)
    && NoRepeats(e.order)
    && (forall id :: id in e.byId ==> e.byId[id].playerId == id)
  }

  /** The entry of a player, or a blank one when the map has none. */
  function Lookup(e: Entries, id: Id): PlayerStats {
    if id in e.byId then e.byId[id] else Blank(id, "", None)
  }

  /** One step of the first loop: create the player's entry if missing, then count the row. */
  function AddSessionRow(e: Entries, row: SessionEntry): Entries {
    var id := row.player.id;
    var e1 := if id in e.byId then e
              else Entries(e.byId[id := Blank(id, row.player.name, row.player.avatarUrl)], e.order + [id]);
    Entries(e1.byId[id := CountSessionRow(e1.byId[id], row.member.status)], e1.order)
  }

  /** One step of the second loop. */
  function AddSeasonRow(e: Entries, row: SeasonEntry): Entries {
    var id := row.row.playerId;
    var e1 := if id in e.byId then e
              else Entries(e.byId[id := Blank(id, SeasonName(row.player), SeasonAvatar(row.player))], e.order + [id]);
    Entries(e1.byId[id := CountSeasonRow(e1.byId[id], row)], e1.order)
  }

  /** The map after the first loop over `rows`. */
  function SessionTallies(rows: seq<SessionEntry>): Entries {
    if rows == [] then Entries(map[], [])
    else AddSessionRow(SessionTallies(rows[..|rows| - 1]), rows[|rows| - 1])
  }

  /** The map after the second loop over `rows`, starting from `e`. */
  function SeasonTallies(e: Entries, rows: seq<SeasonEntry>): Entries {
    if rows == [] then e
    else AddSeasonRow(SeasonTallies(e, rows[..|rows| - 1]), rows[|rows| - 1])
  }

  // The reference counts each entry is proved to hold.

  function RowsOf(id: Id): SessionEntry -> bool {
    (e: SessionEntry) => e.player.id == id
  }

  function RowsTagged(id: Id, tag: string): SessionEntry -> bool {
    (e: SessionEntry) => e.player.id == id && e.member.status == tag
  }

  function SeasonRowsOf(id: Id): SeasonEntry -> bool {
    (e: SeasonEntry) => e.row.playerId == id
  }

  function SeasonRowsTagged(id: Id, tag: string): SeasonEntry -> bool {
    (e: SeasonEntry) => e.row.playerId == id && e.row.status == tag
  }

  lemma AddSessionRowFacts(e: Entries, row: SessionEntry, id: Id)
    requires WellFormed(e)
    ensures WellFormed(AddSessionRow(e, row))
    ensures id in AddSessionRow(e, row).byId <==> id in e.byId || row.player.id == id
    ensures id in e.byId ==> SameIdentity(AddSessionRow(e, row).byId[id], e.byId[id])
    ensures var before, after := Lookup(e, id), Lookup(AddSessionRow(e, row), id);
            if row.player.id != id then after == before
            else (after.totalJogatinas == before.totalJogatinas + 1
              && after.dropos == before.dropos + (if row.member.status == Dropo then 1 else 0)
              && after.zeros == before.zeros + (if row.member.status == Zero then 1 else 0)
              && after.davaPraJogar == before.davaPraJogar + (if row.member.status == DavaPraJogar then 1 else 0)
              && after.emAndamento == before.emAndamento)
  {
  }

  /** After the first loop, a player has an entry exactly when some row is
      theirs, and the entry counts their rows and their rows of each status. */
  lemma {:induction false} SessionTalliesCount(rows: seq<SessionEntry>, id: Id)
    ensures WellFormed(SessionTallies(rows))
    ensures id in SessionTallies(rows).byId <==> CountWhere(rows, RowsOf(id)) > 0
    ensures var s := Lookup(SessionTallies(rows), id);
            s.totalJogatinas == CountWhere(rows, RowsOf(id))
            && s.dropos == CountWhere(rows, RowsTagged(id, Dropo))
            && s.zeros == CountWhere(rows, RowsTagged(id, Zero))
            && s.davaPraJogar == CountWhere(rows, RowsTagged(id, DavaPraJogar))
            && s.emAndamento == 0
  {
    if rows != [] {
      var init, last := rows[..|rows| - 1], rows[|rows| - 1];
      SessionTalliesCount(init, id);
      AddSessionRowFacts(SessionTallies(init), last, id);
    }
  }

  /** An entry made by the first loop carries the name and avatar of the
      player's first row. */
  lemma {:induction false} SessionTalliesName(rows: seq<SessionEntry>, id: Id, k: nat)
    requires FirstFrom(rows, RowsOf(id), 0) == Some(k)
    ensures id in SessionTallies(rows).byId
    ensures SessionTallies(rows).byId[id].playerName == rows[k].player.name
    ensures SessionTallies(rows).byId[id].avatarUrl == rows[k].player.avatarUrl
  {
    SessionTalliesCount(rows, id);
    CountPositive(rows, RowsOf(id), k);
    var init, last := rows[..|rows| - 1], rows[|rows| - 1];
    if k < |init| {
      var f := FirstFrom(init, RowsOf(id), 0);
      assert RowsOf(id)(init[k]);
      assert f == Some(k);
      SessionTalliesName(init, id, k);
      SessionTalliesCount(init, id);
      AddSessionRowFacts(SessionTallies(init), last, id);
    } else {
      NoneMeansCountZero(init, RowsOf(id));
      SessionTalliesCount(init, id);
    }
  }

  lemma AddSeasonRowFacts(e: Entries, row: SeasonEntry, id: Id)
    requires WellFormed(e)
    ensures WellFormed(AddSeasonRow(e, row))
    ensures id in AddSeasonRow(e, row).byId <==> id in e.byId || row.row.playerId == id
    ensures id in e.byId ==> SameIdentity(AddSeasonRow(e, row).byId[id], e.byId[id])
    ensures var before, after := Lookup(e, id), Lookup(AddSeasonRow(e, row), id);
            if row.row.playerId != id then after == before
            else (after.totalJogatinas == before.totalJogatinas + PositiveSessions(row)
              && after.dropos == before.dropos + (if row.row.status == Dropo then 1 else 0)
              && after.zeros == before.zeros + (if row.row.status == Zero then 1 else 0)
              && after.davaPraJogar == before.davaPraJogar + (if row.row.status == DavaPraJogar then 1 else 0)
              && after.emAndamento == before.emAndamento + (if row.row.status == EmAndamento then 1 else 0))
  {
  }

  /** The second loop keeps every entry the first one made and creates one
      for each further player with a participant row; each entry gains the
      positive session counts and the statuses of that player's rows. */
  lemma {:induction false} SeasonTalliesCount(e: Entries, rows: seq<SeasonEntry>, id: Id)
    requires WellFormed(e)
    ensures WellFormed(SeasonTallies(e, rows))
    ensures id in SeasonTallies(e, rows).byId <==> id in e.byId || CountWhere(rows, SeasonRowsOf(id)) > 0
    ensures id in e.byId ==> SameIdentity(SeasonTallies(e, rows).byId[id], e.byId[id])
    ensures var before, s := Lookup(e, id), Lookup(SeasonTallies(e, rows), id);
            s.totalJogatinas == before.totalJogatinas + SumWhere(rows, SeasonRowsOf(id), PositiveSessions)
            && s.dropos == before.dropos + CountWhere(rows, SeasonRowsTagged(id, Dropo))
            && s.zeros == before.zeros + CountWhere(rows, SeasonRowsTagged(id, Zero))
            && s.davaPraJogar == before.davaPraJogar + CountWhere(rows, SeasonRowsTagged(id, DavaPraJogar))
            && s.emAndamento == before.emAndamento + CountWhere(rows, SeasonRowsTagged(id, EmAndamento))
  {
    if rows != [] {
      var init, last := rows[..|rows| - 1], rows[|rows| - 1];
      SeasonTalliesCount(e, init, id);
      AddSeasonRowFacts(SeasonTallies(e, init), last, id);
    }
  }

  /** An entry first made by the second loop carries the name and avatar
      that player's first participant row introduces. */
  lemma {:induction false} SeasonTalliesName(e: Entries, rows: seq<SeasonEntry>, id: Id, k: nat)
    requires WellFormed(e) && id !in e.byId
    requires FirstFrom(rows, SeasonRowsOf(id), 0) == Some(k)
    ensures id in SeasonTallies(e, rows).byId
    ensures SeasonTallies(e, rows).byId[id].playerName == SeasonName(rows[k].player)
    ensures SeasonTallies(e, rows).byId[id].avatarUrl == SeasonAvatar(rows[k].player)
  {
    SeasonTalliesCount(e, rows, id);
    CountPositive(rows, SeasonRowsOf(id), k);
    var init, last := rows[..|rows| - 1], rows[|rows| - 1];
    if k < |init| {
      assert SeasonRowsOf(id)(init[k]);
      assert FirstFrom(init, SeasonRowsOf(id), 0) == Some(k);
      SeasonTalliesName(e, init, id, k);
      SeasonTalliesCount(e, init, id);
      AddSeasonRowFacts(SeasonTallies(e, init), last, id);
    } else {
      NoneMeansCountZero(init, SeasonRowsOf(id));
      SeasonTalliesCount(e, init, id);
    }
  }

  // ---- Ordering the result -------------------------------------------------

  ghost predicate DroposNonIncreasing(s: seq<PlayerStats>) {
    forall a, b :: 0 <= a < b < |s| ==> s[a].dropos >= s[b].dropos
  }

  ghost predicate DistinctPlayers(s: seq<PlayerStats>) {
    forall a, b :: 0 <= a < b < |s| ==> s[a].playerId != s[b].playerId
  }

  /** Inserts `x` after every element with at least as many dropos. */
  function InsertByDropos(sorted: seq<PlayerStats>, x: PlayerStats): (r: seq<PlayerStats>)
    ensures |r| == |sorted| + 1
    ensures multiset(r) == multiset(sorted) + multiset{x}
  {
    if sorted == [] || sorted[|sorted| - 1].dropos >= x.dropos then
      sorted + [x]
    else
      assert sorted == sorted[..|sorted| - 1] + [sorted[|sorted| - 1]];
      InsertByDropos(sorted[..|sorted| - 1], x) + [sorted[|sorted| - 1]]
  }

  lemma {:induction false} InsertByDroposKeepsOrder(sorted: seq<PlayerStats>, x: PlayerStats)
    requires DroposNonIncreasing(sorted)
    ensures DroposNonIncreasing(InsertByDropos(sorted, x))
  {
    if sorted != [] && sorted[|sorted| - 1].dropos < x.dropos {
      var init, last := sorted[..|sorted| - 1], sorted[|sorted| - 1];
      InsertByDroposKeepsOrder(init, x);
      var r0 := InsertByDropos(init, x);
      forall i | 0 <= i < |r0|
        ensures r0[i].dropos >= last.dropos
      {
        assert r0[i] in multiset(init) + multiset{x};
        if r0[i] != x {
          var j :| 0 <= j < |init| && init[j] == r0[i];
          assert sorted[j] == r0[i];
        }
      }
    }
  }

  lemma {:induction false} InsertByDroposKeepsDistinct(sorted: seq<PlayerStats>, x: PlayerStats)
    requires DistinctPlayers(sorted)
    requires forall i :: 0 <= i < |sorted| ==> sorted[i].playerId != x.playerId
    ensures DistinctPlayers(InsertByDropos(sorted, x))
  {
    if sorted != [] && sorted[|sorted| - 1].dropos < x.dropos {
      var init, last := sorted[..|sorted| - 1], sorted[|sorted| - 1];
      InsertByDroposKeepsDistinct(init, x);
      var r0 := InsertByDropos(init, x);
      forall i | 0 <= i < |r0|
        ensures r0[i].playerId != last.playerId
      {
        assert r0[i] in multiset(init) + multiset{x};
        if r0[i] != x {
          var j :| 0 <= j < |init| && init[j] == r0[i];
          assert sorted[j] == r0[i];
        }
      }
    }
  }

  /** The rows by dropos, most first, rows with equal dropos keeping their
      order (the stable `sort((a, b) => b.dropos - a.dropos)`). */
  function SortByDropos(s: seq<PlayerStats>): (r: seq<PlayerStats>)
    ensures |r| == |s|
    ensures multiset(r) == multiset(s)
    ensures DroposNonIncreasing(r)
  {
    if s == [] then []
    else
      assert s == s[..|s| - 1] + [s[|s| - 1]];
      InsertByDroposKeepsOrder(SortByDropos(s[..|s| - 1]), s[|s| - 1]);
      InsertByDropos(SortByDropos(s[..|s| - 1]), s[|s| - 1])
  }

  /** Sorting rows that name each player once keeps them naming each player once. */
  lemma {:induction false} SortKeepsDistinct(s: seq<PlayerStats>)
    requires DistinctPlayers(s)
    ensures DistinctPlayers(SortByDropos(s))
  {
    if s != [] {
      var init, last := s[..|s| - 1], s[|s| - 1];
      SortKeepsDistinct(init);
      var sorted := SortByDropos(init);
      forall i | 0 <= i < |sorted|
        ensures sorted[i].playerId != last.playerId
      {
        assert sorted[i] in multiset(init);
        var j :| 0 <= j < |init| && init[j] == sorted[i];
        assert s[j] == sorted[i];
      }
      InsertByDroposKeepsDistinct(sorted, last);
    }
  }

  /** The map's entries in insertion order (`Array.from(playerMap.values())`). */
  function Values(e: Entries): (r: seq<PlayerStats>)
    ensures |r| == |e.order|
    ensures forall i :: 0 <= i < |r| ==> r[i] == Lookup(e, e.order[i])
  {
    seq(|e.order|, i requires 0 <= i < |e.order| => Lookup(e, e.order[i]))
  }

  lemma ValuesDistinct(e: Entries)
    requires WellFormed(e)
    ensures DistinctPlayers(Values(e))
  {
  }

  /** What one player's line must hold: a session per season-less
      membership plus each participant row's positive session count, and
      per status the rows of both sources carrying it ("Em andamento" only
      from participant rows). */
  ghost predicate MatchesReference(s: PlayerStats, sessions: seq<SessionEntry>, participants: seq<SeasonEntry>) {
    var id := s.playerId;
    s.totalJogatinas == CountWhere(sessions, RowsOf(id)) + SumWhere(participants, SeasonRowsOf(id), PositiveSessions)
    && s.dropos == CountWhere(sessions, RowsTagged(id, Dropo)) + CountWhere(participants, SeasonRowsTagged(id, Dropo))
    && s.zeros == CountWhere(sessions, RowsTagged(id, Zero)) + CountWhere(participants, SeasonRowsTagged(id, Zero))
    && s.davaPraJogar == CountWhere(sessions, RowsTagged(id, DavaPraJogar))
                         + CountWhere(participants, SeasonRowsTagged(id, DavaPraJogar))
    && s.emAndamento == CountWhere(participants, SeasonRowsTagged(id, EmAndamento))
  }

  /** A player is mentioned when a season-less membership or a participant row is theirs. */
  ghost predicate Mentioned(id: Id, sessions: seq<SessionEntry>, participants: seq<SeasonEntry>) {
    CountWhere(sessions, RowsOf(id)) > 0 || CountWhere(participants, SeasonRowsOf(id)) > 0
  }

  /** Every entry of the gathered map holds its reference counts, and the
      map has an entry exactly for the mentioned players. */
  lemma TalliesMatchReference(sessions: seq<SessionEntry>, participants: seq<SeasonEntry>, id: Id)
    ensures WellFormed(SeasonTallies(SessionTallies(sessions), participants))
    ensures id in SeasonTallies(SessionTallies(sessions), participants).byId <==> Mentioned(id, sessions, participants)
    ensures id in SeasonTallies(SessionTallies(sessions), participants).byId ==>
              MatchesReference(SeasonTallies(SessionTallies(sessions), participants).byId[id], sessions, participants)
  {
    SessionTalliesCount(sessions, id);
    SeasonTalliesCount(SessionTallies(sessions), participants, id);
  }

  /** The statistics as a value: the gathered entries in insertion
      order, sorted by dropos with the most first. */
  function PlayerStatsOf(sessions: seq<SessionEntry>, participants: seq<SeasonEntry>): (r: seq<PlayerStats>)
    ensures DroposNonIncreasing(r)
  {
    SortByDropos(Values(SeasonTallies(SessionTallies(sessions), participants)))
  }

  /** Each player has at most one line. */
  lemma PlayerStatsDistinct(sessions: seq<SessionEntry>, participants: seq<SeasonEntry>)
    ensures DistinctPlayers(PlayerStatsOf(sessions, participants))
  {
    var tallies := SeasonTallies(SessionTallies(sessions), participants);
    TalliesMatchReference(sessions, participants, 0);
    ValuesDistinct(tallies);
    SortKeepsDistinct(Values(tallies));
  }

  /** Every line holds its player's reference counts. */
  lemma PlayerStatsMatchReference(sessions: seq<SessionEntry>, participants: seq<SeasonEntry>)
    ensures forall i :: 0 <= i < |PlayerStatsOf(sessions, participants)| ==>
              MatchesReference(PlayerStatsOf(sessions, participants)[i], sessions, participants)
  {
    var tallies := SeasonTallies(SessionTallies(sessions), participants);
    var values := Values(tallies);
    var stats := PlayerStatsOf(sessions, participants);
    forall i | 0 <= i < |stats|
      ensures MatchesReference(stats[i], sessions, participants)
    {
      assert stats[i] in multiset(values);
      var j :| 0 <= j < |values| && values[j] == stats[i];
      TalliesMatchReference(sessions, participants, tallies.order[j]);
    }
  }

  /** A player has a line exactly when they are mentioned. */
  lemma PlayerStatsCoverMentioned(sessions: seq<SessionEntry>, participants: seq<SeasonEntry>, id: Id)
    ensures Mentioned(id, sessions, participants) <==>
            exists i :: 0 <= i < |PlayerStatsOf(sessions, participants)| && PlayerStatsOf(sessions, participants)[i].playerId == id
  {
    var tallies := SeasonTallies(SessionTallies(sessions), participants);
    var values := Values(tallies);
    var stats := PlayerStatsOf(sessions, participants);
    TalliesMatchReference(sessions, participants, id);
    if id in tallies.byId {
      var j :| 0 <= j < |tallies.order| && tallies.order[j] == id;
      assert values[j] in multiset(stats);
    }
    if exists i :: 0 <= i < |stats| && stats[i].playerId == id {
      var i :| 0 <= i < |stats| && stats[i].playerId == id;
      assert stats[i] in multiset(values);
      var j :| 0 <= j < |values| && values[j] == stats[i];
      TalliesMatchReference(sessions, participants, tallies.order[j]);
    }
  }

  /** The first loop: an entry per player, counting their season-less memberships. */
  method TallySessionRows(rows: seq<SessionEntry>) returns (tallies: Entries)
    ensures tallies == SessionTallies(rows)
  {
    tallies := Entries(map[], []);
    for i := 0 to |rows|
      invariant tallies == SessionTallies(rows[..i])
    {
      assert rows[..i + 1][..i] == rows[..i];
      var row := rows[i];
      var id := row.player.id;
      if id !in tallies.byId {
        tallies := Entries(tallies.byId[id := Blank(id, row.player.name, row.player.avatarUrl)], tallies.order + [id]);
      }
      tallies := tallies.(byId := tallies.byId[id := CountSessionRow(tallies.byId[id], row.member.status)]);
    }
    assert rows[..|rows|] == rows;
  }

  /** The second loop: participant rows added to the entries of the first. */
  method TallySeasonRows(start: Entries, rows: seq<SeasonEntry>) returns (tallies: Entries)
    ensures tallies == SeasonTallies(start, rows)
  {
    tallies := start;
    for i := 0 to |rows|
      invariant tallies == SeasonTallies(start, rows[..i])
    {
      assert rows[..i + 1][..i] == rows[..i];
      var row := rows[i];
      var id := row.row.playerId;
      if id !in tallies.byId {
        tallies := Entries(tallies.byId[id := Blank(id, SeasonName(row.player), SeasonAvatar(row.player))], tallies.order + [id]);
      }
      tallies := tallies.(byId := tallies.byId[id := CountSeasonRow(tallies.byId[id], row)]);
    }
    assert rows[..|rows|] == rows;
  }

  /** Per-player statistics over the season-less memberships and the
      participant rows, sorted by dropos with the most first. */
  method CalculatePlayerStats(entries: seq<SessionEntry>, participants: seq<SeasonEntry>) returns (stats: seq<PlayerStats>)
    ensures stats == PlayerStatsOf(Filter(entries, NoSeason()), participants)
    ensures DroposNonIncreasing(stats) && DistinctPlayers(stats)
    ensures forall i :: 0 <= i < |stats| ==> MatchesReference(stats[i], Filter(entries, NoSeason()), participants)
  {
    var _, withoutSeason := GroupByStatusSource(entries);
    var tallies := TallySessionRows(withoutSeason);
    tallies := TallySeasonRows(tallies, participants);
    stats := SortByDropos(Values(tallies));
    PlayerStatsDistinct(withoutSeason, participants);
    PlayerStatsMatchReference(withoutSeason, participants);
  }

  // ---- The status of one membership ----------------------------------------

  /** The status that counts for a membership: in a season session, the
      first matching participant's status ("Em andamento" when there is
      none or it is empty); otherwise the membership's own status. */
  function StatusForJogatina(e: SessionEntry, participants: seq<ParticipantRow>): (r: string)
    ensures e.seasonId.None? ==> r == e.member.status
    ensures e.seasonId.Some? ==>
              (forall k :: 0 <= k < |participants| ==> !ParticipantOf(e.seasonId.value, e.member.playerId)(participants[k]))
              ==> r == EmAndamento
    ensures e.seasonId.Some? && r != EmAndamento ==>
              exists k :: 0 <= k < |participants| && ParticipantOf(e.seasonId.value, e.member.playerId)(participants[k])
                && r == participants[k].status
                && forall c :: 0 <= c < k ==> !ParticipantOf(e.seasonId.value, e.member.playerId)(participants[c])
    ensures e.seasonId.Some? ==>
              forall k :: 0 <= k < |participants| && ParticipantOf(e.seasonId.value, e.member.playerId)(participants[k])
                          && (forall c :: 0 <= c < k ==> !ParticipantOf(e.seasonId.value, e.member.playerId)(participants[c]))
                          ==> r == (if participants[k].status != "" then participants[k].status else EmAndamento)
  {
    if e.seasonId.Some? then
      match FirstFrom(participants, ParticipantOf(e.seasonId.value, e.member.playerId), 0)
      case Some(k) => if participants[k].status != "" then participants[k].status else EmAndamento
      case None => EmAndamento
    else
      e.member.status
  }

  /** With a single participant row for the season and player, its
      (non-empty) status is the one that counts. */
  lemma UniqueParticipantDecides(e: SessionEntry, participants: seq<ParticipantRow>)
    requires e.seasonId.Some?
    requires Single(participants, ParticipantOf(e.seasonId.value, e.member.playerId)).Some?
    ensures var k := Single(participants, ParticipantOf(e.seasonId.value, e.member.playerId)).value;
            participants[k].status != "" ==> StatusForJogatina(e, participants) == participants[k].status
  {
  }
}
