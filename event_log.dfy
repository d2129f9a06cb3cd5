/** Duration reconstruction (`calculatePlayerDurations`): replaying a
    session's timestamp-ordered join/leave log to obtain, per player, the
    milliseconds played in total, alone and with others, rounded to minutes
    once at the end. The log is the only input: memberships only say which
    players to write to. */
module EventLog {
  import opened Common
  import opened Tables

  const MinuteMillis: int := 60000

  // ---- The order the log is read in ----------------------------------------

  ghost predicate SortedByTime(s: seq<EventRow>) {
    forall a, b :: 0 <= a < b < |s| ==> s[a].timestamp <= s[b].timestamp
  }

  /** Inserts `e` after every element whose timestamp is not later than its own. */
  function InsertByTime(sorted: seq<EventRow>, e: EventRow): (r: seq<EventRow>)
    ensures |r| == |sorted| + 1
    ensures multiset(r) == multiset(sorted) + multiset{e}
  {
    if sorted == [] || sorted[|sorted| - 1].timestamp <= e.timestamp then
      sorted + [e]
    else
      assert sorted == sorted[..|sorted| - 1] + [sorted[|sorted| - 1]];
      InsertByTime(sorted[..|sorted| - 1], e) + [sorted[|sorted| - 1]]
  }

  lemma {:induction false} InsertKeepsOrder(sorted: seq<EventRow>, e: EventRow)
    requires SortedByTime(sorted)
    ensures SortedByTime(InsertByTime(sorted, e))
  {
    if sorted != [] && sorted[|sorted| - 1].timestamp > e.timestamp {
      var init := sorted[..|sorted| - 1];
      var last := sorted[|sorted| - 1];
      InsertKeepsOrder(init, e);
      var r0 := InsertByTime(init, e);
      forall i | 0 <= i < |r0|
        ensures r0[i].timestamp <= last.timestamp
      {
        assert r0[i] in multiset(init) + multiset{e};
        if r0[i] != e {
          assert r0[i] in init;
          var j :| 0 <= j < |init| && init[j] == r0[i];
          assert sorted[j] == r0[i];
        }
      }
    }
  }

  /** The rows in ascending timestamp order, rows with equal timestamps
      keeping their table order (`.order("timestamp", { ascending: true })`). */
  function SortByTime(s: seq<EventRow>): (r: seq<EventRow>)
    ensures |r| == |s|
    ensures multiset(r) == multiset(s)
    ensures SortedByTime(r)
  {
    if s == [] then []
    else
      assert s == s[..|s| - 1] + [s[|s| - 1]];
      InsertKeepsOrder(SortByTime(s[..|s| - 1]), s[|s| - 1]);
      InsertByTime(SortByTime(s[..|s| - 1]), s[|s| - 1])
  }

  /** The log of one session as the reconstruction reads it. */
  function SessionLog(events: seq<EventRow>, jogatinaId: Id): (log: seq<EventRow>)
    ensures SortedByTime(log)
    ensures multiset(log) == multiset(Filter(events, EventOfSession(jogatinaId)))
  {
    SortByTime(Filter(events, EventOfSession(jogatinaId)))
  }

  // ---- Pairing a player's joins with leaves -------------------------------

  function ByPlayer(playerId: Id): EventRow -> bool {
    (e: EventRow) => e.playerId == playerId
  }

  function IsLeave(): EventRow -> bool {
    (e: EventRow) => e.kind == PlayerLeft
  }

  /** One player's events, in log order. */
  function PlayerEvents(log: seq<EventRow>, playerId: Id): (r: seq<EventRow>)
    ensures |r| == CountWhere(log, ByPlayer(playerId))
    ensures forall i :: 0 <= i < |r| ==> r[i].playerId == playerId
  {
    Filter(log, ByPlayer(playerId))
  }

  /** A filter of a time-ordered log is time-ordered. */
  lemma {:induction false} FilterKeepsOrder(s: seq<EventRow>, p: EventRow -> bool)
    requires SortedByTime(s)
    ensures SortedByTime(Filter(s, p))
  {
    if s != [] {
      var init := s[..|s| - 1];
      var last := s[|s| - 1];
      FilterKeepsOrder(init, p);
      FilterMembers(init, p);
      var f := Filter(init, p);
      forall i | 0 <= i < |f|
        ensures f[i].timestamp <= last.timestamp
      {
        var j :| 0 <= j < |init| && init[j] == f[i];
        assert s[j] == f[i];
      }
    }
  }

  /** The interval opened by the event at `i`: a join paired with the first
      leave that follows it in the player's events. Nothing for a leave, and
      nothing for a join no leave follows (a dangling join). */
  function IntervalAt(playerEvents: seq<EventRow>, i: nat): (r: Option<(Millis, Millis)>)
    requires i < |playerEvents|
    ensures r.Some? ==> playerEvents[i].kind == PlayerJoined && r.value.0 == playerEvents[i].timestamp
    ensures r.Some? ==> exists b :: i < b < |playerEvents| && playerEvents[b].kind == PlayerLeft
                                  && r.value.1 == playerEvents[b].timestamp
                                  && forall c :: i < c < b ==> playerEvents[c].kind == PlayerJoined
    ensures r.None? <==> (playerEvents[i].kind == PlayerLeft
                          || forall c :: i < c < |playerEvents| ==> playerEvents[c].kind == PlayerJoined)
  {
    if playerEvents[i].kind == PlayerLeft then None
    else
      match FirstFrom(playerEvents, IsLeave(), i + 1)
      case None => None
      case Some(b) => Some((playerEvents[i].timestamp, playerEvents[b].timestamp))
  }

  // ---- The group test -------------------------------------------------------

  function LeaveOfAtOrAfter(playerId: Id, t: Millis): (p: EventRow -> bool)
    ensures forall e :: p(e) ==> e.playerId == playerId && e.kind == PlayerLeft && t <= e.timestamp
    ensures forall e: EventRow | e.playerId == playerId && e.kind == PlayerLeft :: p(e) <==> t <= e.timestamp
  {
    (e: EventRow) => e.playerId == playerId && e.kind == PlayerLeft && e.timestamp >= t
  }

  /** The source's test for one log entry `e` against the interval
      [joinTime, leaveTime] of `playerId`: `e` is another player's join no
      later than `leaveTime`, and that player's first leave at or after
      `joinTime` (searched over the whole log) is missing or strictly after
      `joinTime`. */
  predicate OtherStillActive(log: seq<EventRow>, playerId: Id, joinTime: Millis, leaveTime: Millis, e: EventRow) {
    && e.playerId != playerId
    && e.kind == PlayerJoined
    && e.timestamp <= leaveTime
    && match FirstFrom(log, LeaveOfAtOrAfter(e.playerId, joinTime), 0)
       case None => true
       case Some(b) => log[b].timestamp > joinTime
  }

  /** `otherActivePlayers`: the log entries passing the test. */
  function OtherActivePlayers(log: seq<EventRow>, playerId: Id, joinTime: Millis, leaveTime: Millis): seq<EventRow> {
    Filter(log, (e: EventRow) => OtherStillActive(log, playerId, joinTime, leaveTime, e))
  }

  predicate IsGroupInterval(log: seq<EventRow>, playerId: Id, joinTime: Millis, leaveTime: Millis) {
    |OtherActivePlayers(log, playerId, joinTime, leaveTime)| > 0
  }

  /** An interval is group time exactly when some log entry passes the test. */
  lemma GroupIffWitness(log: seq<EventRow>, playerId: Id, joinTime: Millis, leaveTime: Millis)
    ensures IsGroupInterval(log, playerId, joinTime, leaveTime)
        <==> exists k :: 0 <= k < |log| && OtherStillActive(log, playerId, joinTime, leaveTime, log[k])
  {
    var f := OtherActivePlayers(log, playerId, joinTime, leaveTime);
    FilterMembers(log, (e: EventRow) => OtherStillActive(log, playerId, joinTime, leaveTime, e));
    if |f| > 0 {
      assert f[0] in log;
    }
  }

  // ---- Accumulating --------------------------------------------------------

  /** Milliseconds accumulated in total, alone and with others. */
  datatype Tally = Tally(total: int, solo: int, group: int)

  /** The accumulators after the loop over a player's events has seen `n` of them. */
  function TallyUpTo(log: seq<EventRow>, playerId: Id, playerEvents: seq<EventRow>, n: nat): Tally
    requires n <= |playerEvents|
  {
    if n == 0 then Tally(0, 0, 0)
    else
      var t := TallyUpTo(log, playerId, playerEvents, n - 1);
      match IntervalAt(playerEvents, n - 1)
      case None => t
      case Some((joinTime, leaveTime)) =>
        var d := leaveTime - joinTime;
        if IsGroupInterval(log, playerId, joinTime, leaveTime) then Tally(t.total + d, t.solo, t.group + d)
        else Tally(t.total + d, t.solo + d, t.group)
  }

  function PlayerTally(log: seq<EventRow>, playerId: Id): Tally {
    var pe := PlayerEvents(log, playerId);
    TallyUpTo(log, playerId, pe, |pe|)
  }

  /** The inner loop of `calculatePlayerDurations` for one player. */
  method ComputePlayerTally(log: seq<EventRow>, playerId: Id) returns (t: Tally)
    ensures t == PlayerTally(log, playerId)
  {
    var playerEvents := PlayerEvents(log, playerId);
    var totalTime, soloTime, groupTime := 0, 0, 0;
    for i := 0 to |playerEvents|
      invariant Tally(totalTime, soloTime, groupTime) == TallyUpTo(log, playerId, playerEvents, i)
    {
      var event := playerEvents[i];
      if event.kind == PlayerJoined {
        var nextLeave := FirstFrom(playerEvents, IsLeave(), i + 1);
        if nextLeave.Some? {
          var joinTime := event.timestamp;
          var leaveTime := playerEvents[nextLeave.value].timestamp;
          var sessionDuration := leaveTime - joinTime;
          totalTime := totalTime + sessionDuration;
          if IsGroupInterval(log, playerId, joinTime, leaveTime) {
            groupTime := groupTime + sessionDuration;
          } else {
            soloTime := soloTime + sessionDuration;
          }
        }
      }
    }
    t := Tally(totalTime, soloTime, groupTime);
  }

  /** Every interval goes wholly to one side: the total is solo plus group. */
  lemma {:induction false} TallySplits(log: seq<EventRow>, playerId: Id, playerEvents: seq<EventRow>, n: nat)
    requires n <= |playerEvents|
    ensures var t := TallyUpTo(log, playerId, playerEvents, n); t.total == t.solo + t.group
  {
    if n > 0 {
      TallySplits(log, playerId, playerEvents, n - 1);
    }
  }

  /** Over a time-ordered event list no interval is negative, so none of the three sums is. */
  lemma {:induction false} TallyNonNegative(log: seq<EventRow>, playerId: Id, playerEvents: seq<EventRow>, n: nat)
    requires n <= |playerEvents|
    requires SortedByTime(playerEvents)
    ensures var t := TallyUpTo(log, playerId, playerEvents, n); t.total >= 0 && t.solo >= 0 && t.group >= 0
  {
    if n > 0 {
      TallyNonNegative(log, playerId, playerEvents, n - 1);
      var iv := IntervalAt(playerEvents, n - 1);
      if iv.Some? {
        var b :| n - 1 < b < |playerEvents| && playerEvents[b].kind == PlayerLeft
                 && iv.value.1 == playerEvents[b].timestamp
                 && forall c :: n - 1 < c < b ==> playerEvents[c].kind == PlayerJoined;
        assert iv.value.0 <= iv.value.1;
      }
    }
  }

  /** A player's three sums from a session's log: solo and group add up to
      the total and none is negative. */
  lemma PlayerTallyFacts(events: seq<EventRow>, jogatinaId: Id, playerId: Id)
    ensures var t := PlayerTally(SessionLog(events, jogatinaId), playerId);
            t.total == t.solo + t.group && t.total >= 0 && t.solo >= 0 && t.group >= 0
  {
    var log := SessionLog(events, jogatinaId);
    var pe := PlayerEvents(log, playerId);
    FilterKeepsOrder(log, ByPlayer(playerId));
    TallySplits(log, playerId, pe, |pe|);
    TallyNonNegative(log, playerId, pe, |pe|);
  }

  // ---- Minutes ---------------------------------------------------------------

  /** `Math.round(ms / 60000)`: the nearest whole minute, halves rounded up. */
  function RoundMinutes(ms: int): (m: int)
    ensures MinuteMillis * m - 30000 <= ms < MinuteMillis * m + 30000
  {
    (ms + 30000) / MinuteMillis
  }

  /** `Math.floor(ms / 60000)`: the whole minutes elapsed. */
  function FloorMinutes(ms: int): (m: int)
    ensures MinuteMillis * m <= ms < MinuteMillis * m + MinuteMillis
  {
    ms / MinuteMillis
  }

  /** Rounding is applied to the three final sums separately, so the stored
      total can differ from stored solo plus stored group by one minute
      either way, never by more. */
  lemma RoundedTotalNearSum(solo: int, group: int)
    ensures -1 <= RoundMinutes(solo + group) - (RoundMinutes(solo) + RoundMinutes(group)) <= 1
  {
  }

  /** Both one-minute discrepancies occur. */
  lemma RoundedTotalCanDiffer()
    ensures RoundMinutes(30000 + 30000) == RoundMinutes(30000) + RoundMinutes(30000) - 1
    ensures RoundMinutes(29999 + 29999) == RoundMinutes(29999) + RoundMinutes(29999) + 1
  {
  }

  // ---- Writing the results ---------------------------------------------------

  /** The membership row after the reconstruction: rows of the session whose
      player has at least one event get the three rounded sums; every other
      row is left as it was. */
  function WithDurations(m: MemberRow, log: seq<EventRow>, jogatinaId: Id): MemberRow {
    if m.jogatinaId == jogatinaId && |PlayerEvents(log, m.playerId)| > 0 then
      var t := PlayerTally(log, m.playerId);
      m.(soloMinutes := Some(RoundMinutes(t.solo)),
         groupMinutes := Some(RoundMinutes(t.group)),
         totalMinutes := Some(RoundMinutes(t.total)))
    else
      m
  }

  function RecomputeDurations(members: seq<MemberRow>, log: seq<EventRow>, jogatinaId: Id): (r: seq<MemberRow>)
    ensures |r| == |members|
  {
    seq(|members|, k requires 0 <= k < |members| => WithDurations(members[k], log, jogatinaId))
  }

  /** The reconstruction reads only the log and the rows' session and player
      ids, so running it again on its own output changes nothing. */
  lemma RecomputeIdempotent(members: seq<MemberRow>, log: seq<EventRow>, jogatinaId: Id)
    ensures RecomputeDurations(RecomputeDurations(members, log, jogatinaId), log, jogatinaId)
         == RecomputeDurations(members, log, jogatinaId)
  {
  }

  /** Only duration columns change: ids, players, statuses and active flags stay. */
  lemma RecomputeKeepsIdentity(members: seq<MemberRow>, log: seq<EventRow>, jogatinaId: Id, k: nat)
    requires k < |members|
    ensures var r := RecomputeDurations(members, log, jogatinaId)[k];
            r.id == members[k].id && r.jogatinaId == members[k].jogatinaId
            && r.playerId == members[k].playerId && r.status == members[k].status
            && r.isActive == members[k].isActive
  {
  }

  // ---- The code as written, on small logs ------------------------------------

  /** Two joins before one leave both pair with that leave: a player present
      for three minutes is credited with five. */
  lemma DoubleJoinCountedTwice()
    ensures var log := [EventRow(10, 0, 1, PlayerJoined, 0),
                        EventRow(11, 0, 1, PlayerJoined, 60000),
                        EventRow(12, 0, 1, PlayerLeft, 180000)];
            PlayerTally(log, 1) == Tally(300000, 300000, 0)
  {
    var log := [EventRow(10, 0, 1, PlayerJoined, 0),
                EventRow(11, 0, 1, PlayerJoined, 60000),
                EventRow(12, 0, 1, PlayerLeft, 180000)];
    var pe := PlayerEvents(log, 1);
    assert Filter(log[..1], ByPlayer(1)) == [log[0]];
    assert log == log[..1] + [log[1]] + [log[2]];
    FilterAppend(log[..1], log[1], ByPlayer(1));
    FilterAppend(log[..1] + [log[1]], log[2], ByPlayer(1));
    assert pe == log;
    assert IntervalAt(log, 0) == Some((0, 180000));
    assert IntervalAt(log, 1) == Some((60000, 180000));
    assert IntervalAt(log, 2) == None;
    NoneMeansCountZero(log, (e: EventRow) => OtherStillActive(log, 1, 0, 180000, e));
    NoneMeansCountZero(log, (e: EventRow) => OtherStillActive(log, 1, 60000, 180000, e));
    assert TallyUpTo(log, 1, log, 1) == Tally(180000, 180000, 0);
    assert TallyUpTo(log, 1, log, 2) == Tally(300000, 300000, 0);
  }

  /** The group test ignores when the other player left: a player whose every
      event precedes this interval still makes it group time. */
  lemma PastPlayerCountsAsGroup()
    ensures var log := [EventRow(10, 0, 2, PlayerJoined, 0),
                        EventRow(11, 0, 2, PlayerLeft, 300000),
                        EventRow(12, 0, 1, PlayerJoined, 600000),
                        EventRow(13, 0, 1, PlayerLeft, 1200000)];
            PlayerTally(log, 1) == Tally(600000, 0, 600000)
  {
    var log := [EventRow(10, 0, 2, PlayerJoined, 0),
                EventRow(11, 0, 2, PlayerLeft, 300000),
                EventRow(12, 0, 1, PlayerJoined, 600000),
                EventRow(13, 0, 1, PlayerLeft, 1200000)];
    var pe := PlayerEvents(log, 1);
    assert Filter(log[..2], ByPlayer(1)) == [];
    assert log == log[..2] + [log[2]] + [log[3]];
    FilterAppend(log[..2], log[2], ByPlayer(1));
    FilterAppend(log[..2] + [log[2]], log[3], ByPlayer(1));
    assert pe == [log[2], log[3]];
    assert IntervalAt(pe, 0) == Some((600000, 1200000));
    assert IntervalAt(pe, 1) == None;
    assert FirstFrom(log, LeaveOfAtOrAfter(2, 600000), 0) == None;
    CountPositive(log, (e: EventRow) => OtherStillActive(log, 1, 600000, 1200000, e), 0);
    assert TallyUpTo(log, 1, pe, 1) == Tally(600000, 0, 600000);
  }

  /** A leave at the very instant the interval opens rules the other player
      out for the whole interval, even when they rejoin inside it and stay. */
  lemma BoundaryLeaveCountsAsSolo()
    ensures var log := [EventRow(10, 0, 2, PlayerJoined, 0),
                        EventRow(11, 0, 1, PlayerJoined, 600000),
                        EventRow(12, 0, 2, PlayerLeft, 600000),
                        EventRow(13, 0, 2, PlayerJoined, 720000),
                        EventRow(14, 0, 1, PlayerLeft, 1200000)];
            PlayerTally(log, 1) == Tally(600000, 600000, 0)
  {
    var log := [EventRow(10, 0, 2, PlayerJoined, 0),
                EventRow(11, 0, 1, PlayerJoined, 600000),
                EventRow(12, 0, 2, PlayerLeft, 600000),
                EventRow(13, 0, 2, PlayerJoined, 720000),
                EventRow(14, 0, 1, PlayerLeft, 1200000)];
    var pe := PlayerEvents(log, 1);
    assert Filter(log[..3], ByPlayer(1)) == [log[1]];
    assert log == log[..3] + [log[3]] + [log[4]];
    FilterAppend(log[..3], log[3], ByPlayer(1));
    FilterAppend(log[..3] + [log[3]], log[4], ByPlayer(1));
    assert pe == [log[1], log[4]];
    assert IntervalAt(pe, 0) == Some((600000, 1200000));
    assert IntervalAt(pe, 1) == None;
    assert FirstFrom(log, LeaveOfAtOrAfter(2, 600000), 0) == Some(2);
    forall i | 0 <= i < |log|
      ensures !OtherStillActive(log, 1, 600000, 1200000, log[i])
    {
      assert log[i].playerId == 1 || log[i].kind == PlayerLeft || log[i].playerId == 2;
    }
    NoneMeansCountZero(log, (e: EventRow) => OtherStillActive(log, 1, 600000, 1200000, e));
    assert TallyUpTo(log, 1, pe, 1) == Tally(600000, 600000, 0);
  }

  /** Two overlapping stays, 0 to 20 and 10 to 30 minutes: each player's
      whole stay is group time, the ten minutes spent alone included. */
  lemma OverlapIsWhollyGroup()
    ensures PlayerTally(OverlapLog(), 1) == Tally(1200000, 0, 1200000)
    ensures PlayerTally(OverlapLog(), 2) == Tally(1200000, 0, 1200000)
  {
    OverlapFirstPlayer();
    OverlapSecondPlayer();
  }

  function OverlapLog(): seq<EventRow> {
    [EventRow(10, 0, 1, PlayerJoined, 0),
     EventRow(11, 0, 2, PlayerJoined, 600000),
     EventRow(12, 0, 1, PlayerLeft, 1200000),
     EventRow(13, 0, 2, PlayerLeft, 1800000)]
  }

  lemma OverlapFirstPlayer()
    ensures PlayerTally(OverlapLog(), 1) == Tally(1200000, 0, 1200000)
  {
    var log := OverlapLog();
    var pe := PlayerEvents(log, 1);
    assert Filter(log[..2], ByPlayer(1)) == [log[0]];
    assert log == log[..2] + [log[2]] + [log[3]];
    FilterAppend(log[..2], log[2], ByPlayer(1));
    FilterAppend(log[..2] + [log[2]], log[3], ByPlayer(1));
    assert pe == [log[0], log[2]];
    assert IntervalAt(pe, 0) == Some((0, 1200000));
    assert IntervalAt(pe, 1) == None;
    assert FirstFrom(log, LeaveOfAtOrAfter(2, 0), 0) == Some(3);
    CountPositive(log, (e: EventRow) => OtherStillActive(log, 1, 0, 1200000, e), 1);
    assert TallyUpTo(log, 1, pe, 1) == Tally(1200000, 0, 1200000);
  }

  lemma OverlapSecondPlayer()
    ensures PlayerTally(OverlapLog(), 2) == Tally(1200000, 0, 1200000)
  {
    var log := OverlapLog();
    var pe := PlayerEvents(log, 2);
    assert Filter(log[..2], ByPlayer(2)) == [log[1]];
    assert log == log[..2] + [log[2]] + [log[3]];
    FilterAppend(log[..2], log[2], ByPlayer(2));
    FilterAppend(log[..2] + [log[2]], log[3], ByPlayer(2));
    assert pe == [log[1], log[3]];
    assert IntervalAt(pe, 0) == Some((600000, 1800000));
    assert IntervalAt(pe, 1) == None;
    assert FirstFrom(log, LeaveOfAtOrAfter(1, 600000), 0) == Some(2);
    CountPositive(log, (e: EventRow) => OtherStillActive(log, 2, 600000, 1800000, e), 0);
    assert TallyUpTo(log, 2, pe, 1) == Tally(1200000, 0, 1200000);
  }
}
