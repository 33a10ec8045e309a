/** The per-player performance summaries of `getPerformanceOverview`
    (app/actions/overview.ts): one summary per player built from the rounds
    table, which the query returns newest first, then ordered by most recent
    round with players without rounds last. The two table reads are inputs;
    `None` stands for a read that failed or returned no data. */
module Overview {
  import opened Common
  import opened Types
  import opened Sequences
  import opened Handicap
  import opened RoundLists

  datatype PlayerOverview = PlayerOverview(
    playerId: string,
    playerName: string,
    handicap: real,
    totalRounds: nat,
    lastCourse: Option<string>,
    lastScore: Option<int>,
    lastDate: Option<int>,
    favoriteCourse: Option<string>)

  predicate OfPlayer(playerId: string, r: Round)
  {
    r.playerId == playerId
  }

  /** The rounds whose `player_id` is the player's id, in table order. */
  function RoundsOf(playerId: string, allRounds: seq<Round>): (rs: seq<Round>)
    ensures forall i :: 0 <= i < |rs| ==> rs[i].playerId == playerId
    ensures forall r :: multiset(rs)[r] == if r.playerId == playerId then multiset(allRounds)[r] else 0
  {
    Filter(allRounds, r => OfPlayer(playerId, r))
  }

  lemma NonZeroSlopesOfPlayer(playerId: string, allRounds: seq<Round>)
    requires NonZeroSlopes(allRounds)
    ensures NonZeroSlopes(RoundsOf(playerId, allRounds))
  {
    var rs := RoundsOf(playerId, allRounds);
    forall i | 0 <= i < |rs| ensures rs[i].slope != 0 {
      assert multiset(rs)[rs[i]] > 0;
      assert rs[i] in multiset(allRounds);
    }
  }

  /** The summary of one player; the first of the player's rounds is the
      latest one when the table is newest first. */
  function Summarize(player: Player, allRounds: seq<Round>): (o: PlayerOverview)
    requires NonZeroSlopes(allRounds)
    ensures o.playerId == player.id && o.playerName == player.name
    ensures o.favoriteCourse == player.favoriteCourse
    ensures o.totalRounds == |RoundsOf(player.id, allRounds)|
  {
    var rs := RoundsOf(player.id, allRounds);
    NonZeroSlopesOfPlayer(player.id, allRounds);
    var latest := if rs == [] then None else Some(rs[0]);
    PlayerOverview(
      player.id,
      player.name,
      CalculateHandicap(rs),
      |rs|,
      if latest.Some? then Some(latest.value.course) else None,
      if latest.Some? then Some(latest.value.score) else None,
      if latest.Some? then Some(latest.value.date) else None,
      player.favoriteCourse)
  }

  /** The handicap of a summary is the index of exactly the player's rounds. */
  lemma SummaryHandicap(player: Player, allRounds: seq<Round>)
    requires NonZeroSlopes(allRounds)
    ensures NonZeroSlopes(RoundsOf(player.id, allRounds))
    ensures Summarize(player, allRounds).handicap == CalculateHandicap(RoundsOf(player.id, allRounds))
  {
    NonZeroSlopesOfPlayer(player.id, allRounds);
  }

  /** The "last" fields are all null for a player without rounds and
      otherwise come together from one of the player's rounds. */
  lemma SummaryLastFields(player: Player, allRounds: seq<Round>)
    requires NonZeroSlopes(allRounds)
    ensures var o := Summarize(player, allRounds);
      (o.totalRounds == 0 <==> o.lastDate.None?) &&
      (o.lastDate.None? <==> o.lastCourse.None?) &&
      (o.lastDate.None? <==> o.lastScore.None?)
    ensures var o := Summarize(player, allRounds);
      o.lastDate.Some? ==>
        exists r :: r in allRounds && r.playerId == player.id &&
          o.lastDate == Some(r.date) && o.lastCourse == Some(r.course) && o.lastScore == Some(r.score)
  {
    var rs := RoundsOf(player.id, allRounds);
    if rs != [] {
      assert multiset(rs)[rs[0]] > 0;
      assert rs[0] in allRounds;
    }
  }

  /** On a newest-first table the last date is that of the player's most
      recent round. */
  lemma SummaryLastIsLatest(player: Player, allRounds: seq<Round>)
    requires NonZeroSlopes(allRounds)
    requires forall i, j :: 0 <= i < j < |allRounds| ==> allRounds[i].date >= allRounds[j].date
    ensures var o := Summarize(player, allRounds);
      forall r :: r in allRounds && r.playerId == player.id ==>
        o.lastDate.Some? && r.date <= o.lastDate.value
  {
    var rs := RoundsOf(player.id, allRounds);
    assert SortedBy(allRounds, NewerOrSame);
    FilterKeepsOrder(allRounds, r => OfPlayer(player.id, r), NewerOrSame);
    forall r | r in allRounds && r.playerId == player.id
      ensures rs != [] && r.date <= rs[0].date
    {
      assert multiset(rs)[r] > 0;
      assert r in rs;
      var k :| 0 <= k < |rs| && rs[k] == r;
      assert k == 0 || NewerOrSame(rs[0], rs[k]);
    }
  }

  /** Rounds of other players do not affect a player's summary. */
  lemma SummaryIgnoresOtherPlayers(player: Player, allRounds: seq<Round>)
    requires NonZeroSlopes(allRounds)
    ensures NonZeroSlopes(RoundsOf(player.id, allRounds))
    ensures Summarize(player, RoundsOf(player.id, allRounds)) == Summarize(player, allRounds)
  {
    NonZeroSlopesOfPlayer(player.id, allRounds);
    var rs := RoundsOf(player.id, allRounds);
    FilterKeepsAll(rs, r => OfPlayer(player.id, r));
  }

  /** The sort comparator: `a` may stay before `b` unless only `a` lacks a
      date, or both have dates and `b`'s is later. */
  predicate LatestFirst(a: PlayerOverview, b: PlayerOverview)
  {
    match (a.lastDate, b.lastDate)
    case (None, None) => true
    case (None, Some(_)) => false
    case (Some(_), None) => true
    case (Some(x), Some(y)) => y - x <= 0
  }

  lemma LatestFirstIsTotalPreorder()
    ensures TotalPreorder(LatestFirst)
  {
  }

  function Summaries(players: seq<Player>, allRounds: seq<Round>): (os: seq<PlayerOverview>)
    requires NonZeroSlopes(allRounds)
    ensures |os| == |players|
    ensures forall i :: 0 <= i < |players| ==> os[i] == Summarize(players[i], allRounds)
  {
    seq(|players|, i requires 0 <= i < |players| => Summarize(players[i], allRounds))
  }

  /** `getPerformanceOverview`: empty when either read fails; otherwise one
      summary per player, players with a last date first, those in
      non-increasing date order, players without rounds last. */
  function PerformanceOverview(players: Option<seq<Player>>, allRounds: Option<seq<Round>>): (os: seq<PlayerOverview>)
    requires allRounds.Some? ==> NonZeroSlopes(allRounds.value)
    ensures players.None? || allRounds.None? ==> os == []
    ensures players.Some? && allRounds.Some? ==>
      |os| == |players.value| &&
      multiset(os) == multiset(Summaries(players.value, allRounds.value))
    ensures forall i, j :: 0 <= i < j < |os| && os[i].lastDate.None? ==> os[j].lastDate.None?
    ensures forall i, j :: 0 <= i < j < |os| && os[i].lastDate.Some? && os[j].lastDate.Some? ==>
      os[i].lastDate.value >= os[j].lastDate.value
  {
    if players.None? || allRounds.None? then []
    else
      LatestFirstIsTotalPreorder();
      var os := Sort(Summaries(players.value, allRounds.value), LatestFirst);
      assert forall i, j :: 0 <= i < j < |os| ==> LatestFirst(os[i], os[j]);
      os
  }
}
