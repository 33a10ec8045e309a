/** Display rules of the performance overview page
    (components/OverviewClient.tsx): the colour bucket of a handicap, the
    rule that a handicap is shown only from three rounds, the rank badge of
    the first three cards, and the fallback texts. Locale date formatting is
    not modelled: a formatted date is represented by its day number. */
module OverviewClient {
  import opened Common
  import opened Types
  import opened Numeric
  import opened Handicap
  import opened RoundLists
  import opened Overview

  datatype HandicapColor = Emerald | Green | Yellow | Orange | Red

  /** Position of a colour on the scale from best to worst handicap. */
  function Tier(c: HandicapColor): nat
  {
    match c
    case Emerald => 0
    case Green => 1
    case Yellow => 2
    case Orange => 3
    case Red => 4
  }

  /** `getHandicapColor`: five buckets, each upper bound inclusive. */
  function GetHandicapColor(handicap: real): (c: HandicapColor)
    ensures c == Emerald <==> handicap <= 5.0
    ensures c == Green <==> 5.0 < handicap <= 10.0
    ensures c == Yellow <==> 10.0 < handicap <= 15.0
    ensures c == Orange <==> 15.0 < handicap <= 20.0
    ensures c == Red <==> 20.0 < handicap
  {
    if handicap <= 5.0 then Emerald
    else if handicap <= 10.0 then Green
    else if handicap <= 15.0 then Yellow
    else if handicap <= 20.0 then Orange
    else Red
  }

  /** A higher handicap never gets a better colour. */
  lemma ColorMonotone(h1: real, h2: real)
    requires h1 <= h2
    ensures Tier(GetHandicapColor(h1)) <= Tier(GetHandicapColor(h2))
  {
  }

  /** The handicap cell: "--" in grey, or the index to one decimal in its
      bucket colour. */
  datatype HandicapCell = Dashes | Shown(value: real, color: HandicapColor)

  function HandicapCellOf(o: PlayerOverview): (cell: HandicapCell)
    ensures cell.Shown? <==> o.totalRounds >= 3
    ensures cell.Shown? ==> cell.value == ToFixed1(o.handicap) && cell.color == GetHandicapColor(o.handicap)
  {
    if o.totalRounds >= 3 then Shown(ToFixed1(o.handicap), GetHandicapColor(o.handicap)) else Dashes
  }

  /** For a summary built from the rounds table, the cell shows the player's
      handicap index unchanged whenever it shows one. */
  lemma ShownHandicapIsIndex(player: Player, allRounds: seq<Round>)
    requires NonZeroSlopes(allRounds)
    ensures NonZeroSlopes(RoundsOf(player.id, allRounds))
    ensures var cell := HandicapCellOf(Summarize(player, allRounds));
      cell.Shown? <==> |RoundsOf(player.id, allRounds)| >= 3
    ensures var cell := HandicapCellOf(Summarize(player, allRounds));
      cell.Shown? ==> cell.value == CalculateHandicap(RoundsOf(player.id, allRounds))
  {
    SummaryHandicap(player, allRounds);
    ToFixed1OfTenths(CalculateHandicap(RoundsOf(player.id, allRounds)));
  }

  datatype Medal = Gold | Silver | Bronze
  datatype Badge = Badge(rank: nat, medal: Medal)

  /** The rank badge: only the first three cards of players with rounds,
      labelled with their 1-based position. */
  function RankBadge(index: nat, totalRounds: nat): (b: Option<Badge>)
    ensures b.Some? <==> index < 3 && totalRounds > 0
    ensures b.Some? ==> b.value.rank == index + 1
    ensures b.Some? ==> (b.value.medal == Gold <==> index == 0) && (b.value.medal == Silver <==> index == 1)
  {
    if index < 3 && totalRounds > 0 then
      Some(Badge(index + 1, if index == 0 then Gold else if index == 1 then Silver else Bronze))
    else None
  }

  /** `formatDate`: "No rounds yet" without a date, otherwise the date. */
  datatype DateText = NoRoundsYet | OnDay(day: int)

  function FormatDate(date: Option<int>): (t: DateText)
    ensures t == NoRoundsYet <==> date.None?
    ensures date.Some? ==> t == OnDay(date.value)
  {
    if date.None? then NoRoundsYet else OnDay(date.value)
  }

  /** What a player's card shows; `lastPlayed` is `None` for the text
      "No rounds recorded yet". */
  datatype Card = Card(
    badge: Option<Badge>,
    handicap: HandicapCell,
    roundsLabel: string,
    lastScore: Option<int>,
    lastPlayed: Option<(string, DateText)>)

  function CardOf(index: nat, o: PlayerOverview): (c: Card)
    ensures c.roundsLabel == "round" <==> o.totalRounds == 1
    ensures c.lastScore.Some? <==> o.lastScore.Some? && o.lastScore.value != 0
    ensures c.lastPlayed.Some? <==> Truthy(o.lastCourse)
    ensures c.lastPlayed.Some? ==> c.lastPlayed.value == (o.lastCourse.value, FormatDate(o.lastDate))
    ensures c.badge == RankBadge(index, o.totalRounds) && c.handicap == HandicapCellOf(o)
  {
    Card(
      RankBadge(index, o.totalRounds),
      HandicapCellOf(o),
      RoundsWord(o.totalRounds),
      if o.lastScore.Some? && o.lastScore.value != 0 then o.lastScore else None,
      if Truthy(o.lastCourse) then Some((o.lastCourse.value, FormatDate(o.lastDate))) else None)
  }

  /** A player without rounds gets no badge, dashes for the handicap, and
      "No rounds recorded yet". */
  lemma CardWithoutRounds(index: nat, player: Player, allRounds: seq<Round>)
    requires NonZeroSlopes(allRounds)
    requires Summarize(player, allRounds).totalRounds == 0
    ensures var c := CardOf(index, Summarize(player, allRounds));
      c.badge.None? && c.handicap == Dashes && c.lastPlayed.None? && c.lastScore.None? && c.roundsLabel == "rounds"
  {
    SummaryLastFields(player, allRounds);
  }
}
