/** The round actions of app/actions/rounds.ts: the validation of
    `addRound` and the record it stores, and the result of `getRounds`.
    Form fields are possibly-missing strings; `Number.parseFloat` and
    `Number.parseInt` are given as partial functions (`None` for NaN); the
    signed-in user's id is an input. */
module RoundsActions {
  import opened Common
  import opened Types
  import opened Text
  import opened Sequences
  import opened RoundLists

  datatype RoundForm = RoundForm(
    playerId: Option<string>,
    date: Option<string>,
    course: Option<string>,
    tee: Option<string>,
    rating: Option<string>,
    slope: Option<string>,
    score: Option<string>)

  /** The row `addRound` inserts; the date is passed on as entered. */
  datatype NewRound = NewRound(
    playerId: string,
    date: string,
    course: string,
    tee: string,
    rating: real,
    slope: int,
    score: int,
    userId: Option<string>)

  predicate AllFieldsPresent(f: RoundForm)
  {
    Truthy(f.date) && Truthy(f.course) && Truthy(f.tee) &&
    Truthy(f.rating) && Truthy(f.slope) && Truthy(f.score)
  }

  predicate NumbersParse(f: RoundForm, parseFloat: string -> Option<real>, parseInt: string -> Option<int>)
    requires AllFieldsPresent(f)
  {
    parseFloat(f.rating.value).Some? && parseInt(f.slope.value).Some? && parseInt(f.score.value).Some?
  }

  /** `addRound`'s checks, in order: player, then every other field, then
      the three numbers; an accepted form becomes a row with trimmed course
      and tee, the parsed numbers with no range check, and the user's id or
      null. */
  function AddRound(f: RoundForm, userId: Option<string>,
                    parseFloat: string -> Option<real>, parseInt: string -> Option<int>): (res: Outcome<NewRound>)
    ensures !Truthy(f.playerId) ==> res == Rejected("Player ID is required")
    ensures Truthy(f.playerId) && !AllFieldsPresent(f) ==> res == Rejected("All fields are required")
    ensures Truthy(f.playerId) && AllFieldsPresent(f) && !NumbersParse(f, parseFloat, parseInt) ==>
      res == Rejected("Invalid numeric values")
    ensures res.Accepted? <==> Truthy(f.playerId) && AllFieldsPresent(f) && NumbersParse(f, parseFloat, parseInt)
    ensures res.Accepted? ==>
      res.value == NewRound(f.playerId.value, f.date.value, Trim(f.course.value), Trim(f.tee.value),
        parseFloat(f.rating.value).value, parseInt(f.slope.value).value, parseInt(f.score.value).value,
        OrNull(userId))
  {
    if !Truthy(f.playerId) then Rejected("Player ID is required")
    else if !AllFieldsPresent(f) then Rejected("All fields are required")
    else
      var rating := parseFloat(f.rating.value);
      var slope := parseInt(f.slope.value);
      var score := parseInt(f.score.value);
      if rating.None? || slope.None? || score.None? then Rejected("Invalid numeric values")
      else Accepted(NewRound(f.playerId.value, f.date.value, Trim(f.course.value), Trim(f.tee.value),
        rating.value, slope.value, score.value, OrNull(userId)))
  }

  /** Presence is checked before trimming: a course or tee of blanks passes
      the checks and is stored empty. */
  lemma BlankCourseStoredEmpty(f: RoundForm, userId: Option<string>,
                               parseFloat: string -> Option<real>, parseInt: string -> Option<int>)
    requires Truthy(f.playerId) && AllFieldsPresent(f) && NumbersParse(f, parseFloat, parseInt)
    requires AllSpace(f.course.value)
    ensures AddRound(f, userId, parseFloat, parseInt).Accepted?
    ensures AddRound(f, userId, parseFloat, parseInt).value.course == ""
  {
    TrimEmptyIffAllSpace(f.course.value);
  }

  predicate OfPlayer(playerId: string, r: Round)
  {
    r.playerId == playerId
  }

  /** `getRounds`: the rounds of the given player (all rounds when no player
      is given), newest first; empty when the query fails. */
  function GetRounds(playerId: Option<string>, table: Option<seq<Round>>): (rs: seq<Round>)
    ensures table.None? ==> rs == []
    ensures forall i, j :: 0 <= i < j < |rs| ==> rs[i].date >= rs[j].date
    ensures table.Some? && !Truthy(playerId) ==> multiset(rs) == multiset(table.value)
    ensures table.Some? && Truthy(playerId) ==>
      forall r :: multiset(rs)[r] == if r.playerId == playerId.value then multiset(table.value)[r] else 0
    ensures Truthy(playerId) ==> forall i :: 0 <= i < |rs| ==> rs[i].playerId == playerId.value
  {
    if table.None? then []
    else if Truthy(playerId) then
      var mine := Filter(table.value, r => OfPlayer(playerId.value, r));
      var rs := NewestFirst(mine);
      assert forall i :: 0 <= i < |rs| ==> rs[i].playerId == playerId.value by {
        forall i | 0 <= i < |rs|
          ensures rs[i].playerId == playerId.value
        {
          assert rs[i] in multiset(mine);
        }
      }
      rs
    else NewestFirst(table.value)
  }
}
