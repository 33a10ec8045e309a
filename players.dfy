/** The validation of `addPlayer` (app/actions/players.ts) and the row it
    stores. The form fields and the signed-in user's id are inputs. */
module PlayersActions {
  import opened Common
  import opened Text

  /** The row `addPlayer` inserts. */
  datatype NewPlayer = NewPlayer(name: string, favoriteCourse: Option<string>, userId: Option<string>)

  /** `addPlayer`: a missing or blank name is refused; otherwise the trimmed
      name, the trimmed favourite course or null when it is blank or missing,
      and the user's id or null. */
  function AddPlayer(name: Option<string>, favoriteCourse: Option<string>, userId: Option<string>): (res: Outcome<NewPlayer>)
    ensures res.Rejected? <==> name.None? || Trim(name.value) == ""
    ensures res.Rejected? ==> res.error == "Name is required"
    ensures res.Accepted? ==> res.value.name == Trim(name.value) && res.value.name != ""
    ensures res.Accepted? ==> Trim(res.value.name) == res.value.name
    ensures res.Accepted? ==>
      (res.value.favoriteCourse.None? <==> favoriteCourse.None? || Trim(favoriteCourse.value) == "")
    ensures res.Accepted? && res.value.favoriteCourse.Some? ==>
      res.value.favoriteCourse.value == Trim(favoriteCourse.value)
    ensures res.Accepted? ==> (res.value.userId.None? <==> !Truthy(userId))
  {
    if !Truthy(name) || Trim(name.value) == "" then Rejected("Name is required")
    else
      TrimIdempotent(name.value);
      var course := if favoriteCourse.Some? then Some(Trim(favoriteCourse.value)) else None;
      Accepted(NewPlayer(Trim(name.value), OrNull(course), OrNull(userId)))
  }

  /** A name is refused exactly when it is missing or all white space. */
  lemma NameRequiredIffBlank(name: Option<string>, favoriteCourse: Option<string>, userId: Option<string>)
    ensures AddPlayer(name, favoriteCourse, userId).Rejected? <==> name.None? || AllSpace(name.value)
  {
    if name.Some? {
      TrimEmptyIffAllSpace(name.value);
    }
  }
}
