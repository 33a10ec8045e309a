/** The records of lib/types.ts. Calendar dates ("YYYY-MM-DD") are day
    numbers, so that comparing dates is comparing integers. */
module Types {
  import opened Common

  /** A player; `favoriteCourse` and `userId` are optional (a guest player
      has no user). */
  datatype Player = Player(id: string, name: string, favoriteCourse: Option<string>, userId: Option<string>)

  /** One recorded round: course rating, slope rating and total strokes. */
  datatype Round = Round(
    id: string,
    playerId: string,
    date: int,
    course: string,
    tee: string,
    rating: real,
    slope: int,
    score: int,
    userId: Option<string>)

  /** One point of the handicap trend: the index after the round dated
      `date`, computed from `rounds` rounds. */
  datatype HandicapHistory = HandicapHistory(date: int, handicap: real, rounds: nat)
}
