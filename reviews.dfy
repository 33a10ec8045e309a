/** The aggregation of `getReviewStatsByCourse` (app/actions/reviews.ts):
    the reviews the case-insensitive course query returned, newest first, are
    summarised with their count and their average ratings rounded to one
    decimal by `Math.round(x * 10) / 10`. The query result is an input;
    `None` stands for a failed query. Ratings are whole stars. */
module Reviews {
  import opened Common
  import opened Numeric

  /** A stored course review. lib/types.ts does not define the review
      record; its fields are those the review actions write. */
  datatype CourseReview = CourseReview(
    id: string,
    roundId: Option<string>,
    courseName: string,
    difficultyRating: int,
    weather: string,
    overallRating: int,
    reviewText: Option<string>,
    userId: Option<string>)

  datatype CourseReviewStats = CourseReviewStats(
    courseName: string,
    totalReviews: nat,
    avgDifficulty: real,
    avgOverall: real,
    reviews: seq<CourseReview>)

  function Difficulties(reviews: seq<CourseReview>): (xs: seq<real>)
    ensures |xs| == |reviews|
    ensures forall i :: 0 <= i < |reviews| ==> xs[i] == reviews[i].difficultyRating as real
  {
    seq(|reviews|, i requires 0 <= i < |reviews| => reviews[i].difficultyRating as real)
  }

  function Overalls(reviews: seq<CourseReview>): (xs: seq<real>)
    ensures |xs| == |reviews|
    ensures forall i :: 0 <= i < |reviews| ==> xs[i] == reviews[i].overallRating as real
  {
    seq(|reviews|, i requires 0 <= i < |reviews| => reviews[i].overallRating as real)
  }

  /** `getReviewStatsByCourse`: null after a failed query or when no review
      matches; otherwise the searched name, the number of reviews, both
      averages to the nearest tenth, and the reviews as fetched. */
  function ReviewStatsByCourse(courseName: string, fetched: Option<seq<CourseReview>>): (r: Option<CourseReviewStats>)
    ensures r.None? <==> fetched.None? || fetched.value == []
    ensures r.Some? ==> r.value.courseName == courseName
    ensures r.Some? ==> r.value.reviews == fetched.value && r.value.totalReviews == |fetched.value|
    ensures r.Some? ==>
      IsTenths(r.value.avgDifficulty) && -0.05 < r.value.avgDifficulty - Mean(Difficulties(fetched.value)) <= 0.05
    ensures r.Some? ==>
      IsTenths(r.value.avgOverall) && -0.05 < r.value.avgOverall - Mean(Overalls(fetched.value)) <= 0.05
  {
    if fetched.None? || |fetched.value| == 0 then None
    else
      var reviews := fetched.value;
      Some(CourseReviewStats(
        courseName,
        |reviews|,
        RoundTenths(Mean(Difficulties(reviews))),
        RoundTenths(Mean(Overalls(reviews))),
        reviews))
  }

  /** Each rounded average stays within any whole-star bounds of the ratings
      it averages, so between the lowest and the highest rating. */
  lemma AveragesWithinRatings(courseName: string, reviews: seq<CourseReview>,
                              dLo: int, dHi: int, oLo: int, oHi: int)
    requires reviews != []
    requires forall i :: 0 <= i < |reviews| ==> dLo <= reviews[i].difficultyRating <= dHi
    requires forall i :: 0 <= i < |reviews| ==> oLo <= reviews[i].overallRating <= oHi
    ensures ReviewStatsByCourse(courseName, Some(reviews)).Some?
    ensures var s := ReviewStatsByCourse(courseName, Some(reviews)).value;
      dLo as real <= s.avgDifficulty <= dHi as real && oLo as real <= s.avgOverall <= oHi as real
  {
    MeanBounds(Difficulties(reviews), dLo as real, dHi as real);
    RoundTenthsBetweenIntegers(Mean(Difficulties(reviews)), dLo, dHi);
    MeanBounds(Overalls(reviews), oLo as real, oHi as real);
    RoundTenthsBetweenIntegers(Mean(Overalls(reviews)), oLo, oHi);
  }
}
