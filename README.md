# Golf handicap tracker — verified model

This project models the logic of a golf handicap tracking web application in
Dafny and proves properties of it. The centre of the model is the handicap
engine (`lib/handicap.ts`):

- the differential of a round, `(score − rating) × 113 / slope`;
- the Handicap Index: the mean of the best `numToUse` differentials (a step
  table on the number of rounds), times 0.96, rounded to one decimal;
- the handicap trend: the index recomputed over every date-ordered prefix of
  the rounds, with a point for each round on or after a six-months-ago cutoff
  once three rounds exist.

Around it sit the pieces of logic in the server actions and UI components:

- the per-player performance overview and its ordering;
- the statistics of the profile and the dashboard;
- the display rules of the overview cards;
- course-review averages;
- the validation chains of `addRound`, `addPlayer` and the video upload
  endpoint, and the blob path;
- the swing-comparison phase lookup and playback state machine;
- the keyed list updates of the swing-analysis page;
- the avatar initials of the user menu;
- the greeting name and its session cache.

## Representation

- Numbers are mathematical reals. `toFixed(1)` is `Numeric.ToFixed1`, which
  rounds the magnitude half away from zero. `Math.round(x * 10) / 10` is
  `Numeric.RoundTenths`, which rounds halves up.
- Calendar dates are integer day numbers. The six-months-ago instant, the
  current year and the calendar year of a day are parameters.
- JavaScript's `Array.prototype.sort` is stable. It is modelled as an
  insertion sort (`Sequences.Sort`) under a total preorder, proved to return a
  sorted permutation that keeps tied elements in input order
  (`Sequences.SortStable`).
- Database reads are input sequences, with `None` for a failed read.
  `Number.parseFloat`/`parseInt` are partial functions given as parameters
  (`None` for NaN). The signed-in user, the random picks of the greeting, the
  clock reading for `updated_at` and the results of awaited server calls are
  inputs too.
- Objects the source updates in place are classes. `SwingComparison.SwingPlayer`
  holds the slider, playing flag, active phase and video durations and times.
  `SwingAnalysisClient.AnalysisBoard` holds the analysis list, the selection
  and the create form. `GolfGreeting.GreetingWidget` holds the session storage
  and the greeting state.
- `calculateHandicapHistory`'s `forEach` is a `while` loop
  (`Handicap.WalkRounds`). It is proved equal to the functional definition
  `Handicap.HandicapHistoryOf`, and the trend's properties are proved about
  that definition.

Module layout: one module per source file (`Handicap`, `Overview`, `Profile`,
`Dashboard`, `OverviewClient`, `Reviews`, `RoundsActions`, `PlayersActions`,
`UploadVideo`, `SwingComparison`, `SwingAnalysisClient`, `UserMenu`,
`GolfGreeting`). The helper modules are:

- `Types`: the records of `lib/types.ts`;
- `Common`: an optional value, JavaScript truthiness of strings, and an
  accept/reject outcome;
- `Numeric`: sums, means and rounding;
- `Sequences`: filter and stable sort;
- `Text`: ASCII trim, split, join and case mapping;
- `RoundLists`: newest-first order and the "round(s)" label.

## Model

| member | source | states |
|---|---|---|
| Handicap.Differential | lib/handicap.ts:85-87 | The differential times the slope is (score − rating) × 113. |
| Handicap.DifferentialSign | lib/handicap.ts:85-87 | A round played to the rating has differential 0. On a positive slope the differential is positive exactly when score > rating and negative exactly when score < rating. |
| Handicap.Differentials | lib/handicap.ts:31 | The mapped differentials have one entry per round, each equal to the shared differential formula (the one `calculateDifferential` uses). |
| Handicap.NumToUse | lib/handicap.ts:37-45 | Zero exactly below three rounds. Otherwise between 1 and min(8, n), and 8 from twenty rounds on. |
| Handicap.NumToUseMonotone | lib/handicap.ts:37-45 | More rounds never means fewer averaged differentials. |
| Handicap.SortedDifferentials | lib/handicap.ts:48 | The ascending copy is a permutation of the differentials and is sorted. |
| Handicap.BestDifferentials | lib/handicap.ts:48-49 | Exactly `numToUse` differentials are kept, in ascending order, drawn from the round differentials. |
| Handicap.LowestOfSorted | lib/handicap.ts:48-49 | The first k entries of an ascending reordering of the differentials are ascending, drawn from them, and no larger than any entry left out. |
| Handicap.BestDifferentialsLowest | lib/handicap.ts:48-49 | Every kept differential is at most every differential left out: the kept ones are the lowest. |
| Handicap.UnroundedIndex | lib/handicap.ts:50-51 | When every round is at or over its rating on a positive slope, 0.96 × the mean of the best differentials is not negative. |
| Handicap.BestNotNegative | lib/handicap.ts:31-49 | When every round is at or over its rating on a positive slope, every kept differential lies between 0 and the largest kept. |
| Handicap.CalculateHandicap | lib/handicap.ts:27-54 | 0 below three rounds. Otherwise a one-decimal value within 0.05 of 0.96 × the mean u of the best differentials: in (u − 0.05, u + 0.05] when u ≥ 0 (a tie rounds up) and in [u − 0.05, u + 0.05) when u < 0 (a tie rounds away from zero). |
| Handicap.DifferentialsRemoveAt | lib/handicap.ts:31 | Taking a round out of the list takes exactly its differential out of the multiset of differentials. |
| Handicap.NonZeroSlopesPermutation | lib/handicap.ts:31 | Reordering rounds with non-zero slopes keeps every slope non-zero. |
| Handicap.DifferentialsPeel | lib/handicap.ts:31 | Matching the first round of a list with an equal round of a reordering removes the same differential from both. |
| Handicap.DifferentialsCons | lib/handicap.ts:31 | The differentials of a non-empty list are its first round's followed by the rest's. |
| Handicap.DifferentialsPermutation | lib/handicap.ts:31 | Reordering the rounds reorders their differentials: equal multisets in, equal multisets out. |
| Handicap.HandicapPermutationInvariant | lib/handicap.ts:31-53 | The index is the same for every ordering of the same rounds. |
| Handicap.HandicapBounds | lib/handicap.ts:48-53 | Before rounding the index lies between 0.96 × the lowest and 0.96 × the highest differential. After rounding it is within a further 0.05. |
| Handicap.InsertKeepsPrefix | lib/handicap.ts:48-49 | Inserting a value no smaller than the k-th of an ascending list leaves its first k entries unchanged. |
| Handicap.SortedDifferentialsAppend | lib/handicap.ts:31-48 | Adding a round inserts its differential into the sorted differentials. |
| Handicap.HandicapOfSameBest | lib/handicap.ts:48-53 | Two lists of at least three rounds with the same best differentials have the same index. |
| Handicap.HandicapIgnoresWorseRound | lib/handicap.ts:37-53 | With twenty or more rounds, adding a round whose differential is at least the current eighth-lowest leaves the index unchanged. |
| Handicap.SortThree | lib/handicap.ts:48 | Sorting three distinct differentials puts them in ascending order. |
| Handicap.ThreeRoundSorted | lib/handicap.ts:31-48 | Three rounds whose last has the lowest differential sort with that differential first. |
| Handicap.ThreeRoundBest | lib/handicap.ts:44-51 | With three rounds, the unrounded index is 0.96 × the lowest differential alone. |
| Handicap.ExampleRounding | lib/handicap.ts:53 | 847.5 / 130 × 0.96 = 6.258… is shown as 6.3. |
| Handicap.ThreeRoundExample | lib/handicap.ts:18-54 | Rounds of 85 and 90 at rating 72.5 / slope 130 give 0. Adding a round of 80 gives 6.3. |
| Handicap.Chronological | lib/handicap.ts:60-62 | The sorted copy is a permutation of the rounds in non-decreasing date order. |
| Handicap.NonZeroSlopesPrefix | lib/handicap.ts:69 | A prefix of rounds with non-zero slopes keeps non-zero slopes. |
| Handicap.RunningHandicaps | lib/handicap.ts:68-73 | The running indices have one entry per prefix length. |
| Handicap.RunningHandicapsAt | lib/handicap.ts:69-73 | Entry i of the running indices is the index of the first i + 1 rounds. |
| Handicap.CalculateHandicapHistory | lib/handicap.ts:57-83 | The method's result is the trend definition `HandicapHistoryOf`: empty below three rounds, otherwise the points of the walk over the date-ordered copy. |
| Handicap.WalkRounds | lib/handicap.ts:64-82 | The loop pushes exactly one point, in order, for each position whose round is on or after the cutoff and has at least two rounds before it. The point carries the prefix's date, index and length. |
| Handicap.PointsUpToMark | lib/handicap.ts:68-79 | After i positions there are at most i points. Each point has a position between 3 and i, carries its round's date, which is on or after the cutoff, and carries that prefix's index. |
| Handicap.PointsUpToIncreasing | lib/handicap.ts:68-79 | Points come in strictly increasing position. |
| Handicap.PointsUpToComplete | lib/handicap.ts:68-79 | Every qualifying position before i has its point. |
| Handicap.PointsUpToPush | lib/handicap.ts:72-79 | A position on or after the cutoff with at least three rounds up to it appends exactly its point. |
| Handicap.PointsUpToSkip | lib/handicap.ts:72 | Any other position adds no point. |
| Handicap.HandicapHistoryOf | lib/handicap.ts:57-83 | The trend has at most one point per round. |
| Handicap.HistoryDescribesRounds | lib/handicap.ts:58-78 | The trend is empty below three rounds and has at most n points. Each point has `rounds` equal to its 1-based position (at least 3) in date order, that round's date (on or after the cutoff), and `calculateHandicap` of that date-ordered prefix. |
| Handicap.HistoryInDateOrder | lib/handicap.ts:60-80 | Points are in strictly increasing position and non-decreasing date order. |
| Handicap.HistoryComplete | lib/handicap.ts:68-79 | Every round from the third on in date order that is on or after the cutoff has its point. |
| Overview.RoundsOf | app/actions/overview.ts:46-48 | The player's rounds are exactly the rounds with the player's id, each as often as in the table. |
| Overview.NonZeroSlopesOfPlayer | app/actions/overview.ts:46-51 | A player's rounds keep the table's non-zero slopes. |
| Overview.Summarize | app/actions/overview.ts:44-63 | The summary carries the player's id, name and favourite course (null when unset), and `totalRounds` is the number of the player's rounds. |
| Overview.SummaryHandicap | app/actions/overview.ts:51 | The summary's handicap is `calculateHandicap` of exactly the player's rounds. |
| Overview.SummaryLastFields | app/actions/overview.ts:50-60 | The three "last" fields are null exactly when the player has no rounds. Otherwise they come together from one round of the player. |
| Overview.SummaryLastIsLatest | app/actions/overview.ts:36-60 | On the date-descending table, the last date is at least the date of every round of the player. |
| Overview.SummaryIgnoresOtherPlayers | app/actions/overview.ts:46-63 | Rounds of other players do not change a player's summary. |
| Overview.LatestFirstIsTotalPreorder | app/actions/overview.ts:65-70 | The comparator is a consistent total order, so the stable sort is well defined. |
| Overview.Summaries | app/actions/overview.ts:44-63 | One summary per player, in player order. |
| Overview.PerformanceOverview | app/actions/overview.ts:18-77 | Empty when either read fails. Otherwise a permutation of the per-player summaries, with every player without a last date after every player with one, and last dates non-increasing. |
| Profile.Scores | components/Profile.tsx:39 | One score per round. |
| Profile.AverageScore | components/Profile.tsx:37-42 | "N/A" exactly without rounds. Otherwise a one-decimal value within 0.05 of the mean score m: in (m − 0.05, m + 0.05] when m ≥ 0 (a tie rounds up) and in [m − 0.05, m + 0.05) when m < 0 (a tie rounds away from zero). |
| Profile.AverageWithinScores | components/Profile.tsx:37-48 | The shown average lies between the best and the worst score. |
| Profile.MinScore | components/Profile.tsx:47 | The minimum is at most every score and is some round's score. |
| Profile.WorstScore | components/Profile.tsx:37-42 | The maximum is at least every score and is some round's score. |
| Profile.BestScore | components/Profile.tsx:45-48 | "N/A" exactly without rounds. Otherwise at most every round's score and equal to one of them. |
| Profile.ProfileOf | components/Profile.tsx:21-82 | The handicap is `calculateHandicap` and the chart data is the trend. The sorted list is a newest-first permutation of the rounds. The label is singular exactly for one round, and the home course falls back to "Not set". The average and best score are `AverageScore` and `BestScore` of the rounds. |
| RoundLists.NewerOrSameIsTotalPreorder | components/Profile.tsx:31-33 | The newest-first comparator is a consistent total order. |
| RoundLists.NewestFirst | components/Profile.tsx:30-34 | The sorted copy is a permutation of the rounds in non-increasing date order. |
| RoundLists.RoundsWord | components/Profile.tsx:82 | "round" exactly for one, "rounds" otherwise. |
| Dashboard.RoundsInYear | components/Dashboard.tsx:52-55 | Exactly the rounds of the current year, each as often as in the list. |
| Dashboard.RoundsThisYear | components/Dashboard.tsx:50-56 | The count of this year's rounds is at most n. It equals n exactly when every round is in the year, and 0 exactly when none is. |
| Dashboard.AllInYearIff | components/Dashboard.tsx:50-56 | Every round is counted exactly when every round is in the current year. |
| Dashboard.NoneInYearIff | components/Dashboard.tsx:50-56 | No round is counted exactly when no round is in the current year. |
| Dashboard.RecentRounds | components/Dashboard.tsx:59-61 | min(10, n) rounds in non-increasing date order. |
| Dashboard.RecentRoundsAreNewest | components/Dashboard.tsx:59-61 | The recent rounds are drawn from the rounds, and no round left out is newer than one shown. |
| Dashboard.PrefixHoldsNewest | components/Dashboard.tsx:60 | Cutting a newest-first list leaves out only rounds no newer than any kept one. |
| Dashboard.ShowViewAll | components/Dashboard.tsx:95 | "View All" shows exactly when the recent list leaves rounds out. |
| Dashboard.HandicapCard | components/Dashboard.tsx:47-85 | The KPI is `calculateHandicap(rounds)`, so 0 below three rounds. The subtitle is singular exactly for one round. |
| OverviewClient.GetHandicapColor | components/OverviewClient.tsx:26-32 | Each colour holds exactly on its bucket: ≤5, (5,10], (10,15], (15,20], >20. |
| OverviewClient.ColorMonotone | components/OverviewClient.tsx:26-32 | A higher handicap never gets a better colour. |
| OverviewClient.HandicapCellOf | components/OverviewClient.tsx:109-118 | The handicap shows, to one decimal and in its bucket colour, exactly from three rounds; otherwise "--". |
| OverviewClient.ShownHandicapIsIndex | components/OverviewClient.tsx:111-118 | For a summary built from the table, the cell shows exactly from three of the player's rounds, and shows their index unchanged. |
| OverviewClient.RankBadge | components/OverviewClient.tsx:79-91 | A badge exactly for positions 0–2 with rounds. It is labelled position + 1: gold first, silver second, bronze third. |
| OverviewClient.FormatDate | components/OverviewClient.tsx:16-24 | "No rounds yet" exactly without a date. |
| OverviewClient.CardOf | components/OverviewClient.tsx:73-165 | The rounds label is singular exactly for one. "Last" shows exactly for a non-zero score. The last-played line shows exactly for a non-empty course, with its date. The badge is `RankBadge` of the card's position and the handicap cell is `HandicapCellOf` the summary. |
| OverviewClient.CardWithoutRounds | components/OverviewClient.tsx:79-165 | A player without rounds gets no badge, dashes, no last score, "rounds", and "No rounds recorded yet". |
| Reviews.Difficulties | app/actions/reviews.ts:78 | One difficulty rating per review. |
| Reviews.Overalls | app/actions/reviews.ts:79 | One overall rating per review. |
| Reviews.ReviewStatsByCourse | app/actions/reviews.ts:64-92 | Null exactly after a failed query or with no reviews. Otherwise: the searched name, the review count, the reviews as fetched, and both averages rounded to one decimal within (−0.05, 0.05] of the exact mean. |
| Reviews.AveragesWithinRatings | app/actions/reviews.ts:78-85 | For whole-star ratings, each rounded average lies within any bounds of the ratings it averages. |
| RoundsActions.AddRound | app/actions/rounds.ts:15-75 | A missing player is rejected first, then any empty field, then any unparsable number. Accepted exactly when all checks pass, with no range check. The row stores the date as entered, the trimmed course and tee, the parsed numbers, and the user id or null. |
| RoundsActions.BlankCourseStoredEmpty | app/actions/rounds.ts:32-50 | Presence is checked before trimming, so a course of blanks is accepted and stored empty. |
| RoundsActions.GetRounds | app/actions/rounds.ts:77-100 | Empty when the query fails. Otherwise the player's rounds (all rounds without a player id), each as often as in the table, newest first. |
| PlayersActions.AddPlayer | app/actions/players.ts:15-54 | Rejected with "Name is required" exactly for a missing or blank name. The stored name is the trimmed input, non-empty and already trimmed. The favourite course is trimmed, or null when missing or blank. The user id is null without a signed-in user. |
| PlayersActions.NameRequiredIffBlank | app/actions/players.ts:23-25 | A name is refused exactly when it is missing or all white space. |
| UploadVideo.BlobPath | app/api/upload-video/route.ts:45-47 | The path's length is that of its parts and separators. |
| UploadVideo.Post | app/api/upload-video/route.ts:5-63 | 401 exactly without a user. Then 400 for a missing field, for a file that is neither a listed MIME type nor named like a video, and for a file over 52,428,800 bytes, in that order. Otherwise stored at `swing-videos/<user>/<analysis>/<type>-<name>`, whatever the type. |
| UploadVideo.HasVideoExtension | app/api/upload-video/route.ts:30 | The name, in lower case, ends with one of .mp4, .mov, .webm, .avi. |
| UploadVideo.IsVideo | app/api/upload-video/route.ts:29-30 | The MIME type is one of the five listed, or the name has a video extension. |
| UploadVideo.ExtensionIgnoresCase | app/api/upload-video/route.ts:30 | The extension check ignores letter case. |
| UploadVideo.BlobPathSplits | app/api/upload-video/route.ts:45-47 | When no part has a slash, the path splits back into folder, user, analysis and stored name, so distinct users or analyses never share a path. |
| SwingComparison.PhasePositionsIncreasing | components/SwingComparison.tsx:10-18 | Phase positions run strictly increasing from 0 to 1. |
| SwingComparison.FindPhaseFrom | components/SwingComparison.tsx:52-56 | `findIndex` returns the first matching phase, and some phase always matches. |
| SwingComparison.PhaseIndexAt | components/SwingComparison.tsx:52-57 | Always a valid phase. For p in [0, 1) it is the phase whose interval holds p; otherwise the last phase. |
| SwingComparison.PassedPhases | components/SwingComparison.tsx:52-56 | A non-negative position that matched none of the first k phases is at least phase k's position. |
| SwingComparison.PhaseAtOwnPosition | components/SwingComparison.tsx:52-56 | Each phase is found at its own position. |
| SwingComparison.SwingPlayer.constructor | components/SwingComparison.tsx:30-38 | The player starts at 0, stopped, with no active phase and unknown durations. |
| SwingComparison.SwingPlayer.LoadedMetadata | components/SwingComparison.tsx:239-284 | Loading a video's metadata sets its duration only. |
| SwingComparison.SwingPlayer.SyncVideosToSlider | components/SwingComparison.tsx:41-60 | Each shown video of positive duration is set to (value / 100) × duration; the others keep their time. The active phase is the phase at value / 100, never null. |
| SwingComparison.SwingPlayer.HandleSliderChange | components/SwingComparison.tsx:62-74 | Scrubbing sets the slider, syncs the videos and phase, and stops playback. |
| SwingComparison.SwingPlayer.HandlePhaseClick | components/SwingComparison.tsx:76-88 | The slider goes to 100 × the phase's position, the videos to that fraction, the active phase to i, and playback stops. |
| SwingComparison.SwingPlayer.TogglePlay | components/SwingComparison.tsx:90-106 | Playing stops with the slider unchanged. Paused starts playing, first rewinding to 0 (phase 0), and each shown video of positive duration to time 0, when the slider is at 99 or beyond. Otherwise the video times are unchanged. |
| SwingComparison.SwingPlayer.HandleReset | components/SwingComparison.tsx:108-115 | Back to 0, phase 0, stopped, videos rewound. |
| SwingComparison.SwingPlayer.AnimationFrame | components/SwingComparison.tsx:117-148 | While playing with a shown video of known length, the slider follows progress capped at 100, the phase follows progress, and playback stops once progress reaches 100. Otherwise nothing changes. |
| SwingAnalysisClient.WithVideo | components/SwingAnalysisClient.tsx:78-81 | The spread update sets exactly the chosen URL field. |
| SwingAnalysisClient.WithoutId | components/SwingAnalysisClient.tsx:67 | Every analysis with the id is removed and the others stay, each as often as before. |
| SwingAnalysisClient.DeleteUnknownIdKeepsList | components/SwingAnalysisClient.tsx:67 | Deleting an id no analysis has leaves the list unchanged. |
| SwingAnalysisClient.WithUploadedVideo | components/SwingAnalysisClient.tsx:77-79 | Entries without the id are untouched. Entries with it get the URL and the new `updated_at`, and nothing else of them changes. |
| SwingAnalysisClient.WithNotes | components/SwingAnalysisClient.tsx:101-105 | Only entries with the id get the notes, and nothing else of them changes. |
| SwingAnalysisClient.RequestOf | components/SwingAnalysisClient.tsx:45-48 | Nothing is sent exactly for a blank name. Otherwise the trimmed name, and the trimmed pro name, left out when blank. |
| SwingAnalysisClient.AnalysisBoard.constructor | components/SwingAnalysisClient.tsx:35-39 | The page starts with the initial list, nothing selected, and an empty closed form. |
| SwingAnalysisClient.AnalysisBoard.HandleCreate | components/SwingAnalysisClient.tsx:43-61 | A blank name changes nothing. A created analysis goes to the front of the unchanged list, the form is cleared and closed, and the analysis is selected. A failed create changes nothing. |
| SwingAnalysisClient.AnalysisBoard.ShowCreated | components/SwingAnalysisClient.tsx:50-54 | The created analysis goes in front of the list and is selected; the form is cleared and closed. |
| SwingAnalysisClient.AnalysisBoard.HandleDelete | components/SwingAnalysisClient.tsx:63-74 | After a successful delete the list is the filtered list, and the selection is cleared only if it had the id. After a failed delete nothing changes. |
| SwingAnalysisClient.AnalysisBoard.HandleVideoUploaded | components/SwingAnalysisClient.tsx:76-83 | The list gets the keyed update. The selection gets the URL, but not the new `updated_at`, only when it has the id. |
| SwingAnalysisClient.AnalysisBoard.OnNotesUpdated | components/SwingAnalysisClient.tsx:100-107 | The notes go to the selection and to the list entries with its id, and nowhere else. |
| UserMenu.FirstLetters | components/UserMenu.tsx:53-54 | At most one letter per word. |
| UserMenu.Initials | components/UserMenu.tsx:50-57 | Null exactly without a display name; otherwise at most two characters. |
| UserMenu.WordStartsInWord | components/UserMenu.tsx:51-54 | Inside a space-free word only its first character starts a word. |
| UserMenu.SplitAtFirstSpace | components/UserMenu.tsx:53 | Splitting a name with a space gives the part before the first space followed by the split of the rest. |
| UserMenu.FirstLettersCons | components/UserMenu.tsx:54 | A word contributes its first character, or nothing when empty, before the letters of the words after it. |
| UserMenu.WordStartsAfterSpace | components/UserMenu.tsx:51-54 | The character after a space starts a word. |
| UserMenu.FirstLettersAreWordStarts | components/UserMenu.tsx:51-54 | Splitting on spaces and taking first characters gives the word-start scan, in order. Empty words from repeated spaces contribute nothing. |
| UserMenu.InitialsAreWordStarts | components/UserMenu.tsx:50-57 | The initials are the first two upper-cased word starts of the name. |
| UserMenu.WordStartsOfOneWord | components/UserMenu.tsx:51-54 | A name without spaces contributes only its first character. |
| UserMenu.WordStartsOfSpaces | components/UserMenu.tsx:51-54 | A name of spaces only has no word starts. |
| UserMenu.AvatarOf | components/UserMenu.tsx:68-78 | The picture exactly when there is a URL. Otherwise the initials exactly when they are non-empty, and otherwise the generic icon. |
| UserMenu.BlankNameGetsIcon | components/UserMenu.tsx:50-78 | A display name of spaces only gets the generic icon. |
| UserMenu.HeaderLabel | components/UserMenu.tsx:85 | The display name, or "Player" when it is empty. |
| GolfGreeting.GreetingName | components/GolfGreeting.tsx:58 | The display name when non-empty. Otherwise, for a signed-in user with an email, the part before its first "@". Otherwise "my fellow visitor". |
| GolfGreeting.Compose | components/GolfGreeting.tsx:78 | The greeting begins with the chosen greeting and ends with the chosen saying, with exactly ", " + name + ", " between them. |
| GolfGreeting.Effect | components/GolfGreeting.tsx:64-82 | A stored greeting for the same name is reused and storage is untouched. Otherwise a new greeting is composed and stored under both keys. Either way the shown greeting is the stored one for this name, and no other key changes. |
| GolfGreeting.EffectIdempotent | components/GolfGreeting.tsx:64-82 | Running the effect again for the same name changes nothing. |
| GolfGreeting.Render | components/GolfGreeting.tsx:84-95 | The placeholder exactly until a greeting is set. |
| GolfGreeting.GreetingWidget.constructor | components/GolfGreeting.tsx:60 | The widget starts without a greeting. |
| GolfGreeting.GreetingWidget.RunEffect | components/GolfGreeting.tsx:64-82 | The effect's new greeting state and storage are those of `Effect`, after which a greeting is rendered. |
| Numeric.ToFixed1 | components/Profile.tsx:39-41 | `toFixed(1)` gives a one-decimal value within 0.05 of its argument. |
| Numeric.RoundTenths | app/actions/reviews.ts:84-85 | `Math.round(x * 10) / 10` gives a one-decimal value in (x − 0.05, x + 0.05]. |
| Numeric.ToFixed1OfTenths | components/OverviewClient.tsx:117 | A one-decimal value is shown unchanged by `toFixed(1)`. |
| Numeric.Mean | lib/handicap.ts:50 | The mean of equal values is that value. |
| Numeric.MeanBounds | components/Profile.tsx:39 | A mean lies between any bounds of what it averages. |
| Numeric.RoundTenthsBetweenIntegers | app/actions/reviews.ts:84-85 | Rounding to tenths keeps a value between whole-number bounds. |
| Numeric.ToFixed1BetweenIntegers | components/Profile.tsx:39-41 | `toFixed(1)` keeps a value between whole-number bounds. |
| Sequences.Filter | app/actions/overview.ts:46-48 | `filter` keeps exactly the elements satisfying the test, each as often as before. |
| Sequences.FilterKeepsOrder | app/actions/overview.ts:46-50 | Filtering a sorted list leaves it sorted. |
| Sequences.Sort | lib/handicap.ts:48 | The sort returns a sorted permutation. |
| Sequences.FilterInsertRejected | lib/handicap.ts:48 | Inserting an element outside a class leaves that class's members as they were. |
| Sequences.FilterInsertAccepted | lib/handicap.ts:48 | Inserting a member of a class of mutually equivalent elements puts it before that class's members already there. |
| Sequences.SortStable | lib/handicap.ts:48 | The sort is stable: the members of any class of mutually equivalent elements come out in input order. |
| Sequences.SortKeepsTiesInOrder | app/actions/overview.ts:65-70 | Elements tied with any given element keep their input order. |
| Sequences.SortedPrefixSmallest | lib/handicap.ts:48-49 | The first k entries of a sorted list are sorted, drawn from it, and no larger than any entry left out. |
| Sequences.SortedRealsUnique | lib/handicap.ts:48 | Two ascending orderings of the same numbers are equal. |
| Text.TrimStart | app/actions/players.ts:23 | A suffix of the input without white space at its start, preceded only by white space. |
| Text.TrimEnd | app/actions/players.ts:23 | A prefix of the input without white space at its end, followed only by white space. |
| Text.Trim | app/actions/players.ts:23 | The result is a slice of the input with only white space around it and none at either of its ends. |
| Text.SliceBetweenSpace | app/actions/players.ts:23 | Cutting leading white space and then trailing white space leaves a slice with only white space around it. |
| Text.TrimSlice | app/actions/players.ts:23 | Trimming the start, then the end, gives a slice with only white space around it. |
| Text.TrimEmptyIffAllSpace | app/actions/players.ts:23 | A string trims to nothing exactly when it is all white space. |
| Text.TrimIdempotent | app/actions/players.ts:31 | Trimming twice is trimming once. |
| Text.Split | components/GolfGreeting.tsx:58 | `split` on one character gives pieces without the separator that join back to the input. |
| Text.Upper | components/UserMenu.tsx:55 | Same length; each lower-case ASCII letter is upper-cased, every other character kept, and no lower-case letter remains. |
| Text.SplitJoin | app/api/upload-video/route.ts:46 | Splitting undoes joining words that do not contain the separator. |

## Left out

- Database and identity I/O are left out: the Supabase reads and writes, the auth lookups and `revalidatePath`. Fetched rows are inputs, a failed read is `None`, and `ilike` matching and the database `order` are taken as given. The row id and timestamps the database assigns on insert are not modelled, nor is the error message of a failed insert.
- The Vercel Blob `put` and `request.formData()` are left out. Only the guard chain and the path handed to `put` are modelled, not the returned URL or the 500 response on an exception.
- Video playback, `requestAnimationFrame` scheduling, the file picker, its `fetch` and `alert` are browser effects and are left out. A playing video's current time is an input of `SwingComparison.SwingPlayer.AnimationFrame`. The uploading and saving flags, the notes text box and the back button hold no stated logic and are left out.
- `SwingAnalysisClient`: the transient `creating`/`deleting` flags and the select/back handlers are left out. They only toggle a spinner or the current view.
- IEEE-754 arithmetic is left out. Numbers are exact reals, so binary rounding artefacts of `toFixed`, `Math.round` and the averages are not reproduced.
- Handicap.CalculateHandicap: requires every slope to be non-zero. The source divides by the slope and would produce Infinity or NaN for slope 0. The same precondition carries over to every member built on it (`CalculateHandicapHistory`, `Summarize`, `PerformanceOverview`, `ProfileOf`, `HandicapCard`).
- SwingComparison.SwingPlayer.LoadedMetadata: requires a non-negative duration. A browser may report NaN or Infinity before the media is known, and those are not modelled.
- SwingComparison.SwingPlayer.HandleSliderChange: requires a value in [0, 100]. The range input's `min`/`max` (components/SwingComparison.tsx:339-342) guarantee this.
- SwingComparison.SwingPlayer.AnimationFrame: requires a non-negative current time.
- Wall-clock and time-zone handling is left out: `new Date()`, `setMonth(-6)` day overflow, and UTC parsing versus local `getFullYear`. Dates are day numbers, and the cutoff, the current year and the year of a day are parameters. An empty or malformed date string cannot be represented.
- Locale date formatting (`toLocaleDateString`) is left out: `OverviewClient.FormatDate` returns the day itself.
- `Number.parseFloat`/`parseInt` are left out as parsers: they are abstract partial functions, so their prefix semantics is not modelled.
- Text.Trim: handles ASCII white space only, not the Unicode white space JavaScript's `trim` also removes.
- Text.Upper: maps ASCII letters only. UserMenu.Initials inherits this, and UserMenu.FirstLetters takes the first UTF-16 unit as a whole character.
- `Math.random` and `sessionStorage` are left out: the random picks are index inputs of `GolfGreeting.Effect`, and storage is a map.
- The course-review record type is not defined in lib/types.ts. `Reviews.CourseReview` takes its fields from what the review actions write.
- JSX layout, Recharts rendering and the components and pages that only wire forms are left out.
- BestDifferentials: its contract states count, order and origin; that the kept differentials are the lowest is stated by the lemma `Handicap.BestDifferentialsLowest` instead, to keep the proofs that use the index small.
- SwingAnalysisClient.AnalysisBoard.HandleCreate / HandleDelete: each handler is applied atomically to the current state. The source builds the new list from the `analyses` it captured before its `await` (components/SwingAnalysisClient.tsx:48-50, 63-67), so two overlapping deletes can bring back a deleted item, and a create overlapping a delete can lose one of the two updates. Interleaved handlers are not modelled.
