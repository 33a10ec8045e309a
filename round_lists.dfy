/** Round-list presentation shared by the profile, the dashboard and the
    round queries: newest-first order (the comparator
    `new Date(b.date) - new Date(a.date)`) and the "round"/"rounds" label. */
module RoundLists {
  import opened Types
  import opened Sequences

  /** The newest-first comparator: `a` may stay before `b` when
      `b.date - a.date <= 0`. */
  predicate NewerOrSame(a: Round, b: Round)
  {
    b.date - a.date <= 0
  }

  lemma NewerOrSameIsTotalPreorder()
    ensures TotalPreorder(NewerOrSame)
  {
  }

  /** `[...rounds].sort(newest first)`: a reordered copy of the rounds. */
  function NewestFirst(rounds: seq<Round>): (sorted: seq<Round>)
    ensures |sorted| == |rounds|
    ensures multiset(sorted) == multiset(rounds)
    ensures forall i, j :: 0 <= i < j < |sorted| ==> sorted[i].date >= sorted[j].date
  {
    NewerOrSameIsTotalPreorder();
    Sort(rounds, NewerOrSame)
  }

  /** The word after a round count: singular exactly for one round. */
  function RoundsWord(n: nat): (w: string)
    ensures w == "round" <==> n == 1
    ensures w == "rounds" <==> n != 1
  {
    "round" + (if n != 1 then "s" else "")
  }
}
