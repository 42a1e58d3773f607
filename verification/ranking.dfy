/** Dense competition ranking of a period's standings. The standings arrive
    ordered by score, highest first; one walk down the list keeps the current
    rank and the last score seen, and moves to the next rank only when the
    score changes, so scores 50, 50, 30 get ranks 1, 1, 2. */
module Ranking {
  import opened Wrappers

  type EntrantId = nat

  /** One manager's line of a period's standings: the entrant behind the
      manager and the manager's summed score over the period. */
  datatype Standing = Standing(entrant: EntrantId, score: int)

  /** A standing together with the rank the walk assigned to it. */
  datatype Ranked = Ranked(entrant: EntrantId, score: int, rank: nat)

  /** Scores never increase along the list. */
  ghost predicate SortedByScore(standings: seq<Standing>) {
    forall i, j :: 0 <= i < j < |standings| ==> standings[i].score >= standings[j].score
  }

  /** The ranking walk from a given state: `rank` is the rank handed out
      last and `last` the score it was handed out for (None before the
      first manager, which therefore always opens a new rank). */
  function RankFrom(standings: seq<Standing>, rank: nat, last: Option<int>): (r: seq<Ranked>)
    ensures |r| == |standings|
    ensures forall i :: 0 <= i < |r| ==>
      r[i].entrant == standings[i].entrant && r[i].score == standings[i].score
    ensures |r| > 0 ==> r[0].rank == (if last == Some(standings[0].score) then rank else rank + 1)
    ensures forall i :: 0 < i < |r| ==>
      r[i].rank == (if standings[i].score == standings[i - 1].score then r[i - 1].rank else r[i - 1].rank + 1)
    decreases |standings|
  {
    if |standings| == 0 then []
    else
      var s := standings[0];
      var rank' := if last != Some(s.score) then rank + 1 else rank;
      [Ranked(s.entrant, s.score, rank')] + RankFrom(standings[1..], rank', Some(s.score))
  }

  /** Ranks for a whole list: the first manager is ranked 1, a manager with
      the same score as the one before shares that rank, and any other
      manager is ranked one more than the one before. */
  function Ranks(standings: seq<Standing>): (r: seq<Ranked>)
    ensures |r| == |standings|
    ensures forall i :: 0 <= i < |r| ==>
      r[i].entrant == standings[i].entrant && r[i].score == standings[i].score
    ensures |r| > 0 ==> r[0].rank == 1
    ensures forall i :: 0 < i < |r| ==>
      r[i].rank == (if standings[i].score == standings[i - 1].score then r[i - 1].rank else r[i - 1].rank + 1)
  {
    RankFrom(standings, 0, None)
  }

  /** Ranks start at 1, never decrease along the list, and rise by at most
      one per manager. */
  lemma {:induction false} RanksAreDense(standings: seq<Standing>, i: nat)
    requires i < |standings|
    ensures 1 <= Ranks(standings)[i].rank <= i + 1
    ensures forall j :: 0 <= j <= i ==> Ranks(standings)[j].rank <= Ranks(standings)[i].rank
  {
    var r := Ranks(standings);
    if i > 0 {
      RanksAreDense(standings, i - 1);
    }
  }

  /** On a list sorted by score, two managers share a rank exactly when they
      have the same score, and the higher score has the lower rank. */
  lemma {:induction false} RankOrder(standings: seq<Standing>, i: nat, j: nat)
    requires SortedByScore(standings)
    requires i <= j < |standings|
    ensures Ranks(standings)[i].rank <= Ranks(standings)[j].rank
    ensures Ranks(standings)[i].rank == Ranks(standings)[j].rank <==> standings[i].score == standings[j].score
    decreases j - i
  {
    var r := Ranks(standings);
    if i < j {
      RankOrder(standings, i, j - 1);
      if standings[j].score != standings[j - 1].score {
        assert standings[j].score < standings[j - 1].score <= standings[i].score;
      }
    }
  }

  /** The distinct scores among the first `i + 1` managers. */
  function ScoresDownTo(standings: seq<Standing>, i: nat): (scores: set<int>)
    requires i < |standings|
    ensures forall x :: x in scores <==> exists k :: 0 <= k <= i && standings[k].score == x
  {
    if i == 0 then {standings[0].score}
    else ScoresDownTo(standings, i - 1) + {standings[i].score}
  }

  /** On a list sorted by score, a manager's rank is the number of distinct
      scores from the top of the list down to that manager: rank k means
      exactly k - 1 distinct higher scores. */
  lemma {:induction false} RankCountsDistinctScores(standings: seq<Standing>, i: nat)
    requires SortedByScore(standings)
    requires i < |standings|
    ensures Ranks(standings)[i].rank == |ScoresDownTo(standings, i)|
  {
    if i > 0 {
      RankCountsDistinctScores(standings, i - 1);
      ScoresStep(standings, i);
    }
  }

  /** One manager further down, the set of scores grows by one exactly
      when the score changes. */
  lemma {:induction false} ScoresStep(standings: seq<Standing>, i: nat)
    requires SortedByScore(standings)
    requires 0 < i < |standings|
    ensures |ScoresDownTo(standings, i)| ==
      |ScoresDownTo(standings, i - 1)| + (if standings[i].score == standings[i - 1].score then 0 else 1)
  {
    var before := ScoresDownTo(standings, i - 1);
    var x := standings[i].score;
    assert ScoresDownTo(standings, i) == before + {x};
    if x == standings[i - 1].score {
      assert x in before;
      assert before + {x} == before;
    } else {
      NewLowerScore(standings, i);
      assert |before + {x}| == |before| + 1;
    }
  }

  /** On a list sorted by score, a score lower than the one before is not
      among the scores above it. */
  lemma {:induction false} NewLowerScore(standings: seq<Standing>, i: nat)
    requires SortedByScore(standings)
    requires 0 < i < |standings| && standings[i].score != standings[i - 1].score
    ensures standings[i].score !in ScoresDownTo(standings, i - 1)
  {
    forall k | 0 <= k <= i - 1
      ensures standings[k].score != standings[i].score
    {
      assert standings[k].score >= standings[i - 1].score > standings[i].score;
    }
  }

  /** The managers whose rank equals `position`, in list order. */
  function Winners(ranked: seq<Ranked>, position: int): (w: seq<Ranked>)
    ensures forall x :: x in w <==> x in ranked && x.rank == position
    ensures |w| <= |ranked|
    ensures |w| > 0 ==>
      exists i :: 0 <= i < |ranked| && ranked[i] == w[0] && (forall k :: 0 <= k < i ==> ranked[k].rank != position)
  {
    if |ranked| == 0 then []
    else
      var rest := Winners(ranked[1..], position);
      if ranked[0].rank == position then
        [ranked[0]] + rest
      else
        assert forall x :: x in rest ==> x in ranked[1..];
        rest
  }

  /** The places in the list, from `from` on and in increasing order, of
      the managers whose rank equals `position`. */
  function PlacesAt(ranked: seq<Ranked>, position: int, from: nat): (places: seq<nat>)
    requires from <= |ranked|
    ensures forall k :: 0 <= k < |places| ==> from <= places[k] < |ranked| && ranked[places[k]].rank == position
    ensures forall k, l :: 0 <= k < l < |places| ==> places[k] < places[l]
    ensures forall j :: from <= j < |ranked| && ranked[j].rank == position ==> j in places
    decreases |ranked| - from
  {
    if from == |ranked| then []
    else
      var rest := PlacesAt(ranked, position, from + 1);
      if ranked[from].rank == position then [from] + rest else rest
  }

  /** The winners are the managers at those places, in the order of the
      list: picking the winners keeps the standings order. */
  lemma {:induction false} WinnersInListOrder(ranked: seq<Ranked>, position: int)
    ensures |Winners(ranked, position)| == |PlacesAt(ranked, position, 0)|
    ensures forall k :: 0 <= k < |Winners(ranked, position)| ==>
      Winners(ranked, position)[k] == ranked[PlacesAt(ranked, position, 0)[k]]
  {
    WinnersFrom(ranked, position, 0);
    assert ranked[0..] == ranked;
  }

  /** `WinnersInListOrder` for the tail of the list from `from` on. */
  lemma {:induction false} WinnersFrom(ranked: seq<Ranked>, position: int, from: nat)
    requires from <= |ranked|
    ensures |Winners(ranked[from..], position)| == |PlacesAt(ranked, position, from)|
    ensures forall k :: 0 <= k < |Winners(ranked[from..], position)| ==>
      Winners(ranked[from..], position)[k] == ranked[PlacesAt(ranked, position, from)[k]]
    decreases |ranked| - from
  {
    if from < |ranked| {
      WinnersFrom(ranked, position, from + 1);
      var w := Winners(ranked[from..], position);
      var w' := Winners(ranked[from + 1..], position);
      var places := PlacesAt(ranked, position, from);
      var rest := PlacesAt(ranked, position, from + 1);
      assert ranked[from..][1..] == ranked[from + 1..];
      if ranked[from].rank == position {
        assert w == [ranked[from]] + w';
        assert places == [from] + rest;
        forall k | 0 <= k < |w|
          ensures w[k] == ranked[places[k]]
        {
          if k > 0 {
            assert w[k] == w'[k - 1] && places[k] == rest[k - 1];
          }
        }
      } else {
        assert w == w';
        assert places == rest;
      }
    }
  }

  /** On a list sorted by score, all the managers at one position share a
      single score, so a tie at a position is a tie on score. */
  lemma {:induction false} WinnersShareScore(standings: seq<Standing>, position: int, a: Ranked, b: Ranked)
    requires SortedByScore(standings)
    requires a in Winners(Ranks(standings), position) && b in Winners(Ranks(standings), position)
    ensures a.score == b.score
  {
    var r := Ranks(standings);
    var i :| 0 <= i < |r| && r[i] == a;
    var j :| 0 <= j < |r| && r[j] == b;
    if i <= j {
      RankOrder(standings, i, j);
    } else {
      RankOrder(standings, j, i);
    }
  }

  /** No entrant stands behind two managers of the list (each manager
      belongs to at most one entrant and each entrant to one manager). */
  ghost predicate OneManagerPerEntrant(standings: seq<Standing>) {
    forall i, j :: 0 <= i < j < |standings| ==> standings[i].entrant != standings[j].entrant
  }

  ghost predicate DistinctEntrants(ranked: seq<Ranked>) {
    forall i, j :: 0 <= i < j < |ranked| ==> ranked[i].entrant != ranked[j].entrant
  }

  /** The winners at a position of a list without repeated entrants have no
      repeated entrants either. */
  lemma {:induction false} WinnersHaveDistinctEntrants(ranked: seq<Ranked>, position: int)
    requires DistinctEntrants(ranked)
    ensures DistinctEntrants(Winners(ranked, position))
  {
    if |ranked| > 0 {
      var rest := Winners(ranked[1..], position);
      WinnersHaveDistinctEntrants(ranked[1..], position);
      if ranked[0].rank == position {
        var w := Winners(ranked, position);
        assert w == [ranked[0]] + rest;
        forall i, j | 0 <= i < j < |w|
          ensures w[i].entrant != w[j].entrant
        {
          if i == 0 {
            assert w[j] in rest;
            var k :| 0 <= k < |ranked[1..]| && ranked[1..][k] == w[j];
            assert ranked[k + 1] == w[j];
          }
        }
      }
    }
  }

  lemma {:induction false} RanksKeepEntrants(standings: seq<Standing>)
    requires OneManagerPerEntrant(standings)
    ensures DistinctEntrants(Ranks(standings))
  {
  }
}
