/** Worked resolutions on small ledgers, one per path of the resolver. */
module Scenarios {
  import opened Wrappers
  import opened Ranking
  import opened PayoutLedger
  import opened Resolver
  import Money
  import Resolution

  function SeasonPayout(id: nat, position: int, startDate: Date, endDate: Date, amount: int): Payout {
    Payout(id, 1, "Season", position, startDate, endDate, amount, false, None)
  }

  /** Three managers on the same score `score`, entrants `a`, `b`, `c`. */
  function AllTied(a: EntrantId, b: EntrantId, c: EntrantId, score: int): seq<Standing> {
    [Standing(a, score), Standing(b, score), Standing(c, score)]
  }

  /** Managers on one score all share first place. */
  lemma {:induction false} AllTiedRanks(a: EntrantId, b: EntrantId, c: EntrantId, score: int)
    ensures Ranks(AllTied(a, b, c, score)) == [Ranked(a, score, 1), Ranked(b, score, 1), Ranked(c, score, 1)]
    ensures Winners(Ranks(AllTied(a, b, c, score)), 1) == Ranks(AllTied(a, b, c, score))
  {
    var r := Ranks(AllTied(a, b, c, score));
    assert r[0].rank == 1 && r[1].rank == 1 && r[2].rank == 1;
    assert r == [Ranked(a, score, 1), Ranked(b, score, 1), Ranked(c, score, 1)];
  }

  /** Three managers whose summed scores are `hi`, `mid` and `lo`,
      listed highest first. */
  function Spread(a: EntrantId, b: EntrantId, c: EntrantId, hi: int, mid: int, lo: int): seq<Standing> {
    [Standing(a, hi), Standing(b, mid), Standing(c, lo)]
  }

  lemma {:induction false} SpreadWinners(a: EntrantId, b: EntrantId, c: EntrantId, hi: int, mid: int, lo: int)
    requires hi > mid > lo
    ensures Winners(Ranks(Spread(a, b, c, hi, mid, lo)), 1) == [Ranked(a, hi, 1)]
  {
    var r := Ranks(Spread(a, b, c, hi, mid, lo));
    assert r[0].rank == 1 && r[1].rank == 2 && r[2].rank == 3;
    assert r == [Ranked(a, hi, 1), Ranked(b, mid, 2), Ranked(c, lo, 3)];
  }

  /** The manager with the highest score is ranked first and wins the
      payout for first place, which keeps its amount. */
  lemma {:induction false} SingleWinnerScenario(a: EntrantId, b: EntrantId, c: EntrantId, hi: int, mid: int, lo: int)
    requires hi > mid > lo
    ensures Resolve([SeasonPayout(1, 1, 0, 20, 1000)], SeasonPayout(1, 1, 0, 20, 1000), Spread(a, b, c, hi, mid, lo))
         == Ok([SeasonPayout(1, 1, 0, 20, 1000).(winner := Some(a))])
  {
    var p := SeasonPayout(1, 1, 0, 20, 1000);
    var managers := Spread(a, b, c, hi, mid, lo);
    SpreadWinners(a, b, c, hi, mid, lo);
    LonePayout(p, Ranks(managers), Winners(Ranks(managers), 1));
    Resolution.SingleWinner([p], p, managers);
    var r := Resolve([p], p, managers).value;
    assert |r| == 1;
    assert [p][0].id == p.id;
    assert r[0] == p.(winner := Some(a));
    assert r == [p.(winner := Some(a))];
  }

  /** A period paying first and second place. */
  function TwoPlaces(): Ledger {
    [SeasonPayout(1, 1, 0, 20, 1000), SeasonPayout(2, 2, 0, 20, 500)]
  }

  /** With three managers on the same score, resolving the payout for
      first place is refused. */
  lemma {:induction false} MultiPositionTieScenario(a: EntrantId, b: EntrantId, c: EntrantId, score: int)
    ensures Resolve(TwoPlaces(), TwoPlaces()[0], AllTied(a, b, c, score)) == Err(UnresolvableTie)
  {
    var l := TwoPlaces();
    AllTiedRanks(a, b, c, score);
    assert l[1] in l && IsRelated(l[1], l[0]);
    assert MultiPositionTie(l, l[0], Ranks(AllTied(a, b, c, score)));
  }

  /** The same tie refuses the payout for second place too, which nobody
      reached: the tie is at the related first place. */
  lemma {:induction false} MultiPositionTieScenarioSecond(a: EntrantId, b: EntrantId, c: EntrantId, score: int)
    ensures Resolve(TwoPlaces(), TwoPlaces()[1], AllTied(a, b, c, score)) == Err(UnresolvableTie)
  {
    var l := TwoPlaces();
    AllTiedRanks(a, b, c, score);
    assert l[0] in l && IsRelated(l[0], l[1]);
    assert MultiPositionTie(l, l[1], Ranks(AllTied(a, b, c, score)));
  }

  /** A 10.00 first-place payout, and a later 10.00 one for first place. */
  function TwoWeeks(): Ledger {
    [SeasonPayout(1, 1, 0, 6, 1000), SeasonPayout(2, 1, 7, 13, 1000)]
  }

  /** Two managers on the same score. */
  function TiedPair(a: EntrantId, b: EntrantId, score: int): seq<Standing> {
    [Standing(a, score), Standing(b, score)]
  }

  lemma {:induction false} TiedPairRanks(a: EntrantId, b: EntrantId, score: int)
    ensures Winners(Ranks(TiedPair(a, b, score)), 1) == Ranks(TiedPair(a, b, score))
    ensures |Ranks(TiedPair(a, b, score))| == 2
  {
    var r := Ranks(TiedPair(a, b, score));
    assert r[0].rank == 1 && r[1].rank == 1;
    assert r == [Ranked(a, score, 1), Ranked(b, score, 1)];
  }

  /** A tie for the first payout: the later payout now starts where the
      tied one did and holds 20.00, and the tied payout is gone. */
  lemma {:induction false} DeferralScenario(a: EntrantId, b: EntrantId, score: int)
    ensures Resolve(TwoWeeks(), TwoWeeks()[0], TiedPair(a, b, score)) == Ok([SeasonPayout(2, 1, 0, 13, 2000)])
  {
    var l := TwoWeeks();
    var p := l[0];
    var managers := TiedPair(a, b, score);
    TiedPairRanks(a, b, score);
    assert forall q :: q in l ==> q == l[0] || q == l[1];
    assert !MultiPositionTie(l, p, Ranks(managers));
    assert IsFuture(l[1], p);
    assert EarliestFuture(l, p) == Some(l[1]);
    var moved := Absorb(l[1], p);
    assert moved == SeasonPayout(2, 1, 0, 13, 2000);
    assert !Conflicts(l[0], moved) && !Conflicts(l[1], moved);
    Resolution.TieDeferral(l, p, managers);
    var r := Resolve(l, p, managers).value;
    assert r[0] in r;
    assert r == [moved];
  }

  /** 2.00 split between three tied managers with no later payout: the
      first keeps the record with 0.66, the other two get copies with 0.67
      each, in standings order. */
  lemma {:induction false} SplitScenario(a: EntrantId, b: EntrantId, c: EntrantId, score: int)
    requires a != b && b != c && a != c
    ensures var p := SeasonPayout(1, 1, 0, 6, 200);
      var r := Resolve([p], p, AllTied(a, b, c, score));
      && r.Ok? && |r.value| == 3
      && r.value[0] == p.(amount := 66, winner := Some(a))
      && IsClone(r.value[1], p, 67, b)
      && IsClone(r.value[2], p, 67, c)
  {
    var p := SeasonPayout(1, 1, 0, 6, 200);
    AllTiedRanks(a, b, c, score);
    LonePayout(p, Ranks(AllTied(a, b, c, score)), Winners(Ranks(AllTied(a, b, c, score)), 1));
    AllTiedEntrants(a, b, c, score);
    Money.SplitThreeWays();
    Resolution.TieSplit([p], p, AllTied(a, b, c, score));
  }

  /** A payout alone in its ledger has no related payout, no later one and
      nobody else holding its slot. */
  lemma {:induction false} LonePayout(p: Payout, ranked: seq<Ranked>, winners: seq<Ranked>)
    requires p.startDate <= p.endDate
    ensures !MultiPositionTie([p], p, ranked)
    ensures EarliestFuture([p], p) == None
    ensures Resolution.SlotFreeFor([p], p, winners)
  {
    assert forall q :: q in [p] ==> q == p;
  }

  lemma {:induction false} AllTiedEntrants(a: EntrantId, b: EntrantId, c: EntrantId, score: int)
    requires a != b && b != c && a != c
    ensures OneManagerPerEntrant(AllTied(a, b, c, score))
  {
  }
}
