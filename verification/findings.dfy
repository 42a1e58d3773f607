/** Running the payout run twice over a league whose only payout ended in
    a tie. The run as the program has it queues the already split records
    again and the second run stops on the uniqueness constraint; the run
    that queues only payouts without a winner leaves the ledger alone. */
module Findings {
  import opened Wrappers
  import opened Ranking
  import opened Money
  import opened PayoutLedger
  import opened Resolver
  import opened Driver

  /** A 2.00 payout for first place over days 0 to 6 of league 1. */
  function TiedPayout(): Payout {
    Payout(1, 1, "Season", 1, 0, 6, 200, false, None)
  }

  /** Two managers level on 50 points in any period. */
  function LevelStandings(league: LeagueId, startDate: Date, endDate: Date): seq<Standing> {
    [Standing(7, 50), Standing(8, 50)]
  }

  /** The ledger after the first run: 1.00 each for entrants 7 and 8. */
  function AfterFirstRun(): Ledger {
    [TiedPayout().(amount := 100, winner := Some(7)), TiedPayout().(id := 2, amount := 100, winner := Some(8))]
  }

  lemma LevelStandingsWinners()
    ensures Ranks(LevelStandings(1, 0, 6)) == [Ranked(7, 50, 1), Ranked(8, 50, 1)]
    ensures Winners(Ranks(LevelStandings(1, 0, 6)), 1) == Ranks(LevelStandings(1, 0, 6))
  {
    assert Ranks(LevelStandings(1, 0, 6)) == [Ranked(7, 50, 1), Ranked(8, 50, 1)];
  }

  /** Resolving the fresh payout splits it: 1.00 stays on record 1 for
      entrant 7 and record 2 is inserted with 1.00 for entrant 8. */
  lemma FirstResolution()
    ensures Resolve([TiedPayout()], TiedPayout(), LevelStandings(1, 0, 6)) == Ok(AfterFirstRun())
  {
    var p := TiedPayout();
    var w := Winners(Ranks(LevelStandings(1, 0, 6)), 1);
    LevelStandingsWinners();
    SplitEvenly();
    assert !MultiPositionTie([p], p, Ranks(LevelStandings(1, 0, 6)));
    assert EarliestFuture([p], p) == None;
    var first := AfterFirstRun()[0];
    assert FirstRecord(p, w) == first;
    assert !Conflicts(p, first);
    assert Replace([p], first) == [first];
    SaveSpec([p], first);
    assert p in [p] && p.id == first.id;
    assert Save([p], first) == Ok([first]);
    var clone := first.(amount := 100, winner := Some(8));
    assert NextId([first]) == 2;
    assert !Conflicts(first, clone.(id := 2));
    assert Find([first], 2) == None;
    assert forall q :: q in [first] ==> q == first;
    assert [first] + [clone.(id := 2)] == AfterFirstRun();
    SaveSpec([first], clone.(id := 2));
    assert Save([first], clone.(id := 2)) == Ok(AfterFirstRun());
    assert Insert([first], clone) == Ok(AfterFirstRun());
    assert InsertClones([first], first, 100, w[1..]) == Ok(AfterFirstRun());
  }

  /** Resolving record 1 again splits its 1.00 once more, and the copy for
      entrant 8 collides with record 2. */
  lemma SecondResolution()
    ensures Resolve(AfterFirstRun(), AfterFirstRun()[0], LevelStandings(1, 0, 6)) == Err(IntegrityError)
  {
    var l := AfterFirstRun();
    var w := Winners(Ranks(LevelStandings(1, 0, 6)), 1);
    LevelStandingsWinners();
    SplitDollar();
    assert !MultiPositionTie(l, l[0], Ranks(LevelStandings(1, 0, 6)));
    assert EarliestFuture(l, l[0]) == None;
    var first := l[0].(amount := 50);
    assert FirstRecord(l[0], w) == first;
    assert !Conflicts(l[0], first) && !Conflicts(l[1], first);
    assert Replace(l, first) == [first, l[1]];
    assert Save(l, first) == Ok([first, l[1]]);
    var clone := first.(winner := Some(8));
    assert Conflicts(l[1], clone.(id := NextId([first, l[1]])));
    assert Insert([first, l[1]], clone) == Err(IntegrityError);
  }

  /** The first run, as written or corrected: the one queued payout is
      split. */
  lemma FirstRun()
    ensures ProcessPayouts([TiedPayout()], 1, 6, LevelStandings) == Completed(AfterFirstRun())
    ensures ProcessUnresolvedPayouts([TiedPayout()], 1, 6, LevelStandings) == Completed(AfterFirstRun())
  {
    var p := TiedPayout();
    assert Queue([p], 1, 6, false) == [p];
    assert Queue([p], 1, 6, true) == [p];
    FirstResolution();
    assert RunAll([p], [1], LevelStandings) == RunAll(AfterFirstRun(), [], LevelStandings);
  }

  /** The run as written, started again after the first: it re-resolves
      record 1 and stops with an integrity error. */
  lemma RerunAfterTieSplitFails()
    ensures ProcessPayouts([TiedPayout()], 1, 6, LevelStandings) == Completed(AfterFirstRun())
    ensures ProcessPayouts(AfterFirstRun(), 1, 6, LevelStandings) == Aborted(AfterFirstRun(), IntegrityError)
  {
    FirstRun();
    var l := AfterFirstRun();
    QueueAfterFirstRun();
    SecondResolution();
    assert Find(l, 1) == Some(l[0]);
  }

  lemma QueueAfterFirstRun()
    ensures Keys(Queue(AfterFirstRun(), 1, 6, false)) == [1, 2]
  {
    var l := AfterFirstRun();
    assert SelectDue(l, 1, 6, false) == l;
    assert SortByPeriod([l[1]]) == [l[1]];
    assert SortByPeriod(l) == l;
  }

  /** The corrected run, started again after the first: nothing is pending
      and the ledger stays as it was. */
  lemma CorrectedRerunAfterTieSplit()
    ensures ProcessUnresolvedPayouts([TiedPayout()], 1, 6, LevelStandings) == Completed(AfterFirstRun())
    ensures ProcessUnresolvedPayouts(AfterFirstRun(), 1, 6, LevelStandings) == Completed(AfterFirstRun())
  {
    FirstRun();
    CorrectedRerunIsNoOp([TiedPayout()], 1, 6, LevelStandings);
  }
}
