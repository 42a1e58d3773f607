/** The run over one league that resolves its finished payouts: every
    payout of the league whose period ended by the cut-off date (the end of
    the latest finished gameweek) is queued, earliest period first, and
    resolved in a transaction of its own. The first failure stops the run;
    what the earlier resolutions wrote stays. */
module Driver {
  import opened Wrappers
  import opened Ranking
  import opened PayoutLedger
  import opened Resolver
  import Resolution

  /** The standings query: the managers of a league with their scores
      summed over the gameweeks that start within a period, highest first.
      Resolution never writes scores, so the query is a fixed function for
      the whole run. */
  type StandingsQuery = (LeagueId, Date, Date) -> seq<Standing>

  /** How a run ends: with every queued payout resolved, or stopped by the
      error of one resolution, with the ledger as the earlier ones left it. */
  datatype Outcome =
    | Completed(ledger: Ledger)
    | Aborted(ledger: Ledger, error: Error)

  /** `a` comes no later than `b` when queued by start date, then end date. */
  predicate PeriodOrder(a: Payout, b: Payout) {
    a.startDate < b.startDate || (a.startDate == b.startDate && a.endDate <= b.endDate)
  }

  ghost predicate SortedByPeriod(s: seq<Payout>) {
    forall i, j :: 0 <= i < j < |s| ==> PeriodOrder(s[i], s[j])
  }

  function InsertByPeriod(x: Payout, s: seq<Payout>): (r: seq<Payout>)
    requires SortedByPeriod(s)
    ensures SortedByPeriod(r)
    ensures multiset(r) == multiset(s) + multiset{x}
  {
    if |s| == 0 || PeriodOrder(x, s[0]) then [x] + s
    else
      var rest := InsertByPeriod(x, s[1..]);
      assert s == [s[0]] + s[1..];
      InsertedAfterHead(x, s, rest);
      [s[0]] + rest
  }

  lemma {:induction false} InsertedAfterHead(x: Payout, s: seq<Payout>, rest: seq<Payout>)
    requires |s| > 0 && SortedByPeriod(s) && !PeriodOrder(x, s[0])
    requires SortedByPeriod(rest) && multiset(rest) == multiset(s[1..]) + multiset{x}
    ensures SortedByPeriod([s[0]] + rest)
  {
    var r := [s[0]] + rest;
    forall j | 0 < j < |r|
      ensures PeriodOrder(s[0], r[j])
    {
      assert r[j] == rest[j - 1];
      assert rest[j - 1] in multiset(rest);
      if rest[j - 1] != x {
        assert rest[j - 1] in multiset(s[1..]);
        var k :| 0 <= k < |s[1..]| && s[1..][k] == rest[j - 1];
        assert s[k + 1] == rest[j - 1];
      }
    }
    forall i, j | 0 <= i < j < |r|
      ensures PeriodOrder(r[i], r[j])
    {
      if i > 0 {
        assert r[i] == rest[i - 1] && r[j] == rest[j - 1];
      }
    }
  }

  /** The payouts in queue order: a permutation of `s` sorted by period. */
  function SortByPeriod(s: seq<Payout>): (r: seq<Payout>)
    ensures SortedByPeriod(r)
    ensures multiset(r) == multiset(s)
    ensures |r| == |s|
  {
    if |s| == 0 then []
    else
      assert s == [s[0]] + s[1..];
      InsertByPeriod(s[0], SortByPeriod(s[1..]))
  }

  /** A payout the run queues: one of `league` whose period ended by
      `cutoff` and, when only pending payouts are wanted, without a winner. */
  predicate Due(q: Payout, league: LeagueId, cutoff: Date, pendingOnly: bool) {
    q.league == league && q.endDate <= cutoff && (pendingOnly ==> q.winner.None?)
  }

  /** The payouts of the ledger the run queues, in ledger order, each as
      often as the ledger holds it: a row is selected once. */
  function SelectDue(ledger: Ledger, league: LeagueId, cutoff: Date, pendingOnly: bool): (r: seq<Payout>)
    ensures forall q :: q in r <==> q in ledger && Due(q, league, cutoff, pendingOnly)
    ensures forall q :: multiset(r)[q] == (if Due(q, league, cutoff, pendingOnly) then multiset(ledger)[q] else 0)
    ensures (forall q :: q in ledger ==> !Due(q, league, cutoff, pendingOnly)) ==> r == []
  {
    if |ledger| == 0 then []
    else
      var rest := SelectDue(ledger[1..], league, cutoff, pendingOnly);
      assert forall q :: q in ledger <==> q == ledger[0] || q in ledger[1..];
      if Due(ledger[0], league, cutoff, pendingOnly) then
        assert multiset([ledger[0]] + rest) == multiset{ledger[0]} + multiset(rest);
        assert multiset(ledger) == multiset{ledger[0]} + multiset(ledger[1..]) by {
          assert ledger == [ledger[0]] + ledger[1..];
        }
        [ledger[0]] + rest
      else
        assert multiset(ledger) == multiset{ledger[0]} + multiset(ledger[1..]) by {
          assert ledger == [ledger[0]] + ledger[1..];
        }
        rest
  }

  /** The queue of a run: the due payouts, each once per row, earliest
      period first. */
  function Queue(ledger: Ledger, league: LeagueId, cutoff: Date, pendingOnly: bool): (r: seq<Payout>)
    ensures SortedByPeriod(r)
    ensures forall q :: q in r <==> q in ledger && Due(q, league, cutoff, pendingOnly)
    ensures forall q :: multiset(r)[q] == (if Due(q, league, cutoff, pendingOnly) then multiset(ledger)[q] else 0)
    ensures (forall q :: q in ledger ==> !Due(q, league, cutoff, pendingOnly)) ==> r == []
  {
    var due := SelectDue(ledger, league, cutoff, pendingOnly);
    var r := SortByPeriod(due);
    assert forall q :: q in r <==> q in multiset(due);
    r
  }

  /** The primary keys of a queue, in its order. */
  function Keys(s: seq<Payout>): (r: seq<nat>)
    ensures |r| == |s|
    ensures forall i :: 0 <= i < |s| ==> r[i] == s[i].id
  {
    if |s| == 0 then [] else [s[0].id] + Keys(s[1..])
  }

  /** An elapsed payout that nobody has won yet. */
  predicate Pending(q: Payout, league: LeagueId, cutoff: Date) {
    Due(q, league, cutoff, true)
  }

  /** Resolving the queued payouts one after the other. Each is re-read
      by its key first; one that has disappeared stops the run. */
  function RunAll(ledger: Ledger, ids: seq<nat>, standings: StandingsQuery): Outcome
    decreases |ids|
  {
    if |ids| == 0 then Completed(ledger)
    else
      match Find(ledger, ids[0])
      case None => Aborted(ledger, PayoutMissing)
      case Some(p) =>
        match Resolve(ledger, p, standings(p.league, p.startDate, p.endDate))
        case Err(e) => Aborted(ledger, e)
        case Ok(resolved) => RunAll(resolved, ids[1..], standings)
  }

  /** The run as the program has it: every elapsed payout of the league,
      resolved or not, is queued again. A run that completes leaves no
      pending payout; any run keeps the money and the ledger's constraints
      (for periods that end no earlier than they start). */
  function ProcessPayouts(ledger: Ledger, league: LeagueId, cutoff: Date, standings: StandingsQuery): (r: Outcome)
    ensures r.Completed? ==> forall q :: q in r.ledger ==> !Pending(q, league, cutoff)
    ensures UniqueIds(ledger) && UniqueKeys(ledger) && PeriodsWellFormed(ledger) ==>
      Total(r.ledger) == Total(ledger) && UniqueIds(r.ledger) && UniqueKeys(r.ledger)
  {
    Run(ledger, league, cutoff, standings, false)
  }

  /** The run with resolved payouts left alone: only pending payouts are
      queued. It promises the same as ProcessPayouts. */
  function ProcessUnresolvedPayouts(ledger: Ledger, league: LeagueId, cutoff: Date, standings: StandingsQuery): (r: Outcome)
    ensures r.Completed? ==> forall q :: q in r.ledger ==> !Pending(q, league, cutoff)
    ensures UniqueIds(ledger) && UniqueKeys(ledger) && PeriodsWellFormed(ledger) ==>
      Total(r.ledger) == Total(ledger) && UniqueIds(r.ledger) && UniqueKeys(r.ledger)
  {
    Run(ledger, league, cutoff, standings, true)
  }

  /** Both runs: queue the due payouts by period and resolve them in turn. */
  function Run(ledger: Ledger, league: LeagueId, cutoff: Date, standings: StandingsQuery, pendingOnly: bool): (r: Outcome)
    ensures r.Completed? ==> forall q :: q in r.ledger ==> !Pending(q, league, cutoff)
    ensures UniqueIds(ledger) && UniqueKeys(ledger) && PeriodsWellFormed(ledger) ==>
      Total(r.ledger) == Total(ledger) && UniqueIds(r.ledger) && UniqueKeys(r.ledger)
  {
    var ids := Keys(Queue(ledger, league, cutoff, pendingOnly));
    QueueKeysQueued(ledger, league, cutoff, pendingOnly);
    var run := RunAll(ledger, ids, standings);
    assert run.Completed? ==> forall q :: q in run.ledger ==> !Pending(q, league, cutoff) by {
      if run.Completed? {
        RunAllSettles(ledger, ids, standings, league, cutoff);
      }
    }
    assert UniqueIds(ledger) && UniqueKeys(ledger) && PeriodsWellFormed(ledger) ==>
      Total(run.ledger) == Total(ledger) && UniqueIds(run.ledger) && UniqueKeys(run.ledger) by {
      if UniqueIds(ledger) && UniqueKeys(ledger) && PeriodsWellFormed(ledger) {
        RunAllConservesMoney(ledger, ids, standings);
      }
    }
    run
  }

  /** Every pending payout of the ledger is still queued. */
  ghost predicate Queued(ledger: Ledger, ids: seq<nat>, league: LeagueId, cutoff: Date) {
    forall q :: q in ledger && Pending(q, league, cutoff) ==> q.id in ids
  }

  /** One resolution keeps every pending payout queued behind it: `p` has
      a winner or is gone afterwards, its clones have winners, and the
      payout that absorbs it keeps its key, end date and winner. */
  lemma {:induction false} ResolveKeepsQueued(ledger: Ledger, ids: seq<nat>, standings: StandingsQuery, league: LeagueId, cutoff: Date)
    requires |ids| > 0 && Find(ledger, ids[0]).Some?
    requires var p := Find(ledger, ids[0]).value;
      Resolve(ledger, p, standings(p.league, p.startDate, p.endDate)).Ok?
    requires Queued(ledger, ids, league, cutoff)
    ensures var p := Find(ledger, ids[0]).value;
      Queued(Resolve(ledger, p, standings(p.league, p.startDate, p.endDate)).value, ids[1..], league, cutoff)
  {
    var p := Find(ledger, ids[0]).value;
    var managers := standings(p.league, p.startDate, p.endDate);
    var r := Resolve(ledger, p, managers).value;
    Resolution.ResolveFrame(ledger, p, managers);
    forall q | q in r && Pending(q, league, cutoff)
      ensures q.id in ids[1..]
    {
      var origin := if q in ledger && q.id != p.id then q else EarliestFuture(ledger, p).value;
      assert origin in ledger && Pending(origin, league, cutoff) && origin.id == q.id;
      var k :| 0 <= k < |ids| && ids[k] == q.id;
      assert k != 0;
      assert ids[1..][k - 1] == q.id;
    }
  }

  /** A run that completes leaves no pending payout behind when it started
      with every pending payout queued. */
  lemma {:induction false} RunAllSettles(ledger: Ledger, ids: seq<nat>, standings: StandingsQuery, league: LeagueId, cutoff: Date)
    requires Queued(ledger, ids, league, cutoff)
    requires RunAll(ledger, ids, standings).Completed?
    ensures forall q :: q in RunAll(ledger, ids, standings).ledger ==> !Pending(q, league, cutoff)
    decreases |ids|
  {
    if |ids| > 0 {
      var p := Find(ledger, ids[0]).value;
      var resolved := Resolve(ledger, p, standings(p.league, p.startDate, p.endDate)).value;
      ResolveKeepsQueued(ledger, ids, standings, league, cutoff);
      RunAllSettles(resolved, ids[1..], standings, league, cutoff);
    }
  }

  /** The corrected run is idempotent: once it has completed, running it
      again over what it left changes nothing. */
  lemma {:induction false} CorrectedRerunIsNoOp(ledger: Ledger, league: LeagueId, cutoff: Date, standings: StandingsQuery)
    requires ProcessUnresolvedPayouts(ledger, league, cutoff, standings).Completed?
    ensures var done := ProcessUnresolvedPayouts(ledger, league, cutoff, standings).ledger;
      ProcessUnresolvedPayouts(done, league, cutoff, standings) == Completed(done)
  {
    var ids := Keys(Queue(ledger, league, cutoff, true));
    QueueKeysQueued(ledger, league, cutoff, true);
    RunAllSettles(ledger, ids, standings, league, cutoff);
    var done := RunAll(ledger, ids, standings).ledger;
    assert Keys(Queue(done, league, cutoff, true)) == [];
  }

  /** Either queue holds every pending payout: a pending payout is due
      whether or not resolved payouts are left out. */
  lemma {:induction false} QueueKeysQueued(ledger: Ledger, league: LeagueId, cutoff: Date, pendingOnly: bool)
    ensures Queued(ledger, Keys(Queue(ledger, league, cutoff, pendingOnly)), league, cutoff)
  {
    var queue := Queue(ledger, league, cutoff, pendingOnly);
    forall q | q in ledger && Pending(q, league, cutoff)
      ensures q.id in Keys(queue)
    {
      var k :| 0 <= k < |queue| && queue[k] == q;
      assert Keys(queue)[k] == q.id;
    }
  }


  /** Every period in the ledger ends no earlier than it starts. */
  ghost predicate PeriodsWellFormed(ledger: Ledger) {
    forall q :: q in ledger ==> q.startDate <= q.endDate
  }

  /** A resolution keeps every period well formed: a deferral stretches
      the later payout back to an earlier start, and the resolved payout and
      its clones keep its period. */
  lemma {:induction false} ResolveKeepsPeriods(ledger: Ledger, p: Payout, managers: seq<Standing>)
    requires PeriodsWellFormed(ledger) && p in ledger
    requires Resolve(ledger, p, managers).Ok?
    ensures PeriodsWellFormed(Resolve(ledger, p, managers).value)
  {
    Resolution.ResolveFrame(ledger, p, managers);
  }

  /** A run, whether it completes or stops, never creates or destroys
      money: the ledger it leaves holds what it started with. It also keeps
      primary keys and the uniqueness constraint intact. */
  lemma {:induction false} RunAllConservesMoney(ledger: Ledger, ids: seq<nat>, standings: StandingsQuery)
    requires UniqueIds(ledger) && UniqueKeys(ledger) && PeriodsWellFormed(ledger)
    ensures Total(RunAll(ledger, ids, standings).ledger) == Total(ledger)
    ensures UniqueIds(RunAll(ledger, ids, standings).ledger) && UniqueKeys(RunAll(ledger, ids, standings).ledger)
    decreases |ids|
  {
    if |ids| > 0 && Find(ledger, ids[0]).Some? {
      var p := Find(ledger, ids[0]).value;
      var managers := standings(p.league, p.startDate, p.endDate);
      if Resolve(ledger, p, managers).Ok? {
        var resolved := Resolve(ledger, p, managers).value;
        Resolution.ResolveConservesMoney(ledger, p, managers);
        Resolution.ResolveKeepsLedgerWellFormed(ledger, p, managers);
        ResolveKeepsPeriods(ledger, p, managers);
        RunAllConservesMoney(resolved, ids[1..], standings);
      }
    }
  }
}
