# leaguetracker payout resolver, modelled in Dafny

This project models how leaguetracker settles the cash payouts of a fantasy
football league once a payout's period is over, and proves properties of
that model.

A payout pays one finishing position of one league over a period of
gameweeks. When the period has ended, the program does the following:

1. It ranks the league's managers by their summed score over the period
   (dense competition ranking).
2. It refuses to resolve a tie when the period pays several positions.
3. Otherwise it hands a tie on to the next payout for the same position,
   when there is one.
4. Failing that, it splits the amount among the tied managers. Each
   further winner gets a copy of the payout record. A uniqueness constraint
   on the payout table keeps a winner from holding the same slot twice.

A league run walks over the payouts whose period has ended, earliest period
first, and resolves them one by one. Two small scoring rules feed the
scores: a manager's net gameweek score, and the points a head-to-head match
awards.

Modelling choices:

- Money is a whole number of cents.
- The payout table is a sequence of records with explicit primary keys.
  Saving a record either updates the row with its key or inserts it, and
  every save is checked against the unique key (league, position, start
  date, end date, winner). As in SQL, two rows without a winner never
  clash.
- Every resolution either returns a new ledger or an error and no new
  ledger, which is how the transaction around it behaves.
- Errors are explicit values:
  - `NoManagers`: the empty standings are refused.
  - `UnresolvableTie`: the guard against ties over several positions.
  - `NoWinner`: nobody holds the rank equal to the position, and the share
    computation divides by zero.
  - `IntegrityError`: the uniqueness constraint refuses a save.
  - `PayoutMissing`: a queued payout has disappeared by the time the run
    reaches it.

Modules, one file each:

- `Wrappers`: Option and Result.
- `Scoring`: the net score and the head-to-head points.
- `Ranking`: the ranking walk and the winners at a position.
- `Money`: half-even rounding and the split.
- `PayoutLedger`: the table, save, insert, delete, and the money it holds.
- `Resolver`: one resolution.
- `Resolution`: what a resolution does, case by case, and the invariants it keeps.
- `Driver`: the league run.
- `Scenarios`: worked examples.
- `Findings`: the re-run problem described below.

Two behaviours of the code are worth naming:

- Later payouts for the same position are ordered by start date only
  (fpl/models.py:299-305). Among later payouts that start on the same day,
  the model takes the first in ledger order.
- The league run queues every payout of the league whose period has ended,
  whether it already has a winner or not (fpl/models.py:29-32). The model
  keeps that run as `Driver.ProcessPayouts`.
  `Driver.ProcessUnresolvedPayouts` is the variant of the run that queues
  only payouts without a winner; see Findings.

## Model

| member | source | states |
|---|---|---|
| Scoring.GameweekScore | fpl/models.py:161 | the net score plus the transfer cost gives back the points scored; a non-negative cost never raises the score, and no cost leaves it unchanged |
| Scoring.GameweekScoreExamples | fpl/tests.py:104-117 | the recorded gameweeks: 10 points with no cost score 10, and 10 points with an 8-point cost score 2 |
| Scoring.HeadToHeadPoints | fpl/models.py:231-239 | the two managers get the same points exactly when their scores are equal; the first gets more exactly when it scored more; a match awards 2 points in a draw and 3 otherwise, and each side gets 0, 1 or 3 |
| Scoring.HeadToHeadPointsSymmetric | fpl/models.py:231-239 | swapping the two managers swaps their points |
| Scoring.HeadToHeadWinnerTakesThree | fpl/models.py:234-239 | in a match that is not a draw, one side gets 3 and the other 0 |
| Ranking.RankFrom | fpl/models.py:271-280 | the walk from any state keeps every manager's entrant and score; a manager opens a new rank exactly when its score differs from the last one seen |
| Ranking.Ranks | fpl/models.py:271-280 | the first manager is ranked 1; a manager with the same score as the one before shares its rank, and any other manager is ranked one more |
| Ranking.RanksAreDense | fpl/models.py:271-280 | every rank lies between 1 and the manager's place in the list, and ranks never decrease along the list |
| Ranking.RankOrder | fpl/models.py:271-280 | on standings sorted by score, two managers share a rank exactly when they have the same score, and a higher score never gets a worse rank |
| Ranking.RankCountsDistinctScores | fpl/models.py:271-280 | on standings sorted by score, a manager's rank is the number of distinct scores from the top of the list down to that manager |
| Ranking.Winners | fpl/models.py:293 | the winners are exactly the ranked managers whose rank equals the position, and the first of them is the first such manager in the list |
| Ranking.PlacesAt | fpl/models.py:293 | the places in the list of the managers whose rank equals the position: each such manager's place appears, no other place does, and the places increase |
| Ranking.WinnersInListOrder | fpl/models.py:293 | the k-th winner is the manager at the k-th of those places, so the winners keep the standings order and leave nobody at the position out |
| Ranking.WinnersShareScore | fpl/models.py:293 | on standings sorted by score, all the winners at a position have the same score |
| Ranking.RanksKeepEntrants | fpl/models.py:275-280 | ranking never makes an entrant appear twice |
| Ranking.WinnersHaveDistinctEntrants | fpl/models.py:293 | winners picked from a list without repeated entrants have no repeated entrant |
| Money.RoundHalfEven | fpl/models.py:314 | the rounded share is within half a cent per winner of the exact quotient, and an exact half-way case goes to the even amount |
| Money.RoundHalfEvenUnique | fpl/models.py:314 | any amount meeting those two conditions is the rounded share, so they define half-even rounding to the cent |
| Money.SplitIsExact | fpl/models.py:314-316 | the first winner's amount and one share for each other winner add up to the amount split, to the cent, and the first amount is within n/2 cents of the share |
| Money.SplitThreeWays | fpl/models.py:314-316 | 2.00 split three ways gives shares of 0.67 and 0.66 to the first winner |
| Money.SplitHalfCent | fpl/models.py:314-316 | 0.05 split two ways rounds the half cent to the even 0.02, and the first winner gets 0.03 |
| PayoutLedger.SaveSpec | leagues/migrations/0013_auto_20171023_1656.py:19 | a save is refused exactly when another row already holds the same (league, position, start, end, winner) with a winner; otherwise it overwrites the row with the record's key, or appends the record when there is none |
| PayoutLedger.Insert | fpl/models.py:321-324 | a successful insert appends the record under the next free primary key, and an insert is refused exactly when the copy clashes on the unique key |
| PayoutLedger.InsertSpec | fpl/models.py:321-324 | an insert is refused exactly when a row with the same slot already has the record's winner |
| PayoutLedger.SaveFrame | fpl/models.py:318 | after a successful save, every row is either the saved record or a row that was there before under another key |
| PayoutLedger.SaveKeepsWellFormed | leagues/migrations/0013_auto_20171023_1656.py:19 | a successful save keeps primary keys unique and keeps the unique key on (league, position, start, end, winner) |
| PayoutLedger.RemoveKeepsWellFormed | fpl/models.py:312 | deleting a row keeps primary keys unique and keeps the unique key |
| PayoutLedger.TotalReplace | fpl/models.py:318 | overwriting a row changes the money in the ledger by the difference between the new and the old amount |
| PayoutLedger.TotalRemove | fpl/models.py:312 | deleting a row takes exactly its amount out of the ledger |
| Resolver.EarliestFuture | fpl/models.py:299-305 | there is no answer exactly when no payout for the same position of the league starts after this period ends; otherwise the answer is such a payout, and none starts earlier |
| Resolver.Resolve | fpl/models.py:266-324 | NoManagers comes exactly when there are no managers; UnresolvableTie comes exactly when the period pays another position and this or a related payout has several winners; NoWinner comes exactly when the guard passes and nobody holds the position; once the guard passes and somebody holds the position, the only failure is the uniqueness constraint |
| Resolver.InsertClonesAppends | fpl/models.py:320-324 | inserting the clones appends exactly one record per further winner, keyed upwards from the next free key |
| Resolver.InsertClonesAddsClones | fpl/models.py:320-324 | each appended record is a copy of the resolved record holding one share for the next tied manager, in standings order |
| Resolver.InsertClonesFreshIds | fpl/models.py:321 | the appended records get the next free primary keys, one after the other |
| Resolver.InsertClonesTotal | fpl/models.py:320-324 | the clones add one share per further winner to the money in the ledger |
| Resolver.InsertClonesSucceeds | fpl/models.py:320-324 | inserting the clones cannot fail when no tied manager already holds the slot and no manager is tied twice |
| Resolver.InsertClonesRefused | fpl/models.py:320-324 | inserting the clones is refused when a row already holds the slot for one of the further tied managers |
| Resolver.Defer | fpl/models.py:307-312 | a deferral can only fail on the uniqueness constraint; what it does to the ledger is stated by Resolution.DeferFrame and Resolution.DeferConservesMoney |
| Resolver.Split | fpl/models.py:313-324 | a split can only fail on the uniqueness constraint; when it succeeds and when it is refused are stated by Resolution.SplitSucceeds and Resolution.SplitRefused, its result by Resolution.SplitShape and Resolution.SplitConservesMoney |
| Resolution.SplitSucceeds | fpl/models.py:313-324 | a split succeeds when no other record holds the payout's slot for one of the winners and no entrant is among them twice |
| Resolution.SplitRefused | fpl/models.py:313-324 | a split is refused when another record already holds the payout's slot for one of the winners, whichever winner it is |
| Resolution.SplitShape | fpl/models.py:313-324 | a successful split overwrites the payout with the first winner and the first amount, leaves every other record as it was, and appends one clone per further winner, in order, under new distinct keys |
| Resolution.SplitConservesMoney | fpl/models.py:314-324 | a successful split leaves the money in the ledger unchanged |
| Resolution.DeferConservesMoney | fpl/models.py:307-312 | a successful deferral into another record leaves the money in the ledger unchanged and removes exactly one row |
| Resolution.DeferFrame | fpl/models.py:307-312 | after a deferral the ledger holds the absorbing record, with its period stretched back and both amounts, and every other record except the deferred one, unchanged |
| Resolution.TieDeferral | fpl/models.py:307-312 | for a tie at a position paid once in the period, with a later payout to come: the resolution succeeds exactly when the rewritten later payout clashes with no row, and then the earliest later payout absorbs this one, this one is gone, nothing else changes and the money is the same |
| Resolution.TieSplit | fpl/models.py:313-324 | for a tie with no later payout: the payout becomes as many records as there are tied managers; the payout's own row holds the first tied manager with the share plus the leftover, each further tied manager gets an appended copy holding one share, in the order of the winners (the standings order, by Ranking.WinnersInListOrder), every other row stays, and the money is the same |
| Resolution.SingleWinner | fpl/models.py:313-318 | with exactly one manager at the position, that manager's entrant becomes the winner, the amount is unchanged and no other record changes |
| Resolution.ResolveConservesMoney | fpl/models.py:307-324 | every successful resolution leaves the money in the ledger unchanged |
| Resolution.ResolveKeepsLedgerWellFormed | fpl/models.py:307-324 | every successful resolution keeps primary keys unique and keeps the unique key |
| Resolution.ResolveFrame | fpl/models.py:307-324 | every record left after a successful resolution was there before under another key, is the later payout that absorbed this one, or holds this payout's slot with a winner |
| Driver.SortByPeriod | fpl/models.py:32 | the queue order is a permutation of the payouts sorted by start date, then end date |
| Driver.SelectDue | fpl/models.py:29-31 | exactly the payouts of the league whose period ended by the cut-off are selected (only those without a winner, when asked), each as many times as the ledger holds it, so each row once |
| Driver.Queue | fpl/models.py:29-32 | the queue holds exactly the due payouts, each row once, sorted by period, and is empty when none is due |
| Driver.RunAll | fpl/models.py:34-36 | the queued payouts resolved in turn, stopping at the first failure; what it promises is stated by Driver.RunAllSettles and Driver.RunAllConservesMoney |
| Driver.ProcessPayouts | fpl/models.py:22-36 | the run as written, over every elapsed payout of the league: a run that completes leaves no payout without a winner, and any run keeps the money and the ledger's keys intact; that a second run aborts is Findings.RerunAfterTieSplitFails |
| Driver.ProcessUnresolvedPayouts | fpl/models.py:22-36 | the run over the elapsed payouts without a winner: the same two promises, and a second run changes nothing (Driver.CorrectedRerunIsNoOp) |
| Driver.ResolveKeepsQueued | fpl/models.py:34-36 | after one resolution, every payout still pending is queued behind it |
| Driver.RunAllSettles | fpl/models.py:34-36 | a run that completes, having queued every pending payout, leaves no pending payout behind |
| Driver.RunAllConservesMoney | fpl/models.py:34-36 | a run, whether it completes or stops, leaves the money in the ledger unchanged and keeps primary keys and the unique key intact |
| Driver.CorrectedRerunIsNoOp | fpl/models.py:29-36 | once the run that skips resolved payouts has completed, running it again changes nothing |
| Scenarios.SingleWinnerScenario | fpl/models.py:313-318 | with scores highest first and no ties, the top manager's entrant wins the 10.00 payout for first place, which keeps its amount |
| Scenarios.MultiPositionTieScenario | fpl/models.py:292-297 | three managers on one score in a period paying first and second place: resolving first place is refused |
| Scenarios.MultiPositionTieScenarioSecond | fpl/models.py:292-297 | the same tie also refuses second place, which nobody reached |
| Scenarios.DeferralScenario | fpl/models.py:307-312 | a tied 10.00 payout with a later 10.00 payout: one record is left, starting where the first period did and holding 20.00 |
| Scenarios.SplitScenario | fpl/models.py:313-324 | 2.00 split among three tied managers: 0.66 stays on the record for the first, and copies holding 0.67 go to the second and the third |
| Findings.FirstResolution | fpl/models.py:313-324 | 2.00 tied between entrants 7 and 8 becomes 1.00 on record 1 for 7 and a new record 2 with 1.00 for 8 |
| Findings.SecondResolution | fpl/models.py:313-324 | resolving record 1 again splits its 1.00, and the copy for entrant 8 collides with record 2 |
| Findings.RerunAfterTieSplitFails | fpl/models.py:29-36 | the run as written completes once and then, started again on what it left, stops with an integrity error |
| Findings.CorrectedRerunAfterTieSplit | fpl/models.py:29-36 | the run that skips resolved payouts gives the same first result and leaves the ledger alone when started again |

## Left out

- Fetching league and performance data over HTTP, the login session and the JSON parsing are left out, because they are network I/O. The scores the resolver reads come from a parameter instead.
- The standings query, which sums each manager's scores over the period and orders them by score, is the parameter `Driver.StandingsQuery`. The order of managers with equal scores is whatever the database returns, and the model takes the given order. The head-to-head payout runs the same resolver on a different query, which the same parameter covers.
- The cut-off date is a parameter. That date is the end of the latest gameweek that has ended by today, and the error raised when no gameweek has ended yet is not modelled, because it depends on the wall clock and date parsing.
- The decimal context and the column width are not modelled. The context is 28 significant digits, and amounts are two-place decimals of at most 8 digits. Amounts are unbounded integers of cents, and the rounded quotient is exact.
- A manager without an entrant (a nullable column) is not modelled; the winner is an opaque entrant id.
- Each entrant's `paid_entry` flag is not modelled. The standings page only attaches the flag to each entrant (fpl/views.py:25-29), and nothing in the source filters winners or standings on it.
- The older `paid_to` column and unique key of the payout class in leagues/models.py are not modelled. The resolver writes `winner`, and the model follows the later migration's key.
- Views, templates, URL routing, admin registration and migrations are left out.
- Re-reading a queued payout that has been deleted is the `PayoutMissing` error of the run.
- Concurrency between runs of the same league is not modelled. Each resolution is one transaction, and a run is sequential.
- Resolution.ResolveConservesMoney requires the payout's period to end no earlier than it starts. A payout that starts after it ends counts as its own later payout, and deferring into itself deletes it together with its money.
- Resolution.TieDeferral carries the same requirement, for the same reason.
- Driver.RunAllConservesMoney requires every period in the ledger to end no earlier than it starts, for the same reason.
- Driver.ProcessPayouts promises to keep the money only when every period in the ledger ends no earlier than it starts, for the same reason.
- Driver.ProcessUnresolvedPayouts carries the same condition on its money promise.
- Resolution.TieSplit states the success case when no other record already holds the payout's slot for a winner. When one does, the split is refused (Resolution.SplitRefused), and Resolver.Resolve classifies that failure as the uniqueness constraint.
- Resolution.SingleWinner states the success case when no other record already holds the payout's slot for the winner. When one does, the split is refused (Resolution.SplitRefused) with the uniqueness constraint.
- PayoutLedger.NextId gives a new row the key one past the largest key in the table. The database takes new keys from its own sequence, which never reuses the key of a deleted row, so after a deferral deletes the row with the largest key the keys of later copies can differ. Resolver.InsertClonesFreshIds, Resolver.InsertClonesAppends and Findings.FirstResolution state key values under this choice; which rows exist and what they hold does not depend on it.

## Findings

| source | as written | input that shows it | evidently intended | confidence | as-written member | corrected member |
|---|---|---|---|---|---|---|
| fpl/models.py:29-36 | the run queues every payout of the league whose period has ended, including those that already have a winner, and resolves each again | one 2.00 payout for first place, two managers level on 50 points, the run started twice | resolved payouts are left out of the run, so running it again changes nothing | not executed | Findings.RerunAfterTieSplitFails | Driver.CorrectedRerunIsNoOp |

With the run as written, the first run splits the payout into 1.00 for each
manager. The second run splits record 1 again, and the copy for the second
manager collides with record 2 on the unique key. The second run therefore
always stops with an integrity error. Had it not, the payout would have been
split a second time. `Driver.ProcessUnresolvedPayouts` queues only payouts
without a winner; the lemmas about it prove that a completed run leaves
nothing pending and that a second run is a no-op.
