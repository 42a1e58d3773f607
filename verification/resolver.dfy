/** Resolving one payout once its period is over: rank the period's
    standings, find the managers at the payout's position, refuse ties in a
    period that pays several positions, defer a tie to the next payout for
    the same position when there is one, and otherwise split the amount
    among the tied managers. The whole resolution is one transaction: an
    error leaves no new ledger behind. */
module Resolver {
  import opened Wrappers
  import opened Ranking
  import opened Money
  import opened PayoutLedger

  /** `q` pays another position of the same league over the same period as `p`. */
  predicate IsRelated(q: Payout, p: Payout) {
    q.league == p.league && q.startDate == p.startDate && q.endDate == p.endDate && q.position != p.position
  }

  /** `q` pays the same position of the same league over a period that starts
      after `p`'s ends. */
  predicate IsFuture(q: Payout, p: Payout) {
    q.league == p.league && q.position == p.position && q.startDate > p.endDate
  }

  /** The period pays more than one position and one of its payouts (`p`
      itself or a related one) has more than one manager at its position. */
  predicate MultiPositionTie(ledger: Ledger, p: Payout, ranked: seq<Ranked>) {
    && (exists q :: q in ledger && IsRelated(q, p))
    && (|Winners(ranked, p.position)| > 1 ||
        exists q :: q in ledger && IsRelated(q, p) && |Winners(ranked, q.position)| > 1)
  }

  /** The later payout for the same position that starts first; among
      several starting the same day, the first in ledger order. */
  function EarliestFuture(ledger: Ledger, p: Payout): (r: Option<Payout>)
    ensures r.None? <==> forall q :: q in ledger ==> !IsFuture(q, p)
    ensures r.Some? ==> r.value in ledger && IsFuture(r.value, p)
    ensures r.Some? ==> forall q :: q in ledger && IsFuture(q, p) ==> r.value.startDate <= q.startDate
  {
    if |ledger| == 0 then None
    else
      var rest := EarliestFuture(ledger[1..], p);
      assert forall q :: q in ledger <==> q == ledger[0] || q in ledger[1..];
      if IsFuture(ledger[0], p) && (rest.None? || ledger[0].startDate <= rest.value.startDate) then
        Some(ledger[0])
      else
        rest
  }

  /** The record `next` once it has absorbed the unresolved payout `p`: its
      period now starts where `p`'s did and it carries `p`'s money too. */
  function Absorb(next: Payout, p: Payout): Payout {
    next.(startDate := p.startDate, amount := next.amount + p.amount)
  }

  /** Deferring a tie: save the absorbing record, then delete `p`. */
  function Defer(ledger: Ledger, p: Payout, next: Payout): (r: Result<Ledger, Error>)
    ensures r.Err? ==> r.error == IntegrityError
  {
    var saved :- Save(ledger, Absorb(next, p));
    Ok(Remove(saved, p.id))
  }

  /** `c` is a copy of `template`, under its own primary key, holding
      `share` for `entrant`. */
  predicate IsClone(c: Payout, template: Payout, share: int, entrant: EntrantId) {
    c == template.(id := c.id, amount := share, winner := Some(entrant))
  }

  /** The copy of `template` for tied manager `m`, before it gets a key. */
  function CloneFor(template: Payout, share: int, m: Ranked): Payout {
    template.(amount := share, winner := Some(m.entrant))
  }

  /** One new record per remaining tied manager, each holding `share`. */
  function InsertClones(ledger: Ledger, template: Payout, share: int, rest: seq<Ranked>): (r: Result<Ledger, Error>)
    ensures r.Err? ==> r.error == IntegrityError
    decreases |rest|
  {
    if |rest| == 0 then Ok(ledger)
    else
      var added :- Insert(ledger, CloneFor(template, share, rest[0]));
      InsertClones(added, template, share, rest[1..])
  }

  /** A successful InsertClones appends the first clone under the next
      key and carries on from there. */
  lemma {:induction false} InsertClonesStep(ledger: Ledger, template: Payout, share: int, rest: seq<Ranked>)
    requires |rest| > 0 && InsertClones(ledger, template, share, rest).Ok?
    ensures var c := CloneFor(template, share, rest[0]).(id := NextId(ledger));
      && Insert(ledger, CloneFor(template, share, rest[0])) == Ok(ledger + [c])
      && InsertClones(ledger, template, share, rest) == InsertClones(ledger + [c], template, share, rest[1..])
  {
  }

  /** Inserting the clones is refused when a row already holds the slot
      for one of the managers in `rest`. */
  lemma {:induction false} InsertClonesRefused(ledger: Ledger, template: Payout, share: int, rest: seq<Ranked>, q: Payout, j: nat)
    requires q in ledger && SameSlot(q, template)
    requires j < |rest| && q.winner == Some(rest[j].entrant)
    ensures InsertClones(ledger, template, share, rest).Err?
    decreases |rest|
  {
    var c := CloneFor(template, share, rest[0]);
    InsertSpec(ledger, c);
    if j == 0 {
      assert q.winner.Some? && q.winner == c.winner && SameSlot(q, c);
    } else if Insert(ledger, c).Ok? {
      var added := Insert(ledger, c).value;
      assert added[..|ledger|] == ledger;
      assert q in added;
      assert rest[1..][j - 1] == rest[j];
      InsertClonesRefused(added, template, share, rest[1..], q, j - 1);
    }
  }

  /** The clones for `rest`, keyed from `start` upwards. */
  function Clones(start: nat, template: Payout, share: int, rest: seq<Ranked>): (r: seq<Payout>)
    ensures |r| == |rest|
    decreases |rest|
  {
    if |rest| == 0 then []
    else [CloneFor(template, share, rest[0]).(id := start)] + Clones(start + 1, template, share, rest[1..])
  }

  /** The `i`-th clone belongs to the `i`-th tied manager and has key `start + i`. */
  lemma {:induction false} ClonesAt(start: nat, template: Payout, share: int, rest: seq<Ranked>, i: nat)
    requires i < |rest|
    ensures Clones(start, template, share, rest)[i] == CloneFor(template, share, rest[i]).(id := start + i)
    decreases |rest|
  {
    if i > 0 {
      ClonesAt(start + 1, template, share, rest[1..], i - 1);
    }
  }

  /** A successful InsertClones appends exactly the clones, keyed from
      the ledger's next key upwards. */
  lemma {:induction false} InsertClonesAppends(ledger: Ledger, template: Payout, share: int, rest: seq<Ranked>, r: Ledger)
    requires InsertClones(ledger, template, share, rest) == Ok(r)
    ensures r == ledger + Clones(NextId(ledger), template, share, rest)
    decreases |rest|
  {
    if |rest| > 0 {
      var start := NextId(ledger);
      var c := CloneFor(template, share, rest[0]).(id := start);
      var added := ledger + [c];
      InsertClonesStep(ledger, template, share, rest);
      NextIdAppend(ledger, c);
      InsertClonesAppends(added, template, share, rest[1..], r);
      ClonesCons(ledger, start, template, share, rest);
    }
  }

  lemma {:induction false} ClonesCons(ledger: Ledger, start: nat, template: Payout, share: int, rest: seq<Ranked>)
    requires |rest| > 0
    ensures ledger + Clones(start, template, share, rest)
         == (ledger + [CloneFor(template, share, rest[0]).(id := start)]) + Clones(start + 1, template, share, rest[1..])
  {
    var c := CloneFor(template, share, rest[0]).(id := start);
    var later := Clones(start + 1, template, share, rest[1..]);
    assert Clones(start, template, share, rest) == [c] + later;
  }

  /** The records InsertClones adds are the clones, in the order of the
      tied managers. */
  lemma {:induction false} InsertClonesAddsClones(ledger: Ledger, template: Payout, share: int, rest: seq<Ranked>)
    requires InsertClones(ledger, template, share, rest).Ok?
    ensures var r := InsertClones(ledger, template, share, rest).value;
      && |r| == |ledger| + |rest|
      && forall i :: |ledger| <= i < |r| ==> IsClone(r[i], template, share, rest[i - |ledger|].entrant)
  {
    var r := InsertClones(ledger, template, share, rest).value;
    InsertClonesAppends(ledger, template, share, rest, r);
    var added := Clones(NextId(ledger), template, share, rest);
    forall i | |ledger| <= i < |r|
      ensures IsClone(r[i], template, share, rest[i - |ledger|].entrant)
    {
      assert r[i] == added[i - |ledger|];
      ClonesAt(NextId(ledger), template, share, rest, i - |ledger|);
    }
  }

  /** The clones get new primary keys that increase along the ledger. */
  lemma {:induction false} InsertClonesFreshIds(ledger: Ledger, template: Payout, share: int, rest: seq<Ranked>)
    requires InsertClones(ledger, template, share, rest).Ok?
    ensures var r := InsertClones(ledger, template, share, rest).value;
      && |r| == |ledger| + |rest|
      && forall i :: |ledger| <= i < |r| ==> r[i].id == NextId(ledger) + (i - |ledger|)
  {
    var r := InsertClones(ledger, template, share, rest).value;
    InsertClonesAppends(ledger, template, share, rest, r);
    var added := Clones(NextId(ledger), template, share, rest);
    forall i | |ledger| <= i < |r|
      ensures r[i].id == NextId(ledger) + (i - |ledger|)
    {
      assert r[i] == added[i - |ledger|];
      ClonesAt(NextId(ledger), template, share, rest, i - |ledger|);
    }
  }

  /** The clones add `share` cents each to the ledger. */
  lemma {:induction false} InsertClonesTotal(ledger: Ledger, template: Payout, share: int, rest: seq<Ranked>)
    requires InsertClones(ledger, template, share, rest).Ok?
    ensures Total(InsertClones(ledger, template, share, rest).value) == Total(ledger) + Times(|rest|, share)
  {
    InsertClonesAppends(ledger, template, share, rest, InsertClones(ledger, template, share, rest).value);
    TotalConcat(ledger, Clones(NextId(ledger), template, share, rest));
    TotalClones(NextId(ledger), template, share, rest);
  }

  lemma {:induction false} TotalClones(start: nat, template: Payout, share: int, rest: seq<Ranked>)
    ensures Total(Clones(start, template, share, rest)) == Times(|rest|, share)
    decreases |rest|
  {
    if |rest| > 0 {
      var r := Clones(start, template, share, rest);
      assert r[1..] == Clones(start + 1, template, share, rest[1..]);
      TotalClones(start + 1, template, share, rest[1..]);
    }
  }

  /** InsertClones succeeds when none of the tied managers already holds
      the template's slot and no manager is tied twice. */
  lemma {:induction false} InsertClonesSucceeds(ledger: Ledger, template: Payout, share: int, rest: seq<Ranked>)
    requires DistinctEntrants(rest)
    requires forall q, w :: q in ledger && w in rest && SameSlot(q, template) ==> q.winner != Some(w.entrant)
    ensures InsertClones(ledger, template, share, rest).Ok?
    decreases |rest|
  {
    if |rest| > 0 {
      var clone := CloneFor(template, share, rest[0]);
      assert rest[0] in rest;
      InsertSpec(ledger, clone);
      var added := Insert(ledger, clone).value;
      forall q, w | q in added && w in rest[1..] && SameSlot(q, template)
        ensures q.winner != Some(w.entrant)
      {
        var k :| 0 <= k < |rest[1..]| && rest[1..][k] == w;
        assert rest[k + 1] == w;
        if q !in ledger {
          assert q == clone.(id := NextId(ledger));
        }
      }
      InsertClonesSucceeds(added, template, share, rest[1..]);
    }
  }

  /** The record `p` becomes when it goes to the first of its winners: the share plus the leftover. */
  function FirstRecord(p: Payout, winners: seq<Ranked>): Payout
    requires |winners| > 0
  {
    p.(amount := FirstShare(p.amount, |winners|), winner := Some(winners[0].entrant))
  }

  /** Splitting `p` among its winners: `p` itself goes to the first winner
      with the share plus the leftover cents, and every further winner gets
      a copy of `p` holding one share. */
  function Split(ledger: Ledger, p: Payout, winners: seq<Ranked>): (r: Result<Ledger, Error>)
    requires |winners| > 0
    ensures r.Err? ==> r.error == IntegrityError
  {
    var first := FirstRecord(p, winners);
    var saved :- Save(ledger, first);
    InsertClones(saved, first, Share(p.amount, |winners|), winners[1..])
  }

  /** Resolving payout `p` against `managers`, the period's standings with
      the highest score first. */
  function Resolve(ledger: Ledger, p: Payout, managers: seq<Standing>): (r: Result<Ledger, Error>)
    ensures r == Err(NoManagers) <==> |managers| == 0
    ensures r == Err(UnresolvableTie) <==> |managers| > 0 && MultiPositionTie(ledger, p, Ranks(managers))
    ensures r == Err(NoWinner) <==>
      |managers| > 0 && !MultiPositionTie(ledger, p, Ranks(managers)) && |Winners(Ranks(managers), p.position)| == 0
    ensures r.Err? ==> r.error in {NoManagers, UnresolvableTie, NoWinner, IntegrityError}
    ensures (r.Err? && |managers| > 0 && !MultiPositionTie(ledger, p, Ranks(managers))
             && |Winners(Ranks(managers), p.position)| > 0) ==> r.error == IntegrityError
  {
    if |managers| == 0 then Err(NoManagers)
    else
      var ranked := Ranks(managers);
      if MultiPositionTie(ledger, p, ranked) then Err(UnresolvableTie)
      else
        var winners := Winners(ranked, p.position);
        var next := EarliestFuture(ledger, p);
        if |winners| > 1 && next.Some? then Defer(ledger, p, next.value)
        else if |winners| == 0 then Err(NoWinner)
        else Split(ledger, p, winners)
  }
}
