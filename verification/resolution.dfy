/** What a resolution does to the ledger, case by case, and the two
    invariants every successful resolution keeps: the money in the ledger
    and the ledger's key constraints. */
module Resolution {
  import opened Wrappers
  import opened Ranking
  import opened Money
  import opened PayoutLedger
  import opened Resolver

  /** No record other than `p` already holds `p`'s slot for one of these
      managers' entrants. */
  ghost predicate SlotFreeFor(ledger: Ledger, p: Payout, winners: seq<Ranked>) {
    forall q, w :: q in ledger && w in winners && q.id != p.id && SameSlot(q, p) ==> q.winner != Some(w.entrant)
  }

  /** Splitting succeeds when none of the winners already holds `p`'s slot
      and no entrant is among them twice. */
  lemma {:induction false} SplitSucceeds(ledger: Ledger, p: Payout, winners: seq<Ranked>)
    requires p in ledger
    requires |winners| > 0 && DistinctEntrants(winners)
    requires SlotFreeFor(ledger, p, winners)
    ensures Split(ledger, p, winners).Ok?
  {
    var first := FirstRecord(p, winners);
    assert !exists q :: q in ledger && Conflicts(q, first) by {
      assert winners[0] in winners;
    }
    SaveSpec(ledger, first);
    var saved := Save(ledger, first).value;
    assert saved == Replace(ledger, first);
    var rest := winners[1..];
    forall q, w | q in saved && w in rest && SameSlot(q, first)
      ensures q.winner != Some(w.entrant)
    {
      var k :| 0 <= k < |rest| && rest[k] == w;
      assert winners[k + 1] == w;
      var i :| 0 <= i < |saved| && saved[i] == q;
      if ledger[i].id != p.id {
        assert ledger[i] in ledger;
      }
    }
    InsertClonesSucceeds(saved, first, Share(p.amount, |winners|), rest);
  }

  /** The converse of SplitSucceeds for the slot: a split is refused when
      another record already holds `p`'s slot for one of the winners. */
  lemma {:induction false} SplitRefused(ledger: Ledger, p: Payout, winners: seq<Ranked>, q: Payout, k: nat)
    requires q in ledger && q.id != p.id && SameSlot(q, p)
    requires k < |winners| && q.winner == Some(winners[k].entrant)
    ensures Split(ledger, p, winners).Err?
  {
    var first := FirstRecord(p, winners);
    SaveSpec(ledger, first);
    if k == 0 {
      assert Conflicts(q, first);
    } else if Save(ledger, first).Ok? {
      var saved := Save(ledger, first).value;
      var i :| 0 <= i < |ledger| && ledger[i] == q;
      if exists x :: x in ledger && x.id == first.id {
        assert saved == Replace(ledger, first);
        assert saved[i] == q;
      } else {
        assert saved == ledger + [first];
        assert saved[i] == q;
      }
      assert winners[1..][k - 1] == winners[k];
      InsertClonesRefused(saved, first, Share(p.amount, |winners|), winners[1..], q, k - 1);
    }
  }

  /** A successful split is the first record saved over `p`, then the
      clones inserted. */
  lemma {:induction false} SplitSteps(ledger: Ledger, p: Payout, winners: seq<Ranked>)
    requires p in ledger
    requires |winners| > 0
    requires Split(ledger, p, winners).Ok?
    ensures Save(ledger, FirstRecord(p, winners)) == Ok(Replace(ledger, FirstRecord(p, winners)))
    ensures Split(ledger, p, winners) ==
      InsertClones(Replace(ledger, FirstRecord(p, winners)), FirstRecord(p, winners), Share(p.amount, |winners|), winners[1..])
  {
    SaveSpec(ledger, FirstRecord(p, winners));
  }

  /** A successful split overwrites `p` with the first winner and the first
      share, leaves every other record as it was, and appends one clone per
      further winner, in the winners' order, under new primary keys. */
  lemma {:induction false} SplitShape(ledger: Ledger, p: Payout, winners: seq<Ranked>, r: Ledger)
    requires UniqueIds(ledger) && p in ledger
    requires |winners| > 0
    requires Split(ledger, p, winners) == Ok(r)
    ensures |r| == |ledger| + |winners| - 1
    ensures forall i :: 0 <= i < |ledger| ==>
      r[i] == (if ledger[i].id == p.id then FirstRecord(p, winners) else ledger[i])
    ensures forall i :: |ledger| <= i < |r| ==>
      IsClone(r[i], FirstRecord(p, winners), Share(p.amount, |winners|), winners[i - |ledger| + 1].entrant)
    ensures forall i, j :: 0 <= i < j < |r| ==> r[i].id != r[j].id
  {
    var first := FirstRecord(p, winners);
    var share := Share(p.amount, |winners|);
    SplitSteps(ledger, p, winners);
    var saved := Replace(ledger, first);
    ClonesAfter(saved, first, share, winners, r);
    assert |saved| == |ledger|;
    forall i | |ledger| <= i < |r|
      ensures IsClone(r[i], FirstRecord(p, winners), Share(p.amount, |winners|), winners[i - |ledger| + 1].entrant)
    {
      assert IsClone(r[i], first, share, winners[i - |saved| + 1].entrant);
      assert IsClone(r[i], first, share, winners[i - |ledger| + 1].entrant);
    }
    forall i, j | 0 <= i < j < |r|
      ensures r[i].id != r[j].id
    {
      if j >= |ledger| && i < |ledger| {
        assert r[i] == saved[i] && saved[i] in saved;
      } else if j < |ledger| {
        assert r[i].id == ledger[i].id && r[j].id == ledger[j].id;
      }
    }
  }

  /** The clones InsertClones appends to `saved` for the winners after the
      first are clones of the first record, in the winners' order. */
  lemma {:induction false} ClonesAfter(saved: Ledger, first: Payout, share: int, winners: seq<Ranked>, r: Ledger)
    requires |winners| > 0
    requires InsertClones(saved, first, share, winners[1..]) == Ok(r)
    ensures |r| == |saved| + |winners| - 1 && r[..|saved|] == saved
    ensures forall i :: |saved| <= i < |r| ==> IsClone(r[i], first, share, winners[i - |saved| + 1].entrant)
    ensures forall i :: |saved| <= i < |r| ==> r[i].id >= NextId(saved)
    ensures forall i, j :: |saved| <= i < j < |r| ==> r[i].id < r[j].id
  {
    InsertClonesAppends(saved, first, share, winners[1..], r);
    assert r[..|saved|] == saved;
    InsertClonesAddsClones(saved, first, share, winners[1..]);
    InsertClonesFreshIds(saved, first, share, winners[1..]);
    forall i | |saved| <= i < |r|
      ensures IsClone(r[i], first, share, winners[i - |saved| + 1].entrant)
    {
      assert winners[1..][i - |saved|] == winners[i - |saved| + 1];
    }
  }

  /** A successful split leaves the money in the ledger unchanged: the
      first share, the leftover and the clones' shares add up to the amount
      split. */
  lemma {:induction false} SplitConservesMoney(ledger: Ledger, p: Payout, winners: seq<Ranked>)
    requires UniqueIds(ledger) && p in ledger
    requires |winners| > 0
    requires Split(ledger, p, winners).Ok?
    ensures Total(Split(ledger, p, winners).value) == Total(ledger)
  {
    SplitSteps(ledger, p, winners);
    SplitTotal(ledger, p, winners, Split(ledger, p, winners).value);
  }

  /** The money once `p` has been overwritten with the first record and the
      clones have been appended. */
  lemma {:induction false} SplitTotal(ledger: Ledger, p: Payout, winners: seq<Ranked>, r: Ledger)
    requires UniqueIds(ledger) && p in ledger
    requires |winners| > 0
    requires InsertClones(Replace(ledger, FirstRecord(p, winners)), FirstRecord(p, winners), Share(p.amount, |winners|), winners[1..]) == Ok(r)
    ensures Total(r) == Total(ledger)
  {
    var first := FirstRecord(p, winners);
    var share := Share(p.amount, |winners|);
    var n := |winners|;
    var saved := Replace(ledger, first);
    assert Total(r) == Total(saved) + Times(n - 1, share) by {
      InsertClonesTotal(saved, first, share, winners[1..]);
    }
    assert Total(saved) == Total(ledger) - p.amount + first.amount by {
      TotalReplace(ledger, p, first);
    }
    assert first.amount + Times(n - 1, share) == p.amount by {
      SplitIsExact(p.amount, n);
    }
  }

  /** A successful deferral leaves the money in the ledger unchanged when
      the absorbing record is not `p` itself. */
  lemma {:induction false} DeferConservesMoney(ledger: Ledger, p: Payout, next: Payout)
    requires UniqueIds(ledger) && p in ledger && next in ledger && next.id != p.id
    requires Defer(ledger, p, next).Ok?
    ensures Total(Defer(ledger, p, next).value) == Total(ledger)
    ensures |Defer(ledger, p, next).value| == |ledger| - 1
  {
    var moved := Absorb(next, p);
    var saved := Replace(ledger, moved);
    DeferSteps(ledger, p, next);
    TotalReplace(ledger, next, moved);
    assert UniqueIds(saved) by {
      forall i, j | 0 <= i < j < |saved|
        ensures saved[i].id != saved[j].id
      {
        assert saved[i].id == ledger[i].id && saved[j].id == ledger[j].id;
      }
    }
    assert p in saved by {
      var k :| 0 <= k < |ledger| && ledger[k] == p;
      assert saved[k] == p;
    }
    TotalRemove(saved, p);
  }

  /** A successful deferral is the absorbing record saved over the row
      with its key, then `p`'s row deleted. */
  lemma {:induction false} DeferSteps(ledger: Ledger, p: Payout, next: Payout)
    requires next in ledger
    requires Defer(ledger, p, next).Ok?
    ensures Save(ledger, Absorb(next, p)) == Ok(Replace(ledger, Absorb(next, p)))
    ensures Defer(ledger, p, next) == Ok(Remove(Replace(ledger, Absorb(next, p)), p.id))
  {
    SaveSpec(ledger, Absorb(next, p));
  }

  /** What a successful deferral leaves: the absorbing record, and every
      record other than `p` and the absorbed-into one, unchanged. */
  lemma {:induction false} DeferFrame(ledger: Ledger, p: Payout, next: Payout)
    requires UniqueIds(ledger) && next in ledger
    requires Defer(ledger, p, next).Ok?
    ensures forall q :: q in Defer(ledger, p, next).value <==>
      (q == Absorb(next, p) && next.id != p.id) || (q in ledger && q.id != p.id && q.id != next.id)
  {
    var moved := Absorb(next, p);
    var saved := Replace(ledger, moved);
    DeferSteps(ledger, p, next);
    forall q
      ensures q in saved <==> q == moved || (q in ledger && q.id != next.id)
    {
      if q in saved {
        var k :| 0 <= k < |saved| && saved[k] == q;
      }
      if q == moved {
        var k :| 0 <= k < |ledger| && ledger[k] == next;
        assert saved[k] == moved;
      }
      if q in ledger && q.id != next.id {
        var k :| 0 <= k < |ledger| && ledger[k] == q;
        assert saved[k] == q;
      }
    }
  }

  /** Resolving a payout whose position is tied, in a period that pays only
      that position, when a later payout for the position exists: the
      earliest later payout absorbs this one (its period now starts where
      this one's did and it carries both amounts), this payout is deleted,
      nothing else changes, and the money in the ledger is the same. The
      only way it can fail is the uniqueness constraint refusing the
      rewritten record. */
  lemma {:induction false} TieDeferral(ledger: Ledger, p: Payout, managers: seq<Standing>)
    requires UniqueIds(ledger) && p in ledger && p.startDate <= p.endDate
    requires |managers| > 0 && !MultiPositionTie(ledger, p, Ranks(managers))
    requires |Winners(Ranks(managers), p.position)| > 1
    requires EarliestFuture(ledger, p).Some?
    ensures var next := EarliestFuture(ledger, p).value;
      Resolve(ledger, p, managers).Ok? <==> !exists q :: q in ledger && Conflicts(q, Absorb(next, p))
    ensures var next := EarliestFuture(ledger, p).value;
      Resolve(ledger, p, managers).Ok? ==>
        var r := Resolve(ledger, p, managers).value;
        && (forall q :: q in r <==> q == Absorb(next, p) || (q in ledger && q.id != p.id && q.id != next.id))
        && |r| == |ledger| - 1
        && Total(r) == Total(ledger)
  {
    var next := EarliestFuture(ledger, p).value;
    assert Resolve(ledger, p, managers) == Defer(ledger, p, next);
    assert Defer(ledger, p, next).Ok? <==> Save(ledger, Absorb(next, p)).Ok?;
    SaveSpec(ledger, Absorb(next, p));
    assert next.id != p.id by {
      var i :| 0 <= i < |ledger| && ledger[i] == p;
      var j :| 0 <= j < |ledger| && ledger[j] == next;
      assert i != j;
    }
    if Defer(ledger, p, next).Ok? {
      DeferConservesMoney(ledger, p, next);
      DeferFrame(ledger, p, next);
    }
  }

  /** Resolving a payout whose position is tied when there is no later
      payout for the position (and the period pays only this position):
      the payout goes to the first tied manager with the share plus the
      leftover cents, each further tied manager gets a copy holding one
      share, in standings order, and the shares add up exactly to the
      amount. */
  lemma {:induction false} TieSplit(ledger: Ledger, p: Payout, managers: seq<Standing>)
    requires UniqueIds(ledger) && p in ledger
    requires OneManagerPerEntrant(managers)
    requires |managers| > 0 && !MultiPositionTie(ledger, p, Ranks(managers))
    requires |Winners(Ranks(managers), p.position)| > 1
    requires EarliestFuture(ledger, p).None?
    requires SlotFreeFor(ledger, p, Winners(Ranks(managers), p.position))
    ensures Resolve(ledger, p, managers).Ok?
    ensures var r := Resolve(ledger, p, managers).value;
      var w := Winners(Ranks(managers), p.position);
      && |r| == |ledger| + |w| - 1
      && (forall i :: 0 <= i < |ledger| ==> r[i] == (if ledger[i].id == p.id then FirstRecord(p, w) else ledger[i]))
      && (forall i :: |ledger| <= i < |r| ==> IsClone(r[i], p, Share(p.amount, |w|), w[i - |ledger| + 1].entrant))
      && Total(r) == Total(ledger)
  {
    var w := Winners(Ranks(managers), p.position);
    assert Resolve(ledger, p, managers) == Split(ledger, p, w);
    RanksKeepEntrants(managers);
    WinnersHaveDistinctEntrants(Ranks(managers), p.position);
    SplitSucceeds(ledger, p, w);
    var r := Split(ledger, p, w).value;
    SplitShape(ledger, p, w, r);
    SplitConservesMoney(ledger, p, w);
    forall i | |ledger| <= i < |r|
      ensures IsClone(r[i], p, Share(p.amount, |w|), w[i - |ledger| + 1].entrant)
    {
      assert IsClone(r[i], FirstRecord(p, w), Share(p.amount, |w|), w[i - |ledger| + 1].entrant);
    }
  }

  /** Resolving a payout with exactly one manager at its position: that
      manager's entrant becomes the winner, the amount is unchanged, and no
      other record changes, whatever later payouts exist. */
  lemma {:induction false} SingleWinner(ledger: Ledger, p: Payout, managers: seq<Standing>)
    requires UniqueIds(ledger) && p in ledger
    requires |managers| > 0 && !MultiPositionTie(ledger, p, Ranks(managers))
    requires |Winners(Ranks(managers), p.position)| == 1
    requires SlotFreeFor(ledger, p, Winners(Ranks(managers), p.position))
    ensures Resolve(ledger, p, managers).Ok?
    ensures var r := Resolve(ledger, p, managers).value;
      var w := Winners(Ranks(managers), p.position)[0];
      && |r| == |ledger|
      && (forall i :: 0 <= i < |ledger| ==> r[i] == (if ledger[i].id == p.id then p.(winner := Some(w.entrant)) else ledger[i]))
      && w.rank == p.position
  {
    var ws := Winners(Ranks(managers), p.position);
    assert Resolve(ledger, p, managers) == Split(ledger, p, ws);
    SplitSucceeds(ledger, p, ws);
    var r := Split(ledger, p, ws).value;
    SplitShape(ledger, p, ws, r);
    assert FirstShare(p.amount, 1) == p.amount by {
      SplitIsExact(p.amount, 1);
    }
    assert FirstRecord(p, ws) == p.(winner := Some(ws[0].entrant));
    assert ws[0] in ws;
  }

  /** Every successful resolution leaves the money in the ledger unchanged:
      a deferral moves the amount to a later payout and a split hands it out
      to the cent. (A payout whose period ends before it starts can count
      as its own later payout; such a payout is excluded.) */
  lemma {:induction false} ResolveConservesMoney(ledger: Ledger, p: Payout, managers: seq<Standing>)
    requires UniqueIds(ledger) && p in ledger && p.startDate <= p.endDate
    requires Resolve(ledger, p, managers).Ok?
    ensures Total(Resolve(ledger, p, managers).value) == Total(ledger)
  {
    var ranked := Ranks(managers);
    var w := Winners(ranked, p.position);
    var next := EarliestFuture(ledger, p);
    if |w| > 1 && next.Some? {
      assert next.value.id != p.id by {
        var i :| 0 <= i < |ledger| && ledger[i] == p;
        var j :| 0 <= j < |ledger| && ledger[j] == next.value;
        assert i != j;
      }
      DeferConservesMoney(ledger, p, next.value);
    } else {
      SplitConservesMoney(ledger, p, w);
    }
  }

  lemma {:induction false} InsertClonesKeepsWellFormed(ledger: Ledger, template: Payout, share: int, rest: seq<Ranked>)
    requires UniqueIds(ledger) && UniqueKeys(ledger)
    requires InsertClones(ledger, template, share, rest).Ok?
    ensures UniqueIds(InsertClones(ledger, template, share, rest).value)
    ensures UniqueKeys(InsertClones(ledger, template, share, rest).value)
    decreases |rest|
  {
    if |rest| > 0 {
      var clone := CloneFor(template, share, rest[0]);
      var copy := clone.(id := NextId(ledger));
      assert Insert(ledger, clone) == Save(ledger, copy);
      SaveKeepsWellFormed(ledger, copy);
      InsertClonesKeepsWellFormed(Insert(ledger, clone).value, template, share, rest[1..]);
    }
  }

  /** Every successful resolution keeps primary keys unique and keeps the
      uniqueness constraint on (league, position, period, winner). */
  lemma {:induction false} ResolveKeepsLedgerWellFormed(ledger: Ledger, p: Payout, managers: seq<Standing>)
    requires UniqueIds(ledger) && UniqueKeys(ledger)
    requires Resolve(ledger, p, managers).Ok?
    ensures UniqueIds(Resolve(ledger, p, managers).value)
    ensures UniqueKeys(Resolve(ledger, p, managers).value)
  {
    var ranked := Ranks(managers);
    var w := Winners(ranked, p.position);
    var next := EarliestFuture(ledger, p);
    if |w| > 1 && next.Some? {
      var moved := Absorb(next.value, p);
      SaveKeepsWellFormed(ledger, moved);
      RemoveKeepsWellFormed(Save(ledger, moved).value, p.id);
    } else {
      var first := FirstRecord(p, w);
      SaveKeepsWellFormed(ledger, first);
      InsertClonesKeepsWellFormed(Save(ledger, first).value, first, Share(p.amount, |w|), w[1..]);
    }
  }

  /** Every record a successful resolution leaves behind is one of three
      kinds: a record that was there before under a key other than `p`'s;
      the earliest later payout for the position, having absorbed `p` (only
      after a deferral); or a record for `p`'s slot that has a winner (the
      resolved `p` and its clones). */
  lemma {:induction false} ResolveFrame(ledger: Ledger, p: Payout, managers: seq<Standing>)
    requires Resolve(ledger, p, managers).Ok?
    ensures forall q :: q in Resolve(ledger, p, managers).value ==>
      || (q in ledger && q.id != p.id)
      || (EarliestFuture(ledger, p).Some? && q == Absorb(EarliestFuture(ledger, p).value, p) && q.id != p.id)
      || (q.winner.Some? && SameSlot(q, p))
  {
    var r := Resolve(ledger, p, managers).value;
    var ranked := Ranks(managers);
    var w := Winners(ranked, p.position);
    var next := EarliestFuture(ledger, p);
    if |w| > 1 && next.Some? {
      var moved := Absorb(next.value, p);
      SaveFrame(ledger, moved);
      assert r == Remove(Save(ledger, moved).value, p.id);
    } else {
      var first := FirstRecord(p, w);
      SaveFrame(ledger, first);
      var saved := Save(ledger, first).value;
      var share := Share(p.amount, |w|);
      assert Split(ledger, p, w) == InsertClones(saved, first, share, w[1..]);
      ClonesAfter(saved, first, share, w, r);
      forall q | q in r
        ensures (q in ledger && q.id != p.id) || (q.winner.Some? && SameSlot(q, p))
      {
        var k :| 0 <= k < |r| && r[k] == q;
        if k < |saved| {
          assert r[..|saved|][k] == q;
          assert q in saved;
        }
      }
    }
  }
}
