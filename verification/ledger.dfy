/** The payout ledger: the table of payout records a league's resolution
    reads and writes. Records are identified by their primary key `id`;
    saving a record updates the row with that key or, when there is none,
    inserts it; a record is unique on (league, position, start date, end
    date, winner), where a missing winner never clashes with anything (SQL
    NULLs are distinct). */
module PayoutLedger {
  import opened Wrappers
  import opened Ranking

  /** Calendar dates, as day numbers: only their order matters. */
  type Date = int

  type LeagueId = nat

  /** One payout: `amount` cents go to whoever finishes at `position` over
      the period from `startDate` to `endDate`; `winner` is set once the
      payout has been resolved. */
  datatype Payout = Payout(
    id: nat,
    league: LeagueId,
    name: string,
    position: int,
    startDate: Date,
    endDate: Date,
    amount: int,
    paidOut: bool,
    winner: Option<EntrantId>)

  /** Why a resolution was abandoned. Each is an exception the resolver
      raises, and it rolls back every write of the resolution. */
  datatype Error =
    | NoManagers       // no managers scored in the period
    | UnresolvableTie  // a tie in a period that pays more than one position
    | NoWinner         // nobody holds the rank the payout is for: the split divides by zero
    | IntegrityError   // a save broke the ledger's uniqueness constraint
    | PayoutMissing    // a payout queued for resolution is no longer in the ledger

  type Ledger = seq<Payout>

  /** Same league, position and period. */
  predicate SameSlot(a: Payout, b: Payout) {
    a.league == b.league && a.position == b.position && a.startDate == b.startDate && a.endDate == b.endDate
  }

  /** Two different rows with the same slot and the same, present, winner:
      the combination the uniqueness constraint forbids. */
  predicate Conflicts(a: Payout, b: Payout) {
    a.id != b.id && a.winner.Some? && a.winner == b.winner && SameSlot(a, b)
  }

  ghost predicate UniqueIds(ledger: Ledger) {
    forall i, j :: 0 <= i < j < |ledger| ==> ledger[i].id != ledger[j].id
  }

  ghost predicate UniqueKeys(ledger: Ledger) {
    forall i, j :: 0 <= i < |ledger| && 0 <= j < |ledger| ==> !Conflicts(ledger[i], ledger[j])
  }

  /** The money held by all the records, in cents. */
  function Total(ledger: Ledger): int {
    if |ledger| == 0 then 0 else ledger[0].amount + Total(ledger[1..])
  }

  /** The record with primary key `id`, if any. */
  function Find(ledger: Ledger, id: nat): (r: Option<Payout>)
    ensures r.Some? ==> r.value in ledger && r.value.id == id
    ensures r.None? <==> forall q :: q in ledger ==> q.id != id
  {
    if |ledger| == 0 then None
    else if ledger[0].id == id then Some(ledger[0])
    else
      assert forall q :: q in ledger[1..] ==> q in ledger;
      Find(ledger[1..], id)
  }

  /** A primary key no record uses yet. */
  function NextId(ledger: Ledger): (n: nat)
    ensures forall q :: q in ledger ==> q.id < n
  {
    if |ledger| == 0 then 0
    else
      var rest := NextId(ledger[1..]);
      assert forall q :: q in ledger ==> q == ledger[0] || q in ledger[1..];
      if ledger[0].id < rest then rest else ledger[0].id + 1
  }

  /** Appending a record moves the next key past the record's key. */
  lemma {:induction false} NextIdAppend(ledger: Ledger, rec: Payout)
    ensures NextId(ledger + [rec]) == if NextId(ledger) <= rec.id then rec.id + 1 else NextId(ledger)
  {
    if |ledger| > 0 {
      assert (ledger + [rec])[1..] == ledger[1..] + [rec];
      NextIdAppend(ledger[1..], rec);
    }
  }

  /** The ledger with every row keyed `rec.id` overwritten by `rec`. */
  function Replace(ledger: Ledger, rec: Payout): (r: Ledger)
    ensures |r| == |ledger|
    ensures forall i :: 0 <= i < |r| ==> r[i] == (if ledger[i].id == rec.id then rec else ledger[i])
    ensures forall i :: 0 <= i < |r| ==> r[i].id == ledger[i].id
  {
    if |ledger| == 0 then []
    else [if ledger[0].id == rec.id then rec else ledger[0]] + Replace(ledger[1..], rec)
  }

  /** The ledger without the row keyed `id`. */
  function Remove(ledger: Ledger, id: nat): (r: Ledger)
    ensures forall q :: q in r <==> q in ledger && q.id != id
    ensures |r| <= |ledger|
  {
    if |ledger| == 0 then []
    else
      var rest := Remove(ledger[1..], id);
      assert forall q :: q in ledger <==> q == ledger[0] || q in ledger[1..];
      if ledger[0].id == id then rest else [ledger[0]] + rest
  }

  /** Whether some row would clash with `rec` under the uniqueness
      constraint. */
  function Clashes(ledger: Ledger, rec: Payout): bool {
    |ledger| > 0 && (Conflicts(ledger[0], rec) || Clashes(ledger[1..], rec))
  }

  lemma {:induction false} ClashesIff(ledger: Ledger, rec: Payout)
    ensures Clashes(ledger, rec) <==> exists q :: q in ledger && Conflicts(q, rec)
  {
    if |ledger| > 0 {
      ClashesIff(ledger[1..], rec);
      assert forall q :: q in ledger <==> q == ledger[0] || q in ledger[1..];
    }
  }

  /** Whether some row has primary key `id`. */
  function HasKey(ledger: Ledger, id: nat): bool {
    |ledger| > 0 && (ledger[0].id == id || HasKey(ledger[1..], id))
  }

  lemma {:induction false} HasKeyIff(ledger: Ledger, id: nat)
    ensures HasKey(ledger, id) <==> exists q :: q in ledger && q.id == id
  {
    if |ledger| > 0 {
      HasKeyIff(ledger[1..], id);
      assert forall q :: q in ledger <==> q == ledger[0] || q in ledger[1..];
    }
  }

  /** Saving a record: an update of the row with its key, or an insert when
      there is no such row, refused when another row already holds the
      same slot for the same winner. */
  function Save(ledger: Ledger, rec: Payout): (r: Result<Ledger, Error>)
    ensures r.Err? ==> r.error == IntegrityError
  {
    if Clashes(ledger, rec) then Err(IntegrityError)
    else if HasKey(ledger, rec.id) then Ok(Replace(ledger, rec))
    else Ok(ledger + [rec])
  }

  /** Save in terms of the rows: refused exactly when another row with the
      same slot has the same winner; otherwise the row with the key is
      overwritten or, when there is none, the record is appended. */
  lemma {:induction false} SaveSpec(ledger: Ledger, rec: Payout)
    ensures Save(ledger, rec).Err? <==> exists q :: q in ledger && Conflicts(q, rec)
    ensures Save(ledger, rec).Ok? && (exists q :: q in ledger && q.id == rec.id) ==>
      Save(ledger, rec).value == Replace(ledger, rec)
    ensures Save(ledger, rec).Ok? && (forall q :: q in ledger ==> q.id != rec.id) ==>
      Save(ledger, rec).value == ledger + [rec]
  {
    ClashesIff(ledger, rec);
    HasKeyIff(ledger, rec.id);
  }

  /** Inserting a copy of `rec` under a fresh primary key. */
  function Insert(ledger: Ledger, rec: Payout): (r: Result<Ledger, Error>)
    ensures r.Ok? ==> r.value == ledger + [rec.(id := NextId(ledger))]
    ensures r.Err? <==> Clashes(ledger, rec.(id := NextId(ledger)))
  {
    var copy := rec.(id := NextId(ledger));
    HasKeyIff(ledger, copy.id);
    Save(ledger, copy)
  }

  /** Insert in terms of the rows: refused exactly when a row with the same
      slot already has the record's winner. */
  lemma {:induction false} InsertSpec(ledger: Ledger, rec: Payout)
    ensures Insert(ledger, rec).Err? <==> exists q :: q in ledger && q.winner.Some? && q.winner == rec.winner && SameSlot(q, rec)
  {
    var copy := rec.(id := NextId(ledger));
    ClashesIff(ledger, copy);
    if exists q :: q in ledger && q.winner.Some? && q.winner == rec.winner && SameSlot(q, rec) {
      var q :| q in ledger && q.winner.Some? && q.winner == rec.winner && SameSlot(q, rec);
      assert Conflicts(q, copy);
    }
  }

  /** Every row after a successful save is the saved record or a row that
      was there before under another key. */
  lemma {:induction false} SaveFrame(ledger: Ledger, rec: Payout)
    requires Save(ledger, rec).Ok?
    ensures forall q :: q in Save(ledger, rec).value ==> q == rec || (q in ledger && q.id != rec.id)
  {
    var r := Save(ledger, rec).value;
    HasKeyIff(ledger, rec.id);
    forall q | q in r
      ensures q == rec || (q in ledger && q.id != rec.id)
    {
      var k :| 0 <= k < |r| && r[k] == q;
      if k < |ledger| {
        assert ledger[k] in ledger;
      }
    }
  }

  lemma {:induction false} TotalConcat(a: Ledger, b: Ledger)
    ensures Total(a + b) == Total(a) + Total(b)
  {
    if |a| == 0 {
      assert a + b == b;
    } else {
      assert (a + b)[1..] == a[1..] + b;
      TotalConcat(a[1..], b);
    }
  }

  lemma {:induction false} TotalAppend(ledger: Ledger, rec: Payout)
    ensures Total(ledger + [rec]) == Total(ledger) + rec.amount
  {
    if |ledger| > 0 {
      assert (ledger + [rec])[1..] == ledger[1..] + [rec];
      TotalAppend(ledger[1..], rec);
    }
  }

  /** Overwriting the one row with a key changes the total by the change
      in that row's amount. */
  lemma {:induction false} TotalReplace(ledger: Ledger, prior: Payout, rec: Payout)
    requires UniqueIds(ledger)
    requires prior in ledger && prior.id == rec.id
    ensures Total(Replace(ledger, rec)) == Total(ledger) - prior.amount + rec.amount
  {
    var r := Replace(ledger, rec);
    assert r[1..] == Replace(ledger[1..], rec);
    assert Total(r) == r[0].amount + Total(r[1..]);
    if ledger[0].id == rec.id {
      assert prior == ledger[0] by {
        var k :| 0 <= k < |ledger| && ledger[k] == prior;
        assert k == 0;
      }
      TailIdsDiffer(ledger);
      ReplaceAbsent(ledger[1..], rec);
    } else {
      assert prior in ledger[1..] by {
        var k :| 0 <= k < |ledger| && ledger[k] == prior;
        assert ledger[1..][k - 1] == prior;
      }
      TailUniqueIds(ledger);
      TotalReplace(ledger[1..], prior, rec);
    }
  }

  /** With unique keys, no record after the first shares its key. */
  lemma {:induction false} TailIdsDiffer(ledger: Ledger)
    requires UniqueIds(ledger) && |ledger| > 0
    ensures forall q :: q in ledger[1..] ==> q.id != ledger[0].id
  {
    forall q | q in ledger[1..]
      ensures q.id != ledger[0].id
    {
      var k :| 0 <= k < |ledger[1..]| && ledger[1..][k] == q;
      assert ledger[k + 1] == q;
    }
  }

  lemma {:induction false} ReplaceAbsent(ledger: Ledger, rec: Payout)
    requires forall q :: q in ledger ==> q.id != rec.id
    ensures Replace(ledger, rec) == ledger
  {
    if |ledger| > 0 {
      ReplaceAbsent(ledger[1..], rec);
    }
  }

  /** Deleting the one row with a key removes exactly that row's money. */
  lemma {:induction false} TotalRemove(ledger: Ledger, gone: Payout)
    requires UniqueIds(ledger)
    requires gone in ledger
    ensures Total(Remove(ledger, gone.id)) == Total(ledger) - gone.amount
    ensures |Remove(ledger, gone.id)| == |ledger| - 1
  {
    if ledger[0].id == gone.id {
      assert gone == ledger[0] by {
        var k :| 0 <= k < |ledger| && ledger[k] == gone;
        assert k == 0;
      }
      TailIdsDiffer(ledger);
      RemoveAbsent(ledger[1..], gone.id);
    } else {
      assert gone in ledger[1..] by {
        var k :| 0 <= k < |ledger| && ledger[k] == gone;
        assert ledger[1..][k - 1] == gone;
      }
      TailUniqueIds(ledger);
      TotalRemove(ledger[1..], gone);
    }
  }

  lemma {:induction false} TailUniqueIds(ledger: Ledger)
    requires UniqueIds(ledger) && |ledger| > 0
    ensures UniqueIds(ledger[1..])
  {
    forall i, j | 0 <= i < j < |ledger[1..]|
      ensures ledger[1..][i].id != ledger[1..][j].id
    {
      assert ledger[1..][i] == ledger[i + 1] && ledger[1..][j] == ledger[j + 1];
    }
  }

  lemma {:induction false} RemoveAbsent(ledger: Ledger, id: nat)
    requires forall q :: q in ledger ==> q.id != id
    ensures Remove(ledger, id) == ledger
  {
    if |ledger| > 0 {
      RemoveAbsent(ledger[1..], id);
    }
  }

  /** A successful save keeps primary keys and the uniqueness constraint
      intact. */
  lemma {:induction false} SaveKeepsWellFormed(ledger: Ledger, rec: Payout)
    requires UniqueIds(ledger) && UniqueKeys(ledger)
    requires Save(ledger, rec).Ok?
    ensures UniqueIds(Save(ledger, rec).value) && UniqueKeys(Save(ledger, rec).value)
  {
    var r := Save(ledger, rec).value;
    ClashesIff(ledger, rec);
    HasKeyIff(ledger, rec.id);
    if !HasKey(ledger, rec.id) {
      assert r == ledger + [rec];
      forall i, j | 0 <= i < |r| && 0 <= j < |r|
        ensures !Conflicts(r[i], r[j]) && (i < j ==> r[i].id != r[j].id)
      {
        if i < |ledger| && j == |ledger| {
          assert r[i] in ledger;
        } else if i == |ledger| && j < |ledger| {
          assert r[j] in ledger;
        }
      }
    } else {
      assert r == Replace(ledger, rec);
      forall i, j | 0 <= i < |r| && 0 <= j < |r|
        ensures !Conflicts(r[i], r[j])
      {
        if ledger[i].id == rec.id && ledger[j].id != rec.id {
          assert ledger[j] in ledger;
        } else if ledger[i].id != rec.id && ledger[j].id == rec.id {
          assert ledger[i] in ledger;
        }
      }
    }
  }

  /** Deleting rows keeps primary keys and the uniqueness constraint
      intact. */
  lemma {:induction false} RemoveKeepsWellFormed(ledger: Ledger, id: nat)
    requires UniqueIds(ledger) && UniqueKeys(ledger)
    ensures UniqueIds(Remove(ledger, id)) && UniqueKeys(Remove(ledger, id))
  {
    RemoveKeepsIds(ledger, id);
    var r := Remove(ledger, id);
    forall i, j | 0 <= i < |r| && 0 <= j < |r|
      ensures !Conflicts(r[i], r[j])
    {
      assert r[i] in r && r[j] in r;
      var a :| 0 <= a < |ledger| && ledger[a] == r[i];
      var b :| 0 <= b < |ledger| && ledger[b] == r[j];
    }
  }

  lemma {:induction false} RemoveKeepsIds(ledger: Ledger, id: nat)
    requires UniqueIds(ledger)
    ensures UniqueIds(Remove(ledger, id))
  {
    if |ledger| > 0 {
      TailUniqueIds(ledger);
      RemoveKeepsIds(ledger[1..], id);
      var rest := Remove(ledger[1..], id);
      if ledger[0].id != id {
        TailIdsDiffer(ledger);
        var r := [ledger[0]] + rest;
        forall i, j | 0 <= i < j < |r|
          ensures r[i].id != r[j].id
        {
          if i == 0 {
            assert r[j] in rest;
          } else {
            assert r[i] == rest[i - 1] && r[j] == rest[j - 1];
          }
        }
      }
    }
  }
}
