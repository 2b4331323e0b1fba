/** app/routes/cash_collection.py: the cash and UPI amounts each delivery boy
    deposits for the open day, saved once for all boys together. Amounts are
    in paise. */
module CashCollection {
  import opened Common
  import opened Db

  /** The `cash_<id>` or `upi_<id>` fields of the form, by delivery boy. A
      blank field reads as 0, as does a missing one. */
  type AmountForm = map<BoyId, Option<int>>

  function DepositOf(cash: AmountForm, upi: AmountForm, b: BoyId): (d: Deposit)
    ensures d.total == d.cash + d.upi
  {
    Deposit(FieldOr0(cash, b), FieldOr0(upi, b), FieldOr0(cash, b) + FieldOr0(upi, b))
  }

  function BoyKeys(s: DayId, n: nat): (r: set<DayBoy>)
    ensures forall k :: k in r <==> k.0 == s && k.1 < n
  {
    set b | 0 <= b < n :: (s, b)
  }

  /** The deposit rows after the boys with ids below `n` are inserted for day `s`. */
  function Collected(deposits: map<DayBoy, Deposit>, s: DayId, cash: AmountForm, upi: AmountForm, n: nat): (m: map<DayBoy, Deposit>)
    ensures m.Keys == deposits.Keys + BoyKeys(s, n)
  {
    map k: DayBoy | k in deposits.Keys + BoyKeys(s, n) ::
      if k.0 == s && k.1 < n then DepositOf(cash, upi, k.1) else deposits[k]
  }

  /** POST /cash-collection on the first OPEN day: a deposit row for every
      delivery boy, unless the day has deposit rows already. */
  function Collect(t: Tables, cash: AmountForm, upi: AmountForm): Step
  {
    match FirstOpen(t.days)
    case None => Reject(t, NoOpenDay)
    case Some(s) =>
      if HasDeposits(t, s) then Reject(t, Locked)
      else Step(t.(deposits := Collected(t.deposits, s, cash, upi, |t.boys|)), Done)
  }

  method SaveCollection(db: Database, cash: AmountForm, upi: AmountForm) returns (r: Outcome)
    modifies db
    ensures db.Snapshot() == Collect(old(db.Snapshot()), cash, upi).after
    ensures r == Collect(old(db.Snapshot()), cash, upi).outcome
  {
    var open := FirstOpen(db.days);
    if open.None? {
      return Rejected(NoOpenDay);
    }
    var s := open.value;
    if HasDeposits(db.Snapshot(), s) {
      return Rejected(Locked);
    }
    InsertDeposits(db, s, cash, upi);
    r := Done;
  }

  /** The insert loop over every delivery boy. */
  method InsertDeposits(db: Database, s: DayId, cash: AmountForm, upi: AmountForm)
    modifies db`deposits
    ensures db.deposits == Collected(old(db.deposits), s, cash, upi, |db.boys|)
  {
    ghost var deposits0 := db.deposits;
    NothingCollected(deposits0, s, cash, upi);
    for b := 0 to |db.boys|
      invariant db.deposits == Collected(deposits0, s, cash, upi, b)
    {
      var c := FieldOr0(cash, b);
      var u := FieldOr0(upi, b);
      CollectedOneMore(deposits0, s, cash, upi, b);
      db.deposits := db.deposits[(s, b) := Deposit(c, u, c + u)];
    }
  }

  lemma NothingCollected(deposits: map<DayBoy, Deposit>, s: DayId, cash: AmountForm, upi: AmountForm)
    ensures Collected(deposits, s, cash, upi, 0) == deposits
  {
  }

  lemma CollectedOneMore(deposits: map<DayBoy, Deposit>, s: DayId, cash: AmountForm, upi: AmountForm, n: nat)
    ensures Collected(deposits, s, cash, upi, n + 1) == Collected(deposits, s, cash, upi, n)[(s, n) := DepositOf(cash, upi, n)]
  {
    var m := Collected(deposits, s, cash, upi, n);
    var next := Collected(deposits, s, cash, upi, n + 1);
    var want := m[(s, n) := DepositOf(cash, upi, n)];
    assert next.Keys == want.Keys;
    forall k | k in next
      ensures next[k] == want[k]
    {
    }
  }

  // ---------------------------------------------------------------------------
  // The page

  /** GET /cash-collection: the day's saved deposits by boy, and whether the
      form is locked. */
  datatype CollectionPage = CollectionPage(day: DayId, saved: map<BoyId, Deposit>, isLocked: bool)

  function Page(t: Tables): (p: Option<CollectionPage>)
    ensures p.None? <==> FirstOpen(t.days).None?
    ensures p.Some? ==> (p.value.isLocked <==> p.value.saved != map[])
    ensures p.Some? ==>
      && p.value.day == FirstOpen(t.days).value
      && p.value.saved == DayDeposits(t.deposits, p.value.day)
      && p.value.isLocked == HasDeposits(t, p.value.day)
  {
    match FirstOpen(t.days)
    case None => None
    case Some(s) =>
      var saved := DayDeposits(t.deposits, s);
      assert HasDeposits(t, s) ==> exists b :: b in saved by {
        if HasDeposits(t, s) {
          var k :| k in t.deposits && k.0 == s;
          assert k == (s, k.1);
        }
      }
      Some(CollectionPage(s, saved, HasDeposits(t, s)))
  }

  /** The deposit rows of day `s`, by delivery boy. */
  function DayDeposits(deposits: map<DayBoy, Deposit>, s: DayId): (m: map<BoyId, Deposit>)
    ensures forall b :: b in m <==> (s, b) in deposits
    ensures forall b :: b in m ==> m[b] == deposits[(s, b)]
  {
    var ids := set k | k in deposits && k.0 == s :: k.1;
    assert forall b :: b in ids ==> (s, b) in deposits;
    map b | b in ids :: deposits[(s, b)]
  }

  // ---------------------------------------------------------------------------
  // Properties

  /** Every deposit row's total is its cash plus its UPI. */
  ghost predicate TotalsAdd(t: Tables)
  {
    forall k :: k in t.deposits ==> t.deposits[k].total == t.deposits[k].cash + t.deposits[k].upi
  }

  /** The deposits are saved exactly when there is an open day without any;
      otherwise nothing changes. */
  lemma CollectOutcome(t: Tables, cash: AmountForm, upi: AmountForm)
    ensures Collect(t, cash, upi).outcome == Done <==> FirstOpen(t.days).Some? && !HasDeposits(t, FirstOpen(t.days).value)
    ensures Collect(t, cash, upi).outcome != Done ==> Collect(t, cash, upi).after == t
  {
  }

  /** A save writes a row for every delivery boy, holding the amounts of his
      fields (0 when blank or missing) and their sum; every other table and
      every other day's deposits stay as they were. */
  lemma CollectWritesEveryBoy(t: Tables, cash: AmountForm, upi: AmountForm)
    requires Collect(t, cash, upi).outcome == Done
    ensures var s := FirstOpen(t.days).value;
      var u := Collect(t, cash, upi).after;
      && u.(deposits := t.deposits) == t
      && (forall b: BoyId :: (s, b) in u.deposits <==> b < |t.boys|)
      && (forall b: BoyId :: b < |t.boys| ==>
            u.deposits[(s, b)] == Deposit(FieldOr0(cash, b), FieldOr0(upi, b), FieldOr0(cash, b) + FieldOr0(upi, b)))
      && (forall k :: k in t.deposits ==> k in u.deposits && u.deposits[k] == t.deposits[k])
      && (forall k :: k in u.deposits && k.0 != s ==> k in t.deposits)
  {
    var s := FirstOpen(t.days).value;
    assert Collect(t, cash, upi).after == t.(deposits := Collected(t.deposits, s, cash, upi, |t.boys|));
    assert !HasDeposits(t, s);
    CollectedRows(t.deposits, s, cash, upi, |t.boys|);
  }

  lemma CollectedRows(deposits: map<DayBoy, Deposit>, s: DayId, cash: AmountForm, upi: AmountForm, n: nat)
    requires forall k :: k in deposits ==> k.0 != s
    ensures var m := Collected(deposits, s, cash, upi, n);
      && (forall b: BoyId :: (s, b) in m <==> b < n)
      && (forall b: BoyId :: b < n ==> m[(s, b)] == DepositOf(cash, upi, b))
      && (forall k :: k in deposits ==> k in m && m[k] == deposits[k])
      && (forall k :: k in m && k.0 != s ==> k in deposits)
  {
  }

  /** The save is one-shot: with at least one delivery boy, the next post is
      refused and changes nothing. */
  lemma CollectOnce(t: Tables, cash: AmountForm, upi: AmountForm, cash2: AmountForm, upi2: AmountForm)
    requires Collect(t, cash, upi).outcome == Done
    requires |t.boys| > 0
    ensures var u := Collect(t, cash, upi).after;
      && HasDeposits(u, FirstOpen(t.days).value)
      && Collect(u, cash2, upi2) == Step(u, Rejected(Locked))
  {
    var s := FirstOpen(t.days).value;
    var u := Collect(t, cash, upi).after;
    CollectWritesEveryBoy(t, cash, upi);
    assert (s, 0) in u.deposits;
    assert u.days == t.days;
  }

  /** A save keeps every deposit total equal to its cash plus its UPI. */
  lemma CollectKeepsTotals(t: Tables, cash: AmountForm, upi: AmountForm)
    requires TotalsAdd(t)
    ensures TotalsAdd(Collect(t, cash, upi).after)
  {
    var u := Collect(t, cash, upi).after;
    if Collect(t, cash, upi).outcome == Done {
      var s := FirstOpen(t.days).value;
      forall k | k in u.deposits
        ensures u.deposits[k].total == u.deposits[k].cash + u.deposits[k].upi
      {
        if !(k.0 == s && k.1 < |t.boys|) {
          assert k in t.deposits;
        }
      }
    }
  }

  /** A save keeps the database's foreign keys. */
  lemma CollectPreservesValid(t: Tables, cash: AmountForm, upi: AmountForm)
    requires Valid(t)
    ensures Valid(Collect(t, cash, upi).after)
  {
    if Collect(t, cash, upi).outcome == Done {
      CollectWritesEveryBoy(t, cash, upi);
    }
  }
}
