/** app/routes/stock_day.py: the dashboard's progress gates and the creation
    of a new stock day. */
module StockDays {
  import opened Common
  import opened Db

  /** The seven progress flags of the dashboard, in stage order. */
  datatype Progress = Progress(
    opening: bool,
    iocl: bool,
    deliveries: bool,
    finalized: bool,
    expectedCash: bool,
    collection: bool,
    reconciled: bool)

  const NoProgress := Progress(false, false, false, false, false, false, false)

  /** Each flag implies the one before it. */
  predicate Chained(p: Progress)
  {
    && (p.iocl ==> p.opening)
    && (p.deliveries ==> p.iocl)
    && (p.finalized ==> p.deliveries)
    && (p.expectedCash ==> p.finalized)
    && (p.collection ==> p.expectedCash)
    && (p.reconciled ==> p.collection)
  }

  /** The dashboard's own completion test for the IOCL stage. */
  predicate IoclStatus(t: Tables, s: DayId)
  {
    MovementSum(t, s) > 0 || IoclNoMovementSet(t, s)
  }

  /** The flags of an open day: each is its stage's own test and the flag before it. */
  function DayProgress(t: Tables, s: DayId): (p: Progress)
    requires s < |t.days|
    ensures Chained(p)
    ensures p.opening <==> exists k :: k in t.summary && k.0 == s && t.summary[k].openingFilled.Some?
    ensures p.iocl <==> p.opening && (MovementSum(t, s) > 0 || exists k :: k in t.summary && k.0 == s && t.summary[k].ioclNoMovement)
    ensures p.deliveries <==> p.iocl && ((exists k :: k in t.issues && k.0 == s) || t.days[s].deliveryNoMovement == 1)
    ensures p.finalized <==> p.deliveries && exists k :: k in t.summary && k.0 == s && t.summary[k].isReconciled
    ensures p.expectedCash <==> p.finalized && exists k :: k in t.expected && k.0 == s
    ensures p.collection <==> p.expectedCash && exists k :: k in t.deposits && k.0 == s
    ensures p.reconciled <==> p.collection && exists k :: k in t.balances && k.0 == s
  {
    var opening := OpeningDone(t, s);
    var iocl := IoclStatus(t, s) && opening;
    var deliveries := (HasIssues(t, s) || t.days[s].deliveryNoMovement == 1) && iocl;
    var finalized := StockFinalized(t, s) && deliveries;
    var expectedCash := HasExpected(t, s) && finalized;
    var collection := HasDeposits(t, s) && expectedCash;
    var reconciled := HasBalances(t, s) && collection;
    Progress(opening, iocl, deliveries, finalized, expectedCash, collection, reconciled)
  }

  /** The dashboard looks only at the day with the latest date, and shows no
      progress at all when there is no day or that day is CLOSED. */
  function Dashboard(t: Tables): (p: Progress)
    ensures Chained(p)
    ensures p != NoProgress ==> LatestDay(t).Some? && t.days[LatestDay(t).value].status == Open
    ensures LatestDay(t).Some? && t.days[LatestDay(t).value].status == Open ==> p == DayProgress(t, LatestDay(t).value)
  {
    match LatestDay(t)
    case None => NoProgress
    case Some(s) => if t.days[s].status == Closed then NoProgress else DayProgress(t, s)
  }

  /** The date the creation form suggests: the day after the latest date, or today. */
  function NextAvailableDate(t: Tables, today: int): (d: int)
    ensures |t.days| == 0 ==> d == today
    ensures forall i :: 0 <= i < |t.days| ==> t.days[i].date < d
    ensures |t.days| > 0 ==> exists i :: 0 <= i < |t.days| && t.days[i].date == d - 1
  {
    match LatestDay(t)
    case None => today
    case Some(s) => t.days[s].date + 1
  }

  predicate DateTaken(t: Tables, date: int)
  {
    exists i :: 0 <= i < |t.days| && t.days[i].date == date
  }

  /** The office opening counts of a new day for one cylinder type: the closing
      counts (a generated column, given as `closingOf`) of that type's row on
      the latest day, or zeros. */
  function SeedOpening(t: Tables, last: Option<DayId>, ty: TypeId, closingOf: OfficeRow -> OfficeCounts): OfficeCounts
  {
    if last.Some? && (last.value, ty) in t.office then closingOf(t.office[(last.value, ty)]) else NoCounts
  }

  /** The office rows inserted for a new day `id`, one per cylinder type. */
  function SeededOffice(t: Tables, id: DayId, closingOf: OfficeRow -> OfficeCounts): (m: map<DayType, OfficeRow>)
    ensures forall k :: k in m ==> k.0 == id && k.1 < |t.types|
    ensures forall ty :: 0 <= ty < |t.types| ==> (id, ty) in m
  {
    var last := LatestDay(t);
    map ty | 0 <= ty < |t.types| :: (id, ty) := OfficeRow(SeedOpening(t, last, ty, closingOf), NoCounts, NoCounts, 0, 0)
  }

  /** POST /create-stock-day. */
  function CreateDay(t: Tables, date: int, closingOf: OfficeRow -> OfficeCounts): Step
  {
    if DateTaken(t, date) then Reject(t, DuplicateDate)
    else
      Step(t.(days := t.days + [StockDay(date, Open, 0, 0)],
              office := t.office + SeededOffice(t, |t.days|, closingOf)),
           Done)
  }

  method CreateNewDay(db: Database, date: int, closingOf: OfficeRow -> OfficeCounts) returns (r: Outcome)
    modifies db
    ensures db.Snapshot() == CreateDay(old(db.Snapshot()), date, closingOf).after
    ensures r == CreateDay(old(db.Snapshot()), date, closingOf).outcome
  {
    var t := db.Snapshot();
    if exists i :: 0 <= i < |db.days| && db.days[i].date == date {
      return Rejected(DuplicateDate);
    }
    var newId := |db.days|;
    db.days := db.days + [StockDay(date, Open, 0, 0)];
    db.office := db.office + SeededOffice(t, newId, closingOf);
    r := Done;
  }

  // ---------------------------------------------------------------------------
  // Properties

  /** Two summaries agree on every column the first three stages read. */
  ghost predicate SameEarlyColumns(a: map<DayType, SummaryRow>, b: map<DayType, SummaryRow>)
  {
    && b.Keys == a.Keys
    && (forall k :: k in a ==>
          && b[k].openingFilled == a[k].openingFilled
          && b[k].itemReceipt == a[k].itemReceipt
          && b[k].itemReturn == a[k].itemReturn
          && b[k].ioclNoMovement == a[k].ioclNoMovement)
  }

  /** The first three stages' tests read only the issues and those columns. */
  lemma EarlyProgressKept(t: Tables, u: Tables, s: DayId)
    requires u.types == t.types && u.issues == t.issues
    requires SameEarlyColumns(t.summary, u.summary)
    ensures OpeningDone(u, s) == OpeningDone(t, s)
    ensures IoclStatus(u, s) == IoclStatus(t, s)
    ensures HasIssues(u, s) == HasIssues(t, s)
  {
    if OpeningDone(t, s) {
      var k :| k in t.summary && k.0 == s && t.summary[k].openingFilled.Some?;
      assert u.summary[k].openingFilled.Some?;
    }
    if OpeningDone(u, s) {
      var k :| k in u.summary && k.0 == s && u.summary[k].openingFilled.Some?;
      assert t.summary[k].openingFilled.Some?;
    }
    if IoclNoMovementSet(t, s) {
      var k :| k in t.summary && k.0 == s && t.summary[k].ioclNoMovement;
      assert u.summary[k].ioclNoMovement;
    }
    if IoclNoMovementSet(u, s) {
      var k :| k in u.summary && k.0 == s && u.summary[k].ioclNoMovement;
      assert t.summary[k].ioclNoMovement;
    }
    SumPointwise(|t.types|,
      ty => if (s, ty) in u.summary && u.summary[(s, ty)].itemReceipt.Some? && u.summary[(s, ty)].itemReturn.Some?
            then u.summary[(s, ty)].itemReceipt.value + u.summary[(s, ty)].itemReturn.value else 0,
      ty => if (s, ty) in t.summary && t.summary[(s, ty)].itemReceipt.Some? && t.summary[(s, ty)].itemReturn.Some?
            then t.summary[(s, ty)].itemReceipt.value + t.summary[(s, ty)].itemReturn.value else 0);
  }

  lemma CreateDayRejectsTakenDate(t: Tables, date: int, closingOf: OfficeRow -> OfficeCounts)
    requires exists i :: 0 <= i < |t.days| && t.days[i].date == date
    ensures CreateDay(t, date, closingOf) == Step(t, Rejected(DuplicateDate))
  {
  }

  /** A new day is OPEN with both flags 0, and its office rows start from the
      latest day's closing counts (zeros for a type without a row there), with
      nothing received or sold. No other row changes. */
  lemma CreateDaySeedsOffice(t: Tables, date: int, closingOf: OfficeRow -> OfficeCounts, ty: TypeId)
    requires !DateTaken(t, date)
    requires ty < |t.types|
    ensures CreateDay(t, date, closingOf).outcome == Done
    ensures CreateDay(t, date, closingOf).after.days == t.days + [StockDay(date, Open, 0, 0)]
    ensures (|t.days|, ty) in CreateDay(t, date, closingOf).after.office
    ensures CreateDay(t, date, closingOf).after.office[(|t.days|, ty)] ==
      OfficeRow(if LatestDay(t).Some? && (LatestDay(t).value, ty) in t.office
                then closingOf(t.office[(LatestDay(t).value, ty)]) else OfficeCounts(0, 0, 0),
                OfficeCounts(0, 0, 0), OfficeCounts(0, 0, 0), 0, 0)
  {
    var seeded := SeededOffice(t, |t.days|, closingOf);
    assert (|t.days|, ty) in seeded;
    assert seeded[(|t.days|, ty)] == OfficeRow(SeedOpening(t, LatestDay(t), ty, closingOf), NoCounts, NoCounts, 0, 0);
  }

  /** Creating a day adds office rows only for the new day and changes no
      other table. */
  lemma CreateDayTouchesOnlyNewDay(t: Tables, date: int, closingOf: OfficeRow -> OfficeCounts)
    ensures forall k :: k in CreateDay(t, date, closingOf).after.office && k.0 != |t.days| ==>
      k in t.office && CreateDay(t, date, closingOf).after.office[k] == t.office[k]
    ensures forall k :: k in t.office ==> k in CreateDay(t, date, closingOf).after.office
    ensures CreateDay(t, date, closingOf).after.(days := t.days, office := t.office) == t
  {
    if !DateTaken(t, date) {
      var seeded := SeededOffice(t, |t.days|, closingOf);
      var u := t.office + seeded;
      forall k | k in u && k.0 != |t.days|
        ensures k in t.office && u[k] == t.office[k]
      {
        assert k !in seeded;
      }
    }
  }

  /** Creating the suggested date never hits the duplicate check. */
  lemma NextAvailableDateIsFree(t: Tables, today: int, closingOf: OfficeRow -> OfficeCounts)
    ensures CreateDay(t, NextAvailableDate(t, today), closingOf).outcome == Done
  {
  }

  /** Creating a day keeps dates distinct and every foreign key in range. */
  lemma CreateDayPreservesValid(t: Tables, date: int, closingOf: OfficeRow -> OfficeCounts)
    requires Valid(t)
    ensures Valid(CreateDay(t, date, closingOf).after)
  {
    var r := CreateDay(t, date, closingOf);
    if !DateTaken(t, date) {
      var u := r.after;
      forall i, j | 0 <= i < |u.days| && 0 <= j < |u.days| && i != j
        ensures u.days[i].date != u.days[j].date
      {
        if i == |t.days| {
          assert u.days[j] == t.days[j];
        } else if j == |t.days| {
          assert u.days[i] == t.days[i];
        }
      }
    }
  }

  /** Nothing stops a second OPEN day: creating a day while another is OPEN
      leaves two OPEN days. */
  lemma CreateDayKeepsOtherOpenDays(t: Tables, date: int, closingOf: OfficeRow -> OfficeCounts, open: DayId)
    requires open < |t.days| && t.days[open].status == Open
    requires !DateTaken(t, date)
    ensures !AtMostOneOpen(CreateDay(t, date, closingOf).after)
  {
    var u := CreateDay(t, date, closingOf).after;
    assert u.days[open].status == Open && u.days[|t.days|].status == Open;
  }
}
