/** app/routes/opening_stock.py: reconciling the empties left in delivery
    vehicles, syncing the open day's opening stock from the previous CLOSED
    day, the confirm-all shortcut, and the opening figures the summary page
    shows. Both POST actions look up the previous day (the CLOSED day with the
    latest date) and the open day (the first OPEN day by id). */
module OpeningStock {
  import opened Common
  import opened Db

  /** The `actual_<boy>_<type>` entries of the reconciliation form. */
  type Actuals = map<(BoyId, TypeId), Option<int>>

  /** `empty_qty` of the (b, c) vehicle row with the highest day id below `o`, or 0. */
  function PreviousVehicleEmpty(ve: map<DayBoyType, int>, o: DayId, b: BoyId, c: TypeId): int
    decreases o
  {
    if o == 0 then 0
    else if (o - 1, b, c) in ve then ve[(o - 1, b, c)]
    else PreviousVehicleEmpty(ve, o - 1, b, c)
  }

  /** The previous vehicle empty is 0 when no earlier day has a row, and
      otherwise the quantity of the latest earlier row. */
  lemma {:induction false} PreviousVehicleEmptyIsLatest(ve: map<DayBoyType, int>, o: DayId, b: BoyId, c: TypeId, d: DayId)
    ensures (forall e :: e < o ==> (e, b, c) !in ve) ==> PreviousVehicleEmpty(ve, o, b, c) == 0
    ensures d < o && (d, b, c) in ve && (forall e :: d < e < o ==> (e, b, c) !in ve) ==>
      PreviousVehicleEmpty(ve, o, b, c) == ve[(d, b, c)]
    decreases o
  {
    if o > 0 && (o - 1, b, c) !in ve {
      PreviousVehicleEmptyIsLatest(ve, o - 1, b, c, d);
    }
  }

  /** The regular quantity issued to boy b of type c on day p, or 0. */
  function ExpectedEmpty(issues: map<DayBoyType, Issue>, p: DayId, b: BoyId, c: TypeId): int
  {
    if (p, b, c) in issues then issues[(p, b, c)].regular else 0
  }

  /** The vehicle-empty quantity saved for one entry: previous vehicle empty
      plus what was issued on day p minus what came back (blank is 0). */
  function NewVehicleEmpty(ve: map<DayBoyType, int>, issues: map<DayBoyType, Issue>, p: DayId, o: DayId, b: BoyId, c: TypeId, actual: Option<int>): int
  {
    PreviousVehicleEmpty(ve, o, b, c) + ExpectedEmpty(issues, p, b, c) - Or0(actual)
  }

  /** The day-o vehicle rows of the form's entries. */
  function SavedKeys(o: DayId, form: Actuals): (s: set<DayBoyType>)
    ensures forall key :: key in s <==> key.0 == o && (key.1, key.2) in form
  {
    var s := set k | k in form :: (o, k.0, k.1);
    assert forall key: DayBoyType :: key.0 == o && (key.1, key.2) in form ==> key == (o, (key.1, key.2).0, (key.1, key.2).1);
    s
  }

  /** The vehicle-empty table after every entry of the form has been upserted on day o. */
  function SavedVehicleEmpty(ve: map<DayBoyType, int>, issues: map<DayBoyType, Issue>, p: DayId, o: DayId, form: Actuals): map<DayBoyType, int>
  {
    ve + map key | key in SavedKeys(o, form) :: NewVehicleEmpty(ve, issues, p, o, key.1, key.2, form[(key.1, key.2)])
  }

  /** `SUM(empty_qty)` of day o's vehicle rows of one type, 0 when there are none. */
  function VehicleSum(ve: map<DayBoyType, int>, o: DayId, ty: TypeId, nBoys: nat): int
  {
    Sum(nBoys, b => if (o, b, ty) in ve then ve[(o, b, ty)] else 0)
  }

  /** The open day's summary row for type ty after the sync, given the
      previous day's row of that type. A new row takes opening_filled from the
      previous closing_filled; an existing row keeps it. */
  function SyncedRow(summary: map<DayType, SummaryRow>, nBoys: nat, ve: map<DayBoyType, int>, p: DayId, o: DayId, ty: TypeId): SummaryRow
    requires (p, ty) in summary
  {
    var pds := summary[(p, ty)];
    var vsum := VehicleSum(ve, o, ty, nBoys);
    var openingEmpty :=
      if pds.closingEmpty.Some? && pds.defectiveEmptyVehicle.Some?
      then Some(pds.closingEmpty.value + pds.defectiveEmptyVehicle.value - vsum)
      else None;
    if (o, ty) in summary then
      summary[(o, ty)].(openingEmpty := openingEmpty, defectiveEmptyVehicle := Some(vsum))
    else
      NewSummaryRow.(openingFilled := pds.closingFilled, openingEmpty := openingEmpty, defectiveEmptyVehicle := Some(vsum))
  }

  /** Day o's keys for the types that have a summary row on day p. */
  function CarriedKeys(summary: map<DayType, SummaryRow>, p: DayId, o: DayId): (s: set<DayType>)
    ensures forall key :: key in s <==> key.0 == o && (p, key.1) in summary
  {
    var s := set k | k in summary && k.0 == p :: (o, k.1);
    assert forall key: DayType :: key.0 == o && (p, key.1) in summary ==> key == (o, (p, key.1).1);
    s
  }

  /** The summary table after the sync: one row of day o per type that has a row on day p. */
  function SyncedSummary(summary: map<DayType, SummaryRow>, nBoys: nat, ve: map<DayBoyType, int>, p: DayId, o: DayId): map<DayType, SummaryRow>
  {
    summary + map key | key in CarriedKeys(summary, p, o) :: SyncedRow(summary, nBoys, ve, p, o, key.1)
  }

  /** An entry naming a delivery boy or cylinder type that does not exist. */
  predicate UnknownActual(t: Tables, form: Actuals)
  {
    exists k :: k in form && (k.0 >= |t.boys| || k.1 >= |t.types|)
  }

  /** POST /opening-stock/reconcile. Without an open day or a previous CLOSED
      day the route dereferences a missing row and nothing is committed. */
  function Reconcile(t: Tables, form: Actuals): Step
  {
    var prev := LatestClosedDay(t);
    var open := FirstOpen(t.days);
    if open.None? then Reject(t, NoOpenDay)
    else if prev.None? then Reject(t, NoClosedDay)
    else if UnknownActual(t, form) then Reject(t, UnknownReference)
    else
      var ve := SavedVehicleEmpty(t.vehicleEmpty, t.issues, prev.value, open.value, form);
      Step(t.(vehicleEmpty := ve, summary := SyncedSummary(t.summary, |t.boys|, ve, prev.value, open.value)), Done)
  }

  /** Rows of day o and later do not affect the previous vehicle empty. */
  lemma {:induction false} PreviousVehicleEmptyBelow(ve: map<DayBoyType, int>, ve': map<DayBoyType, int>, o: DayId, b: BoyId, c: TypeId)
    requires forall d :: d < o ==> ((d, b, c) in ve <==> (d, b, c) in ve')
    requires forall d :: d < o && (d, b, c) in ve ==> ve[(d, b, c)] == ve'[(d, b, c)]
    ensures PreviousVehicleEmpty(ve, o, b, c) == PreviousVehicleEmpty(ve', o, b, c)
    decreases o
  {
    if o > 0 {
      PreviousVehicleEmptyBelow(ve, ve', o - 1, b, c);
    }
  }

  /** `m` holds the rows of `ve` plus one row per entry in `done`, each with
      its new vehicle-empty quantity. */
  ghost predicate SavedSoFar(ve: map<DayBoyType, int>, issues: map<DayBoyType, Issue>, p: DayId, o: DayId,
                             form: Actuals, done: set<(BoyId, TypeId)>, m: map<DayBoyType, int>)
    requires done <= form.Keys
  {
    && (forall key :: key in m <==> key in ve || (key.0 == o && (key.1, key.2) in done))
    && (forall key :: key in m ==>
          m[key] == (if key.0 == o && (key.1, key.2) in done
                     then NewVehicleEmpty(ve, issues, p, o, key.1, key.2, form[(key.1, key.2)])
                     else ve[key]))
  }

  /** Upserting one more entry, with the previous vehicle empty read from the
      rows saved so far, keeps `SavedSoFar`. */
  lemma SaveOneMore(ve: map<DayBoyType, int>, issues: map<DayBoyType, Issue>, p: DayId, o: DayId,
                    form: Actuals, done: set<(BoyId, TypeId)>, m: map<DayBoyType, int>, k: (BoyId, TypeId))
    requires done <= form.Keys && k in form && k !in done
    requires SavedSoFar(ve, issues, p, o, form, done, m)
    ensures SavedSoFar(ve, issues, p, o, form, done + {k},
      m[(o, k.0, k.1) := PreviousVehicleEmpty(m, o, k.0, k.1) + ExpectedEmpty(issues, p, k.0, k.1) - Or0(form[k])])
  {
    PreviousVehicleEmptyBelow(ve, m, o, k.0, k.1);
  }

  /** Once every entry is saved, `SavedSoFar` describes the saved table. */
  lemma SavedAll(ve: map<DayBoyType, int>, issues: map<DayBoyType, Issue>, p: DayId, o: DayId, form: Actuals, m: map<DayBoyType, int>)
    requires SavedSoFar(ve, issues, p, o, form, form.Keys, m)
    ensures m == SavedVehicleEmpty(ve, issues, p, o, form)
  {
    var s := SavedVehicleEmpty(ve, issues, p, o, form);
    assert m.Keys == s.Keys;
  }

  /** The loop over the form's `actual_` entries: one upsert per entry,
      staged until the transaction commits. */
  method StageVehicleEmpties(ve: map<DayBoyType, int>, issues: map<DayBoyType, Issue>, p: DayId, o: DayId, form: Actuals)
    returns (staged: map<DayBoyType, int>)
    ensures staged == SavedVehicleEmpty(ve, issues, p, o, form)
  {
    staged := ve;
    var done := {};
    while done != form.Keys
      invariant done <= form.Keys
      invariant SavedSoFar(ve, issues, p, o, form, done, staged)
      decreases |form.Keys - done|
    {
      var k :| k in form.Keys - done;
      SaveOneMore(ve, issues, p, o, form, done, staged, k);
      var prevV := PreviousVehicleEmpty(staged, o, k.0, k.1);
      var expected := ExpectedEmpty(issues, p, k.0, k.1);
      staged := staged[(o, k.0, k.1) := prevV + expected - Or0(form[k])];
      done := done + {k};
    }
    SavedAll(ve, issues, p, o, form, staged);
  }

  /** The effect of a save that goes through. */
  lemma ReconcileSteps(t: Tables, form: Actuals)
    requires FirstOpen(t.days).Some? && LatestClosedDay(t).Some?
    requires !exists k :: k in form && (k.0 >= |t.boys| || k.1 >= |t.types|)
    ensures var p, o := LatestClosedDay(t).value, FirstOpen(t.days).value;
      var ve := SavedVehicleEmpty(t.vehicleEmpty, t.issues, p, o, form);
      && Reconcile(t, form).outcome == Done
      && Reconcile(t, form).after == Tables(t.days, t.types, t.prices, t.boys, SyncedSummary(t.summary, |t.boys|, ve, p, o),
                                            t.office, t.issues, ve, t.expected, t.deposits, t.balances)
  {
  }

  method SaveReconciliation(db: Database, form: Actuals) returns (r: Outcome)
    modifies db
    ensures db.Snapshot() == Reconcile(old(db.Snapshot()), form).after
    ensures r == Reconcile(old(db.Snapshot()), form).outcome
  {
    var t := db.Snapshot();
    var prev := LatestClosedDay(t);
    var open := FirstOpen(db.days);
    if open.None? {
      return Rejected(NoOpenDay);
    }
    if prev.None? {
      return Rejected(NoClosedDay);
    }
    if exists k :: k in form && (k.0 >= |db.boys| || k.1 >= |db.types|) {
      return Rejected(UnknownReference);
    }
    var p, o := prev.value, open.value;
    var ve := StageVehicleEmpties(db.vehicleEmpty, db.issues, p, o, form);
    var summary := SyncedSummary(db.summary, |db.boys|, ve, p, o);
    ReconcileSteps(t, form);
    db.vehicleEmpty, db.summary := ve, summary;
    r := Done;
  }

  // ---------------------------------------------------------------------------
  // Confirm-all and the summary page

  /** The row confirm-all inserts for a type: the previous day's closing
      counts and defective empties become the opening figures. */
  function ConfirmedRow(pds: SummaryRow): SummaryRow
  {
    NewSummaryRow.(openingFilled := pds.closingFilled, openingEmpty := pds.closingEmpty,
                   defectiveEmptyVehicle := pds.defectiveEmptyVehicle)
  }

  /** POST /opening-stock/confirm-all: a plain INSERT ... SELECT, so one
      existing row of the open day for a copied type fails the whole statement. */
  function ConfirmAll(t: Tables): Step
  {
    var prev := LatestClosedDay(t);
    var open := FirstOpen(t.days);
    if open.None? then Reject(t, NoOpenDay)
    else if prev.None? then Reject(t, NoClosedDay)
    else if exists k :: k in t.summary && k.0 == prev.value && (open.value, k.1) in t.summary then Reject(t, DuplicateKey)
    else
      var rows := map key | key in CarriedKeys(t.summary, prev.value, open.value) :: ConfirmedRow(t.summary[(prev.value, key.1)]);
      Step(t.(summary := t.summary + rows), Done)
  }

  method ConfirmAllReturned(db: Database) returns (r: Outcome)
    modifies db
    ensures db.Snapshot() == ConfirmAll(old(db.Snapshot())).after
    ensures r == ConfirmAll(old(db.Snapshot())).outcome
  {
    var t := db.Snapshot();
    var prev := LatestClosedDay(t);
    var open := FirstOpen(db.days);
    if open.None? {
      return Rejected(NoOpenDay);
    }
    if prev.None? {
      return Rejected(NoClosedDay);
    }
    var p, o := prev.value, open.value;
    if exists k :: k in db.summary && k.0 == p && (o, k.1) in db.summary {
      return Rejected(DuplicateKey);
    }
    db.summary := db.summary + map key | key in CarriedKeys(db.summary, p, o) :: ConfirmedRow(db.summary[(p, key.1)]);
    r := Done;
  }

  /** One line of the summary page. */
  datatype OpeningLine = OpeningLine(filled: int, empty: int, defective: int, total: int)

  /** What the summary page shows: whether the open day has any summary row,
      and one line per cylinder type. */
  datatype OpeningPage = OpeningPage(confirmed: bool, lines: seq<OpeningLine>)

  /** `COALESCE(today, previous, 0)`. */
  function Fallback(today: Option<int>, previous: Option<int>): (v: int)
    ensures today.Some? ==> v == today.value
    ensures today.None? && previous.Some? ==> v == previous.value
    ensures today.None? && previous.None? ==> v == 0
  {
    if today.Some? then today.value else Or0(previous)
  }

  /** A day's summary row of one type, if the day exists and has one. */
  function RowOf(t: Tables, d: Option<DayId>, ty: TypeId): Option<SummaryRow>
  {
    if d.Some? && (d.value, ty) in t.summary then Some(t.summary[(d.value, ty)]) else None
  }

  /** The figures shown for one type: each from the open day's row, else the
      previous CLOSED day's closing value, else 0; the total is their sum. */
  function Line(t: Tables, o: DayId, prev: Option<DayId>, ty: TypeId): (l: OpeningLine)
    ensures var today := if (o, ty) in t.summary then Some(t.summary[(o, ty)]) else None;
      var before := if prev.Some? && (prev.value, ty) in t.summary then Some(t.summary[(prev.value, ty)]) else None;
      && l.filled == Fallback(if today.Some? then today.value.openingFilled else None,
                              if before.Some? then before.value.closingFilled else None)
      && l.empty == Fallback(if today.Some? then today.value.openingEmpty else None,
                             if before.Some? then before.value.closingEmpty else None)
      && l.defective == Fallback(if today.Some? then today.value.defectiveEmptyVehicle else None,
                                 if before.Some? then before.value.defectiveEmptyVehicle else None)
    ensures l.total == l.filled + l.empty + l.defective
  {
    var ods := RowOf(t, Some(o), ty);
    var pds := RowOf(t, prev, ty);
    var filled := Fallback(if ods.Some? then ods.value.openingFilled else None,
                           if pds.Some? then pds.value.closingFilled else None);
    var empty := Fallback(if ods.Some? then ods.value.openingEmpty else None,
                          if pds.Some? then pds.value.closingEmpty else None);
    var defective := Fallback(if ods.Some? then ods.value.defectiveEmptyVehicle else None,
                              if pds.Some? then pds.value.defectiveEmptyVehicle else None);
    OpeningLine(filled, empty, defective, filled + empty + defective)
  }

  /** GET /opening-stock: nothing without an open day. Lines are in type-id order. */
  function SummaryPage(t: Tables): (page: Option<OpeningPage>)
    ensures page.None? <==> FirstOpen(t.days).None?
    ensures page.Some? ==> |page.value.lines| == |t.types|
    ensures page.Some? ==> forall ty :: 0 <= ty < |t.types| ==>
      page.value.lines[ty] == Line(t, FirstOpen(t.days).value, LatestClosedDay(t), ty)
    ensures page.Some? ==> (page.value.confirmed <==> exists k :: k in t.summary && k.0 == FirstOpen(t.days).value)
  {
    match FirstOpen(t.days)
    case None => None
    case Some(o) =>
      Some(OpeningPage(exists k :: k in t.summary && k.0 == o,
                       seq(|t.types|, ty requires 0 <= ty < |t.types| => Line(t, o, LatestClosedDay(t), ty))))
  }

  // ---------------------------------------------------------------------------
  // Properties

  /** The open day and the previous day differ: one is OPEN, the other CLOSED. */
  lemma PreviousIsNotOpen(t: Tables)
    requires FirstOpen(t.days).Some? && LatestClosedDay(t).Some?
    ensures LatestClosedDay(t).value != FirstOpen(t.days).value
  {
  }

  /** A save goes through exactly when there is an open day, a previous
      CLOSED day and every entry names an existing boy and type; otherwise
      nothing changes. In particular the first day, which has no CLOSED day
      before it, cannot be reconciled. */
  lemma ReconcileOutcome(t: Tables, form: Actuals)
    ensures Reconcile(t, form).outcome == Done <==>
      FirstOpen(t.days).Some? && LatestClosedDay(t).Some? && !UnknownActual(t, form)
    ensures Reconcile(t, form).outcome != Done ==> Reconcile(t, form).after == t
  {
  }

  /** Each entry saves previous vehicle empty + expected empty - actual on the
      open day, and the save is an upsert: every other vehicle row is kept. */
  lemma ReconcileSavesEntries(t: Tables, form: Actuals)
    requires Reconcile(t, form).outcome == Done
    ensures var p, o := LatestClosedDay(t).value, FirstOpen(t.days).value;
      var ve := Reconcile(t, form).after.vehicleEmpty;
      && (forall k :: k in form ==>
            (o, k.0, k.1) in ve &&
            ve[(o, k.0, k.1)] == PreviousVehicleEmpty(t.vehicleEmpty, o, k.0, k.1) + ExpectedEmpty(t.issues, p, k.0, k.1) - Or0(form[k]))
      && (forall key :: key in ve <==> key in t.vehicleEmpty || (key.0 == o && (key.1, key.2) in form))
      && (forall key :: key in t.vehicleEmpty && !(key.0 == o && (key.1, key.2) in form) ==> ve[key] == t.vehicleEmpty[key])
  {
    var p, o := LatestClosedDay(t).value, FirstOpen(t.days).value;
    var ve := Reconcile(t, form).after.vehicleEmpty;
    forall k | k in form
      ensures (o, k.0, k.1) in ve
      ensures ve[(o, k.0, k.1)] == PreviousVehicleEmpty(t.vehicleEmpty, o, k.0, k.1) + ExpectedEmpty(t.issues, p, k.0, k.1) - Or0(form[k])
    {
      assert (o, k.0, k.1) in SavedKeys(o, form);
    }
  }

  /** A blank entry saves the same table as an entry of 0. */
  lemma SavedBlankIsZero(ve: map<DayBoyType, int>, issues: map<DayBoyType, Issue>, p: DayId, o: DayId, form: Actuals, k: (BoyId, TypeId))
    requires k in form && form[k] == None
    ensures SavedVehicleEmpty(ve, issues, p, o, form) == SavedVehicleEmpty(ve, issues, p, o, form[k := Some(0)])
  {
    var form' := form[k := Some(0)];
    assert SavedKeys(o, form) == SavedKeys(o, form');
    var a := SavedVehicleEmpty(ve, issues, p, o, form);
    var b := SavedVehicleEmpty(ve, issues, p, o, form');
    assert a.Keys == b.Keys;
    forall key | key in a
      ensures a[key] == b[key]
    {
      if key in SavedKeys(o, form) {
        assert Or0(form[(key.1, key.2)]) == Or0(form'[(key.1, key.2)]);
      }
    }
  }

  /** A blank actual count is the same as 0. */
  lemma ReconcileBlankIsZero(t: Tables, form: Actuals, k: (BoyId, TypeId))
    requires k in form && form[k] == None
    ensures Reconcile(t, form) == Reconcile(t, form[k := Some(0)])
  {
    var form' := form[k := Some(0)];
    assert form'.Keys == form.Keys;
    assert UnknownActual(t, form) == UnknownActual(t, form');
    if FirstOpen(t.days).Some? && LatestClosedDay(t).Some? {
      var p, o := LatestClosedDay(t).value, FirstOpen(t.days).value;
      SavedBlankIsZero(t.vehicleEmpty, t.issues, p, o, form, k);
    }
  }

  /** After the sync, each type of the previous day has an open-day row whose
      defective empties are today's vehicle total and whose opening empties
      plus defective empties equal the previous closing empties plus
      defective empties. */
  lemma SyncConservesEmpties(t: Tables, form: Actuals, ty: TypeId)
    requires Reconcile(t, form).outcome == Done
    requires (LatestClosedDay(t).value, ty) in t.summary
    ensures var p, o := LatestClosedDay(t).value, FirstOpen(t.days).value;
      var u := Reconcile(t, form).after;
      var pds := t.summary[(p, ty)];
      && (o, ty) in u.summary
      && u.summary[(o, ty)].defectiveEmptyVehicle == Some(VehicleSum(u.vehicleEmpty, o, ty, |t.boys|))
      && (pds.closingEmpty.Some? && pds.defectiveEmptyVehicle.Some? ==>
            && u.summary[(o, ty)].openingEmpty.Some?
            && u.summary[(o, ty)].openingEmpty.value + u.summary[(o, ty)].defectiveEmptyVehicle.value
               == pds.closingEmpty.value + pds.defectiveEmptyVehicle.value)
  {
    var p, o := LatestClosedDay(t).value, FirstOpen(t.days).value;
    assert (o, ty) in CarriedKeys(t.summary, p, o);
  }

  /** Re-syncing an existing open-day row changes only its opening empties and
      defective empties; a new row takes opening_filled from the previous
      closing_filled and the defaults elsewhere. */
  lemma SyncKeepsOpeningFilled(t: Tables, form: Actuals, ty: TypeId)
    requires Reconcile(t, form).outcome == Done
    requires (LatestClosedDay(t).value, ty) in t.summary
    ensures var p, o := LatestClosedDay(t).value, FirstOpen(t.days).value;
      var row := Reconcile(t, form).after.summary[(o, ty)];
      && ((o, ty) in t.summary ==>
            row == t.summary[(o, ty)].(openingEmpty := row.openingEmpty, defectiveEmptyVehicle := row.defectiveEmptyVehicle))
      && ((o, ty) !in t.summary ==>
            row == NewSummaryRow.(openingFilled := t.summary[(p, ty)].closingFilled,
                                  openingEmpty := row.openingEmpty, defectiveEmptyVehicle := row.defectiveEmptyVehicle))
  {
    var p, o := LatestClosedDay(t).value, FirstOpen(t.days).value;
    assert (o, ty) in CarriedKeys(t.summary, p, o);
  }

  /** The sync writes only open-day rows of the previous day's types. */
  lemma SyncTouchesOnlyCarriedRows(t: Tables, form: Actuals)
    requires Reconcile(t, form).outcome == Done
    ensures var p, o := LatestClosedDay(t).value, FirstOpen(t.days).value;
      var u := Reconcile(t, form).after;
      && u == t.(vehicleEmpty := u.vehicleEmpty, summary := u.summary)
      && (forall k :: k in u.summary <==> k in t.summary || (k.0 == o && (p, k.1) in t.summary))
      && (forall k :: k in t.summary && !(k.0 == o && (p, k.1) in t.summary) ==> u.summary[k] == t.summary[k])
  {
  }

  /** Saving the same entries again over the saved table gives the saved table. */
  lemma SavedAgain(ve: map<DayBoyType, int>, issues: map<DayBoyType, Issue>, p: DayId, o: DayId, form: Actuals)
    ensures SavedVehicleEmpty(SavedVehicleEmpty(ve, issues, p, o, form), issues, p, o, form) == SavedVehicleEmpty(ve, issues, p, o, form)
  {
    var ve1 := SavedVehicleEmpty(ve, issues, p, o, form);
    forall key | key in SavedKeys(o, form)
      ensures NewVehicleEmpty(ve1, issues, p, o, key.1, key.2, form[(key.1, key.2)])
           == NewVehicleEmpty(ve, issues, p, o, key.1, key.2, form[(key.1, key.2)])
    {
      PreviousVehicleEmptyBelow(ve, ve1, o, key.1, key.2);
    }
    var ve2 := SavedVehicleEmpty(ve1, issues, p, o, form);
    assert ve2.Keys == ve1.Keys;
  }

  /** Re-syncing one synced row recomputes the values it already holds. */
  lemma SyncedRowAgain(summary: map<DayType, SummaryRow>, nBoys: nat, ve: map<DayBoyType, int>, p: DayId, o: DayId, ty: TypeId)
    requires p != o && (p, ty) in summary
    ensures var s1 := SyncedSummary(summary, nBoys, ve, p, o);
      (p, ty) in s1 && (o, ty) in s1 && SyncedRow(s1, nBoys, ve, p, o, ty) == s1[(o, ty)]
  {
    var s1 := SyncedSummary(summary, nBoys, ve, p, o);
    assert (o, ty) in CarriedKeys(summary, p, o);
    assert s1[(p, ty)] == summary[(p, ty)];
    assert s1[(o, ty)] == SyncedRow(summary, nBoys, ve, p, o, ty);
  }

  /** Syncing again over a synced summary, with the same vehicle rows, gives
      the synced summary. */
  lemma SyncedAgain(summary: map<DayType, SummaryRow>, nBoys: nat, ve: map<DayBoyType, int>, p: DayId, o: DayId)
    requires p != o
    ensures SyncedSummary(SyncedSummary(summary, nBoys, ve, p, o), nBoys, ve, p, o) == SyncedSummary(summary, nBoys, ve, p, o)
  {
    var s1 := SyncedSummary(summary, nBoys, ve, p, o);
    var s2 := SyncedSummary(s1, nBoys, ve, p, o);
    assert CarriedKeys(s1, p, o) == CarriedKeys(summary, p, o);
    assert s2.Keys == s1.Keys;
    forall key | key in s2
      ensures s2[key] == s1[key]
    {
      if key in CarriedKeys(summary, p, o) {
        SyncedRowAgain(summary, nBoys, ve, p, o, key.1);
      }
    }
  }

  /** Saving the same form twice leaves the tables as saving it once: the
      second save sees the same previous rows and recomputes the same values. */
  lemma ReconcileIdempotent(t: Tables, form: Actuals)
    requires Reconcile(t, form).outcome == Done
    ensures Reconcile(Reconcile(t, form).after, form) == Reconcile(t, form)
  {
    var p, o := LatestClosedDay(t).value, FirstOpen(t.days).value;
    PreviousIsNotOpen(t);
    var u := Reconcile(t, form).after;
    ReconcileSteps(t, form);
    assert LatestClosedDay(u) == LatestClosedDay(t) && FirstOpen(u.days) == FirstOpen(t.days);
    SavedAgain(t.vehicleEmpty, t.issues, p, o, form);
    SyncedAgain(t.summary, |t.boys|, u.vehicleEmpty, p, o);
    ReconcileSteps(u, form);
  }

  /** Confirm-all copies the previous closing figures into the open day's
      opening figures for every type of the previous day. */
  lemma ConfirmAllCopiesClosing(t: Tables, ty: TypeId)
    requires ConfirmAll(t).outcome == Done
    requires (LatestClosedDay(t).value, ty) in t.summary
    ensures var p, o := LatestClosedDay(t).value, FirstOpen(t.days).value;
      var pds := t.summary[(p, ty)];
      var row := ConfirmAll(t).after.summary[(o, ty)];
      && (o, ty) !in t.summary
      && row.openingFilled == pds.closingFilled
      && row.openingEmpty == pds.closingEmpty
      && row.defectiveEmptyVehicle == pds.defectiveEmptyVehicle
      && row.closingFilled.None? && !row.isReconciled && !row.ioclNoMovement
  {
    var p, o := LatestClosedDay(t).value, FirstOpen(t.days).value;
    assert (o, ty) in CarriedKeys(t.summary, p, o);
  }

  /** Confirm-all only inserts summary rows: existing rows, and every other
      table, including the vehicle empties, are left as they were. */
  lemma ConfirmAllOnlyInserts(t: Tables)
    requires ConfirmAll(t).outcome == Done
    ensures var p, o := LatestClosedDay(t).value, FirstOpen(t.days).value;
      var u := ConfirmAll(t).after;
      && u == t.(summary := u.summary)
      && (forall k :: k in t.summary ==> k in u.summary && u.summary[k] == t.summary[k])
      && (forall k :: k in u.summary ==> k in t.summary || (k.0 == o && (p, k.1) in t.summary))
  {
    var p, o := LatestClosedDay(t).value, FirstOpen(t.days).value;
    var u := ConfirmAll(t).after;
    forall k | k in t.summary
      ensures k in u.summary && u.summary[k] == t.summary[k]
    {
      assert k !in CarriedKeys(t.summary, p, o);
    }
  }

  /** Once the open day has a row of one of the previous day's types (after a
      reconciliation save, say), confirm-all fails and changes nothing. */
  lemma ConfirmAllRejectsExistingRow(t: Tables, ty: TypeId)
    requires FirstOpen(t.days).Some? && LatestClosedDay(t).Some?
    requires (LatestClosedDay(t).value, ty) in t.summary && (FirstOpen(t.days).value, ty) in t.summary
    ensures ConfirmAll(t) == Step(t, Rejected(DuplicateKey))
  {
    assert (LatestClosedDay(t).value, ty) in t.summary;
  }

  lemma ConfirmAfterReconcileRejected(t: Tables, form: Actuals, ty: TypeId)
    requires Reconcile(t, form).outcome == Done
    requires (LatestClosedDay(t).value, ty) in t.summary
    ensures ConfirmAll(Reconcile(t, form).after).outcome == Rejected(DuplicateKey)
  {
    var u := Reconcile(t, form).after;
    SyncConservesEmpties(t, form, ty);
    PreviousIsNotOpen(t);
    assert LatestClosedDay(u) == LatestClosedDay(t) && FirstOpen(u.days) == FirstOpen(t.days);
    ConfirmAllRejectsExistingRow(u, ty);
  }

  /** Confirm-all completes the opening stage when some previous row has a
      closing_filled. */
  lemma ConfirmAllCompletesOpening(t: Tables, ty: TypeId)
    requires ConfirmAll(t).outcome == Done
    requires (LatestClosedDay(t).value, ty) in t.summary && t.summary[(LatestClosedDay(t).value, ty)].closingFilled.Some?
    ensures OpeningDone(ConfirmAll(t).after, FirstOpen(t.days).value)
  {
    ConfirmAllCopiesClosing(t, ty);
  }

  /** Confirm-all keeps each type's line: a copied row holds the previous
      closing figures the line was already falling back to. */
  lemma ConfirmAllKeepsLine(t: Tables, ty: TypeId)
    requires ConfirmAll(t).outcome == Done
    ensures LatestClosedDay(t).Some? && FirstOpen(t.days).Some?
    ensures Line(ConfirmAll(t).after, FirstOpen(t.days).value, LatestClosedDay(t), ty)
         == Line(t, FirstOpen(t.days).value, LatestClosedDay(t), ty)
  {
    var p, o := LatestClosedDay(t).value, FirstOpen(t.days).value;
    var u := ConfirmAll(t).after;
    PreviousIsNotOpen(t);
    ConfirmAllOnlyInserts(t);
    if (p, ty) in t.summary {
      ConfirmAllCopiesClosing(t, ty);
    } else {
      assert (o, ty) in u.summary <==> (o, ty) in t.summary;
    }
  }

  /** Confirm-all does not change what the summary page shows: it stores the
      same previous closing figures the page was already falling back to. */
  lemma ConfirmAllKeepsPage(t: Tables)
    requires ConfirmAll(t).outcome == Done
    ensures SummaryPage(ConfirmAll(t).after).Some? && SummaryPage(t).Some?
    ensures SummaryPage(ConfirmAll(t).after).value.lines == SummaryPage(t).value.lines
  {
    var u := ConfirmAll(t).after;
    ConfirmAllOnlyInserts(t);
    assert LatestClosedDay(u) == LatestClosedDay(t) && FirstOpen(u.days) == FirstOpen(t.days);
    var after, before := SummaryPage(u).value.lines, SummaryPage(t).value.lines;
    forall ty | 0 <= ty < |t.types|
      ensures after[ty] == before[ty]
    {
      ConfirmAllKeepsLine(t, ty);
    }
  }
}
