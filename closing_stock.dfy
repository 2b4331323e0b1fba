/** app/routes/closing_stock.py: the closing stock of each cylinder type,
    computed from the opening stock, the IOCL movements and the day's issues,
    and the one-shot finalize that writes it and locks the day's stock. */
module ClosingStock {
  import opened Common
  import opened Db
  import opened StockDays

  /** One line of the closing page: the day's issue totals for a type, and
      the closing values computed from them. */
  datatype ClosingLine = ClosingLine(
    regular: int,
    nc: int,
    dbc: int,
    tvOut: int,
    defective: int,
    filled: int,
    empty: int,
    total: int)

  /** The closing values of a summary row of day `s` and type `ty`. NULL
      columns read as 0, and a type without issue rows has zero totals. */
  function LineOf(row: SummaryRow, issues: map<DayBoyType, Issue>, s: DayId, ty: TypeId, nBoys: nat): ClosingLine
  {
    var reg := IssueSum(issues, s, ty, Regular, nBoys);
    var nc := IssueSum(issues, s, ty, Nc, nBoys);
    var dbc := IssueSum(issues, s, ty, Dbc, nBoys);
    var tv := IssueSum(issues, s, ty, TvOut, nBoys);
    var filled := Or0(row.openingFilled) + Or0(row.itemReceipt) - (reg + nc + dbc);
    var empty := Or0(row.openingEmpty) + reg + tv - Or0(row.itemReturn);
    var defective := Or0(row.defectiveEmptyVehicle);
    ClosingLine(reg, nc, dbc, tv, defective, filled, empty, filled + empty + defective)
  }

  /** The row written by the finalize. */
  function Closed(row: SummaryRow, l: ClosingLine): SummaryRow
  {
    row.(closingFilled := Some(l.filled), closingEmpty := Some(l.empty), totalStock := Some(l.total),
         salesRegular := l.regular, ncQty := l.nc, dbcQty := l.dbc, tvOutQty := l.tvOut,
         defectiveEmptyVehicle := Some(l.defective), isReconciled := true)
  }

  /** A summary row of day `s` and type `ty` as the finalize leaves it. */
  function CloseRow(row: SummaryRow, issues: map<DayBoyType, Issue>, s: DayId, ty: TypeId, nBoys: nat): SummaryRow
  {
    Closed(row, LineOf(row, issues, s, ty, nBoys))
  }

  /** The summary after the rows of day `s` whose type is below `n` are closed. */
  function ClosedUpTo(summary: map<DayType, SummaryRow>, issues: map<DayBoyType, Issue>, s: DayId, n: nat, nBoys: nat): (m: map<DayType, SummaryRow>)
    ensures m.Keys == summary.Keys
  {
    map k | k in summary ::
      if k.0 == s && k.1 < n then CloseRow(summary[k], issues, s, k.1, nBoys) else summary[k]
  }

  /** The step-3 test of the closing page: issue rows exist, or the day is
      marked as having no deliveries. */
  predicate DeliveriesDone(t: Tables, s: DayId)
    requires s < |t.days|
  {
    HasIssues(t, s) || t.days[s].deliveryNoMovement == 1
  }

  /** POST /closing-stock, on the OPEN day with the latest date. The
      finalized check comes before the step-3 check. */
  function Finalize(t: Tables): Step
  {
    match LatestOpenDay(t)
    case None => Reject(t, NoOpenDay)
    case Some(s) =>
      if StockFinalized(t, s) then Reject(t, AlreadyFinalized)
      else if !DeliveriesDone(t, s) then Reject(t, StepIncomplete)
      else Step(t.(summary := ClosedUpTo(t.summary, t.issues, s, |t.types|, |t.boys|)), Done)
  }

  method FinalizeStock(db: Database) returns (r: Outcome)
    modifies db
    ensures db.Snapshot() == Finalize(old(db.Snapshot())).after
    ensures r == Finalize(old(db.Snapshot())).outcome
  {
    var t := db.Snapshot();
    var open := LatestOpenDay(t);
    if open.None? {
      return Rejected(NoOpenDay);
    }
    var s := open.value;
    if StockFinalized(t, s) {
      return Rejected(AlreadyFinalized);
    }
    if !DeliveriesDone(t, s) {
      return Rejected(StepIncomplete);
    }
    CloseRows(db, s);
    r := Done;
  }

  /** One UPDATE per summary row of the day, each from the row's values
      before the loop. */
  method CloseRows(db: Database, s: DayId)
    modifies db`summary
    ensures db.summary == ClosedUpTo(old(db.summary), db.issues, s, |db.types|, |db.boys|)
  {
    ghost var summary0 := db.summary;
    for ty := 0 to |db.types|
      invariant ClosedSoFar(summary0, db.summary, db.issues, s, ty, |db.boys|)
    {
      CloseOneMore(summary0, db.summary, db.issues, s, ty, |db.boys|);
      if (s, ty) in db.summary {
        var row := db.summary[(s, ty)];
        db.summary := db.summary[(s, ty) := CloseRow(row, db.issues, s, ty, |db.boys|)];
      }
    }
    ClosedAll(summary0, db.summary, db.issues, s, |db.types|, |db.boys|);
  }

  /** The loop's invariant: the rows of day `s` with a type below `n` are closed. */
  ghost predicate ClosedSoFar(summary0: map<DayType, SummaryRow>, m: map<DayType, SummaryRow>, issues: map<DayBoyType, Issue>, s: DayId, n: nat, nBoys: nat)
  {
    && m.Keys == summary0.Keys
    && (forall k :: k in summary0 && k.0 == s && k.1 < n ==> m[k] == CloseRow(summary0[k], issues, s, k.1, nBoys))
    && (forall k :: k in summary0 && !(k.0 == s && k.1 < n) ==> m[k] == summary0[k])
  }

  lemma CloseOneMore(summary0: map<DayType, SummaryRow>, m: map<DayType, SummaryRow>, issues: map<DayBoyType, Issue>, s: DayId, n: nat, nBoys: nat)
    requires ClosedSoFar(summary0, m, issues, s, n, nBoys)
    ensures ClosedSoFar(summary0, if (s, n) in m then m[(s, n) := CloseRow(m[(s, n)], issues, s, n, nBoys)] else m, issues, s, n + 1, nBoys)
  {
  }

  lemma ClosedAll(summary0: map<DayType, SummaryRow>, m: map<DayType, SummaryRow>, issues: map<DayBoyType, Issue>, s: DayId, n: nat, nBoys: nat)
    requires ClosedSoFar(summary0, m, issues, s, n, nBoys)
    ensures m == ClosedUpTo(summary0, issues, s, n, nBoys)
  {
    var c := ClosedUpTo(summary0, issues, s, n, nBoys);
    forall k | k in m
      ensures m[k] == c[k]
    {
    }
  }

  // ---------------------------------------------------------------------------
  // Properties

  /** A finalize goes through exactly when there is an open day that is not
      yet finalized and whose deliveries are done; an already finalized day
      is reported as such even when its deliveries are not done. */
  lemma FinalizeOutcome(t: Tables)
    ensures Finalize(t).outcome == Done <==>
      LatestOpenDay(t).Some? && !StockFinalized(t, LatestOpenDay(t).value) && DeliveriesDone(t, LatestOpenDay(t).value)
    ensures LatestOpenDay(t).Some? && StockFinalized(t, LatestOpenDay(t).value) ==>
      Finalize(t) == Step(t, Rejected(AlreadyFinalized))
    ensures Finalize(t).outcome != Done ==> Finalize(t).after == t
  {
  }

  /** Regular sales only turn filled cylinders into empty ones: the total
      stock is the opening stock plus receipts, minus returns and new
      connections, plus the cylinders taken back through TV-out. */
  lemma ClosingConservesStock(row: SummaryRow, issues: map<DayBoyType, Issue>, s: DayId, ty: TypeId, nBoys: nat)
    ensures var l := LineOf(row, issues, s, ty, nBoys);
      l.total == Or0(row.openingFilled) + Or0(row.openingEmpty) + Or0(row.defectiveEmptyVehicle)
                 + Or0(row.itemReceipt) - Or0(row.itemReturn) - l.nc - l.dbc + l.tvOut
  {
  }

  /** A finalize writes every row of the day with its closing line and sets
      the lock; rows of other days, and every other table, are unchanged. */
  lemma FinalizeWritesRows(t: Tables)
    requires Finalize(t).outcome == Done
    ensures var s := LatestOpenDay(t).value;
      var u := Finalize(t).after;
      && u.(summary := t.summary) == t
      && u.summary.Keys == t.summary.Keys
      && (forall k :: k in t.summary && k.0 == s && k.1 < |t.types| ==>
            u.summary[k] == CloseRow(t.summary[k], t.issues, s, k.1, |t.boys|))
      && (forall k :: k in t.summary && k.0 != s ==> u.summary[k] == t.summary[k])
  {
  }

  /** A closed row satisfies the stock formulas: closing filled is opening
      filled plus receipts minus everything issued, closing empty is opening
      empty plus regular sales and TV-out minus returns, and the total adds
      the defective empties; the counters hold the day's issue totals. */
  lemma ClosedRowBalances(before: SummaryRow, issues: map<DayBoyType, Issue>, s: DayId, ty: TypeId, nBoys: nat)
    ensures var row := CloseRow(before, issues, s, ty, nBoys);
      && row.isReconciled
      && row.closingFilled == Some(Or0(before.openingFilled) + Or0(before.itemReceipt) - (row.salesRegular + row.ncQty + row.dbcQty))
      && row.closingEmpty == Some(Or0(before.openingEmpty) + row.salesRegular + row.tvOutQty - Or0(before.itemReturn))
      && row.defectiveEmptyVehicle == Some(Or0(before.defectiveEmptyVehicle))
      && row.totalStock == Some(row.closingFilled.value + row.closingEmpty.value + row.defectiveEmptyVehicle.value)
      && row.salesRegular == IssueSum(issues, s, ty, Regular, nBoys)
      && row.ncQty == IssueSum(issues, s, ty, Nc, nBoys)
      && row.dbcQty == IssueSum(issues, s, ty, Dbc, nBoys)
      && row.tvOutQty == IssueSum(issues, s, ty, TvOut, nBoys)
  {
  }

  /** The finalize is one-shot: once it has written a row, a second one is
      refused and changes nothing. */
  lemma FinalizeOnce(t: Tables, ty: TypeId)
    requires Finalize(t).outcome == Done
    requires (LatestOpenDay(t).value, ty) in t.summary && ty < |t.types|
    ensures Finalize(Finalize(t).after) == Step(Finalize(t).after, Rejected(AlreadyFinalized))
  {
    var s := LatestOpenDay(t).value;
    var u := Finalize(t).after;
    assert u.days == t.days;
    assert u.summary[(s, ty)].isReconciled;
  }

  /** On a day whose rows all have a type, the finalize closes the stage
      exactly when the dashboard showed the deliveries stage complete; a
      day finalized before its IOCL stage is complete never shows finalized. */
  lemma FinalizeAndDashboard(t: Tables, ty: TypeId)
    requires Finalize(t).outcome == Done
    requires (LatestOpenDay(t).value, ty) in t.summary && ty < |t.types|
    ensures var s := LatestOpenDay(t).value;
      DayProgress(Finalize(t).after, s).finalized == DayProgress(t, s).deliveries
  {
    var s := LatestOpenDay(t).value;
    FinalizeSteps(t);
    var closed := ClosedUpTo(t.summary, t.issues, s, |t.types|, |t.boys|);
    var u := t.(summary := closed);
    ClosingKeepsEarlyColumns(t.summary, t.issues, s, |t.types|, |t.boys|);
    EarlyProgressKept(t, u, s);
    assert closed[(s, ty)].isReconciled;
    assert StockFinalized(u, s);
  }

  lemma FinalizeSteps(t: Tables)
    requires Finalize(t).outcome == Done
    ensures Finalize(t).after == t.(summary := ClosedUpTo(t.summary, t.issues, LatestOpenDay(t).value, |t.types|, |t.boys|))
  {
    var s := LatestOpenDay(t).value;
    assert !StockFinalized(t, s) && DeliveriesDone(t, s);
  }

  lemma ClosingKeepsEarlyColumns(summary: map<DayType, SummaryRow>, issues: map<DayBoyType, Issue>, s: DayId, n: nat, nBoys: nat)
    ensures SameEarlyColumns(summary, ClosedUpTo(summary, issues, s, n, nBoys))
  {
  }
}
