/** app/routes/iocl_movements.py: the cylinders the day received from and
    returned to IOCL (the oil company), one receipt and one return count per
    cylinder type, kept in the day's summary rows. */
module IoclMovements {
  import opened Common
  import opened Db
  import opened StockDays

  /** The `receipt_<type>` fields of a posted form, by type; a blank field is None. */
  type Receipts = map<TypeId, Option<int>>

  /** The `return_<type>` fields of a posted form, by type; a blank field is None. */
  type Returns = map<TypeId, Option<int>>

  /** Movements can be entered once the opening stock is saved, and until the
      day's stock is finalized. */
  predicate Editable(t: Tables, s: DayId)
  {
    OpeningDone(t, s) && !StockFinalized(t, s)
  }

  /** A return field sent blank for a type whose receipt was sent: the return
      is parsed without a fallback for the empty string, which raises. */
  predicate BlankReturn(receipts: Receipts, returnFields: Returns)
  {
    exists c :: c in receipts && c in returnFields && returnFields[c].None?
  }

  function SetMovement(row: SummaryRow, receipt: int, ret: int, noMovement: bool): SummaryRow
  {
    row.(itemReceipt := Some(receipt), itemReturn := Some(ret), ioclNoMovement := noMovement)
  }

  /** Every summary row of day `s` gets zero receipts and returns and the
      given no-movement flag. */
  function SetDay(summary: map<DayType, SummaryRow>, s: DayId, noMovement: bool): (m: map<DayType, SummaryRow>)
    ensures m.Keys == summary.Keys
  {
    map k | k in summary :: if k.0 == s then SetMovement(summary[k], 0, 0, noMovement) else summary[k]
  }

  /** The rows of day `s` whose type is in `done` hold the posted receipt
      (blank read as 0) and return (missing read as 0), with the flag cleared. */
  function MovedRows(summary: map<DayType, SummaryRow>, s: DayId, receipts: Receipts, returnFields: Returns, done: set<TypeId>): (m: map<DayType, SummaryRow>)
    requires done <= receipts.Keys
    ensures m.Keys == summary.Keys
  {
    map k | k in summary ::
      if k.0 == s && k.1 in done then SetMovement(summary[k], Or0(receipts[k.1]), FieldOr0(returnFields, k.1), false)
      else summary[k]
  }

  /** POST /iocl-movements, on the OPEN day with the latest date. */
  function Save(t: Tables, noMovement: bool, receipts: Receipts, returnFields: Returns): Step
  {
    match LatestOpenDay(t)
    case None => Reject(t, NoOpenDay)
    case Some(s) =>
      if !Editable(t, s) then Reject(t, Locked)
      else if noMovement then Step(t.(summary := SetDay(t.summary, s, true)), Done)
      else if BlankReturn(receipts, returnFields) then Reject(t, InvalidInput)
      else Step(t.(summary := MovedRows(t.summary, s, receipts, returnFields, receipts.Keys)), Done)
  }

  /** POST /iocl-movements/delete, on the first OPEN day by id. */
  function Reset(t: Tables): Step
  {
    match FirstOpen(t.days)
    case None => Reject(t, NoOpenDay)
    case Some(s) =>
      if StockFinalized(t, s) then Reject(t, Locked)
      else Step(t.(summary := SetDay(t.summary, s, false)), Done)
  }

  method SaveMovements(db: Database, noMovement: bool, receipts: Receipts, returnFields: Returns) returns (r: Outcome)
    modifies db
    ensures db.Snapshot() == Save(old(db.Snapshot()), noMovement, receipts, returnFields).after
    ensures r == Save(old(db.Snapshot()), noMovement, receipts, returnFields).outcome
  {
    var t := db.Snapshot();
    var open := LatestOpenDay(t);
    if open.None? {
      return Rejected(NoOpenDay);
    }
    var s := open.value;
    if !Editable(t, s) {
      return Rejected(Locked);
    }
    if noMovement {
      db.summary := SetDay(db.summary, s, true);
      return Done;
    }
    // The failing parse aborts the transaction, so no earlier UPDATE survives it.
    if BlankReturn(receipts, returnFields) {
      return Rejected(InvalidInput);
    }
    UpdateTypes(db, s, receipts, returnFields);
    r := Done;
  }

  /** One UPDATE per posted receipt field; a type without a row on the day is skipped. */
  method UpdateTypes(db: Database, s: DayId, receipts: Receipts, returnFields: Returns)
    modifies db`summary
    ensures db.summary == MovedRows(old(db.summary), s, receipts, returnFields, receipts.Keys)
  {
    ghost var summary0 := db.summary;
    var rest := receipts.Keys;
    NothingMoved(summary0, s, receipts, returnFields);
    assert receipts.Keys - rest == {};
    while rest != {}
      invariant rest <= receipts.Keys
      invariant db.summary == MovedRows(summary0, s, receipts, returnFields, receipts.Keys - rest)
      decreases rest
    {
      var c :| c in rest;
      MovedOneMore(summary0, s, receipts, returnFields, receipts.Keys - rest, c);
      assert (receipts.Keys - rest) + {c} == receipts.Keys - (rest - {c});
      if (s, c) in db.summary {
        db.summary := db.summary[(s, c) := SetMovement(db.summary[(s, c)], Or0(receipts[c]), FieldOr0(returnFields, c), false)];
      }
      rest := rest - {c};
    }
  }

  lemma NothingMoved(summary: map<DayType, SummaryRow>, s: DayId, receipts: Receipts, returnFields: Returns)
    ensures MovedRows(summary, s, receipts, returnFields, {}) == summary
  {
  }

  lemma MovedOneMore(summary: map<DayType, SummaryRow>, s: DayId, receipts: Receipts, returnFields: Returns, done: set<TypeId>, c: TypeId)
    requires done <= receipts.Keys && c in receipts && c !in done
    ensures var m := MovedRows(summary, s, receipts, returnFields, done);
      MovedRows(summary, s, receipts, returnFields, done + {c}) ==
        if (s, c) in m then m[(s, c) := SetMovement(m[(s, c)], Or0(receipts[c]), FieldOr0(returnFields, c), false)] else m
  {
    var m := MovedRows(summary, s, receipts, returnFields, done);
    var n := MovedRows(summary, s, receipts, returnFields, done + {c});
    var want := if (s, c) in m then m[(s, c) := SetMovement(m[(s, c)], Or0(receipts[c]), FieldOr0(returnFields, c), false)] else m;
    assert n.Keys == want.Keys;
    forall k | k in n
      ensures n[k] == want[k]
    {
      if k == (s, c) {
        assert m[k] == summary[k];
      }
    }
  }

  method ResetMovements(db: Database) returns (r: Outcome)
    modifies db
    ensures db.Snapshot() == Reset(old(db.Snapshot())).after
    ensures r == Reset(old(db.Snapshot())).outcome
  {
    var open := FirstOpen(db.days);
    if open.None? {
      return Rejected(NoOpenDay);
    }
    var s := open.value;
    if StockFinalized(db.Snapshot(), s) {
      return Rejected(Locked);
    }
    db.summary := SetDay(db.summary, s, false);
    r := Done;
  }

  // ---------------------------------------------------------------------------
  // The page

  /** `SUM(COALESCE(item_receipt, 0))` over the day's rows. */
  function TotalReceived(t: Tables, s: DayId): int
  {
    Sum(|t.types|, ty => if (s, ty) in t.summary then Or0(t.summary[(s, ty)].itemReceipt) else 0)
  }

  /** `SUM(COALESCE(item_return, 0))` over the day's rows. */
  function TotalReturned(t: Tables, s: DayId): int
  {
    Sum(|t.types|, ty => if (s, ty) in t.summary then Or0(t.summary[(s, ty)].itemReturn) else 0)
  }

  /** The page's own test that the stage has data: some movement, or the no-movement flag. */
  predicate HasData(t: Tables, s: DayId)
  {
    TotalReceived(t, s) + TotalReturned(t, s) > 0 || IoclNoMovementSet(t, s)
  }

  datatype IoclPage = IoclPage(
    openingDone: bool,
    finalized: bool,
    editable: bool,
    noMovement: bool,
    received: int,
    returned: int,
    hasData: bool)

  /** GET /iocl-movements: nothing when there is no OPEN day. */
  function Page(t: Tables): (p: Option<IoclPage>)
    ensures p.None? <==> LatestOpenDay(t).None?
    ensures p.Some? ==> var s := LatestOpenDay(t).value;
      && p.value.openingDone == OpeningDone(t, s)
      && p.value.finalized == StockFinalized(t, s)
      && p.value.noMovement == IoclNoMovementSet(t, s)
      && p.value.received == TotalReceived(t, s)
      && p.value.returned == TotalReturned(t, s)
    ensures p.Some? ==> p.value.editable == (p.value.openingDone && !p.value.finalized)
    ensures p.Some? ==> p.value.hasData == (p.value.received + p.value.returned > 0 || p.value.noMovement)
  {
    match LatestOpenDay(t)
    case None => None
    case Some(s) =>
      Some(IoclPage(OpeningDone(t, s), StockFinalized(t, s), Editable(t, s), IoclNoMovementSet(t, s),
                    TotalReceived(t, s), TotalReturned(t, s), HasData(t, s)))
  }

  // ---------------------------------------------------------------------------
  // Properties

  /** A save goes through exactly when there is an open day whose stage is
      editable and the form is parseable; otherwise nothing changes. */
  lemma SaveOutcome(t: Tables, noMovement: bool, receipts: Receipts, returnFields: Returns)
    ensures Save(t, noMovement, receipts, returnFields).outcome == Done <==>
      LatestOpenDay(t).Some? && Editable(t, LatestOpenDay(t).value) && (noMovement || !BlankReturn(receipts, returnFields))
    ensures LatestOpenDay(t).Some? && !Editable(t, LatestOpenDay(t).value) ==>
      Save(t, noMovement, receipts, returnFields) == Step(t, Rejected(Locked))
    ensures Save(t, noMovement, receipts, returnFields).outcome != Done ==> Save(t, noMovement, receipts, returnFields).after == t
  {
  }

  /** `after` differs from `before` at most in the movement columns of day `s`'s rows. */
  ghost predicate MovementsOnly(before: map<DayType, SummaryRow>, after: map<DayType, SummaryRow>, s: DayId)
  {
    && after.Keys == before.Keys
    && (forall k :: k in before && k.0 != s ==> after[k] == before[k])
    && (forall k :: k in before ==>
          after[k].(itemReceipt := before[k].itemReceipt, itemReturn := before[k].itemReturn,
                    ioclNoMovement := before[k].ioclNoMovement) == before[k])
  }

  lemma SetDayMovementsOnly(summary: map<DayType, SummaryRow>, s: DayId, noMovement: bool)
    ensures MovementsOnly(summary, SetDay(summary, s, noMovement), s)
  {
  }

  lemma MovedRowsMovementsOnly(summary: map<DayType, SummaryRow>, s: DayId, receipts: Receipts, returnFields: Returns)
    ensures MovementsOnly(summary, MovedRows(summary, s, receipts, returnFields, receipts.Keys), s)
  {
  }

  /** Changing only movement columns keeps the gates that decide whether the
      stage is editable, on every day. */
  lemma MovementsKeepGates(t: Tables, summary: map<DayType, SummaryRow>, s: DayId, d: DayId)
    requires MovementsOnly(t.summary, summary, s)
    ensures OpeningDone(t.(summary := summary), d) == OpeningDone(t, d)
    ensures StockFinalized(t.(summary := summary), d) == StockFinalized(t, d)
  {
    if OpeningDone(t, d) {
      var k :| k in t.summary && k.0 == d && t.summary[k].openingFilled.Some?;
      assert summary[k].openingFilled.Some?;
    }
    if OpeningDone(t.(summary := summary), d) {
      var k :| k in summary && k.0 == d && summary[k].openingFilled.Some?;
      assert t.summary[k].openingFilled.Some?;
    }
    if StockFinalized(t, d) {
      var k :| k in t.summary && k.0 == d && t.summary[k].isReconciled;
      assert summary[k].isReconciled;
    }
    if StockFinalized(t.(summary := summary), d) {
      var k :| k in summary && k.0 == d && summary[k].isReconciled;
      assert t.summary[k].isReconciled;
    }
  }

  /** A save changes only the three movement columns of the open day's rows. */
  lemma SaveTouchesOnlyMovements(t: Tables, noMovement: bool, receipts: Receipts, returnFields: Returns)
    ensures Save(t, noMovement, receipts, returnFields).after.(summary := t.summary) == t
    ensures LatestOpenDay(t).None? ==> Save(t, noMovement, receipts, returnFields).after == t
    ensures LatestOpenDay(t).Some? ==>
      MovementsOnly(t.summary, Save(t, noMovement, receipts, returnFields).after.summary, LatestOpenDay(t).value)
  {
    match LatestOpenDay(t)
    case None =>
    case Some(s) =>
      var u := Save(t, noMovement, receipts, returnFields).after;
      if !Editable(t, s) || (!noMovement && BlankReturn(receipts, returnFields)) {
        assert u == t;
      } else if noMovement {
        assert u.summary == SetDay(t.summary, s, true);
        SetDayMovementsOnly(t.summary, s, true);
      } else {
        assert u.summary == MovedRows(t.summary, s, receipts, returnFields, receipts.Keys);
        MovedRowsMovementsOnly(t.summary, s, receipts, returnFields);
      }
  }

  /** Ticking "no movement" zeroes every row of the day and sets its flag,
      which completes the stage both on this page and on the dashboard. */
  lemma NoMovementCompletesStage(t: Tables, receipts: Receipts, returnFields: Returns)
    requires Save(t, true, receipts, returnFields).outcome == Done
    ensures var s := LatestOpenDay(t).value;
      var u := Save(t, true, receipts, returnFields).after;
      && (forall k :: k in u.summary && k.0 == s ==>
            u.summary[k].itemReceipt == Some(0) && u.summary[k].itemReturn == Some(0) && u.summary[k].ioclNoMovement)
      && HasData(u, s)
      && DayProgress(u, s).iocl
  {
    var s := LatestOpenDay(t).value;
    var u := Save(t, true, receipts, returnFields).after;
    var k :| k in t.summary && k.0 == s && t.summary[k].openingFilled.Some?;
    assert u.summary[k].ioclNoMovement && u.summary[k].openingFilled.Some?;
  }

  /** Each posted type's row holds the posted receipt (blank read as 0) and
      return (absent read as 0) with the flag cleared; rows of types not
      posted keep their values. */
  lemma SaveRecordsPostedTypes(t: Tables, receipts: Receipts, returnFields: Returns)
    requires Save(t, false, receipts, returnFields).outcome == Done
    ensures var s := LatestOpenDay(t).value;
      var u := Save(t, false, receipts, returnFields).after;
      && (forall c :: c in receipts && (s, c) in t.summary ==>
            u.summary[(s, c)] == t.summary[(s, c)].(itemReceipt := Some(Or0(receipts[c])),
                                                    itemReturn := Some(FieldOr0(returnFields, c)),
                                                    ioclNoMovement := false))
      && (forall k :: k in t.summary && k.1 !in receipts ==> u.summary[k] == t.summary[k])
  {
  }

  lemma SetDayAgain(summary: map<DayType, SummaryRow>, s: DayId, noMovement: bool)
    ensures SetDay(SetDay(summary, s, noMovement), s, noMovement) == SetDay(summary, s, noMovement)
  {
    var m := SetDay(summary, s, noMovement);
    var n := SetDay(m, s, noMovement);
    forall k | k in n
      ensures n[k] == m[k]
    {
    }
  }

  lemma MovedRowsAgain(summary: map<DayType, SummaryRow>, s: DayId, receipts: Receipts, returnFields: Returns)
    ensures var m := MovedRows(summary, s, receipts, returnFields, receipts.Keys);
      MovedRows(m, s, receipts, returnFields, receipts.Keys) == m
  {
    var m := MovedRows(summary, s, receipts, returnFields, receipts.Keys);
    var n := MovedRows(m, s, receipts, returnFields, receipts.Keys);
    forall k | k in n
      ensures n[k] == m[k]
    {
    }
  }

  /** Posting the same form twice leaves what one post left. */
  lemma SaveIdempotent(t: Tables, noMovement: bool, receipts: Receipts, returnFields: Returns)
    ensures var u := Save(t, noMovement, receipts, returnFields).after;
      Save(u, noMovement, receipts, returnFields).after == u
  {
    var u := Save(t, noMovement, receipts, returnFields).after;
    if Save(t, noMovement, receipts, returnFields).outcome == Done {
      var s := LatestOpenDay(t).value;
      SaveTouchesOnlyMovements(t, noMovement, receipts, returnFields);
      MovementsKeepGates(t, u.summary, s, s);
      assert u == t.(summary := u.summary);
      if noMovement {
        SetDayAgain(t.summary, s, true);
      } else {
        MovedRowsAgain(t.summary, s, receipts, returnFields);
      }
    }
  }

  /** A reset goes through exactly when there is an open day that is not finalized. */
  lemma ResetOutcome(t: Tables)
    ensures Reset(t).outcome == Done <==> FirstOpen(t.days).Some? && !StockFinalized(t, FirstOpen(t.days).value)
    ensures Reset(t).outcome != Done ==> Reset(t).after == t
  {
  }

  /** After a reset the day has no movement and no flag: the stage is not
      complete on this page nor on the dashboard, and only the movement
      columns of that day's rows changed. */
  lemma ResetClearsStage(t: Tables)
    requires Reset(t).outcome == Done
    ensures var s := FirstOpen(t.days).value;
      var u := Reset(t).after;
      && u.(summary := t.summary) == t
      && u.summary.Keys == t.summary.Keys
      && (forall k :: k in t.summary && k.0 != s ==> u.summary[k] == t.summary[k])
      && (forall k :: k in t.summary && k.0 == s ==> u.summary[k] == SetMovement(t.summary[k], 0, 0, false))
      && !HasData(u, s)
      && !DayProgress(u, s).iocl
  {
    var s := FirstOpen(t.days).value;
    var u := Reset(t).after;
    SumOfZeros(|u.types|, ty => if (s, ty) in u.summary then Or0(u.summary[(s, ty)].itemReceipt) else 0);
    SumOfZeros(|u.types|, ty => if (s, ty) in u.summary then Or0(u.summary[(s, ty)].itemReturn) else 0);
    SumOfZeros(|u.types|, ty =>
      if (s, ty) in u.summary && u.summary[(s, ty)].itemReceipt.Some? && u.summary[(s, ty)].itemReturn.Some?
      then u.summary[(s, ty)].itemReceipt.value + u.summary[(s, ty)].itemReturn.value
      else 0);
  }

  /** The page and the dashboard sum the movement columns differently (the
      page reads each NULL as 0, the dashboard drops a row with a NULL), but
      they agree on every day whose rows have both columns set or both NULL. */
  lemma {:induction false} HasDataAgreesWithDashboard(t: Tables, s: DayId)
    requires forall ty :: (s, ty) in t.summary ==> (t.summary[(s, ty)].itemReceipt.Some? <==> t.summary[(s, ty)].itemReturn.Some?)
    ensures MovementSum(t, s) == TotalReceived(t, s) + TotalReturned(t, s)
    ensures HasData(t, s) <==> IoclStatus(t, s)
  {
    SumAdditive(|t.types|,
      ty => if (s, ty) in t.summary && t.summary[(s, ty)].itemReceipt.Some? && t.summary[(s, ty)].itemReturn.Some?
            then t.summary[(s, ty)].itemReceipt.value + t.summary[(s, ty)].itemReturn.value
            else 0,
      ty => if (s, ty) in t.summary then Or0(t.summary[(s, ty)].itemReceipt) else 0,
      ty => if (s, ty) in t.summary then Or0(t.summary[(s, ty)].itemReturn) else 0);
  }

  /** After a save that posts a receipt for every row of the day (as the page's
      form does), the page and the dashboard agree on whether the stage is done. */
  lemma FullSaveAgreesWithDashboard(t: Tables, noMovement: bool, receipts: Receipts, returnFields: Returns)
    requires Save(t, noMovement, receipts, returnFields).outcome == Done
    requires forall ty :: (LatestOpenDay(t).value, ty) in t.summary ==> ty in receipts
    ensures var u := Save(t, noMovement, receipts, returnFields).after;
      HasData(u, LatestOpenDay(t).value) <==> IoclStatus(u, LatestOpenDay(t).value)
  {
    var s := LatestOpenDay(t).value;
    var u := Save(t, noMovement, receipts, returnFields).after;
    forall ty | (s, ty) in u.summary
      ensures u.summary[(s, ty)].itemReceipt.Some? && u.summary[(s, ty)].itemReturn.Some?
    {
      assert (s, ty) in t.summary;
    }
    HasDataAgreesWithDashboard(u, s);
  }
}
