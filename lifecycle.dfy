/** How the routes fit together over one stock day: which day each route
    works on, how one stage's save locks or completes another, and how the
    day close hands over to the next day. */
module Lifecycle {
  import opened Common
  import opened Db
  import StockDays
  import IoclMovements
  import DeliveryTransactions
  import ClosingStock
  import OfficeSales
  import CashSettlement
  import CashCollection
  import CashReconciliation

  // ---------------------------------------------------------------------------
  // Which day a route works on

  /** With at most one OPEN day, the routes that take the first OPEN day by
      id and those that take the OPEN day with the latest date agree. */
  lemma OneOpenDaySameRouteDay(t: Tables)
    requires AtMostOneOpen(t)
    ensures FirstOpen(t.days) == LatestOpenDay(t)
  {
    var f := FirstOpen(t.days);
    var l := LatestOpenDay(t);
    if f.Some? {
      assert f.value in DaysWith(t.days, Open);
      assert l.Some?;
    } else {
      assert forall i :: 0 <= i < |t.days| ==> i !in DaysWith(t.days, Open);
    }
  }

  /** Creating a later day while one is still OPEN splits the routes: the
      delivery and cash routes keep working on the old day, while the IOCL,
      closing and office routes move to the new one. */
  lemma CreateLaterDaySplitsRoutes(t: Tables, date: int, closingOf: OfficeRow -> OfficeCounts)
    requires FirstOpen(t.days).Some?
    requires forall i :: 0 <= i < |t.days| ==> t.days[i].date < date
    ensures var u := StockDays.CreateDay(t, date, closingOf).after;
      && FirstOpen(u.days) == FirstOpen(t.days)
      && LatestOpenDay(u) == Some(|t.days|)
      && FirstOpen(u.days) != LatestOpenDay(u)
  {
    var u := StockDays.CreateDay(t, date, closingOf).after;
    assert !StockDays.DateTaken(t, date);
    assert u.days == t.days + [StockDay(date, Open, 0, 0)];
    FirstOpenOfExtension(t.days, StockDay(date, Open, 0, 0));
    var l := LatestOpenDay(u);
    assert |t.days| in DaysWith(u.days, Open);
    assert l.Some?;
  }

  lemma FirstOpenOfExtension(days: seq<StockDay>, d: StockDay)
    requires FirstOpen(days).Some?
    ensures FirstOpen(days + [d]) == FirstOpen(days)
  {
    assert (days + [d])[..|days|] == days;
  }

  // ---------------------------------------------------------------------------
  // The day close and the next day

  /** After the day close the dashboard shows no progress at all. */
  lemma DayCloseClearsDashboard(t: Tables)
    ensures StockDays.Dashboard(CashReconciliation.DayClose(t).after) == StockDays.NoProgress
  {
    var u := CashReconciliation.DayClose(t).after;
    CashReconciliation.DayCloseClosesAll(t);
    match LatestDay(u)
    case None =>
    case Some(s) =>
      assert u.days[s].status == Closed;
  }

  /** A day created after the day close is the only OPEN day, so every
      route works on it. */
  lemma NextDayIsOnlyOpenDay(t: Tables, date: int, closingOf: OfficeRow -> OfficeCounts)
    requires !StockDays.DateTaken(t, date)
    ensures var c := CashReconciliation.DayClose(t).after;
      var u := StockDays.CreateDay(c, date, closingOf).after;
      && AtMostOneOpen(u)
      && FirstOpen(u.days) == Some(|t.days|)
      && LatestOpenDay(u) == Some(|t.days|)
  {
    var c := CashReconciliation.DayClose(t).after;
    CashReconciliation.DayCloseClosesAll(t);
    assert !StockDays.DateTaken(c, date);
    var u := StockDays.CreateDay(c, date, closingOf).after;
    assert u.days == c.days + [StockDay(date, Open, 0, 0)];
    assert forall i :: 0 <= i < |u.days| && u.days[i].status == Open ==> i == |t.days|;
    var f := FirstOpen(u.days);
    assert u.days[|t.days|].status == Open;
    assert f.Some?;
    OneOpenDaySameRouteDay(u);
  }

  /** A closing balance carries into the next day: when the open day holds
      the boy's most recent balance row, closing it and creating the next day
      makes the next day's reconciliation page propose that closing balance
      as the boy's opening balance. */
  lemma BalanceCarriesIntoNextDay(t: Tables, b: BoyId, date: int, closingOf: OfficeRow -> OfficeCounts)
    requires FirstOpen(t.days).Some?
    requires (FirstOpen(t.days).value, b) in t.balances
    requires forall d :: 0 <= d < |t.days| && d != FirstOpen(t.days).value && (d, b) in t.balances ==>
      t.days[d].date < t.days[FirstOpen(t.days).value].date
    requires CashReconciliation.Active(t.boys, b)
    requires !StockDays.DateTaken(t, date)
    ensures var c := CashReconciliation.DayClose(t).after;
      var u := StockDays.CreateDay(c, date, closingOf).after;
      var page := CashReconciliation.Page(u);
      && page.Some?
      && b in page.value.rows
      && page.value.rows[b].opening == t.balances[(FirstOpen(t.days).value, b)].closing
  {
    var c := CashReconciliation.DayClose(t).after;
    CashReconciliation.CarryForward(t, b);
    NextDayIsOnlyOpenDay(t, date, closingOf);
    CashReconciliation.DayCloseClosesAll(t);
    assert !StockDays.DateTaken(c, date);
    var u := StockDays.CreateDay(c, date, closingOf).after;
    var x := StockDay(date, Open, 0, 0);
    assert u.days == c.days + [x];
    assert u.balances == c.balances && u.boys == c.boys;
    assert CashReconciliation.ClosedBalanceDays(u, b) == CashReconciliation.ClosedBalanceDays(c, b);
    LatestInOfExtension(c.days, x, CashReconciliation.ClosedBalanceDays(c, b));
  }

  lemma LatestInOfExtension(days: seq<StockDay>, d: StockDay, ids: set<DayId>)
    requires |days| !in ids
    ensures LatestIn(days + [d], ids) == LatestIn(days, ids)
  {
    assert (days + [d])[..|days|] == days;
  }

  // ---------------------------------------------------------------------------
  // One stage's save and the others

  /** The office counter's sales reach the cash reconciliation: with one OPEN
      day, a recorded sale adds its cash and UPI to the deposit the page
      proposes for the boy named OFFICE, and to no other boy's. A sale whose
      cylinder type has no office row of the day, or is not a known type,
      adds nothing. */
  lemma OfficeSaleCreditsOffice(t: Tables, form: OfficeSales.SaleForm, b: BoyId)
    requires AtMostOneOpen(t)
    requires OfficeSales.RecordSale(t, form).outcome == Done
    requires b < |t.boys|
    ensures FirstOpen(t.days).Some? && OfficeSales.Parses(form)
    ensures var s := FirstOpen(t.days).value;
      var u := OfficeSales.RecordSale(t, form).after;
      var credited := form.cylinderType.Some? && form.cylinderType.value < |t.types| && (s, form.cylinderType.value) in t.office;
      && |u.boys| == |t.boys|
      && CashReconciliation.ProposedDeposit(u, s, b) ==
           CashReconciliation.ProposedDeposit(t, s, b)
           + (if t.boys[b].name == "OFFICE" && credited then OfficeSales.ReadInt(form.cash) + OfficeSales.ReadInt(form.upi) else 0)
  {
    OneOpenDaySameRouteDay(t);
    var s := LatestOpenDay(t).value;
    var u := OfficeSales.RecordSale(t, form).after;
    assert u == t.(office := OfficeSales.SaleApplied(t.office, s, form));
    if form.cylinderType.Some? && (s, form.cylinderType.value) in t.office {
      var c := form.cylinderType.value;
      CashReconciliation.OfficeTakingsGrow(t, u.office, s, c, OfficeSales.ReadInt(form.cash) + OfficeSales.ReadInt(form.upi));
    } else {
      assert u == t;
    }
  }

  /** The stock closing locks the IOCL movements of the day: afterwards every
      save is refused and changes nothing. */
  lemma FinalizeLocksIocl(t: Tables, ty: TypeId, noMovement: bool, receipts: IoclMovements.Receipts, returnFields: IoclMovements.Returns)
    requires ClosingStock.Finalize(t).outcome == Done
    requires (LatestOpenDay(t).value, ty) in t.summary && ty < |t.types|
    ensures var u := ClosingStock.Finalize(t).after;
      IoclMovements.Save(u, noMovement, receipts, returnFields) == Step(u, Rejected(Locked))
  {
    var s := LatestOpenDay(t).value;
    var u := ClosingStock.Finalize(t).after;
    ClosingStock.FinalizeWritesRows(t);
    ClosingStock.ClosedRowBalances(t.summary[(s, ty)], t.issues, s, ty, |t.boys|);
    assert u.days == t.days;
    assert u.summary[(s, ty)].isReconciled;
    assert StockFinalized(u, s);
  }

  /** With one open day, the stock closing also locks the delivery issues
      of the day as soon as some regular cylinders were issued: the regular
      sales it writes add up to a positive number. */
  lemma FinalizeLocksDeliveries(t: Tables, b: BoyId, ty: TypeId, reset: bool, form: DeliveryTransactions.IssueForm)
    requires AtMostOneOpen(t)
    requires ClosingStock.Finalize(t).outcome == Done
    requires (LatestOpenDay(t).value, ty) in t.summary && ty < |t.types| && b < |t.boys|
    requires (LatestOpenDay(t).value, b, ty) in t.issues && t.issues[(LatestOpenDay(t).value, b, ty)].regular > 0
    requires forall k :: k in t.issues ==> t.issues[k].regular >= 0
    ensures var u := ClosingStock.Finalize(t).after;
      DeliveryTransactions.Save(u, reset, form) == Step(u, Rejected(Locked))
  {
    var s := LatestOpenDay(t).value;
    var u := ClosingStock.Finalize(t).after;
    OneOpenDaySameRouteDay(t);
    FinalizedSalesAreIssueSums(t);
    assert u.days == t.days && u.types == t.types && u.boys == t.boys && u.issues == t.issues;
    PositiveIssuesPositiveSales(u, s, b, ty);
  }

  /** After a finalize, each row of the day holds the regular issue sum of its type. */
  lemma FinalizedSalesAreIssueSums(t: Tables)
    requires ClosingStock.Finalize(t).outcome == Done
    ensures var s := LatestOpenDay(t).value;
      var u := ClosingStock.Finalize(t).after;
      forall ty' :: 0 <= ty' < |t.types| && (s, ty') in u.summary ==>
        u.summary[(s, ty')].salesRegular == IssueSum(t.issues, s, ty', Regular, |t.boys|)
  {
    var s := LatestOpenDay(t).value;
    var u := ClosingStock.Finalize(t).after;
    ClosingStock.FinalizeWritesRows(t);
    forall ty' | 0 <= ty' < |t.types| && (s, ty') in u.summary
      ensures u.summary[(s, ty')].salesRegular == IssueSum(t.issues, s, ty', Regular, |t.boys|)
    {
      ClosingStock.ClosedRowBalances(t.summary[(s, ty')], t.issues, s, ty', |t.boys|);
    }
  }

  lemma PositiveIssuesPositiveSales(u: Tables, s: DayId, b: BoyId, ty: TypeId)
    requires forall ty' :: 0 <= ty' < |u.types| && (s, ty') in u.summary ==>
      u.summary[(s, ty')].salesRegular == IssueSum(u.issues, s, ty', Regular, |u.boys|)
    requires (s, ty) in u.summary && ty < |u.types| && b < |u.boys|
    requires (s, b, ty) in u.issues && u.issues[(s, b, ty)].regular > 0
    requires forall k :: k in u.issues ==> u.issues[k].regular >= 0
    ensures DeliveryTransactions.IssuesLocked(u, s)
  {
    var rows: nat -> int := ty => if (s, ty) in u.summary then u.summary[(s, ty)].salesRegular else 0;
    forall ty': nat | ty' < |u.types|
      ensures rows(ty') >= 0
    {
      if (s, ty') in u.summary {
        IssueSumNonNegative(u.issues, s, ty', Regular, |u.boys|);
      }
    }
    IssueSumPositive(u.issues, s, ty, Regular, |u.boys|, b);
    assert rows(ty) > 0;
    SumHasPositiveTerm(|u.types|, rows, ty);
  }

  lemma {:induction false} IssueSumNonNegative(issues: map<DayBoyType, Issue>, s: DayId, ty: TypeId, c: Category, n: nat)
    requires forall k :: k in issues ==> Qty(issues[k], c) >= 0
    ensures IssueSum(issues, s, ty, c, n) >= 0
  {
    if n > 0 {
      IssueSumNonNegative(issues, s, ty, c, n - 1);
    }
  }

  lemma {:induction false} IssueSumPositive(issues: map<DayBoyType, Issue>, s: DayId, ty: TypeId, c: Category, n: nat, b: BoyId)
    requires forall k :: k in issues ==> Qty(issues[k], c) >= 0
    requires b < n && (s, b, ty) in issues && Qty(issues[(s, b, ty)], c) > 0
    ensures IssueSum(issues, s, ty, c, n) > 0
  {
    IssueSumNonNegative(issues, s, ty, c, n - 1);
    if b < n - 1 {
      IssueSumPositive(issues, s, ty, c, n - 1, b);
    }
  }

  /** Saving the expected cash of a finalized day completes its stage on the
      dashboard, as soon as some boy has a priced issue row. */
  lemma SettleCompletesStage(t: Tables)
    requires CashSettlement.Settle(t).outcome == Done
    requires CashSettlement.Settlement(t, FirstOpen(t.days).value) != map[]
    ensures var s := FirstOpen(t.days).value;
      var u := CashSettlement.Settle(t).after;
      StockDays.DayProgress(u, s).expectedCash == StockDays.DayProgress(t, s).finalized
  {
    var s := FirstOpen(t.days).value;
    var u := CashSettlement.Settle(t).after;
    CashSettlement.SettleOnce(t);
    CashSettlement.SettleWritesRows(t);
    StockDays.EarlyProgressKept(t, u, s);
    assert u.days == t.days && u.summary == t.summary;
  }

  /** Saving the deposits completes the collection stage once the expected
      cash is saved, as soon as there is a delivery boy. */
  lemma CollectCompletesStage(t: Tables, cash: CashCollection.AmountForm, upi: CashCollection.AmountForm)
    requires CashCollection.Collect(t, cash, upi).outcome == Done
    requires |t.boys| > 0
    ensures var s := FirstOpen(t.days).value;
      var u := CashCollection.Collect(t, cash, upi).after;
      StockDays.DayProgress(u, s).collection == StockDays.DayProgress(t, s).expectedCash
  {
    var s := FirstOpen(t.days).value;
    var u := CashCollection.Collect(t, cash, upi).after;
    CashCollection.CollectOnce(t, cash, upi, cash, upi);
    CashCollection.CollectWritesEveryBoy(t, cash, upi);
    StockDays.EarlyProgressKept(t, u, s);
    assert u.days == t.days && u.summary == t.summary && u.expected == t.expected;
  }

  /** Saving the balances completes the last stage once the deposits are
      saved, as soon as some delivery boy is active. */
  lemma ReconcileCompletesStage(t: Tables, f: CashReconciliation.Forms, b: BoyId)
    requires CashReconciliation.Reconcile(t, f).outcome == Done
    requires CashReconciliation.Active(t.boys, b)
    ensures var s := FirstOpen(t.days).value;
      var u := CashReconciliation.Reconcile(t, f).after;
      StockDays.DayProgress(u, s).reconciled == StockDays.DayProgress(t, s).collection
  {
    var s := FirstOpen(t.days).value;
    var u := CashReconciliation.Reconcile(t, f).after;
    CashReconciliation.ReconcileWrites(t, f);
    assert (s, b) in u.balances;
    assert HasBalances(u, s);
    StockDays.EarlyProgressKept(t, u, s);
    assert u.days == t.days && u.summary == t.summary && u.expected == t.expected && u.deposits == t.deposits;
  }
}
