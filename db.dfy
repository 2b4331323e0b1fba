/** The depot's tables, the lookups every route shares, and the database
    object that the routes update. Identifiers are the tables' auto-increment
    keys: a stock day or a delivery boy is identified by its position in
    `days` or `boys`; cylinder types are the positions in `types`. */
module Db {
  import opened Common

  type DayId = nat
  type BoyId = nat
  type TypeId = nat
  type DayType = (DayId, TypeId)
  type DayBoy = (DayId, BoyId)
  type DayBoyType = (DayId, BoyId, TypeId)

  datatype Status = Open | Closed

  /** A `stock_days` row. The two flags are integers, as the routes compare them with 1. */
  datatype StockDay = StockDay(date: int, status: Status, deliveryNoMovement: int, officeFinalized: int)

  datatype CylinderType = CylinderType(code: string)

  /** A `price_nc_components` row, in paise. Only the regulator charge is nullable. */
  datatype Price = Price(refill: int, deposit: int, document: int, installation: int, regulator: Option<int>)

  datatype DeliveryBoy = DeliveryBoy(name: string, mobile: string, isActive: int)

  /** A `daily_stock_summary` row. Columns that the routes read through
      COALESCE or `or 0` are nullable; the counters default to 0. */
  datatype SummaryRow = SummaryRow(
    openingFilled: Option<int>,
    openingEmpty: Option<int>,
    defectiveEmptyVehicle: Option<int>,
    itemReceipt: Option<int>,
    itemReturn: Option<int>,
    salesRegular: int,
    ncQty: int,
    dbcQty: int,
    tvOutQty: int,
    closingFilled: Option<int>,
    closingEmpty: Option<int>,
    totalStock: Option<int>,
    isReconciled: bool,
    ioclNoMovement: bool)

  /** The column defaults of a freshly inserted summary row. */
  const NewSummaryRow := SummaryRow(None, None, None, None, None, 0, 0, 0, 0, None, None, None, false, false)

  /** A `delivery_issues` row: quantities issued to one boy of one type on one day. */
  datatype Issue = Issue(regular: int, nc: int, dbc: int, tvOut: int)

  datatype Category = Regular | Nc | Dbc | TvOut

  function Qty(i: Issue, c: Category): int
  {
    match c
    case Regular => i.regular
    case Nc => i.nc
    case Dbc => i.dbc
    case TvOut => i.tvOut
  }

  /** Refill, new-connection and deposit-based-connection counts of the office counter. */
  datatype OfficeCounts = OfficeCounts(refill: int, nc: int, dbc: int)

  const NoCounts := OfficeCounts(0, 0, 0)

  /** An `office_counter_sales` row without its generated (closing and total) columns. */
  datatype OfficeRow = OfficeRow(opening: OfficeCounts, received: OfficeCounts, sold: OfficeCounts, cash: int, upi: int)

  datatype Deposit = Deposit(cash: int, upi: int, total: int)

  datatype BalanceStatus = Pending | Settled | Excess

  datatype Balance = Balance(opening: int, expected: int, deposited: int, closing: int, status: BalanceStatus)

  /** The whole database as a value. */
  datatype Tables = Tables(
    days: seq<StockDay>,
    types: seq<CylinderType>,
    prices: map<TypeId, Price>,
    boys: seq<DeliveryBoy>,
    summary: map<DayType, SummaryRow>,
    office: map<DayType, OfficeRow>,
    issues: map<DayBoyType, Issue>,
    vehicleEmpty: map<DayBoyType, int>,
    expected: map<DayBoy, int>,
    deposits: map<DayBoy, Deposit>,
    balances: map<DayBoy, Balance>)

  /** The tables after a POST action, and what the action reported. */
  datatype Step = Step(after: Tables, outcome: Outcome)

  function Reject(t: Tables, e: Error): (r: Step)
    ensures r.after == t && r.outcome.Rejected?
  {
    Step(t, Rejected(e))
  }

  /** Distinct dates and the foreign keys of every day-scoped table. */
  ghost predicate Valid(t: Tables)
  {
    && (forall i, j :: 0 <= i < |t.days| && 0 <= j < |t.days| && i != j ==> t.days[i].date != t.days[j].date)
    && (forall ty :: ty in t.prices ==> ty < |t.types|)
    && (forall k :: k in t.summary ==> k.0 < |t.days| && k.1 < |t.types|)
    && (forall k :: k in t.office ==> k.0 < |t.days| && k.1 < |t.types|)
    && (forall k :: k in t.issues ==> k.0 < |t.days| && k.1 < |t.boys| && k.2 < |t.types|)
    && (forall k :: k in t.vehicleEmpty ==> k.0 < |t.days| && k.1 < |t.boys| && k.2 < |t.types|)
    && (forall k :: k in t.expected ==> k.0 < |t.days| && k.1 < |t.boys|)
    && (forall k :: k in t.deposits ==> k.0 < |t.days| && k.1 < |t.boys|)
    && (forall k :: k in t.balances ==> k.0 < |t.days| && k.1 < |t.boys|)
  }

  // ---------------------------------------------------------------------------
  // Finding "the" day

  function DaysWith(days: seq<StockDay>, st: Status): set<DayId>
  {
    set i | 0 <= i < |days| && days[i].status == st
  }

  /** Every day is either open or closed. */
  function AllDays(days: seq<StockDay>): set<DayId>
  {
    DaysWith(days, Open) + DaysWith(days, Closed)
  }

  /** `ORDER BY stock_date DESC LIMIT 1` over the days whose id is in `ids`:
      the eligible day with the latest date (the lowest id among equal dates). */
  function LatestIn(days: seq<StockDay>, ids: set<DayId>): (r: Option<DayId>)
    ensures r.None? <==> forall i :: 0 <= i < |days| ==> i !in ids
    ensures r.Some? ==> r.value < |days| && r.value in ids
    ensures r.Some? ==> forall i :: 0 <= i < |days| && i in ids ==> days[i].date <= days[r.value].date
    ensures r.Some? ==> forall i :: 0 <= i < r.value && i in ids ==> days[i].date < days[r.value].date
    decreases |days|
  {
    if |days| == 0 then None
    else
      var last := |days| - 1;
      var r := LatestIn(days[..last], ids);
      if last !in ids then r
      else if r.None? || days[r.value].date < days[last].date then Some(last)
      else r
  }

  /** `WHERE status = 'OPEN' LIMIT 1` without an ORDER BY: the open day with
      the lowest id, the order in which the table's primary key is scanned. */
  function FirstOpen(days: seq<StockDay>): (r: Option<DayId>)
    ensures r.None? <==> forall i :: 0 <= i < |days| ==> days[i].status != Open
    ensures r.Some? ==> r.value < |days| && days[r.value].status == Open
    ensures r.Some? ==> forall i :: 0 <= i < r.value ==> days[i].status != Open
    decreases |days|
  {
    if |days| == 0 then None
    else
      var r := FirstOpen(days[..|days| - 1]);
      if r.Some? then r
      else if days[|days| - 1].status == Open then Some(|days| - 1)
      else None
  }

  function LatestDay(t: Tables): Option<DayId>
  {
    LatestIn(t.days, AllDays(t.days))
  }

  function LatestOpenDay(t: Tables): Option<DayId>
  {
    LatestIn(t.days, DaysWith(t.days, Open))
  }

  function LatestClosedDay(t: Tables): Option<DayId>
  {
    LatestIn(t.days, DaysWith(t.days, Closed))
  }

  predicate AtMostOneOpen(t: Tables)
  {
    forall i, j :: 0 <= i < |t.days| && 0 <= j < |t.days| && t.days[i].status == Open && t.days[j].status == Open ==> i == j
  }

  // ---------------------------------------------------------------------------
  // Queries on one day's rows, shared by the dashboard and the routes

  /** Some summary row of the day has a non-NULL opening_filled. */
  predicate OpeningDone(t: Tables, s: DayId)
  {
    exists k :: k in t.summary && k.0 == s && t.summary[k].openingFilled.Some?
  }

  /** `MAX(is_reconciled) = 1` over the day's summary rows. */
  predicate StockFinalized(t: Tables, s: DayId)
  {
    exists k :: k in t.summary && k.0 == s && t.summary[k].isReconciled
  }

  /** `MAX(iocl_no_movement) = 1` over the day's summary rows. */
  predicate IoclNoMovementSet(t: Tables, s: DayId)
  {
    exists k :: k in t.summary && k.0 == s && t.summary[k].ioclNoMovement
  }

  /** `COALESCE(SUM(item_receipt + item_return), 0)`: rows where either column is NULL add nothing. */
  function MovementSum(t: Tables, s: DayId): int
  {
    Sum(|t.types|, ty =>
      if (s, ty) in t.summary && t.summary[(s, ty)].itemReceipt.Some? && t.summary[(s, ty)].itemReturn.Some?
      then t.summary[(s, ty)].itemReceipt.value + t.summary[(s, ty)].itemReturn.value
      else 0)
  }

  predicate HasIssues(t: Tables, s: DayId)
  {
    exists k :: k in t.issues && k.0 == s
  }

  /** `SUM(<category>)` over the day's issue rows of one cylinder type, 0 when there are none. */
  function IssueSum(issues: map<DayBoyType, Issue>, s: DayId, ty: TypeId, c: Category, nBoys: nat): int
  {
    Sum(nBoys, b => if (s, b, ty) in issues then Qty(issues[(s, b, ty)], c) else 0)
  }

  predicate HasExpected(t: Tables, s: DayId)
  {
    exists k :: k in t.expected && k.0 == s
  }

  predicate HasDeposits(t: Tables, s: DayId)
  {
    exists k :: k in t.deposits && k.0 == s
  }

  predicate HasBalances(t: Tables, s: DayId)
  {
    exists k :: k in t.balances && k.0 == s
  }

  // ---------------------------------------------------------------------------
  // The database the routes work on

  class Database {
    var days: seq<StockDay>
    const types: seq<CylinderType>
    const prices: map<TypeId, Price>
    var boys: seq<DeliveryBoy>
    var summary: map<DayType, SummaryRow>
    var office: map<DayType, OfficeRow>
    var issues: map<DayBoyType, Issue>
    var vehicleEmpty: map<DayBoyType, int>
    var expected: map<DayBoy, int>
    var deposits: map<DayBoy, Deposit>
    var balances: map<DayBoy, Balance>

    function Snapshot(): Tables
      reads this
    {
      Tables(days, types, prices, boys, summary, office, issues, vehicleEmpty, expected, deposits, balances)
    }

    /** An empty depot over fixed reference data (cylinder types and their prices). */
    constructor (types: seq<CylinderType>, prices: map<TypeId, Price>)
      requires forall ty :: ty in prices ==> ty < |types|
      ensures Snapshot() == Tables([], types, prices, [], map[], map[], map[], map[], map[], map[], map[])
      ensures Valid(Snapshot())
    {
      this.types := types;
      this.prices := prices;
      days := [];
      boys := [];
      summary := map[];
      office := map[];
      issues := map[];
      vehicleEmpty := map[];
      expected := map[];
      deposits := map[];
      balances := map[];
    }
  }
}
