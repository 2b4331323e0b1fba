/** app/routes/office_sales.py: sales at the office counter, which add to the
    day's office row of a cylinder type, the flag that freezes them, and the
    price list shown beside them. Amounts are in paise. */
module OfficeSales {
  import opened Common
  import opened Db

  /** A numeric form field: absent (read as 0), sent blank (its parse
      raises), or a value. */
  datatype Field = Missing | Blank | Value(v: int)

  function ReadInt(f: Field): int
    requires f != Blank
  {
    match f
    case Missing => 0
    case Value(v) => v
  }

  /** The fields of the sale form. A missing cylinder type matches no row. */
  datatype SaleForm = SaleForm(cylinderType: Option<TypeId>, saleType: string, qty: Field, cash: Field, upi: Field)

  /** The sold counter each sale type adds to; other sale types have none. */
  predicate KnownSaleType(saleType: string)
  {
    saleType == "REFILL" || saleType == "NC" || saleType == "DBC"
  }

  function AddSold(sold: OfficeCounts, saleType: string, qty: int): OfficeCounts
  {
    if saleType == "REFILL" then sold.(refill := sold.refill + qty)
    else if saleType == "NC" then sold.(nc := sold.nc + qty)
    else if saleType == "DBC" then sold.(dbc := sold.dbc + qty)
    else sold
  }

  function AddSale(row: OfficeRow, saleType: string, qty: int, cash: int, upi: int): OfficeRow
  {
    row.(sold := AddSold(row.sold, saleType, qty), cash := row.cash + cash, upi := row.upi + upi)
  }

  /** The numbers of the form parse: none of them was sent blank. */
  predicate Parses(form: SaleForm)
  {
    form.qty != Blank && form.cash != Blank && form.upi != Blank
  }

  /** The office rows after a parsed sale of a known type on day `s`: the
      UPDATE matches at most the row of the form's cylinder type. */
  function SaleApplied(office: map<DayType, OfficeRow>, s: DayId, form: SaleForm): (m: map<DayType, OfficeRow>)
    requires Parses(form)
    ensures m.Keys == office.Keys
  {
    if form.cylinderType.None? || (s, form.cylinderType.value) !in office then office
    else
      var k := (s, form.cylinderType.value);
      office[k := AddSale(office[k], form.saleType, ReadInt(form.qty), ReadInt(form.cash), ReadInt(form.upi))]
  }

  /** POST /office-sales, on the OPEN day with the latest date. The numbers
      are parsed before the sale type is checked. */
  function RecordSale(t: Tables, form: SaleForm): Step
  {
    match LatestOpenDay(t)
    case None => Reject(t, NoOpenDay)
    case Some(s) =>
      if t.days[s].officeFinalized == 1 then Reject(t, Locked)
      else if !Parses(form) then Reject(t, InvalidInput)
      else if !KnownSaleType(form.saleType) then Reject(t, InvalidSaleType)
      else Step(t.(office := SaleApplied(t.office, s, form)), Done)
  }

  method RecordOfficeSale(db: Database, form: SaleForm) returns (r: Outcome)
    modifies db
    ensures db.Snapshot() == RecordSale(old(db.Snapshot()), form).after
    ensures r == RecordSale(old(db.Snapshot()), form).outcome
  {
    var open := LatestOpenDay(db.Snapshot());
    if open.None? {
      return Rejected(NoOpenDay);
    }
    var s := open.value;
    if db.days[s].officeFinalized == 1 {
      return Rejected(Locked);
    }
    if !Parses(form) {
      return Rejected(InvalidInput);
    }
    var qty, cash, upi := ReadInt(form.qty), ReadInt(form.cash), ReadInt(form.upi);
    if !KnownSaleType(form.saleType) {
      return Rejected(InvalidSaleType);
    }
    if form.cylinderType.Some? && (s, form.cylinderType.value) in db.office {
      var k := (s, form.cylinderType.value);
      var row := db.office[k];
      row := row.(sold := AddSold(row.sold, form.saleType, qty));
      row := row.(cash := row.cash + cash, upi := row.upi + upi);
      db.office := db.office[k := row];
    }
    r := Done;
  }

  /** POST /finalize-office-sales, on the OPEN day with the latest date. */
  function FinalizeOffice(t: Tables): Step
  {
    match LatestOpenDay(t)
    case None => Reject(t, NoOpenDay)
    case Some(s) => Step(t.(days := t.days[s := t.days[s].(officeFinalized := 1)]), Done)
  }

  method FinalizeOfficeSales(db: Database) returns (r: Outcome)
    modifies db
    ensures db.Snapshot() == FinalizeOffice(old(db.Snapshot())).after
    ensures r == FinalizeOffice(old(db.Snapshot())).outcome
  {
    var open := LatestOpenDay(db.Snapshot());
    if open.None? {
      return Rejected(NoOpenDay);
    }
    var s := open.value;
    db.days := db.days[s := db.days[s].(officeFinalized := 1)];
    r := Done;
  }

  // ---------------------------------------------------------------------------
  // The price list

  /** The price of one cylinder of each sale type. */
  datatype SalePrices = SalePrices(refill: int, nc: int, dbc: int)

  /** One entry per price row. A refill costs the refill amount; a
      deposit-based connection costs a refill plus the deposit and the
      document and installation charges; a new connection costs a
      deposit-based connection plus the regulator, 0 when it has none. */
  function PriceMap(prices: map<TypeId, Price>): (m: map<TypeId, SalePrices>)
    ensures m.Keys == prices.Keys
    ensures forall ty :: ty in m ==>
      && m[ty].refill == prices[ty].refill
      && m[ty].dbc == m[ty].refill + prices[ty].deposit + prices[ty].document + prices[ty].installation
      && m[ty].nc == m[ty].dbc + Or0(prices[ty].regulator)
  {
    map ty | ty in prices ::
      var p := prices[ty];
      SalePrices(p.refill,
                 p.deposit + p.refill + p.document + p.installation + Or0(p.regulator),
                 p.deposit + p.refill + p.document + p.installation)
  }

  // ---------------------------------------------------------------------------
  // Properties

  /** A sale goes through exactly when there is an open day whose office
      sales are not frozen, the numbers parse and the sale type is known;
      otherwise nothing changes. */
  lemma RecordSaleOutcome(t: Tables, form: SaleForm)
    ensures RecordSale(t, form).outcome == Done <==>
      && LatestOpenDay(t).Some?
      && t.days[LatestOpenDay(t).value].officeFinalized != 1
      && form.qty != Blank && form.cash != Blank && form.upi != Blank
      && KnownSaleType(form.saleType)
    ensures RecordSale(t, form).outcome != Done ==> RecordSale(t, form).after == t
    ensures LatestOpenDay(t).Some? && t.days[LatestOpenDay(t).value].officeFinalized == 1 ==>
      RecordSale(t, form) == Step(t, Rejected(Locked))
  {
  }

  /** A sale adds its quantity to the sold counter of its type, and its cash
      and UPI to the row's totals; nothing else in the database changes. */
  lemma RecordSaleAdds(t: Tables, form: SaleForm)
    requires RecordSale(t, form).outcome == Done
    requires form.cylinderType.Some? && (LatestOpenDay(t).value, form.cylinderType.value) in t.office
    ensures var k := (LatestOpenDay(t).value, form.cylinderType.value);
      var u := RecordSale(t, form).after;
      var before := t.office[k];
      && u.(office := t.office) == t
      && u.office.Keys == t.office.Keys
      && (forall j :: j in t.office && j != k ==> u.office[j] == t.office[j])
      && u.office[k].opening == before.opening && u.office[k].received == before.received
      && u.office[k].sold.refill == before.sold.refill + (if form.saleType == "REFILL" then ReadInt(form.qty) else 0)
      && u.office[k].sold.nc == before.sold.nc + (if form.saleType == "NC" then ReadInt(form.qty) else 0)
      && u.office[k].sold.dbc == before.sold.dbc + (if form.saleType == "DBC" then ReadInt(form.qty) else 0)
      && u.office[k].cash == before.cash + ReadInt(form.cash)
      && u.office[k].upi == before.upi + ReadInt(form.upi)
  {
  }

  lemma SaleAppliedCommutes(office: map<DayType, OfficeRow>, s: DayId, a: SaleForm, b: SaleForm)
    requires Parses(a) && Parses(b)
    ensures SaleApplied(SaleApplied(office, s, a), s, b) == SaleApplied(SaleApplied(office, s, b), s, a)
  {
  }

  /** A sale changes only office rows, and keeps which of them exist. */
  lemma SaleKeepsDays(t: Tables, form: SaleForm)
    ensures RecordSale(t, form).after.(office := t.office) == t
    ensures RecordSale(t, form).after.office.Keys == t.office.Keys
  {
    var u := RecordSale(t, form).after;
    if RecordSale(t, form).outcome == Done {
      var s := LatestOpenDay(t).value;
      assert u == t.(office := SaleApplied(t.office, s, form));
    } else {
      assert u == t;
    }
  }

  /** Sales accumulate: two sales recorded in either order leave the same tables. */
  lemma SalesCommute(t: Tables, a: SaleForm, b: SaleForm)
    ensures RecordSale(RecordSale(t, a).after, b).after == RecordSale(RecordSale(t, b).after, a).after
  {
    var ta := RecordSale(t, a).after;
    var tb := RecordSale(t, b).after;
    SaleKeepsDays(t, a);
    SaleKeepsDays(t, b);
    if RecordSale(t, a).outcome != Done {
      assert ta == t;
      assert RecordSale(tb, a).outcome != Done;
    } else if RecordSale(t, b).outcome != Done {
      assert tb == t;
      assert RecordSale(ta, b).outcome != Done;
    } else {
      var s := LatestOpenDay(t).value;
      assert ta == t.(office := SaleApplied(t.office, s, a));
      assert tb == t.(office := SaleApplied(t.office, s, b));
      SaleAppliedCommutes(t.office, s, a, b);
    }
  }

  /** Freezing sets the flag on the open day, after which every sale is
      refused; freezing again changes nothing. */
  lemma FinalizeOfficeLocks(t: Tables, form: SaleForm)
    requires LatestOpenDay(t).Some?
    ensures var u := FinalizeOffice(t).after;
      && u.days[LatestOpenDay(t).value].officeFinalized == 1
      && RecordSale(u, form) == Step(u, Rejected(Locked))
      && FinalizeOffice(u).after == u
  {
    var s := LatestOpenDay(t).value;
    var u := FinalizeOffice(t).after;
    SameStatusSameLatest(t.days, u.days);
    assert LatestOpenDay(u) == Some(s);
    assert u.days[s := u.days[s].(officeFinalized := 1)] == u.days;
  }

  /** Changing only the flags of days keeps which day is the latest open one. */
  lemma SameStatusSameLatest(a: seq<StockDay>, b: seq<StockDay>)
    requires |a| == |b|
    requires forall i :: 0 <= i < |a| ==> a[i].date == b[i].date && a[i].status == b[i].status
    ensures LatestIn(a, DaysWith(a, Open)) == LatestIn(b, DaysWith(b, Open))
  {
    assert DaysWith(a, Open) == DaysWith(b, Open);
    LatestInSameDates(a, b, DaysWith(a, Open));
  }

  lemma {:induction false} LatestInSameDates(a: seq<StockDay>, b: seq<StockDay>, ids: set<DayId>)
    requires |a| == |b|
    requires forall i :: 0 <= i < |a| ==> a[i].date == b[i].date
    ensures LatestIn(a, ids) == LatestIn(b, ids)
    decreases |a|
  {
    if |a| > 0 {
      LatestInSameDates(a[..|a| - 1], b[..|b| - 1], ids);
    }
  }
}
