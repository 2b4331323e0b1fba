/** app/routes/cash_settlement.py: the cash each delivery boy is expected to
    bring back for the open day, priced from his issue rows, and the one-shot
    save of those amounts. Amounts are in paise. */
module CashSettlement {
  import opened Common
  import opened Db

  /** What one new connection costs: deposit, refill, document and
      installation charges and the regulator, 0 when there is none. */
  function NcPrice(p: Price): int
  {
    p.deposit + p.refill + p.document + p.installation + Or0(p.regulator)
  }

  /** What one deposit-based connection costs: a new connection without the regulator. */
  function DbcPrice(p: Price): int
  {
    p.deposit + p.refill + p.document + p.installation
  }

  /** The price a quantity of each category is multiplied by; a cylinder
      taken back (TV out) refunds its deposit. */
  function UnitPrice(p: Price, c: Category): int
  {
    match c
    case Regular => p.refill
    case Nc => NcPrice(p)
    case Dbc => DbcPrice(p)
    case TvOut => p.deposit
  }

  /** The net amount one issue row brings in: its sales less its refunds. */
  function LineAmount(i: Issue, p: Price): int
  {
    i.regular * p.refill + i.nc * NcPrice(p) + i.dbc * DbcPrice(p) - i.tvOut * p.deposit
  }

  /** The issue row of boy `b` and type `ty` on day `s` joins with a price row. */
  predicate Priced(issues: map<DayBoyType, Issue>, prices: map<TypeId, Price>, s: DayId, b: BoyId, ty: TypeId)
  {
    (s, b, ty) in issues && ty in prices
  }

  /** `SUM(<category qty> * <unit price>)` over the boy's priced issue rows of the day. */
  function Component(issues: map<DayBoyType, Issue>, prices: map<TypeId, Price>, s: DayId, b: BoyId, nTypes: nat, c: Category): int
  {
    Sum(nTypes, (ty: nat) => if Priced(issues, prices, s, b, ty) then Qty(issues[(s, b, ty)], c) * UnitPrice(prices[ty], c) else 0)
  }

  /** One row of the settlement query. */
  datatype Amounts = Amounts(regular: int, nc: int, dbc: int, tvRefund: int, final: int)

  function BoyAmounts(issues: map<DayBoyType, Issue>, prices: map<TypeId, Price>, s: DayId, b: BoyId, nTypes: nat): Amounts
  {
    var regular := Component(issues, prices, s, b, nTypes, Regular);
    var nc := Component(issues, prices, s, b, nTypes, Nc);
    var dbc := Component(issues, prices, s, b, nTypes, Dbc);
    var tv := Component(issues, prices, s, b, nTypes, TvOut);
    Amounts(regular, nc, dbc, tv, regular + nc + dbc - tv)
  }

  /** The boy has an issue row of the day with a price: the inner joins keep a row of his. */
  predicate HasPricedIssue(issues: map<DayBoyType, Issue>, prices: map<TypeId, Price>, s: DayId, b: BoyId, nTypes: nat)
  {
    exists ty :: 0 <= ty < nTypes && Priced(issues, prices, s, b, ty)
  }

  /** The settlement query, grouped by delivery boy: one row per existing
      boy that has a priced issue row on day `s`. */
  function Settlement(t: Tables, s: DayId): map<BoyId, Amounts>
  {
    map b | 0 <= b < |t.boys| && HasPricedIssue(t.issues, t.prices, s, b, |t.types|) ::
      BoyAmounts(t.issues, t.prices, s, b, |t.types|)
  }

  /** The `delivery_expected_amount` rows after the settlement rows in `done`
      are inserted for day `s`. */
  function Inserted(expected: map<DayBoy, int>, s: DayId, rows: map<BoyId, Amounts>, done: set<BoyId>): (m: map<DayBoy, int>)
    requires done <= rows.Keys
    ensures m.Keys == expected.Keys + DayKeys(s, done)
  {
    map k | k in expected.Keys + DayKeys(s, done) ::
      if k.0 == s && k.1 in done then rows[k.1].final else expected[k]
  }

  function DayKeys(s: DayId, boys: set<BoyId>): (r: set<DayBoy>)
    ensures forall k :: k in r <==> k.0 == s && k.1 in boys
  {
    set b | b in boys :: (s, b)
  }

  /** POST /cash-settlement on the first OPEN day: the amounts are saved only
      when none are saved for the day yet. */
  function Settle(t: Tables): Step
  {
    match FirstOpen(t.days)
    case None => Reject(t, NoOpenDay)
    case Some(s) =>
      if HasExpected(t, s) then Reject(t, Locked)
      else
        var rows := Settlement(t, s);
        Step(t.(expected := Inserted(t.expected, s, rows, rows.Keys)), Done)
  }

  method SaveExpected(db: Database) returns (r: Outcome)
    modifies db
    ensures db.Snapshot() == Settle(old(db.Snapshot())).after
    ensures r == Settle(old(db.Snapshot())).outcome
  {
    var open := FirstOpen(db.days);
    if open.None? {
      return Rejected(NoOpenDay);
    }
    var s := open.value;
    if HasExpected(db.Snapshot(), s) {
      return Rejected(Locked);
    }
    var rows := Settlement(db.Snapshot(), s);
    InsertRows(db, s, rows);
    r := Done;
  }

  /** The insert loop, one row per settlement row. */
  method InsertRows(db: Database, s: DayId, rows: map<BoyId, Amounts>)
    modifies db`expected
    ensures db.expected == Inserted(old(db.expected), s, rows, rows.Keys)
  {
    ghost var expected0 := db.expected;
    var rest := rows.Keys;
    NothingInserted(expected0, s, rows);
    assert rows.Keys - rest == {};
    while rest != {}
      invariant rest <= rows.Keys
      invariant db.expected == Inserted(expected0, s, rows, rows.Keys - rest)
      decreases rest
    {
      var b :| b in rest;
      InsertedOneMore(expected0, s, rows, rows.Keys - rest, b);
      assert (rows.Keys - rest) + {b} == rows.Keys - (rest - {b});
      db.expected := db.expected[(s, b) := rows[b].final];
      rest := rest - {b};
    }
  }

  lemma NothingInserted(expected: map<DayBoy, int>, s: DayId, rows: map<BoyId, Amounts>)
    ensures Inserted(expected, s, rows, {}) == expected
  {
  }

  lemma InsertedOneMore(expected: map<DayBoy, int>, s: DayId, rows: map<BoyId, Amounts>, done: set<BoyId>, b: BoyId)
    requires done <= rows.Keys && b in rows && b !in done
    ensures Inserted(expected, s, rows, done + {b}) == Inserted(expected, s, rows, done)[(s, b) := rows[b].final]
  {
    var m := Inserted(expected, s, rows, done);
    var n := Inserted(expected, s, rows, done + {b});
    var want := m[(s, b) := rows[b].final];
    assert n.Keys == want.Keys;
    forall k | k in n
      ensures n[k] == want[k]
    {
    }
  }

  // ---------------------------------------------------------------------------
  // The page

  /** GET /cash-settlement: the day's settlement rows, and whether amounts
      are already saved for the day. */
  datatype SettlementPage = SettlementPage(day: DayId, rows: map<BoyId, Amounts>, isUpdated: bool)

  function Page(t: Tables): (p: Option<SettlementPage>)
    ensures p.None? <==> FirstOpen(t.days).None?
    ensures p.Some? ==> p.value.isUpdated == HasExpected(t, p.value.day) && p.value.day == FirstOpen(t.days).value
    ensures p.Some? ==> p.value.rows == Settlement(t, p.value.day)
  {
    match FirstOpen(t.days)
    case None => None
    case Some(s) => Some(SettlementPage(s, Settlement(t, s), HasExpected(t, s)))
  }

  // ---------------------------------------------------------------------------
  // Properties

  /** The amounts are saved exactly when there is an open day with none saved
      yet; otherwise nothing changes. */
  lemma SettleOutcome(t: Tables)
    ensures Settle(t).outcome == Done <==> FirstOpen(t.days).Some? && !HasExpected(t, FirstOpen(t.days).value)
    ensures Settle(t).outcome != Done ==> Settle(t).after == t
  {
  }

  /** A save writes one expected amount per settlement row, the row's final
      amount, for the open day; every other table and every other day's
      amounts stay as they were. */
  lemma SettleWritesRows(t: Tables)
    requires Settle(t).outcome == Done
    ensures var s := FirstOpen(t.days).value;
      var u := Settle(t).after;
      var rows := Settlement(t, s);
      && u.(expected := t.expected) == t
      && (forall b :: (s, b) in u.expected <==> b in rows)
      && (forall b :: b in rows ==> u.expected[(s, b)] == rows[b].final)
      && (forall k :: k in t.expected ==> k in u.expected && u.expected[k] == t.expected[k])
      && (forall k :: k in u.expected && k.0 != s ==> k in t.expected)
  {
    var s := FirstOpen(t.days).value;
    assert !HasExpected(t, s);
    forall k | k in t.expected
      ensures k.0 != s
    {
    }
  }

  /** The save is one-shot: once a settlement row is saved, the next post is
      refused and changes nothing. */
  lemma SettleOnce(t: Tables)
    requires Settle(t).outcome == Done
    requires Settlement(t, FirstOpen(t.days).value) != map[]
    ensures var u := Settle(t).after;
      && HasExpected(u, FirstOpen(t.days).value)
      && Settle(u) == Step(u, Rejected(Locked))
  {
    var s := FirstOpen(t.days).value;
    var u := Settle(t).after;
    var b :| b in Settlement(t, s);
    SettleWritesRows(t);
    assert (s, b) in u.expected;
    assert u.days == t.days;
  }

  /** A day whose issue rows have no price saves nothing, so the save can be
      repeated later. */
  lemma NothingPricedSavesNothing(t: Tables)
    requires Settle(t).outcome == Done
    requires Settlement(t, FirstOpen(t.days).value) == map[]
    ensures Settle(t).after == t
  {
    var s := FirstOpen(t.days).value;
    var u := Settle(t).after;
    assert u.expected == t.expected;
  }

  /** A boy is in the settlement exactly when he exists and has a priced
      issue row of the day. */
  lemma SettlementRows(t: Tables, s: DayId, b: BoyId)
    ensures b in Settlement(t, s) <==>
      b < |t.boys| && exists ty :: 0 <= ty < |t.types| && (s, b, ty) in t.issues && ty in t.prices
  {
    if b < |t.boys| && exists ty :: 0 <= ty < |t.types| && (s, b, ty) in t.issues && ty in t.prices {
      var ty :| 0 <= ty < |t.types| && (s, b, ty) in t.issues && ty in t.prices;
      assert Priced(t.issues, t.prices, s, b, ty);
    }
  }

  /** The final amount is the sum over the boy's priced issue rows of what
      each row brings in: the four column sums of the query combine row by row. */
  lemma FinalIsSumOfLines(issues: map<DayBoyType, Issue>, prices: map<TypeId, Price>, s: DayId, b: BoyId, nTypes: nat)
    ensures BoyAmounts(issues, prices, s, b, nTypes).final ==
      Sum(nTypes, (ty: nat) => if Priced(issues, prices, s, b, ty) then LineAmount(issues[(s, b, ty)], prices[ty]) else 0)
  {
    var reg := (ty: nat) => if Priced(issues, prices, s, b, ty) then Qty(issues[(s, b, ty)], Regular) * UnitPrice(prices[ty], Regular) else 0;
    var nc := (ty: nat) => if Priced(issues, prices, s, b, ty) then Qty(issues[(s, b, ty)], Nc) * UnitPrice(prices[ty], Nc) else 0;
    var dbc := (ty: nat) => if Priced(issues, prices, s, b, ty) then Qty(issues[(s, b, ty)], Dbc) * UnitPrice(prices[ty], Dbc) else 0;
    var tv := (ty: nat) => if Priced(issues, prices, s, b, ty) then Qty(issues[(s, b, ty)], TvOut) * UnitPrice(prices[ty], TvOut) else 0;
    var line := (ty: nat) => if Priced(issues, prices, s, b, ty) then LineAmount(issues[(s, b, ty)], prices[ty]) else 0;
    var regNc := (ty: nat) => reg(ty) + nc(ty);
    var sales := (ty: nat) => regNc(ty) + dbc(ty);
    var negTv := (ty: nat) => -tv(ty);
    SumAdditive(nTypes, regNc, reg, nc);
    SumAdditive(nTypes, sales, regNc, dbc);
    SumNegated(nTypes, tv, negTv);
    SumAdditive(nTypes, line, sales, negTv);
  }

  lemma {:induction false} SumNegated(n: nat, f: nat -> int, g: nat -> int)
    requires forall i :: 0 <= i < n ==> g(i) == -f(i)
    ensures Sum(n, g) == -Sum(n, f)
  {
    if n > 0 {
      SumNegated(n - 1, f, g);
    }
  }

  /** Without TV-out cylinders and with non-negative prices and quantities,
      no boy is expected to bring back a negative amount. */
  lemma NoRefundNoDebt(issues: map<DayBoyType, Issue>, prices: map<TypeId, Price>, s: DayId, b: BoyId, nTypes: nat)
    requires forall ty :: 0 <= ty < nTypes && Priced(issues, prices, s, b, ty) ==>
      var i := issues[(s, b, ty)];
      var p := prices[ty];
      i.regular >= 0 && i.nc >= 0 && i.dbc >= 0 && i.tvOut == 0
      && p.refill >= 0 && p.deposit >= 0 && p.document >= 0 && p.installation >= 0 && Or0(p.regulator) >= 0
    ensures BoyAmounts(issues, prices, s, b, nTypes).final >= 0
  {
    FinalIsSumOfLines(issues, prices, s, b, nTypes);
    var line := (ty: nat) => if Priced(issues, prices, s, b, ty) then LineAmount(issues[(s, b, ty)], prices[ty]) else 0;
    forall ty | 0 <= ty < nTypes
      ensures line(ty) >= 0
    {
      if Priced(issues, prices, s, b, ty) {
        var i := issues[(s, b, ty)];
        var p := prices[ty];
        assert NcPrice(p) >= 0 && DbcPrice(p) >= 0;
        assert i.regular * p.refill >= 0 && i.nc * NcPrice(p) >= 0 && i.dbc * DbcPrice(p) >= 0;
      }
    }
    SumNonNegative(nTypes, line);
  }

  /** A save keeps the database's foreign keys. */
  lemma SettlePreservesValid(t: Tables)
    requires Valid(t)
    ensures Valid(Settle(t).after)
  {
    if Settle(t).outcome == Done {
      SettleWritesRows(t);
    }
  }
}
