/** app/routes/cash_reconciliation.py: each active delivery boy's running
    cash balance (what he owed before, plus what he was expected to bring,
    less what he deposited), the page that proposes those figures, and the
    day close that lets the balances carry forward. Amounts are in paise. */
module CashReconciliation {
  import opened Common
  import opened Db

  /** The `opening_<id>`, `expected_<id>` or `deposited_<id>` fields of the
      form, by delivery boy: a missing field reads as 0 and a blank one
      cannot be parsed. */
  type BalanceForm = map<BoyId, Option<int>>

  predicate BlankIn(form: BalanceForm, b: BoyId)
  {
    b in form && form[b].None?
  }

  /** `round(closing, 2) == 0` on amounts in paise, then the sign. */
  function StatusOf(closing: int): (st: BalanceStatus)
    ensures st == Settled <==> closing == 0
    ensures st == Excess <==> closing < 0
    ensures st == Pending <==> closing > 0
  {
    if closing == 0 then Settled
    else if closing < 0 then Excess
    else Pending
  }

  function BalanceOf(opening: int, expected: int, deposited: int): Balance
  {
    var closing := opening + expected - deposited;
    Balance(opening, expected, deposited, closing, StatusOf(closing))
  }

  /** The three fields of one boy. */
  datatype Forms = Forms(opening: BalanceForm, expected: BalanceForm, deposited: BalanceForm)

  predicate BlankFor(f: Forms, b: BoyId)
  {
    BlankIn(f.opening, b) || BlankIn(f.expected, b) || BlankIn(f.deposited, b)
  }

  function BoyBalance(f: Forms, b: BoyId): Balance
  {
    BalanceOf(FieldOr0(f.opening, b), FieldOr0(f.expected, b), FieldOr0(f.deposited, b))
  }

  predicate Active(boys: seq<DeliveryBoy>, b: BoyId)
  {
    b < |boys| && boys[b].isActive == 1
  }

  /** An active boy with a blank field: its parse raises inside the loop and
      the transaction is never committed. */
  predicate AnyBlank(boys: seq<DeliveryBoy>, f: Forms)
  {
    exists b :: 0 <= b < |boys| && boys[b].isActive == 1 && BlankFor(f, b)
  }

  function ActiveKeys(s: DayId, boys: seq<DeliveryBoy>, n: nat): (r: set<DayBoy>)
    ensures forall k :: k in r <==> k.0 == s && k.1 < n && Active(boys, k.1)
  {
    set b | 0 <= b < n && Active(boys, b) :: (s, b)
  }

  /** The balance rows after the active boys with ids below `n` are upserted for day `s`. */
  function Reconciled(balances: map<DayBoy, Balance>, s: DayId, boys: seq<DeliveryBoy>, f: Forms, n: nat): (m: map<DayBoy, Balance>)
    ensures m.Keys == balances.Keys + ActiveKeys(s, boys, n)
  {
    map k: DayBoy | k in balances.Keys + ActiveKeys(s, boys, n) ::
      if k.0 == s && k.1 < n && Active(boys, k.1) then BoyBalance(f, k.1) else balances[k]
  }

  /** POST /cash-reconciliation on the first OPEN day: insert or overwrite
      the balance row of every active delivery boy. */
  function Reconcile(t: Tables, f: Forms): Step
  {
    match FirstOpen(t.days)
    case None => Reject(t, NoOpenDay)
    case Some(s) =>
      if AnyBlank(t.boys, f) then Reject(t, InvalidInput)
      else Step(t.(balances := Reconciled(t.balances, s, t.boys, f, |t.boys|)), Done)
  }

  method UpdateBalances(db: Database, f: Forms) returns (r: Outcome)
    modifies db
    ensures db.Snapshot() == Reconcile(old(db.Snapshot()), f).after
    ensures r == Reconcile(old(db.Snapshot()), f).outcome
  {
    var open := FirstOpen(db.days);
    if open.None? {
      return Rejected(NoOpenDay);
    }
    var s := open.value;
    var ok, staged := StageBalances(s, db.boys, db.balances, f);
    if !ok {
      return Rejected(InvalidInput);
    }
    db.balances := staged;
    r := Done;
  }

  /** The loop over the active boys: it stages the upserts, to be committed
      after the last boy, and stops at the first blank field, before the commit. */
  method StageBalances(s: DayId, boys: seq<DeliveryBoy>, balances: map<DayBoy, Balance>, f: Forms) returns (ok: bool, staged: map<DayBoy, Balance>)
    ensures ok <==> !AnyBlank(boys, f)
    ensures ok ==> staged == Reconciled(balances, s, boys, f, |boys|)
  {
    staged := balances;
    NothingReconciled(balances, s, boys, f);
    for b := 0 to |boys|
      invariant ParsedBelow(boys, f, b)
      invariant staged == Reconciled(balances, s, boys, f, b)
    {
      var parsed;
      parsed, staged := StageBoy(s, boys, f, b, staged);
      if !parsed {
        return false, staged;
      }
      if Active(boys, b) {
        ReconciledOneMore(balances, s, boys, f, b);
      } else {
        ReconciledSkips(balances, s, boys, f, b);
      }
    }
    ParsedBelowNoBlank(boys, f, |boys|);
    ok := true;
  }

  /** Every boy below `n` parses: none is active with a blank field. */
  predicate ParsedBelow(boys: seq<DeliveryBoy>, f: Forms, n: nat)
  {
    n == 0 || (ParsedBelow(boys, f, n - 1) && !(Active(boys, n - 1) && BlankFor(f, n - 1)))
  }

  lemma {:induction false} ParsedBelowNoBlank(boys: seq<DeliveryBoy>, f: Forms, n: nat)
    ensures ParsedBelow(boys, f, n) <==> forall j :: 0 <= j < n ==> !(Active(boys, j) && BlankFor(f, j))
  {
    if n > 0 {
      ParsedBelowNoBlank(boys, f, n - 1);
    }
  }

  /** One boy of the loop: an inactive boy is skipped; an active boy's three
      fields are parsed and his row staged, unless one of them is blank. */
  method StageBoy(s: DayId, boys: seq<DeliveryBoy>, f: Forms, b: BoyId, staged: map<DayBoy, Balance>) returns (parsed: bool, next: map<DayBoy, Balance>)
    requires b < |boys|
    ensures parsed <==> !(Active(boys, b) && BlankFor(f, b))
    ensures parsed ==> next == if Active(boys, b) then staged[(s, b) := BoyBalance(f, b)] else staged
  {
    next := staged;
    if boys[b].isActive != 1 {
      return true, next;
    }
    if BlankIn(f.opening, b) || BlankIn(f.expected, b) || BlankIn(f.deposited, b) {
      return false, next;
    }
    var op := FieldOr0(f.opening, b);
    var ex := FieldOr0(f.expected, b);
    var dp := FieldOr0(f.deposited, b);
    var cl := op + ex - dp;
    var status := StatusOf(cl);
    next := staged[(s, b) := Balance(op, ex, dp, cl, status)];
    parsed := true;
  }

  lemma NothingReconciled(balances: map<DayBoy, Balance>, s: DayId, boys: seq<DeliveryBoy>, f: Forms)
    ensures Reconciled(balances, s, boys, f, 0) == balances
  {
  }

  lemma ReconciledOneMore(balances: map<DayBoy, Balance>, s: DayId, boys: seq<DeliveryBoy>, f: Forms, n: nat)
    requires Active(boys, n)
    ensures Reconciled(balances, s, boys, f, n + 1) == Reconciled(balances, s, boys, f, n)[(s, n) := BoyBalance(f, n)]
  {
    var m := Reconciled(balances, s, boys, f, n);
    var next := Reconciled(balances, s, boys, f, n + 1);
    var want := m[(s, n) := BoyBalance(f, n)];
    assert next.Keys == want.Keys;
    forall k | k in next
      ensures next[k] == want[k]
    {
    }
  }

  lemma ReconciledSkips(balances: map<DayBoy, Balance>, s: DayId, boys: seq<DeliveryBoy>, f: Forms, n: nat)
    requires !Active(boys, n)
    ensures Reconciled(balances, s, boys, f, n + 1) == Reconciled(balances, s, boys, f, n)
  {
    var m := Reconciled(balances, s, boys, f, n);
    var next := Reconciled(balances, s, boys, f, n + 1);
    assert next.Keys == m.Keys;
  }

  /** GET /day-close: every OPEN day becomes CLOSED. */
  function CloseAll(days: seq<StockDay>): (r: seq<StockDay>)
    ensures |r| == |days|
  {
    seq(|days|, i requires 0 <= i < |days| => days[i].(status := Closed))
  }

  function DayClose(t: Tables): Step
  {
    Step(t.(days := CloseAll(t.days)), Done)
  }

  method CloseDay(db: Database) returns (r: Outcome)
    modifies db
    ensures db.Snapshot() == DayClose(old(db.Snapshot())).after
    ensures r == DayClose(old(db.Snapshot())).outcome
  {
    db.days := CloseAll(db.days);
    r := Done;
  }

  // ---------------------------------------------------------------------------
  // The page

  /** The latest CLOSED day, by date, holding a balance row of boy `b`. */
  function LastClosedBalanceDay(t: Tables, b: BoyId): Option<DayId>
  {
    LatestIn(t.days, ClosedBalanceDays(t, b))
  }

  function ClosedBalanceDays(t: Tables, b: BoyId): set<DayId>
  {
    set d | 0 <= d < |t.days| && t.days[d].status == Closed && (d, b) in t.balances
  }

  /** The opening balance the page proposes: the closing balance of the
      boy's latest closed day with a balance row, else 0. */
  function CarriedOpening(t: Tables, b: BoyId): int
  {
    match LastClosedBalanceDay(t, b)
    case None => 0
    case Some(d) => t.balances[(d, b)].closing
  }

  /** `SUM(cash_collected + upi_collected)` over the office rows of day `s`. */
  function OfficeTakings(t: Tables, s: DayId): int
  {
    Sum(|t.types|, (ty: nat) => if (s, ty) in t.office then t.office[(s, ty)].cash + t.office[(s, ty)].upi else 0)
  }

  /** The deposit the page proposes: the boy's saved deposit, 0 when none,
      plus the office counter's takings for the boy named OFFICE. */
  function ProposedDeposit(t: Tables, s: DayId, b: BoyId): int
    requires b < |t.boys|
  {
    (if (s, b) in t.deposits then t.deposits[(s, b)].total else 0)
    + (if t.boys[b].name == "OFFICE" then OfficeTakings(t, s) else 0)
  }

  datatype PageRow = PageRow(opening: int, expected: int, deposited: int, status: BalanceStatus)

  datatype ReconciliationPage = ReconciliationPage(day: DayId, rows: map<BoyId, PageRow>, hasUpdated: bool)

  function PageRowOf(t: Tables, s: DayId, b: BoyId): PageRow
    requires b < |t.boys|
  {
    PageRow(CarriedOpening(t, b),
            if (s, b) in t.expected then t.expected[(s, b)] else 0,
            ProposedDeposit(t, s, b),
            if (s, b) in t.balances then t.balances[(s, b)].status else Pending)
  }

  /** GET /cash-reconciliation: one row per active delivery boy. */
  function Page(t: Tables): (p: Option<ReconciliationPage>)
    ensures p.None? <==> FirstOpen(t.days).None?
    ensures p.Some? ==> forall b :: b in p.value.rows <==> Active(t.boys, b)
    ensures p.Some? ==> p.value.day == FirstOpen(t.days).value
    ensures p.Some? ==> forall b :: b in p.value.rows ==>
      b < |t.boys| && p.value.rows[b] == PageRowOf(t, p.value.day, b)
    ensures p.Some? ==> p.value.hasUpdated == HasBalances(t, p.value.day)
  {
    match FirstOpen(t.days)
    case None => None
    case Some(s) =>
      Some(ReconciliationPage(s, map b | 0 <= b < |t.boys| && t.boys[b].isActive == 1 :: PageRowOf(t, s, b), HasBalances(t, s)))
  }

  // ---------------------------------------------------------------------------
  // Properties

  /** The balances are saved exactly when there is an open day and no active
      boy's field is blank; otherwise nothing changes. */
  lemma ReconcileOutcome(t: Tables, f: Forms)
    ensures Reconcile(t, f).outcome == Done <==>
      FirstOpen(t.days).Some? && forall b :: 0 <= b < |t.boys| && t.boys[b].isActive == 1 ==> !BlankFor(f, b)
    ensures Reconcile(t, f).outcome != Done ==> Reconcile(t, f).after == t
  {
  }

  /** A save writes, for every active boy, his opening, expected and deposited
      amounts (0 when missing), the closing balance opening + expected -
      deposited, and its status: settled at 0, excess below, pending above.
      Every other balance row and every other table stays as it was. */
  lemma ReconcileWrites(t: Tables, f: Forms)
    requires Reconcile(t, f).outcome == Done
    ensures var s := FirstOpen(t.days).value;
      var u := Reconcile(t, f).after;
      && u.(balances := t.balances) == t
      && (forall b: BoyId :: Active(t.boys, b) ==> (s, b) in u.balances)
      && (forall b: BoyId :: Active(t.boys, b) ==>
            var row := u.balances[(s, b)];
            && row.opening == FieldOr0(f.opening, b)
            && row.expected == FieldOr0(f.expected, b)
            && row.deposited == FieldOr0(f.deposited, b)
            && row.closing == row.opening + row.expected - row.deposited
            && (row.status == Settled <==> row.closing == 0)
            && (row.status == Excess <==> row.closing < 0)
            && (row.status == Pending <==> row.closing > 0))
      && (forall k :: k in t.balances && !(k.0 == s && Active(t.boys, k.1)) ==> k in u.balances && u.balances[k] == t.balances[k])
      && (forall k :: k in u.balances && !(k.0 == s && Active(t.boys, k.1)) ==> k in t.balances)
  {
    var s := FirstOpen(t.days).value;
    assert Reconcile(t, f).after == t.(balances := Reconciled(t.balances, s, t.boys, f, |t.boys|));
    ReconciledRows(t.balances, s, t.boys, f);
  }

  lemma ReconciledRows(balances: map<DayBoy, Balance>, s: DayId, boys: seq<DeliveryBoy>, f: Forms)
    ensures var m := Reconciled(balances, s, boys, f, |boys|);
      && (forall b: BoyId :: Active(boys, b) ==> (s, b) in m && m[(s, b)] == BoyBalance(f, b))
      && (forall k :: k in balances && !(k.0 == s && Active(boys, k.1)) ==> k in m && m[k] == balances[k])
      && (forall k :: k in m && !(k.0 == s && Active(boys, k.1)) ==> k in balances)
  {
  }

  /** Saving the same form twice leaves what saving it once left: the rows
      are upserted, never duplicated. */
  lemma ReconcileIdempotent(t: Tables, f: Forms)
    ensures Reconcile(Reconcile(t, f).after, f) == Reconcile(t, f)
  {
    var u := Reconcile(t, f).after;
    if Reconcile(t, f).outcome == Done {
      var s := FirstOpen(t.days).value;
      var m := Reconciled(t.balances, s, t.boys, f, |t.boys|);
      assert u == t.(balances := m);
      var m2 := Reconciled(m, s, t.boys, f, |t.boys|);
      assert m2.Keys == m.Keys;
      assert m2 == m;
    }
  }

  /** After the day close no day is open, every date is kept, and nothing
      else changes; closing again changes nothing. */
  lemma DayCloseClosesAll(t: Tables)
    ensures var u := DayClose(t).after;
      && FirstOpen(u.days).None?
      && LatestOpenDay(u).None?
      && |u.days| == |t.days|
      && (forall i :: 0 <= i < |t.days| ==> u.days[i].date == t.days[i].date && u.days[i].status == Closed)
      && u.(days := t.days) == t
      && DayClose(u).after == u
  {
    var u := DayClose(t).after;
    assert forall i :: 0 <= i < |u.days| ==> u.days[i].status != Open;
    assert forall i :: 0 <= i < |u.days| ==> i !in DaysWith(u.days, Open);
    assert CloseAll(u.days) == u.days;
  }

  /** Balances carry forward: when the open day holds the boy's most recent
      balance row, closing the day makes its closing balance the opening
      balance proposed next. */
  lemma CarryForward(t: Tables, b: BoyId)
    requires FirstOpen(t.days).Some?
    requires (FirstOpen(t.days).value, b) in t.balances
    requires forall d :: 0 <= d < |t.days| && d != FirstOpen(t.days).value && (d, b) in t.balances ==>
      t.days[d].date < t.days[FirstOpen(t.days).value].date
    ensures CarriedOpening(DayClose(t).after, b) == t.balances[(FirstOpen(t.days).value, b)].closing
  {
    var s := FirstOpen(t.days).value;
    var u := DayClose(t).after;
    assert u.days[s].status == Closed;
    assert s in ClosedBalanceDays(u, b);
    var r := LastClosedBalanceDay(u, b);
    assert u.days[r.value].date <= u.days[s].date;
  }

  /** A boy with no balance row on any closed day starts from 0. */
  lemma NoHistoryOpensAtZero(t: Tables, b: BoyId)
    requires forall d :: 0 <= d < |t.days| && t.days[d].status == Closed ==> (d, b) !in t.balances
    ensures CarriedOpening(t, b) == 0
  {
  }

  /** Adding `d` to the cash and UPI of one office row of day `s` adds `d`
      to the day's takings when the row's type is a known cylinder type, and
      nothing otherwise. */
  lemma OfficeTakingsGrow(t: Tables, office: map<DayType, OfficeRow>, s: DayId, c: TypeId, d: int)
    requires (s, c) in t.office && office.Keys == t.office.Keys
    requires forall k :: k in office && k != (s, c) ==> office[k] == t.office[k]
    requires office[(s, c)].cash + office[(s, c)].upi == t.office[(s, c)].cash + t.office[(s, c)].upi + d
    ensures OfficeTakings(t.(office := office), s) == OfficeTakings(t, s) + (if c < |t.types| then d else 0)
  {
    var u := t.(office := office);
    var after := (ty: nat) => if (s, ty) in u.office then u.office[(s, ty)].cash + u.office[(s, ty)].upi else 0;
    var before := (ty: nat) => if (s, ty) in t.office then t.office[(s, ty)].cash + t.office[(s, ty)].upi else 0;
    var added := (ty: nat) => if ty == c then d else 0;
    SumAdditive(|t.types|, after, before, added);
    SumSingle(|t.types|, added, c, d);
  }

  /** The form as the page fills it in: the proposed figures of every active boy. */
  function ProposedForms(t: Tables, s: DayId): Forms
  {
    Forms(map b | 0 <= b < |t.boys| && t.boys[b].isActive == 1 :: Some(PageRowOf(t, s, b).opening),
          map b | 0 <= b < |t.boys| && t.boys[b].isActive == 1 :: Some(PageRowOf(t, s, b).expected),
          map b | 0 <= b < |t.boys| && t.boys[b].isActive == 1 :: Some(PageRowOf(t, s, b).deposited))
  }

  /** Posting the form as the page fills it in always goes through and saves
      the proposed figures of every active boy, with the closing balance the
      carried opening plus the expected amount less the deposit. */
  lemma PostingProposalSavesIt(t: Tables)
    requires FirstOpen(t.days).Some?
    ensures var s := FirstOpen(t.days).value;
      var f := ProposedForms(t, s);
      && Reconcile(t, f).outcome == Done
      && forall b: BoyId :: Active(t.boys, b) ==>
           var row := PageRowOf(t, s, b);
           Reconcile(t, f).after.balances[(s, b)] == BalanceOf(row.opening, row.expected, row.deposited)
  {
    var s := FirstOpen(t.days).value;
    var f := ProposedForms(t, s);
    assert !AnyBlank(t.boys, f);
    ReconcileWrites(t, f);
    forall b: BoyId | Active(t.boys, b)
      ensures FieldOr0(f.opening, b) == PageRowOf(t, s, b).opening
      ensures FieldOr0(f.expected, b) == PageRowOf(t, s, b).expected
      ensures FieldOr0(f.deposited, b) == PageRowOf(t, s, b).deposited
    {
    }
  }

  /** A save keeps the database's foreign keys. */
  lemma ReconcilePreservesValid(t: Tables, f: Forms)
    requires Valid(t)
    ensures Valid(Reconcile(t, f).after)
  {
    if Reconcile(t, f).outcome == Done {
      ReconcileWrites(t, f);
    }
  }
}
