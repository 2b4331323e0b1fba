/** app/routes/delivery_transactions.py: the cylinders issued to each delivery
    boy, stored sparsely per (boy, type), and the TV-out total that is rolled
    up from them into the day's summary rows. */
module DeliveryTransactions {
  import opened Common
  import opened Db
  import opened StockDays

  type Pair = (BoyId, TypeId)

  /** The `issue_<boy>_<type>_<category>` fields of a posted form; a blank field is None. */
  type IssueForm = map<(BoyId, TypeId, string), Option<int>>

  /** The category names the form may use, and the column each one sets. */
  function CategoryOf(code: string): Option<Category>
  {
    if code == "REFILL" then Some(Regular)
    else if code == "NC" then Some(Nc)
    else if code == "DBC" then Some(Dbc)
    else if code == "TVOUT" then Some(TvOut)
    else None
  }

  function SetQty(i: Issue, c: Category, v: int): Issue
  {
    match c
    case Regular => i.(regular := v)
    case Nc => i.(nc := v)
    case Dbc => i.(dbc := v)
    case TvOut => i.(tvOut := v)
  }

  const NoIssue := Issue(0, 0, 0, 0)

  /** A pair is stored only when one of its quantities is positive. */
  predicate Positive(i: Issue)
  {
    i.regular > 0 || i.nc > 0 || i.dbc > 0 || i.tvOut > 0
  }

  // ---------------------------------------------------------------------------
  // Reading the form

  /** The pairs named by the form fields in `done`, whatever their category. */
  function PairsIn(done: set<(BoyId, TypeId, string)>): (ps: set<Pair>)
    ensures forall p :: p in ps <==> exists code :: (p.0, p.1, code) in done
  {
    set key | key in done :: (key.0, key.1)
  }

  /** The quantity of one category posted among the fields in `done`: 0 when
      the field is absent or blank. */
  function PostedIn(form: IssueForm, done: set<(BoyId, TypeId, string)>, p: Pair, code: string): int
    requires done <= form.Keys
  {
    if (p.0, p.1, code) in done then Or0(form[(p.0, p.1, code)]) else 0
  }

  function PostedIssue(form: IssueForm, done: set<(BoyId, TypeId, string)>, p: Pair): Issue
    requires done <= form.Keys
  {
    Issue(PostedIn(form, done, p, "REFILL"), PostedIn(form, done, p, "NC"),
          PostedIn(form, done, p, "DBC"), PostedIn(form, done, p, "TVOUT"))
  }

  /** The four quantities of every pair named by the fields in `done`. */
  function DataMapOf(form: IssueForm, done: set<(BoyId, TypeId, string)>): (m: map<Pair, Issue>)
    requires done <= form.Keys
    ensures m.Keys == PairsIn(done)
  {
    map p | p in PairsIn(done) :: PostedIssue(form, done, p)
  }

  /** The form as the save reads it: every pair the form names, with its four
      recognised categories, unset ones 0. */
  function DataMap(form: IssueForm): map<Pair, Issue>
  {
    DataMapOf(form, form.Keys)
  }

  /** A loop over the form's fields that builds the pair map. */
  method BuildDataMap(form: IssueForm) returns (data: map<Pair, Issue>)
    ensures data == DataMap(form)
  {
    data := map[];
    var rest := form.Keys;
    assert DataMapOf(form, form.Keys - rest) == data;
    while rest != {}
      invariant rest <= form.Keys
      invariant data == DataMapOf(form, form.Keys - rest)
      decreases rest
    {
      var key :| key in rest;
      ReadOneMore(form, form.Keys - rest, key);
      assert (form.Keys - rest) + {key} == form.Keys - (rest - {key});
      var p := (key.0, key.1);
      var cur := if p in data then data[p] else NoIssue;
      var cat := CategoryOf(key.2);
      data := data[p := if cat.Some? then SetQty(cur, cat.value, Or0(form[key])) else cur];
      rest := rest - {key};
    }
  }

  lemma ReadOneMore(form: IssueForm, done: set<(BoyId, TypeId, string)>, key: (BoyId, TypeId, string))
    requires done <= form.Keys && key in form && key !in done
    ensures var m := DataMapOf(form, done);
      var p := (key.0, key.1);
      var cur := if p in m then m[p] else NoIssue;
      DataMapOf(form, done + {key}) ==
        m[p := if CategoryOf(key.2).Some? then SetQty(cur, CategoryOf(key.2).value, Or0(form[key])) else cur]
  {
    var m := DataMapOf(form, done);
    var p := (key.0, key.1);
    var cur := if p in m then m[p] else NoIssue;
    var want := m[p := if CategoryOf(key.2).Some? then SetQty(cur, CategoryOf(key.2).value, Or0(form[key])) else cur];
    var n := DataMapOf(form, done + {key});
    assert PairsIn(done + {key}) == PairsIn(done) + {p};
    if p !in m {
      NothingPosted(form, done, p);
    }
    assert n.Keys == want.Keys;
    forall q | q in n
      ensures n[q] == want[q]
    {
      PostedOneMore(form, done, key, q);
    }
  }

  /** A pair none of whose fields has been read has no quantities yet. */
  lemma NothingPosted(form: IssueForm, done: set<(BoyId, TypeId, string)>, p: Pair)
    requires done <= form.Keys && p !in PairsIn(done)
    ensures PostedIssue(form, done, p) == NoIssue
  {
    assert (p.0, p.1, "REFILL") !in done;
    assert (p.0, p.1, "NC") !in done;
    assert (p.0, p.1, "DBC") !in done;
    assert (p.0, p.1, "TVOUT") !in done;
  }

  /** Reading one more field sets at most the one quantity it names. */
  lemma PostedOneMore(form: IssueForm, done: set<(BoyId, TypeId, string)>, key: (BoyId, TypeId, string), q: Pair)
    requires done <= form.Keys && key in form && key !in done
    ensures PostedIssue(form, done + {key}, q) ==
      if q == (key.0, key.1) && CategoryOf(key.2).Some? then
        SetQty(PostedIssue(form, done, q), CategoryOf(key.2).value, Or0(form[key]))
      else PostedIssue(form, done, q)
  {
    var done' := done + {key};
    if q == (key.0, key.1) {
      var code := key.2;
      assert key == (q.0, q.1, code);
    } else {
      assert forall code :: (q.0, q.1, code) in done' <==> (q.0, q.1, code) in done;
    }
  }

  // ---------------------------------------------------------------------------
  // Storing the issues

  /** A positive pair names a delivery boy or a cylinder type that does not
      exist: its INSERT fails the foreign key and the save is discarded. */
  predicate UnknownPair(t: Tables, data: map<Pair, Issue>)
  {
    exists p :: p in data && Positive(data[p]) && !(p.0 < |t.boys| && p.1 < |t.types|)
  }

  /** The keys that the pairs in `done` upsert on day `s`. */
  function UpsertKeys(s: DayId, data: map<Pair, Issue>, done: set<Pair>): (ks: set<DayBoyType>)
    requires done <= data.Keys
    ensures forall k :: k in ks <==> k.0 == s && (k.1, k.2) in done && Positive(data[(k.1, k.2)])
  {
    set p | p in done && Positive(data[p]) :: (s, p.0, p.1)
  }

  /** The issue rows after the pairs in `done` are stored on day `s`: a
      positive pair is upserted with its four quantities, any other pair's row
      is deleted, and rows of pairs not in `done` are kept. */
  function StoredIssues(issues: map<DayBoyType, Issue>, s: DayId, data: map<Pair, Issue>, done: set<Pair>): map<DayBoyType, Issue>
    requires done <= data.Keys
  {
    map k | k in issues.Keys + UpsertKeys(s, data, done) && !(k.0 == s && (k.1, k.2) in done && !Positive(data[(k.1, k.2)])) ::
      if k.0 == s && (k.1, k.2) in done then data[(k.1, k.2)] else issues[k]
  }

  /** The loop that upserts or deletes one row per pair. */
  method StoreIssues(db: Database, s: DayId, data: map<Pair, Issue>)
    modifies db`issues
    ensures db.issues == StoredIssues(old(db.issues), s, data, data.Keys)
  {
    ghost var issues0 := db.issues;
    var rest := data.Keys;
    StoredNothing(issues0, s, data);
    assert data.Keys - rest == {};
    while rest != {}
      invariant rest <= data.Keys
      invariant db.issues == StoredIssues(issues0, s, data, data.Keys - rest)
      decreases rest
    {
      var p :| p in rest;
      StoreOneMore(issues0, s, data, data.Keys - rest, p);
      assert (data.Keys - rest) + {p} == data.Keys - (rest - {p});
      if Positive(data[p]) {
        db.issues := db.issues[(s, p.0, p.1) := data[p]];
      } else {
        db.issues := db.issues - {(s, p.0, p.1)};
      }
      rest := rest - {p};
    }
  }

  lemma StoredNothing(issues: map<DayBoyType, Issue>, s: DayId, data: map<Pair, Issue>)
    ensures StoredIssues(issues, s, data, {}) == issues
  {
    var n := StoredIssues(issues, s, data, {});
    assert n.Keys == issues.Keys;
  }

  lemma StoreOneMore(issues: map<DayBoyType, Issue>, s: DayId, data: map<Pair, Issue>, done: set<Pair>, p: Pair)
    requires done <= data.Keys && p in data && p !in done
    ensures var m := StoredIssues(issues, s, data, done);
      StoredIssues(issues, s, data, done + {p}) ==
        if Positive(data[p]) then m[(s, p.0, p.1) := data[p]] else m - {(s, p.0, p.1)}
  {
    var m := StoredIssues(issues, s, data, done);
    var n := StoredIssues(issues, s, data, done + {p});
    var want := if Positive(data[p]) then m[(s, p.0, p.1) := data[p]] else m - {(s, p.0, p.1)};
    assert n.Keys == want.Keys;
    forall k | k in n
      ensures n[k] == want[k]
    {
    }
  }

  // ---------------------------------------------------------------------------
  // The TV-out rollup and the reset

  /** Every summary row of day `s` gets the sum of its type's TV-out issues. */
  function TvRollup(summary: map<DayType, SummaryRow>, issues: map<DayBoyType, Issue>, s: DayId, nBoys: nat): (m: map<DayType, SummaryRow>)
    ensures m.Keys == summary.Keys
  {
    map k | k in summary :: if k.0 == s then summary[k].(tvOutQty := IssueSum(issues, s, k.1, TvOut, nBoys)) else summary[k]
  }

  function DayIssuesRemoved(issues: map<DayBoyType, Issue>, s: DayId): map<DayBoyType, Issue>
  {
    map k | k in issues && k.0 != s :: issues[k]
  }

  function TvZeroed(summary: map<DayType, SummaryRow>, s: DayId): (m: map<DayType, SummaryRow>)
    ensures m.Keys == summary.Keys
  {
    map k | k in summary :: if k.0 == s then summary[k].(tvOutQty := 0) else summary[k]
  }

  /** `SUM(sales_regular)` over the day's summary rows: the stock closing
      writes it, and once it is positive the issues are locked. */
  function SalesSum(t: Tables, s: DayId): int
  {
    Sum(|t.types|, ty => if (s, ty) in t.summary then t.summary[(s, ty)].salesRegular else 0)
  }

  predicate IssuesLocked(t: Tables, s: DayId)
  {
    SalesSum(t, s) > 0
  }

  /** POST /delivery-transactions, on the first OPEN day by id; `reset` is
      the reset button. */
  function Save(t: Tables, reset: bool, form: IssueForm): Step
  {
    match FirstOpen(t.days)
    case None => Reject(t, NoOpenDay)
    case Some(s) =>
      if IssuesLocked(t, s) then Reject(t, Locked)
      else if reset then
        Step(t.(issues := DayIssuesRemoved(t.issues, s), summary := TvZeroed(t.summary, s)), Done)
      else
        var data := DataMap(form);
        if UnknownPair(t, data) then Reject(t, UnknownReference)
        else
          var issues := StoredIssues(t.issues, s, data, data.Keys);
          Step(t.(issues := issues, summary := TvRollup(t.summary, issues, s, |t.boys|)), Done)
  }

  method SaveTransactions(db: Database, reset: bool, form: IssueForm) returns (r: Outcome)
    modifies db
    ensures db.Snapshot() == Save(old(db.Snapshot()), reset, form).after
    ensures r == Save(old(db.Snapshot()), reset, form).outcome
  {
    var open := FirstOpen(db.days);
    if open.None? {
      return Rejected(NoOpenDay);
    }
    var s := open.value;
    if IssuesLocked(db.Snapshot(), s) {
      return Rejected(Locked);
    }
    if reset {
      db.issues := DayIssuesRemoved(db.issues, s);
      db.summary := TvZeroed(db.summary, s);
      return Done;
    }
    var data := BuildDataMap(form);
    if UnknownPair(db.Snapshot(), data) {
      return Rejected(UnknownReference);
    }
    StoreIssues(db, s, data);
    db.summary := TvRollup(db.summary, db.issues, s, |db.boys|);
    r := Done;
  }

  // ---------------------------------------------------------------------------
  // Properties

  /** A save goes through exactly when there is an open day whose issues are
      not locked and every positive pair names a known boy and type;
      otherwise nothing changes. */
  lemma SaveOutcome(t: Tables, reset: bool, form: IssueForm)
    ensures Save(t, reset, form).outcome == Done <==>
      FirstOpen(t.days).Some? && !IssuesLocked(t, FirstOpen(t.days).value) && (reset || !UnknownPair(t, DataMap(form)))
    ensures FirstOpen(t.days).Some? && IssuesLocked(t, FirstOpen(t.days).value) ==>
      Save(t, reset, form) == Step(t, Rejected(Locked))
    ensures Save(t, reset, form).outcome != Done ==> Save(t, reset, form).after == t
  {
  }

  /** Each pair the form names gets the quantity of each recognised category
      it posts, and 0 for a category it does not post. */
  lemma DataMapReadsForm(form: IssueForm, b: BoyId, ty: TypeId, c: Category, code: string)
    requires CategoryOf(code) == Some(c)
    requires (b, ty, code) in form
    ensures (b, ty) in DataMap(form)
    ensures Qty(DataMap(form)[(b, ty)], c) == Or0(form[(b, ty, code)])
    ensures forall other: Category, code': string :: CategoryOf(code') == Some(other) && (b, ty, code') !in form ==>
      Qty(DataMap(form)[(b, ty)], other) == 0
  {
  }

  /** A field whose category is not recognised still names its pair, with
      zero quantities when no recognised field does: saving such a form
      deletes that pair's row. */
  lemma UnknownCategoryDeletes(t: Tables, form: IssueForm, b: BoyId, ty: TypeId, code: string)
    requires (b, ty, code) in form && CategoryOf(code).None?
    requires forall c :: CategoryOf(c).Some? ==> (b, ty, c) !in form
    requires Save(t, false, form).outcome == Done
    ensures (FirstOpen(t.days).value, b, ty) !in Save(t, false, form).after.issues
  {
    var s := FirstOpen(t.days).value;
    var data := DataMap(form);
    UnknownOnlyIsNoIssue(form, b, ty, code);
    assert Save(t, false, form).after.issues == StoredIssues(t.issues, s, data, data.Keys);
    StoredRows(t.issues, s, data);
  }

  lemma UnknownOnlyIsNoIssue(form: IssueForm, b: BoyId, ty: TypeId, code: string)
    requires (b, ty, code) in form && CategoryOf(code).None?
    requires forall c :: CategoryOf(c).Some? ==> (b, ty, c) !in form
    ensures (b, ty) in DataMap(form) && DataMap(form)[(b, ty)] == NoIssue
  {
    assert (b, ty) in PairsIn(form.Keys);
    assert CategoryOf("REFILL").Some? && CategoryOf("NC").Some?;
    assert CategoryOf("DBC").Some? && CategoryOf("TVOUT").Some?;
  }

  /** Sparse storage: after a save, a pair the form names has a row exactly
      when one of its quantities is positive, and the row holds them; rows
      of pairs the form does not name, and of other days, are kept. */
  lemma SaveStoresSparsely(t: Tables, form: IssueForm)
    requires Save(t, false, form).outcome == Done
    ensures var s := FirstOpen(t.days).value;
      var data := DataMap(form);
      var u := Save(t, false, form).after;
      && (forall p :: p in data ==>
            ((s, p.0, p.1) in u.issues <==> Positive(data[p])) &&
            ((s, p.0, p.1) in u.issues ==> u.issues[(s, p.0, p.1)] == data[p]))
      && (forall k: DayBoyType :: (k.0 != s || (k.1, k.2) !in data) ==>
            (k in u.issues <==> k in t.issues) && (k in t.issues ==> u.issues[k] == t.issues[k]))
  {
    var s := FirstOpen(t.days).value;
    var data := DataMap(form);
    assert Save(t, false, form).after.issues == StoredIssues(t.issues, s, data, data.Keys);
    StoredRows(t.issues, s, data);
  }

  lemma StoredRows(issues: map<DayBoyType, Issue>, s: DayId, data: map<Pair, Issue>)
    ensures var m := StoredIssues(issues, s, data, data.Keys);
      && (forall p :: p in data ==>
            ((s, p.0, p.1) in m <==> Positive(data[p])) &&
            ((s, p.0, p.1) in m ==> m[(s, p.0, p.1)] == data[p]))
      && (forall k: DayBoyType :: (k.0 != s || (k.1, k.2) !in data) ==>
            (k in m <==> k in issues) && (k in issues ==> m[k] == issues[k]))
  {
  }

  /** Every stored row of a day has a positive quantity. */
  ghost predicate Sparse(issues: map<DayBoyType, Issue>, s: DayId)
  {
    forall k :: k in issues && k.0 == s ==> Positive(issues[k])
  }

  /** Saves and resets keep the day's issue rows sparse. */
  lemma SaveKeepsSparse(t: Tables, reset: bool, form: IssueForm)
    requires FirstOpen(t.days).Some? && Sparse(t.issues, FirstOpen(t.days).value)
    ensures Sparse(Save(t, reset, form).after.issues, FirstOpen(t.days).value)
  {
  }

  /** After any successful save or reset, each summary row of the day holds
      the sum of its type's TV-out quantities over the day's issue rows (0 if
      there are none). */
  lemma TvOutIsRollup(t: Tables, reset: bool, form: IssueForm)
    requires Save(t, reset, form).outcome == Done
    ensures var s := FirstOpen(t.days).value;
      var u := Save(t, reset, form).after;
      forall k :: k in u.summary && k.0 == s ==> u.summary[k].tvOutQty == IssueSum(u.issues, s, k.1, TvOut, |u.boys|)
  {
    var s := FirstOpen(t.days).value;
    var u := Save(t, reset, form).after;
    if reset {
      forall k | k in u.summary && k.0 == s
        ensures u.summary[k].tvOutQty == IssueSum(u.issues, s, k.1, TvOut, |u.boys|)
      {
        SumOfZeros(|u.boys|, b => if (s, b, k.1) in u.issues then Qty(u.issues[(s, b, k.1)], TvOut) else 0);
      }
    }
  }

  /** `after` differs from `before` at most in the TV-out column. */
  ghost predicate TvOnly(before: map<DayType, SummaryRow>, after: map<DayType, SummaryRow>)
  {
    && after.Keys == before.Keys
    && (forall k :: k in before ==> after[k].(tvOutQty := before[k].tvOutQty) == before[k])
  }

  lemma TvRollupOnlyTv(summary: map<DayType, SummaryRow>, issues: map<DayBoyType, Issue>, s: DayId, nBoys: nat)
    ensures TvOnly(summary, TvRollup(summary, issues, s, nBoys))
  {
  }

  lemma TvZeroedOnlyTv(summary: map<DayType, SummaryRow>, s: DayId)
    ensures TvOnly(summary, TvZeroed(summary, s))
  {
  }

  /** A save or reset changes only the issues and the TV-out column of the
      summary rows, so it keeps the rows' sales counters and with them the lock. */
  lemma SaveTouchesOnlyIssues(t: Tables, reset: bool, form: IssueForm)
    ensures Save(t, reset, form).after.(issues := t.issues, summary := t.summary) == t
    ensures TvOnly(t.summary, Save(t, reset, form).after.summary)
  {
    var u := Save(t, reset, form).after;
    match FirstOpen(t.days)
    case None =>
    case Some(s) =>
      if IssuesLocked(t, s) || (!reset && UnknownPair(t, DataMap(form))) {
        assert u == t;
      } else if reset {
        assert u.summary == TvZeroed(t.summary, s);
        TvZeroedOnlyTv(t.summary, s);
      } else {
        assert u.summary == TvRollup(t.summary, u.issues, s, |t.boys|);
        TvRollupOnlyTv(t.summary, u.issues, s, |t.boys|);
      }
  }

  ghost predicate IssueKeysInRange(issues: map<DayBoyType, Issue>, nDays: nat, nBoys: nat, nTypes: nat)
  {
    forall k :: k in issues ==> k.0 < nDays && k.1 < nBoys && k.2 < nTypes
  }

  lemma StoredIssuesInRange(issues: map<DayBoyType, Issue>, s: DayId, data: map<Pair, Issue>, nDays: nat, nBoys: nat, nTypes: nat)
    requires IssueKeysInRange(issues, nDays, nBoys, nTypes) && s < nDays
    requires forall p :: p in data && Positive(data[p]) ==> p.0 < nBoys && p.1 < nTypes
    ensures IssueKeysInRange(StoredIssues(issues, s, data, data.Keys), nDays, nBoys, nTypes)
  {
  }

  /** Replacing the issues and the summary keeps the tables valid when the
      new issue keys are in range and the summary keys are the old ones. */
  lemma ValidWithIssues(t: Tables, issues: map<DayBoyType, Issue>, summary: map<DayType, SummaryRow>)
    requires Valid(t) && summary.Keys == t.summary.Keys
    requires IssueKeysInRange(issues, |t.days|, |t.boys|, |t.types|)
    ensures Valid(t.(issues := issues, summary := summary))
  {
  }

  /** Saves and resets keep every foreign key in range: the check on
      positive pairs is what keeps unknown boys and types out. */
  lemma SavePreservesValid(t: Tables, reset: bool, form: IssueForm)
    requires Valid(t)
    ensures Valid(Save(t, reset, form).after)
  {
    var u := Save(t, reset, form).after;
    SaveTouchesOnlyIssues(t, reset, form);
    assert u == t.(issues := u.issues, summary := u.summary);
    assert IssueKeysInRange(t.issues, |t.days|, |t.boys|, |t.types|);
    match FirstOpen(t.days)
    case None =>
    case Some(s) =>
      if !IssuesLocked(t, s) && !reset {
        var data := DataMap(form);
        if !UnknownPair(t, data) {
          assert u.issues == StoredIssues(t.issues, s, data, data.Keys);
          StoredIssuesInRange(t.issues, s, data, |t.days|, |t.boys|, |t.types|);
        }
      }
    ValidWithIssues(t, u.issues, u.summary);
  }

  /** A save that stores a positive pair completes the deliveries stage's own test. */
  lemma PositivePairMeetsGate(t: Tables, form: IssueForm, p: Pair)
    requires Save(t, false, form).outcome == Done
    requires p in DataMap(form) && Positive(DataMap(form)[p])
    ensures HasIssues(Save(t, false, form).after, FirstOpen(t.days).value)
  {
    SaveStoresSparsely(t, form);
  }

  /** A reset removes every issue row of the day and nothing else. */
  lemma ResetClearsDay(t: Tables)
    requires Save(t, true, map[]).outcome == Done
    ensures var s := FirstOpen(t.days).value;
      var u := Save(t, true, map[]).after;
      && !HasIssues(u, s)
      && (forall k :: k in t.issues && k.0 != s ==> k in u.issues && u.issues[k] == t.issues[k])
  {
  }
}
