/** app/routes/delivery_boys.py: the create action of the delivery boy
    register, which trims and validates a name and a mobile number and adds
    an active boy unless the name or the number is already registered. */
module DeliveryBoys {
  import opened Common
  import opened Db

  /** The characters `str.strip()` removes, restricted to ASCII: space, tab,
      line feed, vertical tab, form feed, carriage return and the four
      separators 0x1c to 0x1f. */
  predicate IsSpace(c: char)
  {
    c == ' ' || 9 <= c as int <= 13 || 28 <= c as int <= 31
  }

  function TrimLeft(s: string): (r: string)
    ensures |r| <= |s|
  {
    if |s| > 0 && IsSpace(s[0]) then TrimLeft(s[1..]) else s
  }

  function TrimRight(s: string): (r: string)
    ensures |r| <= |s|
  {
    if |s| > 0 && IsSpace(s[|s| - 1]) then TrimRight(s[..|s| - 1]) else s
  }

  /** Trimming the left drops a prefix of whitespace, up to a non-space. */
  lemma {:induction false} TrimLeftDropsSpaces(s: string)
    ensures var r := TrimLeft(s);
      && r == s[|s| - |r|..]
      && (|r| > 0 ==> !IsSpace(r[0]))
      && (forall i :: 0 <= i < |s| - |r| ==> IsSpace(s[i]))
  {
    if |s| > 0 && IsSpace(s[0]) {
      TrimLeftDropsSpaces(s[1..]);
      var r := TrimLeft(s);
      forall i | 1 <= i < |s| - |r|
        ensures IsSpace(s[i])
      {
        assert s[i] == s[1..][i - 1];
      }
    }
  }

  /** Trimming the right drops a suffix of whitespace, back to a non-space. */
  lemma {:induction false} TrimRightDropsSpaces(s: string)
    ensures var r := TrimRight(s);
      && r == s[..|r|]
      && (|r| > 0 ==> !IsSpace(r[|r| - 1]))
      && (forall i :: |r| <= i < |s| ==> IsSpace(s[i]))
  {
    if |s| > 0 && IsSpace(s[|s| - 1]) {
      TrimRightDropsSpaces(s[..|s| - 1]);
      var r := TrimRight(s);
      forall i | |r| <= i < |s| - 1
        ensures IsSpace(s[i])
      {
        assert s[i] == s[..|s| - 1][i];
      }
    }
  }

  /** `str.strip()`: the input without its leading and trailing whitespace. */
  function Strip(s: string): string
  {
    TrimRight(TrimLeft(s))
  }

  /** `str.isdigit()` on ASCII: a non-empty string of the digits 0 to 9. */
  predicate AllDigits(s: string)
  {
    |s| > 0 && forall i :: 0 <= i < |s| ==> '0' <= s[i] <= '9'
  }

  /** A valid mobile number: exactly ten digits. */
  predicate ValidMobile(m: string)
  {
    AllDigits(m) && |m| == 10
  }

  /** `SELECT 1 FROM delivery_boys WHERE name = :n OR mobile = :m`. */
  predicate Registered(boys: seq<DeliveryBoy>, name: string, mobile: string)
  {
    exists i :: 0 <= i < |boys| && (boys[i].name == name || boys[i].mobile == mobile)
  }

  /** The fields of the form; a missing field is sent as the empty string. */
  datatype BoyForm = BoyForm(action: string, name: string, mobile: string)

  /** POST /delivery-boys. Any action other than `create` changes nothing. */
  function CreateBoy(t: Tables, form: BoyForm): Step
  {
    if form.action != "create" then Step(t, Done)
    else
      var name := Strip(form.name);
      var mobile := Strip(form.mobile);
      if name == "" || mobile == "" then Reject(t, Required)
      else if !ValidMobile(mobile) then Reject(t, InvalidMobile)
      else if Registered(t.boys, name, mobile) then Reject(t, AlreadyExists)
      else Step(t.(boys := t.boys + [DeliveryBoy(name, mobile, 1)]), Done)
  }

  method CreateDeliveryBoy(db: Database, form: BoyForm) returns (r: Outcome)
    modifies db
    ensures db.Snapshot() == CreateBoy(old(db.Snapshot()), form).after
    ensures r == CreateBoy(old(db.Snapshot()), form).outcome
  {
    if form.action != "create" {
      return Done;
    }
    var name := Strip(form.name);
    var mobile := Strip(form.mobile);
    if name == "" || mobile == "" {
      return Rejected(Required);
    }
    if !ValidMobile(mobile) {
      return Rejected(InvalidMobile);
    }
    if Registered(db.boys, name, mobile) {
      return Rejected(AlreadyExists);
    }
    db.boys := db.boys + [DeliveryBoy(name, mobile, 1)];
    r := Done;
  }

  // ---------------------------------------------------------------------------
  // Properties

  /** No two delivery boys share a name or a mobile number. */
  predicate UniqueBoys(boys: seq<DeliveryBoy>)
  {
    forall i, j :: 0 <= i < |boys| && 0 <= j < |boys| && i != j ==>
      boys[i].name != boys[j].name && boys[i].mobile != boys[j].mobile
  }

  /** Where the stripped string starts in the input. */
  function StripStart(s: string): nat
  {
    |s| - |TrimLeft(s)|
  }

  /** Stripping removes exactly a run of whitespace at each end: the result
      is the slice of the input between them, with no whitespace at either end. */
  lemma StripTrims(s: string)
    ensures var r := Strip(s);
      var i := StripStart(s);
      && i + |r| <= |s|
      && r == s[i..i + |r|]
      && (forall j :: 0 <= j < i ==> IsSpace(s[j]))
      && (forall j :: i + |r| <= j < |s| ==> IsSpace(s[j]))
      && (|r| > 0 ==> !IsSpace(r[0]) && !IsSpace(r[|r| - 1]))
  {
    var l := TrimLeft(s);
    var r := TrimRight(l);
    var i := |s| - |l|;
    TrimLeftDropsSpaces(s);
    TrimRightDropsSpaces(l);
    assert r == s[i..i + |r|];
    forall j | i + |r| <= j < |s|
      ensures IsSpace(s[j])
    {
      assert s[j] == l[j - i];
    }
    if |r| > 0 {
      assert r[0] == l[0];
    }
  }

  /** Stripping twice is stripping once. */
  lemma StripIdempotent(s: string)
    ensures Strip(Strip(s)) == Strip(s)
  {
    var r := Strip(s);
    StripTrims(s);
    if |r| > 0 {
      assert TrimLeft(r) == r;
      assert TrimRight(r) == r;
    } else {
      assert r == [];
    }
  }

  /** The information separators 0x1c to 0x1f count as whitespace: a name
      made of one is refused as blank, and a mobile number followed by one
      is accepted once stripped. */
  lemma SeparatorsAreStripped(t: Tables)
    ensures CreateBoy(t, BoyForm("create", "\U{1c}", "9876543210")).outcome == Rejected(Required)
    ensures !Registered(t.boys, "Ravi", "9876543210") ==>
      CreateBoy(t, BoyForm("create", "Ravi", "9876543210\U{1f}")).outcome == Done
  {
    assert Strip("\U{1c}") == "";
    assert TrimLeft("9876543210\U{1f}") == "9876543210\U{1f}";
    assert "9876543210\U{1f}"[..10] == "9876543210";
    assert Strip("9876543210\U{1f}") == "9876543210";
  }

  /** A create goes through exactly when both trimmed fields are non-empty,
      the trimmed mobile is ten digits, and neither the name nor the mobile
      is registered; a rejected form, or another action, changes nothing. */
  lemma CreateBoyOutcome(t: Tables, form: BoyForm)
    ensures CreateBoy(t, form).outcome != Done ==> CreateBoy(t, form).after == t
    ensures form.action != "create" ==> CreateBoy(t, form) == Step(t, Done)
    ensures form.action == "create" ==>
      var name := Strip(form.name);
      var mobile := Strip(form.mobile);
      (CreateBoy(t, form).outcome == Done <==>
        && name != ""
        && |mobile| == 10 && (forall i :: 0 <= i < |mobile| ==> '0' <= mobile[i] <= '9')
        && forall i :: 0 <= i < |t.boys| ==> t.boys[i].name != name && t.boys[i].mobile != mobile)
  {
  }

  /** A created boy is active, holds the trimmed fields, and is appended
      after every existing boy; nothing else changes. */
  lemma CreateBoyAppends(t: Tables, form: BoyForm)
    requires form.action == "create" && CreateBoy(t, form).outcome == Done
    ensures var u := CreateBoy(t, form).after;
      && u.boys == t.boys + [DeliveryBoy(Strip(form.name), Strip(form.mobile), 1)]
      && u.(boys := t.boys) == t
      && Strip(u.boys[|t.boys|].name) == u.boys[|t.boys|].name
      && Strip(u.boys[|t.boys|].mobile) == u.boys[|t.boys|].mobile
      && ValidMobile(u.boys[|t.boys|].mobile)
  {
    StripIdempotent(form.name);
    StripIdempotent(form.mobile);
  }

  /** Creating a boy keeps names and mobile numbers unique. */
  lemma CreateBoyKeepsUnique(t: Tables, form: BoyForm)
    requires UniqueBoys(t.boys)
    ensures UniqueBoys(CreateBoy(t, form).after.boys)
  {
  }

  /** Creating a boy keeps the database's foreign keys. */
  lemma CreateBoyPreservesValid(t: Tables, form: BoyForm)
    requires Valid(t)
    ensures Valid(CreateBoy(t, form).after)
  {
  }
}
