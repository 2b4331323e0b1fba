/** Small shared vocabulary: optional values (SQL NULL, blank form fields),
    outcomes of a POST action, and finite sums over an id range. */
module Common {

  /** A value that may be absent: a NULL column, or a form field sent blank. */
  datatype Option<T> = None | Some(value: T)

  /** `COALESCE(x, 0)` in SQL and `value or 0` in Python. */
  function Or0(v: Option<int>): int
  {
    match v
    case Some(x) => x
    case None => 0
  }

  /** A numeric form field that is read with a default of 0 when the key is missing
      and with `value or 0` when it is present. */
  function FieldOr0<K>(form: map<K, Option<int>>, k: K): int
  {
    if k in form then Or0(form[k]) else 0
  }

  /** Why a POST action changed nothing. Each one leaves every table as it was:
      either the route returns early, or it raises before `commit()` and the
      transaction is discarded. */
  datatype Error =
    | NoOpenDay          // no stock day with status OPEN
    | NoClosedDay        // the route dereferences the previous CLOSED day and there is none
    | Locked             // the stage is locked (finalized, one-shot already taken)
    | AlreadyFinalized   // a one-shot finalize was already done
    | StepIncomplete     // the predecessor stage is not complete
    | DuplicateDate      // a stock day already exists for that date
    | DuplicateKey       // a plain INSERT hits an existing primary key
    | UnknownReference   // an INSERT names a delivery boy or cylinder type that does not exist
    | InvalidInput       // a present-but-blank field is parsed with int()/float()
    | InvalidSaleType    // an office sale type other than REFILL, NC or DBC
    | Required           // a required text field is empty after trimming
    | InvalidMobile      // a mobile number that is not exactly ten digits
    | AlreadyExists      // a delivery boy with that name or mobile exists

  datatype Outcome = Done | Rejected(error: Error)

  /** Sum of f(0) + ... + f(n - 1). */
  function Sum(n: nat, f: nat -> int): int
    decreases n
  {
    if n == 0 then 0 else Sum(n - 1, f) + f(n - 1)
  }

  lemma {:induction false} SumOfZeros(n: nat, f: nat -> int)
    requires forall i :: 0 <= i < n ==> f(i) == 0
    ensures Sum(n, f) == 0
  {
    if n > 0 {
      SumOfZeros(n - 1, f);
    }
  }

  lemma {:induction false} SumPointwise(n: nat, f: nat -> int, g: nat -> int)
    requires forall i :: 0 <= i < n ==> f(i) == g(i)
    ensures Sum(n, f) == Sum(n, g)
  {
    if n > 0 {
      SumPointwise(n - 1, f, g);
    }
  }

  lemma {:induction false} SumNonNegative(n: nat, f: nat -> int)
    requires forall i :: 0 <= i < n ==> f(i) >= 0
    ensures Sum(n, f) >= 0
  {
    if n > 0 {
      SumNonNegative(n - 1, f);
    }
  }

  /** A positive sum has a positive term. */
  lemma {:induction false} SumPositiveTerm(n: nat, f: nat -> int)
    requires Sum(n, f) > 0
    ensures exists i :: 0 <= i < n && f(i) > 0
  {
    if n > 0 {
      if f(n - 1) <= 0 {
        SumPositiveTerm(n - 1, f);
      }
    }
  }

  /** A sum of non-negative terms is positive when one term is. */
  lemma {:induction false} SumHasPositiveTerm(n: nat, f: nat -> int, j: nat)
    requires forall i :: 0 <= i < n ==> f(i) >= 0
    requires j < n && f(j) > 0
    ensures Sum(n, f) > 0
  {
    SumNonNegative(n - 1, f);
    if j < n - 1 {
      SumHasPositiveTerm(n - 1, f, j);
    }
  }

  /** A sum whose only non-zero term is `d`, at `j`, is `d` when `j` is in range. */
  lemma {:induction false} SumSingle(n: nat, f: nat -> int, j: nat, d: int)
    requires forall i :: 0 <= i < n ==> f(i) == (if i == j then d else 0)
    ensures Sum(n, f) == (if j < n then d else 0)
  {
    if n > 0 {
      SumSingle(n - 1, f, j, d);
    }
  }

  lemma {:induction false} SumAdditive(n: nat, f: nat -> int, g: nat -> int, h: nat -> int)
    requires forall i :: 0 <= i < n ==> f(i) == g(i) + h(i)
    ensures Sum(n, f) == Sum(n, g) + Sum(n, h)
  {
    if n > 0 {
      SumAdditive(n - 1, f, g, h);
    }
  }
}
