/**
  Properties that relate several calls of the employee store: the
  invariants every operation keeps, the round trips between `add`, `get`
  and `del`, and the idempotence of `edit`.
 */
module ServiceProperties {
  import opened JsValues
  import opened EmployeeModel
  import opened EmployeeService

  // ---------------------------------------------------------------------
  // Invariant: only valid records are stored
  // ---------------------------------------------------------------------

  predicate AllValid(lib: Library, store: Store) {
    store.Present? ==> forall j :: 0 <= j < |store.records| ==> Valid(lib, store.records[j])
  }

  /** `add`, `edit` and `del` never put an invalid record into a store that
      held only valid ones; `getAll` and `get` do not change the store. */
  lemma OperationsKeepStoreValid(lib: Library, store: Store, n: int, data: Option<Value>,
                                 drawn: int, bonusEnabled: bool, reply: BonusReply)
    requires 10000000 <= drawn <= 99999999
    requires AllValid(lib, store)
    ensures AllValid(lib, Add(store, lib, data, drawn).store)
    ensures AllValid(lib, Edit(store, lib, n, data).store)
    ensures AllValid(lib, Del(store, n).store)
    ensures AllValid(lib, Get(store, n, bonusEnabled, reply).store)
    ensures AllValid(lib, GetAll(store).store)
  {
    var e := Edit(store, lib, n, data);
    if e.settled.Resolved? {
      WithNumberValid(lib, Sanitize(data), n);
    }
  }

  lemma HannahPriorValid(lib: Library)
    requires lib.isEmail("hannah@gmail.com")
    requires lib.isDate(Str("1976-11-10")) && lib.isDate(Str("2004-07-01"))
    ensures Valid(lib, Sanitize(Some(Obj(HannahPrior()))))
  {
  }

  /** The two records the service starts with are valid, given that the
      library accepts their emails and dates. */
  lemma InitialStoreValid(lib: Library)
    requires lib.isEmail("john.smith@gmail.com") && lib.isEmail("hannah@gmail.com")
    requires lib.isDate(Str("1980-01-23")) && lib.isDate(Str("2015-05-12"))
    requires lib.isDate(Str("1976-11-10")) && lib.isDate(Str("2004-07-01"))
    ensures AllValid(lib, InitialStore())
  {
    SampleValid(lib, 19657899);
    HannahPriorValid(lib);
  }

  // ---------------------------------------------------------------------
  // Invariant: employee numbers are distinct (kept only by a fresh draw)
  // ---------------------------------------------------------------------

  predicate DistinctNumbers(s: seq<Employee>) {
    forall i, j :: 0 <= i < j < |s| ==> s[i].employeeNumber != s[j].employeeNumber
  }

  predicate Fresh(s: seq<Employee>, n: int) {
    forall j :: 0 <= j < |s| ==> !HasNumber(s[j], n)
  }

  /** `edit` keeps employee numbers distinct: it overwrites the first match
      under the number that match already held. */
  lemma EditKeepsNumbersDistinct(lib: Library, store: Store, n: int, data: Option<Value>)
    requires store.Present? && DistinctNumbers(store.records)
    ensures Edit(store, lib, n, data).store.Present?
    ensures DistinctNumbers(Edit(store, lib, n, data).store.records)
  {
  }

  /** `del` keeps employee numbers distinct: it only removes a record. */
  lemma DelKeepsNumbersDistinct(store: Store, n: int)
    requires store.Present? && DistinctNumbers(store.records)
    ensures Del(store, n).store.Present?
    ensures DistinctNumbers(Del(store, n).store.records)
  {
  }

  /** A successful `add` keeps employee numbers distinct exactly when the
      drawn number is not already taken. Nothing in `add` checks that. */
  lemma AddKeepsNumbersDistinctIffFresh(lib: Library, store: Store, data: Option<Value>, drawn: int)
    requires 10000000 <= drawn <= 99999999
    requires store.Present? && DistinctNumbers(store.records)
    ensures Fresh(store.records, drawn) ==> Add(store, lib, data, drawn).store.Present?
    ensures Fresh(store.records, drawn) ==> DistinctNumbers(Add(store, lib, data, drawn).store.records)
    ensures Add(store, lib, data, drawn).settled.Resolved? && !Fresh(store.records, drawn) ==>
              !DistinctNumbers(Add(store, lib, data, drawn).store.records)
  {
    var a := Add(store, lib, data, drawn);
    if a.settled.Resolved? && !Fresh(store.records, drawn) {
      var i := Find(store.records, drawn).value;
      var s' := a.store.records;
      assert s'[i] == store.records[i] && s'[|store.records|] == a.settled.value;
    }
  }

  // ---------------------------------------------------------------------
  // edit
  // ---------------------------------------------------------------------

  /** Repeating an edit changes nothing: it settles the same way and leaves
      the same store. */
  lemma EditIdempotent(store: Store, lib: Library, n: int, data: Option<Value>)
    ensures Edit(Edit(store, lib, n, data).store, lib, n, data) == Edit(store, lib, n, data)
  {
    var first := Edit(store, lib, n, data);
    if first.settled.Resolved? {
      FirstMatchUnique(first.store.records, n, Find(store.records, n).value);
    }
  }

  /** After a successful edit, `get` of the edited number sees the sanitized
      payload under that number: with the bonus off it adds `bonus = 0`,
      with it on a reply resolves and a failed call rejects as always. */
  lemma EditThenGet(store: Store, lib: Library, n: int, data: Option<Value>,
                    bonusEnabled: bool, reply: BonusReply)
    requires Edit(store, lib, n, data).settled.Resolved?
    ensures !bonusEnabled || reply.Replied? ==>
              var g := Get(Edit(store, lib, n, data).store, n, bonusEnabled, reply);
              && g.settled.Resolved?
              && forall k :: k in SchemaKeys ==>
                   g.settled.value[k] == ToObject(WithNumber(Sanitize(data), n))[k]
    ensures !bonusEnabled ==>
              Get(Edit(store, lib, n, data).store, n, bonusEnabled, reply).settled.value["bonus"]
                == Given(Num(0.0))
    ensures bonusEnabled && reply.Failed? ==>
              Get(Edit(store, lib, n, data).store, n, bonusEnabled, reply).settled
                == Rejected(BonusError(reply.error))
  {
    var i := Find(store.records, n).value;
    FirstMatchUnique(Edit(store, lib, n, data).store.records, n, i);
  }

  // ---------------------------------------------------------------------
  // add, get and del
  // ---------------------------------------------------------------------

  /** Under a fresh number, `get` finds the record `add` appended. */
  lemma AddThenGet(store: Store, lib: Library, data: Option<Value>, drawn: int,
                   bonusEnabled: bool, reply: BonusReply)
    requires 10000000 <= drawn <= 99999999
    requires Add(store, lib, data, drawn).settled.Resolved?
    requires Fresh(store.records, drawn)
    requires !bonusEnabled || reply.Replied?
    ensures var a := Add(store, lib, data, drawn);
            var g := Get(a.store, drawn, bonusEnabled, reply);
            && g.store == a.store
            && g.settled.Resolved?
            && forall k :: k in SchemaKeys ==> g.settled.value[k] == ToObject(a.settled.value)[k]
  {
    var a := Add(store, lib, data, drawn);
    FirstMatchUnique(a.store.records, drawn, |store.records|);
  }

  /** Deleting the fresh number `add` drew restores the store exactly. */
  lemma AddThenDel(store: Store, lib: Library, data: Option<Value>, drawn: int)
    requires 10000000 <= drawn <= 99999999
    requires Add(store, lib, data, drawn).settled.Resolved?
    requires Fresh(store.records, drawn)
    ensures Del(Add(store, lib, data, drawn).store, drawn) == Step(Resolved(Success), store)
  {
    var a := Add(store, lib, data, drawn);
    FirstMatchUnique(a.store.records, drawn, |store.records|);
    assert a.store.records[..|store.records|] == store.records;
  }

  /** A drawn number that collides with a stored one is appended anyway, and
      the new record is then unreachable by number: `get` and `del` find the
      older record first. */
  lemma AddCollisionShadowed(store: Store, lib: Library, data: Option<Value>, drawn: int)
    requires 10000000 <= drawn <= 99999999
    requires Add(store, lib, data, drawn).settled.Resolved?
    requires !Fresh(store.records, drawn)
    ensures var s' := Add(store, lib, data, drawn).store.records;
            Find(s', drawn).Some? && Find(s', drawn).value < |store.records|
            && Find(s', drawn) == Find(store.records, drawn)
  {
    var s' := Add(store, lib, data, drawn).store.records;
    var i := Find(store.records, drawn).value;
    FirstMatchUnique(s', drawn, i);
  }

  /** The number of records holding employee number `n`. */
  function Count(s: seq<Employee>, n: int): nat {
    if |s| == 0 then 0
    else (if HasNumber(s[0], n) then 1 else 0) + Count(s[1..], n)
  }

  lemma {:induction false} CountConcat(a: seq<Employee>, b: seq<Employee>, n: int)
    ensures Count(a + b, n) == Count(a, n) + Count(b, n)
  {
    if |a| == 0 {
      assert a + b == b;
    } else {
      assert (a + b)[1..] == a[1..] + b;
      CountConcat(a[1..], b, n);
    }
  }

  /** A successful `del` removes exactly one record with the number, the
      first, and nothing else. */
  lemma DelRemovesOneMatch(store: Store, n: int)
    requires Del(store, n).settled.Resolved?
    ensures var s := store.records;
            var s' := Del(store, n).store.records;
            var i := Find(s, n).value;
            && Count(s', n) == Count(s, n) - 1
            && multiset(s') + multiset{s[i]} == multiset(s)
  {
    var s := store.records;
    var i := Find(s, n).value;
    var s' := Del(store, n).store.records;
    assert s' == s[..i] + s[i + 1..];
    assert s == s[..i] + [s[i]] + s[i + 1..];
    CountConcat(s[..i] + [s[i]], s[i + 1..], n);
    CountConcat(s[..i], [s[i]], n);
    CountConcat(s[..i], s[i + 1..], n);
    assert Count([s[i]], n) == 1 by {
      assert [s[i]][1..] == [];
    }
  }

  /** With distinct numbers, a successful `del` leaves no record holding the
      number, so a later `get` of it rejects with `NOT_FOUND`. */
  lemma DelThenGet(store: Store, n: int, bonusEnabled: bool, reply: BonusReply)
    requires store.Present? && DistinctNumbers(store.records)
    requires Del(store, n).settled.Resolved?
    ensures Get(Del(store, n).store, n, bonusEnabled, reply).settled == Rejected(NotFound)
  {
    var s := store.records;
    var i := Find(s, n).value;
    var s' := Del(store, n).store.records;
    forall j | 0 <= j < |s'|
      ensures !HasNumber(s'[j], n)
    {
      if j < i {
        assert s'[j] == s[j];
      } else {
        assert s'[j] == s[j + 1] && s[j + 1].employeeNumber != s[i].employeeNumber;
      }
    }
  }

  // ---------------------------------------------------------------------
  // A payload without employeeNumber or email
  // ---------------------------------------------------------------------

  /** A payload that leaves out `employeeNumber` and `email` is refused by
      `add` with `INVALID`: `_.defaults` fills both with schema objects. */
  lemma AddWithoutNumberOrEmailIsInvalid(store: Store, lib: Library, drawn: int)
    requires 10000000 <= drawn <= 99999999
    ensures var payload := map[
              "firstname" := Str("John"),
              "lastname" := Str("Smith"),
              "grade" := Str("AB1"),
              "birthDate" := Str("1980-01-23"),
              "joinDate" := Str("2015-05-12"),
              "salary" := Num(25000.0)];
            Add(store, lib, Some(Obj(payload)), drawn) == Step(Rejected(Invalid), store)
  {
    var payload := map[
      "firstname" := Str("John"),
      "lastname" := Str("Smith"),
      "grade" := Str("AB1"),
      "birthDate" := Str("1980-01-23"),
      "joinDate" := Str("2015-05-12"),
      "salary" := Num(25000.0)];
    MissingKeyInvalid(lib, payload, "email");
  }
}
