/**
  The employee store (`app/employee-service.js`): the module-level `data`
  list and the five operations `getAll`, `get`, `add`, `edit` and `del`.

  Each operation is a pure function from the store before the call to the
  way its promise settles together with the store after the call. What the
  source takes from its surroundings becomes a parameter: the bonus flag
  and the reply of the bonus service for `get`, the validation library for
  `add` and `edit`, and the value `Math.random` produced for `add`.
 */
module EmployeeService {
  import opened JsValues
  import opened EmployeeModel

  /** The `data` variable: `null` (reachable through `setData`) or a list. */
  datatype Store = Absent | Present(records: seq<Employee>)

  /** The reasons a promise of the service is rejected with. `Thrown` is the
      `TypeError` that `data.find` raises inside the promise executor when
      the store is `null`; the promise is rejected with it. */
  datatype Reason =
    | NotFound
    | Invalid
    | Failure
    | BonusError(error: Value)
    | Thrown

  datatype Settled<T> = Resolved(value: T) | Rejected(reason: Reason)

  /** The `'SUCCESS'` string `edit` and `del` resolve with. */
  datatype Ack = Success

  /** How one call settles, and the store it leaves behind. */
  datatype Step<T> = Step(settled: Settled<T>, store: Store)

  /** The single outcome of the `request.post` call to the bonus service.
      `Failed` carries a truthy `error`, the case `if (error)` rejects with;
      a call whose `error` is falsy takes the merge branch and is `Replied`. */
  datatype BonusReply = Replied(body: map<string, Value>) | Failed(error: Value)

  // ---------------------------------------------------------------------
  // Lookup
  // ---------------------------------------------------------------------

  /** `x.employeeNumber === employeeNumber` */
  predicate HasNumber(e: Employee, n: int) {
    e.employeeNumber == Given(IntNum(n))
  }

  /** The position `data.find(x => x.employeeNumber === n)` stops at. */
  function Find(s: seq<Employee>, n: int): (r: Option<nat>)
    ensures r.Some? ==> r.value < |s| && HasNumber(s[r.value], n)
    ensures r.Some? ==> forall j :: 0 <= j < r.value ==> !HasNumber(s[j], n)
    ensures r.None? <==> forall j :: 0 <= j < |s| ==> !HasNumber(s[j], n)
  {
    if |s| == 0 then None
    else if HasNumber(s[0], n) then Some(0)
    else
      match Find(s[1..], n)
      case None => None
      case Some(i) => Some(i + 1)
  }

  /** Two positions that are both the first match are the same position. */
  lemma FirstMatchUnique(s: seq<Employee>, n: int, i: nat)
    requires i < |s| && HasNumber(s[i], n)
    requires forall j :: 0 <= j < i ==> !HasNumber(s[j], n)
    ensures Find(s, n) == Some(i)
  {
  }

  // ---------------------------------------------------------------------
  // Bonus enrichment
  // ---------------------------------------------------------------------

  /** `Object.assign(target, employee)`: every key of the record is copied
      onto the target, overriding what the target held there. */
  function Assign(target: map<string, Value>, e: Employee): (r: map<string, Field>)
    ensures r.Keys == target.Keys + SchemaKeys
    ensures forall k :: k in SchemaKeys ==> r[k] == ToObject(e)[k]
    ensures forall k :: k in target && k !in SchemaKeys ==> r[k] == Given(target[k])
  {
    (map k | k in target :: Given(target[k])) + ToObject(e)
  }

  /** The object `get` resolves with once the record is found. */
  function Enrich(e: Employee, bonusEnabled: bool, reply: BonusReply): (r: Settled<map<string, Field>>)
    ensures r.Resolved? ==> SchemaKeys <= r.value.Keys
    ensures !bonusEnabled ==> r.Resolved? && "bonus" in r.value && r.value["bonus"] == Given(Num(0.0))
    ensures !bonusEnabled ==> r.Resolved? && r.value.Keys == SchemaKeys + {"bonus"}
    ensures bonusEnabled && reply.Failed? ==> r == Rejected(BonusError(reply.error))
    ensures bonusEnabled && reply.Replied? ==>
              r.Resolved? && r.value.Keys == reply.body.Keys + SchemaKeys
    ensures bonusEnabled && reply.Replied? ==>
              forall k :: k in reply.body && k !in SchemaKeys ==> r.value[k] == Given(reply.body[k])
    ensures r.Resolved? ==> forall k :: k in SchemaKeys ==> r.value[k] == ToObject(e)[k]
  {
    if !bonusEnabled then
      Resolved(Assign(map["bonus" := Num(0.0)], e))
    else
      match reply
      case Failed(error) => Rejected(BonusError(error))
      case Replied(body) => Resolved(Assign(body, e))
  }

  // ---------------------------------------------------------------------
  // The five operations
  // ---------------------------------------------------------------------

  /** `getAll`: the list itself, or `NOT_FOUND` when there is no list. An
      empty list is still a list. */
  function GetAll(store: Store): (r: Step<seq<Employee>>)
    ensures r.store == store
    ensures r.settled == Rejected(NotFound) <==> store.Absent?
    ensures r.settled.Resolved? ==> store == Present(r.settled.value)
    ensures store.Present? ==> r.settled == Resolved(store.records)
  {
    match store
    case Absent => Step(Rejected(NotFound), store)
    case Present(records) => Step(Resolved(records), store)
  }

  /** `get`: the first record with the number, enriched with a bonus. The
      enrichment writes into a fresh object or into the reply body, never
      into the stored record, so the store is left as it was. */
  function Get(store: Store, n: int, bonusEnabled: bool, reply: BonusReply)
    : (r: Step<map<string, Field>>)
    ensures r.store == store
    ensures r.settled == Rejected(Thrown) <==> store.Absent?
    ensures r.settled == Rejected(NotFound) <==>
              store.Present? && forall j :: 0 <= j < |store.records| ==> !HasNumber(store.records[j], n)
    ensures r.settled.Resolved? <==>
              store.Present? && Find(store.records, n).Some? && (!bonusEnabled || reply.Replied?)
    ensures r.settled.Resolved? ==>
              store.Present? && Find(store.records, n).Some? &&
              SchemaKeys <= r.settled.value.Keys &&
              var found := store.records[Find(store.records, n).value];
              forall k :: k in SchemaKeys ==> r.settled.value[k] == ToObject(found)[k]
    ensures r.settled.Resolved? && !bonusEnabled ==>
              "bonus" in r.settled.value && r.settled.value["bonus"] == Given(Num(0.0)) &&
              r.settled.value.Keys == SchemaKeys + {"bonus"}
    ensures r.settled.Resolved? && bonusEnabled ==>
              reply.Replied? &&
              r.settled.value.Keys == reply.body.Keys + SchemaKeys &&
              forall k :: k in reply.body && k !in SchemaKeys ==>
                r.settled.value[k] == Given(reply.body[k])
    ensures store.Present? && Find(store.records, n).Some? && bonusEnabled && reply.Failed? ==>
              r.settled == Rejected(BonusError(reply.error))
  {
    match store
    case Absent => Step(Rejected(Thrown), store)
    case Present(records) =>
      match Find(records, n)
      case None => Step(Rejected(NotFound), store)
      case Some(i) => Step(Enrich(records[i], bonusEnabled, reply), store)
  }

  /** `add`: validate, then require a list, then append the record under the
      freshly drawn number. `Math.floor(Math.random() * 90000000) + 10000000`
      is an 8-digit integer; the draw happens before the store is checked
      but is only used on success. */
  function Add(store: Store, lib: Library, data: Option<Value>, drawn: int): (r: Step<Employee>)
    requires 10000000 <= drawn <= 99999999
    ensures r.settled == Rejected(Invalid) <==> !Valid(lib, Sanitize(data))
    ensures r.settled == Rejected(Failure) <==> Valid(lib, Sanitize(data)) && store.Absent?
    ensures r.settled.Resolved? <==> Valid(lib, Sanitize(data)) && store.Present?
    ensures r.settled.Rejected? ==> r.store == store
    ensures r.settled.Resolved? ==>
              && store.Present?
              && r.store == Present(store.records + [r.settled.value])
              && r.settled.value.employeeNumber == Given(IntNum(drawn))
              && Valid(lib, r.settled.value)
              && forall k :: k in SchemaKeys && k != "employeeNumber" ==>
                   ToObject(r.settled.value)[k] == ToObject(Sanitize(data))[k]
  {
    var e := Sanitize(data);
    if !Valid(lib, e) then Step(Rejected(Invalid), store)
    else
      match store
      case Absent => Step(Rejected(Failure), store)
      case Present(records) =>
        WithNumberValid(lib, e, drawn);
        var added := WithNumber(e, drawn);
        Step(Resolved(added), Present(records + [added]))
  }

  /** `edit`: validate first, then look the number up, then overwrite the
      first match with the sanitized payload, keeping the number. */
  function Edit(store: Store, lib: Library, n: int, data: Option<Value>): (r: Step<Ack>)
    ensures r.settled == Rejected(Invalid) <==> !Valid(lib, Sanitize(data))
    ensures r.settled == Rejected(Thrown) <==> Valid(lib, Sanitize(data)) && store.Absent?
    ensures r.settled == Rejected(NotFound) <==>
              Valid(lib, Sanitize(data)) && store.Present? &&
              forall j :: 0 <= j < |store.records| ==> !HasNumber(store.records[j], n)
    ensures r.settled.Resolved? <==>
              Valid(lib, Sanitize(data)) && store.Present? && Find(store.records, n).Some?
    ensures r.settled.Rejected? ==> r.store == store
    ensures r.settled.Resolved? ==>
              && store.Present? && r.store.Present?
              && Find(store.records, n).Some?
              && var i := Find(store.records, n).value;
                 r.store.records == store.records[i := WithNumber(Sanitize(data), n)]
  {
    var e := Sanitize(data);
    if !Valid(lib, e) then Step(Rejected(Invalid), store)
    else
      match store
      case Absent => Step(Rejected(Thrown), store)
      case Present(records) =>
        match Find(records, n)
        case None => Step(Rejected(NotFound), store)
        case Some(i) => Step(Resolved(Success), Present(records[i := WithNumber(e, n)]))
  }

  /** `del`: remove the first record with the number; `data.indexOf` finds
      the very object `data.find` returned. */
  function Del(store: Store, n: int): (r: Step<Ack>)
    ensures r.settled == Rejected(Thrown) <==> store.Absent?
    ensures r.settled == Rejected(NotFound) <==>
              store.Present? && forall j :: 0 <= j < |store.records| ==> !HasNumber(store.records[j], n)
    ensures r.settled.Resolved? <==> store.Present? && Find(store.records, n).Some?
    ensures r.settled.Rejected? ==> r.store == store
    ensures r.settled.Resolved? ==>
              && store.Present? && r.store.Present?
              && |r.store.records| == |store.records| - 1
              && Find(store.records, n).Some?
              && var i := Find(store.records, n).value;
                 && (forall j :: 0 <= j < i ==> r.store.records[j] == store.records[j])
                 && (forall j :: i <= j < |r.store.records| ==> r.store.records[j] == store.records[j + 1])
  {
    match store
    case Absent => Step(Rejected(Thrown), store)
    case Present(records) =>
      match Find(records, n)
      case None => Step(Rejected(NotFound), store)
      case Some(i) => Step(Resolved(Success), Present(records[..i] + records[i + 1..]))
  }

  /** The second record the service starts with. */
  function HannahPrior(): (m: map<string, Value>)
    ensures m.Keys == SchemaKeys
  {
    map[
      "employeeNumber" := IntNum(11457844),
      "firstname" := Str("Hannah"),
      "lastname" := Str("Prior"),
      "grade" := Str("AB7"),
      "birthDate" := Str("1976-11-10"),
      "joinDate" := Str("2004-07-01"),
      "salary" := Num(45000.0),
      "email" := Str("hannah@gmail.com")]
  }

  /** The two records the service starts with. */
  function InitialStore(): (s: Store)
    ensures s.Present? && |s.records| == 2
    ensures HasNumber(s.records[0], 19657899) && HasNumber(s.records[1], 11457844)
  {
    Present([Sanitize(Some(Obj(JohnSmith(19657899)))), Sanitize(Some(Obj(HannahPrior())))])
  }
}
