/**
  The employee record (`app/employee-model.js`): the fixed schema of eight
  keys, `Employee.sanitize`, which projects any input onto those keys, and
  `Employee.prototype.valid`, which applies the joi rules of the schema.

  The constructor `new Employee(data)` copies the sanitized object onto a
  fresh instance, so a constructed record is exactly `Sanitize(data)`.
 */
module EmployeeModel {
  import opened JsValues

  /** A sanitized record: one field per schema key, nothing else. */
  datatype Employee = Employee(
    employeeNumber: Field,
    firstname: Field,
    lastname: Field,
    grade: Field,
    birthDate: Field,
    joinDate: Field,
    salary: Field,
    email: Field)

  const SchemaKeys: set<string> :=
    {"employeeNumber", "firstname", "lastname", "grade",
     "birthDate", "joinDate", "salary", "email"}

  /** The record seen as a JavaScript object: key to field. */
  function ToObject(e: Employee): map<string, Field> {
    map[
      "employeeNumber" := e.employeeNumber,
      "firstname" := e.firstname,
      "lastname" := e.lastname,
      "grade" := e.grade,
      "birthDate" := e.birthDate,
      "joinDate" := e.joinDate,
      "salary" := e.salary,
      "email" := e.email]
  }

  // ---------------------------------------------------------------------
  // Sanitize
  // ---------------------------------------------------------------------

  /** The own keys `_.defaults` and `_.pick` can see on the input. A falsy
      input (`null`, `undefined`, `false`, `0`, `''`) is replaced by `{}`;
      a truthy primitive or an array is boxed and has no schema key either. */
  function OwnFields(data: Option<Value>): map<string, Value> {
    match data
    case Some(Obj(m)) => m
    case _ => map[]
  }

  /** `_.defaults` keeps a defined value and fills a missing key with the
      schema's joi object; `_.pick` then copies the key. */
  function Pick(m: map<string, Value>, k: string): Field {
    if k in m then Given(m[k]) else Placeholder
  }

  function Sanitize(data: Option<Value>): (r: Employee)
    ensures ToObject(r).Keys == SchemaKeys
    ensures forall k :: k in SchemaKeys && k in OwnFields(data) ==>
              ToObject(r)[k] == Given(OwnFields(data)[k])
    ensures forall k :: k in SchemaKeys && k !in OwnFields(data) ==>
              ToObject(r)[k] == Placeholder
  {
    var m := OwnFields(data);
    Employee(
      Pick(m, "employeeNumber"), Pick(m, "firstname"), Pick(m, "lastname"),
      Pick(m, "grade"), Pick(m, "birthDate"), Pick(m, "joinDate"),
      Pick(m, "salary"), Pick(m, "email"))
  }

  /** A record none of whose fields is the placeholder. */
  predicate Complete(e: Employee) {
    forall k :: k in ToObject(e) ==> ToObject(e)[k].Given?
  }

  /** A complete record written back as a plain object with exactly the
      schema keys. */
  function Raw(e: Employee): (m: map<string, Value>)
    requires Complete(e)
    ensures m.Keys == SchemaKeys
    ensures forall k :: k in m ==> ToObject(e)[k] == Given(m[k])
  {
    map k | k in ToObject(e) :: ToObject(e)[k].v
  }

  // ---------------------------------------------------------------------
  // Validation
  // ---------------------------------------------------------------------

  /** joi's email grammar and its date parsing belong to the library and are
      taken as parameters: `isEmail` says whether `joi.string().email()`
      accepts a string, `isDate` whether `joi.date()` accepts a value. */
  datatype Library = Library(isEmail: string -> bool, isDate: Value -> bool)

  /** One character of joi's `alphanum()` class, also the class of the
      grade pattern `[a-zA-Z0-9]`. */
  predicate IsAlphaNumChar(c: char) {
    ('a' <= c <= 'z') || ('A' <= c <= 'Z') || ('0' <= c <= '9')
  }

  predicate IsAlphaNum(s: string) {
    forall i :: 0 <= i < |s| ==> IsAlphaNumChar(s[i])
  }

  /** `joi.number().integer()` */
  predicate IntegerRule(f: Field) {
    f.Given? && f.v.Num? && IsInteger(f.v.x)
  }

  /** `joi.string().alphanum().min(3).max(30)` */
  predicate NameRule(f: Field) {
    f.Given? && f.v.Str? && IsAlphaNum(f.v.s) && 3 <= |f.v.s| <= 30
  }

  /** `joi.string().regex(/^[a-zA-Z0-9]{3}$/)` */
  predicate GradeRule(f: Field) {
    f.Given? && f.v.Str? && |f.v.s| == 3 && IsAlphaNum(f.v.s)
  }

  /** `joi.date().raw()`; joi refuses `null` before any type rule runs. */
  predicate DateRule(lib: Library, f: Field) {
    f.Given? && !f.v.Null? && lib.isDate(f.v)
  }

  /** `joi.number()` */
  predicate NumberRule(f: Field) {
    f.Given? && f.v.Num?
  }

  /** `joi.string().email()` */
  predicate EmailRule(lib: Library, f: Field) {
    f.Given? && f.v.Str? && lib.isEmail(f.v.s)
  }

  /** `valid()`: joi reports no error for the record against the schema.
      `employeeNumber` and `email` carry no `.required()`, but a sanitized
      record always holds them, so they are checked like the others. */
  predicate Valid(lib: Library, e: Employee) {
    && IntegerRule(e.employeeNumber)
    && NameRule(e.firstname)
    && NameRule(e.lastname)
    && GradeRule(e.grade)
    && DateRule(lib, e.birthDate)
    && DateRule(lib, e.joinDate)
    && NumberRule(e.salary)
    && EmailRule(lib, e.email)
  }

  /** The record with its employee number replaced, as `add` and `edit` do. */
  function WithNumber(e: Employee, n: int): (r: Employee)
    ensures ToObject(r)["employeeNumber"] == Given(IntNum(n))
    ensures forall k :: k in SchemaKeys && k != "employeeNumber" ==>
              ToObject(r)[k] == ToObject(e)[k]
  {
    e.(employeeNumber := Given(IntNum(n)))
  }

  // ---------------------------------------------------------------------
  // Properties of sanitize and valid
  // ---------------------------------------------------------------------

  /** Sanitize reads the schema keys of its input and nothing else: two
      inputs that agree there give the same record. */
  lemma SanitizeReadsOnlySchemaKeys(m1: map<string, Value>, m2: map<string, Value>)
    requires forall k :: k in SchemaKeys ==> (k in m1 <==> k in m2)
    requires forall k :: k in SchemaKeys && k in m1 ==> m1[k] == m2[k]
    ensures Sanitize(Some(Obj(m1))) == Sanitize(Some(Obj(m2)))
  {
  }

  /** An extra key such as `password` never reaches the record: adding keys
      outside the schema to the input changes nothing. The second clause
      holds of every record, since the record type has only schema keys; it
      restates the repository's own check that `password` is absent. */
  lemma SanitizeDropsExtraKeys(m: map<string, Value>, extra: map<string, Value>)
    requires extra.Keys !! SchemaKeys
    ensures Sanitize(Some(Obj(extra + m))) == Sanitize(Some(Obj(m)))
    ensures "password" !in ToObject(Sanitize(Some(Obj(extra + m))))
  {
    SanitizeReadsOnlySchemaKeys(extra + m, m);
  }

  /** A plain object that already holds exactly the schema keys sanitizes to
      the same record. */
  lemma SanitizeRoundTrip(e: Employee)
    requires Complete(e)
    ensures Sanitize(Some(Obj(Raw(e)))) == e
  {
  }

  /** A placeholder anywhere makes the record invalid. */
  lemma PlaceholderInvalid(lib: Library, e: Employee, k: string)
    requires k in SchemaKeys && ToObject(e)[k] == Placeholder
    ensures !Valid(lib, e)
  {
  }

  /** Any valid record is complete. */
  lemma ValidIsComplete(lib: Library, e: Employee)
    requires Valid(lib, e)
    ensures Complete(e)
  {
  }

  /** A missing (or `undefined`) schema key, including the optional-looking
      `employeeNumber` and `email`, makes the constructed record invalid. */
  lemma MissingKeyInvalid(lib: Library, m: map<string, Value>, k: string)
    requires k in SchemaKeys && k !in m
    ensures !Valid(lib, Sanitize(Some(Obj(m))))
  {
    PlaceholderInvalid(lib, Sanitize(Some(Obj(m))), k);
  }

  /** `null` or `undefined` as the whole input, or any non-object, yields a
      record of placeholders only, which is invalid. */
  lemma NonObjectInputInvalid(lib: Library, data: Option<Value>)
    requires !(data.Some? && data.value.Obj?)
    ensures forall k :: k in SchemaKeys ==> ToObject(Sanitize(data))[k] == Placeholder
    ensures !Valid(lib, Sanitize(data))
  {
    PlaceholderInvalid(lib, Sanitize(data), "firstname");
  }

  /** A schema key explicitly set to `null` is kept by `_.defaults` and then
      refused by joi. */
  lemma NullFieldInvalid(lib: Library, m: map<string, Value>, k: string)
    requires k in SchemaKeys && k in m && m[k] == Null
    ensures !Valid(lib, Sanitize(Some(Obj(m))))
  {
  }

  /** Valid names are alphanumeric strings of 3 to 30 characters. */
  lemma ValidNames(lib: Library, e: Employee)
    requires Valid(lib, e)
    ensures e.firstname.Given? && e.firstname.v.Str?
    ensures IsAlphaNum(e.firstname.v.s) && 3 <= |e.firstname.v.s| <= 30
    ensures e.lastname.Given? && e.lastname.v.Str?
    ensures IsAlphaNum(e.lastname.v.s) && 3 <= |e.lastname.v.s| <= 30
  {
  }

  /** A name outside 3 to 30 characters, or with a character outside
      `[a-zA-Z0-9]`, makes the record invalid. */
  lemma BadNameInvalid(lib: Library, e: Employee, s: string)
    requires e.firstname == Given(Str(s)) || e.lastname == Given(Str(s))
    requires |s| < 3 || |s| > 30 || exists i :: 0 <= i < |s| && !IsAlphaNumChar(s[i])
    ensures !Valid(lib, e)
  {
  }

  /** A grade that is not exactly three alphanumeric characters makes the
      record invalid. */
  lemma BadGradeInvalid(lib: Library, e: Employee, s: string)
    requires e.grade == Given(Str(s))
    requires |s| != 3 || exists i :: 0 <= i < |s| && !IsAlphaNumChar(s[i])
    ensures !Valid(lib, e)
  {
  }

  /** An email the email grammar refuses makes the record invalid. */
  lemma BadEmailInvalid(lib: Library, e: Employee, s: string)
    requires e.email == Given(Str(s)) && !lib.isEmail(s)
    ensures !Valid(lib, e)
  {
  }

  /** Replacing the number of a valid record by an integer keeps it valid. */
  lemma WithNumberValid(lib: Library, e: Employee, n: int)
    requires Valid(lib, e)
    ensures Valid(lib, WithNumber(e, n))
  {
  }

  // ---------------------------------------------------------------------
  // The sample record
  // ---------------------------------------------------------------------

  /** The John Smith payload used throughout the repository's tests. */
  function JohnSmith(number: int): (m: map<string, Value>)
    ensures m.Keys == SchemaKeys
  {
    map[
      "employeeNumber" := IntNum(number),
      "firstname" := Str("John"),
      "lastname" := Str("Smith"),
      "grade" := Str("AB1"),
      "birthDate" := Str("1980-01-23"),
      "joinDate" := Str("2015-05-12"),
      "salary" := Num(25000.0),
      "email" := Str("john.smith@gmail.com")]
  }

  /** The sample record is valid, given that the library accepts its email
      and its two dates. */
  lemma SampleValid(lib: Library, number: int)
    requires lib.isEmail("john.smith@gmail.com")
    requires lib.isDate(Str("1980-01-23")) && lib.isDate(Str("2015-05-12"))
    ensures Valid(lib, Sanitize(Some(Obj(JohnSmith(number)))))
  {
  }

  /** The sample with grade `'THG123'` is invalid, whatever the library says. */
  lemma SampleWithLongGradeInvalid(lib: Library, number: int)
    ensures !Valid(lib, Sanitize(Some(Obj(JohnSmith(number)["grade" := Str("THG123")]))))
  {
  }
}
