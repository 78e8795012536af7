# Employee record store — a Dafny model

This project models the logic core of a small Node.js employee microservice:

- the **employee record** (`app/employee-model.js`): a fixed schema of eight keys. `sanitize` projects any input onto those keys. `valid` applies the joi rules of the schema. The constructor copies the sanitized object onto a fresh instance, so a constructed record is `Sanitize(data)`.
- the **in-memory store** (`app/employee-service.js`): a module-level list of records with five promise-returning operations: `getAll`, `get` (with bonus enrichment), `add`, `edit` and `del`.

Each operation is a pure Dafny function. It maps the store before the call to the way the promise settles (`Resolved(value)` or `Rejected(reason)`), paired with the store after the call. Inputs the service gets from outside become parameters:

- the bonus flag and the single reply of the bonus service (`get`);
- the validation library's email grammar and date parser (`Library`);
- the number `Math.random` drew (`add`).

Files:

- `js_values.dfy`: JavaScript values. A record field is either a given value or the placeholder that `_.defaults` copies in for a missing key.
- `employee_model.dfy`: the `Employee` record, `Sanitize` and `Valid`, with their properties.
- `employee_service.dfy`: the store and the five operations.
- `service_properties.dfy`: properties that relate several calls. These cover the invariants the operations keep, the `add`/`get`/`del` round trips, and `edit` idempotence.

Three facts about the code shape the model:

- **Every schema key is required on the constructor path.** `employeeNumber` and `email` carry no `.required()` in the schema (app/employee-model.js:24,31). Yet `_.defaults` at line 18 fills a missing key with the schema's joi object, which `valid` refuses. So `add` rejects a payload without them with `INVALID`; see `AddWithoutNumberOrEmailIsInvalid`.
- **`get`, `edit` and `del` on a `null` store.** These call `data.find` on `null`. The resulting `TypeError` is thrown inside the promise executor, so the promise is rejected with it. The model represents that as the reason `Thrown`. `edit` validates before it touches the store, so an invalid payload still gives `INVALID` when the store is `null`.
- **The bonus flag.** `config/index.js` spells the key `enalbed`, while the service reads `config.bonus.enabled`. Out of the box the flag is therefore `undefined`, and the bonus is disabled. The model takes the flag as a parameter.

## Model

| member | source | states |
|---|---|---|
| EmployeeModel.Sanitize | app/employee-model.js:16-19 | The record holds exactly the eight schema keys. A key present in the input object keeps its value. A missing key becomes the placeholder. A falsy or non-object input counts as `{}`. |
| EmployeeModel.SanitizeReadsOnlySchemaKeys | app/employee-model.js:18 | Two inputs that agree on the schema keys sanitize to the same record. |
| EmployeeModel.SanitizeDropsExtraKeys | app/employee-model-spec.js:19-26 | Extra keys outside the schema, such as `password`, change nothing and never appear in the record. |
| EmployeeModel.SanitizeRoundTrip | app/employee-model-spec.js:23 | An object that already holds exactly the schema keys, none of them placeholders, sanitizes back to the same record. |
| EmployeeModel.NonObjectInputInvalid | app/employee-model.js:17-18 | `null`, `undefined` or any non-object input gives a record of placeholders only, and that record is invalid. |
| EmployeeModel.MissingKeyInvalid | app/employee-model.js:18 | A missing or `undefined` schema key makes the constructed record invalid. This includes `employeeNumber` and `email`, which have no `.required()`. |
| EmployeeModel.Valid | app/employee-model.js:11-14 | Decides joi's verdict field by field against the schema at lines 22-33. `employeeNumber` must be an integer number. Both names must be alphanumeric strings of 3 to 30 characters. `grade` must be exactly three characters of `[a-zA-Z0-9]`. Both dates must be non-null values the date parser accepts. `salary` must be a number. `email` must be a string the email grammar accepts. A placeholder fails every rule. |
| EmployeeModel.PlaceholderInvalid | app/employee-model.js:22-33 | A placeholder in any schema key fails that key's rule, so `valid` is false. |
| EmployeeModel.ValidIsComplete | app/employee-model.js:11-14 | A valid record holds no placeholder. |
| EmployeeModel.NullFieldInvalid | app/employee-service-spec.js:111-116 | A schema key explicitly set to `null` is kept by sanitize and refused by validation. |
| EmployeeModel.ValidNames | app/employee-model.js:25-26 | In a valid record, first and last name are alphanumeric strings of 3 to 30 characters. |
| EmployeeModel.BadNameInvalid | app/employee-model.js:25-26 | A name shorter than 3 or longer than 30 characters makes the record invalid. So does a name with a character outside `[a-zA-Z0-9]`. |
| EmployeeModel.BadGradeInvalid | app/employee-model.js:27 | A grade that is not exactly three characters of `[a-zA-Z0-9]` makes the record invalid. |
| EmployeeModel.SampleWithLongGradeInvalid | app/employee-model-spec.js:38-44 | The sample record with grade `'THG123'` is invalid, whatever the library accepts. |
| EmployeeModel.BadEmailInvalid | app/employee-model-spec.js:46-52 | An email string the email grammar refuses makes the record invalid. |
| EmployeeModel.SampleValid | app/employee-model-spec.js:54-58 | The John Smith sample record is valid, given that the library accepts its email and both its dates. |
| EmployeeModel.WithNumber | app/employee-service.js:113 | Replacing the employee number sets that key to the integer and leaves the other seven keys as they were. |
| EmployeeModel.WithNumberValid | app/employee-service.js:111-113 | Giving a valid record an integer employee number keeps it valid. |
| EmployeeService.Find | app/employee-service.js:50 | The lookup returns the first position whose record has the number. It returns nothing exactly when no record has the number. |
| EmployeeService.FirstMatchUnique | app/employee-service.js:89 | Any position that holds the number with no earlier match is the position the lookup returns. |
| EmployeeService.Assign | app/employee-service.js:68 | The merged object has the target's keys plus the schema keys. Record fields win on schema keys, and the target's other keys keep their values. |
| EmployeeService.Enrich | app/employee-service.js:58-75 | With the bonus off, the result is exactly the record's eight keys plus `bonus = 0`. With it on, a failed call rejects with exactly the downstream error. A reply resolves with the body's keys plus the schema keys: the body keeps its values on its other keys, and the record's fields win on the schema keys. |
| EmployeeService.GetAll | app/employee-service.js:29-38 | Rejects with `NOT_FOUND` exactly when the store is `null`. Any present list, the empty one included, resolves. The result is the stored list itself, and the store is unchanged. |
| EmployeeService.Get | app/employee-service.js:46-77 | The store is never modified. The call rejects with `NOT_FOUND` exactly when no record has the number. A resolved object carries the first match's fields, plus `bonus = 0` and no other key when disabled, or the reply body's other keys when enabled. A failed bonus call rejects with its error. |
| EmployeeService.Add | app/employee-service.js:101-120 | Checks validity first (`INVALID`), then the store's presence (`FAILURE`). Nothing changes on either failure. On success exactly one record is appended at the end. That record carries the drawn 8-digit number, whatever number the input had, and equals the sanitized input on every other key. |
| EmployeeService.Edit | app/employee-service.js:78-100 | Checks validity first (`INVALID`, even for a missing number), then lookup (`NOT_FOUND`). Nothing changes on failure. On success only the first match is replaced, by the sanitized payload carrying the argument number. |
| EmployeeService.Del | app/employee-service.js:121-135 | Rejects with `NOT_FOUND` exactly when no record has the number, leaving the store unchanged. On success the first match is removed and the other records keep their order. |
| EmployeeService.InitialStore | app/employee-service.js:8-26 | The service starts with two records, numbered 19657899 and 11457844. |
| ServiceProperties.OperationsKeepStoreValid | app/employee-service.js:78-135 | If every stored record is valid, every operation leaves a store whose records are all valid. |
| ServiceProperties.HannahPriorValid | app/employee-service.js:17-26 | The second initial record is valid, given that the library accepts its email and dates. |
| ServiceProperties.InitialStoreValid | app/employee-service.js:8-26 | Both initial records are valid, given that the library accepts their emails and dates. |
| ServiceProperties.EditKeepsNumbersDistinct | app/employee-service.js:89-98 | `edit` keeps employee numbers distinct: it overwrites the first match under the number that match already held. |
| ServiceProperties.DelKeepsNumbersDistinct | app/employee-service.js:125-133 | `del` keeps employee numbers distinct. |
| ServiceProperties.AddKeepsNumbersDistinctIffFresh | app/employee-service.js:111-114 | A successful `add` keeps employee numbers distinct exactly when the drawn number is fresh, which the code never checks. |
| ServiceProperties.EditIdempotent | app/employee-service.js:78-100 | Repeating an edit settles the same way and leaves the same store. |
| ServiceProperties.EditThenGet | app/employee-service-spec.js:157-172 | After a successful edit, `get` of the edited number resolves with the edited fields under that number when the bonus is off (plus `bonus = 0`) or the bonus service replies. A failed bonus call still rejects with its error. |
| ServiceProperties.AddThenGet | app/employee-service.js:46-115 | Under a fresh drawn number, `get` finds exactly the appended record and leaves the store unchanged. |
| ServiceProperties.AddThenDel | app/employee-service.js:111-133 | Deleting the fresh number `add` drew restores the store exactly. |
| ServiceProperties.AddCollisionShadowed | app/employee-service.js:111-114 | A drawn number that is already taken is appended anyway. Lookup then finds the older record, so the new one cannot be reached by number. |
| ServiceProperties.DelRemovesOneMatch | app/employee-service.js:132 | A successful delete removes exactly one record with the number, the first. The remaining records are the original multiset minus that one record. |
| ServiceProperties.DelThenGet | app/employee-service-spec.js:181-191 | When numbers are distinct, after a successful delete no record holds the number, so `get` of it rejects with `NOT_FOUND` for either bonus setting. |
| ServiceProperties.AddWithoutNumberOrEmailIsInvalid | app/employee-service.js:104-109 | A payload without `employeeNumber` and `email` is rejected by `add` with `INVALID` and leaves the store unchanged. |

## Left out

- HTTP adapter, routes, Swagger metadata, server bootstrap, health endpoint: plumbing over hapi and Boom, which are not part of this model.
- Error simulator endpoints: they exit the process or spin forever on a timer, and hold no record logic.
- Logging, configuration loading and the mocha test setup: environment only. The bonus flag is a parameter instead.
- The `request.post` call: replaced by its single outcome, a reply body object or a truthy error value. A falsy `error` argument takes the merge branch, so it is the reply case. A reply body that is not an object is not modelled; `Object.assign` would throw on `null`.
- The employee number passed to `get`, `edit` and `del` is an integer. The service itself accepts any value; only the HTTP routes' `joi.number().integer()` makes it an integer (app/employee-api.js:102,183,221).
- Promises: each operation settles synchronously in the model. Aliasing is not modelled. For example, `getAll` returns the live list, so a caller would see later edits. With the bonus on, `get` holds the stored object across the `request.post` suspension (app/employee-service.js:50,59-68). So an `edit` in that window makes `get` resolve with the edited fields, and a `del` in that window still lets `get` resolve with the deleted record. The single-step `Get` shows neither.
- `Math.random`: the drawn number is an input, restricted to the 8-digit range the formula produces.
- `setData` and `getData`: test hooks. The store is an explicit parameter, so a `null` store is simply `Store.Absent`.
- joi's email grammar and date parsing: taken as the oracle functions of `Library`. Its `alphanum` class and the grade pattern are modelled exactly.
- Floating point: numbers are exact rationals. The service only tests them for integrality and equality. joi's safe-integer bound and its default conversion of numeric strings to numbers are not modelled, so a numeric string in a number field counts as not a number. Date objects as field values are not modelled either.
- EmployeeModel.Valid: a numeric string such as `salary: "25000"` is refused, while joi's `number()` converts and accepts it by default. The HTTP routes already validate and convert the payload with the same schema (app/employee-api.js:145,181), so the service receives numbers.
- `_.defaults` mutates the caller's input object. The model does not track the caller's object.
