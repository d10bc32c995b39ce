# car-management: validation and resource lifecycle, in Dafny

This project models the request-validation and persistence core of the
car-management HTTP API. The API manages two resources: engines, and cars
that embed an engine.

- `models.dfy` (module `Models`): the Engine and Car entities and their
  request bodies. It also holds the two validation chains,
  `ValidateEngineRequest` and `CarValidateRequest`. Each chain runs its rules
  in a fixed order and returns the first failing rule's error. Both chains are
  proved equal to `FirstError` over the list of their rules, and
  `FirstErrorIsFirst` says what that means.
- `strconv.dfy` (module `Strconv`): Go's `strconv.Atoi`, which the year rule
  uses. It accepts an optional sign and one or more decimal digits that fit in
  64 bits (`AtoiReadsSignedDigits`, `AtoiAcceptsOnlySignedDigits`). `Itoa`
  inverts it from one side only: every integer reads back from its `Itoa`
  text (`AtoiItoa`), but "+5", "05" and "5" all read as 5 (`AtoiIsNotInjective`).
- `uuids.dfy` (module `Uuids`): UUIDs as 32 hexadecimal digits, with `Parse`
  (the text an id arrives as) and `Format` (the text an id is given out as).
  `ParseFormat` proves the round trip.
- `store_engine.dfy` (module `StoreEngine`): the engine store. The `engine`
  table is a `map` from id to row, held in the class `EngineStore`. The four
  operations are methods that follow the Go code step by step. Each is proved
  equal to a specification function (`GetOutcome`, `CreateOutcome`,
  `UpdateOutcome`, `DeleteOutcome`). Those functions' contracts state the
  store's promises:
  - a failed call changes no row. An update with an unparsable id, and a
    call whose transaction cannot begin, return before any transaction
    exists. An error held in the function's `err` variable makes the
    deferred block roll back. "Not found" after an UPDATE or DELETE that
    matched no row leaves `err` nil, so that transaction commits, but its
    statement changed nothing;
  - create inserts one row under a new id;
  - update rewrites only the target row's numbers and update time;
  - delete removes exactly the row it returns.
  Lemmas relate successive calls: create then get, update then get, delete
  then get, and each id's absent/present lifecycle.
- `service_engine.dfy` and `service_car.dfy`: the two services. Create and
  update validate first and return the rule's error without calling the
  store. The other operations forward to the store. A store error reaches the
  caller unchanged, with the zero value in place of the result (`Scrub`).
  Each store keeps a ghost log of the calls it received, so "does not call
  the store" and "forwards the id unchanged" are stated directly. The car
  store's implementation is not part of this model. It appears as an
  interface: a record of functions over an abstract store state `S`.
- `base.dfy` (module `Base`): `Option`, the error kinds, Go's (value, error)
  return pair `Reply`, `Int64` and `Time`.

Environment inputs are parameters, so every operation is deterministic:
- the clock (`now`, `replyNow`, `currentYear`);
- the id generator (`newId`, a version-4 UUID not yet in the table);
- database failures (`Fault`: at the start of the transaction, at a SELECT,
  or at a write).

Points of the code's behaviour worth stating plainly:
- A car's embedded engine is checked only as a value. Its id is never looked
  up in the engine table.
- Only `UpdateEngine` parses its id text. Get and delete pass the text to the
  database. Assuming the `id` column has the Postgres type `uuid` (the schema
  file is not part of this model), a malformed id there is a database error,
  not "not found".
- "Delete returns the prior values" means the id and the three numbers. The
  SELECT does not read the timestamps, so they come back as the zero time.
  The same holds for get.

## Model

| member | source | states |
|---|---|---|
| `Base.Scrub` | service/engine/engine.go:26-30 | a store error is passed on unchanged with the zero value; a success is passed on as-is |
| `Strconv.Atoi` | models/car.go:69-72 | a parsed number fits in 64 bits; the empty string and strings not starting with a digit or sign are rejected |
| `Strconv.AtoiItoa` | models/car.go:69-72 | every 64-bit integer written in decimal reads back as itself |
| `Strconv.AtoiRejectsNonDigit` | models/car.go:69-72 | a non-digit anywhere but a leading sign makes the year "not a number" |
| `Strconv.AtoiReadsSignedDigits` | models/car.go:69-72 | an optional sign and one or more digits read as their signed decimal value when it fits in 64 bits, and are rejected otherwise |
| `Strconv.AtoiAcceptsOnlySignedDigits` | models/car.go:69-72 | whatever is accepted is an optional sign followed by one or more digits, with their signed decimal value |
| `Strconv.LeadingZeroIgnored` | models/car.go:69-72 | a leading zero leaves a digit string's value unchanged |
| `Strconv.AtoiIsNotInjective` | models/car.go:69-72 | "+5", "05" and "5" all read as 5, so `Itoa` is only a right inverse |
| `Uuids.Parse` | store/engine/engine.go:100-103 | only 32- or 36-character texts parse as an id |
| `Uuids.ParseAccepts` | store/engine/engine.go:100-103 | a text parses iff it has 36 characters with dashes at places 8, 13, 18 and 23 and hexadecimal digits of either case elsewhere, or 32 hexadecimal digits |
| `Uuids.FormatParse` | store/engine/engine.go:100-103 | a parsed text is given back lower-cased, with the dashes inserted when it had none |
| `Uuids.UndashedDashed` | store/engine/engine.go:100-103 | dropping the dashes of the canonical layout gives back the 32 digits |
| `Uuids.FormatHexParseHex` | store/engine/engine.go:100-103 | decoding hexadecimal digits and writing them back lower-cases them |
| `Uuids.HexDigitOfValue` | store/engine/engine.go:100-103 | the digit written for a hexadecimal character's value is its lower-case form |
| `Uuids.Format` | models/engine.go:11 | an id is written out (its JSON `id` field, via `uuid.UUID.String`) as 36 characters, with dashes exactly at places 8, 13, 18 and 23 and lower-case hexadecimal digits everywhere else |
| `Uuids.ParseFormat` | store/engine/engine.go:100-103 | the canonical text of an id parses back to the same id |
| `Uuids.FormatInjective` | store/engine/engine.go:100-103 | distinct ids have distinct canonical texts |
| `Uuids.Version4IsNotNil` | store/engine/engine.go:73 | a generated (version-4) id is never the nil id |
| `Models.ValidateDisplacement` | models/engine.go:37-42 | passes exactly when displacement > 0, else its own message |
| `Models.ValidateNoOfCylinders` | models/engine.go:44-49 | passes exactly when cylinders > 0, else its own message |
| `Models.ValidateCarRange` | models/engine.go:51-56 | passes exactly when range > 0, else its own message |
| `Models.ValidateEngineRequest` | models/engine.go:25-36 | succeeds iff all three numbers are positive |
| `Models.EngineRequestFirstFailure` | models/engine.go:25-36 | the chain's result is the first failing rule in the order displacement, cylinders, range |
| `Models.EngineRequestReportsEarliest` | models/engine.go:25-36 | with several bad numbers only the earliest one's message is returned |
| `Models.FirstErrorIsFirst` | models/car.go:32-56 | a chain passes iff every rule passes; otherwise its error comes from a failing rule all of whose predecessors passed |
| `Models.ValidateName` | models/car.go:58-63 | passes iff the name is non-empty |
| `Models.ValidateYear` | models/car.go:65-78 | "" gives the empty message, an `Atoi` failure the number message; passes iff the number lies in [1900, currentYear], else the range message |
| `Models.ValidateBrand` | models/car.go:80-85 | passes iff the brand is non-empty |
| `Models.ValidateFuelType` | models/car.go:87-95 | passes iff the text is exactly Gasoline, Diesel, Electric or Hybrid |
| `Models.ValidateEngine` | models/car.go:97-111 | passes iff the embedded engine has a non-nil id and three positive numbers; the rules run in the order id, displacement, cylinders, range, and the first that fails gives its own message |
| `Models.ValidatePrice` | models/car.go:113-118 | passes iff price > 0 |
| `Models.CarValidateRequest` | models/car.go:32-56 | succeeds iff name, year, fuel type, brand, engine and price all pass |
| `Models.CarRequestFirstFailure` | models/car.go:32-56 | the result is the first failing rule in the order name, year, fuel type, brand, engine, price |
| `Models.CarErrorIsEarliestFailure` | models/car.go:32-56 | a failing request reports a failing rule whose predecessors all passed |
| `Models.EmptyNameReportedFirst` | models/car.go:32-35 | an empty name is reported whatever else is wrong |
| `Models.YearAccepted` | models/car.go:65-78 | every year from 1900 to the current year, written in decimal, passes |
| `Models.YearSamples` | models/car.go:65-78 | "" , "abcd" and "1899" are rejected with their three messages; "2000" passes |
| `Models.YearSignAndZeros` | models/car.go:65-78 | "+2000" and "02000" pass like "2000" |
| `Models.FuelTypeSamples` | models/car.go:87-95 | "Diesel" passes; "diesel" and "Kerosene" are rejected |
| `Models.NameAndBrandAcceptBlank` | models/car.go:58-63 | a whitespace-only name or brand is accepted |
| `Models.EngineRulesAgree` | models/car.go:97-111 | for an engine with an id, the embedded-engine rule passes iff the engine request chain passes on its numbers |
| `StoreEngine.GetOutcome` | store/engine/engine.go:23-51 | success iff the id parses and names a row, returning its id and numbers; "not found" iff it names no row; any other failure is a database error; the value is zero on error |
| `StoreEngine.CreateOutcome` | store/engine/engine.go:53-94 | on success exactly one row is added, under the new non-nil id, carrying the request's numbers and equal creation and update times; on failure the table is unchanged |
| `StoreEngine.UpdateOutcome` | store/engine/engine.go:96-140 | an unparsable id fails before the table is touched; a missing row is "not found" with the table unchanged; otherwise only that row's numbers and update time change, creation time kept, and the reply has the request's numbers and no creation time; every other error is a database error |
| `StoreEngine.DeleteOutcome` | store/engine/engine.go:142-181 | a missing row is "not found" with the table unchanged; otherwise exactly that row is removed and its prior id and numbers returned; a failed DELETE still returns the fetched row with the error; every error but "not found" is a database error |
| `StoreEngine.EngineStore.constructor` | store/engine/engine.go:19-21 | the store starts over the given table with no calls |
| `StoreEngine.EngineStore.GetEngineById` | store/engine/engine.go:23-51 | answers as `GetOutcome` and leaves the table unchanged |
| `StoreEngine.EngineStore.CreatedEngine` | store/engine/engine.go:53-94 | reply and new table are those of `CreateOutcome` |
| `StoreEngine.EngineStore.UpdateEngine` | store/engine/engine.go:96-140 | reply and new table are those of `UpdateOutcome` |
| `StoreEngine.EngineStore.DeleteEngine` | store/engine/engine.go:142-181 | reply and new table are those of `DeleteOutcome` |
| `StoreEngine.CreateThenGet` | store/engine/engine.go:73-92 | fetching a created engine by its returned id yields the same id and the created numbers |
| `StoreEngine.UpdateThenGet` | store/engine/engine.go:119-138 | after a successful update a get returns the new numbers |
| `StoreEngine.DeleteThenGet` | store/engine/engine.go:162-180 | after a successful delete, get and a second delete both report "not found" |
| `StoreEngine.Lifecycle` | store/engine/engine.go:53-181 | create moves an id from absent to present, update needs and keeps it present, delete moves it from present to absent; other ids keep their presence |
| `StoreEngine.CreateKeepsPositive` | service/engine/engine.go:19-31 | a create whose request passed validation keeps every stored engine's displacement, cylinders and range positive |
| `StoreEngine.UpdateKeepsPositive` | service/engine/engine.go:44-56 | an update whose request passed validation keeps every stored engine's numbers positive |
| `StoreEngine.DeleteKeepsPositive` | store/engine/engine.go:142-181 | a delete keeps every stored engine's numbers positive |
| `StoreEngine.StoreAloneAdmitsNonPositive` | store/engine/engine.go:53-91 | the store itself inserts a zero displacement, so only the validation in front of it keeps the invariant |
| `ServiceEngine.EngineService.constructor` | service/engine/engine.go:15-17 | the service holds the store it is given |
| `ServiceEngine.EngineService.CreateEngine` | service/engine/engine.go:19-31 | an invalid request returns the rule's error and zero Engine without calling the store; otherwise the store's create is called once and its result passed on, zeroed on error; if every stored engine had positive numbers before the call, every one still does |
| `ServiceEngine.EngineService.GetEngineById` | service/engine/engine.go:33-42 | forwards the id to the store unvalidated and passes its answer on |
| `ServiceEngine.EngineService.UpdateEngine` | service/engine/engine.go:44-56 | an invalid request returns the rule's error without calling the store; otherwise the store's update result is passed on, zeroed on error; if every stored engine had positive numbers before the call, every one still does |
| `ServiceEngine.EngineService.DeleteEngine` | service/engine/engine.go:58-67 | forwards the id to the store unvalidated; its error is passed on with zero Engine; if every stored engine had positive numbers before the call, every one still does |
| `ServiceEngine.DeleteFailureDropsFetchedRow` | service/engine/engine.go:62-65 | when the DELETE statement fails, the store's fetched row is dropped and only the error reaches the caller |
| `ServiceEngine.ValidCreateSucceeds` | service/engine/engine.go:19-31 | a valid create on a healthy database returns the store's engine as-is and adds one row |
| `ServiceCar.CarStore.constructor` | store/interface.go:9-15 | a car store is an implementation of the five interface operations over some state |
| `ServiceCar.CarStore.GetCarById` | store/interface.go:10 | answers by the implementation's lookup, state unchanged |
| `ServiceCar.CarStore.GetCarByBrand` | store/interface.go:11 | answers by the implementation's brand query, state unchanged |
| `ServiceCar.CarStore.CreateCar` | store/interface.go:12 | reply and new state are the implementation's |
| `ServiceCar.CarStore.UpdateCar` | store/interface.go:13 | reply and new state are the implementation's |
| `ServiceCar.CarStore.DeleteCar` | store/interface.go:14 | reply and new state are the implementation's |
| `ServiceCar.CarService.constructor` | service/car/car.go:15-17 | the service holds the store it is given |
| `ServiceCar.CarService.GetCarById` | service/car/car.go:19-28 | forwards the id unchanged; a store error comes back with zero Car |
| `ServiceCar.CarService.GetCarByBrand` | service/car/car.go:30-40 | forwards brand and `isEngine` unchanged; a store error comes back with an empty (nil) list |
| `ServiceCar.CarService.DeleteCar` | service/car/car.go:42-52 | forwards the id unchanged; the store's new state is kept and its error passed on with zero Car |
| `ServiceCar.CarService.UpdateCar` | service/car/car.go:54-66 | an invalid request returns the rule's error and zero Car and leaves the store uncalled and unchanged; otherwise the store's update result is passed on, zeroed on error |
| `ServiceCar.CarService.CreateCar` | service/car/car.go:68-81 | an invalid request returns the rule's error and zero Car and leaves the store uncalled and unchanged; otherwise the store's create result is passed on, zeroed on error |

## Left out

- HTTP handlers, login and token handling, metrics middleware, the database
  driver set-up and `main`: they are adapters around this core.
- SQL text, `database/sql` transactions, tracing spans and context
  cancellation. Only the resulting table change is modelled. A transaction
  that rolls back appears as an unchanged table.
- A commit or rollback that fails is only logged in the source, so a caller
  can see success for a write that was not committed. The model's database
  never fails at commit.
- The delete race: a row removed by another caller between the SELECT and the
  DELETE makes the source report "not found". Calls here are sequential, so
  that branch is unreachable.
- `time.Now()` and `uuid.New()` are parameters. `UpdateEngine` reads the clock
  twice, so the returned update time (`replyNow`) may differ from the stored
  one (`now`).
- `Uuids.Parse`: models `uuid.Parse` for the dashed 36-character form and the
  bare 32-digit form only. The braced and `urn:uuid:` forms are not accepted,
  and the library's error detail after "invalid engine id:" is not modelled.
- `StoreEngine.GetOutcome`: Postgres' own reading of the id text is stood in
  for by `Uuids.Parse`, with one fixed syntax-error message. The database
  accepts a few more layouts of the same digits. That a malformed id is a
  database error rests on the assumption that the `id` column has type
  `uuid`; store/schema.sql is not part of this model, and with a text column
  such an id would be "not found".
- `StoreEngine.EngineStore`: a failed COMMIT in the deferred block is only
  printed, so the call still reports success. The model assumes every
  commit succeeds.
- `Models.ValidatePrice`: price is a real number. Floating-point rounding,
  NaN and infinities are not modelled; JSON cannot carry NaN anyway.
- `ServiceCar.CarService.GetCarByBrand`: Go's nil slice and empty slice are
  both the empty sequence.
- The car store's implementation (store/car) is not part of this model. Only
  its interface is, so no property of the car table itself is proved.
