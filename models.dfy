/** The `models` package: the Engine and Car entities, the request bodies
    that create or update them, and the validation rule chains. Each chain
    runs its rules in a fixed order and returns the first failing rule's
    error (None stands for Go's `nil`). */
module Models {
  import opened Base
  import opened Uuids
  import opened Strconv

  // ---------------------------------------------------------------- entities

  datatype Engine = Engine(
    id: Uuid,
    displacement: Int64,
    noOfCylinders: Int64,
    carRange: Int64,
    createdAt: Time,
    updatedAt: Time)

  /** The body of an engine create or update: the three numbers and nothing else. */
  datatype EngineRequest = EngineRequest(displacement: Int64, noOfCylinders: Int64, carRange: Int64)

  datatype Car = Car(
    id: Uuid,
    name: string,
    year: string,
    fuelType: string,
    price: real,
    engine: Engine,
    brand: string,
    createdAt: Time,
    updatedAt: Time)

  datatype CarRequest = CarRequest(
    name: string,
    year: string,
    fuelType: string,
    brand: string,
    price: real,
    engine: Engine)

  const ZeroEngine := Engine(NilId, 0, 0, 0, ZeroTime, ZeroTime)
  const ZeroCar := Car(NilId, "", "", "", 0.0, ZeroEngine, "", ZeroTime, ZeroTime)

  // ------------------------------------------------------- first failing rule

  /** The error of the first rule in the list that failed, or None if all passed. */
  function FirstError(checks: seq<Option<Error>>): (r: Option<Error>)
  {
    if checks == [] then None
    else if checks[0].Some? then checks[0]
    else FirstError(checks[1..])
  }

  /** A chain succeeds iff every rule passes; when it fails, its error is the
      error of some rule that failed with every earlier rule passing. */
  lemma {:induction false} FirstErrorIsFirst(checks: seq<Option<Error>>)
    ensures FirstError(checks).None? <==> forall i :: 0 <= i < |checks| ==> checks[i].None?
    ensures FirstError(checks).Some? ==>
              exists i :: 0 <= i < |checks| && checks[i] == FirstError(checks) &&
                          forall j :: 0 <= j < i ==> checks[j].None?
  {
    if checks != [] && checks[0].None? {
      FirstErrorIsFirst(checks[1..]);
      if FirstError(checks).Some? {
        var i :| 0 <= i < |checks[1..]| && checks[1..][i] == FirstError(checks[1..]) &&
          forall j :: 0 <= j < i ==> checks[1..][j].None?;
        assert checks[i + 1] == FirstError(checks);
        assert forall j :: 0 <= j < i + 1 ==> checks[j].None? by {
          forall j | 0 <= j < i + 1 ensures checks[j].None? {
            if j > 0 { assert checks[j] == checks[1..][j - 1]; }
          }
        }
      }
    }
  }

  // --------------------------------------------------------- models/engine.go

  const DisplacementMessage := "engine displacement cannot be empty, 0 or less"
  const CylindersMessage := "engine number of cylinders cannot be empty, 0 or less"
  const CarRangeMessage := "engine car range cannot be empty, 0 or less"

  function ValidateDisplacement(displacement: Int64): (err: Option<Error>)
    ensures err.None? <==> displacement > 0
    ensures err.Some? ==> err.value == Invalid(DisplacementMessage)
  {
    if displacement <= 0 then Some(Invalid(DisplacementMessage)) else None
  }

  function ValidateNoOfCylinders(noOfCylinders: Int64): (err: Option<Error>)
    ensures err.None? <==> noOfCylinders > 0
    ensures err.Some? ==> err.value == Invalid(CylindersMessage)
  {
    if noOfCylinders <= 0 then Some(Invalid(CylindersMessage)) else None
  }

  function ValidateCarRange(carRange: Int64): (err: Option<Error>)
    ensures err.None? <==> carRange > 0
    ensures err.Some? ==> err.value == Invalid(CarRangeMessage)
  {
    if carRange <= 0 then Some(Invalid(CarRangeMessage)) else None
  }

  function ValidateEngineRequest(req: EngineRequest): (err: Option<Error>)
    ensures err.None? <==> req.displacement > 0 && req.noOfCylinders > 0 && req.carRange > 0
  {
    if ValidateDisplacement(req.displacement).Some? then ValidateDisplacement(req.displacement)
    else if ValidateNoOfCylinders(req.noOfCylinders).Some? then ValidateNoOfCylinders(req.noOfCylinders)
    else if ValidateCarRange(req.carRange).Some? then ValidateCarRange(req.carRange)
    else None
  }

  /** The engine rules in the order the chain runs them. */
  function EngineChecks(req: EngineRequest): seq<Option<Error>> {
    [ValidateDisplacement(req.displacement),
     ValidateNoOfCylinders(req.noOfCylinders),
     ValidateCarRange(req.carRange)]
  }

  /** The chain is the first failing rule of displacement, cylinders, range. */
  lemma EngineRequestFirstFailure(req: EngineRequest)
    ensures ValidateEngineRequest(req) == FirstError(EngineChecks(req))
  {
    var c := EngineChecks(req);
    assert FirstError(c[2..]) == FirstError(c[3..]) || c[2].Some?;
    assert FirstError(c[1..]) == FirstError(c[2..]) || c[1].Some?;
  }

  /** With several bad numbers only the earliest one is reported. */
  lemma EngineRequestReportsEarliest(req: EngineRequest)
    ensures req.displacement <= 0 ==> ValidateEngineRequest(req) == Some(Invalid(DisplacementMessage))
    ensures req.displacement > 0 && req.noOfCylinders <= 0 ==>
      ValidateEngineRequest(req) == Some(Invalid(CylindersMessage))
    ensures req.displacement > 0 && req.noOfCylinders > 0 && req.carRange <= 0 ==>
      ValidateEngineRequest(req) == Some(Invalid(CarRangeMessage))
  {
  }

  // ------------------------------------------------------------ models/car.go

  const NameMessage := "name cannot be empty"
  const YearEmptyMessage := "year cannot be empty"
  const YearNumberMessage := "year must be a number"
  const YearRangeMessage := "year must be between 1900 and current year"
  const BrandMessage := "brand cannot be empty"
  const FuelTypeMessage :=
    "invalid fuel type selected, please select one of the following: Gasoline, Diesel, Electric, Hybrid"
  const EngineIdMessage := "engine id cannot be empty"
  const EngineDisplacementMessage := "engine displacement cannot be empty"
  const EngineCylindersMessage := "engine number of cylinders cannot be empty"
  const EngineRangeMessage := "engine car range cannot be empty"
  const PriceMessage := "price must be greater than 0"

  const FirstModelYear := 1900
  const FuelTypes: seq<string> := ["Gasoline", "Diesel", "Electric", "Hybrid"]

  function ValidateName(name: string): (err: Option<Error>)
    ensures err.None? <==> name != ""
    ensures err.Some? ==> err.value == Invalid(NameMessage)
  {
    if name == "" then Some(Invalid(NameMessage)) else None
  }

  /** The clock's `time.Now().Year()` is the parameter `currentYear`. */
  function ValidateYear(year: string, currentYear: int): (err: Option<Error>)
    ensures year == "" ==> err == Some(Invalid(YearEmptyMessage))
    ensures year != "" && Atoi(year).None? ==> err == Some(Invalid(YearNumberMessage))
    ensures err.None? <==> Atoi(year).Some? && FirstModelYear <= Atoi(year).value <= currentYear
    ensures Atoi(year).Some? && err.Some? ==> err.value == Invalid(YearRangeMessage)
  {
    if year == "" then Some(Invalid(YearEmptyMessage))
    else match Atoi(year)
      case None => Some(Invalid(YearNumberMessage))
      case Some(y) =>
        if y < FirstModelYear || y > currentYear then Some(Invalid(YearRangeMessage)) else None
  }

  function ValidateBrand(brand: string): (err: Option<Error>)
    ensures err.None? <==> brand != ""
    ensures err.Some? ==> err.value == Invalid(BrandMessage)
  {
    if brand == "" then Some(Invalid(BrandMessage)) else None
  }

  /** The scan over the four accepted names; the comparison is exact, so case matters. */
  function ValidateFuelType(fuelType: string): (err: Option<Error>)
    ensures err.None? <==>
      fuelType == "Gasoline" || fuelType == "Diesel" || fuelType == "Electric" || fuelType == "Hybrid"
    ensures err.Some? ==> err.value == Invalid(FuelTypeMessage)
  {
    if fuelType in FuelTypes then None else Some(Invalid(FuelTypeMessage))
  }

  /** Checks the embedded engine as a value; no store is consulted. The rules
      run in the order id, displacement, cylinders, range, and the first one
      that fails names the error. */
  function ValidateEngine(engine: Engine): (err: Option<Error>)
    ensures err.None? <==>
      engine.id != NilId && engine.displacement > 0 && engine.noOfCylinders > 0 && engine.carRange > 0
    ensures engine.id == NilId ==> err == Some(Invalid(EngineIdMessage))
    ensures engine.id != NilId && engine.displacement <= 0 ==>
      err == Some(Invalid(EngineDisplacementMessage))
    ensures engine.id != NilId && engine.displacement > 0 && engine.noOfCylinders <= 0 ==>
      err == Some(Invalid(EngineCylindersMessage))
    ensures engine.id != NilId && engine.displacement > 0 && engine.noOfCylinders > 0 && engine.carRange <= 0 ==>
      err == Some(Invalid(EngineRangeMessage))
  {
    if engine.id == NilId then Some(Invalid(EngineIdMessage))
    else if engine.displacement <= 0 then Some(Invalid(EngineDisplacementMessage))
    else if engine.noOfCylinders <= 0 then Some(Invalid(EngineCylindersMessage))
    else if engine.carRange <= 0 then Some(Invalid(EngineRangeMessage))
    else None
  }

  function ValidatePrice(price: real): (err: Option<Error>)
    ensures err.None? <==> price > 0.0
    ensures err.Some? ==> err.value == Invalid(PriceMessage)
  {
    if price <= 0.0 then Some(Invalid(PriceMessage)) else None
  }

  function CarValidateRequest(req: CarRequest, currentYear: int): (err: Option<Error>)
    ensures err.None? <==>
      && ValidateName(req.name).None?
      && ValidateYear(req.year, currentYear).None?
      && ValidateFuelType(req.fuelType).None?
      && ValidateBrand(req.brand).None?
      && ValidateEngine(req.engine).None?
      && ValidatePrice(req.price).None?
  {
    if ValidateName(req.name).Some? then ValidateName(req.name)
    else if ValidateYear(req.year, currentYear).Some? then ValidateYear(req.year, currentYear)
    else if ValidateFuelType(req.fuelType).Some? then ValidateFuelType(req.fuelType)
    else if ValidateBrand(req.brand).Some? then ValidateBrand(req.brand)
    else if ValidateEngine(req.engine).Some? then ValidateEngine(req.engine)
    else if ValidatePrice(req.price).Some? then ValidatePrice(req.price)
    else None
  }

  /** The car rules in the order the chain runs them. */
  function CarChecks(req: CarRequest, currentYear: int): seq<Option<Error>> {
    [ValidateName(req.name),
     ValidateYear(req.year, currentYear),
     ValidateFuelType(req.fuelType),
     ValidateBrand(req.brand),
     ValidateEngine(req.engine),
     ValidatePrice(req.price)]
  }

  /** The chain is the first failing rule of name, year, fuel type, brand, engine, price. */
  lemma CarRequestFirstFailure(req: CarRequest, currentYear: int)
    ensures CarValidateRequest(req, currentYear) == FirstError(CarChecks(req, currentYear))
  {
    var c := CarChecks(req, currentYear);
    assert FirstError(c[5..]) == FirstError(c[6..]) || c[5].Some?;
    assert FirstError(c[4..]) == FirstError(c[5..]) || c[4].Some?;
    assert FirstError(c[3..]) == FirstError(c[4..]) || c[3].Some?;
    assert FirstError(c[2..]) == FirstError(c[3..]) || c[2].Some?;
    assert FirstError(c[1..]) == FirstError(c[2..]) || c[1].Some?;
  }

  /** A failing car request reports the error of one rule that failed, and
      every rule before it in the chain passed. */
  lemma CarErrorIsEarliestFailure(req: CarRequest, currentYear: int)
    requires CarValidateRequest(req, currentYear).Some?
    ensures exists i :: 0 <= i < 6 && CarChecks(req, currentYear)[i] == CarValidateRequest(req, currentYear) &&
                        forall j :: 0 <= j < i ==> CarChecks(req, currentYear)[j].None?
  {
    CarRequestFirstFailure(req, currentYear);
    FirstErrorIsFirst(CarChecks(req, currentYear));
  }

  /** Every four-digit year from 1900 up to the current year, as Go's `Itoa`
      writes it, passes the year rule. */
  lemma YearAccepted(year: int, currentYear: int)
    requires FirstModelYear <= year <= currentYear && year <= MaxInt64
    ensures ValidateYear(Itoa(year), currentYear) == None
  {
    AtoiItoa(year);
  }

  /** A car request fails on its name, and only on its name, when the name is
      empty: no later rule is consulted. */
  lemma EmptyNameReportedFirst(req: CarRequest, currentYear: int)
    requires req.name == ""
    ensures CarValidateRequest(req, currentYear) == Some(Invalid(NameMessage))
  {
  }

  /** The embedded-engine rule agrees with the engine request chain on the same
      three numbers whenever the engine has an id. */
  lemma EngineRulesAgree(engine: Engine)
    requires engine.id != NilId
    ensures ValidateEngine(engine).None? <==>
      ValidateEngineRequest(EngineRequest(engine.displacement, engine.noOfCylinders, engine.carRange)).None?
  {
  }

  // Sample inputs.

  lemma YearSamples(currentYear: int)
    requires currentYear >= 2000
    ensures ValidateYear("", currentYear) == Some(Invalid(YearEmptyMessage))
    ensures ValidateYear("abcd", currentYear) == Some(Invalid(YearNumberMessage))
    ensures ValidateYear("1899", currentYear) == Some(Invalid(YearRangeMessage))
    ensures ValidateYear("2000", currentYear) == None
  {
    AtoiRejectsNonDigit("abcd", 0);
    AtoiItoa(1899);
    assert Itoa(1899) == "1899";
    AtoiItoa(2000);
    assert Itoa(2000) == "2000";
  }

  /** The year is read with `strconv.Atoi`, so a plus sign or leading zeros
      do not make an otherwise accepted year invalid. */
  lemma YearSignAndZeros(currentYear: int)
    requires currentYear >= 2000
    ensures ValidateYear("+2000", currentYear) == None
    ensures ValidateYear("02000", currentYear) == None
  {
    NatStringValue(2000);
    assert NatString(2000) == "2000";
    AtoiReadsSignedDigits("+", "2000");
    LeadingZeroIgnored("2000");
    assert "0" + "2000" == "02000";
    AtoiReadsSignedDigits("", "02000");
    assert "" + "02000" == "02000";
  }

  lemma FuelTypeSamples()
    ensures ValidateFuelType("Diesel") == None
    ensures ValidateFuelType("diesel") == Some(Invalid(FuelTypeMessage))
    ensures ValidateFuelType("Kerosene") == Some(Invalid(FuelTypeMessage))
  {
  }

  lemma NameAndBrandAcceptBlank()
    ensures ValidateName(" ") == None && ValidateBrand(" ") == None
  {
  }
}
