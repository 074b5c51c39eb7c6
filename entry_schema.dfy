/**
 * dataEntrySchema (routes/dataEntryRoutes.js): the zod object schema that a
 * submission is parsed against. Parsing collects every failing key; it
 * succeeds only when none fails, and then yields the typed values.
 */
module EntrySchema {
  import opened Wrappers

  /** A JSON value as it arrives in the request body, or a key that is not there. */
  datatype Value = Absent | Num(n: real) | Str(s: string) | OtherJson

  /** The keys the schema declares; a failed parse reports a set of them. */
  datatype Field =
    | InstitutionNameField | RollNumberField | NameField | SampleIdField
    | TimeMinsField | PhLevelField | TemperatureField | NicoteneField
    | SubstanceDetectedField | UserTypeField

  const AllFields: set<Field> := {
    InstitutionNameField, RollNumberField, NameField, SampleIdField,
    TimeMinsField, PhLevelField, TemperatureField, NicoteneField,
    SubstanceDetectedField, UserTypeField}

  /** The labels the schema's userType enum lists; "Intermediate User" is not one of them. */
  const SchemaUserTypes: set<string> := {"Non-user", "Regular User", "Addict"}

  /**
   * The object handed to parse: the body's keys, with sampleId and userType
   * always supplied by the handler as a number and a string.
   */
  datatype SchemaInput = SchemaInput(
    institutionName: Value,
    rollNumber: Value,
    name: Value,
    sampleId: int,
    timeMins: Value,
    phLevel: Value,
    temperature: Value,
    nicotene: Value,
    substanceDetected: Value,
    userType: string)

  /** The parsed data: unknown keys are stripped, optional keys may be absent. */
  datatype Submission = Submission(
    institutionName: string,
    rollNumber: string,
    name: string,
    sampleId: int,
    timeMins: real,
    phLevel: real,
    temperature: real,
    nicotene: Option<real>,
    substanceDetected: Option<string>,
    userType: string)

  // The zod combinators the schema uses.

  /** z.string().min(1) */
  predicate NonEmptyString(v: Value) { v.Str? && |v.s| >= 1 }

  /** z.number() */
  predicate IsNumber(v: Value) { v.Num? }

  /** z.number().min(lo).max(hi), both bounds inclusive */
  predicate NumberWithin(v: Value, lo: real, hi: real) { v.Num? && lo <= v.n <= hi }

  /** z.number().optional(): undefined or a number, but not null */
  predicate OptionalNumber(v: Value) { v.Absent? || v.Num? }

  /** z.string().optional() */
  predicate OptionalString(v: Value) { v.Absent? || v.Str? }

  /** Whether one key of the input passes its declared check. */
  predicate FieldOk(input: SchemaInput, f: Field)
  {
    match f
    case InstitutionNameField => NonEmptyString(input.institutionName)
    case RollNumberField => NonEmptyString(input.rollNumber)
    case NameField => NonEmptyString(input.name)
    case SampleIdField => input.sampleId > 0
    case TimeMinsField => NumberWithin(input.timeMins, 0.0, 60.0)
    case PhLevelField => NumberWithin(input.phLevel, 1.0, 14.0)
    case TemperatureField => IsNumber(input.temperature)
    case NicoteneField => OptionalNumber(input.nicotene)
    case SubstanceDetectedField => OptionalString(input.substanceDetected)
    case UserTypeField => input.userType in SchemaUserTypes
  }

  /** The keys whose check fails. */
  function Issues(input: SchemaInput): set<Field>
  {
    set f | f in AllFields && !FieldOk(input, f)
  }

  function OptionalOf(v: Value): Option<real>
  {
    if v.Num? then Some(v.n) else None
  }

  function OptionalText(v: Value): Option<string>
  {
    if v.Str? then Some(v.s) else None
  }

  /**
   * dataEntrySchema.parse. It fails exactly when some key fails its check and
   * then names precisely the failing keys; on success every declared
   * constraint holds of the result and the result carries the input's values.
   */
  function Parse(input: SchemaInput): (r: Result<Submission, set<Field>>)
    ensures r.Success? <==> forall f: Field :: FieldOk(input, f)
    ensures r.Failure? ==> r.error != {} && forall f: Field :: f in r.error <==> !FieldOk(input, f)
    ensures r.Success? ==>
      && |r.value.institutionName| >= 1 && Str(r.value.institutionName) == input.institutionName
      && |r.value.rollNumber| >= 1 && Str(r.value.rollNumber) == input.rollNumber
      && |r.value.name| >= 1 && Str(r.value.name) == input.name
      && r.value.sampleId > 0 && r.value.sampleId == input.sampleId
      && 0.0 <= r.value.timeMins <= 60.0 && Num(r.value.timeMins) == input.timeMins
      && 1.0 <= r.value.phLevel <= 14.0 && Num(r.value.phLevel) == input.phLevel
      && Num(r.value.temperature) == input.temperature
      && (input.nicotene.Absent? ==> r.value.nicotene.None?)
      && (input.nicotene.Num? ==> r.value.nicotene == Some(input.nicotene.n))
      && (input.substanceDetected.Absent? ==> r.value.substanceDetected.None?)
      && (input.substanceDetected.Str? ==> r.value.substanceDetected == Some(input.substanceDetected.s))
      && r.value.userType in SchemaUserTypes && r.value.userType == input.userType
  {
    AcceptsEveryField(input);
    EveryFieldListed();
    if !Accepts(input) then
      IssuesNonEmpty(input);
      Failure(Issues(input))
    else
      Success(Submission(
        input.institutionName.s, input.rollNumber.s, input.name.s, input.sampleId,
        input.timeMins.n, input.phLevel.n, input.temperature.n,
        OptionalOf(input.nicotene), OptionalText(input.substanceDetected), input.userType))
  }

  /** Every key passes its check. */
  predicate Accepts(input: SchemaInput)
  {
    && FieldOk(input, InstitutionNameField)
    && FieldOk(input, RollNumberField)
    && FieldOk(input, NameField)
    && FieldOk(input, SampleIdField)
    && FieldOk(input, TimeMinsField)
    && FieldOk(input, PhLevelField)
    && FieldOk(input, TemperatureField)
    && FieldOk(input, NicoteneField)
    && FieldOk(input, SubstanceDetectedField)
    && FieldOk(input, UserTypeField)
  }

  lemma AcceptsEveryField(input: SchemaInput)
    ensures Accepts(input) <==> forall f: Field :: FieldOk(input, f)
  {
    if Accepts(input) {
      forall f: Field ensures FieldOk(input, f) {
        match f
        case InstitutionNameField =>
        case RollNumberField =>
        case NameField =>
        case SampleIdField =>
        case TimeMinsField =>
        case PhLevelField =>
        case TemperatureField =>
        case NicoteneField =>
        case SubstanceDetectedField =>
        case UserTypeField =>
      }
    }
  }

  lemma IssuesNonEmpty(input: SchemaInput)
    requires !Accepts(input)
    ensures Issues(input) != {}
  {
    EveryFieldListed();
    var f :| !FieldOk(input, f);
    assert f in Issues(input);
  }

  lemma EveryFieldListed()
    ensures forall f: Field :: f in AllFields
  {
    forall f: Field ensures f in AllFields {
      match f
      case InstitutionNameField =>
      case RollNumberField =>
      case NameField =>
      case SampleIdField =>
      case TimeMinsField =>
      case PhLevelField =>
      case TemperatureField =>
      case NicoteneField =>
      case SubstanceDetectedField =>
      case UserTypeField =>
    }
  }
}
