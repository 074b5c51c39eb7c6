/**
 * POST /entry (routes/dataEntryRoutes.js): allocate the next sample id,
 * classify the raw readings, parse the body with the computed sampleId and
 * userType written over the client's, stamp createdBy, save, and answer 201;
 * a schema failure answers 400 and any other failure 500.
 *
 * HandleEntry is the handler as a function of the stored entries and the
 * request; SampleStore.PostEntry performs the same steps on a store object
 * and is proved to agree with it.
 */
module EntryRoute {
  import opened Wrappers
  import opened Classifier
  import opened DataEntryModel
  import opened SampleIds
  import opened EntrySchema
  import opened Auth

  /** The owner recorded when the request carries no authenticated user id. */
  const DefaultCreator := "65f91b89c5521e84a2df8e15"

  /** The request body as parsed JSON; keys the schema does not declare are irrelevant and omitted. */
  datatype RawBody = RawBody(
    institutionName: Value,
    rollNumber: Value,
    name: Value,
    sampleId: Value,
    userType: Value,
    timeMins: Value,
    phLevel: Value,
    temperature: Value,
    nicotene: Value,
    substanceDetected: Value)

  /** Whether, and where, the store fails for this request: the max-id read or the insert. */
  datatype StoreFault = NoFault | ReadFails | WriteFails

  datatype ServerFailure = ReadFailed | SaveRefused(reason: SaveError) | WriteFailed

  datatype Response =
    | Created(entry: DataEntry)
    | ValidationError(issues: set<Field>)
    | InternalError(cause: ServerFailure)

  function Status(r: Response): int
  {
    match r
    case Created(_) => 201
    case ValidationError(_) => 400
    case InternalError(_) => 500
  }

  function Message(r: Response): string
  {
    match r
    case Created(_) => "Data Entered Successfully"
    case ValidationError(_) => "Validation error"
    case InternalError(_) => "Internal server error"
  }

  /**
   * The classifier applied to the raw body, before any validation: a pH that
   * is not a number fails every comparison, and so does a nicotine reading
   * that is not a number.
   */
  function ClassifyBody(body: RawBody): (t: UserType)
    ensures t != NonUser ==> body.phLevel.Num? && body.nicotene.Num?
    ensures body.phLevel.Num? && body.nicotene.Num? ==>
      t == Classify(body.phLevel.n, Some(body.nicotene.n))
  {
    if body.phLevel.Num? then Classify(body.phLevel.n, OptionalOf(body.nicotene)) else NonUser
  }

  /** `{ ...req.body, sampleId, userType }`: the computed values win over the client's. */
  function Spread(body: RawBody, sampleId: int, userType: string): (input: SchemaInput)
    ensures input.sampleId == sampleId && input.userType == userType
  {
    SchemaInput(body.institutionName, body.rollNumber, body.name, sampleId,
                body.timeMins, body.phLevel, body.temperature, body.nicotene,
                body.substanceDetected, userType)
  }

  /** `req.user?.id || DefaultCreator`: a missing user or an empty id falls back. */
  function CreatedBy(user: Option<Claims>): (owner: string)
    ensures |owner| > 0
    ensures user.None? ==> owner == DefaultCreator
    ensures owner != DefaultCreator ==> user.Some? && owner == user.value.id
    ensures user.Some? && user.value.id != "" ==> owner == user.value.id
    ensures user.Some? && user.value.id == "" ==> owner == DefaultCreator
  {
    if user.Some? && user.value.id != "" then user.value.id else DefaultCreator
  }

  /** `new DataEntry({ ...validatedData, createdBy })`, with createdAt defaulting to the clock. */
  function NewDocument(data: Submission, createdBy: string, now: int): (d: Document)
    ensures d.institutionName == Some(data.institutionName)
    ensures d.rollNumber == Some(data.rollNumber) && d.name == Some(data.name)
    ensures d.sampleId == Some(data.sampleId) && d.userType == Some(data.userType)
    ensures d.timeMins == Some(data.timeMins) && d.phLevel == Some(data.phLevel)
    ensures d.temperature == Some(data.temperature)
    ensures d.substanceDetected == data.substanceDetected
    ensures d.createdBy == Some(createdBy) && d.createdAt == now
    // an absent reading stays unset, so it reaches the required check at save
    ensures d.nicotene == data.nicotene
    ensures data.nicotene.None? ==> !RequiredPresent(d)
  {
    Document(
      Some(data.institutionName), Some(data.rollNumber), Some(data.name), Some(data.sampleId),
      Some(data.userType), Some(data.timeMins), Some(data.phLevel), data.nicotene,
      Some(data.temperature), data.substanceDetected, Some(createdBy), now)
  }

  /** The response the handler sends for one request against the given stored entries. */
  function HandleEntry(entries: seq<DataEntry>, body: RawBody, user: Option<Claims>,
                       fault: StoreFault, now: int): (r: Response)
    ensures fault == ReadFails ==> r == InternalError(ReadFailed)
    ensures r.ValidationError? ==>
      && fault != ReadFails
      && r.issues != {}
      && r.issues == Issues(Spread(body, NextSampleId(entries), Label(ClassifyBody(body))))
    ensures r.Created? ==>
      && fault.NoFault?
      && r.entry.sampleId == NextSampleId(entries)
      && !SampleIdTaken(entries, r.entry.sampleId)
      && r.entry.userType == Some(Label(ClassifyBody(body)))
      && r.entry.userType.value in StoredUserTypes
      && r.entry.createdBy == CreatedBy(user)
      && r.entry.createdAt == now
  {
    if fault == ReadFails then InternalError(ReadFailed)
    else
      var nextSampleId := NextSampleId(entries);
      var userType := Label(ClassifyBody(body));
      match Parse(Spread(body, nextSampleId, userType))
      case Failure(issues) => ValidationError(issues)
      case Success(validated) =>
        match Save(NewDocument(validated, CreatedBy(user), now), entries)
        case Failure(reason) => InternalError(SaveRefused(reason))
        case Success(entry) =>
          if fault == WriteFails then InternalError(WriteFailed) else Created(entry)
  }

  /** The stored entries after the handler answered r: one more exactly when r is a 201. */
  function StoreAfter(entries: seq<DataEntry>, r: Response): seq<DataEntry>
  {
    if r.Created? then entries + [r.entry] else entries
  }

  /**
   * What the stored entries satisfy when every one of them came through this
   * handler: the schema's constraints, the positive id the parse demands, and
   * the unique index.
   */
  predicate StoreInvariant(entries: seq<DataEntry>)
  {
    && UniqueSampleIds(entries)
    && forall i :: 0 <= i < |entries| ==> WellFormed(entries[i]) && entries[i].sampleId > 0
  }

  /** The body-level conditions the schema checks, stated on the client's own keys. */
  predicate BodyAccepted(body: RawBody)
  {
    && NonEmptyString(body.institutionName)
    && NonEmptyString(body.rollNumber)
    && NonEmptyString(body.name)
    && NumberWithin(body.timeMins, 0.0, 60.0)
    && NumberWithin(body.phLevel, 1.0, 14.0)
    && IsNumber(body.temperature)
    && OptionalNumber(body.nicotene)
    && OptionalString(body.substanceDetected)
    && ClassifyBody(body) != IntermediateUser
  }

  /**
   * The sample store the handler writes to, as an object whose entry list
   * grows by one on each successful submission.
   */
  class SampleStore {
    var entries: seq<DataEntry>

    ghost predicate Valid()
      reads this
    {
      StoreInvariant(entries)
    }

    constructor ()
      ensures entries == [] && Valid()
    {
      entries := [];
    }

    /** The POST /entry handler, step by step. */
    method PostEntry(body: RawBody, user: Option<Claims>, fault: StoreFault, now: int)
      returns (response: Response)
      modifies this
      ensures response == HandleEntry(old(entries), body, user, fault, now)
      ensures entries == StoreAfter(old(entries), response)
      ensures old(Valid()) ==> Valid()
    {
      if fault == ReadFails {
        response := InternalError(ReadFailed);
        return;
      }
      var nextSampleId := NextSampleId(entries);
      var userType := Label(ClassifyBody(body));
      var validated := Parse(Spread(body, nextSampleId, userType));
      if validated.Failure? {
        response := ValidationError(validated.error);
        return;
      }
      var document := NewDocument(validated.value, CreatedBy(user), now);
      var saved := Save(document, entries);
      if saved.Failure? {
        response := InternalError(SaveRefused(saved.error));
        return;
      }
      if fault == WriteFails {
        response := InternalError(WriteFailed);
        return;
      }
      entries := entries + [saved.value];
      response := Created(saved.value);
      if old(Valid()) {
        HandlerKeepsStoreInvariant(old(entries), body, user, fault, now);
      }
    }
  }

  /** Every response leaves a well-formed store well-formed: no duplicate id, no unlisted label. */
  lemma HandlerKeepsStoreInvariant(entries: seq<DataEntry>, body: RawBody, user: Option<Claims>,
                                   fault: StoreFault, now: int)
    requires StoreInvariant(entries)
    ensures StoreInvariant(StoreAfter(entries, HandleEntry(entries, body, user, fault, now)))
  {
    var r := HandleEntry(entries, body, user, fault, now);
    if r.Created? {
      var s := entries + [r.entry];
      assert r.entry.sampleId == NextSampleId(entries);
      forall i | 0 <= i < |s| ensures WellFormed(s[i]) && s[i].sampleId > 0 {
        if i < |entries| { assert s[i] == entries[i]; }
      }
    }
  }

  /**
   * A 201 happens exactly when the store does not fail, the body passes every
   * schema check (which rules out the Intermediate band) and it carries a
   * nicotine reading, which the stored record requires.
   */
  lemma CreatedExactlyWhen(entries: seq<DataEntry>, body: RawBody, user: Option<Claims>,
                           fault: StoreFault, now: int)
    requires StoreInvariant(entries)
    ensures HandleEntry(entries, body, user, fault, now).Created? <==>
      fault == NoFault && BodyAccepted(body) && body.nicotene.Num?
  {
    var input := Spread(body, NextSampleId(entries), Label(ClassifyBody(body)));
    AcceptsEveryField(input);
    if fault == NoFault && BodyAccepted(body) && body.nicotene.Num? {
      assert Accepts(input);
    }
  }

  /**
   * The two error statuses: 400 exactly when the store read succeeds and the
   * body fails a schema check; 500 exactly when the store read fails, or the
   * body passes the schema but has no nicotine reading or the insert fails.
   */
  lemma ErrorStatusesExactlyWhen(entries: seq<DataEntry>, body: RawBody, user: Option<Claims>,
                                 fault: StoreFault, now: int)
    requires StoreInvariant(entries)
    ensures HandleEntry(entries, body, user, fault, now).ValidationError? <==>
      fault != ReadFails && !BodyAccepted(body)
    ensures HandleEntry(entries, body, user, fault, now).InternalError? <==>
      fault == ReadFails || (BodyAccepted(body) && (body.nicotene.Absent? || fault == WriteFails))
  {
    var input := Spread(body, NextSampleId(entries), Label(ClassifyBody(body)));
    AcceptsEveryField(input);
    if fault != ReadFails && BodyAccepted(body) {
      assert Accepts(input);
    }
  }

  /**
   * On a 201 exactly one entry is appended. It carries the allocated id and
   * the computed label, whatever the client sent for them; the label is the
   * classifier applied to the stored readings; createdBy is the user's id or
   * the default owner; createdAt is the clock reading; every other value is
   * the client's.
   */
  lemma CreatedEntryContents(entries: seq<DataEntry>, body: RawBody, user: Option<Claims>,
                             fault: StoreFault, now: int)
    requires HandleEntry(entries, body, user, fault, now).Created?
    ensures var r := HandleEntry(entries, body, user, fault, now);
      && Status(r) == 201
      && StoreAfter(entries, r) == entries + [r.entry]
      && r.entry.sampleId == NextSampleId(entries)
      && r.entry.userType == Some(Label(Classify(r.entry.phLevel, Some(r.entry.nicotene))))
      && r.entry.createdBy == CreatedBy(user)
      && r.entry.createdAt == now
      && body.institutionName == Str(r.entry.institutionName)
      && body.rollNumber == Str(r.entry.rollNumber)
      && body.name == Str(r.entry.name)
      && body.timeMins == Num(r.entry.timeMins)
      && body.phLevel == Num(r.entry.phLevel)
      && body.temperature == Num(r.entry.temperature)
      && body.nicotene == Num(r.entry.nicotene)
      && r.entry.substanceDetected == OptionalText(body.substanceDetected)
  {
  }

  /**
   * The schema's enum omits "Intermediate User": a sample the classifier puts
   * in that band is refused with 400, the userType key among the issues, and
   * nothing is stored.
   */
  lemma IntermediateUserRejected(entries: seq<DataEntry>, body: RawBody, user: Option<Claims>,
                                 fault: StoreFault, now: int)
    requires fault != ReadFails
    requires ClassifyBody(body) == IntermediateUser
    ensures var r := HandleEntry(entries, body, user, fault, now);
      && r.ValidationError? && UserTypeField in r.issues
      && Status(r) == 400 && Message(r) == "Validation error"
      && StoreAfter(entries, r) == entries
  {
  }

  /**
   * The schema lets a missing nicotine reading through but the stored record
   * requires one: such a body fails on save, so the answer is 500 rather than
   * 400, and nothing is stored.
   */
  lemma MissingNicotineIsServerError(entries: seq<DataEntry>, body: RawBody, user: Option<Claims>,
                                     fault: StoreFault, now: int)
    requires StoreInvariant(entries)
    requires fault != ReadFails
    requires BodyAccepted(body) && body.nicotene.Absent?
    ensures var r := HandleEntry(entries, body, user, fault, now);
      && r == InternalError(SaveRefused(SchemaViolation))
      && Status(r) == 500
      && StoreAfter(entries, r) == entries
  {
    var input := Spread(body, NextSampleId(entries), Label(ClassifyBody(body)));
    AcceptsEveryField(input);
    assert Accepts(input);
  }

  /** A pH outside [1, 14] or a duration outside [0, 60] is refused with 400 before anything is saved. */
  lemma OutOfRangeRejected(entries: seq<DataEntry>, body: RawBody, user: Option<Claims>,
                           fault: StoreFault, now: int)
    requires fault != ReadFails
    requires !NumberWithin(body.phLevel, 1.0, 14.0) || !NumberWithin(body.timeMins, 0.0, 60.0)
    ensures var r := HandleEntry(entries, body, user, fault, now);
      && r.ValidationError?
      && (!NumberWithin(body.phLevel, 1.0, 14.0) ==> PhLevelField in r.issues)
      && (!NumberWithin(body.timeMins, 0.0, 60.0) ==> TimeMinsField in r.issues)
      && StoreAfter(entries, r) == entries
  {
  }

  /** The sampleId and userType the client sends have no effect on the outcome. */
  lemma ClientIdAndLabelIgnored(entries: seq<DataEntry>, body: RawBody, user: Option<Claims>,
                                fault: StoreFault, now: int, sampleId: Value, userType: Value)
    ensures HandleEntry(entries, body.(sampleId := sampleId, userType := userType), user, fault, now)
         == HandleEntry(entries, body, user, fault, now)
  {
    var other := body.(sampleId := sampleId, userType := userType);
    assert ClassifyBody(other) == ClassifyBody(body);
    assert forall id, t :: Spread(other, id, t) == Spread(body, id, t);
  }

  /**
   * A pH that is not a number, or a nicotine value that is present but not a
   * number, is refused by the schema whatever label the classifier produced:
   * how such readings compare does not affect the outcome.
   */
  lemma NonNumericReadingRejected(body: RawBody, sampleId: int, userType: string)
    requires !body.phLevel.Num? || body.nicotene.Str? || body.nicotene.OtherJson?
    ensures Parse(Spread(body, sampleId, userType)).Failure?
  {
    var input := Spread(body, sampleId, userType);
    if !body.phLevel.Num? {
      assert !FieldOk(input, PhLevelField);
    } else {
      assert !FieldOk(input, NicoteneField);
    }
  }

  /** Two back-to-back successful submissions get consecutive ids. */
  lemma BackToBackIdsConsecutive(entries: seq<DataEntry>,
      first: RawBody, second: RawBody, user: Option<Claims>, now1: int, now2: int)
    requires HandleEntry(entries, first, user, NoFault, now1).Created?
    requires HandleEntry(entries + [HandleEntry(entries, first, user, NoFault, now1).entry],
                         second, user, NoFault, now2).Created?
    ensures var e1 := HandleEntry(entries, first, user, NoFault, now1).entry;
      HandleEntry(entries + [e1], second, user, NoFault, now2).entry.sampleId == e1.sampleId + 1
  {
    var e1 := HandleEntry(entries, first, user, NoFault, now1).entry;
    MaxAfterAppend(entries, e1);
  }

  /** Sequential submissions starting from an empty store number the stored samples 1, 2, 3, ... */
  lemma SubmissionKeepsIdsConsecutive(entries: seq<DataEntry>, body: RawBody,
      user: Option<Claims>, fault: StoreFault, now: int)
    requires ConsecutiveFromOne(entries)
    ensures ConsecutiveFromOne(StoreAfter(entries, HandleEntry(entries, body, user, fault, now)))
  {
    var r := HandleEntry(entries, body, user, fault, now);
    if r.Created? {
      NextAfterConsecutive(entries);
      var s := entries + [r.entry];
      forall i | 0 <= i < |s| ensures s[i].sampleId == i + 1 {
        if i < |entries| { assert s[i] == entries[i]; }
      }
    }
  }
}
