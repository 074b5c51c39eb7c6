/**
 * The stored sample record (models/DataEntry.js): its required fields, the
 * userType enum, the unique sampleId index and the createdAt default, and the
 * check a document passes through when it is saved.
 */
module DataEntryModel {
  import opened Wrappers

  /** The labels the userType enum admits; "Intermediate User" is not one of them. */
  const StoredUserTypes: set<string> := {"Non-user", "Regular User", "Addict"}

  /**
   * A document as `new DataEntry({...})` builds it, before save: every field
   * may be unset; createdAt is always filled in by its default (the clock
   * reading at construction).
   */
  datatype Document = Document(
    institutionName: Option<string>,
    rollNumber: Option<string>,
    name: Option<string>,
    sampleId: Option<int>,
    userType: Option<string>,
    timeMins: Option<real>,
    phLevel: Option<real>,
    nicotene: Option<real>,
    temperature: Option<real>,
    substanceDetected: Option<string>,
    createdBy: Option<string>,
    createdAt: int)

  /** A saved entry: every required field is set; userType and substanceDetected may be absent. */
  datatype DataEntry = DataEntry(
    institutionName: string,
    rollNumber: string,
    name: string,
    sampleId: int,
    userType: Option<string>,
    timeMins: real,
    phLevel: real,
    nicotene: real,
    temperature: real,
    substanceDetected: Option<string>,
    createdBy: string,
    createdAt: int)

  /** Why a save is refused: a schema validation error, or a clash on the unique sampleId index. */
  datatype SaveError = SchemaViolation | DuplicateSampleId

  /** A required String path is satisfied only by a non-empty string. */
  predicate RequiredString(v: Option<string>) { v.Some? && |v.value| > 0 }

  /** The enum validator: an unset userType passes, a set one must be listed. */
  predicate EnumOk(userType: Option<string>) { userType.None? || userType.value in StoredUserTypes }

  /** Every path marked `required: true` is set. */
  predicate RequiredPresent(d: Document)
  {
    && RequiredString(d.institutionName)
    && RequiredString(d.rollNumber)
    && RequiredString(d.name)
    && d.sampleId.Some?
    && d.timeMins.Some?
    && d.phLevel.Some?
    && d.nicotene.Some?
    && d.temperature.Some?
    && RequiredString(d.createdBy)
  }

  /** What a saved entry satisfies by the schema alone. */
  predicate WellFormed(e: DataEntry)
  {
    && |e.institutionName| > 0
    && |e.rollNumber| > 0
    && |e.name| > 0
    && |e.createdBy| > 0
    && EnumOk(e.userType)
  }

  predicate SampleIdTaken(entries: seq<DataEntry>, id: int)
  {
    exists i :: 0 <= i < |entries| && entries[i].sampleId == id
  }

  /** The unique index on sampleId. */
  predicate UniqueSampleIds(entries: seq<DataEntry>)
  {
    forall i, j :: 0 <= i < j < |entries| ==> entries[i].sampleId != entries[j].sampleId
  }

  /**
   * save(): schema validation first (required paths, enum), then the insert,
   * which the unique index refuses when the sampleId is already stored.
   */
  function Save(d: Document, entries: seq<DataEntry>): (r: Result<DataEntry, SaveError>)
    ensures r.Success? <==>
      RequiredPresent(d) && EnumOk(d.userType) && !SampleIdTaken(entries, d.sampleId.value)
    ensures !(RequiredPresent(d) && EnumOk(d.userType)) ==> r == Failure(SchemaViolation)
    ensures r.Success? ==> WellFormed(r.value) && UniqueSampleIds(entries + [r.value]) == UniqueSampleIds(entries)
    ensures r.Success? ==>
      && Some(r.value.institutionName) == d.institutionName
      && Some(r.value.rollNumber) == d.rollNumber
      && Some(r.value.name) == d.name
      && Some(r.value.sampleId) == d.sampleId
      && r.value.userType == d.userType
      && Some(r.value.timeMins) == d.timeMins
      && Some(r.value.phLevel) == d.phLevel
      && Some(r.value.nicotene) == d.nicotene
      && Some(r.value.temperature) == d.temperature
      && r.value.substanceDetected == d.substanceDetected
      && Some(r.value.createdBy) == d.createdBy
      && r.value.createdAt == d.createdAt
  {
    if !(RequiredPresent(d) && EnumOk(d.userType)) then Failure(SchemaViolation)
    else if SampleIdTaken(entries, d.sampleId.value) then Failure(DuplicateSampleId)
    else
      var e := DataEntry(
        d.institutionName.value, d.rollNumber.value, d.name.value, d.sampleId.value,
        d.userType, d.timeMins.value, d.phLevel.value, d.nicotene.value,
        d.temperature.value, d.substanceDetected, d.createdBy.value, d.createdAt);
      AppendFreshKeepsUnique(entries, e);
      Success(e)
  }

  /** Appending an entry whose sampleId is not yet stored keeps the index unique, and only then. */
  lemma AppendFreshKeepsUnique(entries: seq<DataEntry>, e: DataEntry)
    requires !SampleIdTaken(entries, e.sampleId)
    ensures UniqueSampleIds(entries + [e]) == UniqueSampleIds(entries)
  {
    var s := entries + [e];
    if UniqueSampleIds(entries) {
      forall i, j | 0 <= i < j < |s| ensures s[i].sampleId != s[j].sampleId {
        if j == |entries| {
          assert s[i] == entries[i];
        } else {
          assert s[i] == entries[i] && s[j] == entries[j];
        }
      }
    } else {
      var i, j :| 0 <= i < j < |entries| && entries[i].sampleId == entries[j].sampleId;
      assert s[i] == entries[i] && s[j] == entries[j];
    }
  }
}
