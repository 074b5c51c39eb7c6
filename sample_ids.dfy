/**
 * Sample-id allocation (routes/dataEntryRoutes.js): read the entry with the
 * largest sampleId (`findOne().sort({ sampleId: -1 })`) and take one more, or
 * 1 when nothing is stored.
 */
module SampleIds {
  import opened Wrappers
  import opened DataEntryModel

  /** The sampleId of the entry the descending-sort query returns, if any. */
  function MaxSampleId(entries: seq<DataEntry>): (m: Option<int>)
    ensures m.None? <==> entries == []
    ensures m.Some? ==> SampleIdTaken(entries, m.value)
    ensures m.Some? ==> forall i :: 0 <= i < |entries| ==> entries[i].sampleId <= m.value
  {
    if entries == [] then None
    else
      var last := entries[|entries| - 1];
      var rest := MaxSampleId(entries[..|entries| - 1]);
      assert entries == entries[..|entries| - 1] + [last];
      if rest.Some? && rest.value >= last.sampleId then rest else Some(last.sampleId)
  }

  /**
   * The id a new submission gets. It exceeds every stored id, so it is not
   * taken; it is 1 on an empty store and positive whenever the stored ids are.
   */
  function NextSampleId(entries: seq<DataEntry>): (next: int)
    ensures entries == [] ==> next == 1
    ensures entries != [] ==> SampleIdTaken(entries, next - 1)
    ensures forall i :: 0 <= i < |entries| ==> entries[i].sampleId < next
    ensures !SampleIdTaken(entries, next)
    ensures (forall i :: 0 <= i < |entries| ==> entries[i].sampleId > 0) ==> next > 0
  {
    var last := MaxSampleId(entries);
    if last.Some? then last.value + 1 else 1
  }

  /** After appending an entry that carries the allocated id, that id is the new maximum. */
  lemma MaxAfterAppend(entries: seq<DataEntry>, e: DataEntry)
    requires e.sampleId == NextSampleId(entries)
    ensures MaxSampleId(entries + [e]) == Some(e.sampleId)
    ensures NextSampleId(entries + [e]) == NextSampleId(entries) + 1
  {
    var s := entries + [e];
    assert s[..|s| - 1] == entries;
  }

  /** Ids 1, 2, ..., n in storage order: what n sequential submissions on an empty store produce. */
  predicate ConsecutiveFromOne(entries: seq<DataEntry>)
  {
    forall i :: 0 <= i < |entries| ==> entries[i].sampleId == i + 1
  }

  /** On such a store the next id is the store's size plus one. */
  lemma NextAfterConsecutive(entries: seq<DataEntry>)
    requires ConsecutiveFromOne(entries)
    ensures NextSampleId(entries) == |entries| + 1
  {
  }
}
