/**
 * determineUserType (routes/dataEntryRoutes.js): a first-match-wins decision
 * table over the pH reading and an optional nicotine reading.
 */
module Classifier {
  import opened Wrappers

  /** The four labels the classifier can produce. */
  datatype UserType = NonUser | RegularUser | IntermediateUser | Addict

  /** The string a label is sent and stored as. */
  function Label(t: UserType): string
  {
    match t
    case NonUser => "Non-user"
    case RegularUser => "Regular User"
    case IntermediateUser => "Intermediate User"
    case Addict => "Addict"
  }

  // JavaScript comparisons against a possibly undefined number: every
  // comparison with `undefined` is false.
  predicate JsGt(x: Option<real>, c: real) { x.Some? && x.value > c }
  predicate JsGe(x: Option<real>, c: real) { x.Some? && x.value >= c }
  predicate JsLe(x: Option<real>, c: real) { x.Some? && x.value <= c }

  /**
   * The classifier. The contract describes each label by the region of the
   * (pH, nicotine) plane it covers, independently of the order of the tests:
   * the Addict band is open on both axes, Regular User is the closed box
   * [7, 7.5] x [130, 150], and Intermediate User keeps only what the Regular
   * box has not already taken, so its nicotine band is half-open.
   */
  function Classify(phLevel: real, nicotene: Option<real>): (t: UserType)
    ensures t == Addict <==>
      nicotene.Some? && phLevel > 7.5 && nicotene.value > 150.0
    ensures t == RegularUser <==>
      nicotene.Some? && 7.0 <= phLevel <= 7.5 && 130.0 <= nicotene.value <= 150.0
    ensures t == IntermediateUser <==>
      nicotene.Some? && 7.3 <= phLevel <= 7.5 && 120.0 <= nicotene.value < 130.0
    ensures nicotene.None? ==> t == NonUser
  {
    if phLevel > 7.5 && JsGt(nicotene, 150.0) then Addict
    else if phLevel >= 7.0 && phLevel <= 7.5 && JsGe(nicotene, 130.0) && JsLe(nicotene, 150.0) then RegularUser
    else if phLevel >= 7.3 && phLevel <= 7.5 && JsGe(nicotene, 120.0) && JsLe(nicotene, 130.0) then IntermediateUser
    else NonUser
  }

  /**
   * First match wins at the shared corner: pH 7.5 fails the strict Addict
   * test and lands in the closed Regular box; nicotine 130 in the Intermediate
   * pH range is already Regular.
   */
  lemma BoundaryCases()
    ensures Classify(7.5, Some(150.0)) == RegularUser
    ensures Classify(7.4, Some(130.0)) == RegularUser
    ensures Classify(7.4, Some(129.9)) == IntermediateUser
    ensures Classify(7.6, Some(150.0)) == NonUser
    ensures Classify(8.0, Some(200.0)) == Addict
    ensures Classify(7.2, Some(140.0)) == RegularUser
    ensures Classify(5.0, Some(10.0)) == NonUser
  {
  }
}
