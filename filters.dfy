/**
 * The three filter criteria of the viewer. Status and type are chosen from
 * drop-downs whose options are "Any" (the empty string) or a member of the
 * fixed lists; the launch time is the text of a `datetime-local` input.
 */
module Filters {

  const StatusEnum: seq<string> := ["unknown", "active", "retired", "destroyed"]
  const TypeEnum: seq<string> := ["Dragon 1.0", "Dragon 1.1", "Dragon 2.0"]

  datatype StatusChoice = AnyStatus | Unknown | Active | Retired | Destroyed
  datatype TypeChoice = AnyType | Dragon10 | Dragon11 | Dragon20

  datatype Filters = Filters(status: StatusChoice, capsuleType: TypeChoice, originalLaunch: string)

  /** No filter chosen: the state the viewer starts in. */
  const NoFilters: Filters := Filters(AnyStatus, AnyType, "")

  /** The `value` of the selected status option. */
  function StatusText(s: StatusChoice): (t: string)
    ensures t == "" <==> s == AnyStatus
    ensures s != AnyStatus ==> t in StatusEnum
  {
    match s
    case AnyStatus => ""
    case Unknown => StatusEnum[0]
    case Active => StatusEnum[1]
    case Retired => StatusEnum[2]
    case Destroyed => StatusEnum[3]
  }

  /** The `value` of the selected type option. */
  function TypeText(t: TypeChoice): (v: string)
    ensures v == "" <==> t == AnyType
    ensures t != AnyType ==> v in TypeEnum
  {
    match t
    case AnyType => ""
    case Dragon10 => TypeEnum[0]
    case Dragon11 => TypeEnum[1]
    case Dragon20 => TypeEnum[2]
  }

  /** Distinct options carry distinct values. */
  lemma StatusTextInjective(a: StatusChoice, b: StatusChoice)
    requires StatusText(a) == StatusText(b)
    ensures a == b
  {
  }

  lemma TypeTextInjective(a: TypeChoice, b: TypeChoice)
    requires TypeText(a) == TypeText(b)
    ensures a == b
  {
  }

  /**
   * `status || originalLaunch || type`: some criterion is a non-empty string,
   * which is to say the filters differ from the initial ones.
   */
  predicate AnyFilterSet(f: Filters)
    ensures AnyFilterSet(f) <==> f.status != AnyStatus || f.capsuleType != AnyType || f.originalLaunch != ""
    ensures AnyFilterSet(f) <==> f != NoFilters
  {
    StatusText(f.status) != "" || f.originalLaunch != "" || TypeText(f.capsuleType) != ""
  }
}
