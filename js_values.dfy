/** JavaScript truthiness, as the `||` defaults of the adapters use it, on the typed optional
    fields of a wire record; relation fields that may arrive expanded; dates as timestamps. */
module JsValues {
  import opened Wrappers

  /** A date: milliseconds since the epoch (UTC). A present date string is never empty, so a
      present `Time` is truthy. */
  type Time = int

  const DayMillis: int := 86400000

  /** `iso.split("T")[0]` read back with `new Date(...)`: midnight (UTC) of the same day. */
  function DayStart(t: Time): (r: Time)
    ensures r <= t < r + DayMillis
    ensures r % DayMillis == 0
  {
    t - t % DayMillis
  }

  predicate TruthyStr(o: Option<string>) {
    o.Some? && o.value != ""
  }

  predicate TruthyNum(o: Option<int>) {
    o.Some? && o.value != 0
  }

  predicate TruthyBool(o: Option<bool>) {
    o == Some(true)
  }

  /** `x || d` for a string field. */
  function OrStr(o: Option<string>, d: string): string {
    if TruthyStr(o) then o.value else d
  }

  /** `x || d` for a number field (`None` is `undefined` or `NaN`). */
  function OrNum(o: Option<int>, d: int): int {
    if TruthyNum(o) then o.value else d
  }

  /** `x || null` for a number. */
  function NumOrNull(o: Option<int>): Option<int> {
    if TruthyNum(o) then o else None
  }

  /** A relation field: a bare id, or the related record expanded to an object with an `Id`. */
  datatype Ref = Scalar(id: int) | Expanded(Id: Option<int>)

  /** An object is truthy whatever it holds; a number unless it is zero. */
  predicate TruthyRef(o: Option<Ref>) {
    match o
    case None => false
    case Some(Scalar(n)) => n != 0
    case Some(Expanded(_)) => true
  }

  /** The id a relation carries, when it carries a truthy one. */
  function CarriedId(o: Option<Ref>): Option<int> {
    match o
    case None => None
    case Some(Scalar(n)) => NumOrNull(Some(n))
    case Some(Expanded(id)) => NumOrNull(id)
  }

  /** `x?.Id || x || null`: the nested id, else the value itself, else null. An expanded
      object without a truthy `Id` passes through as the object. */
  function Unwrap(o: Option<Ref>): (r: Option<Ref>)
    ensures r == None || (r.value.Scalar? && r.value.id != 0) || (r.value.Expanded? && !TruthyNum(r.value.Id))
    ensures CarriedId(o).Some? ==> r == Some(Scalar(CarriedId(o).value))
    ensures r == None <==> !TruthyRef(o)
  {
    match o
    case Some(Expanded(id)) => if TruthyNum(id) then Some(Scalar(id.value)) else o
    case _ => if TruthyRef(o) then o else None
  }

  /** Unwrapping an already unwrapped relation changes nothing. */
  lemma {:induction false} UnwrapIdempotent(o: Option<Ref>)
    ensures Unwrap(Unwrap(o)) == Unwrap(o)
  {
  }

  /** `parseInt(x)` of a relation value: a number reads as itself; an object or null is `NaN`. */
  function ParseRef(o: Option<Ref>): Option<int> {
    match o
    case Some(Scalar(n)) => Some(n)
    case _ => None
  }

  /** `parseInt(x) || null` applied to an unwrapped relation gives back exactly the id that
      the wire relation carried, whether it came bare or expanded. */
  lemma {:induction false} UnwrapThenParse(o: Option<Ref>)
    ensures NumOrNull(ParseRef(Unwrap(o))) == CarriedId(o)
  {
  }
}
