/** The detail view's four toggles and the sysfs words they stand for.
    Encoding (toggle index to text) is what the `handle*` methods write;
    decoding (text to toggle index) is how the toggles are initialised from
    the fetched state. */
module Toggles {

  datatype Option<T> = None | Some(value: T)

  /** Direction toggle {IN, OUT}: index 0 writes "in", any other "out". */
  function DirectionText(t: int): (s: string)
  {
    if t == 0 then "in" else "out"
  }

  /** Direction toggle initialised from text: 1 exactly for "out". */
  function DirectionToggle(s: string): (t: int)
    ensures t == 0 || t == 1
    ensures t == 1 <==> s == "out"
    ensures DirectionText(t) == s <==> s == "in" || s == "out"
  {
    if s == "out" then 1 else 0
  }

  /** Value and active-low toggles: index 0 writes "0", any other "1". */
  function LevelText(t: int): (s: string)
  {
    if t == 0 then "0" else "1"
  }

  /** Value and active-low toggles initialised from text: 1 exactly for "1". */
  function LevelToggle(s: string): (t: int)
    ensures t == 0 || t == 1
    ensures t == 1 <==> s == "1"
    ensures LevelText(t) == s <==> s == "0" || s == "1"
  {
    if s == "1" then 1 else 0
  }

  /** The words the edge attribute file accepts. */
  predicate IsEdgeWord(s: string)
  {
    s == "rising" || s == "falling" || s == "both" || s == "none"
  }

  /** Edge toggle {Pos, Neg, Any, None} to text; any other index writes
      nothing. */
  function EdgeText(t: int): (r: Option<string>)
    ensures r.Some? <==> 0 <= t < 4
    ensures r.Some? ==> IsEdgeWord(r.value)
  {
    match t
    case 0 => Some("rising")
    case 1 => Some("falling")
    case 2 => Some("both")
    case 3 => Some("none")
    case _ => None
  }

  /** Edge toggle initialised from text: any unrecognised text selects 3,
      the index of "none". */
  function EdgeToggle(s: string): (t: int)
    ensures 0 <= t < 4
    ensures !(s == "rising" || s == "falling" || s == "both") ==> t == 3
    ensures EdgeText(t) == Some(s) <==> IsEdgeWord(s)
  {
    if s == "rising" then 0
    else if s == "falling" then 1
    else if s == "both" then 2
    else 3
  }

  /** Every index a two-position toggle can hold survives a write and a
      re-initialisation; so does every edge index. */
  lemma ToggleRoundTrip(t: int)
    ensures 0 <= t < 2 ==> DirectionToggle(DirectionText(t)) == t
    ensures 0 <= t < 2 ==> LevelToggle(LevelText(t)) == t
    ensures 0 <= t < 4 ==> EdgeText(t).Some? && EdgeToggle(EdgeText(t).value) == t
  {
  }
}
