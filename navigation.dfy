/** Navigation state shared by the pin list and every pin's detail view: the
    view tab (0 = list, 1 = detail), the selected pin and the pin count. */
module Navigation {

  /** The Prev button: step back; below zero, wrap to the last pin (or to 0
      when there are no pins). */
  function PrevCursor(next: int, limit: int): (r: int)
    ensures 0 <= next < limit ==> r == (next - 1 + limit) % limit
    ensures next == 0 && limit > 0 ==> r == limit - 1
    ensures next == 0 && limit <= 0 ==> r == 0
  {
    if next - 1 < 0 then (if limit > 0 then limit - 1 else 0) else next - 1
  }

  /** The Next button: step forward; at or past the pin count, wrap to 0. */
  function NextCursor(next: int, limit: int): (r: int)
    ensures 0 <= next < limit ==> r == (next + 1) % limit
    ensures next == limit - 1 ==> r == 0
    ensures next == 0 && limit <= 1 ==> r == 0
  {
    if next + 1 >= limit then 0 else next + 1
  }

  /** The cursor addresses a pin, or is 0 when there is none. */
  predicate CursorOk(next: int, limit: int)
  {
    (limit == 0 && next == 0) || 0 <= next < limit
  }

  /** Prev and Next keep a valid cursor valid and undo each other. */
  lemma CursorStepsStayInRange(next: int, limit: int)
    requires CursorOk(next, limit)
    ensures CursorOk(NextCursor(next, limit), limit)
    ensures CursorOk(PrevCursor(next, limit), limit)
    ensures PrevCursor(NextCursor(next, limit), limit) == next
    ensures NextCursor(PrevCursor(next, limit), limit) == next
  {
  }

  /** The three counters the source shares between its views through `int*`
      back-pointers, gathered into one object. */
  class NavState {
    var tab: int
    var selected: int
    var limit: int

    constructor ()
      ensures tab == 0 && selected == 0 && limit == 0
    {
      tab, selected, limit := 0, 0, 0;
    }
  }
}
