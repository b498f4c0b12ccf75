/** One pin's controller (`Gpio`): a mirror of the pin's five attribute
    files, four toggles that select what to write, and the Back/Prev/Next
    buttons that act on the navigation state shared with the panel. */
module GpioPin {
  import opened Text
  import opened Sysfs
  import opened Toggles
  import opened Navigation

  /** The toggle indices the detail view starts from, decoded from the
      fetched direction, value, active-low and edge texts. */
  function InitialToggles(st: PinState): (toggles: (int, int, int, int))
  {
    (DirectionToggle(st.direction), LevelToggle(st.value),
     LevelToggle(st.activeLow), EdgeToggle(st.edge))
  }

  class Gpio {
    /** The pin's sysfs directory, e.g. "/sys/class/gpio/gpio17". */
    const path: string
    /** The panel's navigation state, shared by every pin. */
    const nav: NavState

    var pinLabel: string
    var edge: string
    var direction: string
    var value: string
    var activeLow: string

    var ioTog: int
    var activeTog: int
    var valTog: int
    var edgeTog: int

    /** The mirrored attribute strings. */
    function State(): (st: PinState)
      reads this
    {
      PinState(pinLabel, edge, direction, value, activeLow)
    }

    /** The four toggle indices: direction, value, active-low, edge. */
    function ToggleState(): (toggles: (int, int, int, int))
      reads this
    {
      (ioTog, valTog, activeTog, edgeTog)
    }

    /** The toggles agree with the mirrored strings, as they do right after
        construction. */
    predicate TogglesMatchState()
      reads this
    {
      ToggleState() == InitialToggles(State())
    }

    /** The controller shows what its files hold, with toggles to match. */
    predicate Mirrors(files: map<string, string>)
      reads this
    {
      State() == Fetched(files, path) && TogglesMatchState()
    }

    /** Fetches the pin's attributes, then initialises the toggles from them. */
    constructor (fs: SysFs, path: string, nav: NavState)
      ensures this.path == path && this.nav == nav
      ensures Mirrors(fs.files)
    {
      this.path := path;
      this.nav := nav;
      ioTog, activeTog, valTog, edgeTog := 0, 0, 0, 3;
      new;
      Fetch(fs);
      InitToggles();
    }

    /** Opens one attribute file of this pin and reads its first line, or
        yields the attribute's default when the file cannot be opened. */
    method ReadAttribute(fs: SysFs, a: Attr) returns (text: string)
      ensures AttrPath(path, a) in fs.files ==> text == FirstLine(fs.files[AttrPath(path, a)])
      ensures AttrPath(path, a) !in fs.files ==> text == Default(a)
    {
      var p := AttrPath(path, a);
      if p in fs.files {
        text := FirstLine(fs.files[p]);
      } else {
        text := Default(a);
      }
    }

    /** Reads the five attribute files in turn; a file that cannot be opened
        yields its default. */
    method Fetch(fs: SysFs)
      modifies this
      ensures State() == Fetched(fs.files, path)
      ensures ToggleState() == old(ToggleState())
    {
      pinLabel := ReadAttribute(fs, Label);
      edge := ReadAttribute(fs, Edge);
      direction := ReadAttribute(fs, Direction);
      value := ReadAttribute(fs, Value);
      activeLow := ReadAttribute(fs, ActiveLow);
    }

    /** Sets each toggle from the text last fetched. */
    method InitToggles()
      modifies this
      ensures State() == old(State())
      ensures TogglesMatchState()
    {
      ioTog := if direction == "out" then 1 else 0;
      valTog := if value == "1" then 1 else 0;
      activeTog := if activeLow == "1" then 1 else 0;
      if edge == "rising" {
        edgeTog := 0;
      } else if edge == "falling" {
        edgeTog := 1;
      } else if edge == "both" {
        edgeTog := 2;
      } else {
        edgeTog := 3;
      }
    }

    /** Writes one attribute file, then fetches all five again. */
    method Store(fs: SysFs, a: Attr, text: string)
      modifies this, fs
      ensures fs.files == Written(old(fs.files), AttrPath(path, a), text)
      ensures State() == Fetched(fs.files, path)
      ensures ToggleState() == old(ToggleState())
    {
      fs.Write(AttrPath(path, a), text);
      Fetch(fs);
    }

    method StoreDirection(fs: SysFs, text: string)
      modifies this, fs
      ensures fs.files == Written(old(fs.files), AttrPath(path, Direction), text)
      ensures State() == Fetched(fs.files, path)
      ensures ToggleState() == old(ToggleState())
    {
      Store(fs, Direction, text);
    }

    method StoreEdge(fs: SysFs, text: string)
      modifies this, fs
      ensures fs.files == Written(old(fs.files), AttrPath(path, Edge), text)
      ensures State() == Fetched(fs.files, path)
      ensures ToggleState() == old(ToggleState())
    {
      Store(fs, Edge, text);
    }

    method StoreValue(fs: SysFs, text: string)
      modifies this, fs
      ensures fs.files == Written(old(fs.files), AttrPath(path, Value), text)
      ensures State() == Fetched(fs.files, path)
      ensures ToggleState() == old(ToggleState())
    {
      Store(fs, Value, text);
    }

    method StoreActiveLow(fs: SysFs, text: string)
      modifies this, fs
      ensures fs.files == Written(old(fs.files), AttrPath(path, ActiveLow), text)
      ensures State() == Fetched(fs.files, path)
      ensures ToggleState() == old(ToggleState())
    {
      Store(fs, ActiveLow, text);
    }

    /** Enter on the direction toggle: writes "in" for index 0 and "out" for
        any other. When the file exists the fetched direction then decodes to
        the toggle it came from; when it does not, the write is lost and the
        direction shows its default "in". */
    method HandleDirection(fs: SysFs)
      modifies this, fs
      ensures fs.files == Written(old(fs.files), AttrPath(path, Direction), DirectionText(ioTog))
      ensures AttrPath(path, Direction) in old(fs.files) ==>
                State() == Fetched(old(fs.files), path).(direction := DirectionText(ioTog))
      ensures AttrPath(path, Direction) !in old(fs.files) ==>
                State() == Fetched(old(fs.files), path) && direction == "in"
      ensures ToggleState() == old(ToggleState())
      ensures AttrPath(path, Direction) in old(fs.files) && 0 <= ioTog < 2 ==>
                DirectionToggle(direction) == ioTog
      ensures old(Mirrors(fs.files)) && 0 <= ioTog < 2 ==> Mirrors(fs.files)
    {
      StoreDirection(fs, DirectionText(ioTog));
      FetchedAfterLineWrite(old(fs.files), path, Direction, DirectionText(ioTog));
    }

    /** Enter on the value toggle: writes "0" for index 0 and "1" for any
        other; a missing file shows its default "0". */
    method HandleValue(fs: SysFs)
      modifies this, fs
      ensures fs.files == Written(old(fs.files), AttrPath(path, Value), LevelText(valTog))
      ensures AttrPath(path, Value) in old(fs.files) ==>
                State() == Fetched(old(fs.files), path).(value := LevelText(valTog))
      ensures AttrPath(path, Value) !in old(fs.files) ==>
                State() == Fetched(old(fs.files), path) && value == "0"
      ensures ToggleState() == old(ToggleState())
      ensures AttrPath(path, Value) in old(fs.files) && 0 <= valTog < 2 ==>
                LevelToggle(value) == valTog
      ensures old(Mirrors(fs.files)) && 0 <= valTog < 2 ==> Mirrors(fs.files)
    {
      StoreValue(fs, LevelText(valTog));
      FetchedAfterLineWrite(old(fs.files), path, Value, LevelText(valTog));
    }

    /** Enter on the active-low toggle: writes "0" for index 0 and "1" for
        any other; a missing file shows its default "0". */
    method HandleActiveLow(fs: SysFs)
      modifies this, fs
      ensures fs.files == Written(old(fs.files), AttrPath(path, ActiveLow), LevelText(activeTog))
      ensures AttrPath(path, ActiveLow) in old(fs.files) ==>
                State() == Fetched(old(fs.files), path).(activeLow := LevelText(activeTog))
      ensures AttrPath(path, ActiveLow) !in old(fs.files) ==>
                State() == Fetched(old(fs.files), path) && activeLow == "0"
      ensures ToggleState() == old(ToggleState())
      ensures AttrPath(path, ActiveLow) in old(fs.files) && 0 <= activeTog < 2 ==>
                LevelToggle(activeLow) == activeTog
      ensures old(Mirrors(fs.files)) && 0 <= activeTog < 2 ==> Mirrors(fs.files)
    {
      StoreActiveLow(fs, LevelText(activeTog));
      FetchedAfterLineWrite(old(fs.files), path, ActiveLow, LevelText(activeTog));
    }

    /** Enter on the edge toggle: writes the edge word of indices 0..3; any
        other index writes nothing and fetches nothing. A missing file shows
        its default "none". */
    method HandleEdge(fs: SysFs)
      modifies this, fs
      ensures EdgeText(edgeTog).None? ==>
                fs.files == old(fs.files) && State() == old(State())
      ensures EdgeText(edgeTog).Some? ==>
                fs.files == Written(old(fs.files), AttrPath(path, Edge), EdgeText(edgeTog).value)
      ensures EdgeText(edgeTog).Some? && AttrPath(path, Edge) in old(fs.files) ==>
                State() == Fetched(old(fs.files), path).(edge := EdgeText(edgeTog).value) &&
                EdgeToggle(edge) == edgeTog
      ensures EdgeText(edgeTog).Some? && AttrPath(path, Edge) !in old(fs.files) ==>
                State() == Fetched(old(fs.files), path) && edge == "none"
      ensures ToggleState() == old(ToggleState())
      ensures old(Mirrors(fs.files)) ==> Mirrors(fs.files)
    {
      match edgeTog
      case 0 =>
        StoreEdge(fs, "rising");
        FetchedAfterLineWrite(old(fs.files), path, Edge, "rising");
      case 1 =>
        StoreEdge(fs, "falling");
        FetchedAfterLineWrite(old(fs.files), path, Edge, "falling");
      case 2 =>
        StoreEdge(fs, "both");
        FetchedAfterLineWrite(old(fs.files), path, Edge, "both");
      case 3 =>
        StoreEdge(fs, "none");
        FetchedAfterLineWrite(old(fs.files), path, Edge, "none");
      case _ =>
    }

    /** The Back button: return to the pin list; the cursor is kept. */
    method Back()
      modifies nav
      ensures nav.tab == 0
      ensures nav.selected == old(nav.selected) && nav.limit == old(nav.limit)
    {
      nav.tab := 0;
    }

    /** The Prev button. */
    method Prev()
      modifies nav
      ensures nav.selected == PrevCursor(old(nav.selected), old(nav.limit))
      ensures nav.tab == old(nav.tab) && nav.limit == old(nav.limit)
    {
      nav.selected := nav.selected - 1;
      if nav.selected < 0 {
        nav.selected := if nav.limit > 0 then nav.limit - 1 else 0;
      }
    }

    /** The Next button. */
    method Next()
      modifies nav
      ensures nav.selected == NextCursor(old(nav.selected), old(nav.limit))
      ensures nav.tab == old(nav.tab) && nav.limit == old(nav.limit)
    {
      nav.selected := nav.selected + 1;
      if nav.selected >= nav.limit {
        nav.selected := 0;
      }
    }
  }
}
