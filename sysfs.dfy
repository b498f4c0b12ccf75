/** The part of the sysfs GPIO tree one pin's controller touches: five text
    attribute files under the pin's directory. The filesystem is a map from
    path to file content; a path is readable exactly when it is a key. */
module Sysfs {
  import opened Text

  /** The attribute files a pin controller reads. */
  datatype Attr = Label | Edge | Direction | Value | ActiveLow

  /** File name of an attribute inside the pin's directory. */
  function FileOf(a: Attr): (name: string)
  {
    match a
    case Label => "label"
    case Edge => "edge"
    case Direction => "direction"
    case Value => "value"
    case ActiveLow => "active_low"
  }

  /** What a pin controller shows for an attribute whose file cannot be opened. */
  function Default(a: Attr): (text: string)
  {
    match a
    case Label => "Unknown"
    case Edge => "none"
    case Direction => "in"
    case Value => "0"
    case ActiveLow => "0"
  }

  /** `path + "/" + name` of an attribute file. */
  function AttrPath(dir: string, a: Attr): (p: string)
  {
    dir + "/" + FileOf(a)
  }

  /** Two attributes of one pin never share a file. */
  lemma AttrPathInjective(dir: string, a: Attr, b: Attr)
    requires AttrPath(dir, a) == AttrPath(dir, b)
    ensures a == b
  {
    var p := AttrPath(dir, a);
    assert p[|dir| + 1..] == FileOf(a);
    assert p[|dir| + 1..] == FileOf(b);
  }

  /** The text a pin controller mirrors for one attribute: the first line of
      its file, or the attribute's default when the file is missing. */
  function ReadAttr(files: map<string, string>, dir: string, a: Attr): (text: string)
  {
    var p := AttrPath(dir, a);
    if p in files then FirstLine(files[p]) else Default(a)
  }

  /** The five strings a `Gpio` object mirrors. */
  datatype PinState = PinState(
    pinLabel: string, edge: string, direction: string, value: string, activeLow: string)
  {
    function Get(a: Attr): (text: string)
    {
      match a
      case Label => pinLabel
      case Edge => edge
      case Direction => direction
      case Value => value
      case ActiveLow => activeLow
    }

    /** This state with one attribute's text replaced. */
    function Set(a: Attr, t: string): (st: PinState)
      ensures st.Get(a) == t
      ensures forall b :: b != a ==> st.Get(b) == Get(b)
    {
      match a
      case Label => this.(pinLabel := t)
      case Edge => this.(edge := t)
      case Direction => this.(direction := t)
      case Value => this.(value := t)
      case ActiveLow => this.(activeLow := t)
    }
  }

  /** The state `Gpio::Fetch` reads from the pin directory `dir`. */
  function Fetched(files: map<string, string>, dir: string): (st: PinState)
  {
    PinState(ReadAttr(files, dir, Label), ReadAttr(files, dir, Edge),
             ReadAttr(files, dir, Direction), ReadAttr(files, dir, Value),
             ReadAttr(files, dir, ActiveLow))
  }

  /** Every mirrored field is a single line, whatever the files hold. */
  lemma FetchedIsSingleLine(files: map<string, string>, dir: string, a: Attr)
    ensures '\n' !in Fetched(files, dir).Get(a)
  {
    if AttrPath(dir, a) in files {
      FirstLineIsLine(files[AttrPath(dir, a)]);
    } else {
      match a
      case Label => assert Default(a) == "Unknown";
      case Edge => assert Default(a) == "none";
      case Direction => assert Default(a) == "in";
      case Value => assert Default(a) == "0";
      case ActiveLow => assert Default(a) == "0";
    }
  }

  /** The files after `std::ofstream(path) << text`. The kernel fixes the set
      of attribute files, so opening one that is not there fails and the
      text is lost; an existing file's content becomes `text`. */
  function Written(files: map<string, string>, path: string, text: string): (w: map<string, string>)
    ensures w.Keys == files.Keys
  {
    if path in files then files[path := text] else files
  }

  /** Writing one attribute file and fetching again changes that field to the
      written text's first line and leaves the other four as they were; a
      write to a missing file changes nothing. */
  lemma FetchedAfterWrite(files: map<string, string>, dir: string, a: Attr, text: string, b: Attr)
    ensures Fetched(Written(files, AttrPath(dir, a), text), dir).Get(b) ==
            if b == a && AttrPath(dir, a) in files then FirstLine(text) else Fetched(files, dir).Get(b)
  {
    if b != a && AttrPath(dir, b) == AttrPath(dir, a) {
      AttrPathInjective(dir, a, b);
    }
  }

  /** Writing a single-line text to an attribute file and fetching again
      gives the state fetched before, with exactly that text in place when
      the file exists and unchanged when it does not. */
  lemma FetchedAfterLineWrite(files: map<string, string>, dir: string, a: Attr, text: string)
    requires '\n' !in text
    ensures Fetched(Written(files, AttrPath(dir, a), text), dir) ==
            if AttrPath(dir, a) in files then Fetched(files, dir).Set(a, text) else Fetched(files, dir)
  {
    FirstLineOfSingleLine(text);
    var before, after := Fetched(files, dir), Fetched(Written(files, AttrPath(dir, a), text), dir);
    var expected := if AttrPath(dir, a) in files then before.Set(a, text) else before;
    forall b ensures after.Get(b) == expected.Get(b) {
      FetchedAfterWrite(files, dir, a, text, b);
    }
    assert after.Get(Label) == expected.Get(Label);
    assert after.Get(Edge) == expected.Get(Edge);
    assert after.Get(Direction) == expected.Get(Direction);
    assert after.Get(Value) == expected.Get(Value);
    assert after.Get(ActiveLow) == expected.Get(ActiveLow);
  }

  /** The sysfs tree, updated in place by attribute writes. */
  class SysFs {
    var files: map<string, string>

    constructor (initial: map<string, string>)
      ensures files == initial
    {
      files := initial;
    }

    /** `std::ofstream(path) << text`: an existing file's content becomes
        `text`; a missing file is not created; no other file changes. */
    method Write(path: string, text: string)
      modifies this
      ensures files == Written(old(files), path, text)
    {
      if path in files {
        files := files[path := text];
      }
    }
  }
}
