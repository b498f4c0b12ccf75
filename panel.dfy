/** The GPIO panel (`GPIOImpl`): the directory scan that builds one `Gpio`
    controller per exported header pin, the Enter action of the pin list,
    and the choice of what `Render` shows. */
module GpioPanel {
  import opened Text
  import opened PinLabel
  import opened Sysfs
  import opened Navigation
  import opened GpioPin

  /** One entry of the listing of "/sys/class/gpio/". */
  datatype DirEntry = DirEntry(path: string)

  /** Exported pin directories, as opposed to "gpiochipN" and the
      export/unexport files, begin with this. */
  const PinDirPrefix := "/sys/class/gpio/gpio"

  /** The label the scan filters on: the first line of the label file, or the
      directory's own name when there is no label file. */
  function ScanLabel(files: map<string, string>, path: string): (name: string)
  {
    var p := AttrPath(path, Label);
    if p in files then FirstLine(files[p]) else FileName(path)
  }

  /** The three tests an entry must pass to get a controller. */
  predicate Admitted(files: map<string, string>, path: string)
  {
    !Contains(path, "gpiochip") && StartsWith(path, PinDirPrefix) &&
    IsBeagleBonePin(ScanLabel(files, path))
  }

  /** The paths of the listed entries that `keep` accepts, in listing order. */
  function Kept(entries: seq<DirEntry>, keep: string -> bool): (ps: seq<string>)
    ensures |ps| <= |entries|
  {
    if entries == [] then []
    else
      var init, last := entries[..|entries| - 1], entries[|entries| - 1];
      Kept(init, keep) + (if keep(last.path) then [last.path] else [])
  }

  /** Looking at one more entry appends its path exactly when it is kept. */
  lemma KeptStep(entries: seq<DirEntry>, keep: string -> bool, n: nat)
    requires n < |entries|
    ensures Kept(entries[..n + 1], keep) ==
            Kept(entries[..n], keep) + (if keep(entries[n].path) then [entries[n].path] else [])
  {
    assert entries[..n + 1][..n] == entries[..n];
  }

  /** A path is kept exactly when it is listed and accepted. */
  lemma {:induction false} KeptMembers(entries: seq<DirEntry>, keep: string -> bool, p: string)
    ensures p in Kept(entries, keep) <==>
            keep(p) && exists k :: 0 <= k < |entries| && entries[k].path == p
  {
    if entries != [] {
      var n := |entries| - 1;
      var init := entries[..n];
      var last := if keep(entries[n].path) then [entries[n].path] else [];
      assert Kept(entries, keep) == Kept(init, keep) + last;
      KeptMembers(init, keep, p);
      if p in Kept(init, keep) {
        var k :| 0 <= k < |init| && init[k].path == p;
        assert entries[k].path == p;
      } else if p in last {
        assert entries[n].path == p;
      } else {
        forall k | 0 <= k < |entries| && entries[k].path == p
          ensures !keep(p)
        {
          if k < n {
            assert init[k].path == p;
          }
        }
      }
    }
  }

  /** Filtering keeps the listing's order: filtering two listings one after
      the other keeps the first's paths, then the second's. */
  lemma {:induction false} KeptAppend(xs: seq<DirEntry>, ys: seq<DirEntry>, keep: string -> bool)
    ensures Kept(xs + ys, keep) == Kept(xs, keep) + Kept(ys, keep)
    decreases |ys|
  {
    if ys == [] {
      assert xs + ys == xs;
    } else {
      var init := ys[..|ys| - 1];
      assert (xs + ys)[..|xs + ys| - 1] == xs + init;
      KeptAppend(xs, init, keep);
    }
  }

  /** The paths that get a controller, in listing order. */
  function AdmittedPaths(files: map<string, string>, entries: seq<DirEntry>): (ps: seq<string>)
  {
    Kept(entries, path => Admitted(files, path))
  }

  /** Scanning one more entry appends its path exactly when it is admitted. */
  lemma AdmittedPathsStep(files: map<string, string>, entries: seq<DirEntry>, n: nat)
    requires n < |entries|
    ensures AdmittedPaths(files, entries[..n + 1]) ==
            AdmittedPaths(files, entries[..n]) +
            (if Admitted(files, entries[n].path) then [entries[n].path] else [])
  {
    KeptStep(entries, path => Admitted(files, path), n);
  }

  /** Exactly the listed paths that pass all three tests get a controller. */
  lemma AdmittedPathsMembers(files: map<string, string>, entries: seq<DirEntry>, p: string)
    ensures p in AdmittedPaths(files, entries) <==>
            Admitted(files, p) && exists k :: 0 <= k < |entries| && entries[k].path == p
  {
    KeptMembers(entries, path => Admitted(files, path), p);
  }

  /** The scan keeps the listing's order. */
  lemma AdmittedPathsAppend(files: map<string, string>, xs: seq<DirEntry>, ys: seq<DirEntry>)
    ensures AdmittedPaths(files, xs + ys) == AdmittedPaths(files, xs) + AdmittedPaths(files, ys)
  {
    KeptAppend(xs, ys, path => Admitted(files, path));
  }

  /** A directory named like "gpio17" (no 'P' in the name) with no label
      file is never admitted: the directory-name fallback cannot pass the
      header-pin filter. */
  lemma UnlabelledNumberedPinRejected(files: map<string, string>, path: string)
    requires AttrPath(path, Label) !in files
    requires 'P' !in FileName(path)
    ensures !Admitted(files, path)
  {
    NoUpperPNoPin(FileName(path));
  }

  /** `g` is the controller the scan creates for `path`: it mirrors the
      pin's files, its toggles match, and it shares the panel's navigation. */
  ghost predicate FreshController(g: Gpio, files: map<string, string>, path: string, nav: NavState)
    reads g
  {
    g.path == path && g.nav == nav && g.Mirrors(files)
  }

  /** The body of the scan loop without the controller creation: skip
      "gpiochip" paths, keep pin directories, read the label (or fall back to
      the directory name) and filter it. */
  method AdmitEntry(fs: SysFs, gpioPath: string) returns (admit: bool)
    ensures admit == Admitted(fs.files, gpioPath)
  {
    admit := false;
    if !Contains(gpioPath, "gpiochip") && StartsWith(gpioPath, PinDirPrefix) {
      var labelPath := AttrPath(gpioPath, Label);
      var pinName;
      if labelPath in fs.files {
        pinName := FirstLine(fs.files[labelPath]);
      } else {
        pinName := FileName(gpioPath);
      }
      admit := IsBeagleBonePin(pinName);
    }
  }

  /** What `Render` draws. */
  datatype Screen =
    | PinList(entries: seq<string>)
    | NoPins
    | PinDetail(index: nat)

  class GpioImpl {
    /** One controller per admitted pin, in listing order. */
    var children: seq<Gpio>
    /** The menu's entries, refilled from the controllers on every render. */
    var names: seq<string>
    const nav: NavState

    ghost predicate Valid()
      reads this, nav
    {
      nav.limit == |children| &&
      forall i :: 0 <= i < |children| ==> children[i].nav == nav
    }

    /** Creates the shared navigation state, then scans. */
    constructor (fs: SysFs, entries: seq<DirEntry>)
      ensures Valid() && fresh(nav)
      ensures nav.tab == 0 && nav.selected == 0
      ensures |children| == |AdmittedPaths(fs.files, entries)|
      ensures forall i :: 0 <= i < |children| ==>
                FreshController(children[i], fs.files, AdmittedPaths(fs.files, entries)[i], nav)
      ensures forall g :: g in children ==> fresh(g)
      ensures names == []
    {
      nav := new NavState();
      children := [];
      names := [];
      new;
      BuildUI(fs, entries);
    }

    /** Scans the listing of "/sys/class/gpio/" in order and creates a
        controller for every admitted entry, counting them in `limit`. */
    method BuildUI(fs: SysFs, entries: seq<DirEntry>)
      requires children == [] && nav.limit == 0
      modifies this`children, nav`limit
      ensures Valid()
      ensures forall g :: g in children ==> fresh(g)
      ensures |children| == |AdmittedPaths(fs.files, entries)|
      ensures forall i :: 0 <= i < |children| ==>
                FreshController(children[i], fs.files, AdmittedPaths(fs.files, entries)[i], nav)
    {
      ghost var paths: seq<string> := [];
      var n := 0;
      while n < |entries|
        invariant n <= |entries|
        invariant nav.limit == |children|
        invariant forall g :: g in children ==> fresh(g)
        invariant paths == AdmittedPaths(fs.files, entries[..n])
        invariant |children| == |paths|
        invariant forall i :: 0 <= i < |children| ==> FreshController(children[i], fs.files, paths[i], nav)
      {
        var gpioPath := entries[n].path;
        AdmittedPathsStep(fs.files, entries, n);
        var admit := AdmitEntry(fs, gpioPath);
        if admit {
          var gpio := AddPin(fs, gpioPath);
          paths := paths + [gpioPath];
        }
        n := n + 1;
      }
      assert entries[..n] == entries;
    }

    /** Creates the controller of one admitted pin, appends it and counts it. */
    method AddPin(fs: SysFs, gpioPath: string) returns (gpio: Gpio)
      modifies this`children, nav`limit
      ensures fresh(gpio) && FreshController(gpio, fs.files, gpioPath, nav)
      ensures children == old(children) + [gpio]
      ensures nav.limit == old(nav.limit) + 1
    {
      gpio := new Gpio(fs, gpioPath, nav);
      children := children + [gpio];
      nav.limit := nav.limit + 1;
    }

    /** Enter on the pin list: switch to the detail view. */
    method Enter()
      modifies nav
      ensures nav.tab == 1
      ensures nav.selected == old(nav.selected) && nav.limit == old(nav.limit)
    {
      nav.tab := 1;
    }

    /** Refills the menu entries from the controllers' labels, then picks the
        screen: the list outside the detail tab; in the detail tab, the
        empty-state notice when there are no pins, else the selected pin,
        after resetting an out-of-range selection to the first pin. */
    method Render() returns (screen: Screen)
      requires Valid()
      modifies this`names, nav`selected
      ensures Valid() && children == old(children)
      ensures |names| == |children|
      ensures forall i :: 0 <= i < |names| ==> names[i] == children[i].pinLabel
      ensures nav.tab == old(nav.tab)
      ensures old(nav.tab) != 1 ==> screen == PinList(names) && nav.selected == old(nav.selected)
      ensures old(nav.tab) == 1 && children == [] ==>
                screen == NoPins && nav.selected == old(nav.selected)
      ensures old(nav.tab) == 1 && children != [] ==>
                0 <= nav.selected < |children| && screen == PinDetail(nav.selected)
      ensures old(nav.tab) == 1 && children != [] ==>
                nav.selected == if 0 <= old(nav.selected) < |children| then old(nav.selected) else 0
    {
      names := [];
      var i := 0;
      while i < |children|
        invariant i <= |children|
        invariant nav.selected == old(nav.selected)
        invariant |names| == i
        invariant forall k :: 0 <= k < i ==> names[k] == children[k].pinLabel
      {
        names := names + [children[i].pinLabel];
        i := i + 1;
      }

      if nav.tab == 1 {
        if children == [] {
          return NoPins;
        }
        if 0 <= nav.selected < |children| {
          return PinDetail(nav.selected);
        } else {
          nav.selected := 0;
          if children != [] {
            return PinDetail(0);
          }
        }
      }
      return PinList(names);
    }
  }
}
