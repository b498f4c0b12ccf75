/** Character-sequence helpers standing in for the parts of std::string,
    std::getline and std::filesystem::path that the GPIO panel uses. */
module Text {

  /** The first line of a stream's content, as `std::getline` extracts it:
      everything before the first newline (the newline itself is dropped). */
  function FirstLine(s: string): (line: string)
  {
    if s == [] then []
    else if s[0] == '\n' then []
    else [s[0]] + FirstLine(s[1..])
  }

  /** The first line is the longest newline-free prefix: a prefix, without
      a newline, that stops at the end of the text or at a newline. */
  lemma {:induction false} FirstLineIsLine(s: string)
    ensures |FirstLine(s)| <= |s| && FirstLine(s) == s[..|FirstLine(s)|]
    ensures '\n' !in FirstLine(s)
    ensures |FirstLine(s)| < |s| ==> s[|FirstLine(s)|] == '\n'
  {
    if s != [] && s[0] != '\n' {
      FirstLineIsLine(s[1..]);
    }
  }

  /** A text that holds no newline is its own first line. */
  lemma {:induction false} FirstLineOfSingleLine(s: string)
    requires '\n' !in s
    ensures FirstLine(s) == s
  {
    if s != [] {
      assert s[0] != '\n';
      assert '\n' !in s[1..];
      FirstLineOfSingleLine(s[1..]);
    }
  }

  /** `sub` occurs in `s` starting at index `i`. */
  ghost predicate OccursAt(s: string, sub: string, i: int)
  {
    0 <= i && i + |sub| <= |s| && s[i..i + |sub|] == sub
  }

  /** `s.find(p) == 0`: the string starts with `p`. */
  function StartsWith(s: string, p: string): (starts: bool)
  {
    |p| <= |s| && s[..|p|] == p
  }

  /** `s.find(sub) != npos`: `sub` occurs somewhere in `s`. */
  function Contains(s: string, sub: string): (found: bool)
    decreases |s|
  {
    if StartsWith(s, sub) then true
    else if |s| <= |sub| then false
    else Contains(s[1..], sub)
  }

  /** The search succeeds exactly when some occurrence of `sub` lies within
      `s`. */
  lemma {:induction false} ContainsMeaning(s: string, sub: string)
    ensures Contains(s, sub) <==> exists i :: OccursAt(s, sub, i)
    decreases |s|
  {
    assert StartsWith(s, sub) <==> OccursAt(s, sub, 0);
    if !StartsWith(s, sub) {
      if |s| <= |sub| {
        assert forall i :: OccursAt(s, sub, i) ==> i == 0;
      } else {
        ContainsMeaning(s[1..], sub);
        assert forall i :: OccursAt(s[1..], sub, i) <==> OccursAt(s, sub, i + 1);
        assert forall i :: OccursAt(s, sub, i) ==> i == 0 || OccursAt(s[1..], sub, i - 1);
      }
    }
  }

  /** `path.filename()`: the part of a path after its last '/'. */
  function FileName(path: string): (name: string)
  {
    if path == [] then []
    else if path[|path| - 1] == '/' then []
    else FileName(path[..|path| - 1]) + [path[|path| - 1]]
  }

  /** The file name is the longest slash-free suffix of the path: a suffix,
      without a '/', that starts at the beginning or right after a '/'. */
  lemma {:induction false} FileNameIsLastComponent(path: string)
    ensures |FileName(path)| <= |path| && FileName(path) == path[|path| - |FileName(path)|..]
    ensures '/' !in FileName(path)
    ensures |FileName(path)| < |path| ==> path[|path| - |FileName(path)| - 1] == '/'
  {
    if path != [] && path[|path| - 1] != '/' {
      var init := path[..|path| - 1];
      FileNameIsLastComponent(init);
      assert path[|path| - |FileName(path)|..] == init[|init| - |FileName(init)|..] + [path[|path| - 1]];
    }
  }
}
