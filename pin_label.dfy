/** The header-pin label filter of the GPIO panel: two regular-expression
    searches, `P[12]\.\d+` and `\(P[12]\.\d+[^)]*\)`, stated here directly
    over characters. `\d` is the ASCII digit class of ECMAScript regexes. */
module PinLabel {
  import opened Text

  predicate IsDigit(c: char)
  {
    '0' <= c <= '9'
  }

  /** `s[i..j]` is a match of `P[12]\.\d+`. */
  ghost predicate PinMatch(s: string, i: int, j: int)
  {
    0 <= i && i + 4 <= j <= |s| &&
    s[i] == 'P' && (s[i + 1] == '1' || s[i + 1] == '2') && s[i + 2] == '.' &&
    forall k :: i + 3 <= k < j ==> IsDigit(s[k])
  }

  /** `s[i..j]` is a match of `\(P[12]\.\d+[^)]*\)`: an opening parenthesis,
      a pin match ending at `m`, then characters other than ')' up to a
      closing parenthesis at `j - 1`. */
  ghost predicate ParenMatch(s: string, i: int, j: int)
  {
    exists m :: ParenMatchVia(s, i, m, j)
  }

  /** `s[i..j]` matches the parenthesised pattern with its `\d+` ending at `m`. */
  ghost predicate ParenMatchVia(s: string, i: int, m: int, j: int)
  {
    0 <= i < m < j <= |s| && s[i] == '(' && PinMatch(s, i + 1, m) &&
    (forall k :: m <= k < j - 1 ==> s[k] != ')') && s[j - 1] == ')'
  }

  /** `std::regex_search(s, pin_pattern)`. */
  ghost predicate PinSearch(s: string)
  {
    exists i, j :: PinMatch(s, i, j)
  }

  /** `std::regex_search(s, paren_pattern)`. */
  ghost predicate ParenSearch(s: string)
  {
    exists i, j :: ParenMatch(s, i, j)
  }

  /** The shortest pin token starts at `i`: 'P', '1' or '2', '.', one digit. */
  predicate TokenAt(s: string, i: nat)
  {
    i + 4 <= |s| &&
    s[i] == 'P' && (s[i + 1] == '1' || s[i + 1] == '2') && s[i + 2] == '.' &&
    IsDigit(s[i + 3])
  }

  /** Some pin token starts at or after index `i`. */
  function TokenFrom(s: string, i: nat): (found: bool)
    requires i <= |s|
    decreases |s| - i
  {
    if i + 4 > |s| then false
    else TokenAt(s, i) || TokenFrom(s, i + 1)
  }

  /** The scan from `i` finds a pin token exactly when one starts at or
      after `i`. */
  lemma {:induction false} TokenFromMeaning(s: string, i: nat)
    requires i <= |s|
    ensures TokenFrom(s, i) <==> exists k :: i <= k && TokenAt(s, k)
    decreases |s| - i
  {
    if i + 4 <= |s| {
      TokenFromMeaning(s, i + 1);
      assert forall k :: i <= k && TokenAt(s, k) ==> k == i || i + 1 <= k;
    }
  }

  /** A parenthesised pin token starts at `i` and some ')' follows it. */
  predicate ParenTokenAt(s: string, i: nat)
  {
    i + 5 < |s| && s[i] == '(' && TokenAt(s, i + 1) && ')' in s[i + 5..]
  }

  /** Some parenthesised pin token starts at or after index `i`. */
  function ParenTokenFrom(s: string, i: nat): (found: bool)
    requires i <= |s|
    decreases |s| - i
  {
    if i + 6 > |s| then false
    else ParenTokenAt(s, i) || ParenTokenFrom(s, i + 1)
  }

  /** The scan from `i` finds a parenthesised pin token exactly when one
      starts at or after `i`. */
  lemma {:induction false} ParenTokenFromMeaning(s: string, i: nat)
    requires i <= |s|
    ensures ParenTokenFrom(s, i) <==> exists k :: i <= k && ParenTokenAt(s, k)
    decreases |s| - i
  {
    if i + 6 <= |s| {
      ParenTokenFromMeaning(s, i + 1);
      assert forall k :: i <= k && ParenTokenAt(s, k) ==> k == i || i + 1 <= k;
    }
  }

  /** A match of `P[12]\.\d+` exists exactly when a four-character pin token
      does: the `\d+` needs one digit and may stop after it. */
  lemma PinSearchIsToken(s: string)
    ensures PinSearch(s) <==> exists i :: 0 <= i && TokenAt(s, i)
  {
    if PinSearch(s) {
      var i, j :| PinMatch(s, i, j);
      assert TokenAt(s, i);
    }
    if i :| 0 <= i && TokenAt(s, i) {
      assert PinMatch(s, i, i + 4);
    }
  }

  /** Index of the first ')' in `s` at or after `from`. */
  function FirstClose(s: string, from: nat): (k: nat)
    requires from <= |s| && ')' in s[from..]
    ensures from <= k < |s| && s[k] == ')'
    ensures forall q :: from <= q < k ==> s[q] != ')'
    decreases |s| - from
  {
    if s[from] == ')' then from
    else
      assert s[from..] == [s[from]] + s[from + 1..];
      FirstClose(s, from + 1)
  }

  /** A match of the parenthesised pattern exists exactly when a
      parenthesised token is followed, anywhere later, by ')': the digits
      after the first one can all be absorbed by `[^)]*`. */
  lemma ParenSearchIsToken(s: string)
    ensures ParenSearch(s) <==> exists i :: 0 <= i && ParenTokenAt(s, i)
  {
    if ParenSearch(s) {
      var i, j :| ParenMatch(s, i, j);
      var m :| ParenMatchVia(s, i, m, j);
      assert s[i + 5..][j - 1 - (i + 5)] == ')';
      assert ParenTokenAt(s, i);
    }
    if i :| 0 <= i && ParenTokenAt(s, i) {
      var k := FirstClose(s, i + 5);
      assert PinMatch(s, i + 1, i + 5);
      assert ParenMatchVia(s, i, i + 5, k + 1);
      assert ParenMatch(s, i, k + 1);
    }
  }

  /** The parenthesised search never adds a label: every match of it holds a
      match of the plain pin pattern. */
  lemma ParenSearchImpliesPinSearch(s: string)
    ensures ParenSearch(s) ==> PinSearch(s)
  {
    if ParenSearch(s) {
      var i, j :| ParenMatch(s, i, j);
      var m :| ParenMatchVia(s, i, m, j);
      assert PinMatch(s, i + 1, m);
    }
  }

  /** `GPIOImpl::isBeagleBonePin`: the plain search, then the parenthesised
      one. */
  function IsBeagleBonePin(name: string): (accepted: bool)
  {
    TokenFrom(name, 0) || ParenTokenFrom(name, 0)
  }

  /** The filter accepts exactly the labels in which either regular
      expression finds a match, which are exactly the labels holding 'P',
      then '1' or '2', then '.', then a digit. */
  lemma IsBeagleBonePinMeaning(name: string)
    ensures IsBeagleBonePin(name) <==> PinSearch(name) || ParenSearch(name)
    ensures IsBeagleBonePin(name) <==> exists i :: 0 <= i && TokenAt(name, i)
  {
    TokenFromMeaning(name, 0);
    ParenTokenFromMeaning(name, 0);
    PinSearchIsToken(name);
    ParenSearchIsToken(name);
    ParenSearchImpliesPinSearch(name);
  }

  /** A label without the letter 'P' is never accepted; in particular the
      directory-name fallback `gpio<n>` is never a header pin. */
  lemma NoUpperPNoPin(name: string)
    requires 'P' !in name
    ensures !IsBeagleBonePin(name)
  {
    IsBeagleBonePinMeaning(name);
  }

  /** Sample labels: PocketBeagle P1/P2 header labels, bare or in
      parentheses, are accepted; P9 header labels of other boards and a pin
      name without the '.' are rejected. */
  lemma OtherHeadersRejected()
    ensures IsBeagleBonePin("P1.36")
    ensures IsBeagleBonePin("GPIO3_14 (P2.10)")
    ensures !IsBeagleBonePin("P9.12")
    ensures !IsBeagleBonePin("P1_36")
  {
    IsBeagleBonePinMeaning("P1.36");
    IsBeagleBonePinMeaning("GPIO3_14 (P2.10)");
    IsBeagleBonePinMeaning("P9.12");
    IsBeagleBonePinMeaning("P1_36");
    assert TokenAt("P1.36", 0);
    assert TokenAt("GPIO3_14 (P2.10)", 10);
    var s := "P9.12";
    assert forall i :: 0 <= i && TokenAt(s, i) ==> i == 0;
    var t := "P1_36";
    assert forall i :: 0 <= i && TokenAt(t, i) ==> i == 0;
  }
}
