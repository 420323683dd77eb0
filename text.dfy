/** Character and string primitives the pages rely on: JavaScript's `trim`,
    `toLowerCase`, `includes`, and the email shape regular expression
    `^[^\s@]+@[^\s@]+\.[^\s@]+$`. Whitespace and case mapping are restricted
    to ASCII. */
module Text {

  /** The ASCII members of JavaScript's whitespace class (`\s` and `trim`). */
  predicate IsSpace(c: char)
  {
    c == ' ' || c == '\t' || c == '\n' || c == '\r' || c == '\U{000B}' || c == '\U{000C}'
  }

  /** Every character of `s` is whitespace (so the empty string is blank). */
  predicate Blank(s: string)
  {
    forall i :: 0 <= i < |s| ==> IsSpace(s[i])
  }

  /** `s.trimStart()`: drop whitespace from the front. */
  function TrimStart(s: string): (r: string)
    ensures |r| <= |s|
  {
    if s != [] && IsSpace(s[0]) then TrimStart(s[1..]) else s
  }

  /** `s.trimEnd()`: drop whitespace from the back. */
  function TrimEnd(s: string): (r: string)
    ensures |r| <= |s|
  {
    if s != [] && IsSpace(s[|s| - 1]) then TrimEnd(s[..|s| - 1]) else s
  }

  /** `s.trimStart()` is the longest suffix of `s` that does not start with
      whitespace: what it cuts off is blank, and it starts with a non-space. */
  lemma {:induction false} TrimStartSpec(s: string)
    ensures var r := TrimStart(s);
      r == s[|s| - |r|..] && Blank(s[..|s| - |r|]) && (r == [] || !IsSpace(r[0]))
  {
    if s != [] && IsSpace(s[0]) {
      var r := TrimStart(s[1..]);
      TrimStartSpec(s[1..]);
      assert s[1..][|s[1..]| - |r|..] == s[|s| - |r|..];
      assert s[1..][..|s[1..]| - |r|] == s[1..|s| - |r|];
    }
  }

  /** `s.trimEnd()` is the longest prefix of `s` that does not end with
      whitespace: what it cuts off is blank, and it ends with a non-space. */
  lemma {:induction false} TrimEndSpec(s: string)
    ensures var r := TrimEnd(s);
      r == s[..|r|] && Blank(s[|r|..]) && (r == [] || !IsSpace(r[|r| - 1]))
  {
    if s != [] && IsSpace(s[|s| - 1]) {
      var r := TrimEnd(s[..|s| - 1]);
      TrimEndSpec(s[..|s| - 1]);
      assert s[..|s| - 1][..|r|] == s[..|r|];
      assert s[..|s| - 1][|r|..] == s[|r|..|s| - 1];
    }
  }

  /** `s.trim()`. */
  function Trim(s: string): string
  {
    TrimEnd(TrimStart(s))
  }

  /** `r` is `s` with a blank prefix and a blank suffix cut off, and neither
      end of `r` is whitespace: the meaning of trimming, stated without
      reference to how it is computed. */
  ghost predicate IsTrimOf(r: string, s: string)
  {
    exists i, j ::
      0 <= i <= j <= |s| && r == s[i..j] && Blank(s[..i]) && Blank(s[j..]) &&
      (r == [] || (!IsSpace(r[0]) && !IsSpace(r[|r| - 1])))
  }

  lemma TrimMeetsSpec(s: string)
    ensures IsTrimOf(Trim(s), s)
  {
    var t := TrimStart(s);
    var r := TrimEnd(t);
    TrimStartSpec(s);
    TrimEndSpec(t);
    var i := |s| - |t|;
    var j := i + |r|;
    assert r == s[i..j];
    assert s[j..] == t[|r|..];
    if r != [] {
      assert r[0] == t[0];
    }
  }

  /** JavaScript's `length`: the number of UTF-16 code units, where a
      character outside the Basic Multilingual Plane takes two. */
  function Utf16Length(s: string): nat
  {
    if s == [] then 0 else (if s[0] as int > 0xFFFF then 2 else 1) + Utf16Length(s[1..])
  }

  /** Each character takes one or two code units, so the UTF-16 length is
      zero exactly for the empty string and at most twice the character count. */
  lemma {:induction false} Utf16LengthBounds(s: string)
    ensures |s| <= Utf16Length(s) <= 2 * |s|
    ensures Utf16Length(s) == 0 <==> s == []
  {
    if s != [] {
      Utf16LengthBounds(s[1..]);
    }
  }

  /** The trimmed string is empty exactly when the string is all whitespace. */
  lemma TrimEmptyIffBlank(s: string)
    ensures Trim(s) == [] <==> Blank(s)
  {
    var t := TrimStart(s);
    TrimStartSpec(s);
    TrimEndSpec(t);
    if Trim(s) == [] {
      assert t[0..] == t;
      assert t == [];
      assert s[..|s|] == s;
    }
  }

  /** ASCII `toLowerCase` on one character. */
  function ToLower(c: char): char
  {
    if 'A' <= c <= 'Z' then (c as int + 32) as char else c
  }

  /** `s.toLowerCase()`, character by character. */
  function Lower(s: string): (r: string)
    ensures |r| == |s|
  {
    if s == [] then [] else [ToLower(s[0])] + Lower(s[1..])
  }

  lemma {:induction false} LowerAt(s: string, k: nat)
    requires k < |s|
    ensures Lower(s)[k] == ToLower(s[k])
  {
    if k > 0 {
      LowerAt(s[1..], k - 1);
    }
  }

  /** `h` starts with `n`. */
  predicate StartsWith(h: string, n: string)
  {
    |n| <= |h| && h[..|n|] == n
  }

  /** `h.includes(n)`, scanning `h` from the left. */
  predicate Contains(h: string, n: string)
    decreases |h|
  {
    StartsWith(h, n) || (h != [] && Contains(h[1..], n))
  }

  /** `n` occurs in `h` starting at position `i`. */
  ghost predicate OccursAt(n: string, h: string, i: int)
  {
    0 <= i && i + |n| <= |h| && h[i..i + |n|] == n
  }

  /** `n` occurs in `h` at some position: the reference meaning of `includes`. */
  ghost predicate OccursIn(n: string, h: string)
  {
    exists i :: OccursAt(n, h, i)
  }

  /** A slice of `h[1..]` is the slice of `h` one place further on. */
  lemma TailSlice(h: string, i: nat, len: nat)
    requires 0 < |h| && i + len <= |h| - 1
    ensures h[1..][i..i + len] == h[i + 1..i + 1 + len]
  {
    var shifted, direct := h[1..][i..i + len], h[i + 1..i + 1 + len];
    forall k | 0 <= k < len
      ensures shifted[k] == direct[k]
    {
    }
  }

  lemma {:induction false} ContainsIffOccurs(h: string, n: string)
    ensures Contains(h, n) <==> OccursIn(n, h)
    decreases |h|
  {
    if StartsWith(h, n) {
      assert OccursAt(n, h, 0);
    } else if h != [] {
      ContainsIffOccurs(h[1..], n);
      if OccursIn(n, h[1..]) {
        var i :| OccursAt(n, h[1..], i);
        TailSlice(h, i, |n|);
        assert OccursAt(n, h, i + 1);
      }
      if OccursIn(n, h) {
        var i :| OccursAt(n, h, i);
        assert i != 0;
        TailSlice(h, i - 1, |n|);
        assert OccursAt(n, h[1..], i - 1);
      }
    }
  }

  /** A character of the class `[^\s@]`. */
  predicate IsAtomChar(c: char)
  {
    !IsSpace(c) && c != '@'
  }

  /** A match of `[^\s@]+`. */
  predicate IsAtom(s: string)
  {
    |s| > 0 && forall i :: 0 <= i < |s| ==> IsAtomChar(s[i])
  }

  /** The whole string matches `^[^\s@]+@[^\s@]+\.[^\s@]+$`: three runs of
      non-space, non-`@` characters joined by `@` and `.`. */
  ghost predicate MatchesEmailPattern(s: string)
  {
    exists a, b, c :: SplitsAs(s, a, b, c)
  }

  /** `s` is the address `a@b.c` with three runs `a`, `b` and `c`. */
  ghost predicate SplitsAs(s: string, a: string, b: string, c: string)
  {
    IsAtom(a) && IsAtom(b) && IsAtom(c) && s == Address(a, b, c)
  }

  /** The address `a@b.c`. */
  function Address(a: string, b: string, c: string): string
  {
    a + ("@" + (b + ("." + c)))
  }

  /** The domain part `[^\s@]+\.[^\s@]+`: one run with a dot strictly inside it. */
  predicate IsDomain(d: string)
  {
    IsAtom(d) && exists k :: 0 < k < |d| - 1 && d[k] == '.'
  }

  /** The regular-expression test as a scan for the `@` position. */
  predicate IsEmailShape(s: string)
  {
    exists i :: 0 < i < |s| && s[i] == '@' && IsAtom(s[..i]) && IsDomain(s[i + 1..])
  }

  /** Gluing three runs with `@` and `.` gives a string that passes the scan. */
  lemma PatternImpliesShape(a: string, b: string, c: string)
    requires IsAtom(a) && IsAtom(b) && IsAtom(c)
    ensures IsEmailShape(Address(a, b, c))
  {
    var s := Address(a, b, c);
    var i := |a|;
    var d := b + ("." + c);
    assert s[..i] == a;
    assert s[i + 1..] == d;
    assert d[|b|] == '.';
    forall j | 0 <= j < |d| ensures IsAtomChar(d[j]) {
      if j < |b| {
        assert d[j] == b[j];
      } else if j > |b| {
        assert d[j] == c[j - |b| - 1];
      }
    }
    assert IsDomain(d);
  }

  /** A non-empty slice of a run is a run. */
  lemma AtomSlice(d: string, i: int, j: int)
    requires IsAtom(d) && 0 <= i < j <= |d|
    ensures IsAtom(d[i..j])
  {
    forall k | 0 <= k < j - i ensures IsAtomChar(d[i..j][k]) {
      assert d[i..j][k] == d[i + k];
    }
  }

  /** Cutting `s` at an `@` at position `i` and a dot at position `j` of
      the part after it gives the three runs of the pattern. */
  lemma SplitAt(s: string, i: int, j: int)
    requires 0 < i && i + 1 < j < |s| - 1
    requires s[i] == '@' && s[j] == '.'
    requires IsAtom(s[..i]) && IsAtom(s[i + 1..])
    ensures SplitsAs(s, s[..i], s[i + 1..j], s[j + 1..])
  {
    var d := s[i + 1..];
    AtomSlice(d, 0, j - i - 1);
    AtomSlice(d, j - i, |d|);
    assert d[0..j - i - 1] == s[i + 1..j];
    assert d[j - i..|d|] == s[j + 1..];
    assert s[i + 1..] == s[i + 1..j] + ("." + s[j + 1..]);
    assert s == s[..i] + ("@" + s[i + 1..]);
  }

  /** Every string that passes the scan matches the pattern. */
  lemma ShapeImpliesPattern(s: string)
    requires IsEmailShape(s)
    ensures MatchesEmailPattern(s)
  {
    var i :| 0 < i < |s| && s[i] == '@' && IsAtom(s[..i]) && IsDomain(s[i + 1..]);
    var k :| 0 < k < |s[i + 1..]| - 1 && s[i + 1..][k] == '.';
    SplitAt(s, i, i + 1 + k);
  }

  /** The scan accepts exactly the strings the regular expression matches. */
  lemma EmailShapeIffPattern(s: string)
    ensures IsEmailShape(s) <==> MatchesEmailPattern(s)
  {
    if IsEmailShape(s) {
      ShapeImpliesPattern(s);
    }
    if MatchesEmailPattern(s) {
      var a, b, c :| SplitsAs(s, a, b, c);
      PatternImpliesShape(a, b, c);
    }
  }

  /** A string matching the email pattern is not blank, and its first and last
      characters are not whitespace: surrounding spaces make an address invalid. */
  lemma EmailPatternHasNoEdgeSpace(s: string)
    requires MatchesEmailPattern(s)
    ensures !Blank(s)
    ensures !IsSpace(s[0]) && !IsSpace(s[|s| - 1])
  {
    var a, b, c :| SplitsAs(s, a, b, c);
    assert s[0] == a[0];
    assert s[|s| - 1] == c[|c| - 1];
  }
}
