/**
 * The handful of Python `str` operations the scraper relies on, over
 * `string` (a sequence of Unicode scalar values, as Python's `len` counts).
 * Case mapping, digits and letters are the ASCII subset of Python's Unicode
 * tables; whitespace is Python's full `str.isspace` set.
 */
module Text {

  /** `c.isdigit()`, restricted to the ASCII digits. */
  predicate IsDigit(c: char) {
    '0' <= c <= '9'
  }

  /** `any(char.isdigit() for char in s)` */
  predicate HasDigit(s: string) {
    exists i :: 0 <= i < |s| && IsDigit(s[i])
  }

  /** `c.isalnum()`, restricted to ASCII letters and digits. */
  predicate IsAlnum(c: char) {
    IsDigit(c) || 'a' <= c <= 'z' || 'A' <= c <= 'Z'
  }

  /** The characters Python's `str.strip()` removes. */
  predicate IsSpace(c: char) {
    var n := c as int;
    (9 <= n <= 13) || (28 <= n <= 32) || n == 0x85 || n == 0xA0 || n == 0x1680
    || (0x2000 <= n <= 0x200A) || n == 0x2028 || n == 0x2029 || n == 0x202F
    || n == 0x205F || n == 0x3000
  }

  function LowerChar(c: char): char {
    if 'A' <= c <= 'Z' then (c as int + 32) as char else c
  }

  /** `s.lower()` */
  function Lower(s: string): (r: string)
    ensures |r| == |s|
    ensures forall i :: 0 <= i < |s| ==> r[i] == LowerChar(s[i])
  {
    seq(|s|, i requires 0 <= i < |s| => LowerChar(s[i]))
  }

  /** `sub in s` for strings: `sub` occurs as a contiguous slice of `s`. */
  predicate Contains(s: string, sub: string) {
    exists i | 0 <= i <= |s| - |sub| :: OccursAt(s, sub, i)
  }

  /** `sub` occurs in `s` starting at index `i`. */
  predicate OccursAt(s: string, sub: string, i: int) {
    0 <= i && i + |sub| <= |s| && s[i..i + |sub|] == sub
  }

  /** `s.startswith(p)` */
  predicate StartsWith(s: string, p: string) {
    |p| <= |s| && s[..|p|] == p
  }

  /** `s.rstrip()`: the longest prefix of `s` that does not end in whitespace. */
  function RStrip(s: string): (r: string)
    ensures |r| <= |s| && r == s[..|r|]
    ensures |r| > 0 ==> !IsSpace(r[|r| - 1])
    ensures forall i :: |r| <= i < |s| ==> IsSpace(s[i])
  {
    if |s| == 0 || !IsSpace(s[|s| - 1]) then s else RStrip(s[..|s| - 1])
  }

  /** `s.lstrip()`: the longest suffix of `s` that does not start with whitespace. */
  function LStrip(s: string): (r: string)
    ensures |r| <= |s| && r == s[|s| - |r|..]
    ensures |r| > 0 ==> !IsSpace(r[0])
    ensures forall i :: 0 <= i < |s| - |r| ==> IsSpace(s[i])
  {
    if |s| == 0 || !IsSpace(s[0]) then s else LStrip(s[1..])
  }

  /** `s.strip()` */
  function Strip(s: string): string {
    LStrip(RStrip(s))
  }

  /** What `strip` keeps is one window of `s`, and every non-space character lies inside it. */
  lemma StripWindow(s: string) returns (a: nat)
    ensures a + |Strip(s)| <= |s| && Strip(s) == s[a..a + |Strip(s)|]
    ensures forall i :: 0 <= i < |s| && !IsSpace(s[i]) ==> a <= i < a + |Strip(s)|
  {
    var r := RStrip(s);
    a := |r| - |LStrip(r)|;
    PrefixSuffix(s, r, LStrip(r));
  }

  /** A suffix `l` of a prefix `r` of `s` is the window of `s` that ends where `r` does. */
  lemma PrefixSuffix(s: string, r: string, l: string)
    requires |r| <= |s| && r == s[..|r|] && |l| <= |r| && l == r[|r| - |l|..]
    requires forall i :: |r| <= i < |s| ==> IsSpace(s[i])
    requires forall i :: 0 <= i < |r| - |l| ==> IsSpace(r[i])
    ensures l == s[|r| - |l|..|r|]
    ensures forall i :: 0 <= i < |s| && !IsSpace(s[i]) ==> |r| - |l| <= i < |r|
  {
    forall i | 0 <= i < |s| && !IsSpace(s[i])
      ensures |r| - |l| <= i < |r|
    {
      assert i < |r|;
      assert r[i] == s[i];
    }
  }

  /**
   * A window `t` of `s` starting at `a` that holds every non-space character
   * of `s` holds every occurrence of a word that starts and ends with
   * non-space characters.
   */
  lemma WindowKeepsWord(s: string, t: string, a: nat, w: string, i: nat)
    requires a + |t| <= |s| && t == s[a..a + |t|]
    requires forall k :: 0 <= k < |s| && !IsSpace(s[k]) ==> a <= k < a + |t|
    requires OccursAt(s, w, i) && |w| > 0 && !IsSpace(w[0]) && !IsSpace(w[|w| - 1])
    ensures OccursAt(t, w, i - a) && Contains(t, w)
  {
    assert s[i..i + |w|] == w;
    assert s[i] == w[0] && s[i + |w| - 1] == w[|w| - 1];
    var u := t[i - a..i - a + |w|];
    assert forall j :: 0 <= j < |w| ==> u[j] == s[i..i + |w|][j];
    assert OccursAt(t, w, i - a);
  }

  /** A slice found in `s` is still found once text is added on either side. */
  lemma ContainsWithin(a: string, s: string, b: string, w: string)
    requires Contains(s, w)
    ensures Contains(a + s + b, w)
  {
    var i :| 0 <= i <= |s| - |w| && OccursAt(s, w, i);
    var t := a + s + b;
    assert t[|a| + i..|a| + i + |w|] == s[i..i + |w|];
    assert OccursAt(t, w, |a| + i);
  }

  /** Lower-casing works character by character, so it distributes over concatenation. */
  lemma LowerConcat(a: string, s: string, b: string)
    ensures Lower(a + s + b) == Lower(a) + Lower(s) + Lower(b)
  {
  }

  /** Lower-casing twice is lower-casing once. */
  lemma LowerTwice(s: string)
    ensures Lower(Lower(s)) == Lower(s)
  {
  }

  /** A word that neither starts nor ends with whitespace survives `strip`. */
  lemma StripKeepsWord(s: string, w: string)
    requires Contains(s, w) && |w| > 0 && !IsSpace(w[0]) && !IsSpace(w[|w| - 1])
    ensures Contains(Strip(s), w)
  {
    var i :| 0 <= i <= |s| - |w| && OccursAt(s, w, i);
    var a := StripWindow(s);
    WindowKeepsWord(s, Strip(s), a, w, i);
  }

  /** A digit inside a window of `s` is a digit of the window. */
  lemma WindowKeepsDigit(s: string, t: string, a: nat, i: nat)
    requires a + |t| <= |s| && t == s[a..a + |t|]
    requires forall k :: 0 <= k < |s| && !IsSpace(s[k]) ==> a <= k < a + |t|
    requires i < |s| && IsDigit(s[i])
    ensures HasDigit(t)
  {
    assert !IsSpace(s[i]);
    assert t[i - a] == s[i];
  }

  /** A digit survives `strip`. */
  lemma StripKeepsDigit(s: string)
    requires HasDigit(s)
    ensures HasDigit(Strip(s))
  {
    var i :| 0 <= i < |s| && IsDigit(s[i]);
    var a := StripWindow(s);
    WindowKeepsDigit(s, Strip(s), a, i);
  }

  lemma LowerSpace(c: char)
    ensures IsSpace(LowerChar(c)) == IsSpace(c)
  {
  }

  /** Lower-casing and stripping commute, since no upper-case letter is whitespace. */
  lemma {:induction false} LowerRStrip(s: string)
    ensures Lower(RStrip(s)) == RStrip(Lower(s))
  {
    if |s| > 0 {
      LowerSpace(s[|s| - 1]);
      if IsSpace(s[|s| - 1]) {
        assert Lower(s)[..|s| - 1] == Lower(s[..|s| - 1]);
        LowerRStrip(s[..|s| - 1]);
      }
    }
  }

  lemma {:induction false} LowerLStrip(s: string)
    ensures Lower(LStrip(s)) == LStrip(Lower(s))
  {
    if |s| > 0 {
      LowerSpace(s[0]);
      if IsSpace(s[0]) {
        assert Lower(s)[1..] == Lower(s[1..]);
        LowerLStrip(s[1..]);
      }
    }
  }

  lemma LowerStrip(s: string)
    ensures Lower(Strip(s)) == Strip(Lower(s))
  {
    LowerRStrip(s);
    LowerLStrip(RStrip(s));
  }

  /** `s.split('\n')`: the pieces between line feeds, at least one of them. */
  function Split(s: string): (r: seq<string>)
    ensures |r| >= 1
    ensures forall i :: 0 <= i < |r| ==> '\n' !in r[i]
  {
    if |s| == 0 then [""]
    else
      var rest := Split(s[1..]);
      if s[0] == '\n' then [""] + rest else [[s[0]] + rest[0]] + rest[1..]
  }

  /** `sep.join(xs)` */
  function Join(xs: seq<string>, sep: string): string {
    if |xs| == 0 then ""
    else if |xs| == 1 then xs[0]
    else xs[0] + sep + Join(xs[1..], sep)
  }

  /** Splitting at line feeds loses nothing: joining the pieces back gives the text. */
  lemma {:induction false} JoinSplit(s: string)
    ensures Join(Split(s), "\n") == s
  {
    if |s| > 0 {
      var rest := Split(s[1..]);
      JoinSplit(s[1..]);
      if s[0] == '\n' {
        assert Split(s) == [""] + rest;
        assert Join(Split(s), "\n") == "" + "\n" + Join(rest, "\n");
        assert s == [s[0]] + s[1..];
      } else {
        var r := Split(s);
        assert r == [[s[0]] + rest[0]] + rest[1..];
        if |rest| == 1 {
          assert Join(r, "\n") == [s[0]] + rest[0];
        } else {
          assert r[1..] == rest[1..];
          assert Join(r, "\n") == [s[0]] + rest[0] + "\n" + Join(rest[1..], "\n");
          assert Join(rest, "\n") == rest[0] + "\n" + Join(rest[1..], "\n");
        }
        assert s == [s[0]] + s[1..];
      }
    }
  }
}
