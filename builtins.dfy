/** The few Python built-ins the program's logic rests on, on `string` = `seq<char>`:
    `str.find`, `str.split(sep)[1]`, `str.replace` of one character, `str(int)`,
    `int(str)` in base 10, and `posixpath.join`. */
module Builtins {
  import opened Wrappers

  /** `pat` occurs in `s` starting at index `i`. */
  predicate OccursAt(s: string, pat: string, i: nat) {
    i + |pat| <= |s| && s[i..i + |pat|] == pat
  }

  /** The first occurrence of `pat` in `s` at index `from` or later. */
  function FindFrom(s: string, pat: string, from: nat): (r: Option<nat>)
    requires from <= |s|
    ensures r.Some? ==> from <= r.value && OccursAt(s, pat, r.value)
    ensures r.Some? ==> forall i: nat :: from <= i < r.value ==> !OccursAt(s, pat, i)
    ensures r.None? ==> forall i: nat :: from <= i ==> !OccursAt(s, pat, i)
    decreases |s| - from
  {
    if OccursAt(s, pat, from) then Some(from)
    else if from == |s| then None
    else FindFrom(s, pat, from + 1)
  }

  /** `s.find(pat)`: the index of the first occurrence of `pat` in `s`, None where Python gives -1. */
  function Find(s: string, pat: string): (r: Option<nat>)
    ensures r.Some? ==> OccursAt(s, pat, r.value)
    ensures r.Some? ==> forall i: nat :: i < r.value ==> !OccursAt(s, pat, i)
    ensures r.None? ==> forall i: nat :: !OccursAt(s, pat, i)
  {
    FindFrom(s, pat, 0)
  }

  /** An occurrence of `pat` inside a prefix of `s` is an occurrence in `s`. */
  lemma OccursInPrefix(s: string, pat: string, k: nat, i: nat)
    requires k <= |s| && OccursAt(s[..k], pat, i)
    ensures OccursAt(s, pat, i)
  {
    assert s[..k][i..i + |pat|] == s[i..i + |pat|];
  }

  /** The text before the first occurrence of `pat` does not contain `pat`. */
  lemma BeforeFirst(s: string, pat: string, j: nat)
    requires |pat| > 0 && Find(s, pat) == Some(j)
    ensures forall k: nat :: !OccursAt(s[..j], pat, k)
  {
    forall k: nat | OccursAt(s[..j], pat, k) ensures false {
      OccursInPrefix(s, pat, j, k);
    }
  }

  /** The text of `rest` up to the first occurrence of `sep`, or all of it. */
  function UpToFirst(rest: string, sep: string): (t: string)
    requires |sep| > 0
    ensures t <= rest
    ensures forall k: nat :: !OccursAt(t, sep, k)
    ensures |t| == |rest| || OccursAt(rest, sep, |t|)
  {
    match Find(rest, sep)
    case None => rest
    case Some(j) =>
      BeforeFirst(rest, sep, j);
      rest[..j]
  }

  /** `s.split(sep)[1]`: the text between the first occurrence of `sep` and the next one
      (or the end of `s`). None where Python raises IndexError: `sep` does not occur. */
  function SplitSecond(s: string, sep: string): (r: Option<string>)
    requires |sep| > 0
    ensures r.None? <==> Find(s, sep).None?
    ensures r.Some? ==> r.value <= s[Find(s, sep).value + |sep|..]
    ensures r.Some? ==> forall i: nat :: !OccursAt(r.value, sep, i)
    ensures r.Some? ==> var rest := s[Find(s, sep).value + |sep|..];
      |r.value| == |rest| || OccursAt(rest, sep, |r.value|)
  {
    match Find(s, sep)
    case None => None
    case Some(i) => Some(UpToFirst(s[i + |sep|..], sep))
  }

  /** `s.replace(a, b)` for single characters `a` and `b`. */
  function ReplaceChar(s: string, a: char, b: char): (r: string)
    ensures |r| == |s|
    ensures forall i :: 0 <= i < |s| && s[i] != a ==> r[i] == s[i]
    ensures forall i :: 0 <= i < |s| && s[i] == a ==> r[i] == b
    ensures a != b ==> a !in r
  {
    seq(|s|, i requires 0 <= i < |s| => if s[i] == a then b else s[i])
  }

  /** The lower-case form of an ASCII capital; every other character is kept. */
  function LowerChar(c: char): (l: char)
    ensures 'A' <= c <= 'Z' ==> l as int == c as int + 32
    ensures !('A' <= c <= 'Z') ==> l == c
  {
    if 'A' <= c <= 'Z' then (c as int + 32) as char else c
  }

  /** `s.lower()` for ASCII letters, character by character. */
  function Lower(s: string): (r: string)
    ensures |r| == |s|
    ensures forall i :: 0 <= i < |s| ==> r[i] == LowerChar(s[i])
  {
    seq(|s|, i requires 0 <= i < |s| => LowerChar(s[i]))
  }

  predicate IsDigit(c: char) {
    '0' <= c <= '9'
  }

  function DigitChar(d: nat): (c: char)
    requires d < 10
    ensures IsDigit(c)
  {
    (('0' as int) + d) as char
  }

  function DigitValue(c: char): (d: nat)
    requires IsDigit(c)
    ensures d < 10 && DigitChar(d) == c
  {
    (c as int) - ('0' as int)
  }

  /** The decimal digits of `n`, most significant first, without leading zeros. */
  function Digits(n: nat): (r: string)
    ensures |r| > 0
    ensures |r| == 1 <==> n < 10
    ensures forall i :: 0 <= i < |r| ==> IsDigit(r[i])
    ensures n > 0 ==> r[0] != '0'
    ensures |r| > 1 ==> r[0] != '0'
    decreases n
  {
    if n < 10 then [DigitChar(n)] else Digits(n / 10) + [DigitChar(n % 10)]
  }

  /** `str(n)` for a Python int: a '-' for a negative number, then the digits. */
  function DecimalString(n: int): (r: string)
    ensures |r| > 0
    ensures n < 0 <==> r[0] == '-'
    ensures n >= 0 ==> IsDigit(r[0])
    ensures forall i :: 0 < i < |r| ==> IsDigit(r[i])
    ensures r == "0" <==> n == 0
    // no leading zero
    ensures n > 0 ==> r[0] != '0'
    ensures n < 0 ==> |r| > 1 && r[1] != '0'
  {
    if n < 0 then "-" + Digits(-n) else Digits(n)
  }

  /** The whitespace `int()` skips around a number, restricted to ASCII (CPython's
      `Py_ISSPACE`). */
  predicate IsSpace(c: char) {
    c == ' ' || c == '\t' || c == '\n' || c == '\r' || c == '\U{B}' || c == '\U{C}'
  }

  predicate AllSpace(s: string) {
    forall k :: 0 <= k < |s| ==> IsSpace(s[k])
  }

  function StripLeft(s: string): (r: string)
    ensures |r| <= |s| && r == s[|s| - |r|..]
    ensures AllSpace(s[..|s| - |r|])
    ensures r == [] || !IsSpace(r[0])
    decreases |s|
  {
    if |s| > 0 && IsSpace(s[0]) then StripLeft(s[1..]) else s
  }

  function StripRight(s: string): (r: string)
    ensures r <= s
    ensures AllSpace(s[|r|..])
    ensures r == [] || !IsSpace(r[|r| - 1])
    decreases |s|
  {
    if |s| > 0 && IsSpace(s[|s| - 1]) then StripRight(s[..|s| - 1]) else s
  }

  /** `s` without the leading and trailing whitespace that `int()` skips. */
  function Strip(s: string): (r: string)
    ensures r == [] || (!IsSpace(r[0]) && !IsSpace(r[|r| - 1]))
    // only whitespace before and after the kept slice is removed
    ensures exists i, j :: 0 <= i <= j <= |s| && r == s[i..j] && AllSpace(s[..i]) && AllSpace(s[j..])
  {
    var l := StripLeft(s);
    var r := StripRight(l);
    var i := |s| - |l|;
    assert r == s[i..i + |r|];
    assert s[i + |r|..] == l[|r|..];
    r
  }

  /** Stripping only removes characters: every character left is one of `s`. */
  lemma StripKeeps(s: string, j: nat)
    requires j < |Strip(s)|
    ensures Strip(s)[j] in s
  {
    var l := StripLeft(s);
    assert Strip(s)[j] == l[j] == s[|s| - |l|..][j];
  }

  /** The digit part of a base-10 literal as `int()` accepts it: digits, where single
      underscores may separate two digits. */
  predicate WellFormedDigits(s: string) {
    && |s| > 0
    && IsDigit(s[0])
    && IsDigit(s[|s| - 1])
    && (forall i :: 0 <= i < |s| ==> IsDigit(s[i]) || s[i] == '_')
    && (forall i :: 0 <= i < |s| - 1 ==> IsDigit(s[i]) || IsDigit(s[i + 1]))
  }

  /** The number the digits of `s` spell, underscores skipped. */
  function DigitsValue(s: string): nat
    requires forall i :: 0 <= i < |s| ==> IsDigit(s[i]) || s[i] == '_'
  {
    if s == [] then 0
    else
      var v := DigitsValue(s[..|s| - 1]);
      if s[|s| - 1] == '_' then v else 10 * v + DigitValue(s[|s| - 1])
  }

  /** `int(s)`: None where Python raises ValueError. A number needs a digit of `s`, and
      only a '-' of `s` makes it negative. */
  function ParseInt(s: string): (r: Option<int>)
    ensures r.Some? ==> exists i :: 0 <= i < |s| && IsDigit(s[i])
    ensures r.Some? && r.value < 0 ==> '-' in s
  {
    var t := Strip(s);
    if |t| > 0 && (t[0] == '+' || t[0] == '-') then
      if WellFormedDigits(t[1..]) then
        StripKeeps(s, 0);
        StripKeeps(s, |t| - 1);
        assert IsDigit(t[|t| - 1]);
        var v: int := DigitsValue(t[1..]);
        Some(if t[0] == '-' then -v else v)
      else None
    else if WellFormedDigits(t) then
      StripKeeps(s, |t| - 1);
      Some(DigitsValue(t))
    else None
  }

  lemma {:induction false} DigitsValueOfDigits(n: nat)
    ensures DigitsValue(Digits(n)) == n
    decreases n
  {
    if n >= 10 {
      var d := Digits(n / 10);
      DigitsValueOfDigits(n / 10);
      assert (d + [DigitChar(n % 10)])[..|d|] == d;
    }
  }

  /** `strip` leaves a string alone that neither starts nor ends with whitespace. */
  lemma StripUnspaced(t: string)
    requires |t| > 0 && !IsSpace(t[0]) && !IsSpace(t[|t| - 1])
    ensures Strip(t) == t
  {
    assert StripLeft(t) == t;
  }

  /** `int(d)` and `int("-" + d)` for a well-formed run of digits `d`. */
  lemma ParseDigits(d: string)
    requires WellFormedDigits(d)
    ensures ParseInt(d) == Some(DigitsValue(d))
    ensures ParseInt("-" + d) == Some(-(DigitsValue(d) as int))
  {
    StripUnspaced(d);
    var t := "-" + d;
    assert t[1..] == d && t[|t| - 1] == d[|d| - 1];
    StripUnspaced(t);
  }

  /** `int(str(n)) == n`: the id a user types back in, as printed, is the id. */
  lemma ParseDecimal(n: int)
    ensures ParseInt(DecimalString(n)) == Some(n)
  {
    var m: nat := if n < 0 then -n else n;
    assert WellFormedDigits(Digits(m));
    ParseDigits(Digits(m));
    DigitsValueOfDigits(m);
  }

  /** `posixpath.join(a, b)`: an absolute `b` replaces `a`; otherwise one '/' joins them
      unless `a` is empty or already ends in '/'. */
  function JoinPath(a: string, b: string): (r: string)
    ensures |b| <= |r| && r[|r| - |b|..] == b
    ensures |b| > 0 && b[0] == '/' ==> r == b
    ensures !(|b| > 0 && b[0] == '/') ==> a <= r && |r| <= |a| + 1 + |b|
    ensures !(|b| > 0 && b[0] == '/') ==>
      var sep := a != [] && a[|a| - 1] != '/';
      |r| == |a| + |b| + (if sep then 1 else 0) && (sep ==> r[|a|] == '/')
  {
    if |b| > 0 && b[0] == '/' then b
    else if a == [] || a[|a| - 1] == '/' then a + b
    else a + "/" + b
  }
}
