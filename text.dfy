/** Strings as JavaScript sees them: the whitespace that `String.prototype.trim`
    removes, and decimal digit strings (how identifiers, page numbers and
    counters are written and read back). */
module Text {

  /** The characters `trim` removes: ECMAScript WhiteSpace and LineTerminator. */
  predicate IsSpace(c: char) {
    || c == ' ' || c == '\t' || c == '\n' || c == '\r'
    || c == '\U{0B}' || c == '\U{0C}' || c == '\U{A0}' || c == '\U{FEFF}'
    || c == '\U{1680}' || ('\U{2000}' <= c <= '\U{200A}')
    || c == '\U{2028}' || c == '\U{2029}' || c == '\U{202F}' || c == '\U{205F}'
    || c == '\U{3000}'
  }

  predicate IsDigit(c: char) {
    '0' <= c <= '9'
  }

  predicate AllDigits(s: string) {
    forall i :: 0 <= i < |s| ==> IsDigit(s[i])
  }

  /** No whitespace at either end. */
  predicate Trimmed(s: string) {
    s == [] || (!IsSpace(s[0]) && !IsSpace(s[|s| - 1]))
  }

  /** Every character is whitespace. */
  predicate AllSpace(s: string) {
    s == [] || (IsSpace(s[0]) && AllSpace(s[1..]))
  }

  lemma AllSpaceCons(c: char, t: string)
    requires IsSpace(c) && AllSpace(t)
    ensures AllSpace([c] + t)
  {
    assert ([c] + t)[1..] == t;
  }

  lemma {:induction false} AllSpaceSnoc(t: string, c: char)
    requires AllSpace(t) && IsSpace(c)
    ensures AllSpace(t + [c])
    decreases |t|
  {
    if t != [] {
      AllSpaceSnoc(t[1..], c);
      assert (t + [c])[1..] == t[1..] + [c];
    }
  }

  /** How many whitespace characters `s` starts with. */
  function LeadingSpaces(s: string): (n: nat)
    ensures n <= |s|
    ensures n == |s| || !IsSpace(s[n])
  {
    if s != [] && IsSpace(s[0]) then 1 + LeadingSpaces(s[1..]) else 0
  }

  /** How many whitespace characters `s` ends with. */
  function TrailingSpaces(s: string): (n: nat)
    ensures n <= |s|
    ensures n == |s| || !IsSpace(s[|s| - 1 - n])
  {
    if s != [] && IsSpace(s[|s| - 1]) then 1 + TrailingSpaces(s[..|s| - 1]) else 0
  }

  /** The leading run LeadingSpaces counts is all whitespace. */
  lemma {:induction false} LeadingSpacesAreSpace(s: string)
    ensures AllSpace(s[..LeadingSpaces(s)])
    decreases |s|
  {
    if s != [] && IsSpace(s[0]) {
      var n := LeadingSpaces(s);
      LeadingSpacesAreSpace(s[1..]);
      assert s[..n] == [s[0]] + s[1..][..n - 1];
      AllSpaceCons(s[0], s[1..][..n - 1]);
    }
  }

  /** The trailing run TrailingSpaces counts is all whitespace. */
  lemma {:induction false} TrailingSpacesAreSpace(s: string)
    ensures AllSpace(s[|s| - TrailingSpaces(s)..])
    decreases |s|
  {
    if s != [] && IsSpace(s[|s| - 1]) {
      var n := TrailingSpaces(s);
      var p := s[..|s| - 1];
      TrailingSpacesAreSpace(p);
      assert s[|s| - n..] == p[|p| - (n - 1)..] + [s[|s| - 1]];
      AllSpaceSnoc(p[|p| - (n - 1)..], s[|s| - 1]);
    }
  }

  /** Whitespace followed by text that does not start with whitespace: the
      leading run is exactly that whitespace. */
  lemma {:induction false} LeadingSpacesOf(w: string, t: string)
    requires AllSpace(w)
    requires t == [] || !IsSpace(t[0])
    ensures LeadingSpaces(w + t) == |w|
    decreases |w|
  {
    if w != [] {
      assert (w + t)[0] == w[0];
      assert (w + t)[1..] == w[1..] + t;
      LeadingSpacesOf(w[1..], t);
    } else {
      assert w + t == t;
    }
  }

  /** `trimStart`. */
  function TrimStart(s: string): string {
    s[LeadingSpaces(s)..]
  }

  /** trimStart drops exactly a whitespace prefix followed by text that does
      not start with whitespace. */
  lemma TrimStartSkips(w: string, t: string)
    requires AllSpace(w)
    requires t == [] || !IsSpace(t[0])
    ensures TrimStart(w + t) == t
  {
    LeadingSpacesOf(w, t);
  }

  /** `trimEnd`. */
  function TrimEnd(s: string): string {
    s[..|s| - TrailingSpaces(s)]
  }

  /** `String.prototype.trim`. */
  function Trim(s: string): string {
    TrimEnd(TrimStart(s))
  }

  /** What Trim returns has no whitespace at either end. */
  lemma TrimClean(s: string)
    ensures Trimmed(Trim(s))
  {
    var a := TrimStart(s);
    var r := Trim(s);
    if r != [] {
      assert r[0] == a[0] && r[|r| - 1] == a[|a| - 1 - TrailingSpaces(a)];
    }
  }

  /** What Trim returns is the piece of its input that starts after the
      leading whitespace. */
  lemma TrimSlice(s: string)
    ensures LeadingSpaces(s) + |Trim(s)| <= |s|
    ensures Trim(s) == s[LeadingSpaces(s)..LeadingSpaces(s) + |Trim(s)|]
  {
    SliceOfSuffix(s, LeadingSpaces(s), |Trim(s)|);
  }

  /** What Trim cuts off after the piece it returns is whitespace (what it
      cuts off before it is LeadingSpacesAreSpace). */
  lemma TrimDropsTrailing(s: string)
    ensures LeadingSpaces(s) + |Trim(s)| <= |s|
    ensures AllSpace(s[LeadingSpaces(s) + |Trim(s)|..])
  {
    var a := TrimStart(s);
    TrailingSpacesAreSpace(a);
    SuffixOfSuffix(s, LeadingSpaces(s), |Trim(s)|);
  }

  lemma SliceOfSuffix<T>(s: seq<T>, i: nat, m: nat)
    requires i + m <= |s|
    ensures s[i..][..m] == s[i..i + m]
  {
  }

  lemma SuffixOfSuffix<T>(s: seq<T>, i: nat, m: nat)
    requires i + m <= |s|
    ensures s[i..][m..] == s[i + m..]
  {
  }

  /** Trimming what is already trimmed changes nothing. */
  lemma TrimTrimmed(s: string)
    requires Trimmed(s)
    ensures Trim(s) == s
  {
    assert TrimStart(s) == s;
  }

  lemma TrimIdempotent(s: string)
    ensures Trim(Trim(s)) == Trim(s)
  {
    TrimClean(s);
    TrimTrimmed(Trim(s));
  }

  function DigitChar(d: nat): (c: char)
    requires d < 10
    ensures IsDigit(c)
  {
    ('0' as int + d) as char
  }

  function DigitValue(c: char): (d: nat)
    requires IsDigit(c)
    ensures d < 10 && DigitChar(d) == c
  {
    c as int - '0' as int
  }

  /** A canonical decimal numeral: digits only, no leading zero unless it is "0". */
  predicate Canonical(s: string) {
    |s| > 0 && AllDigits(s) && (s[0] == '0' ==> |s| == 1)
  }

  /** The decimal numeral of `n`, as `String(n)` or `BigInt.prototype.toString` writes it. */
  function Show(n: nat): (r: string)
    ensures Canonical(r)
    decreases n
  {
    if n < 10 then [DigitChar(n)] else Show(n / 10) + [DigitChar(n % 10)]
  }

  /** The number a string of digits denotes. */
  function Value(s: string): nat
    requires AllDigits(s)
  {
    if s == [] then 0 else Value(s[..|s| - 1]) * 10 + DigitValue(s[|s| - 1])
  }

  /** Reading back what Show wrote gives the number. */
  lemma {:induction false} ValueShow(n: nat)
    ensures Value(Show(n)) == n
    decreases n
  {
    if n >= 10 {
      var s := Show(n);
      assert s[..|s| - 1] == Show(n / 10);
      ValueShow(n / 10);
    }
  }

  lemma {:induction false} ValuePositive(s: string)
    requires |s| > 0 && AllDigits(s) && s[0] != '0'
    ensures Value(s) > 0
    decreases |s|
  {
    if |s| > 1 {
      ValuePositive(s[..|s| - 1]);
    }
  }

  /** Writing out the number a canonical numeral denotes gives the numeral back. */
  lemma {:induction false} ShowValue(s: string)
    requires Canonical(s)
    ensures Show(Value(s)) == s
    decreases |s|
  {
    if |s| > 1 {
      var p := s[..|s| - 1];
      ValuePositive(p);
      ShowValue(p);
      var d := DigitValue(s[|s| - 1]);
      assert Value(s) / 10 == Value(p) && Value(s) % 10 == d;
      assert s == p + [s[|s| - 1]];
    }
  }

  /** Length of the run of digits at the front of `s`. */
  function LeadingDigits(s: string): (k: nat)
    ensures k <= |s| && AllDigits(s[..k])
    ensures k < |s| ==> !IsDigit(s[k])
  {
    if s != [] && IsDigit(s[0]) then
      var k := 1 + LeadingDigits(s[1..]);
      assert s[..k] == [s[0]] + s[1..][..k - 1];
      k
    else 0
  }

  /** A digit run followed by a non-digit is read up to that non-digit. */
  lemma {:induction false} LeadingDigitsOf(p: string, rest: string)
    requires AllDigits(p)
    requires rest == [] || !IsDigit(rest[0])
    ensures LeadingDigits(p + rest) == |p|
    decreases |p|
  {
    if p != [] {
      assert (p + rest)[1..] == p[1..] + rest;
      LeadingDigitsOf(p[1..], rest);
    } else {
      assert p + rest == rest;
    }
  }

  /** `String(i)` for an integer. */
  function IntText(i: int): (r: string)
    ensures |r| > 0
  {
    if i < 0 then "-" + Show(-i) else Show(i)
  }
}
