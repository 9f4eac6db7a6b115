/** The handful of JavaScript value semantics the dashboard's rules lean on:
    request-body and row fields that may be absent, `null`, a number or a string;
    truthiness; `x || d`; destructuring defaults; and `parseInt`. */
module JsValues {
  import opened Text

  datatype Option<+T> = None | Some(value: T) {
    function GetOr(default: T): T {
      match this
      case Some(v) => v
      case None => default
    }
  }

  /** A field value as it reaches the code: missing (`undefined`), SQL `NULL`
      (`null`), an integer number or a string. */
  datatype JsValue = Undefined | Null | Num(n: int) | Str(s: string)

  /** JavaScript truthiness for these values: `undefined`, `null`, `0` and `''` are falsy. */
  predicate Truthy(v: JsValue) {
    match v
    case Undefined => false
    case Null => false
    case Num(n) => n != 0
    case Str(s) => s != ""
  }

  /** `v || d` */
  function Or(v: JsValue, d: JsValue): JsValue {
    if Truthy(v) then v else d
  }

  /** A destructuring default `{ x = d } = body`: only `undefined` is replaced. */
  function WithDefault(v: JsValue, d: JsValue): JsValue {
    if v.Undefined? then d else v
  }

  /** `parseInt(v)` with no radix; `None` is `NaN`. Leading whitespace is
      skipped, one sign is read, then the longest run of decimal digits. */
  function ParseInt(v: JsValue): (r: Option<int>)
    ensures v.Num? ==> r == Some(v.n)
    ensures v.Undefined? || v.Null? ==> r == None
  {
    match v
    case Undefined => None
    case Null => None
    case Num(n) => Some(n)
    case Str(s) => ParseIntText(s)
  }

  function ParseIntText(s: string): Option<int> {
    ParseSigned(TrimStart(s))
  }

  /** The rest of parseInt, after the leading whitespace: an optional sign,
      then the digits. */
  function ParseSigned(t: string): Option<int> {
    var negative := t != [] && t[0] == '-';
    var u := if t != [] && (t[0] == '-' || t[0] == '+') then t[1..] else t;
    var k := LeadingDigits(u);
    if k == 0 then None else Some(Signed(negative, Value(u[..k])))
  }

  /** `parseInt(v) || d`: NaN and zero both fall back to `d`. */
  function ParseIntOr(v: JsValue, d: int): (r: int)
    ensures r == d || r != 0
    ensures ParseInt(v).Some? && ParseInt(v).value != 0 ==> r == ParseInt(v).value
    ensures (ParseInt(v).None? || ParseInt(v) == Some(0)) ==> r == d
  {
    match ParseInt(v)
    case None => d
    case Some(n) => if n != 0 then n else d
  }

  /** parseInt reads back the decimal numeral of any natural number. */
  lemma ParseIntShow(n: nat)
    ensures ParseInt(Str(Show(n))) == Some(n)
  {
    var s := Show(n);
    assert IsDigit(s[0]);
    assert !IsSpace(s[0]) && s[0] != '-' && s[0] != '+';
    assert TrimStart(s) == s;
    LeadingDigitsOf(s, []);
    assert s + [] == s;
    assert s[..|s|] == s;
    ValueShow(n);
  }

  /** A magnitude with its sign. */
  function Signed(negative: bool, n: nat): int {
    var i: int := n;
    if negative then -i else i
  }

  /** How parseInt reads a string: it skips leading whitespace, reads one
      optional sign, then the run of digits up to the first non-digit; with
      no digit there it is NaN. */
  lemma ParseIntReads(w: string, sign: string, d: string, rest: string)
    requires AllSpace(w)
    requires sign == "" || sign == "+" || sign == "-"
    requires AllDigits(d)
    requires rest == [] || !IsDigit(rest[0])
    requires sign == "" && d == [] ==> rest == [] || (!IsSpace(rest[0]) && rest[0] != '+' && rest[0] != '-')
    ensures ParseInt(Str(w + sign + d + rest)) ==
              if d == [] then None else Some(Signed(sign == "-", Value(d)))
  {
    var t := sign + d + rest;
    RegroupFour(w, sign, d, rest);
    SignFirst(sign, d, rest);
    TrimStartSkips(w, t);
    ParseAfterSpace(w + t, t);
    SignedDigits(sign, d, rest);
  }

  lemma RegroupFour(a: string, b: string, c: string, e: string)
    ensures a + b + c + e == a + (b + c + e)
  {
  }

  /** parseInt reads what follows the leading whitespace. */
  lemma ParseAfterSpace(s: string, t: string)
    requires TrimStart(s) == t
    ensures ParseInt(Str(s)) == ParseSigned(t)
  {
  }

  /** A sign, a digit or what the digits stop at is not whitespace. */
  lemma SignFirst(sign: string, d: string, rest: string)
    requires sign == "" || sign == "+" || sign == "-"
    requires AllDigits(d)
    requires sign == "" && d == [] ==> rest == [] || !IsSpace(rest[0])
    ensures var t := sign + d + rest; t == [] || !IsSpace(t[0])
  {
    var t := sign + d + rest;
    if sign != "" {
      assert t[0] == sign[0];
    } else if d != [] {
      assert t[0] == d[0];
    } else {
      assert t == rest;
    }
  }

  /** The same, once the leading whitespace is gone. */
  lemma SignedDigits(sign: string, d: string, rest: string)
    requires sign == "" || sign == "+" || sign == "-"
    requires AllDigits(d)
    requires rest == [] || !IsDigit(rest[0])
    requires sign == "" && d == [] ==> rest == [] || (rest[0] != '+' && rest[0] != '-')
    ensures ParseSigned(sign + d + rest) == if d == [] then None else Some(Signed(sign == "-", Value(d)))
  {
    var u := d + rest;
    assert sign + d + rest == sign + u;
    if sign == "" && d != [] {
      assert u[0] == d[0];
    }
    StripSign(sign, u);
    LeadingDigitsOf(d, rest);
    assert u[..|d|] == d;
  }

  /** The sign parseInt reads is the one written, and the digits follow it. */
  lemma StripSign(sign: string, u: string)
    requires sign == "" || sign == "+" || sign == "-"
    requires sign == "" ==> u == [] || (u[0] != '+' && u[0] != '-')
    ensures var t := sign + u;
            && ((t != [] && t[0] == '-') <==> sign == "-")
            && (if t != [] && (t[0] == '-' || t[0] == '+') then t[1..] else t) == u
  {
    var t := sign + u;
    if sign != "" {
      assert t[0] == sign[0] && t[1..] == u;
    } else {
      assert t == u;
    }
  }

  /** `String(v)` for the values an identifier can arrive as. */
  function ToText(v: JsValue): string {
    match v
    case Undefined => "undefined"
    case Null => "null"
    case Num(n) => IntText(n)
    case Str(s) => s
  }
}
