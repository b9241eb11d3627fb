/**
 * The parsed JSON values a register table is made of, and the few pieces of Python's
 * dynamic semantics the register engine relies on: truthiness, `len`, `dict.get`, the
 * `in` operator, `isinstance(x, int)`, and the `int()` and `float()` conversions.
 */
module PyValue {
  import opened Wrappers

  /** A value produced by `json.load`: objects are dictionaries keyed by strings. */
  datatype Json =
    | JNull
    | JBool(b: bool)
    | JInt(i: int)
    | JReal(r: real)
    | JStr(s: string)
    | JList(items: seq<Json>)
    | JObject(fields: map<string, Json>)

  /** The exceptions a conversion or an operator on a wrong type raises. */
  datatype PyError = TypeError | ValueError | KeyError | IndexError

  /** Python truthiness, as used by `if not x`. */
  predicate Truthy(j: Json) {
    match j
    case JNull => false
    case JBool(b) => b
    case JInt(i) => i != 0
    case JReal(r) => r != 0.0
    case JStr(s) => s != []
    case JList(xs) => xs != []
    case JObject(m) => m != map[]
  }

  /** `len(x)`; None where Python raises TypeError. */
  function Len(j: Json): (r: Option<nat>)
    ensures r.Some? <==> (j.JStr? || j.JList? || j.JObject?)
    ensures r.Some? ==> (r.value == 0 <==> !Truthy(j))
  {
    match j
    case JStr(s) => Some(|s|)
    case JList(xs) => Some(|xs|)
    case JObject(m) => Some(|m|)
    case _ => None
  }

  /** `x[k]` for an integer index k; the exception Python raises otherwise. */
  function Item(j: Json, k: nat): (r: Result<Json, PyError>)
    ensures j.JList? && k < |j.items| ==> r == Ok(j.items[k])
    ensures r.Ok? <==> (j.JList? && k < |j.items|) || (j.JStr? && k < |j.s|)
  {
    match j
    case JList(xs) => if k < |xs| then Ok(xs[k]) else Err(IndexError)
    case JStr(s) => if k < |s| then Ok(JStr([s[k]])) else Err(IndexError)
    case JObject(_) => Err(KeyError)
    case _ => Err(TypeError)
  }

  /** `d.get(key, default)`. */
  function Get(m: map<string, Json>, key: string, default: Json): (r: Json)
    ensures key in m ==> r == m[key]
    ensures key !in m ==> r == default
  {
    if key in m then m[key] else default
  }

  /** `isinstance(x, int)` with its value: a bool is an int in Python. */
  function AsInt(j: Json): (r: Option<int>)
    ensures r.Some? <==> (j.JInt? || j.JBool?)
    ensures j.JInt? ==> r == Some(j.i)
  {
    match j
    case JInt(i) => Some(i)
    case JBool(b) => Some(if b then 1 else 0)
    case _ => None
  }

  /** The value of a Python number (int, bool or float) for arithmetic; None for other values. */
  function AsNumber(j: Json): (r: Option<real>)
    ensures r.Some? <==> (j.JInt? || j.JBool? || j.JReal?)
    ensures AsInt(j).Some? ==> r == Some(AsInt(j).value as real)
  {
    match j
    case JInt(i) => Some(i as real)
    case JBool(b) => Some(if b then 1.0 else 0.0)
    case JReal(x) => Some(x)
    case _ => None
  }

  /** `int(x)` of a float: truncation toward zero. */
  function Trunc(x: real): (r: int)
    ensures 0.0 <= x ==> r as real <= x < r as real + 1.0
    ensures x < 0.0 ==> r as real - 1.0 < x <= r as real
  {
    if x >= 0.0 then x.Floor else -((-x).Floor)
  }

  predicate IsDigit(c: char) {
    '0' <= c <= '9'
  }

  predicate AllDigits(s: string) {
    forall k :: 0 <= k < |s| ==> IsDigit(s[k])
  }

  /** The value of a string of decimal digits, most significant first. */
  function DigitsValue(s: string): (r: nat)
    requires AllDigits(s)
  {
    if s == [] then 0 else DigitsValue(s[..|s| - 1]) * 10 + (s[|s| - 1] as int - '0' as int)
  }

  /** Splits an optional leading sign off a numeric literal. */
  function SignOf(s: string): (r: (int, string))
    ensures r.0 == 1 || r.0 == -1
    ensures |r.1| <= |s|
  {
    if s != [] && s[0] == '-' then (-1, s[1..])
    else if s != [] && s[0] == '+' then (1, s[1..])
    else (1, s)
  }

  /** The integer literals `int(s)` accepts here: an optional sign and one or more ASCII digits. */
  function ParseInt(s: string): (r: Option<int>)
    ensures r.Some? ==> s != [] && (IsDigit(s[0]) || s[0] == '-' || s[0] == '+')
    ensures r.Some? ==> AllDigits(s[1..]) && IsDigit(s[|s| - 1])
    ensures s != [] && AllDigits(s) ==> r == Some(DigitsValue(s))
    ensures |s| > 1 && s[0] == '-' && AllDigits(s[1..]) ==> r == Some(-(DigitsValue(s[1..]) as int))
    ensures |s| > 1 && s[0] == '+' && AllDigits(s[1..]) ==> r == Some(DigitsValue(s[1..]))
  {
    var (sign, digits) := SignOf(s);
    if digits != [] && AllDigits(digits) then
      var v: int := DigitsValue(digits);
      Some(if sign < 0 then -v else v)
    else None
  }

  /** `str(n)` for a natural number: its decimal digits, most significant first. */
  function DigitsOf(n: nat): (r: string)
    ensures r != [] && AllDigits(r)
    ensures DigitsValue(r) == n
  {
    var c := ('0' as int + n % 10) as char;
    if n < 10 then
      assert [c][..0] == [];
      [c]
    else
      var r := DigitsOf(n / 10) + [c];
      assert r[..|r| - 1] == DigitsOf(n / 10);
      r
  }

  /** `str(n)` for an integer: a minus sign before the digits of a negative one. */
  function IntText(n: int): (r: string)
    ensures n >= 0 ==> r == DigitsOf(n)
    ensures n < 0 ==> r == "-" + DigitsOf(-n)
  {
    if n < 0 then "-" + DigitsOf(-n) else DigitsOf(n)
  }

  /** `int(str(n)) == n`: every integer's text parses back to it. */
  lemma IntTextRoundTrip(n: int)
    ensures ParseInt(IntText(n)) == Some(n)
  {
    if n < 0 {
      assert IntText(n)[1..] == DigitsOf(-n);
    }
  }

  function Pow10(n: nat): (r: nat)
    ensures r >= 1
  {
    if n == 0 then 1 else 10 * Pow10(n - 1)
  }

  /** Index of the first '.' in `s`, or |s| when there is none. */
  function DotIndex(s: string): (k: nat)
    ensures k <= |s|
    ensures k < |s| ==> s[k] == '.'
    ensures forall j :: 0 <= j < k ==> s[j] != '.'
  {
    if s == [] then 0 else if s[0] == '.' then 0 else 1 + DotIndex(s[1..])
  }

  /**
   * The decimal literals `float(s)` accepts here: an optional sign, digits, and an optional
   * fractional part after one '.', with at least one digit in all.
   */
  function ParseReal(s: string): (r: Option<real>)
    ensures ParseInt(s).Some? ==> r == Some(ParseInt(s).value as real)
    ensures r.Some? ==> s != [] && (IsDigit(s[0]) || s[0] == '-' || s[0] == '+' || s[0] == '.')
    ensures r.Some? ==> forall j :: 1 <= j < |s| ==> IsDigit(s[j]) || s[j] == '.'
    ensures r.Some? ==> forall i, j :: 0 <= i < j < |s| && s[i] == '.' ==> s[j] != '.'
  {
    var (sign, body) := SignOf(s);
    var k := DotIndex(body);
    var whole := body[..k];
    var frac := if k < |body| then body[k + 1..] else [];
    if AllDigits(whole) && AllDigits(frac) && |whole| + |frac| > 0 then
      assert k == |body| ==> whole == body;
      DecimalShape(body, k);
      assert s == body || (|s| == |body| + 1 && s[1..] == body && (s[0] == '-' || s[0] == '+'));
      var v := DecimalValue(whole, frac);
      Some(if sign < 0 then -v else v)
    else None
  }

  /** Digits around at most one '.', at index k. */
  lemma DecimalShape(body: string, k: nat)
    requires k == DotIndex(body)
    requires AllDigits(body[..k])
    requires AllDigits(if k < |body| then body[k + 1..] else [])
    ensures forall j :: 0 <= j < |body| ==> IsDigit(body[j]) || (j == k && body[j] == '.')
  {
    forall j | 0 <= j < |body| ensures IsDigit(body[j]) || (j == k && body[j] == '.') {
      if j < k {
        assert body[j] == body[..k][j];
      } else if k < j {
        assert body[j] == body[k + 1..][j - k - 1];
      }
    }
  }

  /** The value of the digits `w` before the point and `f` after it. */
  function DecimalValue(w: string, f: string): (r: real)
    requires AllDigits(w) && AllDigits(f)
    ensures f == [] ==> r == DigitsValue(w) as real
    ensures DigitsValue(w) as real <= r < DigitsValue(w) as real + 1.0
  {
    FractionBelowOne(f);
    QuotientBelowOne(DigitsValue(f) as real, Pow10(|f|) as real);
    DigitsValue(w) as real + DigitsValue(f) as real / Pow10(|f|) as real
  }

  lemma QuotientBelowOne(a: real, b: real)
    requires 0.0 <= a < b
    ensures 0.0 <= a / b < 1.0
  {
    var q := a / b;
    assert q * b == a;
  }

  /** f digits after the point are worth less than one. */
  lemma {:induction false} FractionBelowOne(f: string)
    requires AllDigits(f)
    ensures DigitsValue(f) < Pow10(|f|)
    decreases |f|
  {
    if f != [] {
      var g := f[..|f| - 1];
      assert AllDigits(g) by { forall k | 0 <= k < |g| ensures IsDigit(g[k]) { assert g[k] == f[k]; } }
      FractionBelowOne(g);
    }
  }

  /** A literal `w.f` of digit strings is read as w plus f over ten to the length of f. */
  lemma DecimalLiteral(w: string, f: string)
    requires AllDigits(w) && AllDigits(f) && |w| + |f| > 0
    ensures ParseReal(w + "." + f) == Some(DecimalValue(w, f))
  {
    var s := w + "." + f;
    assert SignOf(s) == (1, s) by {
      if w == [] { assert s[0] == '.'; } else { assert s[0] == w[0]; }
    }
    DotAfterDigits(w, f);
    assert |w| < |s| && s[..|w|] == w && s[|w| + 1..] == f;
  }

  /** A literal `-w.f` of digit strings is read as the negation of `w.f`. */
  lemma NegativeDecimalLiteral(w: string, f: string)
    requires AllDigits(w) && AllDigits(f) && |w| + |f| > 0
    ensures ParseReal("-" + w + "." + f) == Some(-DecimalValue(w, f))
  {
    var body := w + "." + f;
    assert "-" + w + "." + f == "-" + body;
    assert SignOf("-" + body) == (-1, body) by { assert ("-" + body)[1..] == body; }
    DotAfterDigits(w, f);
    assert |w| < |body| && body[..|w|] == w && body[|w| + 1..] == f;
  }

  lemma {:induction false} DotAfterDigits(w: string, f: string)
    requires AllDigits(w)
    ensures DotIndex(w + "." + f) == |w|
    decreases |w|
  {
    if w != [] {
      assert (w + "." + f)[1..] == w[1..] + "." + f;
      DotAfterDigits(w[1..], f);
    }
  }

  /** `float("-2.5") == -2.5`: a sign, a whole part and a fraction. */
  lemma ParseRealSignedExample()
    ensures ParseReal("-2.5") == Some(-2.5)
  {
    assert SignOf("-2.5") == (-1, "2.5");
    DecimalLiteral("2", "5");
    assert "2" + "." + "5" == "2.5";
    assert DecimalValue("2", "5") == 2.5 by {
      assert DigitsValue("2") == 2 by { assert "2"[..0] == []; }
      assert DigitsValue("5") == 5 by { assert "5"[..0] == []; }
    }
  }

  /** `int("-7") == -7`, while `int("2.5")` and `float("x")` raise ValueError. */
  lemma ConversionExamples()
    ensures ToInt(JStr("-7")) == Ok(-7)
    ensures ToInt(JStr("2.5")) == Err(ValueError)
    ensures ToFloat(JStr("x")) == Err(ValueError)
  {
    assert "-7"[1..] == "7";
    assert DigitsValue("7") == 7 by { assert "7"[..0] == []; }
    assert "2.5"[1] == '.';
    assert SignOf("x") == (1, "x");
    assert DotIndex("x") == 1 by { assert "x"[1..] == []; }
    assert "x"[..1] == "x";
  }

  /** `int(x)`: ints and bools as they are, floats truncated, strings parsed. */
  function ToInt(j: Json): (r: Result<int, PyError>)
    ensures AsInt(j).Some? ==> r == Ok(AsInt(j).value)
    ensures (j.JNull? || j.JList? || j.JObject?) ==> r == Err(TypeError)
    ensures j.JReal? ==> r == Ok(Trunc(j.r))
    ensures j.JStr? ==> (r.Ok? <==> ParseInt(j.s).Some?)
    ensures j.JStr? && r.Ok? ==> r.value == ParseInt(j.s).value
    ensures j.JStr? && r.Err? ==> r.error == ValueError
  {
    match j
    case JInt(i) => Ok(i)
    case JBool(b) => Ok(if b then 1 else 0)
    case JReal(x) => Ok(Trunc(x))
    case JStr(s) => if ParseInt(s).Some? then Ok(ParseInt(s).value) else Err(ValueError)
    case _ => Err(TypeError)
  }

  /** `float(x)`: numbers converted, strings parsed. */
  function ToFloat(j: Json): (r: Result<real, PyError>)
    ensures AsNumber(j).Some? ==> r == Ok(AsNumber(j).value)
    ensures (j.JNull? || j.JList? || j.JObject?) ==> r == Err(TypeError)
    ensures ToInt(j).Ok? && !j.JReal? ==> r == Ok(ToInt(j).value as real)
    ensures j.JStr? ==> (r.Ok? <==> ParseReal(j.s).Some?)
    ensures j.JStr? && r.Ok? ==> r.value == ParseReal(j.s).value
    ensures j.JStr? && r.Err? ==> r.error == ValueError
  {
    match j
    case JInt(i) => Ok(i as real)
    case JBool(b) => Ok(if b then 1.0 else 0.0)
    case JReal(x) => Ok(x)
    case JStr(s) => if ParseReal(s).Some? then Ok(ParseReal(s).value) else Err(ValueError)
    case _ => Err(TypeError)
  }

  /** `needle` occurs in `s` as a contiguous substring. */
  predicate IsSubstring(needle: string, s: string) {
    exists k :: 0 <= k <= |s| && OccursAt(needle, s, k)
  }

  predicate OccursAt(needle: string, s: string, k: nat) {
    k + |needle| <= |s| && s[k..k + |needle|] == needle
  }

  /**
   * `key in container` for a string key: key membership for a dictionary, substring search
   * for a string, element equality for a list; None where Python raises TypeError.
   */
  function Contains(container: Json, key: string): (r: Option<bool>)
    ensures r.Some? <==> (container.JObject? || container.JStr? || container.JList?)
    ensures container.JObject? ==> r == Some(key in container.fields)
    ensures container.JList? ==> r == Some(JStr(key) in container.items)
    ensures container.JStr? ==> r == Some(IsSubstring(key, container.s))
  {
    match container
    case JObject(m) => Some(key in m)
    case JStr(s) => Some(IsSubstring(key, s))
    case JList(xs) => Some(JStr(key) in xs)
    case _ => None
  }
}
