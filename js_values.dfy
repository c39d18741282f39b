/** The slice of JavaScript's value semantics the pipeline relies on: decoded
    JSON values, truthiness, property reads, `String(v)` coercion (which names
    the groups of the order grouper), `toLowerCase`, `trim` and `includes`. */
module JsValues {

  datatype Option<+T> = None | Some(value: T)

  /** A JavaScript evaluation either completes normally or throws; the only
      exception this code can raise is the TypeError of reading a property of
      `null` or `undefined` (or of pushing onto something that is not an array). */
  datatype Completion<+T> = Normal(value: T) | TypeError

  /** A check that either accepts, with a value, or rejects, with the message
      the page shows. */
  datatype Result<+T> = Ok(value: T) | Err(message: string)

  datatype Decimal = Decimal(mantissa: int, exponent: int)

  /** A finite number, mantissa * 10^exponent, with no trailing zero in the
      mantissa, so that every number has exactly one representation and
      structural equality is numeric equality. */
  type Number = d: Decimal | d.mantissa % 10 != 0 || d == Decimal(0, 0) witness Decimal(0, 0)

  function Pow10(n: nat): (r: nat)
    ensures r >= 1
  {
    if n == 0 then 1 else 10 * Pow10(n - 1)
  }

  function NumberReal(d: Number): real
  {
    if d.exponent >= 0 then (d.mantissa * Pow10(d.exponent)) as real
    else d.mantissa as real / Pow10(-d.exponent) as real
  }

  /** Only a zero mantissa denotes zero. */
  lemma NumberRealNonZero(d: Number)
    requires d.mantissa != 0
    ensures NumberReal(d) != 0.0
  {
    if d.exponent >= 0 {
      assert d.mantissa * Pow10(d.exponent) != 0;
    }
  }

  /** The canonical representation of the integer `n`. */
  function IntNumber(n: int): (r: Number)
    ensures r.exponent >= 0
    ensures NumberReal(r) == n as real
    decreases if n < 0 then -n else n
  {
    if n != 0 && n % 10 == 0 then
      var d := IntNumber(n / 10);
      assert d.mantissa * Pow10(d.exponent + 1) == (d.mantissa * Pow10(d.exponent)) * 10;
      Decimal(d.mantissa, d.exponent + 1)
    else
      Decimal(n, 0)
  }

  datatype Value =
    | Undefined
    | Null
    | Bool(b: bool)
    | Num(n: Number)
    | Str(s: string)
    | Arr(items: seq<Value>)
    | Obj(fields: map<string, Value>)

  /** JavaScript's ToBoolean: `undefined`, `null`, `false`, `0` and `""` are falsy. */
  predicate Truthy(v: Value)
  {
    match v
    case Undefined => false
    case Null => false
    case Bool(b) => b
    case Num(n) => n.mantissa != 0
    case Str(s) => s != ""
    case Arr(_) => true
    case Obj(_) => true
  }

  /** Reading any property of these throws a TypeError. */
  predicate Nullish(v: Value)
  {
    v.Undefined? || v.Null?
  }

  /** None of the values is `null` or `undefined`. */
  predicate NoNullish(values: seq<Value>)
  {
    forall i :: 0 <= i < |values| ==> !Nullish(values[i])
  }

  /** `v.k` for a non-nullish `v`: an object's own property, or `undefined`.
      The pipeline only reads named fields ("id", "name", ...), which strings,
      numbers, booleans and arrays do not have. */
  function Get(v: Value, k: string): (r: Value)
    ensures !v.Obj? ==> r == Undefined
    ensures v.Obj? && k in v.fields ==> r == v.fields[k]
  {
    match v
    case Obj(f) => if k in f then f[k] else Undefined
    case _ => Undefined
  }

  function Digit(n: nat): char
    requires n < 10
  {
    "0123456789"[n]
  }

  /** The decimal spelling of a natural number, without leading zeros. */
  function NatText(n: nat): (r: string)
    ensures |r| >= 1
    ensures forall i :: 0 <= i < |r| ==> '0' <= r[i] <= '9'
    ensures |r| > 1 ==> r[0] != '0'
    decreases n
  {
    if n < 10 then [Digit(n)] else NatText(n / 10) + [Digit(n % 10)]
  }

  function Zeros(n: nat): (r: string)
    ensures |r| == n
  {
    if n == 0 then "" else Zeros(n - 1) + "0"
  }

  /** Number::toString (section 6.1.6.1.20 of ECMA-262) of a positive number
      a * 10^e, `a` without trailing zeros: plain notation when the decimal
      point falls within 21 digits of the digit string, exponent notation
      otherwise. */
  function MagnitudeText(a: nat, e: int): (r: string)
    requires a > 0
    ensures r != ""
  {
    var digits := NatText(a);
    var k := |digits|;
    var n := e + k;
    if k <= n <= 21 then digits + Zeros(n - k)
    else if 0 < n <= 21 then digits[..n] + "." + digits[n..]
    else if -6 < n <= 0 then "0." + Zeros(-n) + digits
    else
      var x := n - 1;
      var exponentText := (if x >= 0 then "+" else "-") + NatText(if x >= 0 then x else -x);
      if k == 1 then digits + "e" + exponentText
      else digits[..1] + "." + digits[1..] + "e" + exponentText
  }

  function NumberText(d: Number): (r: string)
    ensures r != ""
  {
    if d.mantissa == 0 then "0"
    else if d.mantissa < 0 then "-" + MagnitudeText(-d.mantissa, d.exponent)
    else MagnitudeText(d.mantissa, d.exponent)
  }

  function Join(parts: seq<string>, separator: string): string
    decreases |parts|
  {
    if parts == [] then ""
    else if |parts| == 1 then parts[0]
    else Join(parts[..|parts| - 1], separator) + separator + parts[|parts| - 1]
  }

  /** Each part of `parts.join(separator)` occurs in the joined text. */
  lemma {:induction false} JoinIncludesParts(parts: seq<string>, separator: string, i: nat)
    requires i < |parts|
    ensures Includes(Join(parts, separator), parts[i])
    decreases |parts|
  {
    var joined := Join(parts, separator);
    if |parts| == 1 {
      assert OccursAt(joined, parts[i], 0);
    } else {
      var n := |parts| - 1;
      var front := Join(parts[..n], separator);
      assert joined == front + separator + parts[n];
      if i == n {
        assert OccursAt(joined, parts[i], |front| + |separator|);
      } else {
        JoinIncludesParts(parts[..n], separator, i);
        assert parts[..n][i] == parts[i];
        var k :| 0 <= k <= |front| - |parts[i]| && OccursAt(front, parts[i], k);
        assert joined[k..k + |parts[i]|] == front[k..k + |parts[i]|];
        assert OccursAt(joined, parts[i], k);
      }
    }
  }

  /** Text that occurs in `b` occurs in `a + b + c`. */
  lemma IncludesInMiddle(a: string, b: string, c: string, t: string)
    requires Includes(b, t)
    ensures Includes(a + b + c, t)
  {
    var k :| 0 <= k <= |b| - |t| && OccursAt(b, t, k);
    assert (a + b + c)[|a| + k..|a| + k + |t|] == b[k..k + |t|];
    assert OccursAt(a + b + c, t, |a| + k);
  }

  /** `String(v)`: the text JavaScript makes of a value, which is also the
      property key `v` denotes when it indexes an object. An array joins its
      elements with commas, `null` and `undefined` elements becoming empty. */
  function ToJsString(v: Value): string
  {
    match v
    case Undefined => "undefined"
    case Null => "null"
    case Bool(b) => if b then "true" else "false"
    case Num(n) => NumberText(n)
    case Str(s) => s
    case Arr(items) =>
      Join(seq(|items|, i requires 0 <= i < |items| =>
             if Nullish(items[i]) then "" else ToJsString(items[i])), ",")
    case Obj(_) => "[object Object]"
  }

  function DigitsValue(k: string): int
    decreases |k|
  {
    if k == [] then 0
    else 10 * DigitsValue(k[..|k| - 1]) + (k[|k| - 1] as int - '0' as int)
  }

  /** A property key that is an array index: the canonical decimal spelling
      of an integer below 2^32 - 1. Such keys are enumerated first, in
      ascending numeric order, by `Object.entries`. */
  predicate IsArrayIndex(k: string)
  {
    && |k| > 0
    && (forall i :: 0 <= i < |k| ==> '0' <= k[i] <= '9')
    && (k[0] != '0' || |k| == 1)
    && DigitsValue(k) < 4294967295
  }

  /** `toLowerCase` on the Basic Latin and Latin-1 letters. */
  function LowerChar(c: char): char
  {
    if 'A' <= c <= 'Z' || ('\U{C0}' <= c <= '\U{DE}' && c != '\U{D7}') then (c as int + 32) as char
    else c
  }

  function Lower(s: string): (r: string)
    ensures |r| == |s|
  {
    seq(|s|, i requires 0 <= i < |s| => LowerChar(s[i]))
  }

  lemma LowerIdempotent(s: string)
    ensures Lower(Lower(s)) == Lower(s)
  {
  }

  /** The characters `String.prototype.trim` removes: WhiteSpace and
      LineTerminator of ECMA-262 (Unicode space separators included). */
  predicate IsWhiteSpace(c: char)
  {
    || c == '\t' || c == '\n' || c == '\U{B}' || c == '\U{C}' || c == '\r' || c == ' '
    || c == '\U{A0}' || c == '\U{1680}' || ('\U{2000}' <= c <= '\U{200A}')
    || c == '\U{2028}' || c == '\U{2029}' || c == '\U{202F}' || c == '\U{205F}'
    || c == '\U{3000}' || c == '\U{FEFF}'
  }

  predicate Blank(s: string)
  {
    forall i :: 0 <= i < |s| ==> IsWhiteSpace(s[i])
  }

  function LeadingSpace(s: string): (r: nat)
    ensures r <= |s|
    ensures forall i :: 0 <= i < r ==> IsWhiteSpace(s[i])
    ensures r < |s| ==> !IsWhiteSpace(s[r])
    decreases |s|
  {
    if s != [] && IsWhiteSpace(s[0]) then 1 + LeadingSpace(s[1..]) else 0
  }

  function TrailingSpace(s: string): (r: nat)
    ensures r <= |s|
    ensures forall i :: |s| - r <= i < |s| ==> IsWhiteSpace(s[i])
    ensures r < |s| ==> !IsWhiteSpace(s[|s| - 1 - r])
    decreases |s|
  {
    if s != [] && IsWhiteSpace(s[|s| - 1]) then 1 + TrailingSpace(s[..|s| - 1]) else 0
  }

  /** `s` is `r` flanked by white space only, `r` starting at `k`. */
  predicate TrimmedAt(s: string, r: string, k: nat)
  {
    && OccursAt(s, r, k)
    && Blank(s[..k])
    && Blank(s[k + |r|..])
  }

  /** `s.trim()`: `s` without its leading and trailing white space. */
  function Trim(s: string): (r: string)
    ensures r == "" <==> Blank(s)
    ensures r != "" ==> !IsWhiteSpace(r[0]) && !IsWhiteSpace(r[|r| - 1])
    ensures exists k :: TrimmedAt(s, r, k)
    ensures Includes(s, r)
  {
    var lead := LeadingSpace(s);
    if lead == |s| then
      assert TrimmedAt(s, "", 0);
      ""
    else
      var trail := TrailingSpace(s);
      assert lead <= |s| - 1 - trail;
      var r := s[lead..|s| - trail];
      assert TrimmedAt(s, r, lead) by {
        var tail := s[|s| - trail..];
        assert s[lead + |r|..] == tail;
        forall i | 0 <= i < |tail| ensures IsWhiteSpace(tail[i]) {
          assert tail[i] == s[|s| - trail + i];
        }
      }
      r
  }

  predicate OccursAt(s: string, t: string, i: nat)
  {
    i + |t| <= |s| && s[i..i + |t|] == t
  }

  /** `s.includes(t)`: `t` occurs in `s` as a contiguous piece. */
  predicate Includes(s: string, t: string)
  {
    exists i | 0 <= i <= |s| - |t| :: OccursAt(s, t, i)
  }

  /** A double as the arithmetic here sees it: NaN, or an exact real (the
      rounding of binary floating point is not modelled). */
  datatype Float = NaN | Real(value: real)

  /** `a * b`: NaN as soon as either operand is NaN. */
  function Times(a: Float, b: Float): Float
  {
    if a.Real? && b.Real? then Real(a.value * b.value) else NaN
  }

  /** `x || 0` on a parsed number: NaN (and 0 itself) become 0. */
  function OrZero(x: Float): real
  {
    if x.Real? then x.value else 0.0
  }

  /** `(l || 0) * (w || 0) * (h || 0)` on parsed numbers: a volume in which
      a NaN factor counts as 0. */
  function ZeroFilledVolume(l: Float, w: Float, h: Float): real
  {
    OrZero(l) * OrZero(w) * OrZero(h)
  }

  lemma ZeroFilledWithNaN(l: Float, w: Float, h: Float)
    requires l.NaN? || w.NaN? || h.NaN?
    ensures ZeroFilledVolume(l, w, h) == 0.0
  {
  }

  lemma ZeroFilledOfReals(l: Float, w: Float, h: Float)
    requires l.Real? && w.Real? && h.Real?
    ensures Times(Times(l, w), h) == Real(ZeroFilledVolume(l, w, h))
  {
  }

  lemma FloorHalfClose(y: real)
    ensures y - 0.5 < (y + 0.5).Floor as real <= y + 0.5
  {
  }

  /** The number of 10^-places units `x.toFixed(places)` shows: the integer
      nearest to x * 10^places, a tie going away from zero (ECMA-262 section
      21.1.3.3 picks the larger n for the magnitude and puts the sign back in
      front). */
  function FixedUnits(x: real, places: nat): (n: int)
    ensures -0.5 <= n as real - x * Pow10(places) as real <= 0.5
  {
    var scale := Pow10(places) as real;
    var y := x * scale;
    if x >= 0.0 then
      FloorHalfClose(y);
      (y + 0.5).Floor
    else
      assert (-x) * scale == -y;
      FloorHalfClose(-y);
      -((-x) * scale + 0.5).Floor
  }

  /** The value of `x.toFixed(places)` read back as a number. */
  function Fixed(x: real, places: nat): real
  {
    FixedUnits(x, places) as real / Pow10(places) as real
  }

  lemma QuotientShift(n: real, x: real, scale: real)
    requires scale > 0.0
    ensures n / scale - x == (n - x * scale) / scale
  {
  }

  lemma QuotientBound(e: real, scale: real)
    requires scale > 0.0 && -0.5 <= e <= 0.5
    ensures -0.5 / scale <= e / scale <= 0.5 / scale
  {
    assert e / scale - -0.5 / scale == (e + 0.5) / scale;
    assert 0.5 / scale - e / scale == (0.5 - e) / scale;
  }

  /** `x.toFixed(places)` read back is within half a unit of the last
      place of `x`. */
  lemma FixedDistance(x: real, places: nat)
    ensures -0.5 / Pow10(places) as real <= Fixed(x, places) - x <= 0.5 / Pow10(places) as real
  {
    var scale := Pow10(places) as real;
    var n := FixedUnits(x, places) as real;
    var e := n - x * scale;
    assert -0.5 <= e <= 0.5;
    assert Fixed(x, places) == n / scale;
    QuotientShift(n, x, scale);
    QuotientBound(e, scale);
  }

  /** A value already on the grid comes back unchanged. */
  lemma FixedOfGridValue(n: int, places: nat)
    ensures FixedUnits(n as real / Pow10(places) as real, places) == n
    ensures Fixed(n as real / Pow10(places) as real, places) == n as real / Pow10(places) as real
  {
    var scale := Pow10(places) as real;
    assert (n as real / scale) * scale == n as real;
  }

  /** `v.toString()` on a nullable numeric column; `null.toString()` throws. */
  function ColumnText(d: Option<Number>): Completion<string>
  {
    match d
    case Some(n) => Normal(NumberText(n))
    case None => TypeError
  }

  /** `parseFloat` of a nullable numeric column: the number itself, or NaN
      for `null` (which reads as the text "null"). */
  function ColumnFloat(d: Option<Number>): Float
  {
    match d
    case Some(n) => Real(NumberReal(n))
    case None => NaN
  }

  /** `parseFloat(v)`: a number reads back as itself; anything else is turned
      into text, which the string parser `parse` reads. */
  function ParseFloat(v: Value, parse: string -> Float): Float
  {
    match v
    case Num(n) => Real(NumberReal(n))
    case _ => parse(ToJsString(v))
  }
}
