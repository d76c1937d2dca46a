/** The slice of JavaScript value semantics that the request pipeline leans on:
    numbers with NaN and the infinities, truthiness, `Number(string)`,
    `parseInt(string)`, `String(value)` and `Math.max`/`Math.min`.
    Numbers are exact reals: the range and rounding of IEEE doubles are not
    part of this model. */
module Js {
  import opened Wrappers

  /** A JavaScript number. */
  datatype JsNum = NaN | PosInf | NegInf | Finite(v: real)

  /** A JSON/JavaScript value as it appears in a row returned by the store. */
  datatype Value = Undefined | Null | Bool(b: bool) | Num(n: JsNum) | Str(s: string)

  /** `Boolean(x)`: false for undefined, null, false, NaN, 0 and "". */
  predicate Truthy(x: Value) {
    match x
    case Undefined => false
    case Null => false
    case Bool(b) => b
    case Num(n) => n != NaN && n != Finite(0.0)
    case Str(s) => s != ""
  }

  /** `x || d`. */
  function Or(x: Value, d: Value): (r: Value)
    ensures Truthy(x) ==> r == x
    ensures !Truthy(x) ==> r == d
  {
    if Truthy(x) then x else d
  }

  /** `Math.max` and `Math.min` on numbers that are neither NaN nor
      infinite (and Python's `min` on integers). */
  function MaxInt(a: int, b: int): int { if a >= b then a else b }
  function MinInt(a: int, b: int): int { if a <= b then a else b }
  function MinReal(a: real, b: real): real { if a <= b then a else b }

  // ---------------------------------------------------------------------------
  // Characters

  predicate IsDigit(c: char) { '0' <= c <= '9' }

  /** The value of `c` as a digit in bases up to 36 (letters in either case);
      36 for any other character. */
  function DigitOf(c: char): nat {
    if '0' <= c <= '9' then c as nat - '0' as nat
    else if 'a' <= c <= 'z' then c as nat - 'a' as nat + 10
    else if 'A' <= c <= 'Z' then c as nat - 'A' as nat + 10
    else 36
  }

  predicate IsRadixDigit(c: char, radix: nat) { DigitOf(c) < radix }

  function DigitChar(d: int): (c: char)
    requires 0 <= d <= 9
    ensures IsDigit(c) && DigitOf(c) == d
  {
    ('0' as int + d) as char
  }

  /** ASCII lower-casing, the only case folding a non-Unicode JavaScript
      regular expression with the `i` flag applies to ASCII patterns. */
  function Lower(c: char): char {
    if 'A' <= c <= 'Z' then (c as int + 32) as char else c
  }

  /** The characters `String.prototype.trim`, `Number` and `parseInt` strip:
      ECMAScript WhiteSpace (tab, vertical tab, form feed, BOM, every Zs
      space) and LineTerminator. */
  predicate IsWhiteSpace(c: char) {
    var u := c as int;
    (0x09 <= u <= 0x0D) || u == 0x20 || u == 0xA0 || u == 0x1680
    || (0x2000 <= u <= 0x200A) || u == 0x2028 || u == 0x2029 || u == 0x202F
    || u == 0x205F || u == 0x3000 || u == 0xFEFF
  }

  predicate AllWhiteSpace(s: string) {
    forall i :: 0 <= i < |s| ==> IsWhiteSpace(s[i])
  }

  function TrimStart(s: string): (t: string)
    ensures |t| <= |s|
    ensures t != [] ==> !IsWhiteSpace(t[0])
  {
    if s != [] && IsWhiteSpace(s[0]) then TrimStart(s[1..]) else s
  }

  /** `trimStart` drops the leading white space and nothing else: what it
      keeps is a suffix, and everything before that suffix is white space. */
  lemma {:induction false} TrimStartDropsLeadingSpace(s: string)
    ensures var t := TrimStart(s);
      t == s[|s| - |t|..] && AllWhiteSpace(s[..|s| - |t|])
  {
    if s != [] && IsWhiteSpace(s[0]) {
      TrimStartDropsLeadingSpace(s[1..]);
      var t := TrimStart(s);
      assert s[1..][|s| - 1 - |t|..] == s[|s| - |t|..];
      assert s[..|s| - |t|] == [s[0]] + s[1..][..|s| - 1 - |t|];
    }
  }

  function TrimEnd(s: string): (t: string)
    ensures |t| <= |s|
  {
    if s != [] && IsWhiteSpace(s[|s| - 1]) then TrimEnd(s[..|s| - 1]) else s
  }

  function Trim(s: string): string {
    TrimEnd(TrimStart(s))
  }

  // ---------------------------------------------------------------------------
  // Digit strings

  function Pow10(n: nat): (p: nat)
    ensures p >= 1
  {
    if n == 0 then 1 else 10 * Pow10(n - 1)
  }

  /** The number of leading characters of `s` that are digits in `radix`. */
  function LeadingRun(s: string, radix: nat): (n: nat)
    ensures n <= |s|
    ensures forall i :: 0 <= i < n ==> IsRadixDigit(s[i], radix)
    ensures n < |s| ==> !IsRadixDigit(s[n], radix)
  {
    if s != [] && IsRadixDigit(s[0], radix) then 1 + LeadingRun(s[1..], radix) else 0
  }

  /** The value of a digit string in `radix`, most significant digit first. */
  function RadixValue(ds: string, radix: nat): nat {
    if ds == [] then 0
    else RadixValue(ds[..|ds| - 1], radix) * radix + DigitOf(ds[|ds| - 1]) % 36
  }

  /** The decimal text of a natural number, without leading zeros. */
  function NatText(k: nat): (t: string)
    ensures |t| >= 1
    ensures forall i :: 0 <= i < |t| ==> IsDigit(t[i])
    ensures t[0] == '0' ==> k == 0
  {
    if k < 10 then [DigitChar(k)] else NatText(k / 10) + [DigitChar(k % 10)]
  }

  /** `String(i)` for an integer. */
  function IntText(i: int): string {
    if i < 0 then "-" + NatText(-i) else NatText(i)
  }

  // ---------------------------------------------------------------------------
  // Number(string)

  /** The base named by the letter after a leading `0` (`0x`, `0o`, `0b`). */
  function RadixOfPrefix(c: char): Option<nat> {
    if c == 'x' || c == 'X' then Some(16)
    else if c == 'o' || c == 'O' then Some(8)
    else if c == 'b' || c == 'B' then Some(2)
    else None
  }

  /** An exponent part: empty, or `e`/`E`, an optional sign and at least one digit. */
  function ParseExponent(r: string): Option<int> {
    if r == [] then Some(0)
    else if r[0] != 'e' && r[0] != 'E' then None
    else
      var u := r[1..];
      var neg := u != [] && u[0] == '-';
      var ds := if u != [] && (u[0] == '+' || u[0] == '-') then u[1..] else u;
      if ds != [] && LeadingRun(ds, 10) == |ds| then
        Some(if neg then -(RadixValue(ds, 10) as int) else RadixValue(ds, 10))
      else None
  }

  function Scale(m: real, e: int): real {
    if e >= 0 then m * Pow10(e) as real else m / Pow10(-e) as real
  }

  /** `whole.frac` as a number. */
  function DecimalValue(whole: string, frac: string): real {
    RadixValue(whole, 10) as real + RadixValue(frac, 10) as real / Pow10(|frac|) as real
  }

  function ApplyExponent(m: real, tail: string): Option<real> {
    match ParseExponent(tail)
    case Some(e) => Some(Scale(m, e))
    case None => None
  }

  /** A decimal literal without sign: digits, an optional `.` with digits,
      at least one digit in all, then an optional exponent. */
  function ParseUnsignedDecimal(t: string): Option<real> {
    var i := LeadingRun(t, 10);
    var rest := t[i..];
    if rest != [] && rest[0] == '.' then
      var after := rest[1..];
      var j := LeadingRun(after, 10);
      if i + j == 0 then None else ApplyExponent(DecimalValue(t[..i], after[..j]), after[j..])
    else if i == 0 then None
    else ApplyExponent(DecimalValue(t[..i], ""), rest)
  }

  function ParseDecimal(t: string): Option<real> {
    if t != [] && (t[0] == '+' || t[0] == '-') then
      match ParseUnsignedDecimal(t[1..])
      case Some(r) => Some(if t[0] == '-' then -r else r)
      case None => None
    else ParseUnsignedDecimal(t)
  }

  /** `Number(s)` for a string: blank is 0, `Infinity` with an optional sign,
      `0x`/`0o`/`0b` integer literals, decimal literals; anything else is NaN. */
  function ParseNumber(s: string): JsNum {
    var t := Trim(s);
    if t == "" then Finite(0.0)
    else if t == "Infinity" || t == "+Infinity" then PosInf
    else if t == "-Infinity" then NegInf
    else if |t| >= 2 && t[0] == '0' && RadixOfPrefix(t[1]).Some? then
      var radix := RadixOfPrefix(t[1]).value;
      var ds := t[2..];
      if ds != [] && LeadingRun(ds, radix) == |ds| then Finite(RadixValue(ds, radix) as real) else NaN
    else
      match ParseDecimal(t)
      case Some(r) => Finite(r)
      case None => NaN
  }

  // ---------------------------------------------------------------------------
  // parseInt(string)

  /** `parseInt(s)` with no radix: leading white space, an optional sign, an
      optional `0x` prefix, then the longest run of digits; None is NaN. */
  function ParseInt(s: string): Option<int> {
    SignedInt(TrimStart(s))
  }

  /** An optional sign, then the digits. */
  function SignedInt(t: string): Option<int> {
    if t != [] && t[0] == '-' then
      match UnsignedInt(t[1..])
      case Some(v) => Some(-v)
      case None => None
    else if t != [] && t[0] == '+' then UnsignedInt(t[1..])
    else UnsignedInt(t)
  }

  /** An optional `0x` prefix, then the longest run of digits in that base;
      None when the run is empty. */
  function UnsignedInt(u: string): Option<int> {
    var hex := |u| >= 2 && u[0] == '0' && (u[1] == 'x' || u[1] == 'X');
    var radix := if hex then 16 else 10;
    var body := if hex then u[2..] else u;
    var n := LeadingRun(body, radix);
    if n == 0 then None else Some(RadixValue(body[..n], radix))
  }

  /** `parseInt(x) || 0`: NaN becomes 0. */
  function IntOr0(p: Option<int>): int {
    match p
    case Some(v) => v
    case None => 0
  }

  // ---------------------------------------------------------------------------
  // String(value) and ToNumber(value)

  /** Up to `fuel` decimal digits of a fraction in [0, 1), stopping when it is
      exhausted. */
  function FractionDigits(f: real, fuel: nat): string
    requires 0.0 <= f < 1.0
    decreases fuel
  {
    if f == 0.0 || fuel == 0 then ""
    else
      var d := (f * 10.0).Floor;
      [DigitChar(d)] + FractionDigits(f * 10.0 - d as real, fuel - 1)
  }

  function NonNegativeText(r: real): string
    requires r >= 0.0
  {
    var whole := r.Floor;
    var frac := r - whole as real;
    if frac == 0.0 then NatText(whole) else NatText(whole) + "." + FractionDigits(frac, 20)
  }

  /** `String(n)`: exact for NaN, the infinities and integers; a fractional
      value is written with at most twenty decimals. */
  function NumberText(n: JsNum): string {
    match n
    case NaN => "NaN"
    case PosInf => "Infinity"
    case NegInf => "-Infinity"
    case Finite(r) => if r < 0.0 then "-" + NonNegativeText(-r) else NonNegativeText(r)
  }

  /** Every number has a non-empty text. */
  lemma NumberTextNotEmpty(n: JsNum)
    ensures NumberText(n) != ""
  {
    if n.Finite? && n.v < 0.0 {
      assert |"-" + NonNegativeText(-n.v)| >= 1;
    }
  }

  /** `String(v)`, also what a template literal `${v}` inserts. */
  function Text(v: Value): string {
    match v
    case Undefined => "undefined"
    case Null => "null"
    case Bool(b) => if b then "true" else "false"
    case Num(n) => NumberText(n)
    case Str(s) => s
  }

  /** `parseInt(v)` for any value: the value is first converted to a string. */
  function ParseIntValue(v: Value): Option<int> {
    ParseInt(Text(v))
  }

  /** `Number(v)`. */
  function ToNumber(v: Value): JsNum {
    match v
    case Undefined => NaN
    case Null => Finite(0.0)
    case Bool(b) => Finite(if b then 1.0 else 0.0)
    case Num(n) => n
    case Str(s) => ParseNumber(s)
  }

  // ---------------------------------------------------------------------------
  // Math.max and Math.min

  /** The order of non-NaN numbers. */
  predicate AtMost(a: JsNum, b: JsNum)
    requires a != NaN && b != NaN
  {
    match (a, b)
    case (NegInf, _) => true
    case (_, PosInf) => true
    case (Finite(x), Finite(y)) => x <= y
    case _ => false
  }

  /** `Math.max(a, b)`: NaN if either is NaN, else the larger. */
  function MaxNum(a: JsNum, b: JsNum): (r: JsNum)
    ensures r == NaN <==> (a == NaN || b == NaN)
    ensures r != NaN ==> AtMost(a, r) && AtMost(b, r) && (r == a || r == b)
  {
    if a == NaN || b == NaN then NaN else if AtMost(a, b) then b else a
  }

  /** `Math.min(a, b)`: NaN if either is NaN, else the smaller. */
  function MinNum(a: JsNum, b: JsNum): (r: JsNum)
    ensures r == NaN <==> (a == NaN || b == NaN)
    ensures r != NaN ==> AtMost(r, a) && AtMost(r, b) && (r == a || r == b)
  {
    if a == NaN || b == NaN then NaN else if AtMost(a, b) then a else b
  }

  // ---------------------------------------------------------------------------
  // Round trips between integers and their text

  /** Reading back the decimal text of `k` gives `k`. */
  lemma {:induction false} NatTextValue(k: nat)
    ensures RadixValue(NatText(k), 10) == k
  {
    if k >= 10 {
      var prefix := NatText(k / 10);
      var t := prefix + [DigitChar(k % 10)];
      assert t[..|t| - 1] == prefix;
      NatTextValue(k / 10);
    }
  }

  lemma LeadingRunOfDigits(s: string)
    requires forall i :: 0 <= i < |s| ==> IsDigit(s[i])
    ensures LeadingRun(s, 10) == |s|
  {
    assert forall i :: 0 <= i < |s| ==> IsRadixDigit(s[i], 10);
  }

  /** `parseInt(String(i)) == i` for every integer. */
  lemma ParseIntIntText(i: int)
    ensures ParseInt(IntText(i)) == Some(i)
  {
    var k: nat := if i < 0 then -i else i;
    NatTextValue(k);
    if i < 0 {
      UnsignedIntOfDigits(NatText(k));
      ParseIntOfNegative(IntText(i), NatText(k), k);
    } else {
      ParseIntOfDigits(NatText(k));
    }
  }

  lemma ParseIntOfDigits(ds: string)
    requires ds != [] && forall i :: 0 <= i < |ds| ==> IsDigit(ds[i])
    ensures ParseInt(ds) == Some(RadixValue(ds, 10) as int)
  {
    assert SignedInt(ds) == Some(RadixValue(ds, 10) as int) by {
      assert ds[0] != '-' && ds[0] != '+' by {
        assert IsDigit(ds[0]);
      }
      UnsignedIntOfDigits(ds);
    }
    assert !IsWhiteSpace(ds[0]);
    NoLeadingSpace(ds);
  }

  /** A leading minus negates what follows it. */
  lemma ParseIntOfNegative(t: string, ds: string, v: int)
    requires t == "-" + ds && UnsignedInt(ds) == Some(v)
    ensures ParseInt(t) == Some(-v)
  {
    assert t[0] == '-' && t[1..] == ds;
    NoLeadingSpace(t);
  }

  /** Text that does not start with white space is its own `trimStart`. */
  lemma NoLeadingSpace(t: string)
    requires t != [] && !IsWhiteSpace(t[0])
    ensures TrimStart(t) == t
  {
  }

  lemma UnsignedIntOfDigits(ds: string)
    requires ds != [] && forall i :: 0 <= i < |ds| ==> IsDigit(ds[i])
    ensures UnsignedInt(ds) == Some(RadixValue(ds, 10) as int)
  {
    assert |ds| >= 2 ==> ds[1] != 'x' && ds[1] != 'X' by {
      assert |ds| >= 2 ==> IsDigit(ds[1]);
    }
    LeadingRunOfDigits(ds);
    assert ds[..|ds|] == ds;
  }

  lemma TrimOfNatText(k: nat)
    ensures Trim(NatText(k)) == NatText(k)
  {
    var t := NatText(k);
    assert !IsWhiteSpace(t[0]) && !IsWhiteSpace(t[|t| - 1]);
    NoLeadingSpace(t);
    assert TrimEnd(t) == t;
  }

  lemma ParseUnsignedDecimalOfDigits(t: string)
    requires t != [] && forall i :: 0 <= i < |t| ==> IsDigit(t[i])
    ensures ParseUnsignedDecimal(t) == Some(RadixValue(t, 10) as real)
  {
    LeadingRunOfDigits(t);
    var rest := t[|t|..];
    assert rest == [];
    assert ParseUnsignedDecimal(t) == ApplyExponent(DecimalValue(t[..|t|], ""), rest);
    assert t[..|t|] == t;
    DecimalValueWhole(t);
    ApplyNoExponent(RadixValue(t, 10) as real);
  }

  lemma DecimalValueWhole(t: string)
    ensures DecimalValue(t, "") == RadixValue(t, 10) as real
  {
    assert Pow10(0) == 1;
  }

  lemma ApplyNoExponent(m: real)
    ensures ApplyExponent(m, "") == Some(m)
  {
    assert ParseExponent("") == Some(0);
  }

  /** `Number(String(k)) == k` for every natural number. */
  lemma ParseNumberNatText(k: nat)
    ensures ParseNumber(NatText(k)) == Finite(k as real)
  {
    var t := NatText(k);
    TrimOfNatText(k);
    assert IsDigit(t[0]);
    assert t != "Infinity" && t != "+Infinity" && t != "-Infinity";
    assert |t| >= 2 ==> IsDigit(t[1]);
    assert ParseDecimal(t) == ParseUnsignedDecimal(t);
    ParseUnsignedDecimalOfDigits(t);
    NatTextValue(k);
  }

  lemma LeadingRunStopsAt(s: string, n: nat)
    requires n < |s| && !IsDigit(s[n])
    requires forall i :: 0 <= i < n ==> IsDigit(s[i])
    ensures LeadingRun(s, 10) == n
  {
    assert forall i :: 0 <= i < n ==> IsRadixDigit(s[i], 10);
    assert !IsRadixDigit(s[n], 10);
  }

  /** `Number("w.f")` for digit strings `w` and `f` is the decimal `w.f`. */
  lemma ParseNumberDecimalText(w: string, f: string)
    requires w != [] && forall i :: 0 <= i < |w| ==> IsDigit(w[i])
    requires f != [] && forall i :: 0 <= i < |f| ==> IsDigit(f[i])
    ensures ParseNumber(w + "." + f) == Finite(DecimalValue(w, f))
  {
    var t := w + "." + f;
    assert Trim(t) == t by {
      assert !IsWhiteSpace(t[0]) && !IsWhiteSpace(t[|t| - 1]);
      NoLeadingSpace(t);
      assert TrimEnd(t) == t;
    }
    assert |t| >= 2 ==> RadixOfPrefix(t[1]).None? by {
      assert IsDigit(t[1]) || t[1] == '.';
    }
    ParseNumberOfDigitStart(t);
    ParseUnsignedDecimalText(w, f);
  }

  /** `Number(t)` for a trimmed text that starts with a digit and no radix
      prefix is its decimal reading. */
  lemma ParseNumberOfDigitStart(t: string)
    requires Trim(t) == t && t != [] && IsDigit(t[0])
    requires |t| >= 2 ==> RadixOfPrefix(t[1]).None?
    ensures ParseNumber(t) == match ParseUnsignedDecimal(t) case Some(r) => Finite(r) case None => NaN
  {
    assert t != "Infinity" && t != "+Infinity" && t != "-Infinity" by {
      assert IsDigit(t[0]);
    }
    assert ParseDecimal(t) == ParseUnsignedDecimal(t);
  }

  lemma ParseUnsignedDecimalText(w: string, f: string)
    requires w != [] && forall i :: 0 <= i < |w| ==> IsDigit(w[i])
    requires f != [] && forall i :: 0 <= i < |f| ==> IsDigit(f[i])
    ensures ParseUnsignedDecimal(w + "." + f) == Some(DecimalValue(w, f))
  {
    var t := w + "." + f;
    assert LeadingRun(t, 10) == |w| by {
      LeadingRunStopsAt(t, |w|);
    }
    assert t[..|w|] == w;
    var rest := t[|w|..];
    assert rest == "." + f;
    var after := rest[1..];
    assert after == f;
    assert LeadingRun(after, 10) == |f| by {
      LeadingRunOfDigits(f);
    }
    assert after[..|f|] == f;
    assert after[|f|..] == [];
    ApplyNoExponent(DecimalValue(w, f));
  }

  /** `String(k)` for an integral number is its decimal text. */
  lemma NumberTextInt(k: int)
    ensures NumberText(Finite(k as real)) == IntText(k)
  {
    if k < 0 {
      assert (-(k as real)).Floor == -k;
      assert NonNegativeText(-(k as real)) == NatText(-k);
    } else {
      assert (k as real).Floor == k;
      assert NonNegativeText(k as real) == NatText(k);
    }
  }
}
