/** The JavaScript values the modelled code handles, and the few built-in
    operations on them that it relies on (property lookup, truthiness,
    number/string conversion, ASCII case folding, substring search). */
module JsValues {
  import opened Wrappers

  /** A JavaScript value. Numbers are finite reals (NaN and the infinities
      are not modelled); an object is its own enumerable properties in
      insertion order. Object identity is not modelled: values compare by
      contents. */
  datatype Value =
    | Undefined
    | Null
    | Bool(b: bool)
    | Num(x: real)
    | Str(s: string)
    | Arr(elems: seq<Value>)
    | Obj(fields: seq<Field>)

  datatype Field = Field(key: string, val: Value)

  /** `v == null` in JavaScript (loose equality): null or undefined. */
  predicate IsNullish(v: Value) {
    v.Undefined? || v.Null?
  }

  predicate Truthy(v: Value) {
    match v
    case Undefined => false
    case Null => false
    case Bool(b) => b
    case Num(x) => x != 0.0
    case Str(s) => s != ""
    case _ => true
  }

  /** lodash `isInteger` on a finite number. */
  predicate IsInteger(x: real) {
    x.Floor as real == x
  }

  function Keys(fs: seq<Field>): (ks: seq<string>)
    ensures |ks| == |fs|
    ensures forall i :: 0 <= i < |fs| ==> ks[i] == fs[i].key
  {
    if fs == [] then [] else [fs[0].key] + Keys(fs[1..])
  }

  predicate DistinctKeys(fs: seq<Field>) {
    forall i, j :: 0 <= i < j < |fs| ==> fs[i].key != fs[j].key
  }

  /** The value of the first property named `key`. */
  function Lookup(fs: seq<Field>, key: string): (r: Option<Value>)
    ensures r.None? <==> (forall i :: 0 <= i < |fs| ==> fs[i].key != key)
    ensures r.Some? ==> exists i :: 0 <= i < |fs| && fs[i] == Field(key, r.value)
  {
    if fs == [] then None
    else if fs[0].key == key then Some(fs[0].val)
    else Lookup(fs[1..], key)
  }

  /** `o[key] = v` on an object: an existing property keeps its place,
      a new one is appended. */
  function SetField(fs: seq<Field>, key: string, v: Value): (r: seq<Field>)
    ensures Lookup(r, key) == Some(v)
    ensures forall k :: k != key ==> Lookup(r, k) == Lookup(fs, k)
  {
    if fs == [] then [Field(key, v)]
    else if fs[0].key == key then [Field(key, v)] + fs[1..]
    else [fs[0]] + SetField(fs[1..], key, v)
  }

  // ----- decimal numerals

  predicate IsDigit(c: char) {
    '0' <= c <= '9'
  }

  predicate AllDigits(s: string) {
    forall i :: 0 <= i < |s| ==> IsDigit(s[i])
  }

  function DigitChar(d: nat): (c: char)
    requires d < 10
    ensures IsDigit(c) && c as int - '0' as int == d
  {
    ('0' as int + d) as char
  }

  function DigitsValue(s: string): nat
    requires AllDigits(s)
  {
    if s == [] then 0
    else DigitsValue(s[..|s| - 1]) * 10 + (s[|s| - 1] as int - '0' as int)
  }

  /** The shortest decimal numeral of a natural number (no leading zero). */
  function NatToDecimal(n: nat): (s: string)
    ensures |s| >= 1 && AllDigits(s)
    ensures s[0] == '0' ==> n == 0 && s == "0"
  {
    if n < 10 then [DigitChar(n)] else NatToDecimal(n / 10) + [DigitChar(n % 10)]
  }

  /** `String(i)` for an integer below 10^21 in magnitude. */
  function IntToDecimal(i: int): string {
    if i < 0 then "-" + NatToDecimal(-i) else NatToDecimal(i)
  }

  lemma {:induction false} NatToDecimalValue(n: nat)
    ensures DigitsValue(NatToDecimal(n)) == n
  {
    if n >= 10 {
      NatToDecimalValue(n / 10);
      var s := NatToDecimal(n);
      assert s[..|s| - 1] == NatToDecimal(n / 10);
    }
  }

  /** A canonical array-index property name ("0", "1", ..., no leading zero). */
  function IndexName(name: string): Option<nat> {
    if name != "" && AllDigits(name) && (name == "0" || name[0] != '0')
    then Some(DigitsValue(name))
    else None
  }

  lemma IndexNameOfDecimal(n: nat)
    ensures IndexName(NatToDecimal(n)) == Some(n)
  {
    NatToDecimalValue(n);
  }

  // ----- the unary plus on strings (`+s`)

  /** The white space and line terminators that `+s` trims. */
  predicate IsJsSpace(c: char) {
    c in {' ', '\t', '\n', '\r', '\U{B}', '\U{C}', '\U{A0}', '\U{FEFF}', '\U{1680}',
          '\U{2000}', '\U{2001}', '\U{2002}', '\U{2003}', '\U{2004}', '\U{2005}',
          '\U{2006}', '\U{2007}', '\U{2008}', '\U{2009}', '\U{200A}', '\U{2028}',
          '\U{2029}', '\U{202F}', '\U{205F}', '\U{3000}'}
  }

  function TrimStart(s: string): string {
    if s != [] && IsJsSpace(s[0]) then TrimStart(s[1..]) else s
  }

  function TrimEnd(s: string): string {
    if s != [] && IsJsSpace(s[|s| - 1]) then TrimEnd(s[..|s| - 1]) else s
  }

  /** `TrimStart` drops the leading white space and nothing else. */
  lemma {:induction false} TrimStartSuffix(s: string)
    ensures |TrimStart(s)| <= |s| && TrimStart(s) == s[|s| - |TrimStart(s)|..]
    ensures TrimStart(s) == [] || !IsJsSpace(TrimStart(s)[0])
  {
    if s != [] && IsJsSpace(s[0]) {
      TrimStartSuffix(s[1..]);
    }
  }

  /** `TrimEnd` drops the trailing white space and nothing else. */
  lemma {:induction false} TrimEndPrefix(s: string)
    ensures |TrimEnd(s)| <= |s| && TrimEnd(s) == s[..|TrimEnd(s)|]
    ensures TrimEnd(s) == [] || !IsJsSpace(TrimEnd(s)[|TrimEnd(s)| - 1])
  {
    if s != [] && IsJsSpace(s[|s| - 1]) {
      TrimEndPrefix(s[..|s| - 1]);
    }
  }

  /** The value of `c` as a digit of base `b` (2, 8, 10 or 16), if it is one. */
  function DigitIn(c: char, b: nat): Option<nat> {
    var d: int :=
      if '0' <= c <= '9' then c as int - '0' as int
      else if 'a' <= c <= 'f' then c as int - 'a' as int + 10
      else if 'A' <= c <= 'F' then c as int - 'A' as int + 10
      else b;
    if 0 <= d < b then Some(d) else None
  }

  predicate AllDigitsIn(s: string, b: nat) {
    forall i :: 0 <= i < |s| ==> DigitIn(s[i], b).Some?
  }

  /** The value of a numeral of base `b`, most significant digit first. */
  function ValueIn(s: string, b: nat): nat
    requires AllDigitsIn(s, b)
  {
    if s == [] then 0
    else ValueIn(s[..|s| - 1], b) * b + DigitIn(s[|s| - 1], b).value
  }

  /** In base 10 the digits are the decimal digits, with their values. */
  lemma {:induction false} ValueInDecimal(s: string)
    requires AllDigits(s)
    ensures AllDigitsIn(s, 10) && ValueIn(s, 10) == DigitsValue(s)
  {
    if s != [] {
      ValueInDecimal(s[..|s| - 1]);
    }
  }

  /** The length of the run of decimal digits `s` starts with. */
  function LeadingDigits(s: string): (n: nat)
    ensures n <= |s| && AllDigits(s[..n])
    ensures n < |s| ==> !IsDigit(s[n])
  {
    if s != [] && IsDigit(s[0]) then
      var n := 1 + LeadingDigits(s[1..]);
      assert s[..n] == [s[0]] + s[1..][..n - 1];
      n
    else 0
  }

  function Pow10(e: nat): (r: nat)
    ensures r >= 1
  {
    if e == 0 then 1 else 10 * Pow10(e - 1)
  }

  /** `m` times ten to the power `e`. */
  function Scale(m: nat, e: int): real {
    if e >= 0 then (m * Pow10(e)) as real else m as real / Pow10(-e) as real
  }

  /** `ExponentPart`: `e` or `E`, an optional sign and decimal digits; the
      empty string is the exponent 0. `None` is anything else. */
  function ExponentOf(s: string): Option<int> {
    if s == "" then Some(0)
    else if s[0] != 'e' && s[0] != 'E' then None
    else if |s| > 2 && (s[1] == '+' || s[1] == '-') && AllDigits(s[2..]) then
      Some(if s[1] == '-' then 0 - DigitsValue(s[2..]) else DigitsValue(s[2..]))
    else if |s| > 1 && AllDigits(s[1..]) then Some(DigitsValue(s[1..]))
    else None
  }

  /** `StrUnsignedDecimalLiteral` other than `Infinity`: digits, an optional
      fraction and an optional exponent, with at least one digit before the
      exponent. */
  function UnsignedDecimalOf(s: string): Option<real> {
    var i := LeadingDigits(s);
    if i < |s| && s[i] == '.' then
      var j := LeadingDigits(s[i + 1..]);
      DecimalOf(s[..i], s[i + 1..][..j], s[i + 1..][j..])
    else DecimalOf(s[..i], "", s[i..])
  }

  /** The digits before and after the point and what follows them, which
      must be an exponent or nothing. */
  function DecimalOf(whole: string, frac: string, after: string): Option<real>
    requires AllDigits(whole) && AllDigits(frac)
  {
    var e := ExponentOf(after);
    if whole == "" && frac == "" then None
    else if e.None? then None
    else Some(Scale(DigitsValue(whole + frac), e.value - |frac|))
  }

  /** `NonDecimalIntegerLiteral`: `0x`, `0o` or `0b` (either case) and at
      least one digit of that base; no sign is allowed. */
  function NonDecimalOf(t: string): Option<real> {
    if |t| > 2 && t[0] == '0' then
      var b := if t[1] in "xX" then 16 else if t[1] in "oO" then 8 else if t[1] in "bB" then 2 else 0;
      if b != 0 && AllDigitsIn(t[2..], b) then Some(ValueIn(t[2..], b) as real) else None
    else None
  }

  /** `+s` for a string (ToNumber applied to a String, section 7.1.4.1 of
      ECMA-262): the white space around it is dropped, the empty string is
      0, and anything that is not a numeric literal is NaN (`None`). */
  function StringToNumber(s: string): Option<real> {
    var t := TrimEnd(TrimStart(s));
    if t == "" then Some(0.0)
    else if NonDecimalOf(t).Some? then NonDecimalOf(t)
    else if t[0] == '-' then
      var v := UnsignedDecimalOf(t[1..]);
      if v.Some? then Some(-v.value) else None
    else if t[0] == '+' then UnsignedDecimalOf(t[1..])
    else UnsignedDecimalOf(t)
  }

  lemma UnsignedDecimalOfDigits(s: string)
    requires AllDigits(s) && s != ""
    ensures UnsignedDecimalOf(s) == Some(DigitsValue(s) as real)
  {
    var i := LeadingDigits(s);
    assert i == |s|;
    assert s[..i] == s && s[i..] == "";
    assert s + "" == s;
  }

  /** White space around a string that starts and ends with a digit or a
      sign is nothing to trim. */
  lemma TrimNothing(s: string)
    requires s != "" && !IsJsSpace(s[0]) && !IsJsSpace(s[|s| - 1])
    ensures TrimEnd(TrimStart(s)) == s
  {
    assert TrimStart(s) == s;
  }

  /** A decimal numeral without sign or white space is its value; the
      empty string is 0. */
  lemma StringToNumberOfDigits(s: string)
    requires AllDigits(s)
    ensures StringToNumber(s) == Some(DigitsValue(s) as real)
  {
    if s != "" {
      TrimNothing(s);
      assert NonDecimalOf(s).None? by {
        if |s| > 2 {
          assert IsDigit(s[1]);
        }
      }
      UnsignedDecimalOfDigits(s);
    }
  }

  /** `+String(i)` is `i`: the decimal numeral of an integer reads back as
      that integer. */
  lemma StringToNumberOfInteger(i: int)
    ensures StringToNumber(IntToDecimal(i)) == Some(i as real)
  {
    NatToDecimalValue(if i < 0 then -i else i);
    if i < 0 {
      var d := NatToDecimal(-i);
      var t := "-" + d;
      TrimNothing(t);
      assert t[1..] == d;
      UnsignedDecimalOfDigits(d);
    } else {
      StringToNumberOfDigits(NatToDecimal(i));
    }
  }

  /** The run of leading digits stops at the first character that is not
      one. */
  lemma {:induction false} LeadingDigitsOf(d: string, rest: string)
    requires AllDigits(d) && (rest == "" || !IsDigit(rest[0]))
    ensures LeadingDigits(d + rest) == |d|
  {
    if d != "" {
      assert (d + rest)[1..] == d[1..] + rest;
      LeadingDigitsOf(d[1..], rest);
    }
  }

  /** A trimmed literal without sign or base prefix is read as a decimal. */
  lemma StringToNumberUnsigned(t: string)
    requires t != "" && !IsJsSpace(t[0]) && !IsJsSpace(t[|t| - 1])
    requires t[0] != '-' && t[0] != '+' && (|t| > 2 && t[0] == '0' ==> t[1] !in "xXoObB")
    ensures StringToNumber(t) == UnsignedDecimalOf(t)
  {
    TrimNothing(t);
  }

  lemma UnsignedDecimalOfFraction(d: string, f: string)
    requires AllDigits(d) && AllDigits(f) && (d != "" || f != "")
    ensures UnsignedDecimalOf(d + "." + f) == Some(Scale(DigitsValue(d + f), 0 - |f|))
  {
    var t := d + "." + f;
    assert t == d + ("." + f);
    LeadingDigitsOf(d, "." + f);
    var rest := t[|d|..];
    assert t[..|d|] == d && rest == "." + f;
    assert rest[1..] == f;
    LeadingDigitsOf(f, "");
    assert f + "" == f && f[..|f|] == f;
    assert rest[1 + |f|..] == "";
  }

  /** `+"d.f"` is the numeral `df` scaled down by the length of `f`
      (`"8.0"` is 8, `".25"` is 0.25, `"5."` is 5). */
  lemma StringToNumberOfFraction(d: string, f: string)
    requires AllDigits(d) && AllDigits(f) && (d != "" || f != "")
    ensures StringToNumber(d + "." + f) == Some(Scale(DigitsValue(d + f), 0 - |f|))
  {
    var t := d + "." + f;
    assert t[|d|] == '.';
    assert forall j :: 0 <= j < |t| ==> t[j] == '.' || IsDigit(t[j]);
    StringToNumberUnsigned(t);
    UnsignedDecimalOfFraction(d, f);
  }

  lemma UnsignedDecimalOfExponent(d: string, k: string)
    requires AllDigits(d) && d != "" && AllDigits(k) && k != ""
    ensures UnsignedDecimalOf(d + "e" + k) == Some(Scale(DigitsValue(d), DigitsValue(k)))
  {
    DigitsThenRest(d, "e" + k);
    assert d + "e" + k == d + ("e" + k);
    DecimalOfExponent(d, k);
  }

  lemma DecimalOfExponent(d: string, k: string)
    requires AllDigits(d) && d != "" && AllDigits(k) && k != ""
    ensures DecimalOf(d, "", "e" + k) == Some(Scale(DigitsValue(d), DigitsValue(k)))
  {
    ExponentOfDigits(k);
    var x := DigitsValue(k);
    assert d + "" == d;
    assert x - |""| == x;
    assert DecimalOf(d, "", "e" + k) == Some(Scale(DigitsValue(d + ""), x - |""|));
  }

  /** Digits followed by something other than a point are the whole part. */
  lemma DigitsThenRest(d: string, rest: string)
    requires AllDigits(d) && rest != "" && !IsDigit(rest[0]) && rest[0] != '.'
    ensures UnsignedDecimalOf(d + rest) == DecimalOf(d, "", rest)
  {
    LeadingDigitsOf(d, rest);
    assert (d + rest)[..|d|] == d && (d + rest)[|d|..] == rest;
  }

  lemma ExponentOfDigits(k: string)
    requires AllDigits(k) && k != ""
    ensures ExponentOf("e" + k) == Some(DigitsValue(k))
  {
    var s := "e" + k;
    assert s[1..] == k && IsDigit(s[1]);
  }

  /** `+"de"+"k"` is the numeral `d` times ten to the power `k`. */
  lemma StringToNumberOfExponent(d: string, k: string)
    requires AllDigits(d) && d != "" && AllDigits(k) && k != ""
    ensures StringToNumber(d + "e" + k) == Some(Scale(DigitsValue(d), DigitsValue(k)))
  {
    var t := d + "e" + k;
    assert forall j :: 0 <= j < |t| ==> t[j] == 'e' || IsDigit(t[j]);
    StringToNumberUnsigned(t);
    UnsignedDecimalOfExponent(d, k);
  }

  /** `+"0x"+h` is the hexadecimal numeral `h`. */
  lemma StringToNumberOfHex(h: string)
    requires AllDigitsIn(h, 16) && h != ""
    ensures StringToNumber("0x" + h) == Some(ValueIn(h, 16) as real)
  {
    var t := "0x" + h;
    assert t[|t| - 1] == h[|h| - 1] && DigitIn(h[|h| - 1], 16).Some?;
    TrimNothing(t);
    assert t[2..] == h;
  }

  /** A fraction of zeros changes nothing: `+"8.0"` is 8. */
  lemma TrailingFractionZero(d: string)
    requires AllDigits(d) && d != ""
    ensures StringToNumber(d + ".0") == Some(DigitsValue(d) as real)
  {
    StringToNumberOfFraction(d, "0");
    TimesTen(d);
    TenthOfTimesTen(DigitsValue(d));
    assert d + "." + "0" == d + ".0";
  }

  lemma TimesTen(d: string)
    requires AllDigits(d)
    ensures AllDigits(d + "0") && DigitsValue(d + "0") == DigitsValue(d) * 10
  {
    assert (d + "0")[..|d|] == d;
  }

  lemma TenthOfTimesTen(m: nat)
    ensures Scale(m * 10, 0 - 1) == m as real
  {
    assert Pow10(1) == 10;
  }

  // ----- property access

  /** `v[name]` for an own property of a non-nullish value; anything else
      (inherited properties included) is `undefined`. */
  function Get(v: Value, name: string): Value {
    match v
    case Obj(fs) => Lookup(fs, name).GetOr(Undefined)
    case Arr(es) =>
      if name == "length" then Num(|es| as real)
      else if IndexName(name).Some? && IndexName(name).value < |es| then es[IndexName(name).value]
      else Undefined
    case Str(s) =>
      if name == "length" then Num(|s| as real)
      else if IndexName(name).Some? && IndexName(name).value < |s| then Str([s[IndexName(name).value]])
      else Undefined
    case _ => Undefined
  }

  function NullishName(v: Value): string {
    if v.Null? then "null" else "undefined"
  }

  /** `v[name]` where reading a property of null or undefined throws. */
  function GetProp(v: Value, name: string): (r: Result<Value, string>)
    ensures r.Err? <==> IsNullish(v)
    ensures r.Ok? ==> r.value == Get(v, name)
  {
    if IsNullish(v)
    then Err("TypeError: Cannot read property '" + name + "' of " + NullishName(v))
    else Ok(Get(v, name))
  }

  /** The property name a value converts to when used as a key; `None`
      for the values whose conversion is not modelled (non-integer
      numbers, arrays, objects). */
  function PropertyKey(v: Value): Option<string> {
    match v
    case Str(s) => Some(s)
    case Num(x) => if IsInteger(x) then Some(IntToDecimal(x.Floor)) else None
    case Bool(b) => Some(if b then "true" else "false")
    case Null => Some("null")
    case Undefined => Some("undefined")
    case _ => None
  }

  /** lodash `filter` with a predicate, over the elements it visits. */
  function Filter(s: seq<Value>, p: Value -> bool): (r: seq<Value>)
    ensures |r| <= |s|
    ensures forall i :: 0 <= i < |r| ==> p(r[i])
  {
    if s == [] then []
    else if p(s[0]) then [s[0]] + Filter(s[1..], p)
    else Filter(s[1..], p)
  }

  /** `filter` keeps exactly the elements the predicate accepts. */
  lemma {:induction false} FilterMembers(s: seq<Value>, p: Value -> bool, x: Value)
    ensures x in Filter(s, p) <==> x in s && p(x)
  {
    if s != [] {
      FilterMembers(s[1..], p, x);
      assert x in s <==> x == s[0] || x in s[1..];
    }
  }

  /** The error a property read reports when `PropertyKey` is `None`. */
  const KeyNotModelled := "conversion of this value to a property key is not modelled"

  // ----- strings

  function ToLowerChar(c: char): char {
    if 'A' <= c <= 'Z' then (c as int + 32) as char else c
  }

  /** `toLowerCase()` on the ASCII letters. */
  function ToLower(s: string): (r: string)
    ensures |r| == |s|
    ensures forall i :: 0 <= i < |s| ==> r[i] == ToLowerChar(s[i])
  {
    if s == [] then [] else [ToLowerChar(s[0])] + ToLower(s[1..])
  }

  lemma ToLowerIdempotent(s: string)
    ensures ToLower(ToLower(s)) == ToLower(s)
  {
  }

  predicate OccursAt(s: string, p: string, k: int) {
    0 <= k && k + |p| <= |s| && s[k..k + |p|] == p
  }

  /** `s.indexOf(p) !== -1`. */
  predicate Contains(s: string, p: string) {
    exists k | 0 <= k <= |s| :: OccursAt(s, p, k)
  }

  /** `s.split(sep)` for a one-character separator. */
  function Split(s: string, sep: char): (parts: seq<string>)
    ensures |parts| >= 1
    ensures forall i :: 0 <= i < |parts| ==> sep !in parts[i]
  {
    if s == [] then [""]
    else
      var rest := Split(s[1..], sep);
      if s[0] == sep then [""] + rest else [[s[0]] + rest[0]] + rest[1..]
  }
}
