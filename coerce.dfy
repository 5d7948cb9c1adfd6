/** JavaScript's conversions of JSON values: `Number(v)`, which `||`,
    `Math.min` and the comparison `> 0` apply to their operands, and
    `String(v)`, which template strings and `join` apply. */
module Coerce {
  import opened Js
  import opened Text

  /** A number a conversion can produce: a finite value, one of the two
      infinities (only the text `Infinity` gives one here) or `NaN`. */
  datatype Number = Finite(x: real) | Infinity(negative: bool) | NaN

  /** The value of a run of decimal digits. */
  function DigitsValue(ds: string): nat
    decreases |ds|
  {
    if ds == [] then 0
    else
      var d := ds[|ds| - 1];
      DigitsValue(ds[..|ds| - 1]) * 10 + (if IsDigit(d) then d as int - '0' as int else 0)
  }

  function Pow10(k: nat): (r: nat)
    ensures r >= 1
  {
    if k == 0 then 1 else 10 * Pow10(k - 1)
  }

  predicate AllDigits(s: string)
  {
    forall i :: 0 <= i < |s| ==> IsDigit(s[i])
  }

  /** The value of a digit in base `base` (2, 8 or 16 here), if it is one. */
  function DigitIn(c: char, base: nat): (r: Option<nat>)
    ensures r.Some? ==> r.value < base
  {
    var d := if '0' <= c <= '9' then c as int - '0' as int
      else if 'a' <= c <= 'f' then c as int - 'a' as int + 10
      else if 'A' <= c <= 'F' then c as int - 'A' as int + 10
      else base;
    if 0 <= d < base then Some(d) else None
  }

  /** The value of a run of base-`base` digits; `None` when a character is
      not such a digit. */
  function RadixValue(ds: string, base: nat): (r: Option<nat>)
    ensures r.Some? <==> forall i :: 0 <= i < |ds| ==> DigitIn(ds[i], base).Some?
    decreases |ds|
  {
    if ds == [] then Some(0)
    else
      var init, d := RadixValue(ds[..|ds| - 1], base), DigitIn(ds[|ds| - 1], base);
      assert forall i :: 0 <= i < |ds| - 1 ==> ds[..|ds| - 1][i] == ds[i];
      if init.Some? && d.Some? then Some(init.value * base + d.value) else None
  }

  /** The base a `0x`, `0o` or `0b` prefix (either case) selects. */
  function PrefixBase(c: char): Option<nat>
  {
    if c == 'x' || c == 'X' then Some(16)
    else if c == 'o' || c == 'O' then Some(8)
    else if c == 'b' || c == 'B' then Some(2)
    else None
  }

  /** A decimal mantissa `digits[.digits]` or `.digits`, at least one
      digit. */
  function Mantissa(s: string): (r: Option<real>)
    ensures r.Some? ==> r.value >= 0.0
  {
    match Find(s, '.')
    case None =>
      if s != [] && AllDigits(s) then Some(DigitsValue(s) as real) else None
    case Some(p) =>
      var whole, frac := s[..p], s[p + 1..];
      if AllDigits(whole) && AllDigits(frac) && (whole != [] || frac != []) then
        Some(DigitsValue(whole) as real + (DigitsValue(frac) as real) / (Pow10(|frac|) as real))
      else None
  }

  /** An exponent `[+-]digits`, at least one digit. */
  function Exponent(s: string): (r: Option<int>)
  {
    var neg := s != [] && s[0] == '-';
    var ds := if s != [] && (s[0] == '-' || s[0] == '+') then s[1..] else s;
    var v: int := DigitsValue(ds);
    if ds != [] && AllDigits(ds) then Some(if neg then -v else v) else None
  }

  /** `m` times ten to the power `e`. */
  function Scale(m: real, e: int): (r: real)
    ensures m >= 0.0 ==> r >= 0.0
  {
    if e >= 0 then m * (Pow10(e) as real) else m / (Pow10(-e) as real)
  }

  /** An unsigned decimal: a mantissa, optionally followed by `e` or `E`
      and an exponent. */
  function UnsignedDecimal(s: string): (r: Option<real>)
    ensures r.Some? ==> r.value >= 0.0
  {
    match Find(Lower(s), 'e')
    case None => Mantissa(s)
    case Some(p) =>
      var m, e := Mantissa(s[..p]), Exponent(s[p + 1..]);
      if m.Some? && e.Some? then Some(Scale(m.value, e.value))
      else None
  }

  /** `Number(s)` for a string: white space around is ignored and the empty
      string is 0; the rest is read by `NumeralValue`. */
  function StringToNumber(s: string): (r: Number)
    ensures Trim(s) == "" ==> r == Finite(0.0)
    ensures r.Finite? && Trim(s) != "" && Trim(s)[0] != '-' ==> r.x >= 0.0
  {
    NumeralValue(Trim(s))
  }

  /** A trimmed numeral: the empty text is 0; `0x`, `0o` and `0b` numerals
      (unsigned) are read in their base; a signed decimal with an optional
      exponent, or a signed `Infinity`, is its value; anything else is
      `NaN`. */
  function NumeralValue(t: string): (r: Number)
    ensures t == "" ==> r == Finite(0.0)
    ensures r.Finite? && t != "" && t[0] != '-' ==> r.x >= 0.0
  {
    if t == "" then Finite(0.0)
    else if |t| >= 2 && t[0] == '0' && PrefixBase(t[1]).Some? then
      var v := RadixValue(t[2..], PrefixBase(t[1]).value);
      if |t| > 2 && v.Some? then Finite(v.value as real) else NaN
    else
      var neg := t[0] == '-';
      var u := if t[0] == '-' || t[0] == '+' then t[1..] else t;
      if u == "Infinity" then Infinity(neg)
      else
        match UnsignedDecimal(u)
        case Some(x) => Finite(if neg then -x else x)
        case None => NaN
  }

  /** A decimal numeral that starts with a digit other than a `0x`-style
      prefix, or with a minus sign before a digit, reads through
      `UnsignedDecimal`. */
  lemma DecimalNumeral(t: string)
    requires |t| >= 2 || (t != [] && IsDigit(t[0]))
    requires IsDigit(t[0]) || (t[0] == '-' && IsDigit(t[1]))
    requires IsDigit(t[0]) && |t| >= 2 ==> t[0] != '0' || PrefixBase(t[1]).None?
    ensures t[0] != '-' ==> NumeralValue(t) == (match UnsignedDecimal(t) case Some(x) => Finite(x) case None => NaN)
    ensures t[0] == '-' ==> NumeralValue(t) == (match UnsignedDecimal(t[1..]) case Some(x) => Finite(-x) case None => NaN)
  {
    var u := if t[0] == '-' then t[1..] else t;
    assert IsDigit(u[0]);
    assert u != "Infinity";
  }

  /** The position of the first occurrence of a character is where `Find`
      stops. */
  lemma FindAt(s: string, c: char, p: nat)
    requires p < |s| && s[p] == c && c !in s[..p]
    ensures Find(s, c) == Some(p)
  {
  }

  /** Digits `m`, `e`, an optional sign and digits `e` read as the value
      `mv` of `m` times ten to the power `x` of the signed exponent. */
  lemma ExponentDecimal(m: string, sign: string, e: string, mv: real, x: int)
    requires m != [] && AllDigits(m) && e != [] && AllDigits(e)
    requires sign == "" || sign == "-" || sign == "+"
    requires mv == DigitsValue(m) as real
    requires x == if sign == "-" then -(DigitsValue(e) as int) else DigitsValue(e)
    ensures UnsignedDecimal(m + "e" + sign + e) == Some(Scale(mv, x))
  {
    FirstE(m, sign, e);
    MantissaBeforeE(m, sign, e);
    ExponentAfterE(m, sign, e);
    DecimalAt(m + "e" + sign + e, |m|, mv, x);
  }

  /** The text before that `e` is the mantissa `m`. */
  lemma MantissaBeforeE(m: string, sign: string, e: string)
    requires m != [] && AllDigits(m)
    ensures Mantissa((m + "e" + sign + e)[..|m|]) == Some(DigitsValue(m) as real)
  {
    assert (m + "e" + sign + e)[..|m|] == m;
    MantissaDigits(m);
  }

  /** The text after that `e` is the signed exponent. */
  lemma ExponentAfterE(m: string, sign: string, e: string)
    requires e != [] && AllDigits(e)
    requires sign == "" || sign == "-" || sign == "+"
    ensures Exponent((m + "e" + sign + e)[|m| + 1..]) == Some(if sign == "-" then -(DigitsValue(e) as int) else DigitsValue(e))
  {
    assert (m + "e" + sign + e)[|m| + 1..] == sign + e;
    SignedExponent(sign, e);
  }

  /** A mantissa before the first `e` and an exponent after it read as the
      mantissa scaled by the exponent. */
  lemma DecimalAt(s: string, p: nat, m: real, x: int)
    requires Find(Lower(s), 'e') == Some(p) && Mantissa(s[..p]) == Some(m) && Exponent(s[p + 1..]) == Some(x)
    ensures UnsignedDecimal(s) == Some(Scale(m, x))
  {
  }

  /** In digits followed by `e`, the first `e` is the one after the digits. */
  lemma FirstE(m: string, sign: string, e: string)
    requires AllDigits(m)
    ensures Find(Lower(m + "e" + sign + e), 'e') == Some(|m|)
  {
    var s := Lower(m + "e" + sign + e);
    assert s[|m|] == 'e';
    assert 'e' !in s[..|m|] by {
      forall i | 0 <= i < |m| ensures s[..|m|][i] != 'e' { assert IsDigit(m[i]); }
    }
    FindAt(s, 'e', |m|);
  }

  /** A run of digits is a mantissa worth its decimal value. */
  lemma MantissaDigits(m: string)
    requires m != [] && AllDigits(m)
    ensures Mantissa(m) == Some(DigitsValue(m) as real)
  {
    assert '.' !in m by {
      forall i | 0 <= i < |m| ensures m[i] != '.' { assert IsDigit(m[i]); }
    }
  }

  /** A sign followed by digits is an exponent worth the signed value. */
  lemma SignedExponent(sign: string, e: string)
    requires e != [] && AllDigits(e)
    requires sign == "" || sign == "-" || sign == "+"
    ensures Exponent(sign + e) == Some(if sign == "-" then -(DigitsValue(e) as int) else DigitsValue(e))
  {
    var x := sign + e;
    if sign == "" {
      assert x == e;
      assert IsDigit(e[0]);
    } else {
      assert x[0] == sign[0] && x[1..] == e;
    }
  }

  /** The decimal rendering of a natural number reads back as that number. */
  lemma {:induction false} DigitsOfNat(n: nat)
    ensures AllDigits(NatToString(n))
    ensures DigitsValue(NatToString(n)) == n
    decreases n
  {
    var s := NatToString(n);
    if n < 10 {
      DigitCharValue(n);
      assert s[..0] == [];
    } else {
      var q, r := n / 10, n % 10;
      DigitsOfNat(q);
      DigitCharValue(r);
      assert s == NatToString(q) + [DigitChar(r)];
      assert s[..|s| - 1] == NatToString(q);
      assert DigitsValue(s) == DigitsValue(NatToString(q)) * 10 + r;
    }
  }

  /** The character of a decimal digit stands for that digit. */
  lemma DigitCharValue(d: nat)
    requires d < 10
    ensures IsDigit(DigitChar(d)) && DigitChar(d) as int - '0' as int == d
  {
  }

  /** `Number(String(n))` is `n` for a natural number. */
  lemma NumberOfNatText(n: nat)
    ensures StringToNumber(NatToString(n)) == Finite(n as real)
  {
    DigitsOfNat(n);
    DigitsNumber(NatToString(n));
  }

  /** A run of digits, without a sign or a prefix, reads as its value. */
  lemma DigitsNumber(s: string)
    requires s != [] && AllDigits(s)
    ensures StringToNumber(s) == Finite(DigitsValue(s) as real)
  {
    assert IsDigit(s[0]) && IsDigit(s[|s| - 1]);
    TrimWhole(s);
    if |s| >= 2 {
      assert IsDigit(s[1]);
    }
    DecimalNumeral(s);
    UnsignedDigits(s);
  }

  /** A plain run of digits reads as its value. */
  lemma UnsignedDigits(s: string)
    requires s != [] && AllDigits(s)
    ensures UnsignedDecimal(s) == Some(DigitsValue(s) as real)
  {
    assert 'e' !in Lower(s) by {
      forall i | 0 <= i < |s| ensures Lower(s)[i] != 'e' { assert IsDigit(s[i]); }
    }
    MantissaDigits(s);
  }

  /** `Number(String(i))` is `i` for every integer. */
  lemma NumberOfIntText(i: int)
    ensures StringToNumber(IntToString(i)) == Finite(i as real)
  {
    if i >= 0 {
      NumberOfNatText(i);
    } else {
      var s := NatToString(-i);
      DigitsOfNat(-i);
      NegatedDigits(s);
      assert IntToString(i) == "-" + s;
    }
  }

  /** A minus sign before a run of digits negates its value. */
  lemma NegatedDigits(s: string)
    requires s != [] && AllDigits(s)
    ensures StringToNumber("-" + s) == Finite(-(DigitsValue(s) as real))
  {
    var t := "-" + s;
    assert IsDigit(s[0]) && IsDigit(s[|s| - 1]);
    assert t[|t| - 1] == s[|s| - 1] && t[1] == s[0] && t[1..] == s;
    TrimWhole(t);
    DecimalNumeral(t);
    UnsignedDigits(s);
  }

  /** Digits, `e`, an optional sign and digits, with no white space around
      and no `0x`-style prefix, convert to the mantissa scaled by the
      exponent. */
  lemma ExponentNumber(m: string, sign: string, e: string, mv: real, x: int)
    requires m != [] && AllDigits(m) && e != [] && AllDigits(e)
    requires sign == "" || sign == "-" || sign == "+"
    requires mv == DigitsValue(m) as real
    requires x == if sign == "-" then -(DigitsValue(e) as int) else DigitsValue(e)
    requires m[0] != '0'
    ensures StringToNumber(m + "e" + sign + e) == Finite(Scale(mv, x))
  {
    var s := m + "e" + sign + e;
    ExponentDecimal(m, sign, e, mv, x);
    assert IsDigit(m[0]) && IsDigit(e[|e| - 1]);
    assert s[0] == m[0] && s[|s| - 1] == e[|e| - 1];
    TrimWhole(s);
    DecimalNumeral(s);
  }

  /** The value of a single digit. */
  lemma DigitValue(c: char)
    requires IsDigit(c)
    ensures DigitsValue([c]) == c as int - '0' as int
  {
    assert [c][..0] == [];
  }

  /** An exponent multiplies the mantissa by a power of ten: the text
      `1e3` is 1000. (The text is written as a concatenation so that the
      verifier does not evaluate the conversion on a literal.) */
  lemma ExponentForm()
    ensures StringToNumber("1" + "e" + "3") == Finite(1000.0)
  {
    DigitValue('1');
    DigitValue('3');
    assert AllDigits("1") && AllDigits("3");
    ExponentNumber("1", "", "3", 1.0, 3);
    assert "1" + "e" + "" == "1" + "e";
    assert Pow10(3) == 1000;
  }

  /** A negative exponent divides by a power of ten: the text `1e-1` is
      0.1. */
  lemma NegativeExponentForm()
    ensures StringToNumber("1" + "e" + "-" + "1") == Finite(0.1)
  {
    DigitValue('1');
    assert AllDigits("1");
    assert Scale(1.0, -1) == 0.1 by {
      assert Pow10(1) == 10;
    }
    ExponentNumber("1", "-", "1", 1.0, -1);
  }

  /** A `0x` numeral is read in base 16. */
  lemma HexForm()
    ensures StringToNumber("0x10") == Finite(16.0)
  {
    var s := "0x10";
    TrimWhole(s);
    assert s[2..] == "10" && "10"[..1] == "1";
    assert RadixValue("1", 16) == Some(1);
    assert RadixValue("10", 16) == Some(16);
  }

  /** A prefixed numeral after a sign is not a number. */
  lemma SignedHexForm()
    ensures StringToNumber("-0x10") == NaN
  {
    var s, t := "0x10", "-0x10";
    TrimWhole(t);
    assert t[1..] == s && s != "Infinity";
    assert Lower(s) == s;
    assert Find(s, 'e') == None;
    assert !IsDigit(s[1]);
    assert Mantissa(s) == None by {
      assert Find(s, '.') == None;
    }
  }

  /** `-Infinity` is the negative infinity. */
  lemma InfinityForm()
    ensures StringToNumber("-Infinity") == Infinity(true)
  {
    var s := "-Infinity";
    TrimWhole(s);
    assert s[1..] == "Infinity";
  }

  /** The text `100` reads as the number 100. */
  lemma HundredText()
    ensures StringToNumber("100") == Finite(100.0)
  {
    var s := "100";
    TrimWhole(s);
    assert s[..2] == "10" && "10"[..1] == "1" && "1"[..0] == "";
    assert DigitsValue("1") == 1;
    assert DigitsValue("10") == 10;
    assert DigitsValue(s) == 100;
    assert AllDigits(s) by { assert s[0] == '1' && s[1] == '0' && s[2] == '0'; }
    DigitsNumber(s);
  }

  /** `Number(v)` for the values JSON can carry. An array converts through
      its text: `[]` is 0, an array of two or more elements holds a comma
      and is `NaN`, and a one-element array is the number of its element's
      text (0 for `null` and `undefined`, `NaN` for a boolean or an
      object). */
  function NumberOf(v: JsValue): Number
  {
    match v
    case Undefined => NaN
    case Null => Finite(0.0)
    case Bool(b) => Finite(if b then 1.0 else 0.0)
    case Num(n) => Finite(n)
    case Str(s) => StringToNumber(s)
    case Obj(_) => NaN
    case Arr(items) =>
      if items == [] then Finite(0.0)
      else if |items| > 1 then NaN
      else
        match items[0]
        case Undefined => Finite(0.0)
        case Null => Finite(0.0)
        case Bool(_) => NaN
        case Num(n) => Finite(n)
        case Str(s) => StringToNumber(s)
        case Obj(_) => NaN
        case Arr(inner) => NumberOf(items[0])
  }

  /** The text of a number: exact for whole numbers below 10^21; any other
      number is written by its floor (2.5 as `2`, -2.5 as `-3`), not by the
      shortest decimal JavaScript writes for it. */
  function NumberText(n: real): string
  {
    IntToString(n.Floor)
  }

  /** `String(v)`, as a template string renders it. */
  function ToText(v: JsValue): string
  {
    match v
    case Undefined => "undefined"
    case Null => "null"
    case Bool(b) => if b then "true" else "false"
    case Num(n) => NumberText(n)
    case Str(s) => s
    case Arr(items) => Join(ElementTexts(items), ",")
    case Obj(_) => "[object Object]"
  }

  /** The texts of array elements as `join` renders them: `null` and
      `undefined` are empty, and a nested array is joined in turn. */
  function ElementTexts(items: seq<JsValue>): (r: seq<string>)
    ensures |r| == |items|
    decreases items
  {
    if items == [] then []
    else
      var t := match items[0]
        case Undefined => ""
        case Null => ""
        case Bool(b) => if b then "true" else "false"
        case Num(n) => NumberText(n)
        case Str(s) => s
        case Arr(inner) => Join(ElementTexts(inner), ",")
        case Obj(_) => "[object Object]";
      [t] + ElementTexts(items[1..])
  }
}
