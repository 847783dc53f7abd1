/**
 * The JavaScript values that parsed JSON nodes carry, with the parts of the
 * language the history-element transformation relies on: truthiness,
 * conversion to a string (`String(v)`), `parseInt` with no radix, and
 * `Object.entries`. Numbers are integers or `NaN`.
 */
module JsValues {
  import opened Wrappers
  import opened JsMaps
  import opened Text

  datatype Value =
    | Undefined
    | Null
    | Bool(b: bool)
    | Num(n: int)
    | NaN
    | Str(s: string)
    | Arr(items: seq<Value>)
    | Obj(fields: JsMap<string, Value>)

  /** What `if (v)` and `v && ...` test: every array and object, even an empty one, is truthy. */
  predicate Truthy(v: Value)
    ensures v.Arr? || v.Obj? ==> Truthy(v)
  {
    match v
    case Undefined => false
    case Null => false
    case Bool(b) => b
    case Num(n) => n != 0
    case NaN => false
    case Str(s) => |s| > 0
    case Arr(_) => true
    case Obj(_) => true
  }

  /** A falsy value renders as one of six texts. */
  lemma FalsyTexts(v: Value)
    requires !Truthy(v)
    ensures ToJsString(v) in {"undefined", "null", "false", "0", "NaN", ""}
  {
  }

  /** `obj[key]` on an object: the own property, or `undefined`. */
  function Property(fields: JsMap<string, Value>, key: string): (r: Value)
    ensures key in fields.m ==> r == fields.m[key]
    ensures key !in fields.m ==> r == Undefined
  {
    if key in fields.m then fields.m[key] else Undefined
  }

  /**
   * `String(v)`: arrays join their elements with `,`, rendering `null` and
   * `undefined` as empty; the text of a value other than a number, a string
   * or an array has no digit.
   */
  function ToJsString(v: Value): (r: string)
    ensures v.Undefined? || v.Null? || v.Bool? || v.NaN? || v.Obj? ==> forall i :: 0 <= i < |r| ==> !IsDigit(r[i])
    decreases v
  {
    match v
    case Undefined => "undefined"
    case Null => "null"
    case Bool(b) => if b then "true" else "false"
    case Num(n) => IntToString(n)
    case NaN => "NaN"
    case Str(s) => s
    case Arr(items) =>
      Join(seq(|items|, i requires 0 <= i < |items| =>
                 if items[i].Undefined? || items[i].Null? then "" else ToJsString(items[i])),
           ",")
    case Obj(_) => "[object Object]"
  }

  /** `Object.entries(v)`: an object's own entries in key order, the index entries of an array or a string, else none. */
  function OwnEntries(v: Value): (r: seq<(string, Value)>)
    ensures v.Obj? && v.fields.Valid() ==> r == v.fields.Entries()
    ensures v.Arr? ==> |r| == |v.items| && forall i :: 0 <= i < |r| ==> r[i] == (NatToString(i), v.items[i])
  {
    match v
    case Obj(f) =>
      seq(|f.keys|, i requires 0 <= i < |f.keys| => (f.keys[i], Property(f, f.keys[i])))
    case Arr(items) =>
      seq(|items|, i requires 0 <= i < |items| => (NatToString(i), items[i]))
    case Str(s) =>
      seq(|s|, i requires 0 <= i < |s| => (NatToString(i), Str([s[i]])))
    case _ => []
  }

  /** The characters `parseInt` skips before the number: white space and line terminators. */
  predicate IsWhiteSpace(c: char) {
    || c == '\t' || c == '\n' || c == '\U{000B}' || c == '\U{000C}' || c == '\r' || c == ' '
    || c == '\U{00A0}' || c == '\U{1680}' || ('\U{2000}' <= c <= '\U{200A}')
    || c == '\U{2028}' || c == '\U{2029}' || c == '\U{202F}' || c == '\U{205F}' || c == '\U{3000}'
    || c == '\U{FEFF}'
  }

  /** The string without its leading white space. */
  function TrimStart(s: string): (r: string)
    ensures |r| <= |s| && r == s[|s| - |r|..]
  {
    if |s| > 0 && IsWhiteSpace(s[0]) then TrimStart(s[1..]) else s
  }

  datatype Radix = Decimal | Hexadecimal

  predicate IsRadixDigit(radix: Radix, c: char) {
    match radix
    case Decimal => IsDigit(c)
    case Hexadecimal => IsDigit(c) || 'a' <= c <= 'f' || 'A' <= c <= 'F'
  }

  function RadixDigitValue(radix: Radix, c: char): (d: nat)
    requires IsRadixDigit(radix, c)
    ensures radix.Decimal? ==> d < 10
    ensures radix.Hexadecimal? ==> d < 16
  {
    if IsDigit(c) then DigitValue(c)
    else if 'a' <= c <= 'f' then (c as int - 'a' as int + 10) as nat
    else (c as int - 'A' as int + 10) as nat
  }

  function Base(radix: Radix): nat {
    match radix
    case Decimal => 10
    case Hexadecimal => 16
  }

  /** The longest prefix of radix digits. */
  function LeadingDigits(s: string, radix: Radix): (r: string)
    ensures |r| <= |s|
    ensures forall i :: 0 <= i < |r| ==> IsRadixDigit(radix, r[i])
  {
    if |s| > 0 && IsRadixDigit(radix, s[0]) then [s[0]] + LeadingDigits(s[1..], radix) else ""
  }

  /** The value of a string of radix digits, most significant first. */
  function RadixValue(s: string, radix: Radix): nat
    requires forall i :: 0 <= i < |s| ==> IsRadixDigit(radix, s[i])
  {
    if |s| == 0 then 0
    else RadixValue(s[..|s| - 1], radix) * Base(radix) + RadixDigitValue(radix, s[|s| - 1])
  }

  /** Base 16 after a `0x` or `0X` prefix, base 10 otherwise. */
  function RadixOf(u: string): Radix {
    if |u| >= 2 && u[0] == '0' && (u[1] == 'x' || u[1] == 'X') then Hexadecimal else Decimal
  }

  /**
   * The unsigned part of `parseInt`: the longest run of digits in the radix,
   * after the `0x` prefix when there is one; nothing when that run is empty.
   */
  function ReadMagnitude(u: string): (r: Option<nat>)
  {
    var radix := RadixOf(u);
    var digits := LeadingDigits(if radix.Hexadecimal? then u[2..] else u, radix);
    if |digits| == 0 then None else Some(RadixValue(digits, radix))
  }

  /** `parseInt` after the white space: an optional sign, then the magnitude; `NaN` when there is none. */
  function ParseSigned(t: string): (r: Value)
    ensures r.Num? || r.NaN?
  {
    var negative := |t| > 0 && t[0] == '-';
    var u := if |t| > 0 && (t[0] == '-' || t[0] == '+') then t[1..] else t;
    match ReadMagnitude(u)
    case None => NaN
    case Some(m) => var v: int := m; Num(if negative then -v else v)
  }

  /** `parseInt(s)` with no radix: leading white space is skipped. */
  function ParseInt(s: string): (r: Value)
    ensures r.Num? || r.NaN?
  {
    ParseSigned(TrimStart(s))
  }

  /** On decimal digits the radix value is the decimal value. */
  lemma {:induction false} DecimalValue(s: string)
    requires AllDigits(s)
    ensures RadixValue(s, Decimal) == DigitsValue(s)
  {
    if |s| > 0 {
      DecimalValue(s[..|s| - 1]);
    }
  }

  /** A run of digits followed by a non-digit is read up to the non-digit. */
  lemma {:induction false} LeadingDigitsOf(d: string, t: string, radix: Radix)
    requires forall i :: 0 <= i < |d| ==> IsRadixDigit(radix, d[i])
    requires |t| == 0 || !IsRadixDigit(radix, t[0])
    ensures LeadingDigits(d + t, radix) == d
  {
    if |d| > 0 {
      assert (d + t)[1..] == d[1..] + t;
      LeadingDigitsOf(d[1..], t, radix);
      assert [d[0]] + d[1..] == d;
    } else {
      assert d + t == t;
    }
  }

  lemma {:induction false} TrimWhiteSpace(w: string, t: string)
    requires forall i :: 0 <= i < |w| ==> IsWhiteSpace(w[i])
    requires |t| == 0 || !IsWhiteSpace(t[0])
    ensures TrimStart(w + t) == t
  {
    if |w| > 0 {
      assert (w + t)[1..] == w[1..] + t;
      TrimWhiteSpace(w[1..], t);
    } else {
      assert w + t == t;
    }
  }

  /** Digits followed by a tail that neither continues them nor makes a hex prefix are read in base 10. */
  lemma DecimalRadix(d: string, t: string)
    requires |d| >= 1 && AllDigits(d)
    requires |t| > 0 ==> !IsDigit(t[0]) && t[0] != 'x' && t[0] != 'X'
    ensures RadixOf(d + t) == Decimal
  {
    var u := d + t;
    if |d| >= 2 {
      assert u[1] == d[1];
    } else if |t| > 0 {
      assert u[1] == t[0];
    }
  }

  /** Decimal digits followed by a tail that does not continue them are read as a decimal number. */
  lemma ReadDecimal(d: string, t: string)
    requires |d| >= 1 && AllDigits(d)
    requires |t| > 0 ==> !IsDigit(t[0]) && t[0] != 'x' && t[0] != 'X'
    ensures ReadMagnitude(d + t) == Some(DigitsValue(d))
  {
    DecimalRadix(d, t);
    LeadingDigitsOf(d, t, Decimal);
    DecimalValue(d);
  }

  /** A magnitude without a sign is read as it is. */
  lemma ParseUnsigned(u: string, m: nat)
    requires |u| > 0 && u[0] != '-' && u[0] != '+'
    requires ReadMagnitude(u) == Some(m)
    ensures ParseSigned(u) == Num(m)
  {
  }

  /** A magnitude after `-` is read negated. */
  lemma ParseNegative(u: string, m: nat)
    requires ReadMagnitude(u) == Some(m)
    ensures ParseSigned("-" + u) == Num(-(m as int))
  {
    assert ("-" + u)[1..] == u;
  }

  /** The digits of an integer's magnitude, then a tail that does not continue them, read as that magnitude. */
  lemma MagnitudeRendering(m: nat, t: string)
    requires |t| > 0 ==> !IsDigit(t[0]) && t[0] != 'x' && t[0] != 'X'
    ensures ReadMagnitude(NatToString(m) + t) == Some(m)
  {
    DigitsValueOfNat(m);
    ReadDecimal(NatToString(m), t);
  }

  lemma NegativeRendering(n: int, t: string)
    requires n < 0
    requires |t| > 0 ==> !IsDigit(t[0]) && t[0] != 'x' && t[0] != 'X'
    ensures ParseSigned(IntToString(n) + t) == Num(n)
  {
    var m: nat := -n;
    var u := NatToString(m) + t;
    assert IntToString(n) + t == "-" + u;
    MagnitudeRendering(m, t);
    ParseNegative(u, m);
  }

  lemma NonNegativeRendering(n: int, t: string)
    requires n >= 0
    requires |t| > 0 ==> !IsDigit(t[0]) && t[0] != 'x' && t[0] != 'X'
    ensures ParseSigned(IntToString(n) + t) == Num(n)
  {
    var d := NatToString(n);
    var u := d + t;
    assert IntToString(n) + t == u && u[0] == d[0];
    DigitsValueOfNat(n);
    ReadDecimal(d, t);
    assert ReadMagnitude(u) == Some(n);
    ParseUnsigned(u, n);
  }

  /** The rendering of an integer, then a tail that does not continue it, reads as that integer. */
  lemma SignedDecimal(n: int, t: string)
    requires |t| > 0 ==> !IsDigit(t[0]) && t[0] != 'x' && t[0] != 'X'
    ensures ParseSigned(IntToString(n) + t) == Num(n)
  {
    if n < 0 {
      NegativeRendering(n, t);
    } else {
      NonNegativeRendering(n, t);
    }
  }

  /**
   * `parseInt` reads back the decimal rendering of any integer, after any
   * leading white space and before any tail that does not continue the
   * number (a digit, or an `x` that would turn `0` into a hex prefix).
   */
  lemma ParseIntReadsInteger(w: string, n: int, t: string)
    requires forall i :: 0 <= i < |w| ==> IsWhiteSpace(w[i])
    requires |t| > 0 ==> !IsDigit(t[0]) && t[0] != 'x' && t[0] != 'X'
    ensures ParseInt(w + IntToString(n) + t) == Num(n)
  {
    var rest := IntToString(n) + t;
    assert w + IntToString(n) + t == w + rest;
    assert !IsWhiteSpace(rest[0]) by {
      var r := IntToString(n);
      assert rest[0] == r[0];
      if n >= 0 {
        assert IsDigit(NatToString(n)[0]);
      }
    }
    TrimWhiteSpace(w, rest);
    SignedDecimal(n, t);
  }

  /** The plain rendering of an integer is read back exactly. */
  lemma ParseIntOfString(n: int)
    ensures ParseInt(IntToString(n)) == Num(n)
  {
    var r := IntToString(n);
    assert r + "" == r;
    SignedDecimal(n, "");
    assert !IsWhiteSpace(r[0]) by {
      if n >= 0 {
        assert IsDigit(NatToString(n)[0]);
      }
    }
  }

  /** Without a leading digit there is no magnitude. */
  lemma NoMagnitude(u: string)
    requires |u| == 0 || !IsDigit(u[0])
    ensures ReadMagnitude(u) == None
  {
  }

  /** A string without any decimal digit is not a number. */
  lemma ParseIntWithoutDigits(s: string)
    requires forall i :: 0 <= i < |s| ==> !IsDigit(s[i])
    ensures ParseInt(s) == NaN
  {
    var t := TrimStart(s);
    var u := if |t| > 0 && (t[0] == '-' || t[0] == '+') then t[1..] else t;
    assert |u| > 0 ==> u[0] == s[|s| - |u|];
    NoMagnitude(u);
  }
}
