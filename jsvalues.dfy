/** JavaScript numbers as the pages compute with them: a finite value or
    NaN, the arithmetic that NaN absorbs, `Math.round`, truncation, and
    `Number(s)` for a string. */
module JsValues {
  import opened JsText

  /** A JavaScript number: a finite value or NaN (infinities are not modelled). */
  datatype Number = Finite(r: real) | NaN

  /** `Number.isInteger(x)`. */
  predicate IsInteger(n: Number) {
    n.Finite? && n.r == n.r.Floor as real
  }

  /** `x * y`: NaN absorbs. */
  function Mul(a: Number, b: Number): (c: Number)
    ensures c.Finite? <==> a.Finite? && b.Finite?
    ensures c.Finite? ==> c.r == a.r * b.r
  {
    if a.Finite? && b.Finite? then Finite(a.r * b.r) else NaN
  }

  /** `x + y` on numbers: NaN absorbs. */
  function Add(a: Number, b: Number): (c: Number)
    ensures c.Finite? <==> a.Finite? && b.Finite?
    ensures c.Finite? ==> c.r == a.r + b.r
  {
    if a.Finite? && b.Finite? then Finite(a.r + b.r) else NaN
  }

  /** `Number(x) || 0`: NaN and 0 become 0. */
  function OrZero(n: Number): (r: real)
    ensures n.Finite? ==> r == n.r
    ensures n.NaN? ==> r == 0.0
  {
    if n.Finite? then n.r else 0.0
  }

  /** `Number(s)` for a string: blank text is 0; trimmed text that is a
      radix literal (`0x1A`) or a decimal literal (`-2.5`, `.5`, `1e3`) has
      its value; anything else is NaN. */
  function StringToNumber(s: string): (n: Number)
    ensures Trim(s) == [] ==> n == Finite(0.0)
    ensures RadixText(Trim(s)).Some? ==> n == Finite(RadixText(Trim(s)).value as real)
    ensures RadixText(Trim(s)).None? && Trim(s) != [] ==>
      (n.Finite? <==> DecimalText(Trim(s)).Some?) && (n.Finite? ==> n.r == DecimalText(Trim(s)).value)
  {
    var t := Trim(s);
    if t == [] then Finite(0.0)
    else match RadixText(t)
      case Some(v) => Finite(v as real)
      case None =>
        match DecimalText(t)
        case Some(r) => Finite(r)
        case None => NaN
  }

  /** Digits with an exponent read as the digits' value scaled by it. */
  lemma ExponentNumber(w: string, sign: string, ds: string)
    requires AllDigits(w) && w != [] && AllDigits(ds) && ds != []
    requires sign == "" || sign == "-" || sign == "+"
    ensures StringToNumber(w + "e" + sign + ds) ==
      Finite(Scale(DigitsValue(w) as real, if sign == "-" then -(DigitsValue(ds) as int) else DigitsValue(ds) as int))
  {
    var t := w + "e" + sign + ds;
    ExponentTextPlain(w, sign, ds);
    DecimalTextExponent(w, sign, ds);
    PlainDecimalNumber(t);
  }

  /** Text with no white space and no radix prefix is read as a decimal
      literal. */
  lemma PlainDecimalNumber(t: string)
    requires NoSpace(t) && t != [] && RadixText(t).None? && DecimalText(t).Some?
    ensures StringToNumber(t) == Finite(DecimalText(t).value)
  {
    TrimNoSpace(t);
  }

  /** Such text has no white space and no radix prefix. */
  lemma ExponentTextPlain(w: string, sign: string, ds: string)
    requires AllDigits(w) && w != [] && AllDigits(ds)
    requires sign == "" || sign == "-" || sign == "+"
    ensures NoSpace(w + "e" + sign + ds)
    ensures RadixText(w + "e" + sign + ds).None?
  {
    var t := w + "e" + sign + ds;
    assert NoSpace(w) && NoSpace(ds) && NoSpace("e" + sign);
    NoSpaceJoin(w, "e" + sign);
    NoSpaceJoin(w + ("e" + sign), ds);
    assert w + ("e" + sign) + ds == t;
    assert t[1] == 'e' || IsDigit(t[1]);
  }

  /** `0x`, `0o` and `0b` literals read as their value in that base. */
  lemma RadixNumber(letter: char, ds: string)
    requires RadixOf(letter) != 0 && ds != [] && InRadix(ds, RadixOf(letter))
    ensures StringToNumber(['0', letter] + ds) == Finite(RadixValue(ds, RadixOf(letter)) as real)
  {
    var t := ['0', letter] + ds;
    assert t[2..] == ds;
    assert NoSpace(t) by {
      forall k | 0 <= k < |t| ensures !IsSpace(t[k]) {
        if k >= 2 { assert t[k] == ds[k - 2]; assert HexDigit(ds[k - 2]).Some?; }
      }
    }
    TrimNoSpace(t);
  }

  /** Text without white space or a radix prefix that is no decimal
      literal is NaN. */
  lemma PlainNaN(t: string)
    requires NoSpace(t) && t != [] && RadixText(t).None? && DecimalText(t).None?
    ensures StringToNumber(t) == NaN
  {
    TrimNoSpace(t);
  }

  /** Unsigned text whose decimal literal stops short of its end is no
      decimal literal. */
  lemma UnsignedLeftover(t: string)
    requires t != [] && IsDigit(t[0])
    requires DecimalPrefix(false, t).Some? && DecimalPrefix(false, t).value.1 < |t|
    ensures DecimalText(t).None?
  {
  }

  /** Signed text whose decimal literal stops short of its end is no
      decimal literal. */
  lemma SignedLeftover(t: string)
    requires |t| >= 2 && (t[0] == '-' || t[0] == '+')
    requires DecimalPrefix(t[0] == '-', t[1..]).Some? && DecimalPrefix(t[0] == '-', t[1..]).value.1 < |t| - 1
    ensures DecimalText(t).None?
  {
  }

  /** A sign before a radix prefix makes the text NaN (`Number("-0x1A")`). */
  lemma SignedRadixRejected(sign: char, letter: char, ds: string)
    requires sign == '-' || sign == '+'
    requires RadixOf(letter) != 0 && ds != [] && InRadix(ds, RadixOf(letter))
    ensures StringToNumber([sign, '0', letter] + ds) == NaN
  {
    SignedRadixNotDecimal(sign, letter, ds);
    SignedRadixNoSpace(sign, letter, ds);
    PlainNaN([sign, '0', letter] + ds);
  }

  lemma SignedRadixNotDecimal(sign: char, letter: char, ds: string)
    requires sign == '-' || sign == '+'
    requires RadixOf(letter) != 0
    ensures DecimalText([sign, '0', letter] + ds).None?
  {
    var t := [sign, '0', letter] + ds;
    var rest := t[1..];
    assert rest == ['0', letter] + ds && rest[..1] == "0" && rest[1] == letter;
    assert ExponentPart(rest[1..]).None?;
    WholeOnlyPrefix(sign == '-', rest, "0");
    SignedLeftover(t);
  }

  lemma SignedRadixNoSpace(sign: char, letter: char, ds: string)
    requires sign == '-' || sign == '+'
    requires RadixOf(letter) != 0 && InRadix(ds, RadixOf(letter))
    ensures NoSpace([sign, '0', letter] + ds)
  {
    assert NoSpace([sign, '0', letter]) by {
      assert !IsSpace(letter);
    }
    assert NoSpace(ds) by {
      forall k | 0 <= k < |ds| ensures !IsSpace(ds[k]) {
        assert HexDigit(ds[k]).Some?;
      }
    }
    NoSpaceJoin([sign, '0', letter], ds);
  }

  /** An exponent mark without digits makes the text NaN (`Number("1e")`). */
  lemma BareExponentRejected(w: string)
    requires w != [] && AllDigits(w)
    ensures StringToNumber(w + "e") == NaN
  {
    BareExponentNotDecimal(w);
    NoSpaceJoin(w, "e");
    assert |w + "e"| >= 3 ==> (w + "e")[1] == w[1];
    PlainNaN(w + "e");
  }

  lemma BareExponentNotDecimal(w: string)
    requires w != [] && AllDigits(w)
    ensures DecimalText(w + "e").None?
  {
    var t := w + "e";
    assert t[..|w|] == w && t[|w|..] == "e" && "e"[1..] == [];
    WholeOnlyPrefix(false, t, w);
    assert t[0] == w[0];
    UnsignedLeftover(t);
  }

  /** A decimal comma makes the text NaN (`Number("1,5")`). */
  lemma CommaRejected(w: string, f: string)
    requires w != [] && AllDigits(w) && AllDigits(f)
    ensures StringToNumber(w + "," + f) == NaN
  {
    CommaNotDecimal(w, f);
    CommaNoSpace(w, f);
    assert |w + "," + f| >= 3 ==> (w + "," + f)[1] == ',' || (w + "," + f)[1] == w[1];
    PlainNaN(w + "," + f);
  }

  lemma CommaNoSpace(w: string, f: string)
    requires AllDigits(w) && AllDigits(f)
    ensures NoSpace(w + "," + f)
  {
    assert NoSpace(w) && NoSpace(",") && NoSpace(f);
    NoSpaceJoin(w, ",");
    NoSpaceJoin(w + ",", f);
  }

  lemma CommaNotDecimal(w: string, f: string)
    requires w != [] && AllDigits(w)
    ensures DecimalText(w + "," + f).None?
  {
    var t := w + "," + f;
    assert t[..|w|] == w && t[|w|..] == "," + f;
    WholeOnlyPrefix(false, t, w);
    assert t[0] == w[0];
    UnsignedLeftover(t);
  }

  /** `Math.round(x)`: halves round up. */
  function Round(x: real): (n: int)
    ensures n as real - 0.5 <= x < n as real + 0.5
  {
    (x + 0.5).Floor
  }

  /** Truncation toward zero, as `Date` setters convert their argument. */
  function Trunc(x: real): (n: int)
    ensures x >= 0.0 ==> n as real <= x < n as real + 1.0
    ensures x < 0.0 ==> n as real - 1.0 < x <= n as real
  {
    if x >= 0.0 then x.Floor else -((-x).Floor)
  }

  /** Truncating a non-negative value shifted by a non-negative integer
      shifts the truncation by that integer. */
  lemma TruncShift(k: int, x: real)
    requires k >= 0 && x >= 0.0
    ensures Trunc(k as real + x) == k + Trunc(x)
  {
    var a, b := Trunc(k as real + x), Trunc(x);
    assert a as real <= k as real + x < a as real + 1.0;
    assert b as real <= x < b as real + 1.0;
  }
}
