/** The JavaScript string operations the forms and pages rely on: `trim`,
    `split` on one character, character replacement, `String(n)` for an
    integer, `parseInt(s, 10)`, a decimal `parseFloat`, and the shapes of the
    regular expressions the validators test. */
module JsText {
  import opened Wrappers

  /** The characters `\s` matches and `trim()` removes: WhiteSpace and
      LineTerminator of ECMAScript. */
  predicate IsSpace(c: char) {
    c == '\t' || c == '\n' || c == '\U{000B}' || c == '\U{000C}' || c == '\r' || c == ' ' ||
    c == '\U{00A0}' || c == '\U{1680}' || ('\U{2000}' <= c <= '\U{200A}') ||
    c == '\U{2028}' || c == '\U{2029}' || c == '\U{202F}' || c == '\U{205F}' ||
    c == '\U{3000}' || c == '\U{FEFF}'
  }

  predicate IsDigit(c: char) {
    '0' <= c <= '9'
  }

  predicate NoSpace(s: string) {
    forall k | 0 <= k < |s| :: !IsSpace(s[k])
  }

  function TrimStart(s: string): (r: string)
    ensures |r| <= |s| && r == s[|s| - |r|..]
    ensures r == [] || !IsSpace(r[0])
    ensures forall k | 0 <= k < |s| - |r| :: IsSpace(s[k])
  {
    if s != [] && IsSpace(s[0]) then TrimStart(s[1..]) else s
  }

  function TrimEnd(s: string): (r: string)
    ensures |r| <= |s| && r == s[..|r|]
    ensures r == [] || !IsSpace(r[|r| - 1])
    ensures forall k | |r| <= k < |s| :: IsSpace(s[k])
  {
    if s != [] && IsSpace(s[|s| - 1]) then TrimEnd(s[..|s| - 1]) else s
  }

  /** `s.trim()`: the infix of `s` left once the white space at both ends
      is removed; whatever remains neither starts nor ends with white space. */
  function Trim(s: string): (r: string)
    ensures |s| - |TrimStart(s)| + |r| <= |s|
    ensures r == s[|s| - |TrimStart(s)|..|s| - |TrimStart(s)| + |r|]
    ensures r == [] || (!IsSpace(r[0]) && !IsSpace(r[|r| - 1]))
    ensures forall k | 0 <= k < |s| - |TrimStart(s)| :: IsSpace(s[k])
    ensures forall k | |s| - |TrimStart(s)| + |r| <= k < |s| :: IsSpace(s[k])
  {
    var t := TrimStart(s);
    var a := |s| - |t|;
    var r := TrimEnd(t);
    assert t == s[a..];
    assert r == t[..|r|];
    TrimInfix(s, a, t, r);
    assert r == s[a..a + |r|];
    r
  }

  /** The end trimmed off a suffix of `s` is trimmed off `s` itself. */
  lemma TrimInfix(s: string, a: nat, t: string, r: string)
    requires a <= |s| && t == s[a..]
    requires |r| <= |t| && r == t[..|r|]
    requires forall k | |r| <= k < |t| :: IsSpace(t[k])
    ensures a + |r| <= |s| && r == s[a..a + |r|]
    ensures forall k | a + |r| <= k < |s| :: IsSpace(s[k])
  {
    forall k | a + |r| <= k < |s|
      ensures IsSpace(s[k])
    {
      assert s[k] == t[k - a];
    }
  }

  /** Trimming a string with no white space gives it back. */
  lemma TrimNoSpace(s: string)
    requires NoSpace(s)
    ensures Trim(s) == s
  {
    assert TrimStart(s) == s;
    assert TrimEnd(s) == s;
  }

  /** Text without white space stays so when joined. */
  lemma NoSpaceJoin(a: string, b: string)
    requires NoSpace(a) && NoSpace(b)
    ensures NoSpace(a + b)
  {
    forall k | 0 <= k < |a + b| ensures !IsSpace((a + b)[k]) {
      if k < |a| {
        assert (a + b)[k] == a[k];
      } else {
        assert (a + b)[k] == b[k - |a|];
      }
    }
  }
  /** A trimmed string is empty exactly when the string is all white space. */
  lemma TrimEmpty(s: string)
    ensures Trim(s) == [] <==> forall k | 0 <= k < |s| :: IsSpace(s[k])
  {
    var a := |s| - |TrimStart(s)|;
    if Trim(s) != [] {
      assert Trim(s)[0] == s[a];
    }
  }

  /** Position of the first `c` in `s`, if any. */
  function IndexOf(s: string, c: char): (r: Option<nat>)
    ensures r.None? <==> c !in s
    ensures r.Some? ==> r.value < |s| && s[r.value] == c && c !in s[..r.value]
  {
    if s == [] then None
    else if s[0] == c then Some(0)
    else match IndexOf(s[1..], c)
      case None => None
      case Some(i) => assert s[1..][..i] == s[1..i + 1]; Some(i + 1)
  }

  /** `parts.join(sep)`. */
  function Join(parts: seq<string>, sep: char): string {
    if |parts| == 0 then []
    else if |parts| == 1 then parts[0]
    else parts[0] + [sep] + Join(parts[1..], sep)
  }

  /** `s.split(sep)` for a one-character separator. */
  function Split(s: string, sep: char): (parts: seq<string>)
    ensures |parts| >= 1
    ensures forall k | 0 <= k < |parts| :: sep !in parts[k]
    decreases |s|
  {
    match IndexOf(s, sep)
    case None => [s]
    case Some(i) => [s[..i]] + Split(s[i + 1..], sep)
  }

  /** Splitting gives back the pieces that `join` put together. */
  lemma {:induction false} SplitJoin(s: string, sep: char)
    ensures Join(Split(s, sep), sep) == s
    decreases |s|
  {
    match IndexOf(s, sep)
    case None =>
    case Some(i) =>
      var rest := Split(s[i + 1..], sep);
      SplitJoin(s[i + 1..], sep);
      assert ([s[..i]] + rest)[1..] == rest;
      assert Join([s[..i]] + rest, sep) == s[..i] + [sep] + Join(rest, sep);
      assert s == s[..i] + [sep] + s[i + 1..];
  }

  /** Joining pieces free of the separator and splitting again gives the pieces back. */
  lemma {:induction false} JoinSplit(parts: seq<string>, sep: char)
    requires |parts| >= 1
    requires forall k | 0 <= k < |parts| :: sep !in parts[k]
    ensures Split(Join(parts, sep), sep) == parts
    decreases |parts|
  {
    if |parts| > 1 {
      var rest := Join(parts[1..], sep);
      assert Join(parts, sep) == parts[0] + [sep] + rest;
      SeparatorFirst(parts[0], sep, rest);
      JoinSplit(parts[1..], sep);
      assert [parts[0]] + parts[1..] == parts;
    } else {
      assert Join(parts, sep) == parts[0];
    }
  }

  /** The first separator of `a + [sep] + rest`, when `a` has none, is the one after `a`. */
  lemma SeparatorFirst(a: string, sep: char, rest: string)
    requires sep !in a
    ensures Split(a + [sep] + rest, sep) == [a] + Split(rest, sep)
  {
    var s := a + [sep] + rest;
    assert s[|a|] == sep;
    assert s[..|a|] == a;
    assert IndexOf(s, sep) == Some(|a|);
    assert s[|a| + 1..] == rest;
  }

  /** `s.replace(a, b)` with a one-character pattern: only the first `a` changes. */
  function ReplaceFirst(s: string, a: char, b: char): (r: string)
    ensures |r| == |s|
    ensures forall k | 0 <= k < |s| :: r[k] == (if s[k] == a && a !in s[..k] then b else s[k])
  {
    match IndexOf(s, a)
    case None => s
    case Some(i) =>
      assert forall k | i < k < |s| :: s[..k][i] == a;
      s[i := b]
  }

  /** `s.replace(/a/g, b)`. */
  function ReplaceAll(s: string, a: char, b: char): (r: string)
    ensures |r| == |s|
    ensures forall k | 0 <= k < |s| :: r[k] == (if s[k] == a then b else s[k])
  {
    if s == [] then [] else [if s[0] == a then b else s[0]] + ReplaceAll(s[1..], a, b)
  }

  /** `s.replace(/a/g, '')`: the characters of `s` other than `a`, in order. */
  function RemoveAll(s: string, a: char): (r: string)
    ensures a !in r
    ensures |r| <= |s|
    ensures forall c | c in r :: c in s
  {
    if s == [] then [] else (if s[0] == a then [] else [s[0]]) + RemoveAll(s[1..], a)
  }

  /** `s.replace(/\D/g, '')`: the digits of `s`, in order. */
  function DigitsOf(s: string): (r: string)
    ensures |r| <= |s|
    ensures forall k | 0 <= k < |r| :: IsDigit(r[k])
  {
    if s == [] then [] else (if IsDigit(s[0]) then [s[0]] else []) + DigitsOf(s[1..])
  }

  /** A string of digits has itself as its digits. */
  lemma {:induction false} DigitsOfDigits(s: string)
    requires forall k | 0 <= k < |s| :: IsDigit(s[k])
    ensures DigitsOf(s) == s
  {
    if s != [] {
      DigitsOfDigits(s[1..]);
    }
  }

  /** `toLowerCase()` of one character, for the ASCII letters. */
  function LowerChar(c: char): (d: char)
    ensures !('A' <= c <= 'Z') ==> d == c
    ensures 'A' <= c <= 'Z' ==> 'a' <= d <= 'z'
  {
    if 'A' <= c <= 'Z' then (c as int + 32) as char else c
  }

  /** ASCII `toLowerCase()`. */
  function AsciiLower(s: string): (r: string)
    ensures |r| == |s|
    ensures forall i | 0 <= i < |s| :: r[i] == LowerChar(s[i])
  {
    if s == [] then [] else [LowerChar(s[0])] + AsciiLower(s[1..])
  }

  // ---- numbers as text ----------------------------------------------------

  function DigitValue(c: char): (v: nat)
    requires IsDigit(c)
    ensures v < 10
  {
    c as int - '0' as int
  }

  /** Value of a string of decimal digits (most significant first). */
  function DigitsValue(s: string): nat
    requires forall k | 0 <= k < |s| :: IsDigit(s[k])
  {
    if s == [] then 0 else DigitsValue(s[..|s| - 1]) * 10 + DigitValue(s[|s| - 1])
  }

  /** Decimal digits of a natural number, without leading zeros. */
  function NatToString(n: nat): (s: string)
    ensures |s| >= 1 && (forall k | 0 <= k < |s| :: IsDigit(s[k]))
    ensures DigitsValue(s) == n
    ensures n > 0 ==> s[0] != '0'
  {
    var d := ['0' + (n % 10) as char];
    if n < 10 then
      d
    else
      var p := NatToString(n / 10);
      assert (p + d)[..|p + d| - 1] == p;
      p + d
  }

  /** `String(n)` for an integer. */
  function IntToString(n: int): (s: string)
    ensures |s| >= 1
    ensures forall k | 0 <= k < |s| :: IsDigit(s[k]) || (k == 0 && s[k] == '-')
    ensures '"' !in s && ',' !in s && '\n' !in s && 'T' !in s
  {
    if n < 0 then "-" + NatToString(-n) else NatToString(n)
  }

  /** Longest prefix of digits. */
  function DigitPrefix(s: string): (r: string)
    ensures |r| <= |s| && r == s[..|r|]
    ensures forall k | 0 <= k < |r| :: IsDigit(r[k])
    ensures |r| == |s| || !IsDigit(s[|r|])
  {
    if s != [] && IsDigit(s[0]) then [s[0]] + DigitPrefix(s[1..]) else []
  }

  /** A number read from text: the integer part and, after a point, the
      fraction digits. */
  datatype Decimal = Decimal(negative: bool, whole: string, fraction: string)

  function Pow10(n: nat): (r: nat)
    ensures r >= 1
  {
    if n == 0 then 1 else 10 * Pow10(n - 1)
  }

  function DecimalValue(d: Decimal): real
    requires forall k | 0 <= k < |d.whole| :: IsDigit(d.whole[k])
    requires forall k | 0 <= k < |d.fraction| :: IsDigit(d.fraction[k])
  {
    var m := DigitsValue(d.whole) as real + DigitsValue(d.fraction) as real / Pow10(|d.fraction|) as real;
    if d.negative then -m else m
  }

  /** Leading white space and an optional sign, as both parsers skip them. */
  function SignAndRest(s: string): (r: (bool, string))
    ensures |r.1| <= |s|
  {
    var t := TrimStart(s);
    if t != [] && t[0] == '-' then (true, t[1..])
    else if t != [] && t[0] == '+' then (false, t[1..])
    else (false, t)
  }

  /** `parseInt(s, 10)`: `None` is NaN (no digit after the sign). */
  function ParseInt(s: string): (r: Option<int>)
    ensures r.Some? <==> DigitPrefix(SignAndRest(s).1) != []
  {
    var (neg, rest) := SignAndRest(s);
    var ds := DigitPrefix(rest);
    if ds == [] then None
    else Some(if neg then -(DigitsValue(ds) as int) else DigitsValue(ds) as int)
  }

  function Abs(n: int): nat {
    if n < 0 then -n else n
  }

  /** What `String(n)` looks like to both parsers: its sign, then the digits of `|n|`. */
  lemma SignOfIntToString(n: int)
    ensures SignAndRest(IntToString(n)) == (n < 0, NatToString(Abs(n)))
  {
    var s := IntToString(n);
    var body := NatToString(Abs(n));
    assert IsDigit(body[0]);
    if n < 0 {
      assert s == "-" + body;
      assert s[0] == '-' && !IsSpace(s[0]);
      assert TrimStart(s) == s;
      assert s[1..] == body;
    } else {
      assert s == body;
      assert !IsSpace(s[0]);
      assert TrimStart(s) == s;
      assert s[0] != '-' && s[0] != '+';
    }
  }

  /** `parseInt` reads back what `String` wrote. */
  lemma ParseIntToString(n: int)
    ensures ParseInt(IntToString(n)) == Some(n)
  {
    SignOfIntToString(n);
    DigitPrefixAll(NatToString(Abs(n)));
  }

  lemma {:induction false} DigitPrefixAll(s: string)
    requires forall k | 0 <= k < |s| :: IsDigit(s[k])
    ensures DigitPrefix(s) == s
  {
    if s != [] {
      DigitPrefixAll(s[1..]);
    }
  }

  /** An exponent part at the start of `s`: `e` or `E`, an optional sign
      and at least one digit.  Gives the exponent and how many characters
      it takes. */
  function ExponentPart(s: string): (r: Option<(int, nat)>)
    ensures r.Some? ==> 2 <= r.value.1 <= |s| && (s[0] == 'e' || s[0] == 'E')
  {
    if s == [] || !(s[0] == 'e' || s[0] == 'E') then None
    else
      var signed := |s| >= 2 && (s[1] == '-' || s[1] == '+');
      var body := if signed then s[2..] else s[1..];
      var ds := DigitPrefix(body);
      if ds == [] then None
      else
        var e := DigitsValue(ds) as int;
        Some((if signed && s[1] == '-' then -e else e, |s| - |body| + |ds|))
  }

  /** `x` times ten to the power `e`. */
  function Scale(x: real, e: int): real {
    if e >= 0 then x * Pow10(e) as real else x / Pow10(-e) as real
  }

  /** The longest unsigned decimal literal at the start of `rest`: digits,
      an optional point with digits (at least one digit in all) and an
      optional exponent part.  Gives its value, negated when `neg`, and its
      length; `None` when no digit starts it. */
  function DecimalPrefix(neg: bool, rest: string): (r: Option<(real, nat)>)
    ensures r.Some? ==> 1 <= r.value.1 <= |rest|
    ensures r.Some? ==> IsDigit(rest[0]) || (|rest| >= 2 && rest[0] == '.' && IsDigit(rest[1]))
  {
    var whole := DigitPrefix(rest);
    var after := rest[|whole|..];
    var point := after != [] && after[0] == '.';
    var fraction := if point then DigitPrefix(after[1..]) else [];
    var used := |whole| + (if point then 1 + |fraction| else 0);
    if whole == [] && fraction == [] then None
    else
      var m := DecimalValue(Decimal(neg, whole, fraction));
      match ExponentPart(rest[used..])
      case Some((e, n)) => Some((Scale(m, e), used + n))
      case None => Some((m, used))
  }

  /** `parseFloat(s)`: after white space and a sign, the longest decimal
      literal there is, whatever follows it.  `None` stands for NaN. */
  function ParseFloat(s: string): (r: Option<real>)
    ensures r.Some? <==> DecimalPrefix(SignAndRest(s).0, SignAndRest(s).1).Some?
  {
    var (neg, rest) := SignAndRest(s);
    match DecimalPrefix(neg, rest)
    case Some((v, _)) => Some(v)
    case None => None
  }

  lemma {:induction false} DigitPrefixStops(w: string, rest: string)
    requires AllDigits(w)
    requires rest == [] || !IsDigit(rest[0])
    ensures DigitPrefix(w + rest) == w
  {
    if w == [] {
      assert w + rest == rest;
    } else {
      assert (w + rest)[0] == w[0] && (w + rest)[1..] == w[1..] + rest;
      DigitPrefixStops(w[1..], rest);
      assert [w[0]] + w[1..] == w;
    }
  }

  /** Without a fraction a decimal is its whole digits' value. */
  lemma DecimalValueWhole(w: string)
    requires AllDigits(w)
    ensures DecimalValue(Decimal(false, w, [])) == DigitsValue(w) as real
  {
    assert DigitsValue([]) == 0 && Pow10(0) == 1;
  }

  /** Text starting with a digit has no white space or sign to skip. */
  lemma SignAndRestAtDigit(t: string)
    requires t != [] && IsDigit(t[0])
    ensures SignAndRest(t) == (false, t)
  {
    assert !IsSpace(t[0]);
    assert TrimStart(t) == t;
  }

  /** `parseFloat` of digits, optionally followed by a point and more digits,
      is their decimal value. */
  lemma ParseFloatDigits(w: string, f: string)
    requires w != [] && AllDigits(w) && AllDigits(f)
    ensures ParseFloat(w) == Some(DecimalValue(Decimal(false, w, [])))
    ensures ParseFloat(w + ("." + f)) == Some(DecimalValue(Decimal(false, w, f)))
  {
    ParseFloatWhole(w);
    ParseFloatPoint(w, f);
  }

  lemma ParseFloatWhole(w: string)
    requires w != [] && AllDigits(w)
    ensures ParseFloat(w) == Some(DecimalValue(Decimal(false, w, [])))
  {
    SignAndRestAtDigit(w);
    DigitPrefixStops(w, []);
    assert w + [] == w;
  }

  lemma ParseFloatPoint(w: string, f: string)
    requires w != [] && AllDigits(w) && AllDigits(f)
    ensures ParseFloat(w + ("." + f)) == Some(DecimalValue(Decimal(false, w, f)))
  {
    var x := w + ("." + f);
    assert x[0] == w[0];
    SignAndRestAtDigit(x);
    DigitPrefixStops(w, "." + f);
    assert x[|w|..] == "." + f;
    assert ("." + f)[1..] == f;
    DigitPrefixAll(f);
  }

  /** A whole string that is a decimal literal: an optional sign, then
      `DecimalPrefix` taking every remaining character.  This is how
      `Number(s)` reads trimmed decimal text; `None` when anything is left
      over. */
  function DecimalText(t: string): (r: Option<real>)
    ensures r.Some? ==> exists k | 0 <= k < |t| :: IsDigit(t[k])
  {
    var neg := t != [] && t[0] == '-';
    var rest := if t != [] && (t[0] == '-' || t[0] == '+') then t[1..] else t;
    match DecimalPrefix(neg, rest)
    case Some((v, n)) =>
      if n != |rest| then None
      else
        assert rest == t[|t| - |rest|..];
        if IsDigit(rest[0]) then
          assert t[|t| - |rest|] == rest[0];
          Some(v)
        else
          assert t[|t| - |rest| + 1] == rest[1];
          Some(v)
    case None => None
  }

  /** The value of a hexadecimal digit, in either case; `None` for any
      other character. */
  function HexDigit(c: char): (v: Option<nat>)
    ensures v.Some? ==> v.value < 16
    ensures IsDigit(c) ==> v == Some(DigitValue(c))
  {
    if IsDigit(c) then Some(c as int - '0' as int)
    else if 'a' <= c <= 'f' then Some(c as int - 'a' as int + 10)
    else if 'A' <= c <= 'F' then Some(c as int - 'A' as int + 10)
    else None
  }

  predicate InRadix(s: string, base: nat) {
    forall k | 0 <= k < |s| :: HexDigit(s[k]).Some? && HexDigit(s[k]).value < base
  }

  /** Value of digits in base `base` (most significant first). */
  function RadixValue(s: string, base: nat): nat
    requires InRadix(s, base)
  {
    if s == [] then 0 else RadixValue(s[..|s| - 1], base) * base + HexDigit(s[|s| - 1]).value
  }

  /** The base a prefix letter names: `0x`, `0o` and `0b` in either case;
      0 for every other letter. */
  function RadixOf(c: char): (b: nat)
    ensures b == 0 || b == 2 || b == 8 || b == 16
    ensures b != 0 <==> c == 'x' || c == 'X' || c == 'o' || c == 'O' || c == 'b' || c == 'B'
  {
    if c == 'x' || c == 'X' then 16 else if c == 'o' || c == 'O' then 8 else if c == 'b' || c == 'B' then 2 else 0
  }

  /** A whole string that is a binary, octal or hexadecimal integer
      literal: `0`, the base letter and at least one digit of that base, no
      sign.  Gives its value. */
  function RadixText(t: string): (r: Option<nat>)
    ensures r.Some? ==> |t| >= 3 && t[0] == '0' && RadixOf(t[1]) != 0 && InRadix(t[2..], RadixOf(t[1]))
    ensures |t| >= 3 && t[0] == '0' && RadixOf(t[1]) != 0 && InRadix(t[2..], RadixOf(t[1])) ==> r.Some?
  {
    if |t| >= 3 && t[0] == '0' && RadixOf(t[1]) != 0 && InRadix(t[2..], RadixOf(t[1])) then
      Some(RadixValue(t[2..], RadixOf(t[1])))
    else None
  }

  /** Digits alone are a decimal literal of their own length. */
  lemma DecimalPrefixDigits(neg: bool, w: string)
    requires AllDigits(w) && w != []
    ensures DecimalPrefix(neg, w) == Some((DecimalValue(Decimal(neg, w, [])), |w|))
  {
    DigitPrefixAll(w);
    assert w[|w|..] == [];
  }

  /** Digits then `e`, an optional sign and digits: the whole text is one
      decimal literal, the digits' value scaled by the exponent. */
  lemma DecimalTextExponent(w: string, sign: string, ds: string)
    requires AllDigits(w) && w != [] && AllDigits(ds) && ds != []
    requires sign == "" || sign == "-" || sign == "+"
    ensures DecimalText(w + "e" + sign + ds) ==
      Some(Scale(DigitsValue(w) as real, if sign == "-" then -(DigitsValue(ds) as int) else DigitsValue(ds) as int))
  {
    var t := w + "e" + sign + ds;
    ExponentAfter(w, sign, ds);
    assert t[..|w|] == w;
    DecimalPrefixExponent(t, |w|);
    assert t[0] == w[0];
  }

  /** `parseFloat` reads the exponent too. */
  lemma ParseFloatExponent(w: string, sign: string, ds: string)
    requires AllDigits(w) && w != [] && AllDigits(ds) && ds != []
    requires sign == "" || sign == "-" || sign == "+"
    ensures ParseFloat(w + "e" + sign + ds) ==
      Some(Scale(DigitsValue(w) as real, if sign == "-" then -(DigitsValue(ds) as int) else DigitsValue(ds) as int))
  {
    var t := w + "e" + sign + ds;
    ExponentAfter(w, sign, ds);
    assert t[..|w|] == w;
    DecimalPrefixExponent(t, |w|);
    assert t[0] == w[0];
    SignAndRestAtDigit(t);
  }

  lemma ExponentAfter(w: string, sign: string, ds: string)
    requires AllDigits(ds) && ds != []
    requires sign == "" || sign == "-" || sign == "+"
    ensures var t := w + "e" + sign + ds;
      ExponentPart(t[|w|..]).Some? && ExponentPart(t[|w|..]).value.1 == |t| - |w| &&
      ExponentPart(t[|w|..]).value.0 == if sign == "-" then -(DigitsValue(ds) as int) else DigitsValue(ds) as int
  {
    var t := w + "e" + sign + ds;
    if sign == "" {
      assert t[|w|..] == ['e'] + ds;
      ExponentUnsigned(ds);
    } else {
      var c := sign[0];
      assert sign == [c];
      assert t[|w|..] == ['e', c] + ds;
      ExponentSigned(c, ds);
      assert c == '-' <==> sign == "-";
    }
  }

  lemma ExponentSigned(c: char, ds: string)
    requires (c == '-' || c == '+') && AllDigits(ds) && ds != []
    ensures ExponentPart(['e', c] + ds).Some? && ExponentPart(['e', c] + ds).value.1 == 2 + |ds|
    ensures ExponentPart(['e', c] + ds).value.0 == if c == '-' then -(DigitsValue(ds) as int) else DigitsValue(ds) as int
  {
    var x := ['e', c] + ds;
    assert x[0] == 'e' && x[1] == c && x[2..] == ds;
    DigitPrefixAll(ds);
  }

  lemma ExponentUnsigned(ds: string)
    requires AllDigits(ds) && ds != []
    ensures ExponentPart(['e'] + ds).Some? && ExponentPart(['e'] + ds).value.1 == 1 + |ds|
    ensures ExponentPart(['e'] + ds).value.0 == DigitsValue(ds) as int
  {
    var x := ['e'] + ds;
    assert x[0] == 'e' && x[1..] == ds && x[1] == ds[0];
    DigitPrefixAll(ds);
  }

  lemma DecimalPrefixExponent(t: string, i: nat)
    requires 1 <= i < |t| && AllDigits(t[..i])
    requires ExponentPart(t[i..]).Some? && ExponentPart(t[i..]).value.1 == |t| - i
    ensures DecimalPrefix(false, t) == Some((Scale(DigitsValue(t[..i]) as real, ExponentPart(t[i..]).value.0), |t|))
  {
    DigitPrefixStops(t[..i], t[i..]);
    assert t[..i] + t[i..] == t;
    DecimalValueWhole(t[..i]);
  }

  /** Whole digits followed by neither a digit, a point nor an exponent
      part: the literal ends with the digits. */
  lemma WholeOnlyPrefix(neg: bool, rest: string, w: string)
    requires w != [] && AllDigits(w) && |w| < |rest| && rest[..|w|] == w
    requires !IsDigit(rest[|w|]) && rest[|w|] != '.' && ExponentPart(rest[|w|..]).None?
    ensures DecimalPrefix(neg, rest).Some? && DecimalPrefix(neg, rest).value.1 == |w|
  {
    DigitPrefixStops(w, rest[|w|..]);
    assert w + rest[|w|..] == rest;
  }

  /** The literal `String(n)` writes is read back as `n`. */
  lemma DecimalTextToString(n: int)
    ensures DecimalText(IntToString(n)) == Some(n as real)
  {
    var s := IntToString(n);
    var body := NatToString(Abs(n));
    assert IsDigit(body[0]);
    if n < 0 {
      assert s == "-" + body && s[1..] == body;
    } else {
      assert s == body;
    }
    DecimalPrefixDigits(n < 0, body);
    SignedWholeValue(n);
  }

  /** `String(n)` has no white space and no radix prefix. */
  lemma IntTextPlain(n: int)
    ensures NoSpace(IntToString(n)) && RadixText(IntToString(n)).None?
  {
    var s := IntToString(n);
    assert |s| >= 3 ==> IsDigit(s[1]);
  }

  /** `parseFloat` reads an integer written by `String` as that number. */
  lemma ParseFloatToString(n: int)
    ensures ParseFloat(IntToString(n)) == Some(n as real)
  {
    var body := NatToString(Abs(n));
    SignOfIntToString(n);
    ParseFloatSigned(IntToString(n), n < 0, body);
    SignedWholeValue(n);
  }

  /** After the sign, digits alone are read whole. */
  lemma ParseFloatSigned(s: string, neg: bool, body: string)
    requires AllDigits(body) && body != []
    requires SignAndRest(s) == (neg, body)
    ensures ParseFloat(s) == Some(DecimalValue(Decimal(neg, body, [])))
  {
    DecimalPrefixDigits(neg, body);
  }

  lemma SignedWholeValue(n: int)
    ensures DecimalValue(Decimal(n < 0, NatToString(Abs(n)), [])) == n as real
  {
    assert DigitsValue([]) == 0 && Pow10(0) == 1;
  }

  // ---- the validators' regular expressions --------------------------------

  /** Text that `[^\s@]+` matches in full, apart from being non-empty. */
  predicate Plain(t: string) {
    forall k | 0 <= k < |t| :: !IsSpace(t[k]) && t[k] != '@'
  }

  /** `/^[^\s@]+@[^\s@]+\.[^\s@]+$/.test(s)`: the pattern's own reading,
      a split of `s` into local part, `@`, domain, `.` and last label. */
  predicate EmailMatches(s: string) {
    exists i, j | 0 < i && i + 1 < j < |s| - 1 ::
      s[i] == '@' && s[j] == '.' && Plain(s[..i]) && Plain(s[i + 1..j]) && Plain(s[j + 1..])
  }

  /** The same test read off the string: no white space, exactly one `@`,
      which is not the first character, and a `.` after it that is neither
      right after the `@` nor the last character. */
  predicate EmailShape(s: string) {
    NoSpace(s) &&
    match IndexOf(s, '@')
    case None => false
    case Some(i) => 0 < i && '@' !in s[i + 1..] && i + 2 < |s| && '.' in s[i + 2..|s| - 1]
  }

  lemma EmailShapeOfMatch(s: string, i: int, j: int)
    requires 0 < i && i + 1 < j < |s| - 1
    requires s[i] == '@' && s[j] == '.' && Plain(s[..i]) && Plain(s[i + 1..j]) && Plain(s[j + 1..])
    ensures EmailShape(s)
  {
    forall k | 0 <= k < |s| ensures !IsSpace(s[k]) {
      if k < i {
        assert s[k] == s[..i][k];
      } else if i < k < j {
        assert s[k] == s[i + 1..j][k - i - 1];
      } else if j < k {
        assert s[k] == s[j + 1..][k - j - 1];
      }
    }
    assert '@' !in s[..i] by {
      forall k | 0 <= k < i ensures s[..i][k] != '@' {}
    }
    assert IndexOf(s, '@') == Some(i) by {
      var r := IndexOf(s, '@');
      if r.None? || r.value < i {
      } else {
        assert r.value <= i;
      }
    }
    var after, domain, last := s[i + 1..], s[i + 1..j], s[j + 1..];
    assert '@' !in after by {
      forall k | 0 <= k < |after| ensures after[k] != '@' {
        if k + i + 1 < j {
          assert after[k] == domain[k];
        } else if k + i + 1 > j {
          assert after[k] == last[k + i - j];
        }
      }
    }
    assert s[i + 2..|s| - 1][j - i - 2] == '.';
  }

  lemma EmailMatchOfShape(s: string)
    requires EmailShape(s)
    ensures EmailMatches(s)
  {
    var i := IndexOf(s, '@').value;
    var t := s[i + 2..|s| - 1];
    var jj :| 0 <= jj < |t| && t[jj] == '.';
    var j := jj + i + 2;
    assert s[j] == '.';
    var local := s[..i];
    assert Plain(local) by {
      forall k | 0 <= k < |local| ensures !IsSpace(local[k]) && local[k] != '@' {
        assert local[k] == s[k];
      }
    }
    var after, domain, last := s[i + 1..], s[i + 1..j], s[j + 1..];
    assert Plain(domain) by {
      forall k | 0 <= k < |domain| ensures !IsSpace(domain[k]) && domain[k] != '@' {
        assert domain[k] == after[k];
      }
    }
    assert Plain(last) by {
      forall k | 0 <= k < |last| ensures !IsSpace(last[k]) && last[k] != '@' {
        assert last[k] == after[k + j - i];
      }
    }
  }

  /** The pattern matches exactly the strings of that shape. */
  lemma EmailMatchesIff(s: string)
    ensures EmailMatches(s) <==> EmailShape(s)
  {
    if EmailMatches(s) {
      var i, j :| 0 < i && i + 1 < j < |s| - 1 &&
        s[i] == '@' && s[j] == '.' && Plain(s[..i]) && Plain(s[i + 1..j]) && Plain(s[j + 1..]);
      EmailShapeOfMatch(s, i, j);
    }
    if EmailShape(s) {
      EmailMatchOfShape(s);
    }
  }

  predicate AllDigits(t: string) {
    forall k | 0 <= k < |t| :: IsDigit(t[k])
  }

  /** `/^\d{5}-?\d{3}$/.test(s)`: eight digits, optionally with a hyphen
      after the fifth. */
  predicate CepMatches(s: string) {
    (|s| == 8 && AllDigits(s)) ||
    (|s| == 9 && s[5] == '-' && AllDigits(s[..5]) && AllDigits(s[6..]))
  }

  /** A well-formed CEP carries exactly eight digits, and without its hyphen
      it is those eight digits. */
  lemma CepDigits(s: string)
    requires CepMatches(s)
    ensures |DigitsOf(s)| == 8
    ensures DigitsOf(s) == RemoveAll(s, '-')
  {
    if |s| == 8 {
      DigitsOfDigits(s);
      RemoveAbsent(s, '-');
    } else {
      var lead, hyphen, tail := s[..5], s[5..6], s[6..];
      assert s == lead + hyphen + tail;
      assert hyphen == ['-'] && hyphen[1..] == [];
      DigitsSplit(lead + hyphen, tail);
      DigitsSplit(lead, hyphen);
      DigitsOfDigits(lead);
      DigitsOfDigits(tail);
      RemoveSplit(lead + hyphen, tail, '-');
      RemoveSplit(lead, hyphen, '-');
      RemoveAbsent(lead, '-');
      RemoveAbsent(tail, '-');
    }
  }

  lemma {:induction false} DigitsSplit(a: string, b: string)
    ensures DigitsOf(a + b) == DigitsOf(a) + DigitsOf(b)
  {
    if a != [] {
      assert (a + b)[0] == a[0] && (a + b)[1..] == a[1..] + b;
      DigitsSplit(a[1..], b);
    } else {
      assert a + b == b;
    }
  }

  lemma {:induction false} RemoveSplit(a: string, b: string, c: char)
    ensures RemoveAll(a + b, c) == RemoveAll(a, c) + RemoveAll(b, c)
  {
    if a != [] {
      assert (a + b)[0] == a[0] && (a + b)[1..] == a[1..] + b;
      RemoveSplit(a[1..], b, c);
    } else {
      assert a + b == b;
    }
  }

  /** Removing a character the text does not hold leaves it unchanged. */
  lemma {:induction false} RemoveAbsent(s: string, c: char)
    requires forall k | 0 <= k < |s| :: s[k] != c
    ensures RemoveAll(s, c) == s
  {
    if s != [] {
      RemoveAbsent(s[1..], c);
    }
  }
}
