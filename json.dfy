/** Loose JSON as the services receive it from the API and as errors are
    thrown: primitives, arrays and objects, with property access `v?.key`,
    nullish coalescing `v ?? w`, truthiness and the conversions `Number(v)`
    and `String(v)`. */
module Json {
  import opened JsText
  import JsValues

  datatype Js = Undefined | Null | Bool(b: bool) | Num(n: JsValues.Number) | Str(s: string)
              | Arr(items: seq<Js>) | Obj(props: map<string, Js>)

  /** `v == null`: what `??` and `?.` let fall through. */
  predicate Nullish(v: Js) {
    v.Undefined? || v.Null?
  }

  /** JavaScript truthiness: what `||` and `if (v)` keep. */
  predicate Truthy(v: Js) {
    match v
    case Undefined => false
    case Null => false
    case Bool(b) => b
    case Num(n) => n.Finite? && n.r != 0.0
    case Str(s) => s != []
    case Arr(_) => true
    case Obj(_) => true
  }

  /** `v ?? fallback`: only `null` and `undefined` fall through, so `0`,
      `false` and `''` are kept. */
  function OrElse(v: Js, fallback: Js): (r: Js)
    ensures !Nullish(v) ==> r == v
    ensures Nullish(v) ==> r == fallback
  {
    if Nullish(v) then fallback else v
  }

  /** `v?.key`: an object's own property, and `undefined` for a missing key,
      for `null`/`undefined` and for a primitive or an array. */
  function Get(v: Js, key: string): (r: Js)
    ensures v.Obj? && key in v.props ==> r == v.props[key]
    ensures !(v.Obj? && key in v.props) ==> r.Undefined?
  {
    if v.Obj? && key in v.props then v.props[key] else Undefined
  }

  /** `Number(v)`.  An array is read through its text, the elements joined
      with commas: `[]` is 0, a single element is read as its own text
      (`null` and `undefined` as the empty text, hence 0), and two or more
      elements always leave a comma, hence NaN.  A plain object's text is
      `[object Object]`, hence NaN. */
  function ToNumber(v: Js): (n: JsValues.Number)
    ensures v.Num? ==> n == v.n
    ensures v.Null? || v == Arr([]) ==> n == JsValues.Finite(0.0)
    ensures v.Undefined? || v.Obj? ==> n.NaN?
    ensures v.Arr? && |v.items| >= 2 ==> n.NaN?
  {
    match v
    case Undefined => JsValues.NaN
    case Null => JsValues.Finite(0.0)
    case Bool(b) => JsValues.Finite(if b then 1.0 else 0.0)
    case Num(n) => n
    case Str(s) => JsValues.StringToNumber(s)
    case Arr(items) =>
      if items == [] then JsValues.Finite(0.0)
      else if |items| >= 2 then JsValues.NaN
      else
        (match items[0]
         case Undefined => JsValues.Finite(0.0)
         case Null => JsValues.Finite(0.0)
         case Bool(_) => JsValues.NaN
         case Obj(_) => JsValues.NaN
         case _ => ToNumber(items[0]))
    case Obj(_) => JsValues.NaN
  }

  /** A one-element array reads as its element does, except that `undefined`
      becomes the empty text (0) and a boolean its word (NaN, where the
      boolean alone is 0 or 1). */
  lemma SingletonArrayNumber(x: Js)
    ensures x.Num? || x.Str? || x.Arr? || x.Null? ==> ToNumber(Arr([x])) == ToNumber(x)
    ensures x.Undefined? ==> ToNumber(Arr([x])) == JsValues.Finite(0.0) && ToNumber(x).NaN?
    ensures x.Bool? || x.Obj? ==> ToNumber(Arr([x])).NaN?
    ensures x == Bool(true) ==> ToNumber(x) == JsValues.Finite(1.0)
  {
  }

  /** `Number` reads back an integer written as text. */
  lemma ToNumberOfIntText(n: int)
    ensures ToNumber(Str(IntToString(n))) == JsValues.Finite(n as real)
  {
    IntTextPlain(n);
    DecimalTextToString(n);
    JsValues.PlainDecimalNumber(IntToString(n));
  }

  /** `String(v)` and `${v}`; the text of a number or an array is given by
      `show`. */
  function Text(v: Js, show: Js -> string): (t: string)
    ensures v.Str? ==> t == v.s
    ensures v.Undefined? ==> t == "undefined"
    ensures v.Null? ==> t == "null"
  {
    match v
    case Undefined => "undefined"
    case Null => "null"
    case Bool(b) => if b then "true" else "false"
    case Num(_) => show(v)
    case Str(s) => s
    case Arr(_) => show(v)
    case Obj(_) => "[object Object]"
  }

  /** A falsy value is nullish, or one of `false`, `0`, NaN and `''`: what
      `||` drops and `??` keeps. */
  lemma FalsyKinds(v: Js)
    ensures !Truthy(v) <==> Nullish(v) || v == Bool(false) || v == Str("")
                            || (v.Num? && (v.n.NaN? || v.n.r == 0.0))
  {
  }
}
