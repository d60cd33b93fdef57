/** The vehicle form: plate and model are required with minimum trimmed
    lengths, the year is optional but, when given, must be a whole year
    between 1900 and the year after the current one. */
module VeiculoForm {
  import opened Wrappers
  import opened JsText
  import opened Forms
  import JsValues

  datatype Field = IdCliente | Placa | Modelo | Marca | Ano | Cor

  /** The form's values.  `ano` is absent when undefined or null; a typed
      year that `parseInt` cannot read is NaN. */
  datatype Data = Data(
    idCliente: Option<int>, placa: Option<string>, modelo: Option<string>,
    marca: Option<string>, ano: Option<JsValues.Number>, cor: Option<string>)

  /** The form of a new vehicle. */
  const Blank: Data := Data(None, Some(""), Some(""), Some(""), None, Some(""))

  /** `!Number.isInteger(ano) || ano < 1900 || ano > currentYear + 1`. */
  predicate BadYear(ano: JsValues.Number, currentYear: int) {
    !JsValues.IsInteger(ano) || ano.r < 1900.0 || ano.r > (currentYear + 1) as real
  }

  // ---- the messages ------------------------------------------------------------

  const MsgPlacaRequired: string := "Placa é obrigatória (mín. 4 caracteres)"
  const MsgModeloRequired: string := "Modelo é obrigatório"
  const MsgAnoInvalid: string := "Ano inválido"

  /** The error of one field for the values `d`, as `validate` leaves it. */
  function FieldError(d: Data, currentYear: int, f: Field): (e: Option<string>)
    ensures f == Placa ==> (e.None? <==> d.placa.Some? && |Trim(d.placa.value)| >= 4)
    ensures f == Modelo ==> (e.None? <==> d.modelo.Some? && |Trim(d.modelo.value)| >= 3)
    ensures f == Ano ==> (e.None? <==> GoodYear(d.ano, currentYear))
    ensures f !in Checks ==> e.None?
  {
    match f
    case Placa => MinLengthError(d.placa, 4, MsgPlacaRequired)
    case Modelo => MinLengthError(d.modelo, 3, MsgModeloRequired)
    case Ano => if d.ano.Some? && BadYear(d.ano.value, currentYear) then Some(MsgAnoInvalid) else None
    case IdCliente => None
    case Marca => None
    case Cor => None
  }

  /** The fields `validate` checks, in order: plate, model and year. */
  const Checks: seq<Field> := [Placa, Modelo, Ano]

  /** The error map of `validate`: exactly the fields that have an error,
      each with its message. */
  function Errors(d: Data, currentYear: int): (m: map<Field, string>)
    ensures forall f :: f in m <==> FieldError(d, currentYear, f).Some?
    ensures forall f | f in m :: m[f] == FieldError(d, currentYear, f).value
  {
    var err := f => FieldError(d, currentYear, f);
    PutThree(Placa, Modelo, Ano, err);
    Put(Put(Put(map[], Placa, err(Placa)), Modelo, err(Modelo)), Ano, err(Ano))
  }

  /** A year the form accepts. */
  predicate GoodYear(ano: Option<JsValues.Number>, currentYear: int) {
    match ano
    case None => true
    case Some(n) => n.Finite? && n.r.Floor as real == n.r && 1900.0 <= n.r <= (currentYear + 1) as real
  }

  /** The values this form accepts, stated field by field: a plate of four
      or more characters and a model of three or more once trimmed, and no
      year or a whole year from 1900 to the year after `currentYear`. */
  predicate Acceptable(d: Data, currentYear: int) {
    d.placa.Some? && |Trim(d.placa.value)| >= 4 &&
    d.modelo.Some? && |Trim(d.modelo.value)| >= 3 &&
    GoodYear(d.ano, currentYear)
  }

  /** The form is valid exactly when its values are acceptable. */
  lemma ErrorsEmptyIff(d: Data, currentYear: int)
    ensures Errors(d, currentYear) == map[] <==> Acceptable(d, currentYear)
  {
    var m := Errors(d, currentYear);
    if m == map[] {
      assert Placa !in m && Modelo !in m && Ano !in m;
    } else {
      var f :| f in m;
      assert FieldError(d, currentYear, f).Some?;
    }
  }

  // ---- editing --------------------------------------------------------------

  /** What the year input stores: undefined for an empty input, otherwise
      `parseInt(value, 10)`. */
  function YearInput(value: string): (ano: Option<JsValues.Number>)
    ensures value == [] <==> ano.None?
  {
    if value == [] then None
    else match ParseInt(value)
      case Some(n) => Some(JsValues.Finite(n as real))
      case None => Some(JsValues.NaN)
  }

  /** `{...p, [name]: name === 'ano' ? … : value}`; the client id has no input. */
  function Updated(d: Data, name: Field, value: string): (r: Data)
    ensures r.idCliente == d.idCliente
    ensures r.placa == (if name == Placa then Some(value) else d.placa)
    ensures r.modelo == (if name == Modelo then Some(value) else d.modelo)
    ensures r.marca == (if name == Marca then Some(value) else d.marca)
    ensures r.ano == (if name == Ano then YearInput(value) else d.ano)
    ensures r.cor == (if name == Cor then Some(value) else d.cor)
  {
    match name
    case IdCliente => d
    case Placa => d.(placa := Some(value))
    case Modelo => d.(modelo := Some(value))
    case Marca => d.(marca := Some(value))
    case Ano => d.(ano := YearInput(value))
    case Cor => d.(cor := Some(value))
  }

  /** Clearing the year input removes the year and with it any year error. */
  lemma ClearedYearAccepted(d: Data, currentYear: int)
    ensures Updated(d, Ano, "").ano.None?
    ensures Ano !in Errors(Updated(d, Ano, ""), currentYear)
  {
  }

  /** A year typed in digits is stored as that number, and it is refused
      exactly when it falls outside 1900 to the year after `currentYear`. */
  lemma TypedYear(d: Data, currentYear: int, y: int)
    ensures Updated(d, Ano, IntToString(y)).ano == Some(JsValues.Finite(y as real))
    ensures Ano in Errors(Updated(d, Ano, IntToString(y)), currentYear) <==> y < 1900 || y > currentYear + 1
  {
    ParseIntToString(y);
    assert IntToString(y) != [] by {
      SignOfIntToString(y);
    }
    assert JsValues.IsInteger(JsValues.Finite(y as real));
  }

  // ---- the component state ----------------------------------------------------

  class Form {
    /** The year the page was loaded in. */
    const currentYear: int
    var formData: Data
    var errors: map<Field, string>

    /** A new form, or the vehicle being edited as it arrives. */
    constructor (veiculo: Option<Data>, year: int)
      ensures currentYear == year
      ensures formData == veiculo.GetOr(Blank) && errors == map[]
    {
      currentYear := year;
      formData := veiculo.GetOr(Blank);
      errors := map[];
    }

    /** `validate`: records the plate, model and year errors in turn,
        stores the map, and reports whether it is empty. */
    method Validate() returns (valid: bool)
      modifies this
      ensures formData == old(formData)
      ensures errors == Errors(formData, currentYear)
      ensures valid <==> Acceptable(formData, currentYear)
    {
      var d := formData;
      var e: map<Field, string> := map[];
      if !Filled(d.placa) || |Trim(d.placa.value)| < 4 {
        e := e[Placa := MsgPlacaRequired];
      }
      assert e == Put(map[], Placa, FieldError(d, currentYear, Placa));
      var e1 := e;
      if !Filled(d.modelo) || |Trim(d.modelo.value)| < 3 {
        e := e[Modelo := MsgModeloRequired];
      }
      assert e == Put(e1, Modelo, FieldError(d, currentYear, Modelo));
      var e2 := e;
      if d.ano.Some? && BadYear(d.ano.value, currentYear) {
        e := e[Ano := MsgAnoInvalid];
        assert FieldError(d, currentYear, Ano) == Some(MsgAnoInvalid);
      } else {
        assert FieldError(d, currentYear, Ano).None?;
      }
      assert e == Put(e2, Ano, FieldError(d, currentYear, Ano));
      errors := e;
      ErrorsEmptyIff(d, currentYear);
      valid := |e| == 0;
    }

    /** `handleSubmit`: `onSubmit` is called only when validation passes. */
    method HandleSubmit() returns (called: bool)
      modifies this
      ensures formData == old(formData)
      ensures errors == Errors(formData, currentYear)
      ensures called <==> Acceptable(formData, currentYear)
    {
      called := Validate();
    }

    /** `handleChange` for input `name` receiving `value`. */
    method HandleChange(name: Field, value: string)
      modifies this
      ensures formData == Updated(old(formData), name, value)
      ensures errors == Cleared(old(errors), name)
    {
      formData := Updated(formData, name, value);
      if name in errors && errors[name] != "" {
        errors := errors[name := ""];
      }
    }
  }
}
