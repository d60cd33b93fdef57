/** The battery form: the values of its inputs, the error map that
    validation fills field by field, clearing a field's error on edit, and
    the submit gate. */
module BateriaForm {
  import opened Wrappers
  import opened JsText
  import opened Forms
  import JsValues

  /** A numeric input's value.  `Absent` is undefined or null.  `Blank` is
      the empty string left by clearing the input.  A number is NaN when
      `parseInt`/`parseFloat` found no digits. */
  datatype NumField = Absent | Blank | Num(n: JsValues.Number)

  /** What passes `!x || x <= 0` unflagged: a positive number. */
  predicate Positive(x: NumField) {
    x.Num? && x.n.Finite? && x.n.r > 0.0
  }

  /** JavaScript truthiness of a numeric input. */
  predicate Truthy(x: NumField) {
    x.Num? && x.n.Finite? && x.n.r != 0.0
  }

  /** `x < 0`: false for anything but a negative number (`'' < 0` and `NaN < 0` are false). */
  predicate Negative(x: NumField) {
    x.Num? && x.n.Finite? && x.n.r < 0.0
  }

  /** `Number.isInteger(x)`: false for the empty string. */
  predicate Whole(x: NumField) {
    x.Num? && JsValues.IsInteger(x.n)
  }

  datatype Field = Codigo | Modelo | Amperagem | GarantiaMeses | PrecoVenda | PrecoCusto
                 | IdCategoria | IdGrupo | IdSubgrupo | Ativo

  /** The fields `validateForm` checks, in the order it checks them; the
      active flag is not checked. */
  const Order: seq<Field> :=
    [Codigo, Modelo, Amperagem, GarantiaMeses, PrecoVenda, PrecoCusto, IdCategoria, IdGrupo, IdSubgrupo]

  datatype Data = Data(
    codigo: Option<string>, modelo: Option<string>,
    amperagem: NumField, garantiaMeses: NumField,
    precoVenda: NumField, precoCusto: NumField,
    idCategoria: NumField, idGrupo: NumField, idSubgrupo: NumField,
    ativo: NumField)

  /** The form of a new battery. */
  const Empty: Data := Data(Some(""), Some(""), Num(JsValues.Finite(0.0)), Num(JsValues.Finite(0.0)), Num(JsValues.Finite(0.0)),
    Num(JsValues.Finite(0.0)), Num(JsValues.Finite(0.0)), Num(JsValues.Finite(0.0)), Num(JsValues.Finite(0.0)), Num(JsValues.Finite(1.0)))

  // ---- validation, one field at a time ------------------------------------------

  /** A required positive id. */
  function IdError(x: NumField, message: string): (e: Option<string>)
    ensures e.None? <==> Positive(x)
  {
    if !Positive(x) then Some(message) else None
  }

  // ---- the messages ------------------------------------------------------------

  const MsgCodigoRequired: string := "Código é obrigatório"
  const MsgCodigoShort: string := "Código deve ter no mínimo 2 caracteres"
  const MsgModeloRequired: string := "Modelo é obrigatório"
  const MsgModeloShort: string := "Modelo deve ter no mínimo 3 caracteres"
  const MsgAmperagemPositive: string := "Amperagem deve ser maior que 0"
  const MsgAmperagemWhole: string := "Amperagem deve ser um número inteiro"
  const MsgGarantiaRequired: string := "Garantia é obrigatória"
  const MsgGarantiaNegative: string := "Garantia não pode ser negativa"
  const MsgGarantiaWhole: string := "Garantia deve ser um número inteiro"
  const MsgVendaAboveCusto: string := "Preço de venda deve ser maior que o preço de custo"
  const MsgVendaPositive: string := "Preço de venda deve ser maior que 0"
  const MsgCustoRequired: string := "Preço de custo é obrigatório"
  const MsgCustoNegative: string := "Preço de custo não pode ser negativo"
  const MsgCategoriaRequired: string := "Categoria é obrigatória"
  const MsgGrupoRequired: string := "Grupo é obrigatório"
  const MsgSubgrupoRequired: string := "Subgrupo é obrigatório"

  /** The error of one field for the values `d`, as `validateForm` leaves it. */
  function FieldError(d: Data, f: Field): (e: Option<string>)
    ensures e.None? <==> FieldAcceptable(d, f)
  {
    match f
    case Codigo =>
      assert d.codigo.Some? && |Trim(d.codigo.value)| >= 2 ==> Trim(d.codigo.value) != [];
      TextError(d.codigo, 2, MsgCodigoRequired, MsgCodigoShort)
    case Modelo =>
      assert d.modelo.Some? && |Trim(d.modelo.value)| >= 3 ==> Trim(d.modelo.value) != [];
      TextError(d.modelo, 3, MsgModeloRequired, MsgModeloShort)
    case Amperagem =>
      if !Positive(d.amperagem) then Some(MsgAmperagemPositive)
      else if !Whole(d.amperagem) then Some(MsgAmperagemWhole)
      else None
    case GarantiaMeses =>
      if d.garantiaMeses.Absent? then Some(MsgGarantiaRequired)
      else if Negative(d.garantiaMeses) then Some(MsgGarantiaNegative)
      else if !Whole(d.garantiaMeses) then Some(MsgGarantiaWhole)
      else None
    case PrecoVenda =>
      if Truthy(d.precoVenda) && Truthy(d.precoCusto) && d.precoVenda.n.r <= d.precoCusto.n.r then
        Some(MsgVendaAboveCusto)
      else if !Positive(d.precoVenda) then Some(MsgVendaPositive)
      else None
    case PrecoCusto =>
      if d.precoCusto.Absent? then Some(MsgCustoRequired)
      else if Negative(d.precoCusto) then Some(MsgCustoNegative)
      else None
    case IdCategoria => IdError(d.idCategoria, MsgCategoriaRequired)
    case IdGrupo => IdError(d.idGrupo, MsgGrupoRequired)
    case IdSubgrupo => IdError(d.idSubgrupo, MsgSubgrupoRequired)
    case Ativo => None
  }

  /** The error map after the first `k` checks of `validateForm`: one entry
      per field checked so far that has an error, holding that error. */
  function ErrorsUpTo(d: Data, k: nat): map<Field, string>
    requires k <= |Order|
  {
    if k == 0 then map[]
    else Put(ErrorsUpTo(d, k - 1), Order[k - 1], FieldError(d, Order[k - 1]))
  }

  /** The map after the first k checks holds exactly the fields among them
      that have an error, each with its message. */
  lemma {:induction false} ErrorsUpToKeys(d: Data, k: nat)
    requires k <= |Order|
    ensures forall f :: f in ErrorsUpTo(d, k) <==> f in Order[..k] && FieldError(d, f).Some?
    ensures forall f | f in ErrorsUpTo(d, k) :: ErrorsUpTo(d, k)[f] == FieldError(d, f).value
  {
    if k > 0 {
      ErrorsUpToKeys(d, k - 1);
      assert Order[..k] == Order[..k - 1] + [Order[k - 1]];
    }
  }

  /** The error map of `validateForm` for the values `d`: exactly the fields
      that have an error, each with its message. */
  function Errors(d: Data): (m: map<Field, string>)
    ensures forall f :: f in m <==> FieldError(d, f).Some?
    ensures forall f | f in m :: m[f] == FieldError(d, f).value
  {
    ErrorsKeys(d);
    ErrorsUpTo(d, |Order|)
  }

  lemma ErrorsKeys(d: Data)
    ensures forall f :: f in ErrorsUpTo(d, |Order|) <==> FieldError(d, f).Some?
    ensures forall f | f in ErrorsUpTo(d, |Order|) :: ErrorsUpTo(d, |Order|)[f] == FieldError(d, f).value
  {
    ErrorsUpToKeys(d, |Order|);
    assert Order[..|Order|] == Order;
    forall f ensures f in Order || f == Ativo {
      match f
      case Codigo => case Modelo => case Amperagem => case GarantiaMeses => case PrecoVenda =>
      case PrecoCusto => case IdCategoria => case IdGrupo => case IdSubgrupo => case Ativo =>
    }
  }

  /** The three price checks of `validateForm`, in their order: the sale
      price's own check, the cost's, and the comparison that may overwrite
      the sale price's message.  Together they record both fields' errors. */
  lemma PricesStep(d: Data)
    ensures var m := ErrorsUpTo(d, 4);
      var e1 := if !Positive(d.precoVenda) then m[PrecoVenda := MsgVendaPositive] else m;
      var e2 := if d.precoCusto.Absent? then e1[PrecoCusto := MsgCustoRequired]
        else if Negative(d.precoCusto) then e1[PrecoCusto := MsgCustoNegative] else e1;
      var e3 := if Truthy(d.precoVenda) && Truthy(d.precoCusto) && d.precoVenda.n.r <= d.precoCusto.n.r
        then e2[PrecoVenda := MsgVendaAboveCusto] else e2;
      e3 == ErrorsUpTo(d, 6)
  {
  }

  /** What each field must hold for the form to accept it; the active
      flag is free. */
  predicate FieldAcceptable(d: Data, f: Field) {
    match f
    case Codigo => d.codigo.Some? && |Trim(d.codigo.value)| >= 2
    case Modelo => d.modelo.Some? && |Trim(d.modelo.value)| >= 3
    case Amperagem => Positive(d.amperagem) && Whole(d.amperagem)
    case GarantiaMeses => Whole(d.garantiaMeses) && !Negative(d.garantiaMeses)
    case PrecoVenda => Positive(d.precoVenda) && !(Truthy(d.precoCusto) && d.precoVenda.n.r <= d.precoCusto.n.r)
    case PrecoCusto => !d.precoCusto.Absent? && !Negative(d.precoCusto)
    case IdCategoria => Positive(d.idCategoria)
    case IdGrupo => Positive(d.idGrupo)
    case IdSubgrupo => Positive(d.idSubgrupo)
    case Ativo => true
  }

  /** The values this form accepts: every field acceptable. */
  predicate Acceptable(d: Data) {
    forall f :: FieldAcceptable(d, f)
  }

  /** The form is valid exactly when its values are acceptable. */
  lemma ErrorsEmptyIff(d: Data)
    ensures Errors(d) == map[] <==> Acceptable(d)
  {
    assert forall f :: FieldError(d, f).None? <==> FieldAcceptable(d, f);
    if Errors(d) != map[] {
      var f :| f in Errors(d);
      assert !FieldAcceptable(d, f);
    }
  }

  /** A warranty of zero months is accepted; a negative one is refused. */
  lemma GarantiaBounds(d: Data)
    ensures d.garantiaMeses == Num(JsValues.Finite(0.0)) ==> FieldError(d, GarantiaMeses).None?
    ensures Negative(d.garantiaMeses) ==> FieldError(d, GarantiaMeses) == Some(MsgGarantiaNegative)
  {
  }

  /** A sale price not above a non-zero cost is reported as such, whatever else is wrong with it. */
  lemma PriceBelowCost(d: Data)
    requires Truthy(d.precoVenda) && Truthy(d.precoCusto) && d.precoVenda.n.r <= d.precoCusto.n.r
    ensures Errors(d)[PrecoVenda] == MsgVendaAboveCusto
    ensures !Acceptable(d)
  {
    assert !FieldAcceptable(d, PrecoVenda);
  }

  // ---- editing ----------------------------------------------------------------

  function IntInput(value: string): (x: NumField)
    ensures value == [] <==> x.Blank?
  {
    if value == [] then Blank
    else match ParseInt(value)
      case Some(n) => Num(JsValues.Finite(n as real))
      case None => Num(JsValues.NaN)
  }

  function FloatInput(value: string): (x: NumField)
    ensures value == [] <==> x.Blank?
  {
    if value == [] then Blank
    else match ParseFloat(value)
      case Some(r) => Num(JsValues.Finite(r))
      case None => Num(JsValues.NaN)
  }

  /** `{...prev, [name]: finalValue}`: the integer inputs go through
      `parseInt`, the prices through `parseFloat`, the texts as typed. */
  function Updated(d: Data, name: Field, value: string): (r: Data)
    ensures forall f | f != name :: Get(r, f) == Get(d, f)
    ensures name in {Codigo, Modelo} ==> Get(r, name) == TextEntry(Some(value))
    ensures name in {PrecoVenda, PrecoCusto} ==> Get(r, name) == NumEntry(FloatInput(value))
    ensures name !in {Codigo, Modelo, PrecoVenda, PrecoCusto} ==> Get(r, name) == NumEntry(IntInput(value))
  {
    match name
    case Codigo => d.(codigo := Some(value))
    case Modelo => d.(modelo := Some(value))
    case Amperagem => d.(amperagem := IntInput(value))
    case GarantiaMeses => d.(garantiaMeses := IntInput(value))
    case PrecoVenda => d.(precoVenda := FloatInput(value))
    case PrecoCusto => d.(precoCusto := FloatInput(value))
    case IdCategoria => d.(idCategoria := IntInput(value))
    case IdGrupo => d.(idGrupo := IntInput(value))
    case IdSubgrupo => d.(idSubgrupo := IntInput(value))
    case Ativo => d.(ativo := IntInput(value))
  }

  /** The value of one field, text or numeric. */
  datatype Entry = TextEntry(s: Option<string>) | NumEntry(x: NumField)

  function Get(d: Data, f: Field): Entry {
    match f
    case Codigo => TextEntry(d.codigo)
    case Modelo => TextEntry(d.modelo)
    case Amperagem => NumEntry(d.amperagem)
    case GarantiaMeses => NumEntry(d.garantiaMeses)
    case PrecoVenda => NumEntry(d.precoVenda)
    case PrecoCusto => NumEntry(d.precoCusto)
    case IdCategoria => NumEntry(d.idCategoria)
    case IdGrupo => NumEntry(d.idGrupo)
    case IdSubgrupo => NumEntry(d.idSubgrupo)
    case Ativo => NumEntry(d.ativo)
  }

  /** An integer typed into a numeric input is stored as that number. */
  lemma IntInputOfText(n: int)
    ensures IntInput(IntToString(n)) == Num(JsValues.Finite(n as real))
  {
    ParseIntToString(n);
  }

  /** The margin shown next to the prices, in percent: present when both
      prices are non-zero, positive exactly when the sale price is above a
      positive cost. */
  function Margem(d: Data): (m: Option<real>)
    ensures m.Some? <==> Truthy(d.precoVenda) && Truthy(d.precoCusto)
    ensures m.Some? && d.precoCusto.n.r > 0.0 ==> (m.value > 0.0 <==> d.precoVenda.n.r > d.precoCusto.n.r)
  {
    if Truthy(d.precoVenda) && Truthy(d.precoCusto) then
      var v, c := d.precoVenda.n.r, d.precoCusto.n.r;
      assert c > 0.0 ==> ((v - c) / c > 0.0 <==> v > c);
      Some((v - c) / c * 100.0)
    else None
  }

  // ---- validateForm, in two halves ------------------------------------------------

  /** The first four checks of `validateForm`: code, model, amperage and warranty. */
  method ValidateDetails(d: Data) returns (e: map<Field, string>)
    ensures e == ErrorsUpTo(d, 4)
  {
    e := map[];
    if d.codigo.None? || Trim(d.codigo.value) == [] {
      e := e[Codigo := MsgCodigoRequired];
    } else if |Trim(d.codigo.value)| < 2 {
      e := e[Codigo := MsgCodigoShort];
    }
    assert e == ErrorsUpTo(d, 1);
    if d.modelo.None? || Trim(d.modelo.value) == [] {
      e := e[Modelo := MsgModeloRequired];
    } else if |Trim(d.modelo.value)| < 3 {
      e := e[Modelo := MsgModeloShort];
    }
    assert e == ErrorsUpTo(d, 2);
    if !Positive(d.amperagem) {
      e := e[Amperagem := MsgAmperagemPositive];
    } else if !Whole(d.amperagem) {
      e := e[Amperagem := MsgAmperagemWhole];
    }
    assert e == ErrorsUpTo(d, 3);
    if d.garantiaMeses.Absent? {
      e := e[GarantiaMeses := MsgGarantiaRequired];
    } else if Negative(d.garantiaMeses) {
      e := e[GarantiaMeses := MsgGarantiaNegative];
    } else if !Whole(d.garantiaMeses) {
      e := e[GarantiaMeses := MsgGarantiaWhole];
    }
    assert e == ErrorsUpTo(d, 4);
  }

  /** The remaining checks of `validateForm`: the prices, then the three ids. */
  method ValidatePricesAndIds(d: Data, e0: map<Field, string>) returns (e: map<Field, string>)
    requires e0 == ErrorsUpTo(d, 4)
    ensures e == ErrorsUpTo(d, |Order|)
  {
    e := e0;
    if !Positive(d.precoVenda) {
      e := e[PrecoVenda := MsgVendaPositive];
    }
    if d.precoCusto.Absent? {
      e := e[PrecoCusto := MsgCustoRequired];
    } else if Negative(d.precoCusto) {
      e := e[PrecoCusto := MsgCustoNegative];
    }
    if Truthy(d.precoVenda) && Truthy(d.precoCusto) && d.precoVenda.n.r <= d.precoCusto.n.r {
      e := e[PrecoVenda := MsgVendaAboveCusto];
    }
    assert e == ErrorsUpTo(d, 6) by { PricesStep(d); }
    if !Positive(d.idCategoria) {
      e := e[IdCategoria := MsgCategoriaRequired];
    }
    assert e == ErrorsUpTo(d, 7);
    if !Positive(d.idGrupo) {
      e := e[IdGrupo := MsgGrupoRequired];
    }
    assert e == ErrorsUpTo(d, 8);
    if !Positive(d.idSubgrupo) {
      e := e[IdSubgrupo := MsgSubgrupoRequired];
    }
    assert e == ErrorsUpTo(d, 9);
  }

  // ---- the component state ----------------------------------------------------

  class Form {
    var formData: Data
    var errors: map<Field, string>

    /** A new form, or the battery being edited. */
    constructor (bateria: Option<Data>)
      ensures formData == bateria.GetOr(Empty) && errors == map[]
    {
      formData := bateria.GetOr(Empty);
      errors := map[];
    }

    /** `validateForm`: builds the error map field by field, stores it, and
        reports whether it is empty. */
    method ValidateForm() returns (valid: bool)
      modifies this
      ensures formData == old(formData)
      ensures errors == Errors(formData)
      ensures valid <==> Acceptable(formData)
    {
      var e := ValidateDetails(formData);
      e := ValidatePricesAndIds(formData, e);
      errors := e;
      ErrorsEmptyIff(formData);
      valid := |e| == 0;
    }

    /** `handleSubmit`: `onSubmit` is called, with the current values, only
        when validation passes. */
    method HandleSubmit() returns (called: bool)
      modifies this
      ensures formData == old(formData)
      ensures errors == Errors(formData)
      ensures called <==> Acceptable(formData)
    {
      called := ValidateForm();
    }

    /** `handleChange` for input `name` receiving `value`. */
    method HandleChange(name: Field, value: string)
      modifies this
      ensures formData == Updated(old(formData), name, value)
      ensures errors == Cleared(old(errors), name)
    {
      formData := Updated(formData, name, value);
      if name in errors && errors[name] != "" {
        errors := errors[name := ""];
      }
    }
  }
}
