/** The customer form: a required name, an optional e-mail checked against
    a pattern, an optional phone number that must carry ten digits, and
    four free address fields. */
module ClienteForm {
  import opened Wrappers
  import opened JsText
  import opened Forms

  datatype Field = Nome | Telefone | Email | Endereco | Cidade | Estado | Cep

  /** The form's values; `None` is a key the customer record lacks. */
  datatype Data = Data(
    nome: Option<string>, telefone: Option<string>, email: Option<string>,
    endereco: Option<string>, cidade: Option<string>, estado: Option<string>, cep: Option<string>)

  /** The form of a new customer: every field the empty string. */
  const Blank: Data := Data(Some(""), Some(""), Some(""), Some(""), Some(""), Some(""), Some(""))

  function Get(d: Data, f: Field): Option<string> {
    match f
    case Nome => d.nome
    case Telefone => d.telefone
    case Email => d.email
    case Endereco => d.endereco
    case Cidade => d.cidade
    case Estado => d.estado
    case Cep => d.cep
  }

  // ---- validation ---------------------------------------------------------------

  /** `/^\d{10,}$/.test(t)`: ten or more digits and nothing else. */
  predicate TenDigits(t: string) {
    |t| >= 10 && AllDigits(t)
  }

  /** The digits of a phone number pass the pattern exactly when there are
      at least ten of them. */
  lemma TenDigitsOfDigits(s: string)
    ensures TenDigits(DigitsOf(s)) <==> |DigitsOf(s)| >= 10
  {
  }

  // ---- the messages ------------------------------------------------------------

  const MsgNomeRequired: string := "Nome é obrigatório"
  const MsgNomeShort: string := "Nome deve ter no mínimo 3 caracteres"
  const MsgEmailInvalid: string := "Email inválido"
  const MsgTelefoneShort: string := "Telefone deve conter no mínimo 10 dígitos"

  /** The error of one field for the values `d`, as `validateForm` leaves it. */
  function FieldError(d: Data, f: Field): (e: Option<string>)
    ensures f == Nome ==> (e.None? <==> d.nome.Some? && |Trim(d.nome.value)| >= 3)
    ensures f == Email ==> (e.None? <==> (Filled(d.email) ==> EmailShape(d.email.value)))
    ensures f == Telefone ==> (e.None? <==> (Filled(d.telefone) ==> |DigitsOf(d.telefone.value)| >= 10))
    ensures f !in Checks ==> e.None?
  {
    match f
    case Nome =>
      assert d.nome.Some? && |Trim(d.nome.value)| >= 3 ==> Trim(d.nome.value) != [];
      TextError(d.nome, 3, MsgNomeRequired, MsgNomeShort)
    case Email =>
      if Filled(d.email) then
        EmailMatchesIff(d.email.value);
        if !EmailMatches(d.email.value) then Some(MsgEmailInvalid) else None
      else None
    case Telefone =>
      if Filled(d.telefone) && !TenDigits(DigitsOf(d.telefone.value))
      then Some(MsgTelefoneShort) else None
    case Endereco => None
    case Cidade => None
    case Estado => None
    case Cep => None
  }

  /** The fields `validateForm` checks, in order: name, e-mail and phone. */
  const Checks: seq<Field> := [Nome, Email, Telefone]

  /** The error map of `validateForm`: exactly the fields that have an
      error, each with its message. */
  function Errors(d: Data): (m: map<Field, string>)
    ensures forall f :: f in m <==> FieldError(d, f).Some?
    ensures forall f | f in m :: m[f] == FieldError(d, f).value
  {
    var err := f => FieldError(d, f);
    PutThree(Nome, Email, Telefone, err);
    Put(Put(Put(map[], Nome, err(Nome)), Email, err(Email)), Telefone, err(Telefone))
  }

  /** The values this form accepts, stated field by field: a name of three
      or more characters once trimmed; an e-mail, if given, with a single
      `@` not at its start and a `.` inside the part after it, and no white
      space; a phone number, if given, with at least ten digits. */
  predicate Acceptable(d: Data) {
    d.nome.Some? && |Trim(d.nome.value)| >= 3 &&
    (Filled(d.email) ==> EmailShape(d.email.value)) &&
    (Filled(d.telefone) ==> |DigitsOf(d.telefone.value)| >= 10)
  }

  /** The form is valid exactly when its values are acceptable. */
  lemma ErrorsEmptyIff(d: Data)
    ensures Errors(d) == map[] <==> Acceptable(d)
  {
    if Errors(d) == map[] {
      assert Nome !in Errors(d) && Email !in Errors(d) && Telefone !in Errors(d);
    } else {
      var f :| f in Errors(d);
      assert FieldError(d, f).Some?;
    }
  }

  /** A missing name is refused whatever else is filled in. */
  lemma NomeRequired(d: Data)
    requires d.nome.None? || Trim(d.nome.value) == []
    ensures Errors(d)[Nome] == MsgNomeRequired
    ensures !Acceptable(d)
  {
  }

  /** Leaving e-mail and phone empty is always allowed. */
  lemma OptionalContacts(d: Data)
    requires !Filled(d.email) && !Filled(d.telefone)
    ensures Email !in Errors(d) && Telefone !in Errors(d)
  {
  }

  // ---- editing --------------------------------------------------------------

  /** `{...prev, [name]: value}`. */
  function Updated(d: Data, name: Field, value: string): (r: Data)
    ensures Get(r, name) == Some(value)
    ensures forall f | f != name :: Get(r, f) == Get(d, f)
  {
    match name
    case Nome => d.(nome := Some(value))
    case Telefone => d.(telefone := Some(value))
    case Email => d.(email := Some(value))
    case Endereco => d.(endereco := Some(value))
    case Cidade => d.(cidade := Some(value))
    case Estado => d.(estado := Some(value))
    case Cep => d.(cep := Some(value))
  }

  // ---- the component state ----------------------------------------------------

  class Form {
    var formData: Data
    var errors: map<Field, string>

    /** A new form, or the customer being edited as it arrives. */
    constructor (cliente: Option<Data>)
      ensures formData == cliente.GetOr(Blank) && errors == map[]
    {
      formData := cliente.GetOr(Blank);
      errors := map[];
    }

    /** `validateForm`: records the name, e-mail and phone errors in turn,
        stores the map, and reports whether it is empty. */
    method ValidateForm() returns (valid: bool)
      modifies this
      ensures formData == old(formData)
      ensures errors == Errors(formData)
      ensures valid <==> Acceptable(formData)
    {
      var d := formData;
      var e: map<Field, string> := map[];
      if d.nome.None? || Trim(d.nome.value) == [] {
        e := e[Nome := MsgNomeRequired];
      } else if |Trim(d.nome.value)| < 3 {
        e := e[Nome := MsgNomeShort];
      }
      if Filled(d.email) && !EmailMatches(d.email.value) {
        e := e[Email := MsgEmailInvalid];
      }
      if Filled(d.telefone) && !TenDigits(DigitsOf(d.telefone.value)) {
        e := e[Telefone := MsgTelefoneShort];
      }
      errors := e;
      ErrorsEmptyIff(d);
      valid := |e| == 0;
    }

    /** `handleSubmit`: `onSubmit` is called, with the current values, only
        when validation passes. */
    method HandleSubmit() returns (called: bool)
      modifies this
      ensures formData == old(formData)
      ensures errors == Errors(formData)
      ensures called <==> Acceptable(formData)
    {
      called := ValidateForm();
    }

    /** `handleChange` for input `name` receiving `value`. */
    method HandleChange(name: Field, value: string)
      modifies this
      ensures formData == Updated(old(formData), name, value)
      ensures errors == Cleared(old(errors), name)
    {
      formData := Updated(formData, name, value);
      if name in errors && errors[name] != "" {
        errors := errors[name := ""];
      }
    }
  }
}
