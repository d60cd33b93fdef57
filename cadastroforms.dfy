/** The category, group and subgroup forms.  The three are the same form
    but for the minimum length of the name and the wording of its message:
    a name is the only field checked, the description defaults to the
    empty string and the active flag to 1. */
module CadastroForms {
  import opened Wrappers
  import opened JsText
  import opened Forms

  datatype Field = Nome | Descricao | Ativo

  /** A category, group or subgroup as it arrives; `None` is a missing key. */
  datatype Record = Record(nome: Option<string>, descricao: Option<string>, ativo: Option<int>)

  /** The name's error for the minimum `min` and message `message`. */
  function Errors(nome: Option<string>, min: nat, message: string): (m: map<Field, string>)
    ensures forall f :: f in m <==> f == Nome && MinLengthError(nome, min, message).Some?
    ensures Nome in m ==> m[Nome] == message
  {
    Put(map[], Nome, MinLengthError(nome, min, message))
  }

  /** A name is accepted exactly when it has at least `min` characters once
      trimmed (and is not the empty string). */
  lemma ErrorsEmptyIff(nome: Option<string>, min: nat, message: string)
    ensures Errors(nome, min, message) == map[] <==> nome.Some? && nome.value != [] && |Trim(nome.value)| >= min
  {
    if Errors(nome, min, message) != map[] {
      assert Nome in Errors(nome, min, message);
    }
  }

  /** `!!ativo`: the checkbox is ticked for any non-zero flag. */
  predicate Checked(ativo: int) {
    ativo != 0
  }

  /** The checkbox stores 1 when ticked and 0 otherwise, so reading it back
      gives the tick. */
  lemma ToggleReadsBack(checked: bool)
    ensures Checked(if checked then 1 else 0) == checked
  {
  }

  class Form {
    /** The minimum trimmed length of the name. */
    const minNome: nat
    /** The message shown for a name that is too short or missing. */
    const message: string
    var nome: Option<string>
    var descricao: string
    var ativo: int
    var errors: map<Field, string>

    /** The form state once the record being edited, if any, has been
        loaded: its name as it is, its description or the empty string, its
        flag kept even when 0, and 1 when it has none. */
    predicate Loaded(record: Option<Record>)
      reads this
    {
      match record
      case None => nome == Some("") && descricao == "" && ativo == 1
      case Some(r) =>
        nome == r.nome && descricao == r.descricao.GetOr("") && ativo == r.ativo.GetOr(1)
    }

    /** `CategoriaForm`: a name of at least 3 characters. */
    constructor Categoria(record: Option<Record>)
      ensures minNome == 3 && message == "Nome é obrigatório (mín. 3 caracteres)"
      ensures Loaded(record) && errors == map[]
    {
      minNome := 3;
      message := "Nome é obrigatório (mín. 3 caracteres)";
      new;
      Load(record);
    }

    /** `GrupoForm`: a name of at least 2 characters. */
    constructor Grupo(record: Option<Record>)
      ensures minNome == 2 && message == "Nome é obrigatório (mín. 2 caracteres)"
      ensures Loaded(record) && errors == map[]
    {
      minNome := 2;
      message := "Nome é obrigatório (mín. 2 caracteres)";
      new;
      Load(record);
    }

    /** `SubgrupoForm`: the same rule as the group form. */
    constructor Subgrupo(record: Option<Record>)
      ensures minNome == 2 && message == "Nome é obrigatório (mín. 2 caracteres)"
      ensures Loaded(record) && errors == map[]
    {
      minNome := 2;
      message := "Nome é obrigatório (mín. 2 caracteres)";
      new;
      Load(record);
    }

    /** The initial state and the effect that loads the record. */
    method Load(record: Option<Record>)
      modifies this
      ensures Loaded(record) && errors == map[]
    {
      nome, descricao, ativo := Some(""), "", 1;
      errors := map[];
      if record.Some? {
        var r := record.value;
        nome := r.nome;
        descricao := if r.descricao.Some? && r.descricao.value != "" then r.descricao.value else "";
        ativo := if r.ativo.Some? then r.ativo.value else 1;
      }
    }

    /** `validate`: records the name's error, if it has one, and reports
        whether there is none. */
    method Validate() returns (valid: bool)
      modifies this
      ensures nome == old(nome) && descricao == old(descricao) && ativo == old(ativo)
      ensures errors == Errors(nome, minNome, message)
      ensures valid <==> nome.Some? && nome.value != [] && |Trim(nome.value)| >= minNome
    {
      var e: map<Field, string> := map[];
      if !Filled(nome) || |Trim(nome.value)| < minNome {
        e := e[Nome := message];
      }
      errors := e;
      ErrorsEmptyIff(nome, minNome, message);
      valid := |e| == 0;
    }

    /** `handleSubmit`: `onSubmit` runs only when the name is accepted. */
    method HandleSubmit() returns (called: bool)
      modifies this
      ensures nome == old(nome) && descricao == old(descricao) && ativo == old(ativo)
      ensures errors == Errors(nome, minNome, message)
      ensures called <==> nome.Some? && nome.value != [] && |Trim(nome.value)| >= minNome
    {
      called := Validate();
    }

    /** Typing in the name input; the error map is left as it is. */
    method SetNome(value: string)
      modifies this
      ensures nome == Some(value)
      ensures descricao == old(descricao) && ativo == old(ativo) && errors == old(errors)
    {
      nome := Some(value);
    }

    method SetDescricao(value: string)
      modifies this
      ensures descricao == value
      ensures nome == old(nome) && ativo == old(ativo) && errors == old(errors)
    {
      descricao := value;
    }

    /** The active checkbox: 1 when ticked, 0 otherwise. */
    method SetAtivo(checked: bool)
      modifies this
      ensures ativo == (if checked then 1 else 0) && Checked(ativo) == checked
      ensures nome == old(nome) && descricao == old(descricao) && errors == old(errors)
    {
      ativo := if checked then 1 else 0;
    }
  }
}
