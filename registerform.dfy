/** The company sign-up wizard: a company step, a user step and a
    confirmation step.  Each forward move is gated by that step's checks,
    which stop at the first failure and report it as the page's single
    error message. */
module RegisterForm {
  import opened Wrappers
  import opened JsText

  datatype EmpresaField = NomeFantasia | RazaoSocial | Cnpj | Email | Telefone | Cep
                        | Endereco | Numero | Cidade | Estado

  /** The key of a company field, as the required-field message names it. */
  function Key(f: EmpresaField): string {
    match f
    case NomeFantasia => "nome_fantasia"
    case RazaoSocial => "razao_social"
    case Cnpj => "cnpj"
    case Email => "email"
    case Telefone => "telefone"
    case Cep => "cep"
    case Endereco => "endereco"
    case Numero => "numero"
    case Cidade => "cidade"
    case Estado => "estado"
  }

  datatype Empresa = Empresa(
    nomeFantasia: string, razaoSocial: string, cnpj: string, email: string, telefone: string,
    cep: string, endereco: string, numero: string, cidade: string, estado: string)

  const BlankEmpresa: Empresa := Empresa("", "", "", "", "", "", "", "", "", "")

  function Get(e: Empresa, f: EmpresaField): string {
    match f
    case NomeFantasia => e.nomeFantasia
    case RazaoSocial => e.razaoSocial
    case Cnpj => e.cnpj
    case Email => e.email
    case Telefone => e.telefone
    case Cep => e.cep
    case Endereco => e.endereco
    case Numero => e.numero
    case Cidade => e.cidade
    case Estado => e.estado
  }

  /** `{...prev, [name]: value}` on the company data. */
  function Set(e: Empresa, f: EmpresaField, v: string): (r: Empresa)
    ensures Get(r, f) == v
    ensures forall g | g != f :: Get(r, g) == Get(e, g)
  {
    match f
    case NomeFantasia => e.(nomeFantasia := v)
    case RazaoSocial => e.(razaoSocial := v)
    case Cnpj => e.(cnpj := v)
    case Email => e.(email := v)
    case Telefone => e.(telefone := v)
    case Cep => e.(cep := v)
    case Endereco => e.(endereco := v)
    case Numero => e.(numero := v)
    case Cidade => e.(cidade := v)
    case Estado => e.(estado := v)
  }

  /** The required company fields, in the order they are checked. */
  const Required: seq<EmpresaField> :=
    [NomeFantasia, RazaoSocial, Cnpj, Email, Telefone, Cep, Endereco, Numero, Cidade, Estado]

  /** The position in `fs` of the first field left empty, if any. */
  function FirstEmpty(e: Empresa, fs: seq<EmpresaField>): (r: Option<nat>)
    ensures r.None? <==> forall k | 0 <= k < |fs| :: Get(e, fs[k]) != ""
    ensures r.Some? ==>
      r.value < |fs| && Get(e, fs[r.value]) == "" && forall k | 0 <= k < r.value :: Get(e, fs[k]) != ""
  {
    if fs == [] then None
    else if Get(e, fs[0]) == "" then Some(0)
    else match FirstEmpty(e, fs[1..])
      case None => None
      case Some(i) => Some(i + 1)
  }

  /** The message `validateEmpresa` leaves, or `None` when it passes. */
  function EmpresaError(e: Empresa): (r: Option<string>)
  {
    match FirstEmpty(e, Required)
    case Some(i) => Some("Campo " + Key(Required[i]) + " é obrigatório")
    case None =>
      if !EmailMatches(e.email) then Some("Email inválido")
      else if !CepMatches(e.cep) then Some("CEP inválido (formato: XXXXX-XXX)")
      else None
  }

  /** The company step passes exactly when all ten fields are filled, the
      e-mail has the shape of an address and the CEP is eight digits with an
      optional hyphen after the fifth; the CEP then carries eight digits. */
  lemma EmpresaAccepted(e: Empresa)
    ensures EmpresaError(e).None? <==>
      (forall f :: Get(e, f) != "") && EmailShape(e.email) && CepMatches(e.cep)
    ensures EmpresaError(e).None? ==> |DigitsOf(e.cep)| == 8
  {
    EmailMatchesIff(e.email);
    if FirstEmpty(e, Required).None? {
      forall f ensures Get(e, f) != "" {
        assert f in Required by {
          match f
          case NomeFantasia => assert Required[0] == f;
          case RazaoSocial => assert Required[1] == f;
          case Cnpj => assert Required[2] == f;
          case Email => assert Required[3] == f;
          case Telefone => assert Required[4] == f;
          case Cep => assert Required[5] == f;
          case Endereco => assert Required[6] == f;
          case Numero => assert Required[7] == f;
          case Cidade => assert Required[8] == f;
          case Estado => assert Required[9] == f;
        }
      }
    }
    if EmpresaError(e).None? {
      CepDigits(e.cep);
    }
  }

  /** Only the first empty field is reported, however many there are. */
  lemma FirstEmptyReported(e: Empresa, i: nat)
    requires i < |Required| && Get(e, Required[i]) == ""
    requires forall k | 0 <= k < i :: Get(e, Required[k]) != ""
    ensures EmpresaError(e) == Some("Campo " + Key(Required[i]) + " é obrigatório")
  {
  }

  datatype Usuario = Usuario(nome: string, email: string, senha: string, senhaConfirmation: string)

  const BlankUsuario: Usuario := Usuario("", "", "", "")

  /** The user inputs: `nome`, `email`, `senha` and `senha_confirmation`. */
  datatype UsuarioField = UsuarioNome | UsuarioEmail | UsuarioSenha | UsuarioConfirmacao

  /** `{...prev, [name]: value}` on the user data. */
  function SetUsuario(u: Usuario, f: UsuarioField, v: string): (r: Usuario)
    ensures f == UsuarioNome ==> r == u.(nome := v)
    ensures f == UsuarioEmail ==> r == u.(email := v)
    ensures f == UsuarioSenha ==> r == u.(senha := v)
    ensures f == UsuarioConfirmacao ==> r == u.(senhaConfirmation := v)
  {
    match f
    case UsuarioNome => u.(nome := v)
    case UsuarioEmail => u.(email := v)
    case UsuarioSenha => u.(senha := v)
    case UsuarioConfirmacao => u.(senhaConfirmation := v)
  }

  /** The message `validateUsuario` leaves, or `None` when it passes: it
      passes exactly when the name is given, the e-mail has the shape of an
      address, the password has six or more characters and the confirmation
      repeats it. */
  function UsuarioError(u: Usuario): (r: Option<string>)
    ensures r.None? <==> u.nome != "" && EmailShape(u.email) && |u.senha| >= 6 && u.senhaConfirmation == u.senha
  {
    EmailMatchesIff(u.email);
    if u.nome == "" || u.email == "" || u.senha == "" then Some("Todos os campos são obrigatórios")
    else if !EmailMatches(u.email) then Some("Email do usuário inválido")
    else if |u.senha| < 6 then Some("Senha deve ter no mínimo 6 caracteres")
    else if u.senha != u.senhaConfirmation then Some("Senhas não correspondem")
    else None
  }

  /** The confirmation is not checked before the length: a short password
      is reported as short even when the two do not match. */
  lemma ShortBeforeMismatch(u: Usuario)
    requires u.nome != "" && EmailMatches(u.email) && 0 < |u.senha| < 6
    ensures UsuarioError(u) == Some("Senha deve ter no mínimo 6 caracteres")
  {
  }

  datatype Step = EmpresaStep | UsuarioStep | ConfirmacaoStep

  /** The progress bar's width, in percent. */
  function Progress(s: Step): (p: nat)
    ensures 0 < p <= 100
    ensures p == 100 <==> s == ConfirmacaoStep
  {
    match s
    case EmpresaStep => 33
    case UsuarioStep => 66
    case ConfirmacaoStep => 100
  }

  function Rank(s: Step): nat {
    match s
    case EmpresaStep => 0
    case UsuarioStep => 1
    case ConfirmacaoStep => 2
  }

  /** Later steps show a longer bar. */
  lemma ProgressGrows(s: Step, t: Step)
    ensures Rank(s) < Rank(t) <==> Progress(s) < Progress(t)
  {
  }

  class Wizard {
    var step: Step
    var empresa: Empresa
    var usuario: Usuario
    var error: Option<string>

    /** A step is only reached with the data of the steps before it
        accepted: the inputs of a step are shown only while it is current,
        so what was checked when moving on cannot change afterwards. */
    predicate Valid()
      reads this
    {
      (step != EmpresaStep ==> EmpresaError(empresa).None?) &&
      (step == ConfirmacaoStep ==> UsuarioError(usuario).None?)
    }

    constructor ()
      ensures Valid()
      ensures step == EmpresaStep && empresa == BlankEmpresa && usuario == BlankUsuario && error.None?
    {
      step := EmpresaStep;
      empresa := BlankEmpresa;
      usuario := BlankUsuario;
      error := None;
    }

    /** `handleEmpresaChange`; the inputs exist only on the company step. */
    method EmpresaChange(f: EmpresaField, value: string)
      requires Valid() && step == EmpresaStep
      modifies this
      ensures Valid()
      ensures empresa == Set(old(empresa), f, value)
      ensures step == old(step) && usuario == old(usuario) && error == old(error)
    {
      empresa := Set(empresa, f, value);
    }

    /** `handleUsuarioChange`; the inputs exist only on the user step. */
    method UsuarioChange(f: UsuarioField, value: string)
      requires Valid() && step == UsuarioStep
      modifies this
      ensures Valid()
      ensures usuario == SetUsuario(old(usuario), f, value)
      ensures step == old(step) && empresa == old(empresa) && error == old(error)
    {
      usuario := SetUsuario(usuario, f, value);
    }

    /** `validateEmpresa`: the required fields in order, the first empty
        one reported; then the e-mail, then the CEP. */
    method ValidateEmpresa() returns (ok: bool)
      modifies this
      ensures error == EmpresaError(empresa)
      ensures ok <==> error.None?
      ensures step == old(step) && empresa == old(empresa) && usuario == old(usuario)
    {
      var i := 0;
      while i < |Required|
        invariant 0 <= i <= |Required|
        invariant forall k | 0 <= k < i :: Get(empresa, Required[k]) != ""
        invariant step == old(step) && empresa == old(empresa) && usuario == old(usuario)
      {
        var field := Required[i];
        if Get(empresa, field) == "" {
          error := Some("Campo " + Key(field) + " é obrigatório");
          return false;
        }
        i := i + 1;
      }
      if !EmailMatches(empresa.email) {
        error := Some("Email inválido");
        return false;
      }
      if !CepMatches(empresa.cep) {
        error := Some("CEP inválido (formato: XXXXX-XXX)");
        return false;
      }
      error := None;
      return true;
    }

    /** `validateUsuario`: the first failing check, in order. */
    method ValidateUsuario() returns (ok: bool)
      modifies this
      ensures error == UsuarioError(usuario)
      ensures ok <==> error.None?
      ensures step == old(step) && empresa == old(empresa) && usuario == old(usuario)
    {
      var u := usuario;
      if u.nome == "" || u.email == "" || u.senha == "" {
        error := Some("Todos os campos são obrigatórios");
        return false;
      }
      if !EmailMatches(u.email) {
        error := Some("Email do usuário inválido");
        return false;
      }
      if |u.senha| < 6 {
        error := Some("Senha deve ter no mínimo 6 caracteres");
        return false;
      }
      if u.senha != u.senhaConfirmation {
        error := Some("Senhas não correspondem");
        return false;
      }
      error := None;
      return true;
    }

    /** `handleNextStep`: each step moves on only when its checks pass;
        the last step stays where it is. */
    method NextStep()
      requires Valid()
      modifies this
      ensures Valid()
      ensures empresa == old(empresa) && usuario == old(usuario)
      ensures old(step) == EmpresaStep ==>
        error == EmpresaError(empresa) && step == (if error.None? then UsuarioStep else EmpresaStep)
      ensures old(step) == UsuarioStep ==>
        error == UsuarioError(usuario) && step == (if error.None? then ConfirmacaoStep else UsuarioStep)
      ensures old(step) == ConfirmacaoStep ==> step == ConfirmacaoStep && error == old(error)
    {
      if step == EmpresaStep {
        var ok := ValidateEmpresa();
        if ok {
          step := UsuarioStep;
        }
      } else if step == UsuarioStep {
        var ok := ValidateUsuario();
        if ok {
          step := ConfirmacaoStep;
        }
      }
    }

    /** `handlePrevStep`: one step back; the first step stays where it is. */
    method PrevStep()
      requires Valid()
      modifies this
      ensures Valid()
      ensures step == (match old(step)
        case EmpresaStep => EmpresaStep
        case UsuarioStep => EmpresaStep
        case ConfirmacaoStep => UsuarioStep)
      ensures empresa == old(empresa) && usuario == old(usuario) && error == old(error)
    {
      if step == UsuarioStep {
        step := EmpresaStep;
      } else if step == ConfirmacaoStep {
        step := UsuarioStep;
      }
    }

    /** What the confirmation step sends: data that passed both steps. */
    method Payload() returns (e: Empresa, u: Usuario)
      requires Valid() && step == ConfirmacaoStep
      ensures e == empresa && u == usuario
      ensures EmpresaError(e).None? && UsuarioError(u).None?
    {
      e, u := empresa, usuario;
    }
  }
}
