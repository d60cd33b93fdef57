/** The password-reset page: a strength score for the new password, the
    guards that decide whether the reset request is sent, and the message
    shown when it fails. */
module RecuperarSenha {
  import opened Wrappers
  import opened Json

  // ---- strength -------------------------------------------------------------

  predicate IsUpper(c: char) { 'A' <= c <= 'Z' }
  predicate IsLower(c: char) { 'a' <= c <= 'z' }
  predicate IsDigit(c: char) { '0' <= c <= '9' }

  /** `/[A-Z]/.test(p)`. */
  predicate HasUpper(p: string) { exists k | 0 <= k < |p| :: IsUpper(p[k]) }
  /** `/[0-9]/.test(p)`. */
  predicate HasDigit(p: string) { exists k | 0 <= k < |p| :: IsDigit(p[k]) }
  /** `/[^A-Za-z0-9]/.test(p)`. */
  predicate HasSymbol(p: string) {
    exists k | 0 <= k < |p| :: !IsUpper(p[k]) && !IsLower(p[k]) && !IsDigit(p[k])
  }

  function Count(b: bool): nat { if b then 1 else 0 }

  /** How many of the four strength criteria the password meets: eight or
      more characters, an upper-case letter, a digit, another symbol. */
  function Score(p: string): (s: nat)
    ensures s <= 4
    ensures s == 4 <==> |p| >= 8 && HasUpper(p) && HasDigit(p) && HasSymbol(p)
  {
    Count(|p| >= 8) + Count(HasUpper(p)) + Count(HasDigit(p)) + Count(HasSymbol(p))
  }

  /** `scorePassword`: one point per criterion met. */
  method ScorePassword(p: string) returns (score: nat)
    ensures score == Score(p)
    ensures score <= 4
  {
    score := 0;
    if |p| >= 8 {
      score := score + 1;
    }
    if HasUpper(p) {
      score := score + 1;
    }
    if HasDigit(p) {
      score := score + 1;
    }
    if HasSymbol(p) {
      score := score + 1;
    }
  }

  /** Typing more never weakens a password. */
  lemma ScoreMonotone(p: string, q: string)
    ensures Score(p) <= Score(p + q)
  {
    var s := p + q;
    if HasUpper(p) {
      var k :| 0 <= k < |p| && IsUpper(p[k]);
      assert s[k] == p[k];
    }
    if HasDigit(p) {
      var k :| 0 <= k < |p| && IsDigit(p[k]);
      assert s[k] == p[k];
    }
    if HasSymbol(p) {
      var k :| 0 <= k < |p| && !IsUpper(p[k]) && !IsLower(p[k]) && !IsDigit(p[k]);
      assert s[k] == p[k];
    }
  }

  /** A password scores nothing exactly when it is shorter than eight
      characters and made of lower-case letters only. */
  lemma ScoreZero(p: string)
    ensures Score(p) == 0 <==> |p| < 8 && forall k | 0 <= k < |p| :: IsLower(p[k])
  {
    if Score(p) == 0 {
      forall k | 0 <= k < |p| ensures IsLower(p[k]) {
        assert !IsUpper(p[k]) && !IsDigit(p[k]);
      }
    }
  }

  /** `strengthLabel`. */
  function StrengthLabel(s: int): (l: string)
    ensures l == "Fraca" <==> s <= 1
    ensures l == "Muito forte" <==> s >= 4
    ensures l == "Média" <==> s == 2
    ensures l == "Forte" <==> s == 3
    ensures l in {"Fraca", "Média", "Forte", "Muito forte"}
  {
    if s <= 1 then "Fraca"
    else if s == 2 then "Média"
    else if s == 3 then "Forte"
    else "Muito forte"
  }

  /** The top label is earned only by a password meeting all four criteria,
      and the bottom one by any password meeting at most one. */
  lemma LabelOfScore(p: string)
    ensures StrengthLabel(Score(p)) == "Muito forte" <==> |p| >= 8 && HasUpper(p) && HasDigit(p) && HasSymbol(p)
    ensures StrengthLabel(Score(p)) == "Fraca" <==> Score(p) <= 1
    ensures StrengthLabel(Score(p)) == "Média" <==> Score(p) == 2
    ensures StrengthLabel(Score(p)) == "Forte" <==> Score(p) == 3
  {
  }

  /** The width of the strength bar, in percent: `(score / 4) * 100`. */
  function BarWidth(score: nat): (w: real)
    ensures score <= 4 ==> 0.0 <= w <= 100.0
    ensures w == 25.0 * score as real
  {
    (score as real / 4.0) * 100.0
  }

  // ---- the message of a failed request ----------------------------------------

  /** `String(v ?? fallback)`. */
  function TextOr(v: Js, fallback: string, show: Js -> string): (t: string)
    ensures Nullish(v) ==> t == fallback
    ensures v.Str? ==> t == v.s
  {
    if Nullish(v) then fallback else Text(v, show)
  }

  /** `e.response.data.message` when the response carries a data object with
      a `message` key. */
  predicate HasResponseMessage(e: Js) {
    e.Obj? && "response" in e.props && e.props["response"].Obj? &&
    "data" in e.props["response"].props && e.props["response"].props["data"].Obj? &&
    "message" in e.props["response"].props["data"].props
  }

  function ResponseMessage(e: Js): Js
    requires HasResponseMessage(e)
  {
    e.props["response"].props["data"].props["message"]
  }

  /** `getErrorMessage(e)`. */
  function ErrorMessage(e: Js, show: Js -> string): (r: string)
    ensures e.Str? && e.s != [] ==> r == e.s
    ensures !Truthy(e) ==> r == "Erro ao redefinir senha"
    ensures HasResponseMessage(e) && ResponseMessage(e).Str? ==> r == ResponseMessage(e).s
    ensures e.Obj? && !HasResponseMessage(e) && "message" !in e.props ==> r == "Erro ao redefinir senha"
    ensures HasResponseMessage(e) ==> r == TextOr(ResponseMessage(e), "Erro ao redefinir senha", show)
    ensures e.Obj? && !HasResponseMessage(e) && "message" in e.props ==>
      r == TextOr(e.props["message"], "Erro ao redefinir senha", show)
    ensures e.Num? || e.Bool? || e.Arr? ==> r == "Erro ao redefinir senha"
  {
    var fallback := "Erro ao redefinir senha";
    if !Truthy(e) then fallback
    else if e.Str? then e.s
    else if e.Obj? then
      if HasResponseMessage(e) then TextOr(ResponseMessage(e), fallback, show)
      else if "message" in e.props then TextOr(e.props["message"], fallback, show)
      else fallback
    else fallback
  }

  /** A response message that is present but `null` gives the default,
      even when the error has a message of its own. */
  lemma NullServerMessage(own: string, show: Js -> string)
    ensures var e := Obj(map["response" := Obj(map["data" := Obj(map["message" := Null])]),
                             "message" := Str(own)]);
      ErrorMessage(e, show) == "Erro ao redefinir senha"
  {
    var e := Obj(map["response" := Obj(map["data" := Obj(map["message" := Null])]),
                     "message" := Str(own)]);
    assert HasResponseMessage(e) && ResponseMessage(e) == Null;
  }

  /** The server's message wins over the error's own. */
  lemma ServerMessageFirst(server: string, own: string, show: Js -> string)
    ensures var e := Obj(map["response" := Obj(map["data" := Obj(map["message" := Str(server)])]),
                             "message" := Str(own)]);
      ErrorMessage(e, show) == server
  {
  }

  /** An error without a server response shows its own message. */
  lemma OwnMessage(own: string, show: Js -> string)
    ensures ErrorMessage(Obj(map["message" := Str(own)]), show) == own
  {
    var e := Obj(map["message" := Str(own)]);
    assert !HasResponseMessage(e);
  }

  // ---- the page state -------------------------------------------------------

  class ResetPage {
    /** The `token` of the link, or the empty string. */
    const token: string
    var valid: Option<bool>
    /** The e-mail the token check answered with, or `null`. */
    var email: Js
    var password: string
    var passwordConfirm: string
    var error: Option<string>
    var success: Option<string>
    var loading: bool

    constructor (t: string)
      ensures token == t && valid.None? && email == Null && password == "" && passwordConfirm == ""
      ensures error.None? && success.None? && !loading
    {
      token := t;
      valid := None;
      email := Null;
      password := "";
      passwordConfirm := "";
      error := None;
      success := None;
      loading := false;
    }

    /** The effect that checks the token: an empty token marks the link
        invalid and nothing is sent; otherwise the check is sent. */
    method CheckToken() returns (request: bool)
      modifies this
      ensures request <==> token != ""
      ensures token == "" ==> valid == Some(false) && loading == old(loading)
      ensures token != "" ==> valid == old(valid) && loading
      ensures email == old(email) && password == old(password) && passwordConfirm == old(passwordConfirm)
      ensures error == old(error) && success == old(success)
    {
      if token == "" {
        valid := Some(false);
        return false;
      }
      loading := true;
      return true;
    }

    /** The answer to the token check: the link is valid only when the
        answer says `valid: true`, and the e-mail is the answer's, or
        `null` when it has none. */
    method TokenChecked(answer: Js)
      modifies this
      ensures valid == Some(answer.Obj? && "valid" in answer.props && answer.props["valid"] == Bool(true))
      ensures !Nullish(Get(answer, "email")) ==> email == Get(answer, "email")
      ensures Nullish(Get(answer, "email")) ==> email == Null
      ensures !loading
      ensures password == old(password) && passwordConfirm == old(passwordConfirm)
      ensures error == old(error) && success == old(success)
    {
      valid := Some(Get(answer, "valid") == Bool(true));
      email := OrElse(Get(answer, "email"), Null);
      loading := false;
    }

    /** The token check failed: the link counts as invalid. */
    method TokenCheckFailed()
      modifies this
      ensures valid == Some(false) && !loading
      ensures email == old(email) && password == old(password) && passwordConfirm == old(passwordConfirm)
      ensures error == old(error) && success == old(success)
    {
      valid := Some(false);
      loading := false;
    }

    method SetPassword(p: string)
      modifies this
      ensures password == p
      ensures passwordConfirm == old(passwordConfirm) && valid == old(valid) && email == old(email)
      ensures error == old(error) && success == old(success) && loading == old(loading)
    {
      password := p;
    }

    method SetPasswordConfirm(p: string)
      modifies this
      ensures passwordConfirm == p
      ensures password == old(password) && valid == old(valid) && email == old(email)
      ensures error == old(error) && success == old(success) && loading == old(loading)
    {
      passwordConfirm := p;
    }

    /** `handleReset` up to the request: a mismatch is reported first, then
        a password scoring under 2; the request is sent only when both
        checks pass. */
    method HandleReset() returns (request: bool)
      modifies this
      ensures request <==> password == passwordConfirm && Score(password) >= 2
      ensures password != passwordConfirm ==> error == Some("As senhas não coincidem")
      ensures password == passwordConfirm && Score(password) < 2 ==> error == Some("A senha é muito fraca")
      ensures request ==> error.None? && loading
      ensures !request ==> loading == old(loading)
      ensures success.None?
      ensures password == old(password) && passwordConfirm == old(passwordConfirm) && valid == old(valid)
      ensures email == old(email)
    {
      error := None;
      success := None;
      if password != passwordConfirm {
        error := Some("As senhas não coincidem");
        return false;
      }
      var score := ScorePassword(password);
      if score < 2 {
        error := Some("A senha é muito fraca");
        return false;
      }
      loading := true;
      return true;
    }

    /** The reset succeeded with the answer `body`: its message when that is
        truthy, otherwise the default one. */
    method ResetSucceeded(body: Js, show: Js -> string)
      modifies this
      ensures Get(body, "message").Str? && Get(body, "message").s != [] ==> success == Some(Get(body, "message").s)
      ensures !Truthy(Get(body, "message")) ==> success == Some("Senha alterada com sucesso.")
      ensures Truthy(Get(body, "message")) ==> success == Some(Text(Get(body, "message"), show))
      ensures !loading
      ensures password == old(password) && passwordConfirm == old(passwordConfirm) && valid == old(valid)
      ensures error == old(error) && email == old(email)
    {
      var message := Get(body, "message");
      success := Some(if Truthy(message) then Text(message, show) else "Senha alterada com sucesso.");
      loading := false;
    }

    /** The reset failed with `thrown`. */
    method ResetFailed(thrown: Js, show: Js -> string)
      modifies this
      ensures error == Some(ErrorMessage(thrown, show))
      ensures !loading
      ensures password == old(password) && passwordConfirm == old(passwordConfirm) && valid == old(valid)
      ensures success == old(success) && email == old(email)
    {
      error := Some(ErrorMessage(thrown, show));
      loading := false;
    }
  }
}
