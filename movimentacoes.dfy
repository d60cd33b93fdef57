/** The stock-movement page: a list of stock entries, the selected entry,
    and a form whose values become the payload of a stock movement.  The
    unit value is typed in Brazilian notation and normalised before it is
    sent. */
module Movimentacoes {
  import opened Wrappers
  import opened JsText
  import opened Json
  import JsValues
  import EstoqueService

  type EstoqueItem = EstoqueService.EstoqueItem

  // ---- the unit value ---------------------------------------------------------

  /** `v.trim().replace(/\./g, '').replace(/,/g, '.')`: thousands points are
      dropped and the decimal comma becomes a point. */
  function Normalised(s: string): string {
    ReplaceAll(RemoveAll(Trim(s), '.'), ',', '.')
  }

  /** No comma survives the normalisation, and a point is left exactly
      where the trimmed text had a comma once its points are dropped. */
  lemma NormalisedMarks(s: string)
    ensures |Normalised(s)| <= |s| && |Normalised(s)| == |RemoveAll(Trim(s), '.')|
    ensures ',' !in Normalised(s)
    ensures forall k | 0 <= k < |Normalised(s)| :: Normalised(s)[k] == '.' <==> RemoveAll(Trim(s), '.')[k] == ','
  {
  }

  /** `parseNumber(v)`: `None` stands for `null`. */
  function ParseNumber(v: Js): (r: Option<real>)
    ensures Nullish(v) || v == Str("") ==> r.None?
    ensures v.Num? && v.n.Finite? ==> r == Some(v.n.r)
    ensures v.Num? && v.n.NaN? ==> r.None?
    ensures v.Str? && v.s != [] ==> r == ParseFloat(Normalised(v.s))
    ensures v.Bool? || v.Arr? || v.Obj? ==> r.None?
  {
    match v
    case Undefined => None
    case Null => None
    case Num(n) => if n.Finite? then Some(n.r) else None
    case Str(s) => if s == [] then None else ParseFloat(Normalised(s))
    case _ => None
  }


  /** Without commas the replacement changes nothing. */
  lemma ReplaceAbsent(s: string)
    requires forall k | 0 <= k < |s| :: s[k] != ','
    ensures ReplaceAll(s, ',', '.') == s
  {
  }

  /** Removing the points of `a.b` followed by `tail` removes them part by part. */
  lemma RemoveAllParts(a: string, b: string, tail: string)
    ensures RemoveAll(a + "." + b + tail, '.') == RemoveAll(a, '.') + RemoveAll(".", '.') + RemoveAll(b, '.') + RemoveAll(tail, '.')
  {
    RemoveSplit(a + "." + b, tail, '.');
    RemoveSplit(a + ".", b, '.');
    RemoveSplit(a, ".", '.');
  }

  lemma PointRemoved()
    ensures RemoveAll(".", '.') == []
  {
  }

  /** Digit groups separated by a point, followed by a tail without points
      or white space, are left alone by `trim` and lose only that point. */
  lemma PointDropped(a: string, b: string, tail: string)
    requires AllDigits(a) && AllDigits(b)
    requires forall k | 0 <= k < |tail| :: tail[k] != '.' && !IsSpace(tail[k])
    ensures RemoveAll(Trim(a + "." + b + tail), '.') == a + b + tail
  {
    var x := a + "." + b + tail;
    PartsNoSpace(a, b, tail);
    TrimNoSpace(x);
    PartsPointDropped(a, b, tail);
  }

  lemma PartsNoSpace(a: string, b: string, tail: string)
    requires AllDigits(a) && AllDigits(b)
    requires forall k | 0 <= k < |tail| :: tail[k] != '.' && !IsSpace(tail[k])
    ensures NoSpace(a + "." + b + tail)
  {
    assert NoSpace(a) && NoSpace(b) && NoSpace(".") && NoSpace(tail);
    NoSpaceJoin(a, ".");
    NoSpaceJoin(a + ".", b);
    NoSpaceJoin(a + "." + b, tail);
  }

  lemma PartsPointDropped(a: string, b: string, tail: string)
    requires AllDigits(a) && AllDigits(b)
    requires forall k | 0 <= k < |tail| :: tail[k] != '.'
    ensures RemoveAll(a + "." + b + tail, '.') == a + b + tail
  {
    RemoveAllParts(a, b, tail);
    PointRemoved();
    assert a + [] == a;
    RemoveAbsent(a, '.');
    RemoveAbsent(b, '.');
    RemoveAbsent(tail, '.');
  }

  /** The decimal comma after digits becomes a point. */
  lemma CommaBecomesPoint(w: string, c: string)
    requires AllDigits(w) && AllDigits(c)
    ensures ReplaceAll(w + ("," + c), ',', '.') == w + ("." + c)
  {
    var x := w + ("," + c);
    var wanted := w + ("." + c);
    var r := ReplaceAll(x, ',', '.');
    assert |r| == |wanted|;
    forall k | 0 <= k < |r| ensures r[k] == wanted[k] {
      if k < |w| {
        assert x[k] == w[k] && wanted[k] == w[k];
      } else if k == |w| {
        assert x[k] == ',' && wanted[k] == '.';
      } else {
        assert x[k] == c[k - |w| - 1] && wanted[k] == c[k - |w| - 1];
      }
    }
  }

  /** `a.b,c` normalises to `ab.c`. */
  lemma NormalisedWithComma(a: string, b: string, c: string)
    requires AllDigits(a) && AllDigits(b) && AllDigits(c)
    ensures Normalised(a + "." + b + ("," + c)) == (a + b) + ("." + c)
  {
    PointDropped(a, b, "," + c);
    DigitsJoin(a, b);
    CommaBecomesPoint(a + b, c);
  }

  /** `a.b` normalises to `ab`. */
  lemma NormalisedWithoutComma(a: string, b: string)
    requires AllDigits(a) && AllDigits(b)
    ensures Normalised(a + "." + b) == a + b
  {
    assert a + "." + b + [] == a + "." + b;
    PointDropped(a, b, []);
    assert a + b + [] == a + b;
    DigitsJoin(a, b);
    ReplaceAbsent(a + b);
  }

  lemma DigitsJoin(a: string, b: string)
    requires AllDigits(a) && AllDigits(b)
    ensures AllDigits(a + b)
  {
    forall k | 0 <= k < |a + b| ensures IsDigit((a + b)[k]) {
      if k < |a| {
        assert (a + b)[k] == a[k];
      } else {
        assert (a + b)[k] == b[k - |a|];
      }
    }
  }

  /** Text that normalises to digits, a point and digits is parsed as
      their decimal value. */
  lemma ParsedAsDecimal(s: string, w: string, f: string)
    requires w != [] && AllDigits(w) && AllDigits(f) && s != []
    requires Normalised(s) == w + ("." + f)
    ensures ParseNumber(Str(s)) == Some(DecimalValue(Decimal(false, w, f)))
  {
    ParseFloatDigits(w, f);
  }

  /** Text that normalises to digits alone is parsed as their value. */
  lemma ParsedAsWhole(s: string, w: string)
    requires w != [] && AllDigits(w) && s != []
    requires Normalised(s) == w
    ensures ParseNumber(Str(s)) == Some(DigitsValue(w) as real)
  {
    ParseFloatDigits(w, []);
    DecimalValueWhole(w);
  }

  /** Typed digits with a thousands point and a decimal comma, `a.b,c`: the
      point is dropped and the comma read as the decimal mark. */
  lemma ThousandsAndComma(a: string, b: string, c: string)
    requires a != [] && AllDigits(a) && AllDigits(b) && AllDigits(c)
    ensures ParseNumber(Str(a + "." + b + ("," + c))) == Some(DecimalValue(Decimal(false, a + b, c)))
  {
    NormalisedWithComma(a, b, c);
    DigitsJoin(a, b);
    ParsedAsDecimal(a + "." + b + ("," + c), a + b, c);
  }

  /** Typed digits with only a thousands point, `a.b`: the point is dropped,
      so the text reads as the whole number `ab`. */
  lemma ThousandsOnly(a: string, b: string)
    requires a != [] && AllDigits(a) && AllDigits(b)
    ensures ParseNumber(Str(a + "." + b)) == Some(DigitsValue(a + b) as real)
  {
    NormalisedWithoutComma(a, b);
    DigitsJoin(a, b);
    ParsedAsWhole(a + "." + b, a + b);
  }

  /** `parseNumber(v) ?? 0`: what the payload carries as the unit value. */
  function UnitValue(text: string): (r: real)
    ensures ParseNumber(Str(text)).Some? ==> r == ParseNumber(Str(text)).value
    ensures ParseNumber(Str(text)).None? ==> r == 0.0
  {
    ParseNumber(Str(text)).GetOr(0.0)
  }

  // ---- the battery id ---------------------------------------------------------

  /** `(produtoId && Number(produtoId)) ? Number(produtoId) : id`: the
      product id when it is present and a non-zero number, else the stock
      entry's own id; used both to fetch the movements and in the payload. */
  function IdForBateria(item: EstoqueItem): (r: Js)
    ensures Truthy(item.produtoId) && ToNumber(item.produtoId).Finite? && ToNumber(item.produtoId).r != 0.0
      ==> r == Num(ToNumber(item.produtoId))
    ensures !Truthy(item.produtoId) ==> r == item.id
    ensures Truthy(item.produtoId) && !(ToNumber(item.produtoId).Finite? && ToNumber(item.produtoId).r != 0.0) ==> r == item.id
  {
    var n := ToNumber(item.produtoId);
    if Truthy(item.produtoId) && n.Finite? && n.r != 0.0 then Num(n) else item.id
  }

  /** For a normalised entry: a battery id coming as a non-zero number is
      used; a record without a battery falls back to the stock id, so the
      chosen id is never `null` or `undefined` there. */
  lemma IdForMappedItem(it: Js, show: Js -> string)
    requires !Nullish(it)
    ensures var n := Get(it, "id_bateria");
      n.Num? && n.n.Finite? && n.n.r != 0.0 ==> IdForBateria(EstoqueService.MapItem(it, show).value) == n
    ensures Nullish(Get(it, "id_bateria")) && !Get(it, "bateria").Obj? ==>
      IdForBateria(EstoqueService.MapItem(it, show).value) == OrElse(OrElse(Get(it, "id_estoque"), Get(it, "id")), EstoqueService.Zero)
    ensures !Nullish(IdForBateria(EstoqueService.MapItem(it, show).value))
  {
    var item := EstoqueService.MapItem(it, show).value;
    EstoqueService.ProdutoIdOrder(it, show);
    EstoqueService.IdOrder(it, show);
    if Nullish(Get(it, "id_bateria")) && !Get(it, "bateria").Obj? {
      assert item.produtoId == Null;
    }
  }

  // ---- the payload ------------------------------------------------------------

  datatype Tipo = Entrada | Saida

  datatype Payload = Payload(idBateria: Js, tipo: Tipo, origem: string, quantidade: real,
                             valorUnitario: real, observacao: Option<string>, idReferencia: Option<int>)

  /** The payload of `handleSubmit`: `origem || 'avulso'`, `observacao ||
      null`, `Number(quantidade) || 0`, the normalised unit value or 0, and
      no reference id. */
  function BuildPayload(item: EstoqueItem, tipo: Tipo, quantidade: JsValues.Number, valorUnitario: string,
                        origem: string, observacao: string): (p: Payload)
    ensures p.idBateria == IdForBateria(item) && p.tipo == tipo
    ensures p.origem != "" && (origem != "" ==> p.origem == origem)
    ensures p.observacao.None? <==> observacao == ""
    ensures p.observacao.Some? ==> p.observacao.value == observacao
    ensures p.idReferencia.None?
    ensures p.quantidade == JsValues.OrZero(quantidade)
    ensures p.valorUnitario == UnitValue(valorUnitario)
  {
    Payload(IdForBateria(item), tipo, if origem == "" then "avulso" else origem,
            JsValues.OrZero(quantidade), UnitValue(valorUnitario),
            if observacao == "" then None else Some(observacao), None)
  }

  /** Empty form fields take their defaults in the payload. */
  lemma PayloadDefaults(item: EstoqueItem, tipo: Tipo, quantidade: JsValues.Number)
    ensures var p := BuildPayload(item, tipo, quantidade, "", "", "");
      p.origem == "avulso" && p.observacao.None? && p.valorUnitario == 0.0
  {
  }

  // ---- the default unit price ---------------------------------------------------

  /** `bat?.preco_venda ?? bat?.precoVenda ?? null` and the same for the cost. */
  function PrecoVenda(bat: Js): Js {
    OrElse(OrElse(Get(bat, "preco_venda"), Get(bat, "precoVenda")), Null)
  }

  function PrecoCusto(bat: Js): Js {
    OrElse(OrElse(Get(bat, "preco_custo"), Get(bat, "precoCusto")), Null)
  }

  /** The unit value after the battery details arrive: the sale price as
      text when the origin is `'venda'`, the cost price otherwise, and the
      current text when that price is missing. */
  function DefaultPrice(origem: string, bat: Js, current: string, show: Js -> string): (v: string)
    ensures origem == "venda" && !Nullish(PrecoVenda(bat)) ==> v == Text(PrecoVenda(bat), show)
    ensures origem != "venda" && !Nullish(PrecoCusto(bat)) ==> v == Text(PrecoCusto(bat), show)
    ensures origem == "venda" && Nullish(PrecoVenda(bat)) ==> v == current
    ensures origem != "venda" && Nullish(PrecoCusto(bat)) ==> v == current
  {
    if origem == "venda" && !Nullish(PrecoVenda(bat)) then Text(PrecoVenda(bat), show)
    else if origem != "venda" && !Nullish(PrecoCusto(bat)) then Text(PrecoCusto(bat), show)
    else current
  }

  /** The snake-case key wins over the camel-case one, and a battery without
      either leaves the value alone. */
  lemma DefaultPriceKeys(v: Js, w: Js, current: string, show: Js -> string)
    requires !Nullish(v)
    ensures DefaultPrice("venda", Obj(map["preco_venda" := v, "precoVenda" := w]), current, show) == Text(v, show)
    ensures DefaultPrice("ajuste", Obj(map["preco_custo" := v, "precoCusto" := w]), current, show) == Text(v, show)
    ensures DefaultPrice("venda", Obj(map["preco_custo" := v]), current, show) == current
    ensures DefaultPrice("ajuste", Null, current, show) == current
  {
    assert Get(Obj(map["preco_venda" := v, "precoVenda" := w]), "preco_venda") == v;
    assert Get(Obj(map["preco_custo" := v, "precoCusto" := w]), "preco_custo") == v;
    var onlyCusto := Obj(map["preco_custo" := v]);
    assert Get(onlyCusto, "preco_venda").Undefined? && Get(onlyCusto, "precoVenda").Undefined?;
  }

  // ---- reselection after a reload ------------------------------------------------

  /** `a === b` on the ids: numbers by value (NaN equals nothing), text and
      booleans by value; two objects or arrays parsed from different
      responses are never the same. */
  predicate StrictEquals(a: Js, b: Js) {
    match a
    case Undefined => b.Undefined?
    case Null => b.Null?
    case Bool(x) => b.Bool? && b.b == x
    case Num(n) => b.Num? && n.Finite? && b.n.Finite? && b.n.r == n.r
    case Str(s) => b.Str? && b.s == s
    case Arr(_) => false
    case Obj(_) => false
  }

  /** The first entry of `list` whose id is `id`. */
  function FindById(list: seq<EstoqueItem>, id: Js): (r: Option<nat>)
    ensures r.Some? ==> r.value < |list| && StrictEquals(list[r.value].id, id)
    ensures r.Some? ==> forall k | 0 <= k < r.value :: !StrictEquals(list[k].id, id)
    ensures r.None? ==> forall k | 0 <= k < |list| :: !StrictEquals(list[k].id, id)
  {
    if list == [] then None
    else if StrictEquals(list[0].id, id) then Some(0)
    else match FindById(list[1..], id)
      case None => None
      case Some(k) => Some(k + 1)
  }

  /** `list.find(l => l.id === selected.id) ?? selected`. */
  function Reselect(list: seq<EstoqueItem>, selected: EstoqueItem): (r: EstoqueItem)
    ensures r == selected || r in list
    ensures (exists k | 0 <= k < |list| :: StrictEquals(list[k].id, selected.id)) ==>
      r in list && StrictEquals(r.id, selected.id)
    ensures (forall k | 0 <= k < |list| :: !StrictEquals(list[k].id, selected.id)) ==> r == selected
  {
    match FindById(list, selected.id)
    case Some(k) => list[k]
    case None => selected
  }

  /** A reloaded entry with the same numeric id replaces the selection,
      carrying its new quantity. */
  lemma ReselectRefreshes(after: seq<EstoqueItem>, selected: EstoqueItem, k: nat)
    requires k < |after| && after[k].id == selected.id && selected.id.Num? && selected.id.n.Finite?
    requires forall j | 0 <= j < k :: after[j].id != selected.id
    ensures Reselect(after, selected) == after[k]
  {
    assert StrictEquals(after[k].id, selected.id);
    assert forall j | 0 <= j < k :: !StrictEquals(after[j].id, selected.id);
  }

  // ---- the page -------------------------------------------------------------------

  /** `apiErr.response?.data` and `apiErr.message` turned into the shown
      message: a string `message` of the response body, else the body as
      JSON text (`stringify`) or as a string, else the error's own message,
      else the default. */
  function FailureMessage(err: Js, show: Js -> string, stringify: Js -> string): (msg: string)
    ensures !Truthy(Get(Get(err, "response"), "data")) && !Truthy(Get(err, "message")) ==> msg == "Erro ao movimentar estoque"
    ensures Get(Get(Get(err, "response"), "data"), "message").Str? ==> msg == Get(Get(Get(err, "response"), "data"), "message").s
    ensures !Truthy(Get(Get(err, "response"), "data")) && Get(err, "message").Str? && Get(err, "message").s != [] ==>
      msg == Get(err, "message").s
    ensures var data := Get(Get(err, "response"), "data");
      (data.Obj? || data.Arr?) && !Get(data, "message").Str? ==> msg == stringify(data)
    ensures var data := Get(Get(err, "response"), "data");
      Truthy(data) && !(data.Obj? || data.Arr?) ==> msg == Text(data, show)
    ensures !Truthy(Get(Get(err, "response"), "data")) && Truthy(Get(err, "message")) ==> msg == Text(Get(err, "message"), show)
  {
    var data := Get(Get(err, "response"), "data");
    if Truthy(data) then
      if data.Obj? || data.Arr? then
        if Get(data, "message").Str? then Get(data, "message").s else stringify(data)
      else Text(data, show)
    else if Truthy(Get(err, "message")) then Text(Get(err, "message"), show)
    else "Erro ao movimentar estoque"
  }

  class Page {
    var estoque: seq<EstoqueItem>
    var selected: Option<EstoqueItem>
    var movimentacoes: Js
    var bateriaDetails: Js
    var loading: bool
    var error: Option<string>
    var tipo: Tipo
    var quantidade: JsValues.Number
    var valorUnitario: string
    var origem: string
    var observacao: string

    /** The initial state: nothing loaded, an inbound adjustment of one unit
        at 0.00. */
    constructor ()
      ensures estoque == [] && selected.None? && movimentacoes == Arr([]) && bateriaDetails == Null
      ensures !loading && error.None?
      ensures tipo == Entrada && quantidade == JsValues.Finite(1.0) && valorUnitario == "0.00"
      ensures origem == "ajuste" && observacao == ""
    {
      estoque := [];
      selected := None;
      movimentacoes := Arr([]);
      bateriaDetails := Null;
      loading := false;
      error := None;
      tipo := Entrada;
      quantidade := JsValues.Finite(1.0);
      valorUnitario := "0.00";
      origem := "ajuste";
      observacao := "";
    }

    /** The first load: the list is stored and its first entry selected. */
    method EstoqueLoaded(list: seq<EstoqueItem>)
      modifies this
      ensures estoque == list
      ensures list != [] ==> selected == Some(list[0])
      ensures list == [] ==> selected == old(selected)
      ensures !loading
      ensures movimentacoes == old(movimentacoes) && error == old(error) && bateriaDetails == old(bateriaDetails)
      ensures tipo == old(tipo) && quantidade == old(quantidade) && valorUnitario == old(valorUnitario)
      ensures origem == old(origem) && observacao == old(observacao)
    {
      estoque := list;
      if |list| > 0 {
        selected := Some(list[0]);
      }
      loading := false;
    }

    /** `handleSelect`: the entry is selected, the movements cleared and
        the error dismissed. */
    method Select(item: EstoqueItem)
      modifies this
      ensures selected == Some(item) && movimentacoes == Arr([]) && error.None?
      ensures estoque == old(estoque) && loading == old(loading) && bateriaDetails == old(bateriaDetails)
      ensures tipo == old(tipo) && quantidade == old(quantidade) && valorUnitario == old(valorUnitario)
      ensures origem == old(origem) && observacao == old(observacao)
    {
      selected := Some(item);
      movimentacoes := Arr([]);
      error := None;
    }

    /** The effects run when the selection changes: the movements are
        fetched for the chosen battery id, and the battery details for a
        truthy product id; without one the details are cleared. */
    method SelectionChanged() returns (movementsOf: Option<Js>, detailsOf: Option<JsValues.Number>)
      modifies this
      ensures selected.None? ==> movementsOf.None? && detailsOf.None? && loading == old(loading)
      ensures selected.Some? ==> movementsOf == Some(IdForBateria(selected.value)) && loading
      ensures selected.Some? && Truthy(selected.value.produtoId) ==>
        detailsOf == Some(ToNumber(selected.value.produtoId)) && bateriaDetails == old(bateriaDetails)
      ensures selected.Some? && !Truthy(selected.value.produtoId) ==> detailsOf.None? && bateriaDetails == Null
      ensures selected.None? ==> bateriaDetails == old(bateriaDetails)
      ensures selected == old(selected) && estoque == old(estoque) && movimentacoes == old(movimentacoes)
      ensures error == old(error) && tipo == old(tipo) && quantidade == old(quantidade)
      ensures valorUnitario == old(valorUnitario) && origem == old(origem) && observacao == old(observacao)
    {
      if selected.None? {
        return None, None;
      }
      loading := true;
      movementsOf := Some(IdForBateria(selected.value));
      var prodId := OrElse(selected.value.produtoId, Null);
      if !Truthy(prodId) {
        bateriaDetails := Null;
        detailsOf := None;
      } else {
        detailsOf := Some(ToNumber(prodId));
      }
    }

    /** The movements of the selected entry arrived. */
    method MovimentacoesLoaded(body: Js)
      modifies this
      ensures movimentacoes == EstoqueService.Movimentacoes(body) && !loading
      ensures estoque == old(estoque) && selected == old(selected) && error == old(error)
      ensures bateriaDetails == old(bateriaDetails) && tipo == old(tipo) && quantidade == old(quantidade)
      ensures valorUnitario == old(valorUnitario) && origem == old(origem) && observacao == old(observacao)
    {
      movimentacoes := EstoqueService.Movimentacoes(body);
      loading := false;
    }

    /** The battery details arrived: they are kept, and the unit value takes
        the default price for the current origin. */
    method BateriaLoaded(bat: Js, show: Js -> string)
      modifies this
      ensures bateriaDetails == OrElse(bat, Null)
      ensures valorUnitario == DefaultPrice(old(origem), bat, old(valorUnitario), show)
      ensures estoque == old(estoque) && selected == old(selected) && movimentacoes == old(movimentacoes)
      ensures loading == old(loading) && error == old(error) && tipo == old(tipo)
      ensures quantidade == old(quantidade) && origem == old(origem) && observacao == old(observacao)
    {
      bateriaDetails := OrElse(bat, Null);
      var isVenda := origem == "venda";
      var precoVenda := PrecoVenda(bat);
      var precoCusto := PrecoCusto(bat);
      if isVenda && !Nullish(precoVenda) {
        valorUnitario := Text(precoVenda, show);
      } else if !isVenda && !Nullish(precoCusto) {
        valorUnitario := Text(precoCusto, show);
      }
    }

    /** A load the page starts on its own failed: the stock list or the
        movements, each with its own message. */
    method LoadFailed(ofMovements: bool)
      modifies this
      ensures error == Some(if ofMovements then "Falha ao carregar movimentações" else "Falha ao carregar estoque")
      ensures !loading
      ensures estoque == old(estoque) && selected == old(selected) && movimentacoes == old(movimentacoes)
      ensures bateriaDetails == old(bateriaDetails) && tipo == old(tipo) && quantidade == old(quantidade)
      ensures valorUnitario == old(valorUnitario) && origem == old(origem) && observacao == old(observacao)
    {
      error := Some(if ofMovements then "Falha ao carregar movimentações" else "Falha ao carregar estoque");
      loading := false;
    }

    /** The battery details could not be fetched: they are cleared and the
        unit value is left alone. */
    method BateriaFailed()
      modifies this
      ensures bateriaDetails == Null
      ensures estoque == old(estoque) && selected == old(selected) && movimentacoes == old(movimentacoes)
      ensures loading == old(loading) && error == old(error) && tipo == old(tipo) && quantidade == old(quantidade)
      ensures valorUnitario == old(valorUnitario) && origem == old(origem) && observacao == old(observacao)
    {
      bateriaDetails := Null;
    }

    /** The type select: only `'entrada'` and `'saida'` are taken. */
    method SetTipo(v: string)
      modifies this
      ensures v == "entrada" ==> tipo == Entrada
      ensures v == "saida" ==> tipo == Saida
      ensures v != "entrada" && v != "saida" ==> tipo == old(tipo)
      ensures estoque == old(estoque) && selected == old(selected) && movimentacoes == old(movimentacoes)
      ensures bateriaDetails == old(bateriaDetails) && loading == old(loading) && error == old(error)
      ensures quantidade == old(quantidade) && valorUnitario == old(valorUnitario)
      ensures origem == old(origem) && observacao == old(observacao)
    {
      if v == "entrada" {
        tipo := Entrada;
      } else if v == "saida" {
        tipo := Saida;
      }
    }

    /** The quantity input: `Number(e.target.value)`. */
    method SetQuantidade(text: string)
      modifies this
      ensures quantidade == JsValues.StringToNumber(text)
      ensures estoque == old(estoque) && selected == old(selected) && movimentacoes == old(movimentacoes)
      ensures bateriaDetails == old(bateriaDetails) && loading == old(loading) && error == old(error)
      ensures tipo == old(tipo) && valorUnitario == old(valorUnitario)
      ensures origem == old(origem) && observacao == old(observacao)
    {
      quantidade := JsValues.StringToNumber(text);
    }

    method SetValorUnitario(text: string)
      modifies this
      ensures valorUnitario == text
      ensures estoque == old(estoque) && selected == old(selected) && movimentacoes == old(movimentacoes)
      ensures bateriaDetails == old(bateriaDetails) && loading == old(loading) && error == old(error)
      ensures tipo == old(tipo) && quantidade == old(quantidade)
      ensures origem == old(origem) && observacao == old(observacao)
    {
      valorUnitario := text;
    }

    /** The origin select.  The details effect depends on the origin too,
        so a new origin fetches the battery details again for a truthy
        product id, whose answer resets the unit value (`BateriaLoaded`),
        and clears them without one; the same origin changes nothing. */
    method SetOrigem(text: string) returns (detailsOf: Option<JsValues.Number>)
      modifies this
      ensures origem == text
      ensures text == old(origem) || selected.None? ==> detailsOf.None? && bateriaDetails == old(bateriaDetails)
      ensures text != old(origem) && selected.Some? && Truthy(selected.value.produtoId) ==>
        detailsOf == Some(ToNumber(selected.value.produtoId)) && bateriaDetails == old(bateriaDetails)
      ensures text != old(origem) && selected.Some? && !Truthy(selected.value.produtoId) ==>
        detailsOf.None? && bateriaDetails == Null
      ensures estoque == old(estoque) && selected == old(selected) && movimentacoes == old(movimentacoes)
      ensures loading == old(loading) && error == old(error)
      ensures tipo == old(tipo) && quantidade == old(quantidade)
      ensures valorUnitario == old(valorUnitario) && observacao == old(observacao)
    {
      var changed := text != origem;
      origem := text;
      detailsOf := None;
      if changed && selected.Some? {
        var prodId := OrElse(selected.value.produtoId, Null);
        if !Truthy(prodId) {
          bateriaDetails := Null;
        } else {
          detailsOf := Some(ToNumber(prodId));
        }
      }
    }

    method SetObservacao(text: string)
      modifies this
      ensures observacao == text
      ensures estoque == old(estoque) && selected == old(selected) && movimentacoes == old(movimentacoes)
      ensures bateriaDetails == old(bateriaDetails) && loading == old(loading) && error == old(error)
      ensures tipo == old(tipo) && quantidade == old(quantidade)
      ensures valorUnitario == old(valorUnitario) && origem == old(origem)
    {
      observacao := text;
    }

    /** The "Limpar" button: note, quantity and unit value back to their
        defaults. */
    method ClearForm()
      modifies this
      ensures observacao == "" && quantidade == JsValues.Finite(1.0) && valorUnitario == "0.00"
      ensures estoque == old(estoque) && selected == old(selected) && movimentacoes == old(movimentacoes)
      ensures bateriaDetails == old(bateriaDetails) && loading == old(loading) && error == old(error)
      ensures tipo == old(tipo) && origem == old(origem)
    {
      observacao := "";
      quantidade := JsValues.Finite(1.0);
      valorUnitario := "0.00";
    }

    /** `handleSubmit` up to the request: nothing happens without a
        selection; a quantity of zero or less is refused with a message,
        nothing is sent and the `finally` clears the loading flag; otherwise
        the payload is built from the form. */
    method HandleSubmit() returns (sent: Option<Payload>)
      modifies this
      ensures selected.None? ==> sent.None? && error == old(error) && loading == old(loading)
      ensures selected.Some? && quantidade.Finite? && quantidade.r <= 0.0 ==>
        sent.None? && error == Some("Quantidade deve ser maior que zero") && !loading
      ensures selected.Some? && !(quantidade.Finite? && quantidade.r <= 0.0) ==>
        sent == Some(BuildPayload(selected.value, tipo, quantidade, valorUnitario, origem, observacao))
        && loading && error == old(error)
      ensures sent.Some? ==> sent.value.quantidade > 0.0 || quantidade.NaN?
      ensures estoque == old(estoque) && selected == old(selected) && movimentacoes == old(movimentacoes)
      ensures bateriaDetails == old(bateriaDetails) && tipo == old(tipo) && quantidade == old(quantidade)
      ensures valorUnitario == old(valorUnitario) && origem == old(origem) && observacao == old(observacao)
    {
      if selected.None? {
        return None;
      }
      if quantidade.Finite? && quantidade.r <= 0.0 {
        error := Some("Quantidade deve ser maior que zero");
        loading := false;
        return None;
      }
      loading := true;
      var quantidadeNum := JsValues.OrZero(quantidade);
      var valorUnitNum := ParseNumber(Str(valorUnitario));
      var valor := if valorUnitNum.None? then 0.0 else valorUnitNum.value;
      var idBateria := IdForBateria(selected.value);
      sent := Some(Payload(idBateria, tipo, if origem == "" then "avulso" else origem, quantidadeNum, valor,
                           if observacao == "" then None else Some(observacao), None));
    }

    /** The request succeeded and the movements were fetched again: they
        are stored at once, before the stock list is asked for, so a later
        failure of that second request leaves them in place. */
    method MovementsReloaded(movements: Js)
      modifies this
      ensures movimentacoes == EstoqueService.Movimentacoes(movements)
      ensures estoque == old(estoque) && selected == old(selected) && observacao == old(observacao)
      ensures loading == old(loading) && error == old(error) && bateriaDetails == old(bateriaDetails)
      ensures tipo == old(tipo) && quantidade == old(quantidade) && valorUnitario == old(valorUnitario)
      ensures origem == old(origem)
    {
      movimentacoes := EstoqueService.Movimentacoes(movements);
    }

    /** The stock list was fetched again: it replaces the old one, the
        selection follows its entry into the new list, and the note is
        cleared. */
    method ListReloaded(list: seq<EstoqueItem>)
      requires selected.Some?
      modifies this
      ensures estoque == list && selected == Some(Reselect(list, old(selected.value)))
      ensures observacao == "" && !loading
      ensures movimentacoes == old(movimentacoes) && error == old(error) && bateriaDetails == old(bateriaDetails)
      ensures tipo == old(tipo) && quantidade == old(quantidade) && valorUnitario == old(valorUnitario)
      ensures origem == old(origem)
    {
      estoque := list;
      selected := Some(Reselect(list, selected.value));
      observacao := "";
      loading := false;
    }

    /** The request or one of the reloads failed: whatever was stored
        before the failure stays. */
    method Failed(err: Js, show: Js -> string, stringify: Js -> string)
      modifies this
      ensures error == Some(FailureMessage(err, show, stringify)) && !loading
      ensures estoque == old(estoque) && selected == old(selected) && movimentacoes == old(movimentacoes)
      ensures bateriaDetails == old(bateriaDetails) && tipo == old(tipo) && quantidade == old(quantidade)
      ensures valorUnitario == old(valorUnitario) && origem == old(origem) && observacao == old(observacao)
    {
      error := Some(FailureMessage(err, show, stringify));
      loading := false;
    }
  }
}
