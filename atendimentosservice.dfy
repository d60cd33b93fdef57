/** The sales service's normaliser: a loose sale record from the API, with
    snake_case or camelCase keys, becomes an `Atendimento` whose identifiers
    and texts have their defaults, and whose nested customer, vehicle, items
    and batteries are copied when present.  Reading a key of `null` or
    `undefined`, or mapping over something that is not a list, throws in the
    source; the model answers `None` there. */
module AtendimentosService {
  import opened Wrappers
  import opened JsText
  import opened Json
  import JsValues

  datatype Cliente = Cliente(idCliente: Js, nome: Js, telefone: Js, email: Js,
                             endereco: Js, cidade: Js, estado: Js, cep: Js)

  datatype Veiculo = Veiculo(idVeiculo: Js, placa: Js, modelo: Js, marca: Js, ano: Js)

  datatype BateriaResumo = BateriaResumo(idBateria: Js, codigo: Js, modelo: Js, amperagem: Js,
                                         garantiaMeses: Js, precoVenda: Js, precoCusto: Js, ativo: Js)

  datatype Item = Item(idItem: Js, idAtendimento: Js, idBateria: Js, quantidade: Js, valorUnitario: Js,
                       valorTotal: Js, createdAt: Js, garantiaRestanteMeses: Js, bateria: Option<BateriaResumo>)

  datatype Atendimento = Atendimento(
    id: Js, idEmpresa: Js, idUsuario: Js, clienteId: Js, idVeiculo: Js,
    dataAtendimento: Js, tipoServico: Js, descricao: Js, observacoes: Js, status: Js,
    dataCriacao: Js, dataPrevisao: Js, dataConclusao: Js, valorServico: Js, tecnico: Js,
    cliente: Option<Cliente>, veiculo: Option<Veiculo>, itens: Option<seq<Item>>)

  const Zero: Js := Num(JsValues.Finite(0.0))

  /** `a ?? b ?? c`. */
  function First(a: Js, b: Js, c: Js): (r: Js)
    ensures !Nullish(a) ==> r == a
    ensures Nullish(a) && !Nullish(b) ==> r == b
    ensures Nullish(a) && Nullish(b) ==> r == c
  {
    OrElse(OrElse(a, b), c)
  }

  /** The nested battery of an item. */
  function MapBateria(b: Js): (r: BateriaResumo)
    ensures r.idBateria == OrElse(Get(b, "id_bateria"), Get(b, "id"))
    ensures r.garantiaMeses == First(Get(b, "garantia_meses"), Get(b, "garantiaMeses"), Undefined)
    ensures r.precoVenda == First(Get(b, "preco_venda"), Get(b, "precoVenda"), Undefined)
    ensures r.precoCusto == First(Get(b, "preco_custo"), Get(b, "precoCusto"), Undefined)
  {
    BateriaResumo(
      OrElse(Get(b, "id_bateria"), Get(b, "id")),
      Get(b, "codigo"), Get(b, "modelo"), Get(b, "amperagem"),
      First(Get(b, "garantia_meses"), Get(b, "garantiaMeses"), Undefined),
      First(Get(b, "preco_venda"), Get(b, "precoVenda"), Undefined),
      First(Get(b, "preco_custo"), Get(b, "precoCusto"), Undefined),
      Get(b, "ativo"))
  }

  /** One item; reading a key of a `null` item throws. */
  function MapItem(item: Js): (r: Option<Item>)
    ensures r.None? <==> Nullish(item)
    ensures r.Some? ==> r.value.idItem == OrElse(Get(item, "id_item"), Get(item, "id"))
    ensures r.Some? ==>
      r.value.garantiaRestanteMeses == First(Get(item, "garantia_restante_meses"), Get(item, "garantia_restante_mes"), Undefined)
    ensures r.Some? ==> (r.value.bateria.Some? <==> Truthy(Get(item, "bateria")))
    ensures r.Some? && r.value.bateria.Some? ==> r.value.bateria.value == MapBateria(Get(item, "bateria"))
  {
    if Nullish(item) then None
    else
      Some(Item(
        OrElse(Get(item, "id_item"), Get(item, "id")),
        Get(item, "id_atendimento"), Get(item, "id_bateria"), Get(item, "quantidade"),
        Get(item, "valor_unitario"), Get(item, "valor_total"), Get(item, "created_at"),
        First(Get(item, "garantia_restante_meses"), Get(item, "garantia_restante_mes"), Undefined),
        if Truthy(Get(item, "bateria")) then Some(MapBateria(Get(item, "bateria"))) else None))
  }

  /** `items.map(...)`: every item in order, or `None` when one throws. */
  function MapItems(items: seq<Js>): (r: Option<seq<Item>>)
    ensures r.Some? <==> forall k | 0 <= k < |items| :: !Nullish(items[k])
    ensures r.Some? ==> |r.value| == |items|
    ensures r.Some? ==> forall k | 0 <= k < |items| :: MapItem(items[k]) == Some(r.value[k])
  {
    if items == [] then Some([])
    else match (MapItem(items[0]), MapItems(items[1..]))
      case (Some(first), Some(rest)) =>
        assert forall k | 1 <= k < |items| :: items[k] == items[1..][k - 1];
        Some([first] + rest)
      case (None, _) => None
      case (_, None) =>
        assert forall k | 1 <= k < |items| :: items[k] == items[1..][k - 1];
        None
  }

  /** `typeof v === 'string' ? parseFloat(v) : (v ?? w ?? undefined)`. */
  function ValorServico(v: Js, w: Js): (r: Js)
    ensures v.Str? ==> r == Num(if ParseFloat(v.s).Some? then JsValues.Finite(ParseFloat(v.s).value) else JsValues.NaN)
    ensures !v.Str? ==> r == First(v, w, Undefined)
  {
    if v.Str? then Num(match ParseFloat(v.s) case Some(x) => JsValues.Finite(x) case None => JsValues.NaN)
    else First(v, w, Undefined)
  }

  /** `mapAtendimento(it)`: `None` where the source throws, on a `null`
      record, or on `itens` that is truthy but not a list or holds a `null`
      item. */
  function MapAtendimento(it: Js): (r: Option<Atendimento>)
    ensures r.Some? <==>
      (!Nullish(it) &&
       (Truthy(Get(it, "itens")) ==> Get(it, "itens").Arr? && forall k | 0 <= k < |Get(it, "itens").items| :: !Nullish(Get(it, "itens").items[k])))
    ensures r.Some? ==> (r.value.itens.Some? <==> Truthy(Get(it, "itens")))
    ensures r.Some? && r.value.itens.Some? ==> |r.value.itens.value| == |Get(it, "itens").items|
    ensures r.Some? ==> !Nullish(r.value.id) && !Nullish(r.value.clienteId) && !Nullish(r.value.status)
  {
    if Nullish(it) then None
    else
      var rawItens := Get(it, "itens");
      var itens: Option<Option<seq<Item>>> :=
        if !Truthy(rawItens) then Some(None)
        else if !rawItens.Arr? then None
        else match MapItems(rawItens.items) case Some(xs) => Some(Some(xs)) case None => None;
      match itens
      case None => None
      case Some(mapped) =>
        var cliente := Get(it, "cliente");
        var veiculo := Get(it, "veiculo");
        Some(Atendimento(
          First(Get(it, "id_atendimento"), Get(it, "id"), Zero),
          Get(it, "id_empresa"), Get(it, "id_usuario"),
          First(Get(it, "id_cliente"), Get(it, "clienteId"), Zero),
          Get(it, "id_veiculo"),
          First(Get(it, "data_atendimento"), Get(it, "dataAtendimento"), Str("")),
          First(Get(it, "tipo_servico"), Get(it, "tipoServico"), Str("")),
          OrElse(Get(it, "descricao"), Str("")),
          OrElse(Get(it, "observacoes"), Str("")),
          OrElse(Get(it, "status"), Str("aberto")),
          First(Get(it, "created_at"), Get(it, "dataCriacao"), Str("")),
          First(Get(it, "data_previsao"), Get(it, "dataPrevisao"), Undefined),
          First(Get(it, "data_conclusao"), Get(it, "dataConclusao"), Undefined),
          ValorServico(Get(it, "valor_servico"), Get(it, "valorServico")),
          First(Get(it, "tecnico"), Get(it, "nome_tecnico"), Undefined),
          if Truthy(cliente) then
            Some(Cliente(Get(cliente, "id_cliente"), Get(cliente, "nome"), Get(cliente, "telefone"),
                         Get(cliente, "email"), Get(cliente, "endereco"), Get(cliente, "cidade"),
                         Get(cliente, "estado"), Get(cliente, "cep")))
          else None,
          if Truthy(veiculo) then
            Some(Veiculo(Get(veiculo, "id_veiculo"), Get(veiculo, "placa"), Get(veiculo, "modelo"),
                         Get(veiculo, "marca"), Get(veiculo, "ano")))
          else None,
          mapped))
  }

  /** The identifiers: `id_atendimento ?? id ?? 0` and `id_cliente ??
      clienteId ?? 0`; a 0 that is present is kept, as `??` only skips
      `null` and `undefined`. */
  lemma IdsKeepZero(it: Js)
    requires MapAtendimento(it).Some?
    ensures var a := MapAtendimento(it).value;
      a.id == First(Get(it, "id_atendimento"), Get(it, "id"), Zero)
      && a.clienteId == First(Get(it, "id_cliente"), Get(it, "clienteId"), Zero)
      && (Get(it, "id_atendimento") == Zero ==> a.id == Zero)
      && (Get(it, "id_cliente") == Zero ==> a.clienteId == Zero)
  {
  }

  /** The status is `'aberto'` when absent, and any other value is kept as
      it came, whether or not it is one of the four known statuses. */
  lemma StatusDefault(it: Js)
    requires MapAtendimento(it).Some?
    ensures Nullish(Get(it, "status")) ==> MapAtendimento(it).value.status == Str("aberto")
    ensures !Nullish(Get(it, "status")) ==> MapAtendimento(it).value.status == Get(it, "status")
  {
  }

  /** A price sent as text is parsed; one sent as a number is kept; without
      either key it is `undefined`. */
  lemma ValorServicoCases(it: Js, r: real)
    requires MapAtendimento(it).Some?
    ensures Get(it, "valor_servico") == Num(JsValues.Finite(r)) ==> MapAtendimento(it).value.valorServico == Num(JsValues.Finite(r))
    ensures Get(it, "valor_servico").Str? ==> MapAtendimento(it).value.valorServico.Num?
    ensures Nullish(Get(it, "valor_servico")) && Nullish(Get(it, "valorServico")) ==>
      MapAtendimento(it).value.valorServico == Undefined
  {
  }

  /** The customer and the vehicle are there exactly when the record has
      them (truthy), and the customer's fields are copied one to one. */
  lemma NestedPresence(it: Js)
    requires MapAtendimento(it).Some?
    ensures MapAtendimento(it).value.cliente.Some? <==> Truthy(Get(it, "cliente"))
    ensures MapAtendimento(it).value.veiculo.Some? <==> Truthy(Get(it, "veiculo"))
    ensures MapAtendimento(it).value.cliente.Some? ==>
      MapAtendimento(it).value.cliente.value.nome == Get(Get(it, "cliente"), "nome")
      && MapAtendimento(it).value.cliente.value.idCliente == Get(Get(it, "cliente"), "id_cliente")
  {
  }

  /** The items keep their number and order: the k-th item of the result
      is the k-th raw item mapped. */
  lemma ItemsInOrder(it: Js, k: nat)
    requires MapAtendimento(it).Some? && MapAtendimento(it).value.itens.Some?
    requires k < |MapAtendimento(it).value.itens.value|
    ensures Get(it, "itens").Arr? && k < |Get(it, "itens").items|
    ensures MapItem(Get(it, "itens").items[k]) == Some(MapAtendimento(it).value.itens.value[k])
  {
    var raw := Get(it, "itens").items;
    assert MapItems(raw).Some?;
  }

  /** `data.map(mapAtendimento)`: every record in order, or `None` when the
      body is not a list (it has no `map`) or one of its records throws. */
  function ListAtendimentos(data: Js): (r: Option<seq<Atendimento>>)
    ensures r.Some? <==> data.Arr? && forall k | 0 <= k < |data.items| :: MapAtendimento(data.items[k]).Some?
    ensures r.Some? ==> |r.value| == |data.items|
    ensures r.Some? ==> forall k | 0 <= k < |data.items| :: MapAtendimento(data.items[k]) == Some(r.value[k])
  {
    if data.Arr? then MapAll(MapAtendimento, data.items) else None
  }
}
