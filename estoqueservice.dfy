/** The stock service's normalisers: a loose stock record from the API
    becomes a strict `EstoqueItem`, each field taken from the first of its
    alternative keys that is not `null`/`undefined`, and the movement list is
    unwrapped from its response envelope. */
module EstoqueService {
  import opened Wrappers
  import opened Json
  import JsValues

  /** The five fields of a normalised stock entry. */
  datatype EstoqueItem = EstoqueItem(id: Js, produtoId: Js, quantidade: Js, localizacao: Js, dataAtualizacao: Js)

  const Zero: Js := Num(JsValues.Finite(0.0))

  /** `it.localizacao ?? (it.bateria?.modelo ? `${codigo} - ${modelo}` : '')`. */
  function Localizacao(it: Js, show: Js -> string): (r: Js)
    ensures !Nullish(Get(it, "localizacao")) ==> r == Get(it, "localizacao")
    ensures Nullish(Get(it, "localizacao")) && !Truthy(Get(Get(it, "bateria"), "modelo")) ==> r == Str("")
    ensures Nullish(Get(it, "localizacao")) && Truthy(Get(Get(it, "bateria"), "modelo")) ==>
      r == Str(Text(Get(Get(it, "bateria"), "codigo"), show) + " - " + Text(Get(Get(it, "bateria"), "modelo"), show))
  {
    var bateria := Get(it, "bateria");
    OrElse(Get(it, "localizacao"),
           if Truthy(Get(bateria, "modelo")) then Str(Text(Get(bateria, "codigo"), show) + " - " + Text(Get(bateria, "modelo"), show))
           else Str(""))
  }

  /** `mapItem(it)`: a record's entry; `None` for a `null` or `undefined`
      record, on which reading `it.id_estoque` throws.  Any other value,
      a number or a string say, reads every key as `undefined`. */
  function MapItem(it: Js, show: Js -> string): (e: Option<EstoqueItem>)
    ensures e.None? <==> Nullish(it)
    ensures e.Some? ==> !Nullish(e.value.id) && !Nullish(e.value.quantidade) &&
                        !Nullish(e.value.localizacao) && !Nullish(e.value.dataAtualizacao)
    ensures e.Some? ==> !e.value.produtoId.Undefined?
  {
    if Nullish(it) then None
    else
      Some(EstoqueItem(
        OrElse(OrElse(Get(it, "id_estoque"), Get(it, "id")), Zero),
        OrElse(Get(it, "id_bateria"), OrElse(Get(Get(it, "bateria"), "id_bateria"), Null)),
        OrElse(OrElse(Get(it, "quantidade_atual"), Get(it, "quantidade")), Zero),
        Localizacao(it, show),
        OrElse(OrElse(Get(it, "updated_at"), Get(it, "created_at")), Str(""))))
  }

  /** `listEstoque`: `resp.data.map(...)` through the same object expression
      as `mapItem`, written out again here as the service does.  The call
      fails (`None`) when the body is not a list, which has no `map`, or
      when one of its records is `null` or `undefined`. */
  function ListEstoque(data: Js, show: Js -> string): (items: Option<seq<EstoqueItem>>)
    ensures items.Some? <==> data.Arr? && forall k | 0 <= k < |data.items| :: !Nullish(data.items[k])
    ensures items.Some? ==> |items.value| == |data.items|
    ensures items.Some? ==> forall k | 0 <= k < |data.items| :: MapItem(data.items[k], show) == Some(items.value[k])
  {
    if !data.Arr? then None
    else
      MapAll((it: Js) =>
        if Nullish(it) then None
        else
          Some(EstoqueItem(
            OrElse(OrElse(Get(it, "id_estoque"), Get(it, "id")), Zero),
            OrElse(Get(it, "id_bateria"), OrElse(Get(Get(it, "bateria"), "id_bateria"), Null)),
            OrElse(OrElse(Get(it, "quantidade_atual"), Get(it, "quantidade")), Zero),
            OrElse(Get(it, "localizacao"),
                   if Truthy(Get(Get(it, "bateria"), "modelo"))
                   then Str(Text(Get(Get(it, "bateria"), "codigo"), show) + " - " + Text(Get(Get(it, "bateria"), "modelo"), show))
                   else Str("")),
            OrElse(OrElse(Get(it, "updated_at"), Get(it, "created_at")), Str("")))),
        data.items)
  }

  /** The key order of the id: `id_estoque` first, `id` second, 0 last; a
      present 0 is kept rather than skipped. */
  lemma IdOrder(it: Js, show: Js -> string)
    requires !Nullish(it)
    ensures !Nullish(Get(it, "id_estoque")) ==> MapItem(it, show).value.id == Get(it, "id_estoque")
    ensures Nullish(Get(it, "id_estoque")) && !Nullish(Get(it, "id")) ==> MapItem(it, show).value.id == Get(it, "id")
    ensures Nullish(Get(it, "id_estoque")) && Nullish(Get(it, "id")) ==> MapItem(it, show).value.id == Zero
    ensures Get(it, "id_estoque") == Zero ==> MapItem(it, show).value.id == Zero
  {
  }

  /** The product id: the record's `id_bateria`, else the nested battery's,
      else `null`. */
  lemma ProdutoIdOrder(it: Js, show: Js -> string)
    requires !Nullish(it)
    ensures !Nullish(Get(it, "id_bateria")) ==> MapItem(it, show).value.produtoId == Get(it, "id_bateria")
    ensures Nullish(Get(it, "id_bateria")) ==> MapItem(it, show).value.produtoId == OrElse(Get(Get(it, "bateria"), "id_bateria"), Null)
    ensures Nullish(Get(it, "id_bateria")) && !Get(it, "bateria").Obj? ==> MapItem(it, show).value.produtoId == Null
  {
  }

  /** The quantity: `quantidade_atual`, else `quantidade`, else 0; and the
      date: `updated_at`, else `created_at`, else `''`. */
  lemma QuantidadeAndDateOrder(it: Js, show: Js -> string)
    requires !Nullish(it)
    ensures !Nullish(Get(it, "quantidade_atual")) ==> MapItem(it, show).value.quantidade == Get(it, "quantidade_atual")
    ensures Nullish(Get(it, "quantidade_atual")) ==> MapItem(it, show).value.quantidade == OrElse(Get(it, "quantidade"), Zero)
    ensures !Nullish(Get(it, "updated_at")) ==> MapItem(it, show).value.dataAtualizacao == Get(it, "updated_at")
    ensures Nullish(Get(it, "updated_at")) ==> MapItem(it, show).value.dataAtualizacao == OrElse(Get(it, "created_at"), Str(""))
  {
  }

  /** `resp.data?.data ?? resp.data ?? []`: the list inside the envelope, or
      the body itself, or an empty list. */
  function Movimentacoes(body: Js): (r: Js)
    ensures !Nullish(Get(body, "data")) ==> r == Get(body, "data")
    ensures Nullish(Get(body, "data")) && !Nullish(body) ==> r == body
    ensures Nullish(body) ==> r == Arr([])
  {
    OrElse(OrElse(Get(body, "data"), body), Arr([]))
  }

  /** The envelope `{ success, data, total }` gives its `data`; a bare list
      is returned as it is. */
  lemma MovimentacoesShapes(list: seq<Js>, success: bool, total: Js)
    ensures Movimentacoes(Obj(map["success" := Bool(success), "data" := Arr(list), "total" := total])) == Arr(list)
    ensures Movimentacoes(Arr(list)) == Arr(list)
  {
    var envelope := Obj(map["success" := Bool(success), "data" := Arr(list), "total" := total]);
    assert Get(envelope, "data") == Arr(list);
  }
}
