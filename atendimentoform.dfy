/** The sale form: the customer, vehicle and date of a sale, and the list
    of battery items it sells, edited in place until the sale is sent. */
module AtendimentoForm {
  import opened Wrappers
  import opened JsText
  import JsValues
  import Json

  /** A battery of the catalogue, with its sale price as it arrives (a
      number or a numeric text). */
  datatype Bateria = Bateria(idBateria: int, precoVenda: Json.Js)

  /** `Number(b.preco_venda)`. */
  function Price(b: Bateria): JsValues.Number {
    Json.ToNumber(b.precoVenda)
  }

  /** One line of the sale; `id` is a local key not sent to the server. */
  datatype Item = Item(id: string, idBateria: int, quantidade: JsValues.Number, valorUnitario: JsValues.Number)

  // ---- the item list ----------------------------------------------------------

  /** The line `addItem` appends: the first battery of the catalogue, or
      none (id 0, price 0) when the catalogue is empty, in quantity 1. */
  function NewItem(baterias: seq<Bateria>, id: string): (it: Item)
    ensures it.id == id && it.quantidade == JsValues.Finite(1.0)
    ensures baterias == [] ==> it.idBateria == 0 && it.valorUnitario == JsValues.Finite(0.0)
    ensures baterias != [] ==> it.idBateria == baterias[0].idBateria && it.valorUnitario == Price(baterias[0])
  {
    if baterias == [] then Item(id, 0, JsValues.Finite(1.0), JsValues.Finite(0.0))
    else Item(id, baterias[0].idBateria, JsValues.Finite(1.0), Price(baterias[0]))
  }

  /** `itens.filter(item => item.id !== id)`. */
  function Removed(itens: seq<Item>, id: string): (r: seq<Item>)
    ensures |r| <= |itens|
    ensures forall k | 0 <= k < |r| :: r[k].id != id
  {
    if itens == [] then []
    else (if itens[0].id == id then [] else [itens[0]]) + Removed(itens[1..], id)
  }

  /** Removing keeps exactly the lines with another id. */
  lemma {:induction false} RemovedMembers(itens: seq<Item>, id: string)
    ensures forall it | it in itens && it.id != id :: it in Removed(itens, id)
    ensures forall it | it in Removed(itens, id) :: it in itens
    decreases |itens|
  {
    if itens != [] {
      RemovedMembers(itens[1..], id);
      assert itens == [itens[0]] + itens[1..];
    }
  }

  /** Removing keeps the other lines in their order: removing from a list
      with the line appended is removing from the list, then the line
      unless it has that id. */
  lemma {:induction false} RemovedAppend(itens: seq<Item>, it: Item, id: string)
    ensures Removed(itens + [it], id) == Removed(itens, id) + (if it.id == id then [] else [it])
    decreases |itens|
  {
    if itens == [] {
      assert [it][1..] == [];
    } else {
      assert (itens + [it])[1..] == itens[1..] + [it];
      RemovedAppend(itens[1..], it, id);
    }
  }

  /** A list without that id is kept as it is, so removing twice is removing once. */
  lemma {:induction false} RemovedAbsent(itens: seq<Item>, id: string)
    requires forall k | 0 <= k < |itens| :: itens[k].id != id
    ensures Removed(itens, id) == itens
    decreases |itens|
  {
    if itens != [] {
      RemovedAbsent(itens[1..], id);
    }
  }

  lemma RemovedIdempotent(itens: seq<Item>, id: string)
    ensures Removed(Removed(itens, id), id) == Removed(itens, id)
  {
    RemovedAbsent(Removed(itens, id), id);
  }

  /** `baterias.find(b => b.id_bateria === id)`. */
  function Find(baterias: seq<Bateria>, id: int): (r: Option<Bateria>)
    ensures r.None? <==> forall k | 0 <= k < |baterias| :: baterias[k].idBateria != id
    ensures r.Some? ==> r.value in baterias && r.value.idBateria == id
  {
    if baterias == [] then None
    else if baterias[0].idBateria == id then Some(baterias[0])
    else Find(baterias[1..], id)
  }

  /** A change made through one of a line's inputs. */
  datatype Edit = SetBateria(idBateria: int) | SetQuantidade(q: JsValues.Number) | SetValor(v: JsValues.Number)

  /** `{...item, [field]: value}`, with a change of battery also taking the
      new battery's price when the catalogue has it. */
  function Edited(item: Item, e: Edit, baterias: seq<Bateria>): (r: Item)
    ensures r.id == item.id
    ensures e.SetBateria? ==> r.idBateria == e.idBateria && r.quantidade == item.quantidade
    ensures e.SetBateria? && Find(baterias, e.idBateria).None? ==> r.valorUnitario == item.valorUnitario
    ensures e.SetBateria? && Find(baterias, e.idBateria).Some? ==> r.valorUnitario == Price(Find(baterias, e.idBateria).value)
    ensures e.SetQuantidade? ==> r.quantidade == e.q && r.idBateria == item.idBateria && r.valorUnitario == item.valorUnitario
    ensures e.SetValor? ==> r.valorUnitario == e.v && r.idBateria == item.idBateria && r.quantidade == item.quantidade
  {
    match e
    case SetBateria(b) =>
      (match Find(baterias, b)
       case Some(bat) => item.(idBateria := b, valorUnitario := Price(bat))
       case None => item.(idBateria := b))
    case SetQuantidade(q) => item.(quantidade := q)
    case SetValor(v) => item.(valorUnitario := v)
  }

  /** `updateItem(id, field, value)`: the lines with that id edited, the others as they are. */
  function Updated(itens: seq<Item>, id: string, e: Edit, baterias: seq<Bateria>): (r: seq<Item>)
    ensures |r| == |itens|
    ensures forall k | 0 <= k < |itens| :: r[k].id == itens[k].id
    ensures forall k | 0 <= k < |itens| && itens[k].id != id :: r[k] == itens[k]
    ensures forall k | 0 <= k < |itens| && itens[k].id == id :: r[k] == Edited(itens[k], e, baterias)
  {
    seq(|itens|, k requires 0 <= k < |itens| => if itens[k].id == id then Edited(itens[k], e, baterias) else itens[k])
  }

  /** An edit touches only the lines with that id and only the edited
      field, and keeps every line's local id and position. */
  lemma UpdatedFrames(itens: seq<Item>, id: string, e: Edit, baterias: seq<Bateria>)
    ensures forall k | 0 <= k < |itens| :: Updated(itens, id, e, baterias)[k].id == itens[k].id
    ensures forall k | 0 <= k < |itens| && itens[k].id != id :: Updated(itens, id, e, baterias)[k] == itens[k]
    ensures e.SetQuantidade? ==> forall k | 0 <= k < |itens| ::
      Updated(itens, id, e, baterias)[k].idBateria == itens[k].idBateria &&
      Updated(itens, id, e, baterias)[k].valorUnitario == itens[k].valorUnitario
    ensures e.SetValor? ==> forall k | 0 <= k < |itens| ::
      Updated(itens, id, e, baterias)[k].idBateria == itens[k].idBateria &&
      Updated(itens, id, e, baterias)[k].quantidade == itens[k].quantidade
  {
  }

  /** Choosing a battery of the catalogue sets the line's price to that
      battery's; choosing one it does not have leaves the price as it was. */
  lemma BateriaSetsPrice(item: Item, b: int, baterias: seq<Bateria>, k: nat)
    requires k < |baterias| && baterias[k].idBateria == b
    requires forall j | 0 <= j < k :: baterias[j].idBateria != b
    ensures Edited(item, SetBateria(b), baterias) == item.(idBateria := b, valorUnitario := Price(baterias[k]))
  {
    FindFirst(baterias, b, k);
  }

  lemma {:induction false} FindFirst(baterias: seq<Bateria>, b: int, k: nat)
    requires k < |baterias| && baterias[k].idBateria == b
    requires forall j | 0 <= j < k :: baterias[j].idBateria != b
    ensures Find(baterias, b) == Some(baterias[k])
    decreases k
  {
    if k > 0 {
      FindFirst(baterias[1..], b, k - 1);
    }
  }

  lemma UnknownBateriaKeepsPrice(item: Item, b: int, baterias: seq<Bateria>)
    requires forall j | 0 <= j < |baterias| :: baterias[j].idBateria != b
    ensures Edited(item, SetBateria(b), baterias) == item.(idBateria := b)
  {
  }

  // ---- the total ------------------------------------------------------------

  /** `itens.reduce((acc, item) => acc + item.quantidade * item.valor_unitario, 0)`. */
  function Total(itens: seq<Item>): (t: JsValues.Number)
    ensures t.Finite? <==> AllPriced(itens)
    decreases |itens|
  {
    if itens == [] then JsValues.Finite(0.0)
    else
      var init, last := itens[..|itens| - 1], itens[|itens| - 1];
      assert forall k | 0 <= k < |init| :: init[k] == itens[k];
      JsValues.Add(Total(init), JsValues.Mul(last.quantidade, last.valorUnitario))
  }

  predicate Priced(it: Item) {
    it.quantidade.Finite? && it.valorUnitario.Finite?
  }

  /** Every line has a number for its quantity and its price. */
  predicate AllPriced(itens: seq<Item>) {
    forall k | 0 <= k < |itens| :: Priced(itens[k])
  }

  /** The total as a plain sum, for lines whose numbers are all finite. */
  function Sum(itens: seq<Item>): real
    requires forall k | 0 <= k < |itens| :: Priced(itens[k])
  {
    if itens == [] then 0.0
    else
      assert Priced(itens[0]);
      itens[0].quantidade.r * itens[0].valorUnitario.r + Sum(itens[1..])
  }

  lemma {:induction false} SumAppend(itens: seq<Item>, it: Item)
    requires forall k | 0 <= k < |itens| :: Priced(itens[k])
    requires Priced(it)
    ensures Sum(itens + [it]) == Sum(itens) + it.quantidade.r * it.valorUnitario.r
    decreases |itens|
  {
    if itens == [] {
      assert [it][1..] == [];
    } else {
      assert (itens + [it])[1..] == itens[1..] + [it];
      SumAppend(itens[1..], it);
    }
  }

  /** With every quantity and price a number, the total is the sum of
      quantity times price over the lines; a single NaN makes it NaN. */
  lemma {:induction false} TotalIsSum(itens: seq<Item>)
    ensures Total(itens).Finite? <==> forall k | 0 <= k < |itens| :: Priced(itens[k])
    ensures Total(itens).Finite? ==> Total(itens).r == Sum(itens)
    decreases |itens|
  {
    if itens != [] {
      var init, last := itens[..|itens| - 1], itens[|itens| - 1];
      TotalIsSum(init);
      assert itens == init + [last];
      if forall k | 0 <= k < |itens| :: Priced(itens[k]) {
        assert forall k | 0 <= k < |init| :: Priced(init[k]) by {
          forall k | 0 <= k < |init| ensures Priced(init[k]) {
            assert init[k] == itens[k];
          }
        }
        SumAppend(init, last);
      } else {
        var k :| 0 <= k < |itens| && !Priced(itens[k]);
        if k < |init| {
          assert init[k] == itens[k];
        }
      }
    }
  }

  /** The line `addItem` appends adds its price to the total. */
  lemma NewItemTotal(itens: seq<Item>, baterias: seq<Bateria>, id: string)
    ensures Total(itens + [NewItem(baterias, id)]).Finite? <==> Total(itens).Finite? && NewItem(baterias, id).valorUnitario.Finite?
    ensures Total(itens + [NewItem(baterias, id)]).Finite? ==>
      Total(itens + [NewItem(baterias, id)]).r == Total(itens).r + NewItem(baterias, id).valorUnitario.r
  {
    TotalAppend(itens, NewItem(baterias, id));
  }

  /** Appending a line adds its quantity times its price to the total. */
  lemma TotalAppend(itens: seq<Item>, it: Item)
    ensures Total(itens + [it]) == JsValues.Add(Total(itens), JsValues.Mul(it.quantidade, it.valorUnitario))
  {
    assert (itens + [it])[..|itens|] == itens;
  }

  // ---- sending the sale -------------------------------------------------------

  /** `'YYYY-MM-DDTHH:MM'` becomes `'YYYY-MM-DD HH:MM:00'`; a value with
      nothing after its first `T` is sent as it is. */
  function FormatDate(s: string): (r: string)
    ensures 'T' !in s ==> r == s
  {
    var parts := Split(s, 'T');
    if |parts| >= 2 && parts[1] != [] then parts[0] + " " + parts[1] + ":00" else s
  }

  /** The value the date picker emits is reformatted as the server expects. */
  lemma FormatPickerValue(date: string, time: string)
    requires 'T' !in date && 'T' !in time && time != []
    ensures FormatDate(date + "T" + time) == date + " " + time + ":00"
  {
    JoinSplit([date, time], 'T');
    assert Join([date, time], 'T') == date + "T" + time by {
      assert [date, time][1..] == [time];
    }
  }

  /** A line as the server receives it: without the local id. */
  datatype PayloadItem = PayloadItem(idBateria: int, quantidade: JsValues.Number, valorUnitario: JsValues.Number)

  function PayloadItems(itens: seq<Item>): (r: seq<PayloadItem>)
    ensures |r| == |itens|
  {
    seq(|itens|, k requires 0 <= k < |itens| => PayloadItem(itens[k].idBateria, itens[k].quantidade, itens[k].valorUnitario))
  }

  /** The lines sent depend on the lines' contents and order, not on their local ids. */
  lemma PayloadIgnoresIds(a: seq<Item>, b: seq<Item>)
    requires |a| == |b|
    requires forall k | 0 <= k < |a| ::
      a[k].idBateria == b[k].idBateria && a[k].quantidade == b[k].quantidade && a[k].valorUnitario == b[k].valorUnitario
    ensures PayloadItems(a) == PayloadItems(b)
  {
  }

  datatype Payload = Payload(
    idCliente: int, idVeiculo: int, dataAtendimento: string, observacoes: string, itens: seq<PayloadItem>)

  /** What a failed request shows: an `Error`'s message, or the server's
      message when the response carries a truthy one. */
  datatype Failure = NotAnError | ErrorValue(message: string, serverMessage: Option<string>)

  function FailureText(f: Failure): string {
    match f
    case NotAnError => "Erro ao criar atendimento"
    case ErrorValue(m, server) => if server.Some? && server.value != [] then "Erro: " + server.value else m
  }

  // ---- the component state ----------------------------------------------------

  class SaleForm {
    var baterias: seq<Bateria>
    var clienteId: Option<int>
    var veiculoId: Option<int>
    var dataAtendimento: string
    var observacoes: string
    var itens: seq<Item>
    var error: Option<string>
    var success: bool

    constructor (catalogue: seq<Bateria>)
      ensures baterias == catalogue && clienteId.None? && veiculoId.None?
      ensures dataAtendimento == "" && observacoes == "" && itens == [] && error.None? && !success
    {
      baterias := catalogue;
      clienteId, veiculoId := None, None;
      dataAtendimento, observacoes := "", "";
      itens := [];
      error := None;
      success := false;
    }

    /** Picking a customer (`Number(value) || null`).  A different customer
        drops the chosen vehicle, as the effect on the customer does. */
    method SelectCliente(value: int)
      modifies this
      ensures clienteId == (if value != 0 then Some(value) else None)
      ensures veiculoId == (if clienteId == old(clienteId) then old(veiculoId) else None)
      ensures baterias == old(baterias) && itens == old(itens) && dataAtendimento == old(dataAtendimento)
      ensures observacoes == old(observacoes) && error == old(error) && success == old(success)
    {
      var next := if value != 0 then Some(value) else None;
      if next != clienteId {
        veiculoId := None;
      }
      clienteId := next;
    }

    method SelectVeiculo(value: int)
      modifies this
      ensures veiculoId == (if value != 0 then Some(value) else None)
      ensures baterias == old(baterias) && itens == old(itens) && clienteId == old(clienteId)
      ensures dataAtendimento == old(dataAtendimento) && observacoes == old(observacoes)
      ensures error == old(error) && success == old(success)
    {
      veiculoId := if value != 0 then Some(value) else None;
    }

    method SetDate(value: string)
      modifies this
      ensures dataAtendimento == value
      ensures baterias == old(baterias) && itens == old(itens) && clienteId == old(clienteId)
      ensures veiculoId == old(veiculoId) && observacoes == old(observacoes)
      ensures error == old(error) && success == old(success)
    {
      dataAtendimento := value;
    }

    method SetObservacoes(value: string)
      modifies this
      ensures observacoes == value
      ensures baterias == old(baterias) && itens == old(itens) && clienteId == old(clienteId)
      ensures veiculoId == old(veiculoId) && dataAtendimento == old(dataAtendimento)
      ensures error == old(error) && success == old(success)
    {
      observacoes := value;
    }

    /** The cancel button: the sale is cleared, messages stay as they are. */
    method Cancel()
      modifies this
      ensures clienteId.None? && veiculoId.None? && dataAtendimento == "" && observacoes == ""
      ensures itens == [] && Total(itens) == JsValues.Finite(0.0)
      ensures baterias == old(baterias) && error == old(error) && success == old(success)
    {
      clienteId, veiculoId := None, None;
      dataAtendimento, observacoes := "", "";
      itens := [];
    }

    /** The customers and catalogue, or a customer's vehicles, could not be
        fetched: each load shows its own message. */
    method LoadFailed(ofVeiculos: bool)
      modifies this
      ensures error == Some(if ofVeiculos then "Erro ao carregar veículos" else "Erro ao carregar dados")
      ensures baterias == old(baterias) && itens == old(itens) && clienteId == old(clienteId)
      ensures veiculoId == old(veiculoId) && dataAtendimento == old(dataAtendimento)
      ensures observacoes == old(observacoes) && success == old(success)
    {
      error := Some(if ofVeiculos then "Erro ao carregar veículos" else "Erro ao carregar dados");
    }

    /** `addItem`, with `id` standing for `Math.random().toString()`. */
    method AddItem(id: string)
      modifies this
      ensures itens == old(itens) + [NewItem(baterias, id)]
      ensures Total(itens).Finite? <==> Total(old(itens)).Finite? && NewItem(baterias, id).valorUnitario.Finite?
      ensures Total(itens).Finite? ==> Total(itens).r == Total(old(itens)).r + NewItem(baterias, id).valorUnitario.r
      ensures baterias == old(baterias) && clienteId == old(clienteId) && veiculoId == old(veiculoId)
      ensures dataAtendimento == old(dataAtendimento) && observacoes == old(observacoes)
      ensures error == old(error) && success == old(success)
    {
      NewItemTotal(itens, baterias, id);
      itens := itens + [NewItem(baterias, id)];
    }

    /** `removeItem`. */
    method RemoveItem(id: string)
      modifies this
      ensures itens == Removed(old(itens), id)
      ensures baterias == old(baterias) && clienteId == old(clienteId) && veiculoId == old(veiculoId)
      ensures dataAtendimento == old(dataAtendimento) && observacoes == old(observacoes)
      ensures error == old(error) && success == old(success)
    {
      itens := Removed(itens, id);
    }

    /** `updateItem`. */
    method UpdateItem(id: string, e: Edit)
      modifies this
      ensures itens == Updated(old(itens), id, e, baterias)
      ensures baterias == old(baterias) && clienteId == old(clienteId) && veiculoId == old(veiculoId)
      ensures dataAtendimento == old(dataAtendimento) && observacoes == old(observacoes)
      ensures error == old(error) && success == old(success)
    {
      itens := Updated(itens, id, e, baterias);
    }

    /** `handleSubmit` up to the request: nothing is sent, and one message
        is shown, unless customer, vehicle and date are set and there is at
        least one line; otherwise the payload is built from the form. */
    method HandleSubmit() returns (sent: Option<Payload>)
      modifies this
      ensures var ready := clienteId.Some? && veiculoId.Some? && dataAtendimento != [] && itens != [];
        (sent.Some? <==> ready) &&
        (!ready ==> error == Some("Preencha todos os campos obrigatórios e adicione pelo menos um item")) &&
        (ready ==> error.None? && sent.value == Payload(clienteId.value, veiculoId.value,
          FormatDate(dataAtendimento), observacoes, PayloadItems(itens)))
      ensures !success
      ensures baterias == old(baterias) && itens == old(itens) && clienteId == old(clienteId)
      ensures veiculoId == old(veiculoId) && dataAtendimento == old(dataAtendimento) && observacoes == old(observacoes)
    {
      error := None;
      success := false;
      if clienteId.None? || veiculoId.None? || dataAtendimento == [] || |itens| == 0 {
        error := Some("Preencha todos os campos obrigatórios e adicione pelo menos um item");
        return None;
      }
      var parts := Split(dataAtendimento, 'T');
      var formatted := if |parts| >= 2 && parts[1] != [] then parts[0] + " " + parts[1] + ":00" else dataAtendimento;
      return Some(Payload(clienteId.value, veiculoId.value, formatted, observacoes, PayloadItems(itens)));
    }

    /** The sale was recorded: the form is cleared. */
    method Sent()
      modifies this
      ensures success && clienteId.None? && veiculoId.None? && dataAtendimento == "" && observacoes == ""
      ensures itens == [] && Total(itens) == JsValues.Finite(0.0)
      ensures baterias == old(baterias) && error == old(error)
    {
      success := true;
      clienteId, veiculoId := None, None;
      dataAtendimento, observacoes := "", "";
      itens := [];
    }

    /** The request failed. */
    method Failed(f: Failure)
      modifies this
      ensures error == Some(FailureText(f))
      ensures baterias == old(baterias) && itens == old(itens) && clienteId == old(clienteId)
      ensures veiculoId == old(veiculoId) && dataAtendimento == old(dataAtendimento)
      ensures observacoes == old(observacoes) && success == old(success)
    {
      error := Some(FailureText(f));
    }
  }
}
