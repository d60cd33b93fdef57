/** The client detail page: warranty items, either as the dashboard sends
    them or derived from the client's atendimentos (service visits) and
    their sale items; their normalisation into days, months and expiry
    time; the client status; and the value of everything sold.  The clock
    (`now`, in milliseconds) and the `Date` string parser are parameters. */
module ClienteDetails {
  import opened Wrappers
  import opened JsText
  import opened JsValues
  import opened Json
  import opened Civil

  /** A whole number of days or milliseconds, or NaN, which is what date
      arithmetic yields once an unparseable date is involved. */
  datatype Whole = Int(n: int) | NotANumber

  /** The nested `bateria` object of a sale item. */
  datatype RawBateria = RawBateria(codigo: Option<string>, modelo: Option<string>, garantiaMeses: Option<int>)

  /** A sale item as it arrives, keeping the fields of the types that are read. */
  datatype RawItem = RawItem(
    idItem: Option<int>, id: Option<int>, idBateria: Option<int>,
    codigo: Option<string>, modelo: Option<string>,
    garantiaMeses: Option<int>, garantiaRestanteMeses: Option<Number>,
    createdAt: Option<string>, bateria: Option<RawBateria>)

  datatype Vehicle = Vehicle(idVeiculo: Option<int>, placa: Option<string>)

  /** An atendimento with its details. */
  datatype RawAtendimento = RawAtendimento(
    id: Option<int>, idAtendimento: Option<int>, dataAtendimento: Option<string>,
    veiculo: Option<Vehicle>, itens: seq<RawItem>)

  datatype BateriaRef = BateriaRef(modelo: Option<string>, codigo: Option<string>)

  /** A warranty item, as the dashboard returns it or as it is derived. */
  datatype WarrantyItem = WarrantyItem(
    idItem: Option<int>, idBateria: Option<int>, codigo: Option<string>, modelo: Option<string>,
    garantiaMeses: Option<int>, garantiaRestanteMeses: Option<Number>, purchaseDate: Option<string>,
    daysRemaining: Option<Whole>, idAtendimento: Option<int>, atendimentoId: Option<int>,
    bateria: Option<BateriaRef>, veiculo: Option<Vehicle>)

  // ---- days, months and the end of a warranty --------------------------------

  /** `new Date(purchase)` copied and advanced with
      `end.setMonth(end.getMonth() + months)`, as a time value.  The day of
      month is kept, so a day past the end of the target month rolls into
      the month after it. */
  function WarrantyEnd(parse: string -> Option<CivilDate>, purchase: string, months: int): (t: Whole)
    ensures parse(purchase).None? ==> t.NotANumber?
    ensures parse(purchase).Some? ==>
      var p := parse(purchase).value;
      t.Int? && t.n == DayNumber(p.year + (p.month + months) / 12, (p.month + months) % 12, p.day) * MS_PER_DAY + p.msOfDay
  {
    match parse(purchase)
    case None => NotANumber
    case Some(p) => Int(TimeValue(SetMonth(p, p.month + months)))
  }

  /** `Math.ceil((end - now) / 86400000)`. */
  function DaysLeft(end: Whole, now: int): (d: Whole)
    ensures end.Int? <==> d.Int?
    ensures end.Int? ==> MS_PER_DAY * (d.n - 1) < end.n - now <= MS_PER_DAY * d.n
  {
    match end
    case Int(t) => Int(DaysUntil(t, now))
    case NotANumber => NotANumber
  }

  /** `Math.round(meses * 30)`. */
  function DaysOfMonths(meses: Number): (d: Whole)
    ensures meses.Finite? <==> d.Int?
    ensures meses.Finite? ==> d.n as real - 0.5 <= meses.r * 30.0 < d.n as real + 0.5
  {
    match meses
    case Finite(r) => Int(Round(r * 30.0))
    case NaN => NotANumber
  }

  /** `Math.max(0, Math.floor(days / 30))`: whole months of 30 days, never negative. */
  function MonthsOf(days: Whole): (m: Whole)
    ensures days.Int? <==> m.Int?
    ensures days.Int? ==> m.n >= 0
    ensures days.Int? && days.n >= 0 ==> 30 * m.n <= days.n < 30 * m.n + 30
    ensures days.Int? && days.n < 30 ==> m.n == 0
  {
    match days
    case Int(d) => Int(if d < 0 then 0 else d / 30)
    case NotANumber => NotANumber
  }

  /** `new Date(now + days * 86400000)` as a time value. */
  function AfterDays(now: int, days: Whole): (t: Whole)
    ensures days.Int? <==> t.Int?
    ensures days.Int? ==> t.n - now == days.n * MS_PER_DAY
  {
    match days
    case Int(d) => Int(now + d * MS_PER_DAY)
    case NotANumber => NotANumber
  }

  /** `x && …` for a string: only the empty string is falsy. */
  predicate Present(s: Option<string>) {
    s.Some? && s.value != []
  }

  // ---- deriving warranty items from atendimentos -----------------------------------

  /** The warranty months of an item: its battery's, else its own. */
  function GarantiaMeses(item: RawItem): (gm: Option<int>)
    ensures item.bateria.Some? && item.bateria.value.garantiaMeses.Some? ==> gm == item.bateria.value.garantiaMeses
    ensures (item.bateria.None? || item.bateria.value.garantiaMeses.None?) ==> gm == item.garantiaMeses
  {
    if item.bateria.Some? && item.bateria.value.garantiaMeses.Some? then item.bateria.value.garantiaMeses
    else item.garantiaMeses
  }

  /** The remaining days of a derived item: from the months left when they
      are given, else from the purchase date and the warranty months. */
  function DerivedDays(a: RawAtendimento, item: RawItem, parse: string -> Option<CivilDate>, now: int): (d: Option<Whole>)
    ensures d.Some? <==> item.garantiaRestanteMeses.Some? || (Present(Coalesce(item.createdAt, a.dataAtendimento)) && GarantiaMeses(item).Some?)
  {
    var purchase := Coalesce(item.createdAt, a.dataAtendimento);
    var gm := GarantiaMeses(item);
    if item.garantiaRestanteMeses.Some? then Some(DaysOfMonths(item.garantiaRestanteMeses.value))
    else if Present(purchase) && gm.Some? then Some(DaysLeft(WarrantyEnd(parse, purchase.value, gm.value), now))
    else None
  }

  /** `Number` of a whole: the months as a number. */
  function AsNumber(w: Whole): (r: Number)
    ensures w.Int? <==> r.Finite?
    ensures w.Int? ==> r.r == w.n as real
  {
    if w.Int? then Finite(w.n as real) else NaN
  }

  /** The warranty item derived from one sale item of atendimento `a`. */
  function DeriveItem(a: RawAtendimento, item: RawItem, parse: string -> Option<CivilDate>, now: int): (w: WarrantyItem)
    ensures w.garantiaMeses == GarantiaMeses(item)
    ensures w.purchaseDate == (if item.createdAt.Some? then item.createdAt else a.dataAtendimento)
    ensures w.daysRemaining == DerivedDays(a, item, parse, now)
    ensures item.garantiaRestanteMeses.Some? ==> w.garantiaRestanteMeses == item.garantiaRestanteMeses
    ensures w.garantiaRestanteMeses.Some? <==> w.daysRemaining.Some?
    ensures w.idAtendimento == w.atendimentoId == (if a.id.Some? then a.id else a.idAtendimento)
    ensures w.idItem == (if item.idItem.Some? then item.idItem else item.id)
    ensures item.bateria.Some? ==> w.codigo == item.bateria.value.codigo && w.modelo == item.bateria.value.modelo
    ensures item.bateria.None? ==> w.codigo == item.codigo && w.modelo == item.modelo
    ensures w.veiculo == a.veiculo
  {
    var days := DerivedDays(a, item, parse, now);
    var atendimentoId := Coalesce(a.id, a.idAtendimento);
    WarrantyItem(
      idItem := Coalesce(item.idItem, item.id),
      idBateria := item.idBateria,
      codigo := if item.bateria.Some? then item.bateria.value.codigo else item.codigo,
      modelo := if item.bateria.Some? then item.bateria.value.modelo else item.modelo,
      garantiaMeses := GarantiaMeses(item),
      garantiaRestanteMeses :=
        if item.garantiaRestanteMeses.Some? then item.garantiaRestanteMeses
        else if days.Some? then Some(AsNumber(MonthsOf(days.value)))
        else None,
      purchaseDate := Coalesce(item.createdAt, a.dataAtendimento),
      daysRemaining := days,
      idAtendimento := atendimentoId,
      atendimentoId := atendimentoId,
      bateria := if item.bateria.Some? then Some(BateriaRef(item.bateria.value.modelo, item.bateria.value.codigo)) else None,
      veiculo := a.veiculo)
  }

  /** The items of one atendimento, in order. */
  function DeriveFrom(a: RawAtendimento, parse: string -> Option<CivilDate>, now: int): (ws: seq<WarrantyItem>)
    ensures |ws| == |a.itens|
    ensures forall j | 0 <= j < |a.itens| :: ws[j] == DeriveItem(a, a.itens[j], parse, now)
  {
    seq(|a.itens|, j requires 0 <= j < |a.itens| => DeriveItem(a, a.itens[j], parse, now))
  }

  function ItemCount(atendimentos: seq<RawAtendimento>): nat {
    if atendimentos == [] then 0
    else ItemCount(atendimentos[..|atendimentos| - 1]) + |atendimentos[|atendimentos| - 1].itens|
  }

  /** Every item of every atendimento, atendimento by atendimento. */
  function DeriveAll(atendimentos: seq<RawAtendimento>, parse: string -> Option<CivilDate>, now: int): (ws: seq<WarrantyItem>)
    ensures |ws| == ItemCount(atendimentos)
  {
    if atendimentos == [] then []
    else DeriveAll(atendimentos[..|atendimentos| - 1], parse, now) + DeriveFrom(atendimentos[|atendimentos| - 1], parse, now)
  }

  /** The derivation loop of the page's `load`: one warranty item pushed per
      sale item of each atendimento. */
  method DeriveWarrantyItems(atendimentos: seq<RawAtendimento>, parse: string -> Option<CivilDate>, now: int)
    returns (processed: seq<WarrantyItem>)
    ensures processed == DeriveAll(atendimentos, parse, now)
    ensures |processed| == ItemCount(atendimentos)
  {
    processed := [];
    var i := 0;
    while i < |atendimentos|
      invariant 0 <= i <= |atendimentos|
      invariant processed == DeriveAll(atendimentos[..i], parse, now)
    {
      var a := atendimentos[i];
      var j := 0;
      while j < |a.itens|
        invariant 0 <= j <= |a.itens|
        invariant processed == DeriveAll(atendimentos[..i], parse, now) + DeriveFrom(a, parse, now)[..j]
      {
        processed := processed + [DeriveItem(a, a.itens[j], parse, now)];
        j := j + 1;
      }
      assert DeriveFrom(a, parse, now)[..j] == DeriveFrom(a, parse, now);
      assert atendimentos[..i + 1][..i] == atendimentos[..i];
      i := i + 1;
    }
    assert atendimentos[..i] == atendimentos;
  }

  /** The warranty items shown after a load: the dashboard's list when it
      sends one, so an empty list clears what was shown, else the ones shown
      before; derived ones replace an empty or missing list when there are
      atendimentos and at least one of them has items. */
  function LoadedWarrantyItems(previous: seq<WarrantyItem>, dashItems: Option<seq<WarrantyItem>>,
                               atendimentos: Option<seq<RawAtendimento>>,
                               parse: string -> Option<CivilDate>, now: int): (ws: seq<WarrantyItem>)
    ensures dashItems.Some? && dashItems.value != [] ==> ws == dashItems.value
    ensures dashItems.None? && (atendimentos.None? || ItemCount(atendimentos.value) == 0) ==> ws == previous
    ensures dashItems == Some([]) && (atendimentos.None? || ItemCount(atendimentos.value) == 0) ==> ws == []
    ensures (dashItems.None? || dashItems.value == []) && atendimentos.Some? && ItemCount(atendimentos.value) > 0 ==>
      ws == DeriveAll(atendimentos.value, parse, now)
  {
    var shown := if dashItems.Some? then dashItems.value else previous;
    if (dashItems.None? || dashItems.value == []) && atendimentos.Some? && |atendimentos.value| > 0 then
      var processed := DeriveAll(atendimentos.value, parse, now);
      if |processed| > 0 then processed else shown
    else shown
  }

  // ---- normalisation -----------------------------------------------------------

  /** A warranty item with its remaining days and months and its expiry time
      (`daysRemaining`, `monthsRemaining`, `expiryTimestamp`); `None` is null. */
  datatype Normalized = Normalized(w: WarrantyItem, days: Option<Whole>, months: Option<Whole>, expiry: Option<Whole>)

  /** The normalisation of the page: days from `days_remaining`, else from
      `garantia_restante_meses`, else from the purchase date and the warranty
      months, else unknown. */
  function Normalize(w: WarrantyItem, parse: string -> Option<CivilDate>, now: int): (r: Normalized)
    ensures r.w == w
    ensures r.days.None? <==> r.months.None?
    ensures r.days.None? <==> r.expiry.None?
    ensures r.days.Some? ==> r.months == Some(MonthsOf(r.days.value))
    ensures r.months.Some? && r.months.value.Int? ==> r.months.value.n >= 0
    ensures r.days.Some? && r.days.value.Int? && r.expiry.value.Int? ==>
      MS_PER_DAY * (r.days.value.n - 1) < r.expiry.value.n - now <= MS_PER_DAY * r.days.value.n
  {
    var (days, expiry) :=
      if w.daysRemaining.Some? then
        (w.daysRemaining, Some(AfterDays(now, w.daysRemaining.value)))
      else if w.garantiaRestanteMeses.Some? then
        var d := DaysOfMonths(w.garantiaRestanteMeses.value);
        (Some(d), Some(AfterDays(now, d)))
      else if Present(w.purchaseDate) && w.garantiaMeses.Some? then
        var end := WarrantyEnd(parse, w.purchaseDate.value, w.garantiaMeses.value);
        (Some(DaysLeft(end, now)), Some(end))
      else (None, None);
    Normalized(w, days, if days.Some? then Some(MonthsOf(days.value)) else None, expiry)
  }

  /** The order in which the fields are consulted. */
  lemma NormalizePriority(w: WarrantyItem, parse: string -> Option<CivilDate>, now: int)
    ensures w.daysRemaining.Some? ==> Normalize(w, parse, now).days == w.daysRemaining
    ensures w.daysRemaining.None? && w.garantiaRestanteMeses.Some? ==>
      Normalize(w, parse, now).days == Some(DaysOfMonths(w.garantiaRestanteMeses.value))
    ensures w.daysRemaining.None? && w.garantiaRestanteMeses.None? && Present(w.purchaseDate) && w.garantiaMeses.Some? ==>
      Normalize(w, parse, now).expiry == Some(WarrantyEnd(parse, w.purchaseDate.value, w.garantiaMeses.value))
    ensures Normalize(w, parse, now).days.None? <==>
      w.daysRemaining.None? && w.garantiaRestanteMeses.None? && !(Present(w.purchaseDate) && w.garantiaMeses.Some?)
  {
  }

  /** The hint branches put the expiry a whole number of days after `now`. */
  lemma HintExpiry(w: WarrantyItem, parse: string -> Option<CivilDate>, now: int)
    requires w.daysRemaining.Some? || w.garantiaRestanteMeses.Some?
    ensures var r := Normalize(w, parse, now);
      r.days.Some? && r.expiry.Some? && (r.days.value.Int? <==> r.expiry.value.Int?) &&
      (r.days.value.Int? ==> r.expiry.value.n == now + r.days.value.n * MS_PER_DAY)
  {
  }

  /** For a derived item, normalising on the same clock gives back the days
      that the derivation computed. */
  lemma NormalizeDerived(a: RawAtendimento, item: RawItem, parse: string -> Option<CivilDate>, now: int)
    ensures Normalize(DeriveItem(a, item, parse, now), parse, now).days == DeriveItem(a, item, parse, now).daysRemaining
  {
  }

  function NormalizeAll(ws: seq<WarrantyItem>, parse: string -> Option<CivilDate>, now: int): (ns: seq<Normalized>)
    ensures |ns| == |ws|
    ensures forall i | 0 <= i < |ws| :: ns[i].w == ws[i]
  {
    seq(|ws|, i requires 0 <= i < |ws| => Normalize(ws[i], parse, now))
  }

  // ---- client status ---------------------------------------------------------------

  datatype Status = Active | AtRisk | Dormant

  /** The status shown for the summary's status text. */
  function ClientStatus(s: Option<string>): (r: Status)
    ensures r == Active <==> s.Some? && AsciiLower(s.value) == "ativo"
    ensures r == AtRisk <==> s.Some? && (s.value == "at-risk" || s.value == "em risco" || s.value == "risco")
  {
    assert AsciiLower("ativo") == "ativo";
    assert AsciiLower("risco") != "ativo" by { assert AsciiLower("risco")[0] == 'r'; }
    if s.Some? && (s.value == "ativo" || AsciiLower(s.value) == "ativo") then Active
    else if s.Some? && (s.value == "at-risk" || s.value == "em risco" || s.value == "risco") then AtRisk
    else Dormant
  }

  /** The active status is read without regard to case; the at-risk
      spellings are compared as they are, so a capitalised one is dormant. */
  lemma StatusIgnoresCase()
    ensures ClientStatus(Some("ATIVO")) == Active && ClientStatus(Some("Ativo")) == Active
    ensures ClientStatus(Some("Em Risco")) == Dormant
    ensures ClientStatus(None) == Dormant
  {
    ActiveSpelling("ATIVO");
    ActiveSpelling("Ativo");
    CapitalisedRiskDormant();
  }

  lemma ActiveSpelling(s: string)
    requires s == "ATIVO" || s == "Ativo"
    ensures ClientStatus(Some(s)) == Active
  {
    assert AsciiLower(s) == "ativo";
  }

  lemma CapitalisedRiskDormant()
    ensures ClientStatus(Some("Em Risco")) == Dormant
  {
    var s := "Em Risco";
    assert |AsciiLower(s)| == 8;
    assert s[0] != "em risco"[0];
  }

  // ---- value of what was sold ---------------------------------------------------

  /** A sale item's money fields, as they arrive. */
  datatype SoldItem = SoldItem(valorTotal: Js, valorUnitario: Js, quantidade: Js)

  /** `Number(valor_total ?? (valor_unitario ? Number(valor_unitario) * Number(quantidade ?? 1) : 0)) || 0` */
  function ItemValue(it: SoldItem): (v: real)
    ensures !Nullish(it.valorTotal) ==> v == OrZero(ToNumber(it.valorTotal))
    ensures Nullish(it.valorTotal) && !Truthy(it.valorUnitario) ==> v == 0.0
    ensures Nullish(it.valorTotal) && Truthy(it.valorUnitario) ==>
      v == OrZero(Mul(ToNumber(it.valorUnitario), ToNumber(OrElse(it.quantidade, Num(Finite(1.0))))))
    ensures Nullish(it.valorTotal) && Nullish(it.quantidade) && it.valorUnitario.Num? && it.valorUnitario.n.Finite?
      ==> v == it.valorUnitario.n.r
  {
    var total :=
      if !Nullish(it.valorTotal) then it.valorTotal
      else if Truthy(it.valorUnitario) then Num(Mul(ToNumber(it.valorUnitario), ToNumber(OrElse(it.quantidade, Num(Finite(1.0))))))
      else Num(Finite(0.0));
    OrZero(ToNumber(total))
  }

  function ItemsValue(items: seq<SoldItem>): real {
    if items == [] then 0.0 else ItemsValue(items[..|items| - 1]) + ItemValue(items[|items| - 1])
  }

  /** The items of an atendimento; `itens ?? []`. */
  function TotalValue(itemsOf: seq<Option<seq<SoldItem>>>): real {
    if itemsOf == [] then 0.0
    else TotalValue(itemsOf[..|itemsOf| - 1]) + ItemsValue(itemsOf[|itemsOf| - 1].GetOr([]))
  }

  /** The total of several lists is the sum of their totals. */
  lemma {:induction false} ItemsValueAppend(a: seq<SoldItem>, b: seq<SoldItem>)
    ensures ItemsValue(a + b) == ItemsValue(a) + ItemsValue(b)
    decreases |b|
  {
    if b == [] {
      assert a + b == a;
    } else {
      assert (a + b)[..|a + b| - 1] == a + b[..|b| - 1];
      ItemsValueAppend(a, b[..|b| - 1]);
    }
  }

  lemma {:induction false} TotalValueAppend(a: seq<Option<seq<SoldItem>>>, b: seq<Option<seq<SoldItem>>>)
    ensures TotalValue(a + b) == TotalValue(a) + TotalValue(b)
    decreases |b|
  {
    if b == [] {
      assert a + b == a;
    } else {
      assert (a + b)[..|a + b| - 1] == a + b[..|b| - 1];
      TotalValueAppend(a, b[..|b| - 1]);
    }
  }

  /** Items whose values are all non-negative add up to a non-negative total,
      and unreadable values count as nothing. */
  lemma {:induction false} ItemsValueNonNegative(items: seq<SoldItem>)
    requires forall i | 0 <= i < |items| :: ItemValue(items[i]) >= 0.0
    ensures ItemsValue(items) >= 0.0
    decreases |items|
  {
    if items != [] {
      ItemsValueNonNegative(items[..|items| - 1]);
    }
  }

  /** An atendimento without items adds nothing. */
  lemma NoItemsNoValue(itemsOf: seq<Option<seq<SoldItem>>>)
    ensures TotalValue(itemsOf + [None]) == TotalValue(itemsOf)
    ensures TotalValue(itemsOf + [Some([])]) == TotalValue(itemsOf)
  {
    assert (itemsOf + [None])[..|itemsOf|] == itemsOf;
    assert (itemsOf + [Some([])])[..|itemsOf|] == itemsOf;
  }
}
