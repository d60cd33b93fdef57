/** The finance dashboard: totals of the accounts receivable and payable,
    the part of them already settled, the cash-flow balance, the pending
    counts, the settled percentages and the "quebras" difference between
    the cash flow and the accounts, all computed from the lists the page
    fetched. */
module Financeiro {
  import opened Wrappers
  import opened Json
  import JsValues

  type Number = JsValues.Number

  /** `Number(c.valor)`. */
  function Valor(c: Js): Number {
    ToNumber(Get(c, "valor"))
  }

  /** `list.reduce((sum, c) => sum + Number(c.valor), 0)`: summed from the
      left, NaN as soon as one value is not a number. */
  function Total(cs: seq<Js>): (t: Number)
    ensures t.Finite? <==> forall k | 0 <= k < |cs| :: Valor(cs[k]).Finite?
    ensures cs == [] ==> t == JsValues.Finite(0.0)
    decreases |cs|
  {
    if cs == [] then JsValues.Finite(0.0)
    else
      var init := cs[..|cs| - 1];
      assert forall k | 0 <= k < |init| :: init[k] == cs[k];
      var sum, v := Total(init), Valor(cs[|cs| - 1]);
      if sum.Finite? && v.Finite? then JsValues.Finite(sum.r + v.r) else JsValues.NaN
  }

  /** `list.filter(c => c[key] === value)` when `keep`, and the complement
      `c[key] !== value` otherwise. */
  function Filter(cs: seq<Js>, key: string, value: string, keep: bool): (r: seq<Js>)
    ensures |r| <= |cs|
    ensures forall c | c in r :: c in cs && (Get(c, key) == Str(value)) == keep
    ensures forall c | c in cs && (Get(c, key) == Str(value)) == keep :: c in r
    decreases |cs|
  {
    if cs == [] then []
    else
      var last := cs[|cs| - 1];
      Filter(cs[..|cs| - 1], key, value, keep) + (if (Get(last, key) == Str(value)) == keep then [last] else [])
  }

  predicate Money(cs: seq<Js>) {
    forall k | 0 <= k < |cs| :: Valor(cs[k]).Finite? && Valor(cs[k]).r >= 0.0
  }

  /** Money on the accounts adds up to a number of its own, never negative. */
  lemma {:induction false} TotalOfMoney(cs: seq<Js>)
    requires Money(cs)
    ensures Total(cs).Finite? && Total(cs).r >= 0.0
    decreases |cs|
  {
    if cs != [] {
      var init := cs[..|cs| - 1];
      assert Money(init) by {
        forall k | 0 <= k < |init| ensures Valor(init[k]).Finite? && Valor(init[k]).r >= 0.0 {
          assert init[k] == cs[k];
        }
      }
      TotalOfMoney(init);
    }
  }

  /** Splitting the accounts by one key's value splits their total: what
      is kept plus what is left out is the whole amount, and the counts add
      up to the number of accounts. */
  lemma {:induction false} FilterSplitsTotal(cs: seq<Js>, key: string, value: string)
    requires Money(cs)
    ensures |Filter(cs, key, value, true)| + |Filter(cs, key, value, false)| == |cs|
    ensures Money(Filter(cs, key, value, true)) && Money(Filter(cs, key, value, false))
    ensures Total(Filter(cs, key, value, true)).Finite? && Total(Filter(cs, key, value, false)).Finite? && Total(cs).Finite?
      && Total(Filter(cs, key, value, true)).r + Total(Filter(cs, key, value, false)).r == Total(cs).r
    decreases |cs|
  {
    var kept, dropped := Filter(cs, key, value, true), Filter(cs, key, value, false);
    if cs == [] {
      assert kept == [] && dropped == [];
    } else {
      var init, last := cs[..|cs| - 1], cs[|cs| - 1];
      assert Money(init) by {
        forall k | 0 <= k < |init| ensures Valor(init[k]).Finite? && Valor(init[k]).r >= 0.0 {
          assert init[k] == cs[k];
        }
      }
      FilterSplitsTotal(init, key, value);
      var k0, d0 := Filter(init, key, value, true), Filter(init, key, value, false);
      TotalOfMoney(cs);
      TotalOfMoney(init);
      assert Valor(last).Finite? && Valor(last).r >= 0.0 by {
        assert last == cs[|cs| - 1];
      }
      forall c | c in kept ensures c in cs {}
      forall c | c in dropped ensures c in cs {}
      MoneyOfMembers(cs, kept);
      MoneyOfMembers(cs, dropped);
      TotalOfMoney(kept);
      TotalOfMoney(dropped);
      if Get(last, key) == Str(value) {
        assert kept == k0 + [last] && dropped == d0;
        assert (k0 + [last])[..|k0 + [last]| - 1] == k0;
      } else {
        assert kept == k0 && dropped == d0 + [last];
        assert (d0 + [last])[..|d0 + [last]| - 1] == d0;
      }
    }
  }

  /** A list made of accounts carrying money carries money. */
  lemma MoneyOfMembers(cs: seq<Js>, sub: seq<Js>)
    requires Money(cs)
    requires forall c | c in sub :: c in cs
    ensures Money(sub)
  {
    forall k | 0 <= k < |sub| ensures Valor(sub[k]).Finite? && Valor(sub[k]).r >= 0.0 {
      assert sub[k] in cs;
      var j :| 0 <= j < |cs| && cs[j] == sub[k];
    }
  }

  // ---- the dashboard ------------------------------------------------------------

  /** What the dashboard shows. */
  datatype Summary = Summary(
    totalReceber: Number, totalPagar: Number,
    recebido: Number, pago: Number,
    entrada: Number, saida: Number,
    lucro: Number,
    pendentesReceber: nat, pendentesPagar: nat)

  /** `x - y` on numbers: NaN absorbs. */
  function Sub(a: Number, b: Number): (c: Number)
    ensures c.Finite? <==> a.Finite? && b.Finite?
    ensures c.Finite? ==> c.r == a.r - b.r
  {
    if a.Finite? && b.Finite? then JsValues.Finite(a.r - b.r) else JsValues.NaN
  }

  /** The calculations above the page's markup. */
  function Summarise(receber: seq<Js>, pagar: seq<Js>, fluxo: seq<Js>): (s: Summary)
    ensures s.totalReceber == Total(receber) && s.totalPagar == Total(pagar)
    ensures s.recebido == Total(Filter(receber, "status", "pago", true))
    ensures s.pago == Total(Filter(pagar, "status", "pago", true))
    ensures s.entrada == Total(Filter(fluxo, "tipo", "entrada", true))
    ensures s.saida == Total(Filter(fluxo, "tipo", "saida", true))
    ensures s.lucro == Sub(s.entrada, s.saida)
    ensures s.pendentesReceber == |Filter(receber, "status", "pendente", true)|
    ensures s.pendentesPagar == |Filter(pagar, "status", "pendente", true)|
  {
    var entrada := Total(Filter(fluxo, "tipo", "entrada", true));
    var saida := Total(Filter(fluxo, "tipo", "saida", true));
    Summary(Total(receber), Total(pagar),
            Total(Filter(receber, "status", "pago", true)), Total(Filter(pagar, "status", "pago", true)),
            entrada, saida, Sub(entrada, saida),
            |Filter(receber, "status", "pendente", true)|, |Filter(pagar, "status", "pendente", true)|)
  }

  /** The pending amount shown, `total - recebido`, is the money of the
      accounts not marked `'pago'`, so with non-negative values it is never
      negative and the settled part never exceeds the total. */
  lemma PendingIsUnsettled(cs: seq<Js>)
    requires Money(cs)
    ensures Sub(Total(cs), Total(Filter(cs, "status", "pago", true))) == Total(Filter(cs, "status", "pago", false))
    ensures Total(cs).Finite? && Total(Filter(cs, "status", "pago", true)).Finite?
      && 0.0 <= Total(Filter(cs, "status", "pago", true)).r <= Total(cs).r
  {
    FilterSplitsTotal(cs, "status", "pago");
    TotalOfMoney(Filter(cs, "status", "pago", false));
    TotalOfMoney(Filter(cs, "status", "pago", true));
    TotalOfMoney(cs);
  }

  /** With money on every movement the profit, which the balance card shows
      as well, is a number, and it is shown in blue (non-negative) exactly
      when the inflow is at least the outflow. */
  lemma LucroSign(receber: seq<Js>, pagar: seq<Js>, fluxo: seq<Js>)
    requires Money(fluxo)
    ensures var s := Summarise(receber, pagar, fluxo);
      s.lucro.Finite? && s.entrada.Finite? && s.saida.Finite? && s.entrada.r >= 0.0 && s.saida.r >= 0.0 &&
      (s.lucro.r >= 0.0 <==> s.entrada.r >= s.saida.r)
  {
    MoneyOfMembers(fluxo, Filter(fluxo, "tipo", "entrada", true));
    MoneyOfMembers(fluxo, Filter(fluxo, "tipo", "saida", true));
    TotalOfMoney(Filter(fluxo, "tipo", "entrada", true));
    TotalOfMoney(Filter(fluxo, "tipo", "saida", true));
  }

  /** An account is counted as pending only when its status is exactly
      `'pendente'`, so the pending and the settled counts together never
      exceed the number of accounts; other statuses are in neither. */
  lemma {:induction false} CountsBounded(cs: seq<Js>)
    ensures |Filter(cs, "status", "pendente", true)| + |Filter(cs, "status", "pago", true)| <= |cs|
    decreases |cs|
  {
    if cs != [] {
      CountsBounded(cs[..|cs| - 1]);
    }
  }

  /** `total > 0 ? (part / total) * 100 : 0`: a NaN or non-positive total
      gives 0. */
  function Percentage(part: Number, total: Number): (p: Number)
    ensures !(total.Finite? && total.r > 0.0) ==> p == JsValues.Finite(0.0)
    ensures total.Finite? && total.r > 0.0 ==> (p.Finite? <==> part.Finite?)
    ensures total.Finite? && total.r > 0.0 && part.Finite? ==> p == JsValues.Finite(part.r / total.r * 100.0)
    ensures total.Finite? && total.r > 0.0 && part.Finite? && 0.0 <= part.r <= total.r ==>
      0.0 <= p.r <= 100.0
    ensures total.Finite? && total.r > 0.0 && part.Finite? && part.r == total.r ==> p.r == 100.0
  {
    if total.Finite? && total.r > 0.0 then
      if part.Finite? then
        RatioBound(part.r, total.r);
        JsValues.Finite((part.r / total.r) * 100.0)
      else JsValues.NaN
    else JsValues.Finite(0.0)
  }

  /** A part within a positive whole is between 0 and 100 percent of it. */
  lemma RatioBound(part: real, total: real)
    requires total > 0.0
    ensures 0.0 <= part <= total ==> 0.0 <= (part / total) * 100.0 <= 100.0
  {
    if 0.0 <= part <= total {
      assert part / total <= 1.0 by {
        assert (part / total) * total == part;
      }
    }
  }

  /** The settled percentage of a list of accounts lies between 0 and 100. */
  lemma SettledPercentage(cs: seq<Js>)
    requires Money(cs)
    ensures var p := Percentage(Total(Filter(cs, "status", "pago", true)), Total(cs));
      p.Finite? && 0.0 <= p.r <= 100.0
  {
    PendingIsUnsettled(cs);
  }

  /** `Math.abs(x)` on numbers. */
  function Abs(n: Number): (a: Number)
    ensures a.Finite? <==> n.Finite?
    ensures a.Finite? ==> a.r >= 0.0 && (a.r == n.r || a.r == -n.r)
  {
    if n.Finite? then JsValues.Finite(if n.r < 0.0 then -n.r else n.r) else JsValues.NaN
  }

  /** "Possíveis quebras": the absolute difference between the cash flow
      moved and the accounts' totals, or 0 without cash flow or without
      accounts. */
  function Quebras(receber: seq<Js>, pagar: seq<Js>, fluxo: seq<Js>): (q: Number)
    ensures fluxo == [] || (receber == [] && pagar == []) ==> q == JsValues.Finite(0.0)
    ensures q.Finite? ==> q.r >= 0.0
  {
    var s := Summarise(receber, pagar, fluxo);
    Abs(if |fluxo| > 0 && |receber| + |pagar| > 0
        then Sub(JsValues.Add(s.entrada, s.saida), JsValues.Add(s.totalReceber, s.totalPagar))
        else JsValues.Finite(0.0))
  }

  /** With cash flow and at least one account, the flag is the absolute
      difference between the flow moved and the accounts' totals, and it is
      a number exactly when all four sums are. */
  lemma QuebrasValue(receber: seq<Js>, pagar: seq<Js>, fluxo: seq<Js>)
    requires |fluxo| > 0 && |receber| + |pagar| > 0
    ensures var s := Summarise(receber, pagar, fluxo);
      Quebras(receber, pagar, fluxo).Finite? <==>
        s.entrada.Finite? && s.saida.Finite? && s.totalReceber.Finite? && s.totalPagar.Finite?
    ensures var s := Summarise(receber, pagar, fluxo);
      s.entrada.Finite? && s.saida.Finite? && s.totalReceber.Finite? && s.totalPagar.Finite? ==>
        var d := (s.entrada.r + s.saida.r) - (s.totalReceber.r + s.totalPagar.r);
        Quebras(receber, pagar, fluxo) == JsValues.Finite(if d < 0.0 then -d else d)
  {
  }

  /** When every movement of the cash flow has its account, same amounts in
      and out, nothing is flagged. */
  lemma QuebrasWhenBalanced(receber: seq<Js>, pagar: seq<Js>, fluxo: seq<Js>)
    requires var s := Summarise(receber, pagar, fluxo);
      JsValues.Add(s.entrada, s.saida).Finite? && JsValues.Add(s.entrada, s.saida) == JsValues.Add(s.totalReceber, s.totalPagar)
    ensures Quebras(receber, pagar, fluxo) == JsValues.Finite(0.0)
  {
  }

  /** A row offers its Receber/Pagar button unless its status is `'pago'`:
      the rows with a button and the settled rows split the list. */
  function WithAction(cs: seq<Js>): (r: seq<Js>)
    ensures forall c | c in r :: c in cs && Get(c, "status") != Str("pago")
    ensures forall c | c in cs && Get(c, "status") != Str("pago") :: c in r
  {
    Filter(cs, "status", "pago", false)
  }

  lemma {:induction false} ActionsAndSettledSplit(cs: seq<Js>)
    ensures |WithAction(cs)| + |Filter(cs, "status", "pago", true)| == |cs|
    decreases |cs|
  {
    if cs != [] {
      ActionsAndSettledSplit(cs[..|cs| - 1]);
    }
  }

  // ---- loading --------------------------------------------------------------------

  /** `r.value || []` for a fulfilled request: a list as it is, a falsy
      answer as an empty list; `None` for an answer the page cannot sum. */
  function ListOrEmpty(v: Js): (r: Option<seq<Js>>)
    ensures v.Arr? ==> r == Some(v.items)
    ensures !Truthy(v) ==> r == Some([])
    ensures Truthy(v) && !v.Arr? ==> r.None?
  {
    if v.Arr? then Some(v.items) else if !Truthy(v) then Some([]) else None
  }

  /** `err.response?.data?.message || err.message || 'Erro ao carregar
      dados financeiros'`: falsy messages fall through. */
  function LoadError(err: Js): (m: Js)
    ensures Truthy(m)
    ensures Truthy(Get(Get(Get(err, "response"), "data"), "message")) ==> m == Get(Get(Get(err, "response"), "data"), "message")
    ensures !Truthy(Get(Get(Get(err, "response"), "data"), "message")) && Truthy(Get(err, "message")) ==> m == Get(err, "message")
    ensures !Truthy(Get(Get(Get(err, "response"), "data"), "message")) && !Truthy(Get(err, "message")) ==>
      m == Str("Erro ao carregar dados financeiros")
  {
    var server := Get(Get(Get(err, "response"), "data"), "message");
    if Truthy(server) then server
    else if Truthy(Get(err, "message")) then Get(err, "message")
    else Str("Erro ao carregar dados financeiros")
  }

  /** The alert of a failed Receber or Pagar click,
      `e?.response?.data?.message ?? e?.message ?? default`: only `null` and
      `undefined` fall through here. */
  function SettleError(err: Js, receber: bool): (m: Js)
    ensures !Nullish(Get(Get(Get(err, "response"), "data"), "message")) ==> m == Get(Get(Get(err, "response"), "data"), "message")
    ensures Nullish(Get(Get(Get(err, "response"), "data"), "message")) && !Nullish(Get(err, "message")) ==> m == Get(err, "message")
    ensures Nullish(Get(Get(Get(err, "response"), "data"), "message")) && Nullish(Get(err, "message")) ==>
      m == Str(if receber then "Erro ao receber conta" else "Erro ao pagar conta")
  {
    OrElse(OrElse(Get(Get(Get(err, "response"), "data"), "message"), Get(err, "message")),
           Str(if receber then "Erro ao receber conta" else "Erro ao pagar conta"))
  }

  /** The two error paths differ on an empty server message: the load error
      skips it for the error's own message, the settle alert shows it. */
  lemma EmptyServerMessage(own: string, receber: bool)
    requires own != ""
    ensures var err := Obj(map["response" := Obj(map["data" := Obj(map["message" := Str("")])]), "message" := Str(own)]);
      LoadError(err) == Str(own) && SettleError(err, receber) == Str("")
  {
    var err := Obj(map["response" := Obj(map["data" := Obj(map["message" := Str("")])]), "message" := Str(own)]);
    assert Get(Get(Get(err, "response"), "data"), "message") == Str("");
    assert Get(err, "message") == Str(own);
  }
}
