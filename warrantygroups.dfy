/** What the client detail page does with its normalised warranty items:
    groups them by vehicle, splits the groups into those with a warranty
    still running and those whose warranties are over, orders groups and
    items by earliest expiry, and exports the items as comma-separated
    text. */
module WarrantyGroups {
  import opened Wrappers
  import opened JsText
  import opened ClienteDetails
  import opened StableSort
  import Csv

  // ---- grouping ----------------------------------------------------------------

  function VehicleId(n: Normalized): Option<int> {
    if n.w.veiculo.Some? then n.w.veiculo.value.idVeiculo else None
  }

  function Placa(n: Normalized): Option<string> {
    if n.w.veiculo.Some? then n.w.veiculo.value.placa else None
  }

  /** The map key of an item: its vehicle id, else its atendimento id, as
      text, else `sem-veiculo`. */
  function GroupKey(n: Normalized): (r: string)
    ensures r == "sem-veiculo" <==> VehicleId(n).None? && Coalesce(n.w.atendimentoId, n.w.idAtendimento).None?
  {
    match VehicleId(n)
    case Some(v) => IntToString(v)
    case None =>
      match Coalesce(n.w.atendimentoId, n.w.idAtendimento)
      case Some(a) => IntToString(a)
      case None => "sem-veiculo"
  }

  /** A map entry: plate and vehicle id as the first item of the group has
      them, and the items in the order they came. */
  datatype Group = Group(placa: Option<string>, idVeiculo: Option<int>, items: seq<Normalized>)

  /** The distinct keys, in the order of their first item. */
  function Keys(ns: seq<Normalized>): (ks: seq<string>)
    ensures forall i, j | 0 <= i < j < |ks| :: ks[i] != ks[j]
  {
    if ns == [] then []
    else
      var ks := Keys(ns[..|ns| - 1]);
      var k := GroupKey(ns[|ns| - 1]);
      if k in ks then ks else ks + [k]
  }

  /** The keys are exactly the keys of the items. */
  lemma {:induction false} KeysOfItems(ns: seq<Normalized>)
    ensures forall i | 0 <= i < |ns| :: GroupKey(ns[i]) in Keys(ns)
    ensures forall k | k in Keys(ns) :: exists i | 0 <= i < |ns| :: GroupKey(ns[i]) == k
    decreases |ns|
  {
    if ns != [] {
      var p := ns[..|ns| - 1];
      KeysOfItems(p);
      assert forall i | 0 <= i < |p| :: p[i] == ns[i];
    }
  }

  /** The items with key `k`, in order. */
  function WithGroupKey(ns: seq<Normalized>, k: string): (r: seq<Normalized>)
    ensures |r| <= |ns|
    ensures forall i | 0 <= i < |r| :: GroupKey(r[i]) == k
  {
    if ns == [] then []
    else WithGroupKey(ns[..|ns| - 1], k) + (if GroupKey(ns[|ns| - 1]) == k then [ns[|ns| - 1]] else [])
  }

  /** The entry the page builds for key `k`. */
  function MakeGroup(ns: seq<Normalized>, k: string): (g: Group)
    ensures g.items == WithGroupKey(ns, k)
  {
    var items := WithGroupKey(ns, k);
    if items == [] then Group(None, None, []) else Group(Placa(items[0]), VehicleId(items[0]), items)
  }

  /** The groups, in the order their keys first appear. */
  function Groups(ns: seq<Normalized>): (gs: seq<Group>)
    ensures |gs| == |Keys(ns)|
  {
    var ks := Keys(ns);
    seq(|ks|, j requires 0 <= j < |ks| => MakeGroup(ns, ks[j]))
  }

  /** A key has a non-empty group exactly when some item carries it. */
  lemma {:induction false} GroupNonEmpty(ns: seq<Normalized>, k: string)
    ensures WithGroupKey(ns, k) != [] <==> k in Keys(ns)
    decreases |ns|
  {
    if ns != [] {
      GroupNonEmpty(ns[..|ns| - 1], k);
    }
  }

  lemma KeysStep(p: seq<Normalized>, n: Normalized)
    ensures Keys(p + [n]) == if GroupKey(n) in Keys(p) then Keys(p) else Keys(p) + [GroupKey(n)]
  {
    assert (p + [n])[..|p|] == p;
  }

  lemma WithGroupKeyStep(p: seq<Normalized>, n: Normalized, k: string)
    ensures WithGroupKey(p + [n], k) == WithGroupKey(p, k) + (if GroupKey(n) == k then [n] else [])
  {
    assert (p + [n])[..|p|] == p;
  }

  /** Adding an item to the end changes only the group of its key: that
      group gains the item at its end, or is created with it. */
  lemma MakeGroupStep(p: seq<Normalized>, n: Normalized, k: string)
    ensures k != GroupKey(n) ==> MakeGroup(p + [n], k) == MakeGroup(p, k)
    ensures k == GroupKey(n) && k in Keys(p) ==>
      MakeGroup(p + [n], k) == MakeGroup(p, k).(items := MakeGroup(p, k).items + [n])
    ensures k == GroupKey(n) && k !in Keys(p) ==> MakeGroup(p + [n], k) == Group(Placa(n), VehicleId(n), [n])
  {
    WithGroupKeyStep(p, n, k);
    GroupNonEmpty(p, k);
    var old_items := WithGroupKey(p, k);
    if old_items != [] {
      assert (old_items + [n])[0] == old_items[0];
    }
  }

  /** The entry of a key after the item `n` was added to it. */
  function AddToEntry(entries: map<string, Group>, n: Normalized): map<string, Group> {
    var key := GroupKey(n);
    var entry := if key in entries then entries[key] else Group(Placa(n), VehicleId(n), []);
    entries[key := entry.(items := entry.items + [n])]
  }

  /** The map holds, for every key met so far, the entry for that key. */
  ghost predicate EntriesOf(entries: map<string, Group>, p: seq<Normalized>) {
    (forall k :: k in entries <==> k in Keys(p)) &&
    forall k | k in entries :: entries[k] == MakeGroup(p, k)
  }

  lemma AddToEntryStep(entries: map<string, Group>, p: seq<Normalized>, n: Normalized)
    requires EntriesOf(entries, p)
    ensures EntriesOf(AddToEntry(entries, n), p + [n])
  {
    KeysStep(p, n);
    var e2 := AddToEntry(entries, n);
    forall k | k in e2 ensures e2[k] == MakeGroup(p + [n], k) {
      MakeGroupStep(p, n, k);
    }
  }

  lemma LoopStep(keys: seq<string>, entries: map<string, Group>, p: seq<Normalized>, n: Normalized)
    requires keys == Keys(p) && EntriesOf(entries, p)
    ensures (if GroupKey(n) in entries then keys else keys + [GroupKey(n)]) == Keys(p + [n])
    ensures EntriesOf(AddToEntry(entries, n), p + [n])
  {
    KeysStep(p, n);
    AddToEntryStep(entries, p, n);
  }

  /** `Array.from(map.values())`: the entries in the order of their keys. */
  function MapValues(keys: seq<string>, entries: map<string, Group>): (gs: seq<Group>)
    requires forall k | k in keys :: k in entries
    ensures |gs| == |keys|
  {
    seq(|keys|, j requires 0 <= j < |keys| => entries[keys[j]])
  }

  lemma ValuesAreGroups(keys: seq<string>, entries: map<string, Group>, ns: seq<Normalized>)
    requires keys == Keys(ns) && EntriesOf(entries, ns)
    ensures forall k | k in keys :: k in entries
    ensures MapValues(keys, entries) == Groups(ns)
  {
  }

  /** The grouping loop of the page: one pass filling a `Map`, whose values
      come out in the order their keys were inserted. */
  method GroupByVehicle(ns: seq<Normalized>) returns (groups: seq<Group>)
    ensures groups == Groups(ns)
  {
    var keys: seq<string> := [];
    var entries: map<string, Group> := map[];
    var i := 0;
    while i < |ns|
      invariant 0 <= i <= |ns|
      invariant keys == Keys(ns[..i])
      invariant EntriesOf(entries, ns[..i])
    {
      var n := ns[i];
      var key := GroupKey(n);
      ghost var p := ns[..i];
      PrefixStep(ns, i);
      LoopStep(keys, entries, p, n);
      if key !in entries {
        keys := keys + [key];
      }
      entries := AddToEntry(entries, n);
      i := i + 1;
    }
    assert ns[..i] == ns;
    groups := MapValues(keys, entries);
    ValuesAreGroups(keys, entries, ns);
  }

  /** Keeping the items of a group in order: grouping the concatenation of
      two lists puts the first list's items first. */
  lemma {:induction false} WithGroupKeyAppend(a: seq<Normalized>, b: seq<Normalized>, k: string)
    ensures WithGroupKey(a + b, k) == WithGroupKey(a, k) + WithGroupKey(b, k)
    decreases |b|
  {
    if b == [] {
      assert a + b == a;
    } else {
      assert (a + b)[..|a + b| - 1] == a + b[..|b| - 1];
      WithGroupKeyAppend(a, b[..|b| - 1], k);
    }
  }

  /** Every item lies in the group of its own key. */
  lemma {:induction false} InOwnGroup(ns: seq<Normalized>, i: int)
    requires 0 <= i < |ns|
    ensures ns[i] in WithGroupKey(ns, GroupKey(ns[i]))
    decreases |ns|
  {
    var p, n := ns[..|ns| - 1], ns[|ns| - 1];
    assert ns == p + [n];
    WithGroupKeyStep(p, n, GroupKey(ns[i]));
    if i < |ns| - 1 {
      assert p[i] == ns[i];
      InOwnGroup(p, i);
    }
  }

  /** Items in the groups of `ks`, counted. */
  function SizeSum(ns: seq<Normalized>, ks: seq<string>): nat {
    if ks == [] then 0 else SizeSum(ns, ks[..|ks| - 1]) + |WithGroupKey(ns, ks[|ks| - 1])|
  }

  lemma {:induction false} SizeSumStep(p: seq<Normalized>, n: Normalized, ks: seq<string>)
    ensures SizeSum(p + [n], ks) == SizeSum(p, ks) + (multiset(ks)[GroupKey(n)])
    decreases |ks|
  {
    if ks != [] {
      var init, last := ks[..|ks| - 1], ks[|ks| - 1];
      SizeSumStep(p, n, init);
      WithGroupKeyStep(p, n, last);
      assert SizeSum(p + [n], ks) == SizeSum(p + [n], init) + |WithGroupKey(p + [n], last)|;
      assert SizeSum(p, ks) == SizeSum(p, init) + |WithGroupKey(p, last)|;
      CountLast(ks, GroupKey(n));
    }
  }

  /** The count of `x` in a list is its count before the last element, plus
      one when the last element is `x`. */
  lemma CountLast<T>(s: seq<T>, x: T)
    requires s != []
    ensures multiset(s)[x] == multiset(s[..|s| - 1])[x] + (if s[|s| - 1] == x then 1 else 0)
  {
    assert s == s[..|s| - 1] + [s[|s| - 1]];
  }

  lemma {:induction false} DistinctCount(ks: seq<string>, k: string)
    requires forall i, j | 0 <= i < j < |ks| :: ks[i] != ks[j]
    ensures multiset(ks)[k] == (if k in ks then 1 else 0)
    decreases |ks|
  {
    if ks != [] {
      var init := ks[..|ks| - 1];
      DistinctCount(init, k);
      assert ks == init + [ks[|ks| - 1]];
    }
  }

  /** Every item lands in exactly one group: the groups hold |ns| items in all. */
  lemma {:induction false} GroupSizes(ns: seq<Normalized>)
    ensures SizeSum(ns, Keys(ns)) == |ns|
    decreases |ns|
  {
    if ns != [] {
      var p, n := ns[..|ns| - 1], ns[|ns| - 1];
      assert ns == p + [n];
      GroupSizes(p);
      var k := GroupKey(n);
      SizeSumStep(p, n, Keys(p));
      DistinctCount(Keys(p), k);
      if k !in Keys(p) {
        GroupNonEmpty(p, k);
        var ks := Keys(p) + [k];
        assert ks[..|ks| - 1] == Keys(p);
      }
    }
  }

  /** Items counted over a list of groups. */
  function ItemTotal(gs: seq<Group>): nat {
    if gs == [] then 0 else ItemTotal(gs[..|gs| - 1]) + |gs[|gs| - 1].items|
  }

  lemma {:induction false} ItemTotalOfGroups(ns: seq<Normalized>, ks: seq<string>, gs: seq<Group>)
    requires |gs| == |ks|
    requires forall j | 0 <= j < |ks| :: gs[j].items == WithGroupKey(ns, ks[j])
    ensures ItemTotal(gs) == SizeSum(ns, ks)
    decreases |ks|
  {
    if ks != [] {
      ItemTotalOfGroups(ns, ks[..|ks| - 1], gs[..|gs| - 1]);
    }
  }

  /** The groups partition the items: distinct keys, every item in the
      group of its key, every group's items carrying that key, non-empty
      groups, and as many items over all groups as there were. */
  lemma GroupsPartition(ns: seq<Normalized>)
    ensures forall i, j | 0 <= i < j < |Keys(ns)| :: Keys(ns)[i] != Keys(ns)[j]
    ensures forall j | 0 <= j < |Groups(ns)| :: Groups(ns)[j].items != []
    ensures forall j, m | 0 <= j < |Groups(ns)| && 0 <= m < |Groups(ns)[j].items| ::
      GroupKey(Groups(ns)[j].items[m]) == Keys(ns)[j]
    ensures forall i | 0 <= i < |ns| :: exists j | 0 <= j < |Keys(ns)| :: Keys(ns)[j] == GroupKey(ns[i]) && ns[i] in Groups(ns)[j].items
    ensures ItemTotal(Groups(ns)) == |ns|
  {
    var ks, gs := Keys(ns), Groups(ns);
    KeysOfItems(ns);
    forall j | 0 <= j < |gs| ensures gs[j].items != [] {
      GroupNonEmpty(ns, ks[j]);
    }
    forall i | 0 <= i < |ns|
      ensures exists j | 0 <= j < |ks| :: ks[j] == GroupKey(ns[i]) && ns[i] in gs[j].items
    {
      var j :| 0 <= j < |ks| && ks[j] == GroupKey(ns[i]);
      InOwnGroup(ns, i);
    }
    ItemTotalOfGroups(ns, ks, gs);
    GroupSizes(ns);
  }

  /** The key of an item without a vehicle is its atendimento id as text:
      the same key as a vehicle with that number as its id. */
  lemma SharedKey(a: Normalized, b: Normalized, id: int)
    requires VehicleId(a) == Some(id)
    requires VehicleId(b).None? && b.w.atendimentoId == Some(id)
    ensures GroupKey(a) == GroupKey(b)
  {
  }

  // ---- running and expired warranties -------------------------------------------------

  /** `(daysRemaining ?? 0) > 0`. */
  predicate Running(n: Normalized) {
    n.days.Some? && n.days.value.Int? && n.days.value.n > 0
  }

  /** `(daysRemaining ?? -1) <= 0`; NaN is not `<= 0`. */
  predicate Over(n: Normalized) {
    n.days.None? || (n.days.value.Int? && n.days.value.n <= 0)
  }

  /** The filter of the "vigentes" list. */
  predicate HasRunning(g: Group) {
    exists m | 0 <= m < |g.items| :: Running(g.items[m])
  }

  /** The filter of the "expiradas" list. */
  predicate AllOver(g: Group) {
    forall m | 0 <= m < |g.items| :: Over(g.items[m])
  }

  /** No group is in both lists; a group is in one of them when none of its
      days is NaN; a group with NaN days and none running is in neither. */
  lemma {:induction false} Partition(g: Group)
    ensures !(HasRunning(g) && AllOver(g))
    ensures (forall m | 0 <= m < |g.items| :: g.items[m].days != Some(NotANumber)) ==> HasRunning(g) || AllOver(g)
    ensures (exists m | 0 <= m < |g.items| :: g.items[m].days == Some(NotANumber)) && !HasRunning(g) ==> !HasRunning(g) && !AllOver(g)
    ensures (forall m | 0 <= m < |g.items| :: g.items[m].days.None?) ==> AllOver(g)
  {
    if HasRunning(g) {
      var m :| 0 <= m < |g.items| && Running(g.items[m]);
      assert !Over(g.items[m]);
    }
    if (exists m | 0 <= m < |g.items| :: g.items[m].days == Some(NotANumber)) {
      var m :| 0 <= m < |g.items| && g.items[m].days == Some(NotANumber);
      assert !Over(g.items[m]);
    }
  }

  function Filter(s: seq<Group>, p: Group -> bool): (r: seq<Group>)
    ensures forall x :: x in r <==> x in s && p(x)
  {
    if s == [] then []
    else
      var init := s[..|s| - 1];
      assert forall x :: x in s <==> x in init || x == s[|s| - 1];
      Filter(init, p) + (if p(s[|s| - 1]) then [s[|s| - 1]] else [])
  }

  /** The sort key of an item: its expiry time, a missing one last. */
  function ItemKey(n: Normalized): (k: Key)
    ensures k.Fin? <==> n.expiry.Some? && n.expiry.value.Int?
    ensures k.Fin? ==> n.expiry == Some(Int(k.n))
  {
    match n.expiry
    case Some(Int(t)) => Fin(t)
    case _ => PosInf
  }

  /** `Math.min` of the item keys. */
  function EarliestExpiry(g: Group): (k: Key)
    ensures forall m | 0 <= m < |g.items| :: KeyLe(k, ItemKey(g.items[m]))
    ensures g.items != [] ==> exists m | 0 <= m < |g.items| :: k == ItemKey(g.items[m])
    ensures g.items == [] ==> k == PosInf
    decreases |g.items|
  {
    if g.items == [] then PosInf
    else
      var rest := Group(g.placa, g.idVeiculo, g.items[1..]);
      var k0, k1 := ItemKey(g.items[0]), EarliestExpiry(rest);
      assert forall m | 1 <= m < |g.items| :: g.items[m] == rest.items[m - 1];
      if KeyLe(k0, k1) then k0 else k1
  }

  /** The groups with a running warranty, earliest expiry first; groups
      with the same earliest expiry keep their map order. */
  function RunningGroups(gs: seq<Group>): (r: seq<Group>)
    ensures SortedBy(r, EarliestExpiry)
    ensures multiset(r) == multiset(Filter(gs, HasRunning))
    ensures forall g :: g in r <==> g in gs && HasRunning(g)
    ensures forall k :: WithKey(r, EarliestExpiry, k) == WithKey(Filter(gs, HasRunning), EarliestExpiry, k)
  {
    var f := Filter(gs, HasRunning);
    SortSorted(f, EarliestExpiry);
    forall k ensures WithKey(Sort(f, EarliestExpiry), EarliestExpiry, k) == WithKey(f, EarliestExpiry, k) {
      SortStable(f, EarliestExpiry, k);
    }
    assert forall g :: g in Sort(f, EarliestExpiry) <==> g in multiset(Sort(f, EarliestExpiry));
    Sort(f, EarliestExpiry)
  }

  /** The groups whose every warranty is over or unknown, earliest expiry
      first; groups with the same earliest expiry keep their map order. */
  function ExpiredGroups(gs: seq<Group>): (r: seq<Group>)
    ensures SortedBy(r, EarliestExpiry)
    ensures multiset(r) == multiset(Filter(gs, AllOver))
    ensures forall g :: g in r <==> g in gs && AllOver(g)
    ensures forall k :: WithKey(r, EarliestExpiry, k) == WithKey(Filter(gs, AllOver), EarliestExpiry, k)
  {
    var f := Filter(gs, AllOver);
    SortSorted(f, EarliestExpiry);
    forall k ensures WithKey(Sort(f, EarliestExpiry), EarliestExpiry, k) == WithKey(f, EarliestExpiry, k) {
      SortStable(f, EarliestExpiry, k);
    }
    assert forall g :: g in Sort(f, EarliestExpiry) <==> g in multiset(Sort(f, EarliestExpiry));
    Sort(f, EarliestExpiry)
  }

  /** The detailed list: a sorted copy of the items, earliest expiry first,
      items with equal keys in their original order. */
  function DetailOrder(ns: seq<Normalized>): (r: seq<Normalized>)
    ensures SortedBy(r, ItemKey)
    ensures multiset(r) == multiset(ns)
    ensures forall k :: WithKey(r, ItemKey, k) == WithKey(ns, ItemKey, k)
  {
    SortSorted(ns, ItemKey);
    forall k ensures WithKey(Sort(ns, ItemKey), ItemKey, k) == WithKey(ns, ItemKey, k) {
      SortStable(ns, ItemKey, k);
    }
    Sort(ns, ItemKey)
  }

  // ---- the export ------------------------------------------------------------------

  const Header: seq<string> := ["veiculo_id", "placa", "atendimento_id", "id_item", "id_bateria",
                                "modelo", "codigo", "daysRemaining", "monthsRemaining", "expiryDate"]

  /** The column names need no quoting. */
  lemma HeaderBare()
    ensures Csv.WellFormed(Csv.Record(Header, false))
  {
    assert Csv.Bare("veiculo_id");
    assert Csv.Bare("placa");
    assert Csv.Bare("atendimento_id");
    assert Csv.Bare("id_item");
    assert Csv.Bare("id_bateria");
    assert Csv.Bare("modelo");
    assert Csv.Bare("codigo");
    assert Csv.Bare("daysRemaining");
    assert Csv.Bare("monthsRemaining");
    assert Csv.Bare("expiryDate");
  }

  /** `headers.join(',')`. */
  const HeaderLine: string := Join(Header, ',')

  lemma HeaderLineIsLine()
    ensures HeaderLine == Csv.Line(Csv.Record(Header, false))
  {
    Csv.EncodeBare(Header);
  }

  /** `String(x ?? '')` for a number. */
  function IntField(v: Option<int>): string {
    if v.Some? then IntToString(v.value) else ""
  }

  /** `String(x ?? '')` for a count that may be NaN. */
  function WholeField(v: Option<Whole>): string {
    match v
    case None => ""
    case Some(Int(n)) => IntToString(n)
    case Some(NotANumber) => "NaN"
  }

  /** `expiryDate ? expiryDate.toISOString() : ''` for a valid date. */
  function ExpiryField(e: Option<Whole>, iso: int -> string): string {
    match e
    case Some(Int(t)) => iso(t)
    case _ => ""
  }

  /** `toISOString` throws on an Invalid Date, which ends the export. */
  predicate Exportable(n: Normalized) {
    n.expiry != Some(NotANumber)
  }

  /** The ten fields of a data row. `iso` formats a valid time value. */
  function Row(n: Normalized, iso: int -> string): (r: seq<string>)
    requires Exportable(n)
    ensures |r| == |Header|
    ensures n.days.None? ==> r[7] == ""
    ensures n.months.None? ==> r[8] == ""
    ensures n.expiry.None? ==> r[9] == ""
    ensures n.expiry.Some? ==> r[9] == iso(n.expiry.value.n)
  {
    [IntField(VehicleId(n)),
     Placa(n).GetOr(""),
     IntField(Coalesce(n.w.atendimentoId, n.w.idAtendimento)),
     IntField(n.w.idItem),
     IntField(n.w.idBateria),
     n.w.modelo.GetOr(""),
     n.w.codigo.GetOr(""),
     WholeField(n.days),
     WholeField(n.months),
     ExpiryField(n.expiry, iso)]
  }

  /** The fields of the data rows, in the order of the items. */
  function Rows(ns: seq<Normalized>, iso: int -> string): (rows: seq<seq<string>>)
    requires forall i | 0 <= i < |ns| :: Exportable(ns[i])
    ensures |rows| == |ns|
    ensures forall i | 0 <= i < |ns| :: rows[i] == Row(ns[i], iso) && |rows[i]| == |Header|
  {
    seq(|ns|, i requires 0 <= i < |ns| => Row(ns[i], iso))
  }

  lemma RowsStep(p: seq<Normalized>, n: Normalized, iso: int -> string)
    requires forall i | 0 <= i < |p| :: Exportable(p[i])
    requires Exportable(n)
    ensures forall i | 0 <= i < |p + [n]| :: Exportable((p + [n])[i])
    ensures Rows(p + [n], iso) == Rows(p, iso) + [Row(n, iso)]
  {
  }

  /** The text of the export, or `None` when it throws: the header, written
      bare, then one quoted row per item, joined by line feeds. */
  function CsvText(ns: seq<Normalized>, iso: int -> string): (r: Option<string>)
    ensures r.None? <==> exists i | 0 <= i < |ns| :: ns[i].expiry == Some(NotANumber)
  {
    if forall i | 0 <= i < |ns| :: Exportable(ns[i]) then
      Some(Join([HeaderLine] + Csv.QuotedLines(Rows(ns, iso)), '\n'))
    else None
  }

  /** A prefix one longer is the prefix and the next element. */
  lemma PrefixStep<T>(s: seq<T>, i: int)
    requires 0 <= i < |s|
    ensures s[..i + 1] == s[..i] + [s[i]]
  {
  }

  lemma ExportStep(rows: seq<string>, ns: seq<Normalized>, i: int, iso: int -> string)
    requires 0 <= i < |ns| && forall j | 0 <= j <= i :: Exportable(ns[j])
    requires rows == [HeaderLine] + Csv.QuotedLines(Rows(ns[..i], iso))
    ensures rows + [Csv.Line(Csv.Record(Row(ns[i], iso), true))] == [HeaderLine] + Csv.QuotedLines(Rows(ns[..i + 1], iso))
  {
    var p := ns[..i];
    PrefixStep(ns, i);
    RowsStep(p, ns[i], iso);
    Csv.QuotedLinesStep(Rows(p, iso), Row(ns[i], iso));
  }

  /** `exportWarrantiesCSV`: the rows are pushed one by one after the
      header and joined. */
  method ExportWarrantiesCsv(ns: seq<Normalized>, iso: int -> string) returns (csv: Option<string>)
    ensures csv == CsvText(ns, iso)
  {
    var rows := [HeaderLine];
    var i := 0;
    while i < |ns|
      invariant 0 <= i <= |ns|
      invariant forall j | 0 <= j < i :: Exportable(ns[j])
      invariant rows == [HeaderLine] + Csv.QuotedLines(Rows(ns[..i], iso))
    {
      if !Exportable(ns[i]) {
        return None;
      }
      ExportStep(rows, ns, i, iso);
      rows := rows + [Csv.Line(Csv.Record(Row(ns[i], iso), true))];
      i := i + 1;
    }
    assert ns[..i] == ns;
    csv := Some(Join(rows, '\n'));
  }

  /** Reading the export back gives the header and then, in the order of
      the normalised list, every item's ten fields. */
  lemma ExportReadsBack(ns: seq<Normalized>, iso: int -> string)
    requires CsvText(ns, iso).Some?
    ensures Csv.ReadDocument(CsvText(ns, iso).value) == Some([Header] + Rows(ns, iso))
  {
    HeaderBare();
    HeaderLineIsLine();
    Csv.ReadTable(Header, Rows(ns, iso));
  }
}
