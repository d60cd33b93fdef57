# PowerVendas core, modelled in Dafny

PowerVendas is a web front end for a battery shop. Staff use it to register
customers, vehicles and batteries, record sales ("atendimentos"), move stock
and follow the shop's accounts. Most of the code is screens and HTTP calls.
This project models the parts that hold rules, and proves properties about them:

- **Warranties.** The customer page derives, normalises, groups, orders and
  exports warranty items (`ClienteDetails`, `WarrantyGroups`, `Csv`,
  `StableSort`). The sale dialog computes a sale item's warranty on its own,
  with a different month arithmetic (`AtendimentoDetail`). Both rest on a
  proleptic Gregorian civil calendar with JavaScript's 0-based months and
  millisecond time values (`Civil`).
- **The date and time picker.** Month lengths, the first weekday, month
  navigation, the day grid, and how the value is composed and split
  (`DateTimePicker`).
- **The validators.** Each form fills an error map field by field and is
  valid exactly when the map is empty: battery, customer, vehicle, and the
  category/group/subgroup forms (`BateriaForm`, `ClienteForm`, `VeiculoForm`,
  `CadastroForms`, with the shared map helpers in `Forms`).
- **Registration and password reset.** The three-step registration wizard
  with its first-failure checks (`RegisterForm`). The password-strength
  score and the reset page's guards (`RecuperarSenha`).
- **The sale editor.** Append, remove and update items, the price auto-fill,
  the submit guard, the date reformat and the total (`AtendimentoForm`).
- **Stock movements.** Brazilian number normalisation, the battery-id rule,
  the payload, the default unit price and the reselection after a reload
  (`Movimentacoes`).
- **Finance.** The totals, the paid and pending sums, the percentages and
  the "quebras" difference (`Financeiro`).
- **Record normalisers.** The sale and stock services turn loose JSON into
  strict records (`AtendimentosService`, `EstoqueService`).

Loose JSON is `Json.Js`: undefined, null, booleans, numbers, strings,
arrays and objects. JavaScript numbers are `JsValues.Number`, a real or NaN.
The model keeps `??` apart from `||`: `??` falls through only on
null/undefined, while `||` also falls through on `0`, `''`, NaN and `false`.

Code that changes state step by step is modelled as a class whose methods
state the new state. Examples are a form's `formData`/`errors`, the wizard's
step, and the stock page's selection and inputs. Loops that push into an
array are methods with loop invariants, proved equal to a function that
specifies them. Expressions are functions, and what the source promises
about them is proved as lemmas.

The clock is a parameter (`now`, `currentYear`). So are the JavaScript
`Date` string parser (`parse`), `toISOString` (`iso`), and the number and
JSON formatters (`show`, `stringify`).

## Model

| member | source | states |
|---|---|---|
| ClienteDetails.WarrantyEnd | src/pages/clientes/ClienteDetails.tsx:173-176 | the purchase date advanced with a bare `setMonth`: year and month carried, the day kept even when it overflows into the next month (computed by civil day numbers), and NaN for an unparseable date |
| ClienteDetails.DaysLeft | src/pages/clientes/ClienteDetails.tsx:177 | the ceiling of the remaining time in days: (d-1) days < end-now <= d days; NaN stays NaN |
| ClienteDetails.DaysOfMonths | src/pages/clientes/ClienteDetails.tsx:170 | days = months·30 rounded to the nearest whole: within half a day of months·30 |
| ClienteDetails.MonthsOf | src/pages/clientes/ClienteDetails.tsx:179 | months remaining = max(0, floor(days/30)): never negative, 30·m <= days < 30·m+30 for non-negative days, 0 under 30 days |
| ClienteDetails.AfterDays | src/pages/clientes/ClienteDetails.tsx:168 | the hint expiry lies exactly days·86 400 000 ms after now |
| ClienteDetails.GarantiaMeses | src/pages/clientes/ClienteDetails.tsx:85 | the warranty months come from the nested battery first, else from the item |
| ClienteDetails.DerivedDays | src/pages/clientes/ClienteDetails.tsx:87-95 | a derived item has days exactly when it has months left, or a purchase date together with warranty months |
| ClienteDetails.DeriveItem | src/pages/clientes/ClienteDetails.tsx:84-109 | the fields of a derived item: battery-first months, `created_at` else `data_atendimento`, the derived days, months left given or floor(days/30), the atendimento id `id ?? id_atendimento`, the item id, code and model from the battery else the item, and the vehicle |
| ClienteDetails.DeriveFrom | src/pages/clientes/ClienteDetails.tsx:81-110 | one derived item per sale item of an atendimento, in order |
| ClienteDetails.DeriveAll | src/pages/clientes/ClienteDetails.tsx:78-111 | as many derived items as there are sale items over all atendimentos |
| ClienteDetails.DeriveWarrantyItems | src/pages/clientes/ClienteDetails.tsx:76-111 | the nested push loop yields exactly DeriveAll, one item per sale item |
| ClienteDetails.LoadedWarrantyItems | src/pages/clientes/ClienteDetails.tsx:71-112 | a non-empty dashboard list is used as sent; otherwise items derived from the atendimentos replace the list when there is at least one; with nothing derived, an empty dashboard list gives [] and no dashboard list keeps the current one |
| ClienteDetails.Normalize | src/pages/clientes/ClienteDetails.tsx:163-181 | days, months and expiry are known or unknown together; months = MonthsOf(days), never negative; the expiry lies within the day the days count |
| ClienteDetails.NormalizePriority | src/pages/clientes/ClienteDetails.tsx:166-178 | `days_remaining` first, then round(`garantia_restante_meses`·30), then purchase date plus `garantia_meses`; days are unknown exactly when none of the three applies |
| ClienteDetails.HintExpiry | src/pages/clientes/ClienteDetails.tsx:166-171 | in both hint branches the expiry is now + days·86 400 000 |
| ClienteDetails.NormalizeDerived | src/pages/clientes/ClienteDetails.tsx:87-95 | normalising a derived item on the same clock reproduces the days the derivation computed |
| ClienteDetails.NormalizeAll | src/pages/clientes/ClienteDetails.tsx:163-182 | one normalised entry per warranty item, in order, each carrying its item |
| ClienteDetails.ClientStatus | src/pages/clientes/ClienteDetails.tsx:129-132 | 'active' exactly when the status lower-cases to 'ativo'; 'at-risk' exactly for 'at-risk', 'em risco' or 'risco'; else 'dormant' |
| ClienteDetails.StatusIgnoresCase | src/pages/clientes/ClienteDetails.tsx:130-131 | 'ATIVO' and 'Ativo' are active, 'Em Risco' is dormant (only 'ativo' is compared without case), and no status is dormant |
| ClienteDetails.ItemValue | src/pages/clientes/ClienteDetails.tsx:147-148 | `valor_total` when present; without it, 0 unless the unit price is truthy, and then the unit price times the quantity (1 when missing); an unreadable value counts as 0 |
| ClienteDetails.ItemsValueAppend | src/pages/clientes/ClienteDetails.tsx:146-149 | `ItemsValue`: the value of a sale's items is additive over concatenation |
| ClienteDetails.TotalValueAppend | src/pages/clientes/ClienteDetails.tsx:144-151 | `TotalValue`: the value of all sales is additive over concatenation |
| ClienteDetails.ItemsValueNonNegative | src/pages/clientes/ClienteDetails.tsx:146-149 | non-negative item values add up to a non-negative total |
| ClienteDetails.NoItemsNoValue | src/pages/clientes/ClienteDetails.tsx:145 | an atendimento without items, or with an empty list, adds nothing |
| WarrantyGroups.Keys | src/pages/clientes/ClienteDetails.tsx:188-196 | the map's keys, distinct, in first-insertion order |
| WarrantyGroups.KeysOfItems | src/pages/clientes/ClienteDetails.tsx:190-195 | every item's key is a key of the map, and every key comes from some item |
| WarrantyGroups.WithGroupKey | src/pages/clientes/ClienteDetails.tsx:194 | the items pushed into one entry: only items of that key, no more than there are |
| WarrantyGroups.MakeGroup | src/pages/clientes/ClienteDetails.tsx:193-194 | an entry holds exactly the items of its key, in order |
| WarrantyGroups.Groups | src/pages/clientes/ClienteDetails.tsx:188-196 | one group per distinct key |
| WarrantyGroups.GroupNonEmpty | src/pages/clientes/ClienteDetails.tsx:193-195 | a key's group is non-empty exactly when the key is in the map |
| WarrantyGroups.MakeGroupStep | src/pages/clientes/ClienteDetails.tsx:193-195 | pushing one item changes only its own key's entry: the item is appended to it, or the entry is created with the item's plate and vehicle id |
| WarrantyGroups.MapValues | src/pages/clientes/ClienteDetails.tsx:202 | `Array.from(map.values())` lists one entry per key, in key order |
| WarrantyGroups.ValuesAreGroups | src/pages/clientes/ClienteDetails.tsx:188-202 | the values of the map built by the loop are exactly Groups(items) |
| WarrantyGroups.GroupByVehicle | src/pages/clientes/ClienteDetails.tsx:188-196 | the grouping loop over a `Map` yields Groups(items) |
| WarrantyGroups.WithGroupKeyAppend | src/pages/clientes/ClienteDetails.tsx:194 | input order is kept inside a group: grouping a concatenation lists the first part's items first |
| WarrantyGroups.InOwnGroup | src/pages/clientes/ClienteDetails.tsx:189-195 | every item is in the group of its own key |
| WarrantyGroups.GroupSizes | src/pages/clientes/ClienteDetails.tsx:188-196 | the group sizes add up to the number of items |
| WarrantyGroups.GroupsPartition | src/pages/clientes/ClienteDetails.tsx:188-196 | the keys are distinct, no group is empty, every item of a group has its key, every item lies in its key's group, and all groups hold as many items as were given: each item lands in exactly one group |
| WarrantyGroups.SharedKey | src/pages/clientes/ClienteDetails.tsx:190-191 | an item without a vehicle is keyed by its atendimento id as text, so it shares a group with a vehicle whose id is that number |
| WarrantyGroups.Partition | src/pages/clientes/ClienteDetails.tsx:202-203 | no group is both valid and expired; without NaN days each group is in one of the two lists; a group with NaN days and none running is in neither; a group whose days are all unknown is expired |
| WarrantyGroups.Filter | src/pages/clientes/ClienteDetails.tsx:202-203 | `filter`: exactly the groups satisfying the predicate |
| WarrantyGroups.GroupKey | src/pages/clientes/ClienteDetails.tsx:190-191 | 'sem-veiculo' exactly when the item has neither a vehicle id nor an atendimento id |
| WarrantyGroups.ItemKey | src/pages/clientes/ClienteDetails.tsx:197-199 | an item's sort key is finite exactly when its expiry is a known finite timestamp, and is then that timestamp; otherwise +infinity |
| WarrantyGroups.EarliestExpiry | src/pages/clientes/ClienteDetails.tsx:197-199 | `Math.min` of the item expiries, a missing one being +infinity: not above any item's and equal to one of them, +infinity for no items |
| WarrantyGroups.RunningGroups | src/pages/clientes/ClienteDetails.tsx:202 | the "vigentes" list: a permutation of the groups with some item having days > 0, sorted by earliest expiry, groups with equal expiry in their original order |
| WarrantyGroups.ExpiredGroups | src/pages/clientes/ClienteDetails.tsx:203 | the "expiradas" list: a permutation of the groups whose every item has days <= 0 or unknown, sorted by earliest expiry, groups with equal expiry in their original order |
| WarrantyGroups.DetailOrder | src/pages/clientes/ClienteDetails.tsx:315-317 | the detailed list is a sorted, stable permutation of the normalised items; the original is not changed, since the model is a value |
| WarrantyGroups.HeaderBare | src/pages/clientes/ClienteDetails.tsx:208-209 | the ten column names need no quoting, so the unquoted header is well formed |
| WarrantyGroups.Row | src/pages/clientes/ClienteDetails.tsx:211-222 | a row has the ten header columns; unknown days, months or expiry become '' and a known expiry is its ISO text |
| WarrantyGroups.Rows | src/pages/clientes/ClienteDetails.tsx:210-224 | one row per normalised item, in normalised (unsorted) order |
| WarrantyGroups.CsvText | src/pages/clientes/ClienteDetails.tsx:206-225 | the export fails exactly when some expiry is an Invalid Date (`toISOString` throws) |
| WarrantyGroups.ExportWarrantiesCsv | src/pages/clientes/ClienteDetails.tsx:206-225 | the push loop yields CsvText: bare header, then one quoted line per item, joined by '\n' |
| WarrantyGroups.ExportReadsBack | src/pages/clientes/ClienteDetails.tsx:207-225 | reading the export back field by field gives the header and then every item's ten fields, in order |
| Csv.Escape | src/pages/clientes/ClienteDetails.tsx:223 | doubling quotes never shortens a field |
| Csv.Quote | src/pages/clientes/ClienteDetails.tsx:223 | a quoted field starts and ends with `"` |
| Csv.Encode | src/pages/clientes/ClienteDetails.tsx:223 | encoding keeps the number of fields |
| Csv.EncodeBare | src/pages/clientes/ClienteDetails.tsx:209 | the header's fields are written as they are |
| Csv.ReadEncodedField | src/pages/clientes/ClienteDetails.tsx:223 | a quoted field with doubled inner quotes (section 2 of RFC 4180, items 5 to 7) reads back as the original field |
| Csv.ReadBack | src/pages/clientes/ClienteDetails.tsx:223-225 | a document of well-formed records joined by '\n' reads back as their fields |
| Csv.ReadTable | src/pages/clientes/ClienteDetails.tsx:207-225 | a bare header followed by quoted rows reads back as the header and the rows |
| StableSort.SortSorted | src/pages/clientes/ClienteDetails.tsx:317 | the sort is ordered by key, with a missing expiry as +infinity, and is a permutation |
| StableSort.Sort | src/pages/clientes/ClienteDetails.tsx:317 | the insertion sort keeps the length; the lemmas below state order, permutation and stability |
| StableSort.SortPermutation | src/pages/clientes/ClienteDetails.tsx:317 | the sort neither adds nor loses elements |
| StableSort.SortStable | src/pages/clientes/ClienteDetails.tsx:317 | elements with equal keys keep their relative order, as `Array.prototype.sort` is stable |
| StableSort.SortOfSorted | src/pages/clientes/ClienteDetails.tsx:197-203 | a list already in key order is left unchanged |
| AtendimentoDetail.DateText | src/components/AtendimentoDetailModal.tsx:23-24 | without a 'T', the first space becomes 'T' and nothing else changes; a text with a 'T' or no whitespace is unchanged |
| AtendimentoDetail.DateTextIdempotent | src/components/AtendimentoDetailModal.tsx:24 | normalising twice is normalising once |
| AtendimentoDetail.ParseDateString | src/components/AtendimentoDetailModal.tsx:20-34 | null or '' gives null; otherwise the normalised text is parsed, then retried with 'Z' appended, then null; the result is never an exception |
| AtendimentoDetail.MonthsLater | src/components/AtendimentoDetailModal.tsx:36-43 | the month index advances by n with year carry; the day becomes min(day, days in the target month); the time of day is kept |
| AtendimentoDetail.MonthsAdded | src/components/AtendimentoDetailModal.tsx:36-43 | the fractional months that `setMonth` receives are truncated toward zero |
| AtendimentoDetail.AddMonths | src/components/AtendimentoDetailModal.tsx:36-43 | the copy, `setMonth` and `setDate(0)` steps land on MonthsAdded |
| AtendimentoDetail.SetMonthThenClamp | src/components/AtendimentoDetailModal.tsx:39-41 | `setMonth` followed by `setDate(0)` on overflow gives the clamped date |
| AtendimentoDetail.SetMonthFits | src/components/AtendimentoDetailModal.tsx:39 | when the day exists in the target month, `setMonth` alone gives the clamped date |
| AtendimentoDetail.SetMonthOverflows | src/components/AtendimentoDetailModal.tsx:39-41 | when the day does not exist, `setMonth` changes the day, and `setDate(0)` steps back to the target month's last day |
| AtendimentoDetail.MonthsLaterZero | src/components/AtendimentoDetailModal.tsx:36-43 | adding 0 months gives the same date |
| AtendimentoDetail.MonthsLaterEarlyDay | src/components/AtendimentoDetailModal.tsx:36-43 | a day of month up to 28 and the time of day are preserved |
| AtendimentoDetail.MonthsLaterBack | src/components/AtendimentoDetailModal.tsx:36-43 | going n months forward and back again restores a date whose day exists in the target month |
| AtendimentoDetail.AgreesWithSetMonth | src/components/AtendimentoDetailModal.tsx:36-43 | the dialog's clamped months agree with the customer page's bare `setMonth` exactly when the day exists in the target month |
| AtendimentoDetail.ClampVersusRollover | src/components/AtendimentoDetailModal.tsx:36-43 | 31 Jan 2024 + 1 month is 29 Feb 2024 in the dialog but 2 Mar 2024 with a bare `setMonth` |
| AtendimentoDetail.WarrantyMonths | src/components/AtendimentoDetailModal.tsx:50 | the months are `Number(bateria.garantia_meses ?? item.garantia_meses ?? 0)` with a falsy result as 0: battery first, then item, NaN and missing as 0 |
| AtendimentoDetail.CreatedDate | src/components/AtendimentoDetailModal.tsx:47-48 | `created_at`, else `createdAt`, read by parseDateString |
| AtendimentoDetail.ComputeWarranty | src/components/AtendimentoDetailModal.tsx:45-57 | without a created date or with 0 months: null days, not expired, no end date; otherwise the end is MonthsAdded, the days are the ceiling of what is left, and expired iff days < 0 |
| AtendimentoDetail.ExpiredIffDayPassed | src/components/AtendimentoDetailModal.tsx:52-56 | expired exactly when the end lies a full day or more before now, so 0 days left is not expired |
| AtendimentoDetail.GarantiaCell | src/components/AtendimentoDetailModal.tsx:373-379 | 'N/A' exactly when the days are null; a running warranty shows '<n> dias', an expired one 'Expirada há <abs(n)> dias' |
| AtendimentoDetail.CellOfWarranty | src/components/AtendimentoDetailModal.tsx:373-379 | the cell never shows a minus sign; an expired warranty reads 'Expirada há n dias' with n = abs(days) >= 1 |
| Civil.DaysInMonth | src/components/DateTimePicker.tsx:46-48 | a month has 28 to 31 days, and February has 29 exactly in Gregorian leap years |
| Civil.YearLength | src/components/DateTimePicker.tsx:46-48 | consecutive January firsts are 366 days apart in a leap year and 365 otherwise |
| Civil.MonthTable | src/components/DateTimePicker.tsx:46-48 | the month lengths add up to the year length |
| Civil.DecemberEnd | src/components/DateTimePicker.tsx:58-60 | the day after 31 December is 1 January of the next year |
| Civil.TimeOfDay | src/components/AtendimentoDetailModal.tsx:54-55 | `getTime()` of a valid date divides into its day number and its time of day |
| Civil.NewDate | src/components/DateTimePicker.tsx:47 | `new Date(y, m, day)` normalises the month with year carry and yields a valid date; an in-range day is kept |
| Civil.NewDateTime | src/components/DateTimePicker.tsx:47 | the time value of `new Date(y, m, day)` is that of the fields as given, before normalising |
| Civil.NewDateDayZero | src/components/DateTimePicker.tsx:47 | day 0 of a month is the last day of the month before |
| Civil.NewDateOverflow | src/pages/clientes/ClienteDetails.tsx:175 | a day past the month's end rolls into the following month, in the same year |
| Civil.SetMonthTime | src/pages/clientes/ClienteDetails.tsx:175 | `setMonth(m)` keeps the day and the time of day, with the month carried into the year |
| Civil.SetDateTime | src/components/AtendimentoDetailModal.tsx:41 | `setDate(day)` sets the day within the date's own month |
| Civil.WeekDay | src/components/DateTimePicker.tsx:51 | `getDay()` is in 0..6 |
| Civil.CeilDiv | src/components/AtendimentoDetailModal.tsx:55 | `Math.ceil(a / b)` is the least q with a <= b·q |
| Civil.DaysUntil | src/pages/clientes/ClienteDetails.tsx:177 | the days until a time, rounded up: (d-1) days < t-now <= d days |
| DateTimePicker.DaysInView | src/components/DateTimePicker.tsx:46-48 | `new Date(y, m+1, 0).getDate()` is the month's length: 28..31, and 29 in February exactly in leap years |
| DateTimePicker.FirstDay | src/components/DateTimePicker.tsx:50-52 | the weekday of the first of the month, in 0..6 |
| DateTimePicker.NextMonth | src/components/DateTimePicker.tsx:58-60 | the month after, with year carry |
| DateTimePicker.PrevMonth | src/components/DateTimePicker.tsx:54-56 | the month before, with year carry |
| DateTimePicker.NextPrev | src/components/DateTimePicker.tsx:54-60 | next then previous returns the same (year, month), and so does previous then next |
| DateTimePicker.DecemberToJanuary | src/components/DateTimePicker.tsx:54-60 | December goes forward to January of the next year, and January back to December of the year before |
| DateTimePicker.FirstOfNextMonth | src/components/DateTimePicker.tsx:46-60 | the first of the next month comes a month's length after this month's first |
| DateTimePicker.FirstDayOfNextMonth | src/components/DateTimePicker.tsx:50-60 | the next month's grid starts where this month's last week ends |
| DateTimePicker.Grid | src/components/DateTimePicker.tsx:74-77 | firstDay blank cells, then the days 1..daysInMonth in order |
| DateTimePicker.GridFits | src/components/DateTimePicker.tsx:74-77 | the grid fits in six weeks, and every day of the month is at its cell |
| DateTimePicker.GridColumns | src/components/DateTimePicker.tsx:74-77 | each day sits in the column of its weekday |
| DateTimePicker.Emitted | src/components/DateTimePicker.tsx:40-44 | a value is emitted exactly when date and time are both non-empty, as date, 'T', time |
| DateTimePicker.InitialDate | src/components/DateTimePicker.tsx:21 | the date part before the first 'T'; '' when there is no value |
| DateTimePicker.InitialTime | src/components/DateTimePicker.tsx:22 | '12:00' when there is no value, else the part after the first 'T' |
| DateTimePicker.EmittedReadsBack | src/components/DateTimePicker.tsx:18-22 | an emitted value, read back by the initial state, gives the same date and time |
| DateTimePicker.ValueRoundTrip | src/components/DateTimePicker.tsx:18-44 | a value 'date T time' with both parts non-empty is emitted again unchanged |
| DateTimePicker.Picker.constructor | src/components/DateTimePicker.tsx:17-22 | the initial view month, the split date and time, and a closed picker |
| DateTimePicker.Picker.Value | src/components/DateTimePicker.tsx:40-44 | the state emits a value exactly when both parts are set |
| DateTimePicker.Picker.PrevMonthClick | src/components/DateTimePicker.tsx:54-56 | the view moves one month back and nothing else changes |
| DateTimePicker.Picker.NextMonthClick | src/components/DateTimePicker.tsx:58-60 | the view moves one month forward and nothing else changes |
| DateTimePicker.Picker.SelectDate | src/components/DateTimePicker.tsx:62-67 | the selected date becomes the day's date text and the picker closes |
| DateTimePicker.Picker.TimeChange | src/components/DateTimePicker.tsx:69-71 | only the time changes |
| DateTimePicker.Picker.Open | src/components/DateTimePicker.tsx:93 | a click on the input opens the picker and changes nothing else |
| DateTimePicker.Picker.Close | src/components/DateTimePicker.tsx:27-30 | a click outside closes the picker and changes nothing else |
| DateTimePicker.DayKey | src/components/DateTimePicker.tsx:63-64 | the date part of the ISO text holds no 'T' |
| Forms.TextError | src/components/BateriaForm.tsx:133-137 | a required trimmed text: no error exactly when present, non-blank and at least min long; 'obrigatório' when missing or blank, else the short message |
| Forms.MinLengthError | src/components/VeiculoForm.tsx:31 | a missing text or one shorter than min once trimmed is refused, with one message: no error exactly when non-empty and at least min long once trimmed |
| Forms.MinLengthRefusesBlank | src/components/CategoriaForm.tsx:26 | with a positive minimum, a blank name is refused |
| Forms.Cleared | src/components/BateriaForm.tsx:230-235 | clearing a field's error sets only that key to '' and keeps every other entry and the set of keys |
| Forms.ClearedIdempotent | src/components/ClienteForm.tsx:78-83 | clearing twice is clearing once |
| BateriaForm.IdError | src/components/BateriaForm.tsx:180-192 | an id is accepted exactly when it is a positive number |
| BateriaForm.Errors | src/components/BateriaForm.tsx:129-196 | the error map holds exactly the fields with an error, each with its message |
| BateriaForm.ErrorsUpToKeys | src/components/BateriaForm.tsx:129-196 | `ErrorsUpTo`: the map after the first k checks holds exactly the fields among them that have an error, each with its message |
| BateriaForm.PricesStep | src/components/BateriaForm.tsx:162-177 | the three price checks, in source order, turn the map after the first four fields into the map after six, the venda≤custo message overwriting the sale price's first one |
| BateriaForm.FieldError | src/components/BateriaForm.tsx:132-192 | a field has no error exactly when its value is acceptable: present and long enough, positive, whole, not negative, a sale price above a given cost |
| BateriaForm.ErrorsEmptyIff | src/components/BateriaForm.tsx:195 | the form is valid exactly when its values are acceptable: code >= 2 and model >= 3 trimmed characters, positive whole amperage, whole non-negative warranty, positive sale price above a non-zero cost, cost present and >= 0, three positive ids |
| BateriaForm.GarantiaBounds | src/components/BateriaForm.tsx:154-160 | a warranty of 0 months is accepted; a negative one gets 'não pode ser negativa' |
| BateriaForm.PriceBelowCost | src/components/BateriaForm.tsx:174-177 | a sale price not above a non-zero cost is reported with the 'maior que o preço de custo' message and the form is invalid |
| BateriaForm.IntInput | src/components/BateriaForm.tsx:218-219 | an empty input stores '', anything else goes through `parseInt` |
| BateriaForm.FloatInput | src/components/BateriaForm.tsx:220-221 | an empty input stores '', anything else goes through `parseFloat` |
| BateriaForm.Updated | src/components/BateriaForm.tsx:213-227 | an edit changes only the edited field: code and model receive the text as typed, the prices the `parseFloat` input, the other fields the `parseInt` input |
| BateriaForm.IntInputOfText | src/components/BateriaForm.tsx:219 | a typed integer is stored as that number |
| BateriaForm.Margem | src/components/BateriaForm.tsx:238-240 | the margin is shown exactly when both prices are truthy; with a positive cost it is positive exactly when the sale price exceeds the cost |
| BateriaForm.ValidateDetails | src/components/BateriaForm.tsx:132-160 | the first four checks leave the map of code, model, amperage and warranty errors |
| BateriaForm.ValidatePricesAndIds | src/components/BateriaForm.tsx:162-192 | the price and id checks complete the map |
| BateriaForm.Form.constructor | src/components/BateriaForm.tsx:20-32 | a new form, or the battery being edited, with no errors |
| BateriaForm.Form.ValidateForm | src/components/BateriaForm.tsx:129-196 | the stored map is Errors(formData) and the result is true exactly when the values are acceptable |
| BateriaForm.Form.HandleSubmit | src/components/BateriaForm.tsx:198-211 | `onSubmit` is called exactly when the values are acceptable |
| BateriaForm.Form.HandleChange | src/components/BateriaForm.tsx:213-236 | the edited field takes the converted value, and only that field's error is cleared |
| ClienteForm.TenDigitsOfDigits | src/components/ClienteForm.tsx:48 | `TenDigits`: the digits of a phone pass `^\d{10,}$` exactly when there are at least ten |
| ClienteForm.Errors | src/components/ClienteForm.tsx:35-54 | the error map holds exactly the fields with an error, each with its message |
| ClienteForm.FieldError | src/components/ClienteForm.tsx:35-54 | the name has no error exactly when it has >= 3 characters once trimmed, a filled e-mail exactly when it has the pattern's shape, a filled phone exactly when it holds >= 10 digits; address, city, state and CEP never carry one |
| ClienteForm.ErrorsEmptyIff | src/components/ClienteForm.tsx:38-53 | valid exactly when the name has >= 3 trimmed characters, the e-mail, if given, matches the pattern, and the phone, if given, has >= 10 digits |
| ClienteForm.NomeRequired | src/components/ClienteForm.tsx:38-39 | a missing or blank name is 'Nome é obrigatório' and the form is invalid |
| ClienteForm.OptionalContacts | src/components/ClienteForm.tsx:44-50 | an empty e-mail and phone give no error |
| ClienteForm.Updated | src/components/ClienteForm.tsx:73-76 | an edit stores the text in its field and changes no other |
| ClienteForm.Form.constructor | src/components/ClienteForm.tsx:17-33 | a blank form, or the customer being edited, with no errors |
| ClienteForm.Form.ValidateForm | src/components/ClienteForm.tsx:35-54 | the stored map is Errors(formData) and the result is true exactly when the values are acceptable |
| ClienteForm.Form.HandleSubmit | src/components/ClienteForm.tsx:56-69 | `onSubmit` is called exactly when the values are acceptable |
| ClienteForm.Form.HandleChange | src/components/ClienteForm.tsx:71-84 | the edited field takes the text, and only that field's error is cleared |
| VeiculoForm.Errors | src/components/VeiculoForm.tsx:29-38 | the error map holds exactly the fields with an error, each with its message |
| VeiculoForm.FieldError | src/components/VeiculoForm.tsx:29-38 | the plate has no error exactly when it has >= 4 characters once trimmed, the model >= 3, the year exactly when it is missing or a whole number from 1900 to next year; client, make and colour never carry one |
| VeiculoForm.ErrorsEmptyIff | src/components/VeiculoForm.tsx:31-37 | valid exactly when the plate has >= 4 and the model >= 3 trimmed characters and the year is unset or a whole year from 1900 to currentYear+1 |
| VeiculoForm.Updated | src/components/VeiculoForm.tsx:51-55 | an edit stores the text in its field, the year through `parseInt` ('' when cleared), and changes no other |
| VeiculoForm.YearInput | src/components/VeiculoForm.tsx:53 | an empty year input stores undefined, anything else `parseInt` |
| VeiculoForm.ClearedYearAccepted | src/components/VeiculoForm.tsx:53 | clearing the year input removes the year and any year error |
| VeiculoForm.TypedYear | src/components/VeiculoForm.tsx:33-35 | a typed year is stored as that number and refused exactly outside 1900..currentYear+1 |
| VeiculoForm.Form.constructor | src/components/VeiculoForm.tsx:11-27 | a blank form, or the vehicle being edited, with the current year given and no errors |
| VeiculoForm.Form.Validate | src/components/VeiculoForm.tsx:29-38 | the stored map is Errors(formData) and the result is true exactly when the values are acceptable |
| VeiculoForm.Form.HandleSubmit | src/components/VeiculoForm.tsx:40-49 | `onSubmit` is called exactly when the values are acceptable |
| VeiculoForm.Form.HandleChange | src/components/VeiculoForm.tsx:51-55 | the edited field takes the text, or the parsed year, and only that field's error is cleared |
| CadastroForms.Errors | src/components/CategoriaForm.tsx:24-29 | the only possible error is on the name, with the form's message |
| CadastroForms.ErrorsEmptyIff | src/components/GrupoForm.tsx:26 | a name is accepted exactly when it is non-empty and at least min long once trimmed |
| CadastroForms.ToggleReadsBack | src/components/CategoriaForm.tsx:69-70 | the checkbox stores 1 or 0, and `!!ativo` reads the tick back |
| CadastroForms.Form.Categoria | src/components/CategoriaForm.tsx:11-22 | minimum 3 and its message; the record loaded with descricao '' when missing and ativo `?? 1`, so a 0 is kept |
| CadastroForms.Form.Grupo | src/components/GrupoForm.tsx:11-22 | minimum 2 and its message; the record loaded as for categories |
| CadastroForms.Form.Subgrupo | src/components/SubgrupoForm.tsx:11-22 | minimum 2 and its message; the record loaded as for categories |
| CadastroForms.Form.Load | src/components/CategoriaForm.tsx:20-22 | the effect loads the record with the defaults and leaves no errors |
| CadastroForms.Form.Validate | src/components/CategoriaForm.tsx:24-29 | the stored map is the name's error, and the result is true exactly when the name is accepted |
| CadastroForms.Form.HandleSubmit | src/components/CategoriaForm.tsx:31-40 | `onSubmit` runs exactly when the name is accepted |
| CadastroForms.Form.SetNome | src/components/CategoriaForm.tsx:49 | only the name changes |
| CadastroForms.Form.SetDescricao | src/components/CategoriaForm.tsx:60 | only the description changes |
| CadastroForms.Form.SetAtivo | src/components/CategoriaForm.tsx:70 | the flag becomes 1 when ticked and 0 otherwise, and nothing else changes |
| RegisterForm.Set | src/components/auth/RegisterForm.tsx:62-65 | a company edit sets the named field and leaves every other field as it was |
| RegisterForm.FirstEmpty | src/components/auth/RegisterForm.tsx:73-79 | the position of the first empty field: every field before it is filled; None exactly when all are filled |
| RegisterForm.EmpresaAccepted | src/components/auth/RegisterForm.tsx:72-92 | `EmpresaError`: the company step passes exactly when all ten fields are filled, the e-mail has the pattern's shape and the CEP matches `^\d{5}-?\d{3}$`; the CEP then has eight digits |
| RegisterForm.FirstEmptyReported | src/components/auth/RegisterForm.tsx:74-78 | only the first empty field is reported, as 'Campo <field> é obrigatório', however many are empty |
| RegisterForm.SetUsuario | src/components/auth/RegisterForm.tsx:67-70 | a user edit sets only the named field |
| RegisterForm.UsuarioError | src/components/auth/RegisterForm.tsx:94-113 | the user step passes exactly when the name is filled, the e-mail has the pattern's shape, the password has >= 6 characters and the confirmation repeats it |
| RegisterForm.ShortBeforeMismatch | src/components/auth/RegisterForm.tsx:103-109 | a short password is reported as short even when the confirmation differs |
| RegisterForm.Progress | src/components/auth/RegisterForm.tsx:167 | the bar is between 1 and 100 percent and full exactly on the confirmation step |
| RegisterForm.ProgressGrows | src/components/auth/RegisterForm.tsx:167 | a later step shows a longer bar, and only a later one |
| RegisterForm.Wizard.constructor | src/components/auth/RegisterForm.tsx:35-60 | the company step, blank data and no error |
| RegisterForm.Wizard.EmpresaChange | src/components/auth/RegisterForm.tsx:62-65 | the company data takes the edit and nothing else changes |
| RegisterForm.Wizard.UsuarioChange | src/components/auth/RegisterForm.tsx:67-70 | the user data takes the edit and nothing else changes |
| RegisterForm.Wizard.ValidateEmpresa | src/components/auth/RegisterForm.tsx:72-92 | the error becomes the company step's first failure, or null, and the result says whether it passed |
| RegisterForm.Wizard.ValidateUsuario | src/components/auth/RegisterForm.tsx:94-113 | the error becomes the user step's first failure, or null, and the result says whether it passed |
| RegisterForm.Wizard.NextStep | src/components/auth/RegisterForm.tsx:115-125 | company to user only if the company checks pass; user to confirmation only if the user checks pass; the confirmation step stays |
| RegisterForm.Wizard.PrevStep | src/components/auth/RegisterForm.tsx:127-133 | user to company, confirmation to user; the company step stays |
| RegisterForm.Wizard.Payload | src/components/auth/RegisterForm.tsx:139-142 | on the confirmation step the data sent passed both steps' checks |
| JsText.EmailMatchesIff | src/components/ClienteForm.tsx:44 | `EmailMatches`: `^[^\s@]+@[^\s@]+\.[^\s@]+$` matches exactly when there is one '@', no whitespace, a non-empty local part, and a domain with a '.' that is neither first nor last |
| JsText.EmailShapeOfMatch | src/components/auth/RegisterForm.tsx:81 | a matching address has that shape |
| JsText.EmailMatchOfShape | src/components/auth/RegisterForm.tsx:99 | an address of that shape matches |
| JsText.CepDigits | src/components/auth/RegisterForm.tsx:86 | a CEP matching `^\d{5}-?\d{3}$` holds eight digits |
| JsText.Trim | src/components/BateriaForm.tsx:133-135 | `trim()`: the infix left once white space is removed from both ends, neither starting nor ending with white space |
| JsText.TrimNoSpace | src/components/VeiculoForm.tsx:31 | a text without white space is its own trim |
| JsText.TrimEmpty | src/components/ClienteForm.tsx:38 | the trim is empty exactly when the text is all white space |
| JsText.IndexOf | src/components/AtendimentoDetailModal.tsx:24 | the first position of a character, None exactly when absent |
| JsText.Split | src/components/DateTimePicker.tsx:21-22 | `split` gives at least one piece and no piece holds the separator |
| JsText.SplitJoin | src/components/DateTimePicker.tsx:21-22 | joining the pieces of a split gives the text back |
| JsText.JoinSplit | src/components/DateTimePicker.tsx:42 | `Join`: splitting pieces joined by a separator they do not hold gives the pieces back |
| JsText.ReplaceFirst | src/components/AtendimentoDetailModal.tsx:24 | `replace(' ', 'T')` changes only the first occurrence |
| JsText.ReplaceAll | src/pages/MovimentacoesPage.tsx:121 | a global replace changes every occurrence and nothing else |
| JsText.RemoveAll | src/pages/MovimentacoesPage.tsx:121 | a global removal leaves no occurrence and adds no character |
| JsText.DigitsOf | src/components/ClienteForm.tsx:48 | `replace(/\D/g, '')` leaves only digits |
| JsText.DigitsOfDigits | src/components/ClienteForm.tsx:48 | a text of digits is its own digits |
| JsText.AsciiLower | src/pages/clientes/ClienteDetails.tsx:130 | `toLowerCase()` for ASCII text: same length, each letter A-Z lowered, every other character kept |
| JsText.NatToString | src/components/AtendimentoDetailModal.tsx:376-378 | the decimal digits of a number, with that value and no leading zero |
| JsText.IntToString | src/pages/clientes/ClienteDetails.tsx:190-191 | `String(n)`: digits with an optional leading '-', never a quote, comma, line feed or 'T' |
| JsText.DigitPrefix | src/components/BateriaForm.tsx:219 | the longest prefix of digits |
| JsText.ParseInt | src/components/BateriaForm.tsx:219 | `parseInt` yields a number exactly when a digit follows the white space and sign |
| JsText.ParseIntToString | src/components/VeiculoForm.tsx:53 | `parseInt` reads back what `String` wrote |
| JsText.ParseFloatDigits | src/pages/MovimentacoesPage.tsx:121 | `parseFloat` of digits, with an optional point and more digits, is their decimal value |
| JsText.DecimalText | src/pages/MovimentacoesPage.tsx:237 | the decimal literal `Number` reads (sign, digits, point, digits, exponent) is only accepted when it holds a digit |
| JsText.DecimalTextToString | src/pages/MovimentacoesPage.tsx:237 | the literal `String(n)` writes is read back as n |
| JsText.ParseFloatToString | src/components/BateriaForm.tsx:221 | `parseFloat` reads an integer written by `String` as that number |
| JsText.ParseFloat | src/components/BateriaForm.tsx:221 | `parseFloat` succeeds exactly when, after an optional sign, the text starts with a decimal literal |
| JsText.TrimStart | src/components/BateriaForm.tsx:133 | the result is a suffix starting with a non-space, and only spaces were dropped |
| JsText.TrimEnd | src/components/BateriaForm.tsx:133 | the result is a prefix ending with a non-space, and only spaces were dropped |
| JsText.DecimalTextExponent | src/pages/MovimentacoesPage.tsx:237 | digits with an exponent are read as the digits scaled by ten to the signed exponent |
| JsText.ParseFloatExponent | src/components/BateriaForm.tsx:221 | `parseFloat` reads digits with an exponent the same way |
| JsText.RadixText | src/pages/MovimentacoesPage.tsx:237 | a text is a radix literal exactly when it is 0, a letter of x, o or b in either case, and at least one digit of that base |
| JsValues.Mul | src/pages/clientes/ClienteDetails.tsx:147 | a product is finite exactly when both factors are, and is then their product |
| JsValues.Add | src/pages/FinanceiroPage.tsx:62-63 | a sum is finite exactly when both terms are, and is then their sum |
| JsValues.OrZero | src/pages/clientes/ClienteDetails.tsx:148 | `Number(x)` or-else 0 turns NaN into 0 and keeps a finite value |
| JsValues.StringToNumber | src/pages/MovimentacoesPage.tsx:237 | `Number(s)`: blank text is 0, a `0x`/`0o`/`0b` literal its value in that base, any other text the decimal literal it spells, and NaN when it spells none |
| JsValues.ExponentNumber | src/pages/MovimentacoesPage.tsx:237 | `Number('12e3')`-style text is the digits scaled by the signed exponent |
| JsValues.RadixNumber | src/pages/MovimentacoesPage.tsx:237 | `Number('0x1F')`-style text is its value in base 16, 8 or 2 |
| JsValues.SignedRadixRejected | src/pages/MovimentacoesPage.tsx:237 | a sign before a radix literal gives NaN |
| JsValues.BareExponentRejected | src/pages/MovimentacoesPage.tsx:237 | digits followed by a bare 'e' give NaN |
| JsValues.CommaRejected | src/pages/MovimentacoesPage.tsx:237 | a decimal comma gives NaN |
| JsValues.Round | src/pages/clientes/ClienteDetails.tsx:170 | `Math.round` is within half of its argument, halves rounding up |
| JsValues.Trunc | src/components/AtendimentoDetailModal.tsx:39 | truncation toward zero, from below for positives and above for negatives |
| Json.OrElse | src/services/atendimentos.service.ts:84 | `v ?? w` falls through only on null or undefined, so 0, false and '' are kept |
| Json.Get | src/services/estoque.service.ts:38-42 | `v?.key` is an object's property, and undefined for a missing key, a nullish value, a primitive or an array |
| Json.ToNumber | src/pages/FinanceiroPage.tsx:62-63 | `Number(v)`: a number is kept, null and [] are 0, undefined and objects are NaN, an array of two or more elements is NaN |
| Json.SingletonArrayNumber | src/pages/FinanceiroPage.tsx:62-63 | an array of one element reads as that element, except that `[undefined]` is 0 and `[true]` or `[{}]` is NaN |
| Json.ToNumberOfIntText | src/pages/FinanceiroPage.tsx:62-63 | `Number` reads back an integer written as text |
| Json.Text | src/services/estoque.service.ts:41 | `String(v)`: a string is itself, undefined 'undefined', null 'null' |
| Json.FalsyKinds | src/pages/clientes/ClienteDetails.tsx:147-148 | the falsy values are null, undefined, false, 0, NaN and '': what a logical or drops and `??` keeps |
| Wrappers.Coalesce | src/pages/clientes/ClienteDetails.tsx:105 | `a ?? b` on optional values |
| RecuperarSenha.ScorePassword | src/components/auth/RecuperarSenhaConfirmar.tsx:5-12 | the score is the number of criteria met (eight or more characters, an upper-case letter, a digit, another symbol), at most 4 |
| RecuperarSenha.Score | src/components/auth/RecuperarSenhaConfirmar.tsx:5-12 | at most 4, and 4 exactly when the password has >= 8 characters, an upper-case letter, a digit and a symbol |
| RecuperarSenha.StrengthLabel | src/components/auth/RecuperarSenhaConfirmar.tsx:14-19 | 'Fraca' exactly for a score <= 1, 'Média' exactly for 2, 'Forte' exactly for 3, 'Muito forte' exactly for 4 or more |
| RecuperarSenha.ScoreMonotone | src/components/auth/RecuperarSenhaConfirmar.tsx:5-12 | typing more characters never lowers the score |
| RecuperarSenha.ScoreZero | src/components/auth/RecuperarSenhaConfirmar.tsx:5-12 | the score is 0 exactly for a password under eight characters made of lower-case letters only |
| RecuperarSenha.LabelOfScore | src/components/auth/RecuperarSenhaConfirmar.tsx:14-19 | `StrengthLabel` of `Score`: 'Muito forte' exactly when all four criteria are met, 'Fraca' exactly when at most one is, 'Média' for two, 'Forte' for three |
| RecuperarSenha.BarWidth | src/components/auth/RecuperarSenhaConfirmar.tsx:122 | the bar is a quarter wider per point, between 0 and 100 percent |
| RecuperarSenha.TextOr | src/components/auth/RecuperarSenhaConfirmar.tsx:81 | `String(v ?? fallback)`: the fallback only for null or undefined, a string as itself |
| RecuperarSenha.ErrorMessage | src/components/auth/RecuperarSenhaConfirmar.tsx:72-87 | a falsy error gives the fallback, a string error itself; a present `response.data.message` decides, through `String(... ?? fallback)`, even when the error has its own message; otherwise an object's own `message` the same way, and the fallback without one; any other value the fallback |
| RecuperarSenha.ServerMessageFirst | src/components/auth/RecuperarSenhaConfirmar.tsx:77-84 | the server's message wins over the error's own |
| RecuperarSenha.NullServerMessage | src/components/auth/RecuperarSenhaConfirmar.tsx:77-81 | a nullish server message gives the fallback, even when the error carries its own message |
| RecuperarSenha.OwnMessage | src/components/auth/RecuperarSenhaConfirmar.tsx:84 | an error without a response shows its own message |
| RecuperarSenha.ResetPage.constructor | src/components/auth/RecuperarSenhaConfirmar.tsx:22-33 | the page starts with nothing validated, empty passwords, no message and not loading |
| RecuperarSenha.ResetPage.CheckToken | src/components/auth/RecuperarSenhaConfirmar.tsx:35-38 | an empty token marks the link invalid and sends nothing; otherwise the check is sent and the page loads |
| RecuperarSenha.ResetPage.TokenChecked | src/components/auth/RecuperarSenhaConfirmar.tsx:39-48 | the link is valid only when the answer's `valid` is exactly true; the e-mail is the answer's or null |
| RecuperarSenha.ResetPage.TokenCheckFailed | src/components/auth/RecuperarSenhaConfirmar.tsx:43-48 | a failed check makes the link invalid |
| RecuperarSenha.ResetPage.SetPassword | src/components/auth/RecuperarSenhaConfirmar.tsx:113 | the new password changes and nothing else |
| RecuperarSenha.ResetPage.SetPasswordConfirm | src/components/auth/RecuperarSenhaConfirmar.tsx:117 | the confirmation changes and nothing else |
| RecuperarSenha.ResetPage.HandleReset | src/components/auth/RecuperarSenhaConfirmar.tsx:53-60 | the request is sent exactly when the two passwords agree and score at least 2; a mismatch is reported before weakness |
| RecuperarSenha.ResetPage.ResetSucceeded | src/components/auth/RecuperarSenhaConfirmar.tsx:68 | the success text is the answer's truthy message (a string as itself, any other value through `String`), otherwise the default |
| RecuperarSenha.ResetPage.ResetFailed | src/components/auth/RecuperarSenhaConfirmar.tsx:70-91 | the error text is the one `getErrorMessage` derives and loading ends |
| AtendimentoForm.NewItem | src/components/AtendimentoForm.tsx:86-94 | a new line has quantity 1 and the first catalogue battery with its price, or battery 0 at price 0 when the catalogue is empty |
| AtendimentoForm.Removed | src/components/AtendimentoForm.tsx:96-98 | the result is no longer than the list and holds no line with that id |
| AtendimentoForm.RemovedMembers | src/components/AtendimentoForm.tsx:96-98 | removing keeps exactly the lines with another id |
| AtendimentoForm.RemovedAppend | src/components/AtendimentoForm.tsx:96-98 | removing keeps the remaining lines in order |
| AtendimentoForm.RemovedAbsent | src/components/AtendimentoForm.tsx:96-98 | a list without that id is left as it is |
| AtendimentoForm.RemovedIdempotent | src/components/AtendimentoForm.tsx:96-98 | removing twice is removing once |
| AtendimentoForm.Find | src/components/AtendimentoForm.tsx:107 | `find` gives a battery with that id from the catalogue, and none exactly when no battery has it |
| AtendimentoForm.FindFirst | src/components/AtendimentoForm.tsx:107 | `find` gives the first battery with that id |
| AtendimentoForm.Edited | src/components/AtendimentoForm.tsx:100-117 | an edit keeps the id; choosing a battery sets it and its price when the battery is known, keeping the price otherwise; a quantity or price edit sets only that value |
| AtendimentoForm.Updated | src/components/AtendimentoForm.tsx:100-117 | same length and ids; every line with the edited id becomes `Edited` of it, every other line is unchanged |
| AtendimentoForm.UpdatedFrames | src/components/AtendimentoForm.tsx:100-117 | an edit changes only the lines with that id and only the edited field, keeping ids and positions |
| AtendimentoForm.BateriaSetsPrice | src/components/AtendimentoForm.tsx:106-110 | choosing a catalogue battery sets the line's price to that battery's price |
| AtendimentoForm.UnknownBateriaKeepsPrice | src/components/AtendimentoForm.tsx:106-110 | choosing a battery the catalogue lacks keeps the price |
| AtendimentoForm.SumAppend | src/components/AtendimentoForm.tsx:186-189 | the plain sum grows by quantity times price per appended line |
| AtendimentoForm.TotalIsSum | src/components/AtendimentoForm.tsx:186-189 | the total is finite exactly when every quantity and price is, and is then the sum of their products |
| AtendimentoForm.TotalAppend | src/components/AtendimentoForm.tsx:186-189 | appending a line adds its quantity times price to the total |
| AtendimentoForm.Total | src/components/AtendimentoForm.tsx:186-189 | the total is a number exactly when every item has a price and a quantity that read as numbers |
| AtendimentoForm.NewItemTotal | src/components/AtendimentoForm.tsx:86-94 | appending a new item keeps the total a number exactly when the new item's price is one, and then adds that price |
| AtendimentoForm.FormatPickerValue | src/components/AtendimentoForm.tsx:133-134 | a picker value 'date T time' is sent as 'date time:00' |
| AtendimentoForm.FormatDate | src/components/AtendimentoForm.tsx:131-134 | a value without 'T' is sent unchanged |
| AtendimentoForm.PayloadItems | src/components/AtendimentoForm.tsx:141-145 | one payload line per form line |
| AtendimentoForm.PayloadIgnoresIds | src/components/AtendimentoForm.tsx:141-145 | the payload lines depend on battery, quantity and price, not on the local id |
| AtendimentoForm.SaleForm.constructor | src/components/AtendimentoForm.tsx:34-45 | the form starts empty, with no customer, vehicle, date, lines or message |
| AtendimentoForm.SaleForm.SelectCliente | src/components/AtendimentoForm.tsx:66-84 | a zero choice clears the customer; a different customer drops the vehicle |
| AtendimentoForm.SaleForm.SelectVeiculo | src/components/AtendimentoForm.tsx:246 | a zero choice clears the vehicle, another sets it |
| AtendimentoForm.SaleForm.SetDate | src/components/AtendimentoForm.tsx:266 | the date changes and nothing else |
| AtendimentoForm.SaleForm.SetObservacoes | src/components/AtendimentoForm.tsx:277 | the notes change and nothing else |
| AtendimentoForm.SaleForm.Cancel | src/components/AtendimentoForm.tsx:402-408 | cancelling clears the sale and keeps the messages |
| AtendimentoForm.SaleForm.LoadFailed | src/components/AtendimentoForm.tsx:57-80 | a failed load of the data or of the vehicles shows its own message and changes nothing else |
| AtendimentoForm.SaleForm.AddItem | src/components/AtendimentoForm.tsx:86-94 | the new line is appended and the total grows by its price |
| AtendimentoForm.SaleForm.RemoveItem | src/components/AtendimentoForm.tsx:96-98 | the lines become the list without that id |
| AtendimentoForm.SaleForm.UpdateItem | src/components/AtendimentoForm.tsx:100-117 | the lines become `Updated` of the old lines: the lines with the id edited, the others kept |
| AtendimentoForm.SaleForm.HandleSubmit | src/components/AtendimentoForm.tsx:119-146 | the sale is sent exactly when customer, vehicle, date and one line are present, with the reformatted date and the lines without ids; otherwise one message |
| AtendimentoForm.SaleForm.Sent | src/components/AtendimentoForm.tsx:150-162 | after a sale the form is cleared and success is shown |
| AtendimentoForm.SaleForm.Failed | src/components/AtendimentoForm.tsx:165-180 | the error shown is the server's message, else the error's own, else the default |
| Movimentacoes.NormalisedMarks | src/pages/MovimentacoesPage.tsx:121 | `Normalised`: normalising leaves no comma and puts a point exactly where a comma was once the points are dropped |
| Movimentacoes.ParseNumber | src/pages/MovimentacoesPage.tsx:117-126 | `parseNumber`: null for null, undefined and '', a finite number as itself, NaN as null, a string through the normalisation and `parseFloat`, anything else null |
| Movimentacoes.ReplaceAbsent | src/pages/MovimentacoesPage.tsx:121 | a text without commas is unchanged by the comma replacement |
| Movimentacoes.RemoveAllParts | src/pages/MovimentacoesPage.tsx:121 | the point removal works part by part |
| Movimentacoes.PointRemoved | src/pages/MovimentacoesPage.tsx:121 | a lone point is removed |
| Movimentacoes.PointDropped | src/pages/MovimentacoesPage.tsx:121 | digit groups split by a thousands point lose only the point |
| Movimentacoes.CommaBecomesPoint | src/pages/MovimentacoesPage.tsx:121 | the decimal comma after digits becomes a point |
| Movimentacoes.NormalisedWithComma | src/pages/MovimentacoesPage.tsx:121 | 'a.b,c' normalises to 'ab.c' |
| Movimentacoes.NormalisedWithoutComma | src/pages/MovimentacoesPage.tsx:121 | 'a.b' normalises to 'ab' |
| Movimentacoes.ParsedAsDecimal | src/pages/MovimentacoesPage.tsx:117-126 | a text normalising to digits, a point and digits is read as their decimal value |
| Movimentacoes.ParsedAsWhole | src/pages/MovimentacoesPage.tsx:117-126 | a text normalising to digits is read as their value |
| Movimentacoes.ThousandsAndComma | src/pages/MovimentacoesPage.tsx:117-126 | Brazilian notation 'a.b,c' is read as the number ab.c |
| Movimentacoes.ThousandsOnly | src/pages/MovimentacoesPage.tsx:117-126 | 'a.b' is read as the whole number ab, the point taken as a thousands mark |
| Movimentacoes.UnitValue | src/pages/MovimentacoesPage.tsx:129-130 | the unit value sent is the parsed number, or 0 when there is none |
| Movimentacoes.IdForBateria | src/pages/MovimentacoesPage.tsx:133 | the product id when it is truthy and reads as a finite non-zero number; the stock entry's id when it is falsy or reads as NaN or 0 |
| Movimentacoes.IdForMappedItem | src/pages/MovimentacoesPage.tsx:53 | for a normalised entry the id used is its non-zero numeric battery id, or its stock id without a battery, and never nullish |
| Movimentacoes.BuildPayload | src/pages/MovimentacoesPage.tsx:135-143 | the payload: the chosen battery id, the type, the origin or 'avulso', the quantity or 0, the unit value, the note or null, no reference |
| Movimentacoes.PayloadDefaults | src/pages/MovimentacoesPage.tsx:138-141 | empty fields give origin 'avulso', no note and unit value 0 |
| Movimentacoes.DefaultPrice | src/pages/MovimentacoesPage.tsx:84-89 | a sale takes the battery's sale price and any other origin its cost, the text unchanged when that price is missing |
| Movimentacoes.DefaultPriceKeys | src/pages/MovimentacoesPage.tsx:86-87 | the snake-case price key wins over the camel-case one; without either the text is kept |
| Movimentacoes.FindById | src/pages/MovimentacoesPage.tsx:159 | the first entry whose id is strictly equal, none exactly when no id is |
| Movimentacoes.Reselect | src/pages/MovimentacoesPage.tsx:159 | the selection becomes an entry of the new list with the same id, or stays when there is none |
| Movimentacoes.ReselectRefreshes | src/pages/MovimentacoesPage.tsx:159 | the first reloaded entry with the same numeric id replaces the selection |
| Movimentacoes.FailureMessage | src/pages/MovimentacoesPage.tsx:162-180 | the server's string message; else an object body as `JSON.stringify`, a truthy scalar body as `String`; without a body the error's truthy message, else the default |
| Movimentacoes.Page.constructor | src/pages/MovimentacoesPage.tsx:16-28 | the page starts empty with an inbound adjustment of one unit at '0.00' |
| Movimentacoes.Page.EstoqueLoaded | src/pages/MovimentacoesPage.tsx:30-45 | the list is stored and its first entry selected |
| Movimentacoes.Page.LoadFailed | src/pages/MovimentacoesPage.tsx:37-61 | a failed load of the list or of the movements shows its own message |
| Movimentacoes.Page.Select | src/pages/MovimentacoesPage.tsx:99-103 | selecting clears the movements and the error |
| Movimentacoes.Page.SelectionChanged | src/pages/MovimentacoesPage.tsx:47-77 | with a selection the movements are fetched for the chosen id and the details for a truthy product id; without one the details are cleared |
| Movimentacoes.Page.MovimentacoesLoaded | src/pages/MovimentacoesPage.tsx:54-55 | the movements are the list inside the answer |
| Movimentacoes.Page.BateriaLoaded | src/pages/MovimentacoesPage.tsx:81-89 | the details are kept and the unit value takes the default price for the origin |
| Movimentacoes.Page.BateriaFailed | src/pages/MovimentacoesPage.tsx:90-93 | failed details are cleared and the unit value is kept |
| Movimentacoes.Page.SetTipo | src/pages/MovimentacoesPage.tsx:224-227 | only 'entrada' and 'saida' change the type |
| Movimentacoes.Page.SetQuantidade | src/pages/MovimentacoesPage.tsx:237 | the quantity is `Number` of the text |
| Movimentacoes.Page.SetValorUnitario | src/pages/MovimentacoesPage.tsx:245 | the unit value text changes and nothing else |
| Movimentacoes.Page.SetOrigem | src/pages/MovimentacoesPage.tsx:71-97 | the origin is set; when it changes while an entry is selected, the battery details are requested again for a truthy product id and cleared without one; nothing else changes |
| Movimentacoes.Page.SetObservacao | src/pages/MovimentacoesPage.tsx:266 | the note changes and nothing else |
| Movimentacoes.Page.ClearForm | src/pages/MovimentacoesPage.tsx:274 | note, quantity and unit value return to their defaults |
| Movimentacoes.Page.HandleSubmit | src/pages/MovimentacoesPage.tsx:105-143 | nothing without a selection; a quantity of zero or less is refused with a message and ends loading; otherwise the payload of the form is sent |
| Movimentacoes.Page.MovementsReloaded | src/pages/MovimentacoesPage.tsx:153-155 | after a movement the reloaded movements are stored at once and nothing else changes, so a failure of the later list reload keeps them |
| Movimentacoes.Page.ListReloaded | src/pages/MovimentacoesPage.tsx:156-161 | the reloaded stock list replaces the old one, the selection follows its entry, the note is cleared and loading ends |
| Movimentacoes.Page.Failed | src/pages/MovimentacoesPage.tsx:162-183 | the error shown is the one `FailureMessage` derives and loading ends |
| EstoqueService.Localizacao | src/services/estoque.service.ts:41 | the record's location, else 'code - model' of a battery with a truthy model, else '' |
| EstoqueService.MapItem | src/services/estoque.service.ts:37-43 | a nullish record throws (None); otherwise the id, quantity, location and date are never nullish and the product id never undefined |
| EstoqueService.ListEstoque | src/services/estoque.service.ts:22-34 | fails exactly when the answer is not a list or holds a nullish record; otherwise one entry per record, in order, each what `mapItem` makes of it |
| EstoqueService.IdOrder | src/services/estoque.service.ts:38 | the id comes from 'id_estoque', else 'id', else 0, and a present 0 is kept |
| EstoqueService.ProdutoIdOrder | src/services/estoque.service.ts:39 | the product id comes from 'id_bateria', else the nested battery's, else null |
| EstoqueService.QuantidadeAndDateOrder | src/services/estoque.service.ts:40-42 | quantity from 'quantidade_atual' then 'quantidade' then 0; date from 'updated_at' then 'created_at' then '' |
| EstoqueService.Movimentacoes | src/services/estoque.service.ts:101-106 | the list inside the envelope, else the body, else an empty list |
| EstoqueService.MovimentacoesShapes | src/services/estoque.service.ts:103-104 | an envelope gives its data and a bare list is returned as it is |
| Financeiro.Filter | src/pages/FinanceiroPage.tsx:64-67 | the filter keeps exactly the accounts whose key has the value (or, for the complement, does not) |
| Financeiro.Total | src/pages/FinanceiroPage.tsx:62-63 | the reduce is a number exactly when every entry's `valor` reads as one, 0 for no entries |
| Financeiro.Summarise | src/pages/FinanceiroPage.tsx:62-68 | both totals, the paid, income and outgoing sums of the matching filters, the profit as their difference, and the pending counts |
| Financeiro.TotalOfMoney | src/pages/FinanceiroPage.tsx:62-63 | accounts carrying non-negative numbers add up to a non-negative number |
| Financeiro.FilterSplitsTotal | src/pages/FinanceiroPage.tsx:64-65 | the accounts kept and left out by a filter split both the count and the total |
| Financeiro.MoneyOfMembers | src/pages/FinanceiroPage.tsx:64-67 | a list drawn from accounts carrying money carries money |
| Financeiro.Sub | src/pages/FinanceiroPage.tsx:68 | a difference is finite exactly when both terms are, and is then their difference |
| Financeiro.PendingIsUnsettled | src/pages/FinanceiroPage.tsx:164-165 | the pending amount is the total of the accounts not marked 'pago', and the settled part lies between 0 and the total |
| Financeiro.LucroSign | src/pages/FinanceiroPage.tsx:141-149 | the profit of money movements is a number, non-negative exactly when the inflow is at least the outflow |
| Financeiro.CountsBounded | src/pages/FinanceiroPage.tsx:133 | the pending and settled counts together never exceed the number of accounts |
| Financeiro.Percentage | src/pages/FinanceiroPage.tsx:175-179 | 0 for a non-positive or NaN total; otherwise part / total * 100, NaN for a NaN part, between 0 and 100 for a part within the total, 100 for the whole |
| Financeiro.SettledPercentage | src/pages/FinanceiroPage.tsx:175-208 | the settled percentage of accounts carrying money lies between 0 and 100 |
| Financeiro.Abs | src/pages/FinanceiroPage.tsx:231 | `Math.abs` is non-negative and equals the number or its negation |
| Financeiro.Quebras | src/pages/FinanceiroPage.tsx:231-232 | the flagged difference is 0 without cash flow or without accounts, and never negative |
| Financeiro.QuebrasValue | src/pages/FinanceiroPage.tsx:231-232 | with cash flow and some account, the flag is abs((entrada + saida) - (totalReceber + totalPagar)), a number exactly when all four sums are |
| Financeiro.QuebrasWhenBalanced | src/pages/FinanceiroPage.tsx:231-232 | when the cash flow matches the accounts nothing is flagged |
| Financeiro.WithAction | src/pages/FinanceiroPage.tsx:288 | a row offers its button exactly when its status is not 'pago' |
| Financeiro.ActionsAndSettledSplit | src/pages/FinanceiroPage.tsx:279-288 | the rows with a button and the settled rows split the list |
| Financeiro.ListOrEmpty | src/pages/FinanceiroPage.tsx:43-49 | a fulfilled answer's list as it is, a falsy one as an empty list |
| Financeiro.LoadError | src/pages/FinanceiroPage.tsx:53 | the server's truthy message, else the error's truthy message, else 'Erro ao carregar dados financeiros'; never falsy |
| Financeiro.SettleError | src/pages/FinanceiroPage.tsx:297-298 | with `??` only null and undefined fall through to the error's message and then the default |
| Financeiro.EmptyServerMessage | src/pages/FinanceiroPage.tsx:53 | an empty server message is skipped by the load error and shown by the settle alert |
| AtendimentosService.First | src/services/atendimentos.service.ts:89-90 | `a ?? b ?? c`: the first of the three that is not null or undefined, else the last |
| AtendimentosService.MapBateria | src/services/atendimentos.service.ts:125-134 | the nested battery: 'id_bateria' else 'id', and the snake-case keys before the camel-case ones for warranty and prices |
| AtendimentosService.MapItem | src/services/atendimentos.service.ts:116-124 | an item maps exactly when it is not nullish; 'id_item' else 'id'; either warranty key; a battery exactly when the item has a truthy one |
| AtendimentosService.MapItems | src/services/atendimentos.service.ts:116-135 | the items map exactly when none is nullish, keeping their number and order |
| AtendimentosService.ValorServico | src/services/atendimentos.service.ts:97 | a text price is parsed, NaN when it has no number; otherwise 'valor_servico' else 'valorServico' else undefined |
| AtendimentosService.MapAtendimento | src/services/atendimentos.service.ts:83-136 | a record maps exactly when it is not nullish and its truthy 'itens' is a list without nullish items; the items are there exactly when 'itens' is truthy; id, customer id and status are never nullish |
| AtendimentosService.IdsKeepZero | src/services/atendimentos.service.ts:84-87 | the id and customer id come from the snake-case key, then the camel-case one, then 0, and a present 0 is kept |
| AtendimentosService.StatusDefault | src/services/atendimentos.service.ts:93 | the status is 'aberto' when absent and otherwise kept as it came |
| AtendimentosService.ValorServicoCases | src/services/atendimentos.service.ts:97 | a numeric price is kept, a text price becomes a number, and without either key it is undefined |
| AtendimentosService.NestedPresence | src/services/atendimentos.service.ts:99-115 | the customer and the vehicle are there exactly when the record has them, with their fields copied |
| AtendimentosService.ItemsInOrder | src/services/atendimentos.service.ts:116-135 | the k-th item of the result is the k-th raw item mapped |
| AtendimentosService.ListAtendimentos | src/services/atendimentos.service.ts:138-142 | fails when the body is not a list or one record throws; otherwise every record maps, in order and with the same length |

## Left out

- HTTP: every request function and the axios client are out; an answer or a thrown error is a method's argument instead.
- React effects, `async`/`await`, `setTimeout`, `Promise.all` and `Promise.allSettled`: a handler that awaits is split into the method that starts it and the methods that take its outcome (`Sent`, `Failed`, `MovementsReloaded`, `ListReloaded`, `TokenChecked`, …). The order in which concurrent answers arrive is not modelled.
- The clock: `now`, `currentYear`, the picker's initial month and today's date are parameters.
- Time zones and daylight saving: dates are civil fields in one zone, with milliseconds since 1970 in that zone.
- The JavaScript `Date` string grammar: the parameter `parse` stands for it. Only the normalisation before it (the first space to 'T', the retry with 'Z') is modelled.
- Formatting: `toISOString`, `toFixed`, `toLocale*`, `JSON.stringify` and `String` of numbers and arrays are the parameters `iso`, `show` and `stringify`. Nothing is proved about what they print.
- Floating point: a number is a real or NaN, with no rounding and no infinities. `margem`, the percentages and the bar widths are exact reals.
- JsText.ParseFloat: reads sign, digits, point, digits and exponent, but not 'Infinity'.
- JsValues.StringToNumber: reads blank text, radix literals and decimal literals with exponents, but not 'Infinity', and produces the exact value rather than the nearest double. The number inputs at src/components/AtendimentoForm.tsx:340,353 pass numbers through the same reading.
- JsText.AsciiLower: lowers A-Z only. It stands for `toLowerCase()` only where the compared text is ASCII, like the status word 'ativo'.
- WarrantyGroups.ItemKey: a NaN expiry (from an unparseable purchase date) is read as +infinity. In the source `?? Number.POSITIVE_INFINITY` keeps the NaN, and the comparator then returns NaN, which leaves the order to the engine's sort.
- WarrantyGroups.EarliestExpiry: `Math.min` over items that include a NaN expiry is NaN in the source; the model takes the least of the keys, with NaN read as +infinity.
- WarrantyGroups.RunningGroups: the order among groups whose earliest expiry is NaN in the source is not modelled; those groups sort last here.
- WarrantyGroups.ExpiredGroups: the same as RunningGroups for a NaN earliest expiry.
- WarrantyGroups.DetailOrder: items with a NaN expiry sort last here, where the source's comparator returns NaN for them.
- Strings are sequences of Unicode scalar values. JavaScript lengths count UTF-16 code units, so the two differ for characters outside the Basic Multilingual Plane.
- `Math.random` item ids are taken as an argument.
- The dropdown loading of BateriaForm, the vehicle list of AtendimentoForm, the `ensureAtendimentoDetails` fetch of the customer page and the Blob download of the CSV are I/O. Only the data they produce is modelled.
- The navigation after a password reset, and the `tipo` sent with the token, are routing and request details.
- ClienteDetails inputs are typed records with optional fields rather than loose JSON. A field of an unexpected JSON type is outside the model.
- Financeiro.Total: a `null` entry in an account list throws in the source when `c.valor` is read. The model reads it as undefined, which gives NaN.
- Movimentacoes.Page.HandleSubmit: the quantity guard `quantidade <= 0` is false for NaN, so a NaN quantity is let through and sent as 0, exactly as the source does.
- Movimentacoes.Page.ListReloaded: requires a selection, because the submit that leads to it returns early without one.
- Movimentacoes.ThousandsAndComma: states the concrete cases '1.234,56' and '12.50' for all digit groups rather than for those two literals.
- AtendimentoForm.SaleForm.Failed: the axios error is abstracted to its `message` and the server's message, given as an option.
- AtendimentoForm.SaleForm.SelectCliente: drops the vehicle at once, where the source clears it when the vehicle list arrives.
- RegisterForm.Progress: states the range and the ordering of the three widths, not that they are exactly 33, 66 and 100.
- RecuperarSenha.ResetPage.TokenChecked: the e-mail is stored but its display is not modelled.
