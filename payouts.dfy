/**
  * The payout service: closing a business week against the stored partners and
  * expenses, and reading a stored settlement back. The three tables are the
  * fields of a `Session`; row ids and creation timestamps are not modelled, so
  * payouts are keyed by their week end, which the payouts table keeps unique.
  * Amounts are whole hundredths, as the Numeric(12, 2) columns hold them.
  */
module Payouts {
  import opened Wrappers
  import opened Decimals
  import opened Calendar
  import opened Settlement
  import opened Scheduler

  /** A date Python can represent. */
  type Date = d: int | MinOrdinal <= d <= MaxOrdinal witness MinOrdinal

  /** A partners row; `splitRatio` is the stored Numeric(5, 4). */
  datatype Partner = Partner(id: int, name: string, splitRatio: real)

  /** An expenses row, `amount` in hundredths. */
  datatype Expense = Expense(partnerId: int, date: int, amount: int)

  /** A payouts row, amounts in hundredths. */
  datatype Payout = Payout(weekStart: int, weekEnd: int, ifoodAmount: int, ninety9Amount: int,
                           rentFee: int, rule: string)

  /** A value of the stored breakdown JSON object: a string, or the object of expense strings. */
  datatype JsonValue = JText(text: string) | JObject(entries: map<string, string>)

  /** The members of the stored breakdown JSON object. */
  datatype Key =
    | RentFee | IncomeTotal | ReimbRafael | ReimbGuilherme | NetForSplit
    | ShareRafael | ShareGuilherme | TotalRafael | TotalGuilherme
    | WeekStart | WeekEnd | IfoodAmount | Ninety9Amount | ExpensesKey

  /** The member name each key has in the JSON text. */
  function KeyName(k: Key): string {
    match k
    case RentFee => "rent_fee"
    case IncomeTotal => "income_total"
    case ReimbRafael => "reimb_rafael"
    case ReimbGuilherme => "reimb_guilherme"
    case NetForSplit => "net_for_split"
    case ShareRafael => "share_rafael"
    case ShareGuilherme => "share_guilherme"
    case TotalRafael => "total_rafael"
    case TotalGuilherme => "total_guilherme"
    case WeekStart => "week_start"
    case WeekEnd => "week_end"
    case IfoodAmount => "ifood_amount"
    case Ninety9Amount => "ninety9_amount"
    case ExpensesKey => "expenses"
  }

  /** A settlements row: seven amount columns in hundredths and the breakdown JSON object. */
  datatype SettlementRow = SettlementRow(
    reimbRafael: int, reimbGuilherme: int, netForSplit: int,
    shareRafael: int, shareGuilherme: int, totalRafael: int, totalGuilherme: int,
    breakdownJson: map<Key, JsonValue>)

  /** A closed week: its payout row and the settlement row that belongs to it. */
  datatype ClosedWeek = ClosedWeek(payout: Payout, settlement: SettlementRow)

  /** The close-week body once parsed: amounts in hundredths (two decimal places, never negative). */
  datatype CloseRequest = CloseRequest(weekEnd: Date, ifoodAmount: nat, ninety9Amount: nat,
                                       rentFee: nat, rule: string)

  /** A settlement as the API returns it, without the row ids and the timestamp. */
  datatype SettlementResponse = SettlementResponse(
    reimbRafael: real, reimbGuilherme: real, netForSplit: real,
    shareRafael: real, shareGuilherme: real, totalRafael: real, totalGuilherme: real,
    rentFee: real, incomeTotal: real, weekStart: int, weekEnd: int)

  datatype HttpError = HttpError(status: int, detail: string)

  const RuleNotAllowed := HttpError(422, "Input should be 'rent_before_split' or 'rent_after_split'")
  const NotWednesday := HttpError(422, "week_end must be a Wednesday")
  const DateOutOfRange := HttpError(500, "date value out of range")
  const AlreadyClosed := HttpError(400, "Week already closed")
  const PartnersNotSeeded := HttpError(400, "Partners not seeded")
  const PartnersMissing := HttpError(400, "Required partners missing")
  const ServerError := HttpError(500, "Internal Server Error")
  const SettlementNotFound := HttpError(404, "Settlement not found")

  /** The two rule names the request schema admits. */
  predicate IsRule(rule: string) {
    rule == RentBeforeSplit || rule == RentAfterSplit
  }

  /** Rows in ascending id order, as `order_by(Partner.id)` returns them. */
  predicate IdOrdered(partners: seq<Partner>) {
    forall i, j | 0 <= i < j < |partners| :: partners[i].id < partners[j].id
  }

  /** The partners table keeps names unique. */
  predicate DistinctNames(partners: seq<Partner>) {
    forall i, j | 0 <= i < j < |partners| :: partners[i].name != partners[j].name
  }

  // ---------------------------------------------------------------------------
  // Helpers of close_week

  /** `_get_partners`: the partners in id order, refused when fewer than two are seeded. */
  function GetPartners(partners: seq<Partner>): (r: Result<seq<Partner>, HttpError>)
    ensures r.Failure? <==> |partners| < 2
    ensures r.Failure? ==> r.error == PartnersNotSeeded
    ensures r.Success? ==> r.value == partners
  {
    if |partners| < 2 then Failure(PartnersNotSeeded) else Success(partners)
  }

  /** `{partner.name: partner for partner in partners}`: every name present, each mapped to a partner of that name. */
  function PartnersByName(partners: seq<Partner>): (m: map<string, Partner>)
  {
    if partners == [] then map[]
    else
      var last := partners[|partners| - 1];
      PartnersByName(partners[..|partners| - 1])[last.name := last]
  }

  /** Every partner's name is in the map, and each name maps to a partner of that name. */
  lemma {:induction false} PartnersByNameCovers(partners: seq<Partner>)
    ensures forall p | p in partners :: p.name in PartnersByName(partners)
    ensures forall n | n in PartnersByName(partners) ::
      PartnersByName(partners)[n] in partners && PartnersByName(partners)[n].name == n
  {
    if partners != [] {
      var init := partners[..|partners| - 1];
      PartnersByNameCovers(init);
      assert partners == init + [partners[|partners| - 1]];
    }
  }

  /** With unique names, the map finds each partner by its own name. */
  lemma {:induction false} PartnerFoundByName(partners: seq<Partner>, i: nat)
    requires DistinctNames(partners) && i < |partners|
    ensures partners[i].name in PartnersByName(partners) && PartnersByName(partners)[partners[i].name] == partners[i]
  {
    PartnersByNameCovers(partners);
    var m := PartnersByName(partners);
    var p := m[partners[i].name];
    var k :| 0 <= k < |partners| && partners[k] == p;
    assert partners[k].name == partners[i].name;
  }

  /** Whether `_sum_expenses` adds this row: the partner's, dated within [start, end]. */
  predicate Counts(e: Expense, partnerId: int, start: int, end: int) {
    e.partnerId == partnerId && start <= e.date <= end
  }

  /** `_sum_expenses`: the partner's expenses dated within [start, end], added up; 0 when there are none. */
  function SumExpenses(expenses: seq<Expense>, partnerId: int, start: int, end: int): int {
    if expenses == [] then 0
    else
      var e := expenses[|expenses| - 1];
      SumExpenses(expenses[..|expenses| - 1], partnerId, start, end)
      + (if Counts(e, partnerId, start, end) then e.amount else 0)
  }

  /** A new row adds its amount exactly when it counts. */
  lemma SumExpensesAppend(expenses: seq<Expense>, x: Expense, partnerId: int, start: int, end: int)
    ensures SumExpenses(expenses + [x], partnerId, start, end)
         == SumExpenses(expenses, partnerId, start, end) + (if Counts(x, partnerId, start, end) then x.amount else 0)
  {
    assert (expenses + [x])[..|expenses|] == expenses;
  }

  /** The sum over two batches of rows is the sum of the two sums. */
  lemma {:induction false} SumExpensesConcat(a: seq<Expense>, b: seq<Expense>, partnerId: int, start: int, end: int)
    ensures SumExpenses(a + b, partnerId, start, end)
         == SumExpenses(a, partnerId, start, end) + SumExpenses(b, partnerId, start, end)
  {
    if b == [] {
      assert a + b == a;
    } else {
      var init, x := b[..|b| - 1], b[|b| - 1];
      assert b == init + [x];
      assert a + b == (a + init) + [x];
      SumExpensesConcat(a, init, partnerId, start, end);
      SumExpensesAppend(a + init, x, partnerId, start, end);
      SumExpensesAppend(init, x, partnerId, start, end);
    }
  }

  /**
    * With positive amounts, as expenses are created, the total is never negative,
    * and it is zero exactly when no row counts.
    */
  lemma {:induction false} SumExpensesZeroIffNone(expenses: seq<Expense>, partnerId: int, start: int, end: int)
    requires forall e | e in expenses :: e.amount > 0
    ensures SumExpenses(expenses, partnerId, start, end) >= 0
    ensures SumExpenses(expenses, partnerId, start, end) == 0
        <==> forall e | e in expenses :: !Counts(e, partnerId, start, end)
  {
    if expenses != [] {
      var init := expenses[..|expenses| - 1];
      SumExpensesZeroIffNone(init, partnerId, start, end);
      assert expenses == init + [expenses[|expenses| - 1]];
    }
  }

  /** `{partner.name: _sum_expenses(...) for partner in partners}`: one total per partner name. */
  function ExpensesMap(partners: seq<Partner>, expenses: seq<Expense>, start: int, end: int): (m: map<string, int>)
  {
    if partners == [] then map[]
    else
      var last := partners[|partners| - 1];
      ExpensesMap(partners[..|partners| - 1], expenses, start, end)
        [last.name := SumExpenses(expenses, last.id, start, end)]
  }

  /** One total per partner name, each the sum of that partner's expenses in [start, end]. */
  lemma {:induction false} ExpensesMapTotals(partners: seq<Partner>, expenses: seq<Expense>, start: int, end: int)
    ensures ExpensesMap(partners, expenses, start, end).Keys == PartnersByName(partners).Keys
    ensures forall n | n in ExpensesMap(partners, expenses, start, end) ::
      ExpensesMap(partners, expenses, start, end)[n] == SumExpenses(expenses, PartnersByName(partners)[n].id, start, end)
  {
    if partners != [] {
      ExpensesMapTotals(partners[..|partners| - 1], expenses, start, end);
    }
  }

  /** The expense totals as the Decimals handed to the settlement engine. */
  function AsDecimals(m: map<string, int>): map<string, real> {
    map k | k in m :: Hundredths(m[k])
  }

  /** `_decimal_map`: every total written as two-decimal text under the same name. */
  function DecimalMap(data: map<string, int>): (r: map<string, string>)
    ensures r.Keys == data.Keys
  {
    map k | k in data :: CentsText(data[k])
  }

  /** Each text of `_decimal_map` reads back as the amount it was written from. */
  lemma DecimalMapReadsBack(data: map<string, int>, k: string)
    requires k in data
    ensures var r := ParseDecimal(DecimalMap(data)[k]); r.Some? && r.value == Hundredths(data[k])
  {
    CentsTextRoundTrip(data[k]);
  }

  /** The keys of the nine breakdown amounts. */
  const AmountKeys: set<Key> := {RentFee, IncomeTotal, ReimbRafael, ReimbGuilherme, NetForSplit,
                                 ShareRafael, ShareGuilherme, TotalRafael, TotalGuilherme}

  /** The breakdown amount filed under an amount key. */
  function AmountOf(b: Breakdown, k: Key): int
    requires k in AmountKeys
  {
    match k
    case RentFee => b.rentFee
    case IncomeTotal => b.incomeTotal
    case ReimbRafael => b.reimbRafael
    case ReimbGuilherme => b.reimbGuilherme
    case NetForSplit => b.netForSplit
    case ShareRafael => b.shareRafael
    case ShareGuilherme => b.shareGuilherme
    case TotalRafael => b.totalRafael
    case TotalGuilherme => b.totalGuilherme
    case WeekStart | WeekEnd | IfoodAmount | Ninety9Amount | ExpensesKey => 0
  }

  /** Every member of the stored breakdown JSON object. */
  const PayloadKeys: set<Key> := AmountKeys + {WeekStart, WeekEnd, IfoodAmount, Ninety9Amount, ExpensesKey}

  /**
    * The `breakdown_json` object close week stores: each breakdown amount as
    * `format(value, "0.2f")`, updated with the week's ISO dates, the two incomes
    * and the expense totals.
    */
  function PayloadTotals(b: Breakdown, weekStart: Date, weekEnd: Date, req: CloseRequest,
                         expensesMap: map<string, int>): map<Key, JsonValue> {
    map k | k in PayloadKeys :: PayloadValue(b, weekStart, weekEnd, req, expensesMap, k)
  }

  /** The value filed under one member of the stored object. */
  function PayloadValue(b: Breakdown, weekStart: Date, weekEnd: Date, req: CloseRequest,
                        expensesMap: map<string, int>, k: Key): JsonValue {
    if k in AmountKeys then JText(CentsText(AmountOf(b, k)))
    else RequestValue(weekStart, weekEnd, req, expensesMap, k)
  }

  /** The members the request and the week contribute: dates, incomes and expense totals. */
  function RequestValue(weekStart: Date, weekEnd: Date, req: CloseRequest, expensesMap: map<string, int>,
                        k: Key): JsonValue {
    match k
    case WeekStart => JText(IsoText(weekStart))
    case WeekEnd => JText(IsoText(weekEnd))
    case IfoodAmount => JText(CentsText(req.ifoodAmount))
    case Ninety9Amount => JText(CentsText(req.ninety9Amount))
    case _ => JObject(DecimalMap(expensesMap))
  }

  /** The settlement the API answers with, from a breakdown and its week (signed amounts allowed). */
  function ResponseOf(b: Breakdown, weekStart: int, weekEnd: int): SettlementResponse {
    SettlementResponse(
      Hundredths(b.reimbRafael), Hundredths(b.reimbGuilherme), Hundredths(b.netForSplit),
      Hundredths(b.shareRafael), Hundredths(b.shareGuilherme),
      Hundredths(b.totalRafael), Hundredths(b.totalGuilherme),
      Hundredths(b.rentFee), Hundredths(b.incomeTotal), weekStart, weekEnd)
  }

  // ---------------------------------------------------------------------------
  // _settlement_to_schema

  /** `Decimal(breakdown[key])`: None when the key is missing or its text is not a number. */
  function DecimalField(j: map<Key, JsonValue>, key: Key): Option<real> {
    if key in j && j[key].JText? then ParseDecimal(j[key].text) else None
  }

  /** `date.fromisoformat(breakdown[key])`: None when missing or not a YYYY-MM-DD date. */
  function DateField(j: map<Key, JsonValue>, key: Key): Option<int> {
    if key in j && j[key].JText? then ParseIso(j[key].text) else None
  }

  /** The nine amount members `_settlement_to_schema` reads, in its order. */
  const ResponseAmountKeys: seq<Key> := [ReimbRafael, ReimbGuilherme, NetForSplit, ShareRafael,
                                         ShareGuilherme, TotalRafael, TotalGuilherme, RentFee, IncomeTotal]

  /** `Decimal(breakdown[key])` for each key in turn: the first missing or unreadable one fails the read. */
  function ReadDecimals(j: map<Key, JsonValue>, keys: seq<Key>): (r: Option<seq<real>>)
    ensures r.Some? ==> |r.value| == |keys|
  {
    if keys == [] then Some([])
    else
      var v :- DecimalField(j, keys[0]);
      var rest :- ReadDecimals(j, keys[1..]);
      Some([v] + rest)
  }

  /** The amounts filed under the keys, as Decimals. */
  function AmountsOf(b: Breakdown, keys: seq<Key>): (r: seq<real>)
    requires forall k | k in keys :: k in AmountKeys
    ensures |r| == |keys|
    ensures forall i | 0 <= i < |keys| :: r[i] == Hundredths(AmountOf(b, keys[i]))
  {
    if keys == [] then [] else [Hundredths(AmountOf(b, keys[0]))] + AmountsOf(b, keys[1..])
  }

  /**
    * `_settlement_to_schema`: every amount and both dates come from the stored
    * JSON, in the source's order; any missing or unreadable field fails the read.
    */
  function SettlementToSchema(row: SettlementRow): Option<SettlementResponse> {
    var j := row.breakdownJson;
    var a :- ReadDecimals(j, ResponseAmountKeys);
    var weekStart :- DateField(j, WeekStart);
    var weekEnd :- DateField(j, WeekEnd);
    Some(SettlementResponse(a[0], a[1], a[2], a[3], a[4], a[5], a[6], a[7], a[8], weekStart, weekEnd))
  }

  /**
    * What close week stores reads back as what it answered: any JSON object holding
    * the breakdown texts and the two ISO dates yields the response of that breakdown.
    */
  lemma StoredRowReadsBack(b: Breakdown, weekStart: Date, weekEnd: Date, row: SettlementRow)
    requires forall k | k in AmountKeys :: k in row.breakdownJson && row.breakdownJson[k] == JText(CentsText(AmountOf(b, k)))
    requires WeekStart in row.breakdownJson && row.breakdownJson[WeekStart] == JText(IsoText(weekStart))
    requires WeekEnd in row.breakdownJson && row.breakdownJson[WeekEnd] == JText(IsoText(weekEnd))
    ensures SettlementToSchema(row) == Some(ResponseOf(b, weekStart, weekEnd))
  {
    AmountsReadBack(b, row.breakdownJson, ResponseAmountKeys);
    DatesReadBack(row.breakdownJson, weekStart, weekEnd);
    ResponseAmounts(b);
  }

  /** The response's amounts, in the order they are read. */
  lemma ResponseAmounts(b: Breakdown)
    ensures var a := AmountsOf(b, ResponseAmountKeys);
      && a[0] == Hundredths(b.reimbRafael) && a[1] == Hundredths(b.reimbGuilherme)
      && a[2] == Hundredths(b.netForSplit) && a[3] == Hundredths(b.shareRafael)
      && a[4] == Hundredths(b.shareGuilherme) && a[5] == Hundredths(b.totalRafael)
      && a[6] == Hundredths(b.totalGuilherme) && a[7] == Hundredths(b.rentFee)
      && a[8] == Hundredths(b.incomeTotal)
  {
  }

  /** Both ISO dates read back as the days they were written from. */
  lemma DatesReadBack(j: map<Key, JsonValue>, weekStart: Date, weekEnd: Date)
    requires WeekStart in j && j[WeekStart] == JText(IsoText(weekStart))
    requires WeekEnd in j && j[WeekEnd] == JText(IsoText(weekEnd))
    ensures DateField(j, WeekStart).Some? && DateField(j, WeekStart).value == weekStart
    ensures DateField(j, WeekEnd).Some? && DateField(j, WeekEnd).value == weekEnd
  {
    IsoRoundTrip(weekStart);
    IsoRoundTrip(weekEnd);
  }

  /** Breakdown texts read back, key by key, as the breakdown's amounts. */
  lemma {:induction false} AmountsReadBack(b: Breakdown, j: map<Key, JsonValue>, keys: seq<Key>)
    requires forall k | k in keys :: k in AmountKeys
    requires forall k | k in AmountKeys :: k in j && j[k] == JText(CentsText(AmountOf(b, k)))
    ensures var r := ReadDecimals(j, keys); r.Some? && r.value == AmountsOf(b, keys)
  {
    if keys != [] {
      CentsReadBack(j, keys[0], AmountOf(b, keys[0]));
      AmountsReadBack(b, j, keys[1..]);
    }
  }

  lemma CentsReadBack(j: map<Key, JsonValue>, key: Key, c: int)
    requires key in j && j[key] == JText(CentsText(c))
    ensures DecimalField(j, key).Some? && DecimalField(j, key).value == Hundredths(c)
  {
    CentsTextRoundTrip(c);
  }

  /** A stored object without one of the response's amounts cannot be read back. */
  lemma MissingFieldUnreadable(row: SettlementRow, k: Key)
    requires k in ResponseAmountKeys && k !in row.breakdownJson
    ensures SettlementToSchema(row) == None
  {
    MissingKeyFails(row.breakdownJson, ResponseAmountKeys, k);
  }

  /** Reading stops with a failure at any key the object lacks. */
  lemma {:induction false} MissingKeyFails(j: map<Key, JsonValue>, keys: seq<Key>, k: Key)
    requires k in keys && k !in j
    ensures ReadDecimals(j, keys) == None
  {
    if keys[0] != k {
      MissingKeyFails(j, keys[1..], k);
    }
  }

  // ---------------------------------------------------------------------------
  // close_week

  /** A request passes every guard of close week against the closed weeks and the partners. */
  predicate Admits(req: CloseRequest, closedWeeks: set<int>, partners: seq<Partner>) {
    && IsRule(req.rule)
    && Weekday(req.weekEnd) == Wednesday
    && req.weekEnd - 6 >= MinOrdinal
    && req.weekEnd !in closedWeeks
    && |partners| >= 2
    && Rafael in PartnersByName(partners) && Guilherme in PartnersByName(partners)
  }

  /** The breakdown close week computes for a request that passed every guard. */
  function WeekSettlement(partners: seq<Partner>, expenses: seq<Expense>, req: CloseRequest): (b: Breakdown)
    requires IsRule(req.rule)
    requires Rafael in PartnersByName(partners) && Guilherme in PartnersByName(partners)
  {
    SettleTotals(ExpensesMap(partners, expenses, WeekBounds(req.weekEnd).0, req.weekEnd), req, Split(partners))
  }

  /** The two partners' split ratios, as close week hands them to the settlement. */
  function Split(partners: seq<Partner>): (real, real)
    requires Rafael in PartnersByName(partners) && Guilherme in PartnersByName(partners)
  {
    (PartnersByName(partners)[Rafael].splitRatio, PartnersByName(partners)[Guilherme].splitRatio)
  }

  /** `compute_settlement` on the week's expense totals and the request's amounts. */
  function SettleTotals(expensesMap: map<string, int>, req: CloseRequest, split: (real, real)): Breakdown
    requires IsRule(req.rule)
  {
    ComputeSettlement(AsDecimals(expensesMap), Hundredths(req.ifoodAmount), Hundredths(req.ninety9Amount),
                      Hundredths(req.rentFee), split, req.rule).value
  }

  /** Each partner is reimbursed exactly their expenses dated within the closed week. */
  lemma {:induction false} WeekReimbursesWeekExpenses(partners: seq<Partner>, expenses: seq<Expense>, req: CloseRequest)
    requires IsRule(req.rule)
    requires Rafael in PartnersByName(partners) && Guilherme in PartnersByName(partners)
    ensures WeekSettlement(partners, expenses, req).reimbRafael
            == SumExpenses(expenses, PartnersByName(partners)[Rafael].id, WeekBounds(req.weekEnd).0, req.weekEnd)
    ensures WeekSettlement(partners, expenses, req).reimbGuilherme
            == SumExpenses(expenses, PartnersByName(partners)[Guilherme].id, WeekBounds(req.weekEnd).0, req.weekEnd)
    ensures WeekSettlement(partners, expenses, req).incomeTotal == req.ifoodAmount + req.ninety9Amount
    ensures WeekSettlement(partners, expenses, req).rentFee == req.rentFee
  {
    var em := ExpensesMap(partners, expenses, WeekBounds(req.weekEnd).0, req.weekEnd);
    ExpensesMapTotals(partners, expenses, WeekBounds(req.weekEnd).0, req.weekEnd);
    CentsOfHundredths(em[Rafael]);
    CentsOfHundredths(em[Guilherme]);
    CentsOfHundredths(req.rentFee);
    CentsOfHundredths(req.ifoodAmount + req.ninety9Amount);
  }

  /** An expense no partner's week total counts (another week, an unknown partner) leaves the totals alone. */
  lemma {:induction false} ExpensesMapIgnores(partners: seq<Partner>, expenses: seq<Expense>, x: Expense,
                                              start: int, end: int)
    requires forall p | p in partners :: !Counts(x, p.id, start, end)
    ensures ExpensesMap(partners, expenses + [x], start, end) == ExpensesMap(partners, expenses, start, end)
  {
    if partners != [] {
      var last := partners[|partners| - 1];
      ExpensesMapIgnores(partners[..|partners| - 1], expenses, x, start, end);
      SumExpensesAppend(expenses, x, last.id, start, end);
    }
  }

  /** So recording such an expense does not change the week's settlement. */
  lemma ExpenseOutsideWeekIgnored(partners: seq<Partner>, expenses: seq<Expense>, x: Expense, req: CloseRequest)
    requires IsRule(req.rule)
    requires Rafael in PartnersByName(partners) && Guilherme in PartnersByName(partners)
    requires x.date < req.weekEnd - 6 || x.date > req.weekEnd
    ensures WeekSettlement(partners, expenses + [x], req) == WeekSettlement(partners, expenses, req)
  {
    ExpensesMapIgnores(partners, expenses, x, WeekBounds(req.weekEnd).0, req.weekEnd);
    SameTotalsSameSettlement(partners, expenses + [x], expenses, req);
  }

  /** Expense rows with the same week totals give the same settlement. */
  lemma SameTotalsSameSettlement(partners: seq<Partner>, e1: seq<Expense>, e2: seq<Expense>, req: CloseRequest)
    requires IsRule(req.rule)
    requires Rafael in PartnersByName(partners) && Guilherme in PartnersByName(partners)
    requires ExpensesMap(partners, e1, WeekBounds(req.weekEnd).0, req.weekEnd) == ExpensesMap(partners, e2, WeekBounds(req.weekEnd).0, req.weekEnd)
    ensures WeekSettlement(partners, e1, req) == WeekSettlement(partners, e2, req)
  {
    SettlesWeekTotals(partners, e1, req);
    SettlesWeekTotals(partners, e2, req);
  }

  /** The week's settlement reads the expense rows only through the per-partner week totals. */
  lemma SettlesWeekTotals(partners: seq<Partner>, expenses: seq<Expense>, req: CloseRequest)
    requires IsRule(req.rule)
    requires Rafael in PartnersByName(partners) && Guilherme in PartnersByName(partners)
    ensures WeekSettlement(partners, expenses, req)
      == SettleTotals(ExpensesMap(partners, expenses, WeekBounds(req.weekEnd).0, req.weekEnd), req, Split(partners))
  {
  }

  /** A week that has been closed: keyed by its Wednesday, and its stored settlement reads back as that week. */
  predicate StoredWeek(weekEnd: int, w: ClosedWeek) {
    && Weekday(weekEnd) == Wednesday
    && w.payout.weekEnd == weekEnd && w.payout.weekStart == weekEnd - 6
    && match SettlementToSchema(w.settlement)
       case Some(s) => s.weekStart == weekEnd - 6 && s.weekEnd == weekEnd
       case None => false
  }

  /** The payout row close week inserts. */
  function PayoutOf(req: CloseRequest): Payout {
    Payout(WeekBounds(req.weekEnd).0, req.weekEnd, req.ifoodAmount, req.ninety9Amount, req.rentFee, req.rule)
  }

  /** The settlement row close week inserts. */
  function RowOf(b: Breakdown, payloadTotals: map<Key, JsonValue>): SettlementRow {
    SettlementRow(b.reimbRafael, b.reimbGuilherme, b.netForSplit, b.shareRafael, b.shareGuilherme,
                  b.totalRafael, b.totalGuilherme, payloadTotals)
  }

  /** The payout and settlement rows close week files for a breakdown and the week's expense totals. */
  function FiledWeek(b: Breakdown, req: CloseRequest, expensesMap: map<string, int>): ClosedWeek
    requires req.weekEnd - 6 >= MinOrdinal
  {
    ClosedWeek(PayoutOf(req), RowOf(b, PayloadTotals(b, WeekBounds(req.weekEnd).0, req.weekEnd, req, expensesMap)))
  }

  /** The rows close week stores for a Wednesday read back as its answer and make a valid closed week. */
  lemma ClosedWeekStored(b: Breakdown, req: CloseRequest, expensesMap: map<string, int>)
    requires Weekday(req.weekEnd) == Wednesday && req.weekEnd - 6 >= MinOrdinal
    ensures SettlementToSchema(FiledWeek(b, req, expensesMap).settlement)
            == Some(ResponseOf(b, WeekBounds(req.weekEnd).0, req.weekEnd))
    ensures StoredWeek(req.weekEnd, FiledWeek(b, req, expensesMap))
  {
    var j := PayloadTotals(b, WeekBounds(req.weekEnd).0, req.weekEnd, req, expensesMap);
    PayloadHoldsBreakdown(b, WeekBounds(req.weekEnd).0, req.weekEnd, req, expensesMap);
    PayloadHoldsWeek(b, WeekBounds(req.weekEnd).0, req.weekEnd, req, expensesMap);
    StoredRowReadsBack(b, WeekBounds(req.weekEnd).0, req.weekEnd, RowOf(b, j));
  }

  /** The stored object holds every breakdown text under its key. */
  lemma PayloadHoldsBreakdown(b: Breakdown, weekStart: Date, weekEnd: Date, req: CloseRequest,
                              expensesMap: map<string, int>)
    ensures var j := PayloadTotals(b, weekStart, weekEnd, req, expensesMap);
      forall k | k in AmountKeys :: k in j && j[k] == JText(CentsText(AmountOf(b, k)))
  {
    forall k | k in AmountKeys
      ensures var j := PayloadTotals(b, weekStart, weekEnd, req, expensesMap);
        k in j && j[k] == JText(CentsText(AmountOf(b, k)))
    {
      PayloadLookup(b, weekStart, weekEnd, req, expensesMap, k);
    }
  }

  /** The stored object holds the week's first and last day as ISO dates. */
  lemma PayloadHoldsWeek(b: Breakdown, weekStart: Date, weekEnd: Date, req: CloseRequest,
                         expensesMap: map<string, int>)
    ensures var j := PayloadTotals(b, weekStart, weekEnd, req, expensesMap);
      && WeekStart in j && j[WeekStart] == JText(IsoText(weekStart))
      && WeekEnd in j && j[WeekEnd] == JText(IsoText(weekEnd))
  {
    PayloadLookup(b, weekStart, weekEnd, req, expensesMap, WeekStart);
    PayloadLookup(b, weekStart, weekEnd, req, expensesMap, WeekEnd);
    RequestMember(b, weekStart, weekEnd, req, expensesMap, WeekStart);
    RequestMember(b, weekStart, weekEnd, req, expensesMap, WeekEnd);
    WeekValues(weekStart, weekEnd, req, expensesMap);
  }

  /** Every member of the stored object holds its payload value. */
  lemma PayloadLookup(b: Breakdown, weekStart: Date, weekEnd: Date, req: CloseRequest,
                      expensesMap: map<string, int>, k: Key)
    ensures var j := PayloadTotals(b, weekStart, weekEnd, req, expensesMap);
      k in j && j[k] == PayloadValue(b, weekStart, weekEnd, req, expensesMap, k)
  {
  }

  /** A member that is not a breakdown amount holds what the request and the week give it. */
  lemma RequestMember(b: Breakdown, weekStart: Date, weekEnd: Date, req: CloseRequest,
                      expensesMap: map<string, int>, k: Key)
    requires k.WeekStart? || k.WeekEnd? || k.IfoodAmount? || k.Ninety9Amount? || k.ExpensesKey?
    ensures PayloadValue(b, weekStart, weekEnd, req, expensesMap, k) == RequestValue(weekStart, weekEnd, req, expensesMap, k)
  {
    NotAmountKey(k);
  }

  lemma NotAmountKey(k: Key)
    requires k.WeekStart? || k.WeekEnd? || k.IfoodAmount? || k.Ninety9Amount? || k.ExpensesKey?
    ensures k !in AmountKeys
  {
  }

  /** The two date members hold the ISO texts of the week's bounds. */
  lemma WeekValues(weekStart: Date, weekEnd: Date, req: CloseRequest, expensesMap: map<string, int>)
    ensures RequestValue(weekStart, weekEnd, req, expensesMap, WeekStart) == JText(IsoText(weekStart))
    ensures RequestValue(weekStart, weekEnd, req, expensesMap, WeekEnd) == JText(IsoText(weekEnd))
  {
  }

  /** Every closed week on file is filed under its own Wednesday and reads back as that week. */
  predicate AllStored(closed: map<int, ClosedWeek>) {
    forall e | e in closed :: StoredWeek(e, closed[e])
  }

  /** Filing an admitted week keeps every closed week well formed, and the new one reads back as the response. */
  lemma WeekFiled(partners: seq<Partner>, expenses: seq<Expense>, req: CloseRequest, closed: map<int, ClosedWeek>)
    requires AllStored(closed) && Admits(req, closed.Keys, partners)
    ensures AllStored(closed[req.weekEnd := FiledWeek(WeekSettlement(partners, expenses, req), req,
                                              ExpensesMap(partners, expenses, WeekBounds(req.weekEnd).0, req.weekEnd))])
    ensures SettlementToSchema(FiledWeek(WeekSettlement(partners, expenses, req), req,
                                         ExpensesMap(partners, expenses, WeekBounds(req.weekEnd).0, req.weekEnd)).settlement)
            == Some(ResponseOf(WeekSettlement(partners, expenses, req), WeekBounds(req.weekEnd).0, req.weekEnd))
  {
    var b := WeekSettlement(partners, expenses, req);
    var em := ExpensesMap(partners, expenses, WeekBounds(req.weekEnd).0, req.weekEnd);
    ClosedWeekStored(b, req, em);
    StoredWeeksExtend(closed, req.weekEnd, FiledWeek(b, req, em));
  }

  /** Filing one more well-formed closed week keeps every closed week well formed. */
  lemma StoredWeeksExtend(closed: map<int, ClosedWeek>, weekEnd: int, w: ClosedWeek)
    requires AllStored(closed) && StoredWeek(weekEnd, w)
    ensures AllStored(closed[weekEnd := w])
  {
  }

  /** The database as close week sees it. */
  class Session {
    var partners: seq<Partner>
    var expenses: seq<Expense>
    var closed: map<int, ClosedWeek>

    ghost predicate Valid()
      reads this
    {
      && IdOrdered(partners)
      && DistinctNames(partners)
      && AllStored(closed)
    }

    constructor (partners: seq<Partner>, expenses: seq<Expense>)
      requires IdOrdered(partners) && DistinctNames(partners)
      ensures Valid()
      ensures this.partners == partners && this.expenses == expenses && closed == map[]
    {
      this.partners := partners;
      this.expenses := expenses;
      closed := map[];
    }

    /**
      * `close_week`: the guards in the source's order (the rule is refused by request
      * validation before the handler runs), then the settlement of the week's inputs,
      * stored with its payout under the week's Wednesday and returned.
      */
    method CloseWeek(req: CloseRequest) returns (r: Result<SettlementResponse, HttpError>)
      requires Valid()
      modifies this
      ensures Valid()
      ensures partners == old(partners) && expenses == old(expenses)
      ensures !IsRule(req.rule) ==> r == Failure(RuleNotAllowed)
      ensures IsRule(req.rule) && Weekday(req.weekEnd) != Wednesday ==> r == Failure(NotWednesday)
      ensures (IsRule(req.rule) && Weekday(req.weekEnd) == Wednesday && req.weekEnd - 6 < MinOrdinal)
              ==> r == Failure(DateOutOfRange)
      ensures (IsRule(req.rule) && Weekday(req.weekEnd) == Wednesday && req.weekEnd - 6 >= MinOrdinal
               && req.weekEnd in old(closed))
              ==> r == Failure(AlreadyClosed)
      ensures (IsRule(req.rule) && Weekday(req.weekEnd) == Wednesday && req.weekEnd - 6 >= MinOrdinal
               && req.weekEnd !in old(closed) && |partners| < 2)
              ==> r == Failure(PartnersNotSeeded)
      ensures (IsRule(req.rule) && Weekday(req.weekEnd) == Wednesday && req.weekEnd - 6 >= MinOrdinal
               && req.weekEnd !in old(closed) && |partners| >= 2
               && (Rafael !in PartnersByName(partners) || Guilherme !in PartnersByName(partners)))
              ==> r == Failure(PartnersMissing)
      ensures r.Success? <==> Admits(req, old(closed).Keys, partners)
      ensures r.Failure? ==> closed == old(closed)
      ensures r.Success? ==>
        && closed == old(closed)[req.weekEnd := FiledWeek(WeekSettlement(partners, expenses, req), req,
                                   ExpensesMap(partners, expenses, WeekBounds(req.weekEnd).0, req.weekEnd))]
        && r.value == ResponseOf(WeekSettlement(partners, expenses, req), WeekBounds(req.weekEnd).0, req.weekEnd)
        && SettlementToSchema(closed[req.weekEnd].settlement) == Some(r.value)
    {
      if !IsRule(req.rule) {
        return Failure(RuleNotAllowed);
      }
      if Weekday(req.weekEnd) != Wednesday {
        return Failure(NotWednesday);
      }
      if req.weekEnd - 6 < MinOrdinal {
        return Failure(DateOutOfRange);
      }
      var (weekStart, weekEnd) := WeekBounds(req.weekEnd);
      if req.weekEnd in closed {
        return Failure(AlreadyClosed);
      }
      var ps :- GetPartners(partners);
      var byName := PartnersByName(ps);
      if Rafael !in byName || Guilherme !in byName {
        return Failure(PartnersMissing);
      }
      var response := FileWeek(req);
      return Success(response);
    }

    /**
      * The success path of close week: the week's expense totals, the settlement,
      * the stored object, the payout and settlement rows, and the response.
      */
    method FileWeek(req: CloseRequest) returns (response: SettlementResponse)
      requires Valid() && Admits(req, closed.Keys, partners)
      modifies this
      ensures Valid()
      ensures partners == old(partners) && expenses == old(expenses)
      ensures closed == old(closed)[req.weekEnd := FiledWeek(WeekSettlement(partners, expenses, req), req,
                                      ExpensesMap(partners, expenses, WeekBounds(req.weekEnd).0, req.weekEnd))]
      ensures response == ResponseOf(WeekSettlement(partners, expenses, req), WeekBounds(req.weekEnd).0, req.weekEnd)
      ensures SettlementToSchema(closed[req.weekEnd].settlement) == Some(response)
    {
      var (weekStart, weekEnd) := WeekBounds(req.weekEnd);
      var expensesMap := ExpensesMap(partners, expenses, weekStart, weekEnd);
      var breakdown := SettleTotals(expensesMap, req, Split(partners));
      var payloadTotals := PayloadTotals(breakdown, weekStart, weekEnd, req, expensesMap);
      var payout := PayoutOf(req);
      var settlement := RowOf(breakdown, payloadTotals);
      SettlesWeekTotals(partners, expenses, req);
      WeekFiled(partners, expenses, req, closed);
      closed := closed[weekEnd := ClosedWeek(payout, settlement)];
      response := ResponseOf(breakdown, weekStart, weekEnd);
    }

    /**
      * `close_week` as written: the same guards and the same two rows, committed
      * before the response is built, so an amount the response schema refuses turns
      * the answer into a server error while the week stays closed.
      */
    method CloseWeekAsWritten(req: CloseRequest) returns (r: Result<SettlementResponse, HttpError>)
      requires Valid()
      modifies this
      ensures Valid()
      ensures partners == old(partners) && expenses == old(expenses)
      ensures !Admits(req, old(closed).Keys, partners) ==> r.Failure? && closed == old(closed)
      ensures (IsRule(req.rule) && Weekday(req.weekEnd) == Wednesday && req.weekEnd - 6 >= MinOrdinal
               && req.weekEnd in old(closed))
              ==> r == Failure(AlreadyClosed)
      ensures Admits(req, old(closed).Keys, partners) ==>
        && closed == old(closed)[req.weekEnd := FiledWeek(WeekSettlement(partners, expenses, req), req,
                                   ExpensesMap(partners, expenses, WeekBounds(req.weekEnd).0, req.weekEnd))]
        && SettlementToSchema(closed[req.weekEnd].settlement)
           == Some(ResponseOf(WeekSettlement(partners, expenses, req), WeekBounds(req.weekEnd).0, req.weekEnd))
        && r == ResponseAsWritten(WeekSettlement(partners, expenses, req), WeekBounds(req.weekEnd).0, req.weekEnd)
    {
      r := CloseWeek(req);
      if r.Success? {
        r := ValidateResponse(r.value);
      }
    }

    /**
      * `get_settlement` as written: an unknown week is not found, and a stored week
      * whose amounts the response schema refuses is answered with a server error.
      */
    function ReadSettlementAsWritten(weekEnd: int): (r: Result<SettlementResponse, HttpError>)
      requires Valid()
      reads this
      ensures weekEnd !in closed ==> r == Failure(SettlementNotFound)
      ensures weekEnd in closed ==> r == ValidateResponse(ReadSettlement(weekEnd).value)
    {
      match ReadSettlement(weekEnd)
      case None => Failure(SettlementNotFound)
      case Some(s) => ValidateResponse(s)
    }

    /**
      * A week whose settlement has an amount the response schema refuses, as written:
      * closing it stores both rows yet answers with a server error, a retry is refused
      * as already closed, and reading the week back fails with a server error too.
      */
    method RefusedWeekStaysClosed(req: CloseRequest)
      returns (first: Result<SettlementResponse, HttpError>, retry: Result<SettlementResponse, HttpError>,
               read: Result<SettlementResponse, HttpError>)
      requires Valid() && Admits(req, closed.Keys, partners)
      requires ResponseAsWritten(WeekSettlement(partners, expenses, req), WeekBounds(req.weekEnd).0, req.weekEnd).Failure?
      modifies this
      ensures Valid()
      ensures req.weekEnd !in old(closed) && req.weekEnd in closed
      ensures first == Failure(ServerError)
      ensures retry == Failure(AlreadyClosed)
      ensures read == Failure(ServerError)
    {
      first := CloseWeekAsWritten(req);
      retry := CloseWeekAsWritten(req);
      read := ReadSettlementAsWritten(req.weekEnd);
    }

    /** `get_settlement`, looked up by week end: every closed week can be read back. */
    function ReadSettlement(weekEnd: int): (r: Option<SettlementResponse>)
      requires Valid()
      reads this
      ensures r.Some? <==> weekEnd in closed
      ensures r.Some? ==> r.value.weekEnd == weekEnd && r.value.weekStart == weekEnd - 6
    {
      if weekEnd in closed then SettlementToSchema(closed[weekEnd].settlement) else None
    }
  }

  // ---------------------------------------------------------------------------
  // The response schema as written

  /** The Money constraint of the response schema: not negative, at most ten whole digits. */
  predicate MoneyAccepts(x: real) {
    0.0 <= x < 10000000000.0
  }

  /**
    * The response schema as written: every amount is validated as `Money`, and a
    * value it refuses surfaces as a server error.
    */
  function ValidateResponse(s: SettlementResponse): (r: Result<SettlementResponse, HttpError>)
    ensures r.Success? <==>
      && MoneyAccepts(s.reimbRafael) && MoneyAccepts(s.reimbGuilherme) && MoneyAccepts(s.netForSplit)
      && MoneyAccepts(s.shareRafael) && MoneyAccepts(s.shareGuilherme) && MoneyAccepts(s.totalRafael)
      && MoneyAccepts(s.totalGuilherme) && MoneyAccepts(s.rentFee) && MoneyAccepts(s.incomeTotal)
    ensures r.Success? ==> r.value == s
    ensures r.Failure? ==> r.error == ServerError
  {
    if && MoneyAccepts(s.reimbRafael) && MoneyAccepts(s.reimbGuilherme) && MoneyAccepts(s.netForSplit)
       && MoneyAccepts(s.shareRafael) && MoneyAccepts(s.shareGuilherme) && MoneyAccepts(s.totalRafael)
       && MoneyAccepts(s.totalGuilherme) && MoneyAccepts(s.rentFee) && MoneyAccepts(s.incomeTotal)
    then Success(s)
    else Failure(ServerError)
  }

  /**
    * Building the response as the source does: the schema validates every amount
    * as Money, so a settlement with a negative amount fails with a server error.
    */
  function ResponseAsWritten(b: Breakdown, weekStart: int, weekEnd: int): (r: Result<SettlementResponse, HttpError>)
    ensures r.Success? <==>
      && MoneyAccepts(Hundredths(b.reimbRafael)) && MoneyAccepts(Hundredths(b.reimbGuilherme))
      && MoneyAccepts(Hundredths(b.netForSplit)) && MoneyAccepts(Hundredths(b.shareRafael))
      && MoneyAccepts(Hundredths(b.shareGuilherme)) && MoneyAccepts(Hundredths(b.totalRafael))
      && MoneyAccepts(Hundredths(b.totalGuilherme)) && MoneyAccepts(Hundredths(b.rentFee))
      && MoneyAccepts(Hundredths(b.incomeTotal))
    ensures r.Success? ==> r.value == ResponseOf(b, weekStart, weekEnd)
    ensures r.Failure? ==> r.error == ServerError
  {
    ValidateResponse(ResponseOf(b, weekStart, weekEnd))
  }

  /**
    * The settlement's own third test case (expenses 800 and 200 against an income of 600)
    * has a negative net and a negative total: as written its response is refused, while
    * the signed response reports -450.00 and -25.00.
    */
  lemma NegativeWeekRefusedAsWritten(weekStart: int, weekEnd: int)
    ensures var b := ComputeSettlement(map[Rafael := 800.0, Guilherme := 200.0], 500.0, 100.0).value;
      && ResponseAsWritten(b, weekStart, weekEnd) == Failure(ServerError)
      && ResponseOf(b, weekStart, weekEnd).netForSplit == -450.0
      && ResponseOf(b, weekStart, weekEnd).totalGuilherme == -25.0
  {
    NegativeNetCase();
  }
}
