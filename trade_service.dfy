// The trade service: the per-trade arithmetic (profit/loss, pips, risk:reward),
// the filtered and paged trade list, and the operations that create, update,
// close, soft-delete and restore trades and store their custom field values.
// The trade and custom-field tables are sequences held by the service object.

module TradeServices {
  import opened Common
  import opened Domain
  import opened Text
  import opened Numeric
  import opened Linq
  import opened TradeDtos
  import opened TradeValidators

  // ---------------------------------------------------------------------------
  // Per-trade arithmetic

  /** `GetPipValue`: the price step of one pip, chosen from the upper-cased symbol. */
  function GetPipValue(symbol: string): (pip: real)
    ensures pip == 0.01 <==> Contains(ToUpper(symbol), "JPY")
    ensures pip == 0.1 <==>
      (!Contains(ToUpper(symbol), "JPY") && (Contains(ToUpper(symbol), "XAU") || Contains(ToUpper(symbol), "GOLD")))
    ensures pip == 0.0001 <==>
      (!Contains(ToUpper(symbol), "JPY") && !Contains(ToUpper(symbol), "XAU") && !Contains(ToUpper(symbol), "GOLD"))
  {
    var upper := ToUpper(symbol);
    if Contains(upper, "JPY") then 0.01
    else if Contains(upper, "XAU") || Contains(upper, "GOLD") then 0.1
    else 0.0001
  }

  /** The price move in the trade's favour: exit minus entry for a buy; for a
    * sell, and for any other stored direction value, entry minus exit. */
  function PriceDiff(t: Trade): real
    requires t.exitPrice.Some?
  {
    if t.direction == BuyValue then t.exitPrice.value - t.entryPrice
    else t.entryPrice - t.exitPrice.value
  }

  /** `CalculateProfitLoss`: pips times volume times 10 (the approximate value of a
    * pip per standard lot), less commission and swap; 0 with no exit price. */
  function CalculateProfitLoss(t: Trade): (pl: real)
    ensures t.exitPrice.None? ==> pl == 0.0
  {
    if t.exitPrice.None? then 0.0
    else PriceDiff(t) / GetPipValue(t.symbol) * t.volume * 10.0 - t.commission - t.swap
  }

  /** `CalculatePips`: the price move in pips, rounded to one decimal; 0 with no exit price. */
  function CalculatePips(t: Trade): (pips: real)
    ensures t.exitPrice.None? ==> pips == 0.0
  {
    if t.exitPrice.None? then 0.0
    else Round(PriceDiff(t) / GetPipValue(t.symbol), OneDecimal)
  }

  /** `CalculateRR`: the reward (favourable price move) over the risk (distance
    * from entry to stop loss), rounded to two decimals. */
  function CalculateRR(t: Trade): (rr: Option<real>)
    ensures rr.None? <==> t.stopLoss.None? || t.exitPrice.None? || t.entryPrice == t.stopLoss.value
  {
    if t.stopLoss.None? || t.exitPrice.None? then None
    else
      var risk := Abs(t.entryPrice - t.stopLoss.value);
      if risk == 0.0 then None
      else Some(Round(PriceDiff(t) / risk, TwoDecimals))
  }

  /** The same trade taken in the other direction. */
  function Reversed(t: Trade): Trade {
    t.(direction := if t.direction == BuyValue then SellValue else BuyValue)
  }

  /** Reversing the direction negates the price move. */
  lemma PriceDiffReversed(t: Trade)
    requires t.exitPrice.Some?
    ensures PriceDiff(Reversed(t)) == -PriceDiff(t)
  {
  }

  /** Swapping direction negates the gross result: buy and sell results of the
    * same prices add up to twice the costs, taken off. */
  lemma ProfitLossReversed(t: Trade)
    requires t.exitPrice.Some?
    ensures CalculateProfitLoss(t) + CalculateProfitLoss(Reversed(t)) == -2.0 * (t.commission + t.swap)
  {
    PriceDiffReversed(t);
    var pip := GetPipValue(t.symbol);
    assert (-PriceDiff(t)) / pip == -(PriceDiff(t) / pip);
  }

  /** With no costs and a positive volume, a trade makes money exactly when the
    * price moved in its favour. */
  lemma ProfitLossSign(t: Trade)
    requires t.exitPrice.Some? && t.volume > 0.0 && t.commission == 0.0 && t.swap == 0.0
    ensures CalculateProfitLoss(t) > 0.0 <==> PriceDiff(t) > 0.0
    ensures CalculateProfitLoss(t) == 0.0 <==> PriceDiff(t) == 0.0
  {
    var pip := GetPipValue(t.symbol);
    var pips := PriceDiff(t) / pip;
    assert pips > 0.0 <==> PriceDiff(t) > 0.0;
    assert pips == 0.0 <==> PriceDiff(t) == 0.0;
    assert CalculateProfitLoss(t) == pips * (t.volume * 10.0);
  }

  /** Pips are antisymmetric in the direction: rounding ties to even treats both signs alike. */
  lemma PipsReversed(t: Trade)
    requires t.exitPrice.Some?
    ensures CalculatePips(Reversed(t)) == -CalculatePips(t)
  {
    PriceDiffReversed(t);
    var pip := GetPipValue(t.symbol);
    assert (-PriceDiff(t)) / pip == -(PriceDiff(t) / pip);
    RoundNegate(PriceDiff(t) / pip, OneDecimal);
  }

  /** The risk:reward ratio is antisymmetric in the direction as well. */
  lemma RiskRewardReversed(t: Trade)
    requires CalculateRR(t).Some?
    ensures CalculateRR(Reversed(t)) == Some(-CalculateRR(t).value)
  {
    PriceDiffReversed(t);
    var risk := Abs(t.entryPrice - t.stopLoss.value);
    assert (-PriceDiff(t)) / risk == -(PriceDiff(t) / risk);
    RoundNegate(PriceDiff(t) / risk, TwoDecimals);
  }

  /** The stored results agree with the trade's own prices and costs. */
  predicate HasComputedResults(t: Trade) {
    && t.profitLoss == Some(CalculateProfitLoss(t))
    && t.profitLossPips == Some(CalculatePips(t))
    && t.riskRewardRatio == CalculateRR(t)
  }

  /** The stored results of a closed trade: profit/loss, pips and risk:reward. */
  function Recalculated(t: Trade): (r: Trade)
    ensures r.profitLoss == Some(CalculateProfitLoss(t))
    ensures r.profitLossPips == Some(CalculatePips(t))
    ensures r.riskRewardRatio == CalculateRR(t)
    ensures HasComputedResults(r)
    ensures r.(profitLoss := t.profitLoss, profitLossPips := t.profitLossPips, riskRewardRatio := t.riskRewardRatio) == t
  {
    var r := t.(profitLoss := Some(CalculateProfitLoss(t)),
                profitLossPips := Some(CalculatePips(t)),
                riskRewardRatio := CalculateRR(t));
    assert CalculateProfitLoss(r) == CalculateProfitLoss(t);
    assert CalculatePips(r) == CalculatePips(t);
    assert CalculateRR(r) == CalculateRR(t);
    r
  }

  // ---------------------------------------------------------------------------
  // The trade list: filters, totals, ordering and paging

  /** `t.Symbol.Contains(...)`, `ToLower().Contains(...)` and the other filter
    * conditions; a filter property that is not given imposes nothing. */
  predicate MatchesFilter(t: Trade, f: TradeFilterDto) {
    && !t.isDeleted
    && (f.accountId.Some? ==> t.accountId == f.accountId.value)
    && (f.symbol.Some? && !IsBlank(f.symbol.value) ==> Contains(t.symbol, f.symbol.value))
    && (f.direction.Some? ==> t.direction == f.direction.value)
    && (f.fromDate.Some? ==> t.entryTime >= f.fromDate.value)
    && (f.toDate.Some? ==> t.entryTime <= f.toDate.value)
    && (f.isClosed.Some? ==> t.isClosed == f.isClosed.value)
    // a comparison with a null profit/loss or rating is false
    && (f.isProfit == Some(true) ==> t.profitLoss.Some? && t.profitLoss.value > 0.0)
    && (f.isProfit == Some(false) ==> t.profitLoss.Some? && t.profitLoss.value < 0.0)
    && (f.minRating.Some? ==> t.executionRating.Some? && t.executionRating.value >= f.minRating.value)
    && (f.searchText.Some? && !IsBlank(f.searchText.value) ==> MatchesSearch(t, ToLower(f.searchText.value)))
  }

  predicate MatchesSearch(t: Trade, search: string) {
    || Contains(ToLower(t.symbol), search)
    || (t.entryReason.Some? && Contains(ToLower(t.entryReason.value), search))
    || (t.preTradeNotes.Some? && Contains(ToLower(t.preTradeNotes.value), search))
  }

  /** The trades the filter lets through, in table order. */
  function Filtered(ts: seq<Trade>, f: TradeFilterDto): (r: seq<Trade>)
    ensures |r| <= |ts|
    ensures forall t :: t in r <==> t in ts && MatchesFilter(t, f)
  {
    if ts == [] then []
    else Filtered(ts[..|ts| - 1], f) + (if MatchesFilter(ts[|ts| - 1], f) then [ts[|ts| - 1]] else [])
  }

  /** Sum of the profit/loss values that are present. */
  function SumProfitLoss(ts: seq<Trade>): real {
    if ts == [] then 0.0
    else SumProfitLoss(ts[..|ts| - 1]) + ts[|ts| - 1].profitLoss.GetOr(0.0)
  }

  /** Number of closed trades with a profit/loss that satisfies `p`. */
  function CountClosed(ts: seq<Trade>, p: real -> bool): nat {
    if ts == [] then 0
    else
      var t := ts[|ts| - 1];
      CountClosed(ts[..|ts| - 1], p) + if t.isClosed && t.profitLoss.Some? && p(t.profitLoss.value) then 1 else 0
  }

  function NumberClosedWithResult(ts: seq<Trade>): nat {
    if ts == [] then 0
    else
      var t := ts[|ts| - 1];
      NumberClosedWithResult(ts[..|ts| - 1]) + if t.isClosed && t.profitLoss.Some? then 1 else 0
  }

  /** Wins are results above 0 and losses results of at most 0, so together they
    * are exactly the closed trades with a result. */
  lemma {:induction false} WinsAndLossesPartition(ts: seq<Trade>)
    ensures CountClosed(ts, x => x > 0.0) + CountClosed(ts, x => x <= 0.0) == NumberClosedWithResult(ts)
    ensures NumberClosedWithResult(ts) <= |ts|
  {
    if ts != [] {
      WinsAndLossesPartition(ts[..|ts| - 1]);
    }
  }

  /** Null sorts first, as in an ascending SQL ordering. */
  predicate OptionLe(a: Option<real>, b: Option<real>) {
    a.None? || (b.Some? && a.value <= b.value)
  }

  /** The ordering `SortBy` (compared lower-cased) selects: symbol, profit/loss,
    * volume, or entry time for any other key; `descending` reverses it. */
  function TradeOrder(sortBy: Option<string>, descending: bool): (Trade, Trade) -> bool {
    var key := if sortBy.None? then "" else ToLower(sortBy.value);
    if key == "symbol" then
      (if descending then (a: Trade, b: Trade) => OrdinalLe(b.symbol, a.symbol)
       else (a: Trade, b: Trade) => OrdinalLe(a.symbol, b.symbol))
    else if key == "profitloss" then
      (if descending then (a: Trade, b: Trade) => OptionLe(b.profitLoss, a.profitLoss)
       else (a: Trade, b: Trade) => OptionLe(a.profitLoss, b.profitLoss))
    else if key == "volume" then
      (if descending then (a: Trade, b: Trade) => b.volume <= a.volume
       else (a: Trade, b: Trade) => a.volume <= b.volume)
    else
      (if descending then (a: Trade, b: Trade) => b.entryTime <= a.entryTime
       else (a: Trade, b: Trade) => a.entryTime <= b.entryTime)
  }

  lemma TradeOrderIsPreorder(sortBy: Option<string>, descending: bool)
    ensures TotalPreorder(TradeOrder(sortBy, descending))
  {
    forall a: string, b: string ensures OrdinalLe(a, b) || OrdinalLe(b, a) {
      OrdinalLeTotal(a, b);
    }
    forall a: string, b: string, c: string | OrdinalLe(a, b) && OrdinalLe(b, c) ensures OrdinalLe(a, c) {
      OrdinalLeTransitive(a, b, c);
    }
  }

  /** The filtered trades in the requested order: a permutation of them, sorted. */
  function Ordered(ts: seq<Trade>, f: TradeFilterDto): (r: seq<Trade>)
    ensures multiset(r) == multiset(Filtered(ts, f))
    ensures SortedBy(r, TradeOrder(f.sortBy, f.sortDescending))
  {
    TradeOrderIsPreorder(f.sortBy, f.sortDescending);
    SortBy(Filtered(ts, f), TradeOrder(f.sortBy, f.sortDescending))
  }

  /** How many ordered trades the pages before the requested one hold. */
  function PageStart(f: TradeFilterDto): (n: int)
    ensures f.pageNumber >= 1 && f.pageSize >= 0 ==> n >= 0
  {
    assert f.pageNumber >= 1 && f.pageSize >= 0 ==> (f.pageNumber - 1) * f.pageSize >= 0 by {
      if f.pageNumber >= 1 && f.pageSize >= 0 {
        NonNegativeProduct(f.pageNumber - 1, f.pageSize);
      }
    }
    (f.pageNumber - 1) * f.pageSize
  }

  lemma NonNegativeProduct(a: int, b: int)
    requires a >= 0 && b >= 0
    ensures a * b >= 0
  {
  }

  /** `GetTradesAsync`: the filtered trades counted and totalled, then ordered,
    * then the requested page of them: skip (page − 1) × size, take size. */
  function GetTrades(ts: seq<Trade>, f: TradeFilterDto): (r: TradePagedResultDto)
    ensures r.totalCount == |Filtered(ts, f)| && r.pageNumber == f.pageNumber && r.pageSize == f.pageSize
    ensures f.pageSize >= 0 ==> |r.items| <= f.pageSize
  {
    var rows := Filtered(ts, f);
    var ordered := Ordered(ts, f);
    TradePagedResultDto(
      Take(Skip(ordered, PageStart(f)), f.pageSize),
      |rows|,
      f.pageNumber,
      f.pageSize,
      SumProfitLoss(rows),
      CountClosed(rows, x => x > 0.0),
      CountClosed(rows, x => x <= 0.0))
  }

  /** The page holds at most `PageSize` trades; the count covers every filtered trade. */
  lemma GetTradesCounts(ts: seq<Trade>, f: TradeFilterDto)
    ensures GetTrades(ts, f).totalCount == |Filtered(ts, f)|
    ensures f.pageSize >= 0 ==> |GetTrades(ts, f).items| <= f.pageSize
    ensures GetTrades(ts, f).winCount + GetTrades(ts, f).lossCount <= GetTrades(ts, f).totalCount
  {
    WinsAndLossesPartition(Filtered(ts, f));
  }

  /** Every trade on the page is a stored trade that passes the filter. */
  lemma GetTradesMembers(ts: seq<Trade>, f: TradeFilterDto, t: Trade)
    requires t in GetTrades(ts, f).items
    ensures t in ts && MatchesFilter(t, f)
  {
    var ordered := Ordered(ts, f);
    var page := Take(Skip(ordered, PageStart(f)), f.pageSize);
    assert page <= Skip(ordered, PageStart(f));
    assert t in ordered;
    assert t in multiset(ordered);
  }

  /** The i-th trade on the page is the trade at position (page − 1) × size + i
    * of the ordered list. */
  lemma GetTradesPosition(ts: seq<Trade>, f: TradeFilterDto, i: int)
    requires f.pageNumber >= 1 && f.pageSize >= 0
    requires 0 <= i < |GetTrades(ts, f).items|
    ensures PageStart(f) + i < |Ordered(ts, f)|
    ensures GetTrades(ts, f).items[i] == Ordered(ts, f)[PageStart(f) + i]
  {
    PageContents(Ordered(ts, f), PageStart(f), f.pageSize, i);
  }

  /** The count, the total and the win/loss counts do not depend on which page is asked for. */
  lemma GetTradesTotalsIgnorePage(ts: seq<Trade>, f: TradeFilterDto, page: int, size: int)
    ensures var a := GetTrades(ts, f);
      var b := GetTrades(ts, f.(pageNumber := page, pageSize := size));
      a.totalCount == b.totalCount && a.totalProfitLoss == b.totalProfitLoss
      && a.winCount == b.winCount && a.lossCount == b.lossCount
  {
    var g := f.(pageNumber := page, pageSize := size);
    assert forall t :: MatchesFilter(t, f) == MatchesFilter(t, g);
    assert Filtered(ts, f) == Filtered(ts, g) by {
      FilteredDependsOnConditions(ts, f, g);
    }
  }

  lemma {:induction false} FilteredDependsOnConditions(ts: seq<Trade>, f: TradeFilterDto, g: TradeFilterDto)
    requires forall t :: MatchesFilter(t, f) == MatchesFilter(t, g)
    ensures Filtered(ts, f) == Filtered(ts, g)
  {
    if ts != [] {
      FilteredDependsOnConditions(ts[..|ts| - 1], f, g);
    }
  }

  // ---------------------------------------------------------------------------
  // Lookups in the tables

  predicate UniqueIds(ts: seq<Trade>) {
    forall i, j :: 0 <= i < j < |ts| ==> ts[i].id != ts[j].id
  }

  predicate IdsBelow(ts: seq<Trade>, next: int) {
    forall i :: 0 <= i < |ts| ==> ts[i].id < next
  }

  /** Inserting a trade with the next identity keeps the ids unique. */
  lemma AppendKeepsIds(ts: seq<Trade>, t: Trade, next: int)
    requires UniqueIds(ts) && IdsBelow(ts, next) && t.id == next
    ensures UniqueIds(ts + [t]) && IdsBelow(ts + [t], next + 1)
  {
  }

  /** The position of the trade with a given id (the primary-key lookup). */
  function IndexOf(ts: seq<Trade>, id: int): (r: Option<nat>)
    ensures r.Some? ==> r.value < |ts| && ts[r.value].id == id
    ensures r.None? <==> forall i :: 0 <= i < |ts| ==> ts[i].id != id
  {
    if ts == [] then None
    else if ts[|ts| - 1].id == id then Some(|ts| - 1)
    else IndexOf(ts[..|ts| - 1], id)
  }

  /** With unique ids the lookup finds the one trade that has the id. */
  lemma IndexOfUnique(ts: seq<Trade>, i: nat)
    requires UniqueIds(ts) && i < |ts|
    ensures IndexOf(ts, ts[i].id) == Some(i)
  {
  }

  /** `GetByIdAsync`: a missing or soft-deleted trade is not found. */
  function Lookup(ts: seq<Trade>, id: int): (r: Result<Trade>)
    ensures r.Success? <==> IndexOf(ts, id).Some? && !ts[IndexOf(ts, id).value].isDeleted
    ensures r.Success? ==> r.value.id == id && !r.value.isDeleted && r.value in ts
    ensures r.Failure? ==> r.error == TradeNotFound()
  {
    match IndexOf(ts, id)
    case None => Failure(TradeNotFound())
    case Some(i) => if ts[i].isDeleted then Failure(TradeNotFound()) else Success(ts[i])
  }

  /** The first field definition with the given name (`FirstOrDefault`). */
  function FindDefinition(defs: seq<FieldDefinition>, name: string): (r: Option<nat>)
    ensures r.Some? ==> r.value < |defs| && defs[r.value].fieldName == name
    ensures r.None? <==> forall i :: 0 <= i < |defs| ==> defs[i].fieldName != name
  {
    if defs == [] then None
    else
      match FindDefinition(defs[..|defs| - 1], name)
      case Some(i) => Some(i)
      case None => if defs[|defs| - 1].fieldName == name then Some(|defs| - 1) else None
  }

  predicate UniqueDefinitionIds(defs: seq<FieldDefinition>) {
    forall i, j :: 0 <= i < j < |defs| ==> defs[i].id != defs[j].id
  }

  predicate DistinctKeys(values: CustomValues) {
    forall i, j :: 0 <= i < j < |values| ==> values[i].0 != values[j].0
  }

  // ---------------------------------------------------------------------------
  // State changes of one trade

  /** A new trade from a valid creation form: symbol upper-cased, closed exactly
    * when the form gives an exit price and time, and then with its results. */
  function NewTrade(d: TradeCreateDto, id: int, now: int): (t: Trade)
    ensures t.id == id && t.symbol == ToUpper(d.fields.symbol)
    ensures t.isClosed <==> d.IsClosed()
    ensures t.profitLoss.Some? <==> d.IsClosed()
    ensures d.IsClosed() ==> HasComputedResults(t)
    ensures !t.isDeleted && t.deletedAt.None? && t.createdAt == now
  {
    var f := d.fields;
    var t := Trade(id, f.accountId, f.ticket, ToUpper(f.symbol), f.direction, f.volume, f.entryPrice,
      f.exitPrice, f.stopLoss, f.takeProfit, f.entryTime, f.exitTime, f.commission, f.swap,
      None, None, None, d.IsClosed(),
      f.preTradeNotes, f.postTradeNotes, f.entryReason, f.exitReason, f.mistakes, f.lessons,
      f.executionRating, f.isImpulsive, f.followedPlan, None, None, now, None, false, None);
    if t.isClosed && t.exitPrice.Some? then Recalculated(t) else t
  }

  /** A trade after `UpdateAsync`: every form field copied, symbol upper-cased;
    * results recomputed only when the trade is closed with an exit price,
    * otherwise the earlier results stay. */
  function Updated(prev: Trade, d: TradeUpdateDto, now: int): (t: Trade)
    ensures t.id == prev.id && t.createdAt == prev.createdAt && t.isDeleted == prev.isDeleted
    ensures t.isClosed == d.isClosed && t.symbol == ToUpper(d.fields.symbol)
    ensures d.isClosed && d.fields.exitPrice.Some? ==> HasComputedResults(t)
    ensures !(d.isClosed && d.fields.exitPrice.Some?) ==>
      t.profitLoss == prev.profitLoss && t.profitLossPips == prev.profitLossPips && t.riskRewardRatio == prev.riskRewardRatio
  {
    var f := d.fields;
    var t := prev.(accountId := f.accountId, ticket := f.ticket, symbol := ToUpper(f.symbol),
      direction := f.direction, volume := f.volume, entryPrice := f.entryPrice, exitPrice := f.exitPrice,
      stopLoss := f.stopLoss, takeProfit := f.takeProfit, entryTime := f.entryTime, exitTime := f.exitTime,
      commission := f.commission, swap := f.swap, preTradeNotes := f.preTradeNotes,
      postTradeNotes := f.postTradeNotes, entryReason := f.entryReason, exitReason := f.exitReason,
      mistakes := f.mistakes, lessons := f.lessons, executionRating := f.executionRating,
      isImpulsive := f.isImpulsive, followedPlan := f.followedPlan, isClosed := d.isClosed,
      updatedAt := Some(now));
    if t.isClosed && t.exitPrice.Some? then Recalculated(t) else t
  }

  /** A trade after `CloseTradeAsync`: exit data set, closed, costs replaced
    * only when the form gives them, results recomputed. */
  function Closed(prev: Trade, d: TradeCloseDto, now: int): (t: Trade)
    ensures t.isClosed && t.exitPrice == Some(d.exitPrice) && t.exitTime == Some(d.exitTime)
    ensures t.commission == d.commission.GetOr(prev.commission) && t.swap == d.swap.GetOr(prev.swap)
    ensures HasComputedResults(t)
    ensures t.id == prev.id && t.isDeleted == prev.isDeleted && t.symbol == prev.symbol && t.entryPrice == prev.entryPrice
  {
    Recalculated(prev.(exitPrice := Some(d.exitPrice), exitTime := Some(d.exitTime), exitReason := d.exitReason,
      isClosed := true, updatedAt := Some(now),
      commission := d.commission.GetOr(prev.commission), swap := d.swap.GetOr(prev.swap)))
  }

  /** `DeleteAsync` marks the trade deleted and stamps the time; nothing else changes. */
  function Deleted(t: Trade, now: int): (r: Trade)
    ensures r.isDeleted && r.deletedAt == Some(now)
    ensures r.(isDeleted := t.isDeleted, deletedAt := t.deletedAt) == t
  {
    t.(isDeleted := true, deletedAt := Some(now))
  }

  /** `RestoreAsync` clears the mark and the deletion time and stamps the update time. */
  function Restored(t: Trade, now: int): (r: Trade)
    ensures !r.isDeleted && r.deletedAt.None? && r.updatedAt == Some(now)
    ensures r.(isDeleted := t.isDeleted, deletedAt := t.deletedAt, updatedAt := t.updatedAt) == t
  {
    t.(isDeleted := false, deletedAt := None, updatedAt := Some(now))
  }

  /** Delete then restore gives back the trade as it was before the delete,
    * apart from the update time. */
  lemma RestoreUndoesDelete(t: Trade, deletedAt: int, restoredAt: int)
    requires !t.isDeleted && t.deletedAt.None?
    ensures Restored(Deleted(t, deletedAt), restoredAt) == t.(updatedAt := Some(restoredAt))
  {
  }

  /** After a delete the lookup by id fails; after a restore it finds the restored trade. */
  lemma LookupAfterDeleteAndRestore(ts: seq<Trade>, i: nat, now: int)
    requires UniqueIds(ts) && i < |ts|
    ensures Lookup(ts[i := Deleted(ts[i], now)], ts[i].id) == Failure(TradeNotFound())
    ensures Lookup(ts[i := Restored(ts[i], now)], ts[i].id) == Success(Restored(ts[i], now))
  {
    IndexOfUnique(ts[i := Deleted(ts[i], now)], i);
    IndexOfUnique(ts[i := Restored(ts[i], now)], i);
  }

  // ---------------------------------------------------------------------------
  // Custom field rows

  /** The rows of the table that belong to other trades, in order. */
  function OtherTrades(rows: seq<TradeCustomField>, tradeId: int): (r: seq<TradeCustomField>)
    ensures forall x :: x in r <==> x in rows && x.tradeId != tradeId
  {
    if rows == [] then []
    else
      var last := rows[|rows| - 1];
      OtherTrades(rows[..|rows| - 1], tradeId) + if last.tradeId != tradeId then [last] else []
  }

  /** The row one value produces: none for a null value or an unknown field name. */
  function RowFor(tradeId: int, kv: (string, Option<string>), defs: seq<FieldDefinition>): seq<TradeCustomField> {
    if kv.1.None? then []
    else match FindDefinition(defs, kv.0)
      case None => []
      case Some(k) => [TradeCustomField(tradeId, defs[k].id, kv.1)]
  }

  /** The rows the values produce, one per non-null value of a known field, in order. */
  function NewRows(tradeId: int, values: CustomValues, defs: seq<FieldDefinition>): (r: seq<TradeCustomField>)
    ensures |r| <= |values|
    ensures forall x :: x in r ==> x.tradeId == tradeId && x.value.Some?
  {
    if values == [] then []
    else NewRows(tradeId, values[..|values| - 1], defs) + RowFor(tradeId, values[|values| - 1], defs)
  }

  /** Every new row comes from a non-null value whose key names a known field. */
  lemma {:induction false} NewRowOrigin(tradeId: int, values: CustomValues, defs: seq<FieldDefinition>, j: nat)
    returns (k: nat)
    requires j < |NewRows(tradeId, values, defs)|
    ensures k < |values| && values[k].1.Some? && FindDefinition(defs, values[k].0).Some?
    ensures NewRows(tradeId, values, defs)[j].fieldDefinitionId == defs[FindDefinition(defs, values[k].0).value].id
  {
    var init := values[..|values| - 1];
    var prev := NewRows(tradeId, init, defs);
    var extra := RowFor(tradeId, values[|values| - 1], defs);
    assert NewRows(tradeId, values, defs) == prev + extra;
    if j < |prev| {
      k := NewRowOrigin(tradeId, init, defs, j);
      assert values[k] == init[k];
    } else {
      k := |values| - 1;
      assert extra != [] && NewRows(tradeId, values, defs)[j] == extra[0];
    }
  }

  /** Distinct names that both name a field lead to definitions with distinct ids. */
  lemma DistinctNamesDistinctIds(defs: seq<FieldDefinition>, a: string, b: string)
    requires UniqueDefinitionIds(defs) && a != b
    requires FindDefinition(defs, a).Some? && FindDefinition(defs, b).Some?
    ensures defs[FindDefinition(defs, a).value].id != defs[FindDefinition(defs, b).value].id
  {
    var i, j := FindDefinition(defs, a).value, FindDefinition(defs, b).value;
    assert i != j;
  }

  /** With distinct keys and unique definition ids the new rows never repeat a field. */
  lemma {:induction false} NewRowsUnique(tradeId: int, values: CustomValues, defs: seq<FieldDefinition>)
    requires DistinctKeys(values) && UniqueDefinitionIds(defs)
    ensures UniquePairs(NewRows(tradeId, values, defs))
  {
    if values != [] {
      var init := values[..|values| - 1];
      var last := values[|values| - 1];
      assert DistinctKeys(init);
      NewRowsUnique(tradeId, init, defs);
      var prev := NewRows(tradeId, init, defs);
      var extra := RowFor(tradeId, last, defs);
      if extra != [] {
        forall j | 0 <= j < |prev|
          ensures prev[j].fieldDefinitionId != extra[0].fieldDefinitionId
        {
          var k := NewRowOrigin(tradeId, init, defs, j);
          DistinctNamesDistinctIds(defs, init[k].0, last.0);
        }
      }
    }
  }

  /** Keeping the rows of other trades keeps the table free of repeated pairs. */
  lemma {:induction false} OtherTradesUnique(rows: seq<TradeCustomField>, tradeId: int)
    requires UniquePairs(rows)
    ensures UniquePairs(OtherTrades(rows, tradeId))
  {
    if rows != [] {
      var init := rows[..|rows| - 1];
      assert UniquePairs(init);
      OtherTradesUnique(init, tradeId);
    }
  }

  /** The table after saving a trade's values: the other trades' rows, then the new ones. */
  function SavedRows(rows: seq<TradeCustomField>, tradeId: int, values: CustomValues, defs: seq<FieldDefinition>): seq<TradeCustomField> {
    OtherTrades(rows, tradeId) + NewRows(tradeId, values, defs)
  }

  /** Saving keeps at most one row per (trade, field definition) pair. */
  lemma SavedRowsUnique(rows: seq<TradeCustomField>, tradeId: int, values: CustomValues, defs: seq<FieldDefinition>)
    requires UniquePairs(rows) && DistinctKeys(values) && UniqueDefinitionIds(defs)
    ensures UniquePairs(SavedRows(rows, tradeId, values, defs))
  {
    var a := OtherTrades(rows, tradeId);
    var b := NewRows(tradeId, values, defs);
    OtherTradesUnique(rows, tradeId);
    NewRowsUnique(tradeId, values, defs);
    forall i, j | 0 <= i < |a| && 0 <= j < |b| ensures a[i].tradeId != b[j].tradeId {
      assert a[i] in a;
      assert b[j] in b;
    }
  }

  /** The delete step of `SaveCustomFieldsAsync`: the rows of other trades stay. */
  method RemoveRowsOf(rows: seq<TradeCustomField>, tradeId: int) returns (kept: seq<TradeCustomField>)
    ensures kept == OtherTrades(rows, tradeId)
    ensures forall x :: x in kept ==> x.tradeId != tradeId
  {
    kept := [];
    var j := 0;
    while j < |rows|
      invariant 0 <= j <= |rows|
      invariant kept == OtherTrades(rows[..j], tradeId)
    {
      assert rows[..j + 1][..j] == rows[..j];
      if rows[j].tradeId != tradeId {
        kept := kept + [rows[j]];
      }
      j := j + 1;
    }
    assert rows[..j] == rows;
  }

  /** The insert step of `SaveCustomFieldsAsync`: null values and names that no
    * definition has are skipped. */
  method BuildRows(tradeId: int, values: CustomValues, defs: seq<FieldDefinition>) returns (added: seq<TradeCustomField>)
    ensures added == NewRows(tradeId, values, defs)
  {
    added := [];
    var i := 0;
    while i < |values|
      invariant 0 <= i <= |values|
      invariant added == NewRows(tradeId, values[..i], defs)
    {
      assert values[..i + 1][..i] == values[..i];
      var kv := values[i];
      if kv.1.Some? {
        var k := FindDefinition(defs, kv.0);
        if k.Some? {
          added := added + [TradeCustomField(tradeId, defs[k.value].id, kv.1)];
        }
      }
      i := i + 1;
    }
    assert values[..i] == values;
  }

  // ---------------------------------------------------------------------------
  // The service

  class TradeService {
    /** The trade table, the custom-field value table and the field definitions. */
    var trades: seq<Trade>
    var customFields: seq<TradeCustomField>
    var fieldDefinitions: seq<FieldDefinition>
    /** The identity the database gives the next inserted trade. */
    var nextId: int

    predicate Valid()
      reads this
    {
      && UniqueIds(trades)
      && IdsBelow(trades, nextId)
      && UniquePairs(customFields)
      && UniqueDefinitionIds(fieldDefinitions)
    }

    constructor(definitions: seq<FieldDefinition>)
      requires UniqueDefinitionIds(definitions)
      ensures Valid()
      ensures trades == [] && customFields == [] && fieldDefinitions == definitions && nextId == 1
    {
      trades := [];
      customFields := [];
      fieldDefinitions := definitions;
      nextId := 1;
    }

    /** `GetByIdAsync`. */
    method GetById(id: int) returns (r: Result<Trade>)
      requires Valid()
      ensures r.Success? <==> exists i :: 0 <= i < |trades| && trades[i].id == id && !trades[i].isDeleted
      ensures r.Success? ==> r.value.id == id && r.value in trades
      ensures r.Failure? ==> r.error == TradeNotFound()
    {
      r := Lookup(trades, id);
      if r.Failure? {
        forall i | 0 <= i < |trades| && trades[i].id == id ensures trades[i].isDeleted {
          IndexOfUnique(trades, i);
        }
      }
    }

    /** `SaveCustomFieldsAsync`: deletes every row of the trade, then adds one row
      * per non-null value whose name is a known field. */
    method SaveCustomFields(tradeId: int, values: CustomValues)
      requires Valid() && DistinctKeys(values)
      modifies this
      ensures Valid()
      ensures customFields == SavedRows(old(customFields), tradeId, values, fieldDefinitions)
      ensures trades == old(trades) && fieldDefinitions == old(fieldDefinitions) && nextId == old(nextId)
    {
      var kept := RemoveRowsOf(customFields, tradeId);
      var added := BuildRows(tradeId, values, fieldDefinitions);
      SavedRowsUnique(customFields, tradeId, values, fieldDefinitions);
      customFields := kept + added;
    }

    /** `CreateAsync`: a form that breaks a rule is refused with all the failing
      * messages; otherwise the trade is inserted with the next identity and its
      * custom values are stored. */
    method Create(d: TradeCreateDto, now: int, validatorCreatedAt: int) returns (r: Result<Trade>)
      requires Valid() && DistinctKeys(d.customFields)
      modifies this
      ensures Valid()
      ensures CreateErrors(d, validatorCreatedAt) != [] ==>
        r == Failure(Validation(Join(Messages(CreateErrors(d, validatorCreatedAt)), "\n")))
        && trades == old(trades) && customFields == old(customFields) && nextId == old(nextId)
      ensures CreateErrors(d, validatorCreatedAt) == [] ==>
        r == Success(NewTrade(d, old(nextId), now))
        && trades == old(trades) + [NewTrade(d, old(nextId), now)] && nextId == old(nextId) + 1
        && customFields == (if d.customFields == [] then old(customFields)
                            else SavedRows(old(customFields), old(nextId), d.customFields, fieldDefinitions))
      ensures fieldDefinitions == old(fieldDefinitions)
    {
      var errors := CreateErrors(d, validatorCreatedAt);
      if errors != [] {
        return Failure(Validation(Join(Messages(errors), "\n")));
      }
      var t := NewTrade(d, nextId, now);
      Insert(t);
      if d.customFields != [] {
        SaveCustomFields(t.id, d.customFields);
      }
      r := Success(t);
    }

    /** The insertion of `CreateAsync`: the trade, carrying the next identity, is appended. */
    method Insert(t: Trade)
      requires Valid() && t.id == nextId
      modifies this
      ensures Valid()
      ensures trades == old(trades) + [t] && nextId == old(nextId) + 1
      ensures customFields == old(customFields) && fieldDefinitions == old(fieldDefinitions)
    {
      AppendKeepsIds(trades, t, nextId);
      trades := trades + [t];
      nextId := nextId + 1;
    }

    /** `UpdateAsync` (which runs no validation): a missing or deleted trade is not
      * found; otherwise every form field is copied onto the stored trade. */
    method Update(d: TradeUpdateDto, now: int) returns (r: Result<Trade>)
      requires Valid() && DistinctKeys(d.customFields)
      modifies this
      ensures Valid()
      ensures Lookup(old(trades), d.id).Failure? ==>
        r == Failure(TradeNotFound()) && trades == old(trades) && customFields == old(customFields)
      ensures Lookup(old(trades), d.id).Success? ==>
        var i := IndexOf(old(trades), d.id).value;
        r == Success(Updated(old(trades)[i], d, now))
        && trades == old(trades)[i := Updated(old(trades)[i], d, now)]
        && customFields == (if d.customFields == [] then old(customFields)
                            else SavedRows(old(customFields), d.id, d.customFields, fieldDefinitions))
      ensures fieldDefinitions == old(fieldDefinitions) && nextId == old(nextId)
    {
      var found := Lookup(trades, d.id);
      if found.Failure? {
        return Failure(TradeNotFound());
      }
      var i := IndexOf(trades, d.id).value;
      var t := Updated(trades[i], d, now);
      trades := trades[i := t];
      if d.customFields != [] {
        SaveCustomFields(d.id, d.customFields);
      }
      r := Success(t);
    }

    /** `CloseTradeAsync`: refused with the validation messages, for a missing or
      * deleted trade, or for a trade that is already closed; otherwise the trade
      * is closed and its results computed. */
    method CloseTrade(d: TradeCloseDto, now: int) returns (r: Result<Trade>)
      requires Valid()
      modifies this
      ensures Valid()
      ensures CloseErrors(d) != [] ==> r == Failure(Validation(Join(Messages(CloseErrors(d)), "\n")))
      ensures CloseErrors(d) == [] && Lookup(old(trades), d.tradeId).Failure? ==> r == Failure(TradeNotFound())
      ensures CloseErrors(d) == [] && Lookup(old(trades), d.tradeId).Success? && Lookup(old(trades), d.tradeId).value.isClosed ==>
        r == Failure(Validation("this trade is already closed"))
      ensures r.Failure? ==> trades == old(trades)
      ensures r.Success? <==> CloseErrors(d) == [] && Lookup(old(trades), d.tradeId).Success? && !Lookup(old(trades), d.tradeId).value.isClosed
      ensures r.Success? ==>
        var i := IndexOf(old(trades), d.tradeId).value;
        r.value == Closed(old(trades)[i], d, now) && r.value.isClosed
        && trades == old(trades)[i := Closed(old(trades)[i], d, now)]
      ensures customFields == old(customFields) && fieldDefinitions == old(fieldDefinitions) && nextId == old(nextId)
    {
      var errors := CloseErrors(d);
      if errors != [] {
        return Failure(Validation(Join(Messages(errors), "\n")));
      }
      var found := Lookup(trades, d.tradeId);
      if found.Failure? {
        return Failure(TradeNotFound());
      }
      if found.value.isClosed {
        return Failure(Validation("this trade is already closed"));
      }
      var i := IndexOf(trades, d.tradeId).value;
      var t := Closed(trades[i], d, now);
      trades := trades[i := t];
      r := Success(t);
    }

    /** `DeleteAsync`: a soft delete; a trade that is already deleted is deleted again. */
    method Delete(id: int, now: int) returns (r: Result<bool>)
      requires Valid()
      modifies this
      ensures Valid()
      ensures IndexOf(old(trades), id).None? ==> r == Failure(TradeNotFound()) && trades == old(trades)
      ensures IndexOf(old(trades), id).Some? ==>
        var i := IndexOf(old(trades), id).value;
        r == Success(true) && trades == old(trades)[i := Deleted(old(trades)[i], now)]
      ensures customFields == old(customFields) && fieldDefinitions == old(fieldDefinitions) && nextId == old(nextId)
    {
      var k := IndexOf(trades, id);
      if k.None? {
        return Failure(TradeNotFound());
      }
      trades := trades[k.value := Deleted(trades[k.value], now)];
      r := Success(true);
    }

    /** `RestoreAsync`: clears the soft delete of any stored trade. */
    method Restore(id: int, now: int) returns (r: Result<bool>)
      requires Valid()
      modifies this
      ensures Valid()
      ensures IndexOf(old(trades), id).None? ==> r == Failure(TradeNotFound()) && trades == old(trades)
      ensures IndexOf(old(trades), id).Some? ==>
        var i := IndexOf(old(trades), id).value;
        r == Success(true) && trades == old(trades)[i := Restored(old(trades)[i], now)]
      ensures customFields == old(customFields) && fieldDefinitions == old(fieldDefinitions) && nextId == old(nextId)
    {
      var k := IndexOf(trades, id);
      if k.None? {
        return Failure(TradeNotFound());
      }
      trades := trades[k.value := Restored(trades[k.value], now)];
      r := Success(true);
    }

    /** `GetTradesAsync` over the trade table. */
    method List(f: TradeFilterDto) returns (r: TradePagedResultDto)
      ensures r == GetTrades(trades, f)
      ensures r.totalCount == |Filtered(trades, f)| && (f.pageSize >= 0 ==> |r.items| <= f.pageSize)
    {
      GetTradesCounts(trades, f);
      r := GetTrades(trades, f);
    }
  }
}
