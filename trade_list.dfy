// The trades list screen: the filter it sends to the trade service, the
// page it asks for, and the summary it shows. The trade service is a
// parameter (`fetch`, the result `GetTradesAsync` would give for a filter);
// the account the state engine holds is a parameter too. Navigation and the
// delete dialog are not modelled.

module TradeLists {
  import opened Common
  import opened Text
  import opened Domain
  import opened TradeDtos

  // -------------------------------------------------------------- the filter

  /** `DateTime.MaxValue` in whole seconds: the last representable second. */
  const DateTimeMaxSeconds: int := 315537897599

  /** `ToDate.AddDays(1).AddSeconds(-1)`; `None` when adding a day leaves the
    * representable range, where `AddDays` throws. */
  function EndOfDay(t: int): (r: Option<int>)
    ensures r.Some? <==> t + SecondsPerDay <= DateTimeMaxSeconds
    ensures r.Some? ==> t < r.value
  {
    if t + SecondsPerDay <= DateTimeMaxSeconds then Some(t + SecondsPerDay - 1) else None
  }

  /** A date picked in the calendar is a midnight; the bound sent for it is the
    * last second of that same day, so the whole day is included. */
  lemma EndOfDayIsLastSecond(t: int, s: int)
    requires t % SecondsPerDay == 0 && t + SecondsPerDay <= DateTimeMaxSeconds
    ensures DateOf(EndOfDay(t).value) == t
    ensures DateOf(s) == t ==> s <= EndOfDay(t).value
  {
    var e := EndOfDay(t).value;
    assert e % SecondsPerDay == SecondsPerDay - 1;
  }

  /** The status box: index 1 asks for open trades, 2 for closed ones, 3 for
    * winners and 4 for losers; any other index filters on neither. */
  function StatusFilter(index: int): (r: (Option<bool>, Option<bool>))
    ensures r.0 == Some(false) <==> index == 1
    ensures r.0 == Some(true) <==> index == 2
    ensures r.1 == Some(true) <==> index == 3
    ensures r.1 == Some(false) <==> index == 4
    ensures r.0.None? || r.1.None?
  {
    var isClosed := if index == 1 then Some(false) else if index == 2 then Some(true) else None;
    var isProfit := if index == 3 then Some(true) else if index == 4 then Some(false) else None;
    (isClosed, isProfit)
  }

  // ------------------------------------------------------------------ paging

  /** `TotalPages`: `Math.Ceiling(TotalCount / (double)PageSize)` for a
    * positive page size, 0 otherwise. */
  function PageCount(totalCount: int, pageSize: int): (r: int)
    ensures pageSize <= 0 ==> r == 0
    ensures pageSize > 0 ==> (r - 1) * pageSize < totalCount <= r * pageSize
  {
    if pageSize > 0 then
      var dto := TradePagedResultDto([], totalCount, 1, pageSize, 0.0, 0, 0);
      TotalPagesCoversCount(dto);
      TotalPages(dto).value
    else 0
  }

  // --------------------------------------------------------------- win rate

  /** Rounding to the nearest integer, a tie going away from zero (how
    * `decimal` is rounded when formatted). */
  function RoundHalfAway(y: real): (n: int)
    ensures -0.5 <= n as real - y <= 0.5
    ensures y >= 0.0 ==> n >= 0
    ensures y <= 0.0 ==> n <= 0
    ensures n as real - y == 0.5 ==> y >= 0.0
    ensures n as real - y == -0.5 ==> y <= 0.0
  {
    if y >= 0.0 then (y + 0.5).Floor else -((-y + 0.5).Floor)
  }

  /** A natural number below 1000 padded to three digits. */
  function ThreeDigits(n: nat): (r: string)
    requires n < 1000
    ensures |r| == 3 && AllDigits(r)
  {
    [('0' as int + n / 100) as char] + TwoDigits(n % 100)
  }

  /** The integral part as the `N` format prints it: groups of three digits
    * separated by commas (invariant culture). */
  function Grouped(n: nat): (r: string)
    ensures |r| > 0
    ensures n < 1000 ==> r == NatToString(n)
    decreases n
  {
    if n < 1000 then NatToString(n) else Grouped(n / 1000) + "," + ThreeDigits(n % 1000)
  }

  /** A number of tenths printed with one decimal, as format `N1` does. */
  function OneDecimal(tenths: int): (r: string)
    ensures tenths >= 0 ==> r == Grouped(tenths / 10) + "." + NatToString(tenths % 10)
  {
    var sign := if tenths < 0 then "-" else "";
    var m: nat := if tenths < 0 then -tenths else tenths;
    sign + Grouped(m / 10) + "." + NatToString(m % 10)
  }

  /** The win rate in tenths of a percent: wins over wins and losses, times
    * 100, rounded to one decimal. */
  function WinRateTenths(winCount: int, lossCount: int): (r: int)
    requires winCount + lossCount != 0
    ensures -0.5 <= r as real - winCount as real / (winCount + lossCount) as real * 1000.0 <= 0.5
  {
    RoundHalfAway(winCount as real / (winCount + lossCount) as real * 1000.0)
  }

  /** `WinRateDisplay`: "0%" when there are neither wins nor losses, the rate
    * with one decimal and a percent sign otherwise. */
  function WinRateText(winCount: int, lossCount: int): (r: string)
    ensures winCount + lossCount == 0 <==> r == "0%"
  {
    if winCount + lossCount == 0 then "0%"
    else
      var s := OneDecimal(WinRateTenths(winCount, lossCount)) + "%";
      assert s[|s| - 3] == '.';
      s
  }

  /** With counts that are not negative, the rate shown lies between 0.0% and
    * 100.0%, prints without a sign or separator, and is within half a tenth
    * of a percent of the exact rate. */
  lemma WinRateTextIsRounded(winCount: int, lossCount: int)
    requires winCount >= 0 && lossCount >= 0 && winCount + lossCount > 0
    ensures var t := WinRateTenths(winCount, lossCount);
      0 <= t <= 1000
      && WinRateText(winCount, lossCount) == NatToString(t / 10) + "." + NatToString(t % 10) + "%"
      && -0.05 <= t as real / 10.0 - winCount as real / (winCount + lossCount) as real * 100.0 <= 0.05
  {
    var total := winCount + lossCount;
    var q := winCount as real / total as real;
    assert q <= 1.0 by {
      assert winCount as real <= total as real;
    }
    assert q * 1000.0 <= 1000.0;
    var t := WinRateTenths(winCount, lossCount);
    assert t as real <= 1000.5;
  }

  /** Only wins shows "100.0%". */
  lemma WinRateAllWins(winCount: int)
    requires winCount > 0
    ensures WinRateText(winCount, 0) == "100.0%"
  {
    assert winCount as real / winCount as real == 1.0;
    assert WinRateTenths(winCount, 0) == 1000;
    assert NatToString(100) == "100";
  }

  /** Only losses shows "0.0%", which differs from the "0%" of an empty list. */
  lemma WinRateAllLosses(lossCount: int)
    requires lossCount > 0
    ensures WinRateText(0, lossCount) == "0.0%"
    ensures WinRateText(0, lossCount) != WinRateText(0, 0)
  {
    assert WinRateTenths(0, lossCount) == 0;
  }

  // -------------------------------------------------------------- the screen

  /** The message shown when loading fails on a date that cannot be moved a
    * day further, and the prefix `ExecuteAsync` puts before it. */
  const LoadFailed: string := "error loading trades"
  const UnrepresentableDate: string := "the date is out of the representable range"

  class TradeListViewModel {
    var trades: seq<Trade>
    var filterSymbol: string
    var filterFromDate: Option<int>
    var filterToDate: Option<int>
    var filterStatusIndex: int
    var currentPage: int
    var pageSize: int
    var totalCount: int
    var totalProfitLoss: real
    var winCount: int
    var lossCount: int
    var errorMessage: string

    constructor()
      ensures trades == [] && filterSymbol == "" && filterFromDate.None? && filterToDate.None?
      ensures filterStatusIndex == 0 && currentPage == 1 && pageSize == 50
      ensures totalCount == 0 && totalProfitLoss == 0.0 && winCount == 0 && lossCount == 0 && errorMessage == ""
      ensures PageInRange()
    {
      trades := [];
      filterSymbol := "";
      filterFromDate := None;
      filterToDate := None;
      filterStatusIndex := 0;
      currentPage := 1;
      pageSize := 50;
      totalCount := 0;
      totalProfitLoss := 0.0;
      winCount := 0;
      lossCount := 0;
      errorMessage := "";
    }

    /** `TotalPages`. */
    function TotalPages(): (r: int)
      reads this`totalCount, this`pageSize
      ensures pageSize > 0 && totalCount > 0 ==> r >= 1
      ensures pageSize > 0 && totalCount <= 0 ==> r <= 0
    {
      PageCount(totalCount, pageSize)
    }

    /** The page count `PageInfo` shows: never less than one. */
    function ShownPageCount(): (r: int)
      reads this`totalCount, this`pageSize
      ensures r >= 1 && r >= TotalPages()
    {
      if TotalPages() > 1 then TotalPages() else 1
    }

    /** `WinRateDisplay`. */
    function WinRateDisplay(): (r: string)
      reads this`winCount, this`lossCount
    {
      WinRateText(winCount, lossCount)
    }

    /** The current page is a page that exists, or the first. */
    predicate PageInRange()
      reads this`currentPage, this`totalCount, this`pageSize
    {
      1 <= currentPage && (currentPage == 1 || currentPage <= TotalPages())
    }

    /** The page shown in `PageInfo` is never past the page count shown. */
    lemma PageInRangeIsShown()
      requires PageInRange()
      ensures 1 <= currentPage <= ShownPageCount()
    {
    }

    /** `BuildFilter`: the account, the current page and page size, newest
      * entry first; the trimmed symbol unless it is blank; the dates, the end
      * one moved to the end of its day; the status box's filters. `None`
      * when moving the end date throws. */
    function BuildFilter(accountId: int): (r: Option<TradeFilterDto>)
      reads this`filterSymbol, this`filterFromDate, this`filterToDate, this`filterStatusIndex
      reads this`currentPage, this`pageSize
      ensures r.None? <==> filterToDate.Some? && EndOfDay(filterToDate.value).None?
      ensures r.Some? ==>
        var f := r.value;
        f.accountId == Some(accountId) && f.pageNumber == currentPage && f.pageSize == pageSize
        && f.sortBy == Some("EntryTime") && f.sortDescending
        && (f.symbol.None? <==> IsBlank(filterSymbol))
        && (f.symbol.Some? ==> f.symbol.value == Trim(filterSymbol))
        && f.fromDate == filterFromDate
        && (f.toDate.None? <==> filterToDate.None?)
        && (f.toDate.Some? ==> f.toDate == EndOfDay(filterToDate.value))
        && (f.isClosed, f.isProfit) == StatusFilter(filterStatusIndex)
        && f.direction.None? && f.minProfitLoss.None? && f.maxProfitLoss.None?
        && f.minRating.None? && f.searchText.None?
    {
      var symbol := if IsBlank(filterSymbol) then None else Some(Trim(filterSymbol));
      var status := StatusFilter(filterStatusIndex);
      match filterToDate
      case Some(t) =>
        (match EndOfDay(t)
         case None => None
         case Some(e) =>
           Some(TradeFilterDto(Some(accountId), symbol, None, filterFromDate, Some(e), status.0, status.1,
             None, None, None, None, currentPage, pageSize, Some("EntryTime"), true)))
      case None =>
        Some(TradeFilterDto(Some(accountId), symbol, None, filterFromDate, None, status.0, status.1,
          None, None, None, None, currentPage, pageSize, Some("EntryTime"), true))
    }

    /** What `LoadTradesAsync` leaves: with no account, an empty list and a
      * count of 0; otherwise the page the service gives for the filter, its
      * error message, or the error of building the filter. */
    twostate predicate Reloaded(accountId: Option<int>, fetch: TradeFilterDto -> Result<TradePagedResultDto>)
      reads this
    {
      match accountId
      case None =>
        trades == [] && totalCount == 0 && totalProfitLoss == old(totalProfitLoss)
        && winCount == old(winCount) && lossCount == old(lossCount) && errorMessage == old(errorMessage)
      case Some(a) =>
        match BuildFilter(a)
        case None =>
          trades == old(trades) && totalCount == old(totalCount) && totalProfitLoss == old(totalProfitLoss)
          && winCount == old(winCount) && lossCount == old(lossCount)
          && errorMessage == LoadFailed + ": " + UnrepresentableDate
        case Some(f) => Shows(fetch(f))
    }

    /** The list after the service answered: its page and totals, or the
      * service's error message with the list as it was. */
    twostate predicate Shows(new res: Result<TradePagedResultDto>)
      reads this
    {
      if res.Success? then
        trades == res.value.items && totalCount == res.value.totalCount
        && totalProfitLoss == res.value.totalProfitLoss
        && winCount == res.value.winCount && lossCount == res.value.lossCount && errorMessage == ""
      else
        trades == old(trades) && totalCount == old(totalCount) && totalProfitLoss == old(totalProfitLoss)
        && winCount == old(winCount) && lossCount == old(lossCount) && errorMessage == res.error.message
    }

    /** Takes the service's answer into the list. */
    method Show(res: Result<TradePagedResultDto>)
      modifies this`trades, this`totalCount, this`totalProfitLoss, this`winCount, this`lossCount, this`errorMessage
      ensures Shows(res)
    {
      errorMessage := "";
      if res.Success? {
        trades := res.value.items;
        totalCount := res.value.totalCount;
        totalProfitLoss := res.value.totalProfitLoss;
        winCount := res.value.winCount;
        lossCount := res.value.lossCount;
      } else {
        errorMessage := res.error.message;
      }
    }

    /** `LoadTradesAsync` (also what `Refresh` and the trade events run). */
    method Load(accountId: Option<int>, fetch: TradeFilterDto -> Result<TradePagedResultDto>)
      modifies this`trades, this`totalCount, this`totalProfitLoss, this`winCount, this`lossCount, this`errorMessage
      ensures Reloaded(accountId, fetch)
    {
      if accountId.None? {
        trades := [];
        totalCount := 0;
        return;
      }
      var filter := BuildFilter(accountId.value);
      if filter.None? {
        errorMessage := LoadFailed + ": " + UnrepresentableDate;
        return;
      }
      Show(fetch(filter.value));
    }

    /** `ApplyFilter` (and the account-selected event): back to page 1, then
      * reload. */
    method ApplyFilter(accountId: Option<int>, fetch: TradeFilterDto -> Result<TradePagedResultDto>)
      modifies this`currentPage
      modifies this`trades, this`totalCount, this`totalProfitLoss, this`winCount, this`lossCount, this`errorMessage
      ensures currentPage == 1 && Reloaded(accountId, fetch)
    {
      currentPage := 1;
      Load(accountId, fetch);
    }

    /** `FirstPage`: from a later page, go to page 1 and reload. */
    method FirstPage(accountId: Option<int>, fetch: TradeFilterDto -> Result<TradePagedResultDto>)
      modifies this`currentPage
      modifies this`trades, this`totalCount, this`totalProfitLoss, this`winCount, this`lossCount, this`errorMessage
      ensures old(currentPage) > 1 ==> currentPage == 1 && Reloaded(accountId, fetch)
      ensures old(currentPage) <= 1 ==> unchanged(this)
      ensures old(PageInRange()) ==> 1 <= currentPage
    {
      if currentPage > 1 {
        currentPage := 1;
        Load(accountId, fetch);
      }
    }

    /** `PreviousPage`: from a later page, go back one and reload. */
    method PreviousPage(accountId: Option<int>, fetch: TradeFilterDto -> Result<TradePagedResultDto>)
      modifies this`currentPage
      modifies this`trades, this`totalCount, this`totalProfitLoss, this`winCount, this`lossCount, this`errorMessage
      ensures old(currentPage) > 1 ==> currentPage == old(currentPage) - 1 && Reloaded(accountId, fetch)
      ensures old(currentPage) <= 1 ==> unchanged(this)
      ensures old(PageInRange()) ==> 1 <= currentPage && (currentPage == 1 || currentPage <= old(TotalPages()))
    {
      if currentPage > 1 {
        currentPage := currentPage - 1;
        Load(accountId, fetch);
      }
    }

    /** `NextPage`: before the last page, go on one and reload. */
    method NextPage(accountId: Option<int>, fetch: TradeFilterDto -> Result<TradePagedResultDto>)
      modifies this`currentPage
      modifies this`trades, this`totalCount, this`totalProfitLoss, this`winCount, this`lossCount, this`errorMessage
      ensures old(currentPage) < old(TotalPages()) ==> currentPage == old(currentPage) + 1 && Reloaded(accountId, fetch)
      ensures old(currentPage) >= old(TotalPages()) ==> unchanged(this)
      ensures old(PageInRange()) ==> 1 <= currentPage && (currentPage == 1 || currentPage <= old(TotalPages()))
    {
      if currentPage < TotalPages() {
        currentPage := currentPage + 1;
        Load(accountId, fetch);
      }
    }

    /** `LastPage`: before the last page, jump to it and reload. */
    method LastPage(accountId: Option<int>, fetch: TradeFilterDto -> Result<TradePagedResultDto>)
      modifies this`currentPage
      modifies this`trades, this`totalCount, this`totalProfitLoss, this`winCount, this`lossCount, this`errorMessage
      ensures old(currentPage) < old(TotalPages()) ==> currentPage == old(TotalPages()) && Reloaded(accountId, fetch)
      ensures old(currentPage) >= old(TotalPages()) ==> unchanged(this)
      ensures old(PageInRange()) ==> 1 <= currentPage && (currentPage == 1 || currentPage <= old(TotalPages()))
    {
      var pages := TotalPages();
      if currentPage < pages {
        currentPage := pages;
        Load(accountId, fetch);
      }
    }

    /** The `PageSize` setter: a new size goes back to page 1 and reloads. */
    method SetPageSize(value: int, accountId: Option<int>, fetch: TradeFilterDto -> Result<TradePagedResultDto>)
      modifies this`pageSize, this`currentPage
      modifies this`trades, this`totalCount, this`totalProfitLoss, this`winCount, this`lossCount, this`errorMessage
      ensures value != old(pageSize) ==> pageSize == value && currentPage == 1 && Reloaded(accountId, fetch)
      ensures value == old(pageSize) ==> unchanged(this)
    {
      if pageSize != value {
        pageSize := value;
        currentPage := 1;
        Load(accountId, fetch);
      }
    }
  }
}
