// The data transfer objects of the trade service: what a form sends to create,
// update or close a trade, the filter of the trade list, and the page of
// trades the list receives with its computed paging properties.

module TradeDtos {
  import opened Common
  import opened Domain
  import opened Numeric

  /** User-defined field values as the form sends them: field name and the
    * value's text, `None` for a null value. Keys are distinct, as in a dictionary. */
  type CustomValues = seq<(string, Option<string>)>

  /** The trade fields that creation and update both carry. */
  datatype TradeInput = TradeInput(
    accountId: int,
    ticket: Option<string>,
    symbol: string,
    direction: int,
    volume: real,
    entryPrice: real,
    exitPrice: Option<real>,
    stopLoss: Option<real>,
    takeProfit: Option<real>,
    entryTime: int,
    exitTime: Option<int>,
    commission: real,
    swap: real,
    preTradeNotes: Option<string>,
    postTradeNotes: Option<string>,
    entryReason: Option<string>,
    exitReason: Option<string>,
    mistakes: Option<string>,
    lessons: Option<string>,
    executionRating: Option<int>,
    isImpulsive: Option<bool>,
    followedPlan: Option<bool>)

  datatype TradeCreateDto = TradeCreateDto(fields: TradeInput, customFields: CustomValues)
  {
    /** `IsClosed`: a new trade is closed exactly when both its exit price and
      * its exit time are given. */
    predicate IsClosed() {
      fields.exitPrice.Some? && fields.exitTime.Some?
    }
  }

  /** The update form states `IsClosed` itself rather than deriving it. */
  datatype TradeUpdateDto = TradeUpdateDto(id: int, fields: TradeInput, isClosed: bool, customFields: CustomValues)

  datatype TradeCloseDto = TradeCloseDto(
    tradeId: int,
    exitPrice: real,
    exitTime: int,
    exitReason: Option<string>,
    commission: Option<real>,
    swap: Option<real>)

  datatype TradeFilterDto = TradeFilterDto(
    accountId: Option<int>,
    symbol: Option<string>,
    direction: Option<int>,
    fromDate: Option<int>,
    toDate: Option<int>,
    isClosed: Option<bool>,
    isProfit: Option<bool>,
    minProfitLoss: Option<real>,
    maxProfitLoss: Option<real>,
    minRating: Option<int>,
    searchText: Option<string>,
    pageNumber: int,
    pageSize: int,
    sortBy: Option<string>,
    sortDescending: bool)

  /** A filter with every property at its initial value: page 1 of 50, newest entry first. */
  const DefaultFilter: TradeFilterDto :=
    TradeFilterDto(None, None, None, None, None, None, None, None, None, None, None, 1, 50, Some("EntryTime"), true)

  datatype TradePagedResultDto = TradePagedResultDto(
    items: seq<Trade>,
    totalCount: int,
    pageNumber: int,
    pageSize: int,
    totalProfitLoss: real,
    winCount: int,
    lossCount: int)

  /** `TotalPages = (int)Math.Ceiling((double)TotalCount / PageSize)`. With a
    * page size of 0 the quotient is infinite or NaN and the cast to int has no
    * defined value: that case is `None`. */
  function TotalPages(r: TradePagedResultDto): (pages: Option<int>)
    ensures pages.Some? <==> r.pageSize != 0
  {
    if r.pageSize == 0 then None
    else Some(Ceiling(r.totalCount as real / r.pageSize as real))
  }

  /** `x <= y` scaled by a positive factor. */
  lemma ScaleLe(x: real, y: real, p: real)
    requires p > 0.0 && x <= y
    ensures x * p <= y * p
  {
  }

  lemma ScaleLt(x: real, y: real, p: real)
    requires p > 0.0 && x < y
    ensures x * p < y * p
  {
  }

  /** With a positive page size, the page count is the least number of pages
    * whose capacity covers every counted row. */
  lemma TotalPagesCoversCount(r: TradePagedResultDto)
    requires r.pageSize > 0
    ensures TotalPages(r).Some?
    ensures (TotalPages(r).value - 1) * r.pageSize < r.totalCount <= TotalPages(r).value * r.pageSize
  {
    var c := TotalPages(r).value;
    CoversFromAbove(r.totalCount, r.pageSize, c);
    CoversFromBelow(r.totalCount, r.pageSize, c - 1);
  }

  /** A whole number at least t / p holds t in p-sized pieces. */
  lemma CoversFromAbove(t: int, p: int, c: int)
    requires p > 0 && c as real >= t as real / p as real
    ensures t <= c * p
  {
    var q := t as real / p as real;
    ScaleLe(q, c as real, p as real);
    assert q * p as real == t as real;
    assert (c * p) as real == c as real * p as real;
  }

  /** A whole number below t / p does not. */
  lemma CoversFromBelow(t: int, p: int, d: int)
    requires p > 0 && (d as real) < t as real / p as real
    ensures d * p < t
  {
    var q := t as real / p as real;
    ScaleLt(d as real, q, p as real);
    assert q * p as real == t as real;
    assert (d * p) as real == d as real * p as real;
  }

  /** `HasPrevious`: there is a page before this one. */
  predicate HasPrevious(r: TradePagedResultDto) {
    r.pageNumber > 1
  }

  /** `HasNext = PageNumber < TotalPages`; undefined like TotalPages for a page size of 0. */
  function HasNext(r: TradePagedResultDto): (b: Option<bool>)
    ensures b.Some? <==> r.pageSize != 0
  {
    match TotalPages(r)
    case None => None
    case Some(pages) => Some(r.pageNumber < pages)
  }

  /** With a positive page size there is a next page exactly when some counted
    * row lies beyond the pages up to this one. */
  lemma HasNextIffRowsRemain(r: TradePagedResultDto)
    requires r.pageSize > 0
    ensures HasNext(r) == Some(r.pageNumber * r.pageSize < r.totalCount)
  {
    TotalPagesCoversCount(r);
    var c := TotalPages(r).value;
    if r.pageNumber < c {
      MulLe(r.pageNumber, c - 1, r.pageSize);
    } else {
      MulLe(c, r.pageNumber, r.pageSize);
    }
  }

  lemma MulLe(a: int, b: int, k: int)
    requires a <= b && k > 0
    ensures a * k <= b * k
  {
    assert b * k - a * k == (b - a) * k;
  }

  /** `WinRate`: wins as a percentage of all counted rows, 0 when none are counted. */
  function WinRate(r: TradePagedResultDto): (rate: real)
    ensures r.totalCount <= 0 ==> rate == 0.0
    ensures r.totalCount > 0 && 0 <= r.winCount <= r.totalCount ==> 0.0 <= rate <= 100.0
    ensures r.totalCount > 0 && r.winCount == r.totalCount ==> rate == 100.0
  {
    if r.totalCount > 0 then
      var rate := r.winCount as real / r.totalCount as real * 100.0;
      assert r.winCount <= r.totalCount ==> r.winCount as real / r.totalCount as real <= 1.0;
      rate
    else 0.0
  }
}
