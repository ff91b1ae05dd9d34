// AggregationEngine: per-account statistics over closed trades, the longest
// winning and losing streaks, the equity curve and the drawdown analysis.

module AggregationEngine {
  import opened Common
  import opened Domain
  import opened Linq

  function Max(a: real, b: real): real { if a >= b then a else b }
  function MaxNat(a: nat, b: nat): nat { if a >= b then a else b }

  /** A closed trade is a win, a loss or break-even by the sign of `ProfitLoss ?? 0`. */
  datatype Outcome = Win | Loss | BreakEven

  function OutcomeOf(t: Trade): (o: Outcome)
    ensures o == Win <==> PnL(t) > 0.0
    ensures o == Loss <==> PnL(t) < 0.0
  {
    if PnL(t) > 0.0 then Win else if PnL(t) < 0.0 then Loss else BreakEven
  }

  function Opposite(o: Outcome): Outcome
    requires o != BreakEven
  {
    if o == Win then Loss else Win
  }

  // ---------------------------------------------------------------------------
  // Sums and counts over index ranges

  /** Number of trades with outcome `o` among ts[i..j]. */
  function CountIn(ts: seq<Trade>, i: nat, j: nat, o: Outcome): nat
    requires i <= j <= |ts|
    decreases j - i
  {
    if i == j then 0 else CountIn(ts, i, j - 1, o) + (if OutcomeOf(ts[j - 1]) == o then 1 else 0)
  }

  /** Sum of `f` over the first k trades. */
  function SumTo(ts: seq<Trade>, k: nat, f: Trade -> real): real
    requires k <= |ts|
  {
    if k == 0 then 0.0 else SumTo(ts, k - 1, f) + f(ts[k - 1])
  }

  /** Sum of `ProfitLoss ?? 0` over the first k trades. */
  function SumPnLTo(ts: seq<Trade>, k: nat): real
    requires k <= |ts|
  {
    if k == 0 then 0.0 else SumPnLTo(ts, k - 1) + PnL(ts[k - 1])
  }

  /** Sum of P/L over the trades among the first k with outcome `o`. */
  function SumOutcomeTo(ts: seq<Trade>, k: nat, o: Outcome): real
    requires k <= |ts|
  {
    if k == 0 then 0.0
    else SumOutcomeTo(ts, k - 1, o) + (if OutcomeOf(ts[k - 1]) == o then PnL(ts[k - 1]) else 0.0)
  }

  /** Every trade is exactly one of win, loss and break-even. */
  lemma {:induction false} OutcomesPartition(ts: seq<Trade>, k: nat)
    requires k <= |ts|
    ensures CountIn(ts, 0, k, Win) + CountIn(ts, 0, k, Loss) + CountIn(ts, 0, k, BreakEven) == k
  {
    if k > 0 { OutcomesPartition(ts, k - 1); }
  }

  /** Profit sums are non-negative, loss sums non-positive, and together they make the net P/L. */
  lemma {:induction false} OutcomeSums(ts: seq<Trade>, k: nat)
    requires k <= |ts|
    ensures SumOutcomeTo(ts, k, Win) >= 0.0
    ensures SumOutcomeTo(ts, k, Loss) <= 0.0
    ensures SumOutcomeTo(ts, k, BreakEven) == 0.0
    ensures SumOutcomeTo(ts, k, Win) + SumOutcomeTo(ts, k, Loss) == SumPnLTo(ts, k)
  {
    if k > 0 { OutcomeSums(ts, k - 1); }
  }

  /** A loss sum is zero exactly when there are no losses; likewise for wins. */
  lemma {:induction false} OutcomeSumZero(ts: seq<Trade>, k: nat, o: Outcome)
    requires k <= |ts| && o != BreakEven
    ensures SumOutcomeTo(ts, k, o) == 0.0 <==> CountIn(ts, 0, k, o) == 0
  {
    if k > 0 {
      OutcomeSumZero(ts, k - 1, o);
      OutcomeSums(ts, k - 1);
    }
  }

  // ---------------------------------------------------------------------------
  // Selection and ordering of trades

  /** `OrderBy(t => t.ExitTime)`: a missing exit time sorts first. */
  predicate ExitTimeLe(a: Trade, b: Trade) {
    a.exitTime.None? || (b.exitTime.Some? && a.exitTime.value <= b.exitTime.value)
  }

  function ByExitTime(): (Trade, Trade) -> bool {
    (a, b) => ExitTimeLe(a, b)
  }

  lemma ByExitTimeIsPreorder()
    ensures TotalPreorder(ByExitTime())
  {
  }

  function ClosedOnly(ts: seq<Trade>): (r: seq<Trade>)
    ensures forall t :: t in r <==> t in ts && t.isClosed
  {
    if ts == [] then [] else (if ts[0].isClosed then [ts[0]] else []) + ClosedOnly(ts[1..])
  }

  function ClosedWithExitOnly(ts: seq<Trade>): (r: seq<Trade>)
    ensures forall t :: t in r <==> t in ts && t.isClosed && t.exitTime.Some?
  {
    if ts == [] then [] else (if ts[0].isClosed && ts[0].exitTime.Some? then [ts[0]] else []) + ClosedWithExitOnly(ts[1..])
  }

  /** The trades the statistics are computed over: the closed ones, by exit time. */
  function StatisticsTrades(trades: seq<Trade>): (r: seq<Trade>)
    ensures forall t :: t in r <==> t in trades && t.isClosed
    ensures SortedBy(r, ByExitTime())
    ensures multiset(r) == multiset(ClosedOnly(trades))
    ensures KeepsTiesInOrder(r, ClosedOnly(trades), ByExitTime())
  {
    ByExitTimeIsPreorder();
    var closed := ClosedOnly(trades);
    var r := SortBy(closed, ByExitTime());
    assert forall t :: t in r <==> t in closed by {
      forall t ensures t in r <==> t in closed { SortByMembers(closed, ByExitTime(), t); }
    }
    r
  }

  /** The trades the equity curve and drawdown walk: closed with an exit time, by exit time. */
  function CurveTrades(trades: seq<Trade>): (r: seq<Trade>)
    ensures forall t :: t in r <==> t in trades && t.isClosed && t.exitTime.Some?
    ensures forall i :: 0 <= i < |r| ==> r[i].isClosed && r[i].exitTime.Some?
    ensures forall i, j :: 0 <= i < j < |r| ==> r[i].exitTime.value <= r[j].exitTime.value
    ensures multiset(r) == multiset(ClosedWithExitOnly(trades))
    ensures KeepsTiesInOrder(r, ClosedWithExitOnly(trades), ByExitTime())
  {
    ByExitTimeIsPreorder();
    var chosen := ClosedWithExitOnly(trades);
    var r := SortBy(chosen, ByExitTime());
    assert forall t :: t in r <==> t in chosen by {
      forall t ensures t in r <==> t in chosen { SortByMembers(chosen, ByExitTime(), t); }
    }
    assert forall i :: 0 <= i < |r| ==> r[i] in r;
    assert forall i, j :: 0 <= i < j < |r| ==> ExitTimeLe(r[i], r[j]);
    r
  }

  // ---------------------------------------------------------------------------
  // Streaks

  /** The outcome-`o` trades in the longest stretch ending just before index n that holds no
    * trade of the opposite outcome (break-even trades neither extend nor break it). */
  function StreakEndingAt(ts: seq<Trade>, n: nat, o: Outcome): nat
    requires n <= |ts| && o != BreakEven
  {
    if n == 0 || OutcomeOf(ts[n - 1]) == Opposite(o) then 0
    else StreakEndingAt(ts, n - 1, o) + (if OutcomeOf(ts[n - 1]) == o then 1 else 0)
  }

  /** The best streak ending anywhere among the first n trades. */
  function LongestStreak(ts: seq<Trade>, n: nat, o: Outcome): nat
    requires n <= |ts| && o != BreakEven
  {
    if n == 0 then 0 else MaxNat(LongestStreak(ts, n - 1, o), StreakEndingAt(ts, n, o))
  }

  /** ts[i..j] holds no trade of the outcome opposite to `o`. */
  predicate Unbroken(ts: seq<Trade>, i: nat, j: nat, o: Outcome)
    requires o != BreakEven
  {
    i <= j <= |ts| && forall k :: i <= k < j ==> OutcomeOf(ts[k]) != Opposite(o)
  }

  lemma {:induction false} StreakEndingAtBounds(ts: seq<Trade>, i: nat, j: nat, o: Outcome)
    requires o != BreakEven && Unbroken(ts, i, j, o)
    ensures CountIn(ts, i, j, o) <= StreakEndingAt(ts, j, o)
    decreases j - i
  {
    if i < j {
      StreakEndingAtBounds(ts, i, j - 1, o);
    }
  }

  lemma {:induction false} StreakEndingAtWitness(ts: seq<Trade>, j: nat, o: Outcome) returns (i: nat)
    requires o != BreakEven && j <= |ts|
    ensures Unbroken(ts, i, j, o) && CountIn(ts, i, j, o) == StreakEndingAt(ts, j, o)
  {
    if j == 0 || OutcomeOf(ts[j - 1]) == Opposite(o) {
      i := j;
    } else {
      i := StreakEndingAtWitness(ts, j - 1, o);
    }
  }

  /** LongestStreak is the largest count of `o` over every unbroken stretch, and some stretch attains it. */
  lemma {:induction false} LongestStreakIsMaximum(ts: seq<Trade>, n: nat, o: Outcome) returns (wi: nat, wj: nat)
    requires n <= |ts| && o != BreakEven
    ensures forall i: nat, j: nat :: j <= n && Unbroken(ts, i, j, o) ==> CountIn(ts, i, j, o) <= LongestStreak(ts, n, o)
    ensures wj <= n && Unbroken(ts, wi, wj, o) && CountIn(ts, wi, wj, o) == LongestStreak(ts, n, o)
  {
    if n == 0 {
      wi, wj := 0, 0;
      forall i: nat, j: nat | j <= n && Unbroken(ts, i, j, o) ensures CountIn(ts, i, j, o) <= LongestStreak(ts, n, o) {
        assert i == j;
      }
    } else {
      var pi, pj := LongestStreakIsMaximum(ts, n - 1, o);
      forall i: nat, j: nat | j <= n && Unbroken(ts, i, j, o) ensures CountIn(ts, i, j, o) <= LongestStreak(ts, n, o) {
        if j == n { StreakEndingAtBounds(ts, i, j, o); }
      }
      if LongestStreak(ts, n - 1, o) >= StreakEndingAt(ts, n, o) {
        wi, wj := pi, pj;
      } else {
        wi := StreakEndingAtWitness(ts, n, o);
        wj := n;
      }
    }
  }

  /** CalculateConsecutiveStats: one pass keeping the current and best run of each kind. */
  method CalculateConsecutiveStats(ts: seq<Trade>) returns (maxWins: nat, maxLosses: nat)
    ensures maxWins == LongestStreak(ts, |ts|, Win)
    ensures maxLosses == LongestStreak(ts, |ts|, Loss)
  {
    var currentWins, currentLosses := 0, 0;
    maxWins, maxLosses := 0, 0;
    var k := 0;
    while k < |ts|
      invariant 0 <= k <= |ts|
      invariant currentWins == StreakEndingAt(ts, k, Win)
      invariant currentLosses == StreakEndingAt(ts, k, Loss)
      invariant maxWins == LongestStreak(ts, k, Win) >= currentWins
      invariant maxLosses == LongestStreak(ts, k, Loss) >= currentLosses
    {
      var pl := PnL(ts[k]);
      if pl > 0.0 {
        currentWins := currentWins + 1;
        currentLosses := 0;
        maxWins := MaxNat(maxWins, currentWins);
      } else if pl < 0.0 {
        currentLosses := currentLosses + 1;
        currentWins := 0;
        maxLosses := MaxNat(maxLosses, currentLosses);
      }
      k := k + 1;
    }
  }

  // ---------------------------------------------------------------------------
  // Statistics

  datatype TradeStatistics = TradeStatistics(
    totalTrades: nat,
    winningTrades: nat,
    losingTrades: nat,
    breakEvenTrades: nat,
    totalProfit: real,
    totalLoss: real,
    grossProfit: real,
    grossLoss: real,
    averageWin: real,
    averageLoss: real,
    averageTrade: real,
    largestWin: real,
    largestLoss: real,
    averageRR: real,
    expectedValue: real,
    maxConsecutiveWins: nat,
    maxConsecutiveLosses: nat,
    totalVolume: real,
    totalCommission: real,
    totalSwap: real)

  /** `new TradeStatistics()`. */
  const EmptyStatistics := TradeStatistics(0, 0, 0, 0, 0.0, 0.0, 0.0, 0.0, 0.0, 0.0, 0.0, 0.0, 0.0, 0.0, 0.0, 0, 0, 0.0, 0.0, 0.0)

  /** `WinRate`: the share of winning trades, as a percentage. */
  function WinRate(s: TradeStatistics): (r: real)
    ensures s.totalTrades == 0 ==> r == 0.0
    ensures s.totalTrades > 0 ==> r * s.totalTrades as real == s.winningTrades as real * 100.0
    ensures s.totalTrades > 0 && s.winningTrades <= s.totalTrades ==> 0.0 <= r <= 100.0
  {
    assert s.totalTrades > 0 && s.winningTrades <= s.totalTrades ==>
      0.0 <= s.winningTrades as real / s.totalTrades as real <= 1.0 by {
      if s.totalTrades > 0 && s.winningTrades <= s.totalTrades {
        RatioAtMostOne(s.winningTrades, s.totalTrades);
      }
    }
    if s.totalTrades > 0 then s.winningTrades as real / s.totalTrades as real * 100.0 else 0.0
  }

  function LossRate(s: TradeStatistics): real {
    if s.totalTrades > 0 then s.losingTrades as real / s.totalTrades as real * 100.0 else 0.0
  }

  function NetProfitLoss(s: TradeStatistics): real {
    s.totalProfit + s.totalLoss
  }

  function Abs(x: real): real { if x < 0.0 then -x else x }

  /** `ProfitFactor`: how many times the gross loss the gross profit is. */
  function ProfitFactor(s: TradeStatistics): (r: real)
    ensures r >= 0.0
    ensures s.grossLoss == 0.0 ==> r == 0.0
    ensures s.grossLoss != 0.0 ==> r * Abs(s.grossLoss) == Abs(s.grossProfit)
  {
    if s.grossLoss != 0.0 then
      var q := s.grossProfit / s.grossLoss;
      assert q * s.grossLoss == s.grossProfit;
      Abs(q)
    else 0.0
  }

  /** The largest `ProfitLoss ?? 0` among the trades. */
  function LargestPnL(ts: seq<Trade>): (r: real)
    requires |ts| > 0
    ensures exists t :: t in ts && PnL(t) == r
    ensures forall t :: t in ts ==> PnL(t) <= r
  {
    if |ts| == 1 then PnL(ts[0])
    else
      var rest := LargestPnL(ts[1..]);
      assert forall t :: t in ts ==> t == ts[0] || t in ts[1..];
      Max(PnL(ts[0]), rest)
  }

  /** The smallest `ProfitLoss ?? 0` among the trades. */
  function SmallestPnL(ts: seq<Trade>): (r: real)
    requires |ts| > 0
    ensures exists t :: t in ts && PnL(t) == r
    ensures forall t :: t in ts ==> PnL(t) >= r
  {
    if |ts| == 1 then PnL(ts[0])
    else
      var rest := SmallestPnL(ts[1..]);
      assert forall t :: t in ts ==> t == ts[0] || t in ts[1..];
      if PnL(ts[0]) <= rest then PnL(ts[0]) else rest
  }

  /** CalculateRR: the P/L per unit of money risked (stop distance × volume × 100000);
    * 0 when there is no stop loss, the entry price is not positive, or nothing is at risk. */
  function CalculateRR(t: Trade): (r: real)
    ensures t.stopLoss.None? || t.entryPrice <= 0.0 ==> r == 0.0
    ensures t.stopLoss.Some? && t.entryPrice > 0.0 ==>
      var riskMoney := Abs(t.entryPrice - t.stopLoss.value) * t.volume * 100000.0;
      (riskMoney == 0.0 ==> r == 0.0) && (riskMoney != 0.0 ==> r * riskMoney == PnL(t))
  {
    if t.stopLoss.None? || t.entryPrice <= 0.0 then 0.0
    else
      var risk := Abs(t.entryPrice - t.stopLoss.value);
      if risk == 0.0 then 0.0
      else
        var riskInCurrency := risk * t.volume * 100000.0;
        if riskInCurrency == 0.0 then 0.0 else PnL(t) / riskInCurrency
  }

  predicate HasRR(t: Trade) {
    t.stopLoss.Some? && t.entryPrice > 0.0
  }

  function CountRR(ts: seq<Trade>, k: nat): nat
    requires k <= |ts|
  {
    if k == 0 then 0 else CountRR(ts, k - 1) + (if HasRR(ts[k - 1]) then 1 else 0)
  }

  function SumRR(ts: seq<Trade>, k: nat): real
    requires k <= |ts|
  {
    if k == 0 then 0.0 else SumRR(ts, k - 1) + (if HasRR(ts[k - 1]) then CalculateRR(ts[k - 1]) else 0.0)
  }

  function Volume(t: Trade): real { t.volume }
  function Commission(t: Trade): real { t.commission }
  function Swap(t: Trade): real { t.swap }

  /** A mean over `count` items, 0 when there are none. */
  function Average(total: real, count: nat): real {
    if count > 0 then total / count as real else 0.0
  }

  /** ExpectedValue: the win rate (a percentage) weighting the average win
    * against the average loss. */
  function Expectancy(winRate: real, averageWin: real, averageLoss: real): (r: real)
    ensures winRate == 100.0 ==> r == averageWin
    ensures winRate == 0.0 ==> r == averageLoss
    ensures 0.0 <= winRate <= 100.0 && averageLoss <= averageWin ==> averageLoss <= r <= averageWin
  {
    var w := winRate / 100.0;
    var d := averageWin - averageLoss;
    WeightedMix(winRate, averageWin, averageLoss);
    assert winRate / 100.0 * averageWin + (100.0 - winRate) / 100.0 * averageLoss == averageLoss + w * d;
    assert 0.0 <= winRate <= 100.0 && d >= 0.0 ==> 0.0 <= w * d <= d by {
      if 0.0 <= winRate <= 100.0 && d >= 0.0 {
        ScaledBetween(w, d);
      }
    }
    winRate / 100.0 * averageWin + (100.0 - winRate) / 100.0 * averageLoss
  }

  /** The weighted mean of two values moves from the second toward the first by the weight. */
  lemma WeightedMix(winRate: real, a: real, b: real)
    ensures winRate / 100.0 * a + (100.0 - winRate) / 100.0 * b == b + winRate / 100.0 * (a - b)
  {
    assert (100.0 - winRate) / 100.0 == 1.0 - winRate / 100.0;
  }

  /** A weight between 0 and 1 scales a non-negative value to between 0 and itself. */
  lemma ScaledBetween(w: real, d: real)
    requires 0.0 <= w <= 1.0 && d >= 0.0
    ensures 0.0 <= w * d <= d
  {
    assert (1.0 - w) * d >= 0.0;
  }

  /** CalculateStatisticsAsync over the closed trades (AverageHoldingTime is not modelled). */
  function Statistics(trades: seq<Trade>): (s: TradeStatistics)
    ensures s.totalTrades == |StatisticsTrades(trades)|
    ensures s.totalTrades == 0 ==> s == EmptyStatistics
    ensures s.expectedValue == Expectancy(WinRate(s), s.averageWin, s.averageLoss)
  {
    var ts := StatisticsTrades(trades);
    var n := |ts|;
    if n == 0 then EmptyStatistics
    else
      var wins := CountIn(ts, 0, n, Win);
      var losses := CountIn(ts, 0, n, Loss);
      var totalProfit := SumOutcomeTo(ts, n, Win);
      var totalLoss := SumOutcomeTo(ts, n, Loss);
      var averageWin := Average(totalProfit, wins);
      var averageLoss := Average(totalLoss, losses);
      var stats := TradeStatistics(
        n, wins, losses, CountIn(ts, 0, n, BreakEven),
        totalProfit, totalLoss, totalProfit, -totalLoss,
        averageWin, averageLoss, Average(SumPnLTo(ts, n), n),
        LargestPnL(ts), SmallestPnL(ts), Average(SumRR(ts, n), CountRR(ts, n)),
        0.0,
        LongestStreak(ts, n, Win), LongestStreak(ts, n, Loss),
        SumTo(ts, n, Volume), SumTo(ts, n, Commission), SumTo(ts, n, Swap));
      var s := stats.(expectedValue := Expectancy(WinRate(stats), averageWin, averageLoss));
      assert s.totalTrades == stats.totalTrades && s.winningTrades == stats.winningTrades;
      assert WinRate(s) == WinRate(stats);
      s
  }

  /** Only closed trades are counted, and every one of them is a win, a loss or break-even. */
  lemma StatisticsCounts(trades: seq<Trade>)
    ensures var s := Statistics(trades);
      var ts := StatisticsTrades(trades);
      && s.totalTrades == |ts|
      && s.winningTrades + s.losingTrades + s.breakEvenTrades == s.totalTrades
      && s.winningTrades == CountIn(ts, 0, |ts|, Win)
      && s.losingTrades == CountIn(ts, 0, |ts|, Loss)
      && s.maxConsecutiveWins == LongestStreak(ts, |ts|, Win)
      && s.maxConsecutiveLosses == LongestStreak(ts, |ts|, Loss)
  {
    var ts := StatisticsTrades(trades);
    OutcomesPartition(ts, |ts|);
  }

  /** Profit is non-negative, loss non-positive, gross loss is the absolute loss, and the
    * net figure is the sum of every closed trade's P/L. */
  lemma StatisticsSums(trades: seq<Trade>)
    ensures var s := Statistics(trades);
      var ts := StatisticsTrades(trades);
      && s.totalProfit >= 0.0 && s.totalLoss <= 0.0
      && s.grossProfit == s.totalProfit && s.grossLoss == -s.totalLoss
      && NetProfitLoss(s) == SumPnLTo(ts, |ts|)
      && (s.grossLoss == 0.0 <==> s.losingTrades == 0)
  {
    var ts := StatisticsTrades(trades);
    OutcomeSums(ts, |ts|);
    OutcomeSumZero(ts, |ts|, Loss);
  }

  /** The largest win and largest loss bound every closed trade's P/L. */
  lemma StatisticsExtremes(trades: seq<Trade>)
    ensures var s := Statistics(trades);
      forall t :: t in StatisticsTrades(trades) ==> s.largestLoss <= PnL(t) <= s.largestWin
  {
  }

  lemma RatioAtMostOne(a: nat, b: nat)
    requires 0 < b && a <= b
    ensures 0.0 <= a as real / b as real <= 1.0
  {
    var q := a as real / b as real;
    assert q * b as real == a as real;
  }

  /** WinRate is a percentage and 0 without trades; ProfitFactor is 0 without gross loss. */
  lemma StatisticsRates(trades: seq<Trade>)
    ensures var s := Statistics(trades);
      && 0.0 <= WinRate(s) <= 100.0
      && (s.totalTrades == 0 ==> s == EmptyStatistics && WinRate(s) == 0.0)
      && (s.grossLoss == 0.0 ==> ProfitFactor(s) == 0.0)
  {
    var s := Statistics(trades);
    StatisticsCounts(trades);
    if s.totalTrades > 0 {
      RatioAtMostOne(s.winningTrades, s.totalTrades);
    }
  }


  // ---------------------------------------------------------------------------
  // Sessions and quarters

  /** GetSession: the trading session a time of day belongs to. */
  function GetSession(t: int): (r: string)
    ensures r == "Sydney" <==> HourOf(t) == 7
    ensures r == "London" <==> 8 <= HourOf(t) < 12
    ensures r == "NewYork" <==> 12 <= HourOf(t) < 21
    ensures r == "Asian" <==> HourOf(t) < 7 || HourOf(t) >= 21
  {
    var hour := HourOf(t);
    if 0 <= hour < 7 then "Asian"
    else if 7 <= hour < 8 then "Sydney"
    else if 8 <= hour < 12 then "London"
    else if 12 <= hour < 21 then "NewYork"
    else "Asian"
  }

  /** GetQuarterStart: the first day of the quarter the date falls in. */
  function GetQuarterStart(date: CalendarTime): (r: CalendarTime)
    requires ValidCalendarTime(date)
    ensures r.year == date.year && r.day == 1 && r.hour == 0 && r.minute == 0
    ensures r.month in {1, 4, 7, 10}
    ensures r.month <= date.month <= r.month + 2
  {
    var quarter := (date.month - 1) / 3;
    CalendarTime(date.year, quarter * 3 + 1, 1, 0, 0)
  }

  // ---------------------------------------------------------------------------
  // Equity curve

  datatype EquityPoint = EquityPoint(date: int, balance: real, equity: real, profitLoss: real, tradeNumber: nat)

  /** Point i of the curve (i >= 1): balance and equity after the first i trades, the i-th
    * trade's P/L, its number and its exit time. */
  predicate CurvePoint(ts: seq<Trade>, initialBalance: real, p: EquityPoint, i: nat)
    requires 1 <= i <= |ts|
  {
    && p.balance == initialBalance + SumPnLTo(ts, i)
    && p.equity == p.balance
    && p.profitLoss == PnL(ts[i - 1])
    && p.tradeNumber == i
    && ts[i - 1].exitTime == Some(p.date)
  }

  /** CalculateEquityCurveAsync. The first point's date, `DateTime.Now.AddYears(-1)`, is a parameter. */
  method CalculateEquityCurve(trades: seq<Trade>, initialBalance: real, startDate: int)
    returns (points: seq<EquityPoint>)
    ensures |points| == |CurveTrades(trades)| + 1
    ensures points[0] == EquityPoint(startDate, initialBalance, initialBalance, 0.0, 0)
    ensures forall i :: 1 <= i < |points| ==> CurvePoint(CurveTrades(trades), initialBalance, points[i], i)
  {
    points := EquityCurveOver(CurveTrades(trades), initialBalance, startDate);
  }

  /** The loop of CalculateEquityCurveAsync over the selected, ordered trades. */
  method EquityCurveOver(ts: seq<Trade>, initialBalance: real, startDate: int)
    returns (points: seq<EquityPoint>)
    requires forall i :: 0 <= i < |ts| ==> ts[i].exitTime.Some?
    ensures |points| == |ts| + 1
    ensures points[0] == EquityPoint(startDate, initialBalance, initialBalance, 0.0, 0)
    ensures forall i :: 1 <= i < |points| ==> CurvePoint(ts, initialBalance, points[i], i)
  {
    var balance := initialBalance;
    var tradeNumber := 0;
    points := [EquityPoint(startDate, balance, balance, 0.0, 0)];
    while tradeNumber < |ts|
      invariant 0 <= tradeNumber <= |ts|
      invariant |points| == tradeNumber + 1
      invariant balance == initialBalance + SumPnLTo(ts, tradeNumber)
      invariant points[0] == EquityPoint(startDate, initialBalance, initialBalance, 0.0, 0)
      invariant forall i :: 1 <= i < |points| ==> CurvePoint(ts, initialBalance, points[i], i)
    {
      var trade := ts[tradeNumber];
      tradeNumber := tradeNumber + 1;
      var pl := PnL(trade);
      balance := balance + pl;
      points := points + [EquityPoint(trade.exitTime.value, balance, balance, pl, tradeNumber)];
    }
  }

  /** The last point of the curve is the starting balance plus the net P/L of every curve trade. */
  lemma EquityCurveEnd(trades: seq<Trade>, initialBalance: real, points: seq<EquityPoint>)
    requires |points| == |CurveTrades(trades)| + 1
    requires points[0] == EquityPoint(0, initialBalance, initialBalance, 0.0, 0) || points[0].balance == initialBalance
    requires forall i :: 1 <= i < |points| ==> CurvePoint(CurveTrades(trades), initialBalance, points[i], i)
    ensures points[|points| - 1].balance == initialBalance + SumPnLTo(CurveTrades(trades), |CurveTrades(trades)|)
  {
    var n := |CurveTrades(trades)|;
    if n > 0 {
      assert CurvePoint(CurveTrades(trades), initialBalance, points[n], n);
    }
  }

  // ---------------------------------------------------------------------------
  // Drawdown

  datatype DrawdownPeriod = DrawdownPeriod(startDate: int, endDate: int, peakBalance: real, troughBalance: real)

  function DrawdownAmount(p: DrawdownPeriod): real { p.peakBalance - p.troughBalance }

  /** `TimeSpan.Days` of end − start: whole days, truncated toward zero. */
  function DurationDays(p: DrawdownPeriod): int {
    var d := p.endDate - p.startDate;
    if d >= 0 then d / SecondsPerDay else -((-d) / SecondsPerDay)
  }

  function MaxDuration(ps: seq<DrawdownPeriod>): (r: int)
    requires |ps| > 0
    ensures forall p :: p in ps ==> DurationDays(p) <= r
    ensures exists p :: p in ps && DurationDays(p) == r
  {
    if |ps| == 1 then DurationDays(ps[0])
    else
      var rest := MaxDuration(ps[1..]);
      assert forall p :: p in ps ==> p == ps[0] || p in ps[1..];
      if DurationDays(ps[0]) >= rest then DurationDays(ps[0]) else rest
  }

  /** MaxDrawdownDate defaults to `DateTime.MinValue`: `None` here. */
  datatype DrawdownInfo = DrawdownInfo(
    maxDrawdown: real,
    maxDrawdownPercent: real,
    maxDrawdownDate: Option<int>,
    currentDrawdown: real,
    currentDrawdownPercent: real,
    maxDrawdownDuration: int,
    periods: seq<DrawdownPeriod>)

  function Percent(amount: real, peak: real): real {
    if peak > 0.0 then amount / peak * 100.0 else 0.0
  }

  /** Equity after the first k trades. */
  function EquityAt(ts: seq<Trade>, initial: real, k: nat): real
    requires k <= |ts|
  {
    initial + SumPnLTo(ts, k)
  }

  /** The highest equity reached after the first k trades, counting the starting balance. */
  function PeakAt(ts: seq<Trade>, initial: real, k: nat): real
    requires k <= |ts|
  {
    if k == 0 then initial else Max(PeakAt(ts, initial, k - 1), EquityAt(ts, initial, k))
  }

  /** The largest fall from the running peak over the first k trades. */
  function MaxDrawdownTo(ts: seq<Trade>, initial: real, k: nat): real
    requires k <= |ts|
  {
    if k == 0 then 0.0 else Max(MaxDrawdownTo(ts, initial, k - 1), PeakAt(ts, initial, k) - EquityAt(ts, initial, k))
  }

  /** The peak never falls below the starting balance or the current equity; the maximum
    * drawdown is non-negative and bounds every drawdown seen so far. */
  lemma {:induction false} DrawdownBounds(ts: seq<Trade>, initial: real, k: nat)
    requires k <= |ts|
    ensures PeakAt(ts, initial, k) >= initial
    ensures PeakAt(ts, initial, k) >= EquityAt(ts, initial, k)
    ensures MaxDrawdownTo(ts, initial, k) >= 0.0
    ensures forall j :: 0 <= j <= k ==> PeakAt(ts, initial, j) <= PeakAt(ts, initial, k)
    ensures forall j :: 0 <= j <= k ==> PeakAt(ts, initial, j) - EquityAt(ts, initial, j) <= MaxDrawdownTo(ts, initial, k)
  {
    if k > 0 {
      DrawdownBounds(ts, initial, k - 1);
    }
  }

  /** After the k-th trade the fall from the peak was `dd`, with that percentage and date. */
  predicate AttainedAt(ts: seq<Trade>, initial: real, k: nat, dd: real, percent: real, date: Option<int>) {
    1 <= k <= |ts|
    && PeakAt(ts, initial, k) - EquityAt(ts, initial, k) == dd
    && percent == Percent(dd, PeakAt(ts, initial, k))
    && date == ts[k - 1].exitTime
  }

  /** Trade k is the first of the first k trades whose fall from the peak reaches `dd`:
    * the strict comparison keeps the earliest trade on a tie. */
  predicate FirstAttainedAt(ts: seq<Trade>, initial: real, k: nat, dd: real, percent: real, date: Option<int>) {
    AttainedAt(ts, initial, k, dd, percent, date)
    && forall j :: 1 <= j < k ==> PeakAt(ts, initial, j) - EquityAt(ts, initial, j) < dd
  }

  /** The drawdown periods closed after the first k trades, and the start of the open one.
    * A trade that lifts equity above the peak closes the open period at its exit time,
    * recording the peak before it as both balances; any other trade opens a period at its
    * exit time when none is open. */
  ghost function PeriodsTo(ts: seq<Trade>, initial: real, k: nat): (seq<DrawdownPeriod>, Option<int>)
    requires k <= |ts|
    requires forall i :: 0 <= i < k ==> ts[i].exitTime.Some?
  {
    if k == 0 then ([], None)
    else
      var prior := PeriodsTo(ts, initial, k - 1);
      var exit := ts[k - 1].exitTime.value;
      var peak := PeakAt(ts, initial, k - 1);
      if EquityAt(ts, initial, k) > peak then
        (if prior.1.Some? then prior.0 + [DrawdownPeriod(prior.1.value, exit, peak, peak)] else prior.0, None)
      else
        (prior.0, if prior.1.None? then Some(exit) else prior.1)
  }

  /** Over trades ordered by exit time: a period is open exactly when the last trade did not
    * lift the peak, it opened no later than that trade, there are at most as many closed
    * periods as trades, and each runs forward in time and spans no fall (its two balances
    * are the same peak). */
  lemma {:induction false} PeriodsShape(ts: seq<Trade>, initial: real, k: nat)
    requires k <= |ts|
    requires forall i :: 0 <= i < |ts| ==> ts[i].exitTime.Some?
    requires forall i, j :: 0 <= i < j < |ts| ==> ts[i].exitTime.value <= ts[j].exitTime.value
    ensures var r := PeriodsTo(ts, initial, k);
      && (r.1.Some? <==> k > 0 && EquityAt(ts, initial, k) <= PeakAt(ts, initial, k - 1))
      && (r.1.Some? ==> r.1.value <= ts[k - 1].exitTime.value)
      && |r.0| <= k
      && (forall p :: p in r.0 ==> p.startDate <= p.endDate && DrawdownAmount(p) == 0.0)
  {
    if k > 0 {
      PeriodsShape(ts, initial, k - 1);
      assert k > 1 ==> ts[k - 2].exitTime.value <= ts[k - 1].exitTime.value;
    }
  }

  /** What CalculateDrawdownAsync reports over the ordered trades `ts`. */
  ghost predicate DrawdownReport(ts: seq<Trade>, initialBalance: real, info: DrawdownInfo) {
    var n := |ts|;
    && info.maxDrawdown == MaxDrawdownTo(ts, initialBalance, n)
    && info.currentDrawdown == PeakAt(ts, initialBalance, n) - EquityAt(ts, initialBalance, n)
    && info.currentDrawdownPercent == Percent(info.currentDrawdown, PeakAt(ts, initialBalance, n))
    && (info.maxDrawdown == 0.0 ==> info.maxDrawdownPercent == 0.0 && info.maxDrawdownDate.None?)
    && (info.maxDrawdown > 0.0 ==> exists k: nat ::
          FirstAttainedAt(ts, initialBalance, k, info.maxDrawdown, info.maxDrawdownPercent, info.maxDrawdownDate))
    && (forall i :: 0 <= i < n ==> ts[i].exitTime.Some?)
    && info.periods == PeriodsTo(ts, initialBalance, n).0
    && |info.periods| <= n
    && (forall p :: p in info.periods ==> p.startDate <= p.endDate && DrawdownAmount(p) == 0.0)
    && info.maxDrawdownDuration == (if info.periods == [] then 0 else MaxDuration(info.periods))
  }

  /** CalculateDrawdownAsync. */
  method CalculateDrawdown(trades: seq<Trade>, initialBalance: real) returns (info: DrawdownInfo)
    ensures DrawdownReport(CurveTrades(trades), initialBalance, info)
  {
    info := DrawdownOver(CurveTrades(trades), initialBalance);
  }

  /** The loop of CalculateDrawdownAsync: one pass keeping equity, the peak and the open
    * drawdown period, over trades ordered by exit time. */
  method DrawdownOver(ts: seq<Trade>, initialBalance: real) returns (info: DrawdownInfo)
    requires forall i :: 0 <= i < |ts| ==> ts[i].exitTime.Some?
    requires forall i, j :: 0 <= i < j < |ts| ==> ts[i].exitTime.value <= ts[j].exitTime.value
    ensures DrawdownReport(ts, initialBalance, info)
  {
    var n := |ts|;
    var equity := initialBalance;
    var peak := initialBalance;
    var currentDrawdownStart: Option<int> := None;
    var currentPeak := initialBalance;
    var maxDrawdown, maxDrawdownPercent, maxDrawdownDate := 0.0, 0.0, None;
    var periods: seq<DrawdownPeriod> := [];
    ghost var maxAt: nat := 0;
    var k := 0;
    while k < n
      invariant 0 <= k <= n
      invariant ScannedTo(ts, initialBalance, k, equity, peak, currentPeak, currentDrawdownStart,
                          maxDrawdown, maxDrawdownPercent, maxDrawdownDate, maxAt, periods)
    {
      equity, peak, currentPeak, currentDrawdownStart, maxDrawdown, maxDrawdownPercent, maxDrawdownDate, maxAt, periods :=
        ScanTrade(ts, initialBalance, k, equity, peak, currentPeak, currentDrawdownStart,
                  maxDrawdown, maxDrawdownPercent, maxDrawdownDate, maxAt, periods);
      k := k + 1;
    }
    info := FinalDrawdown(ts, initialBalance, equity, peak, maxDrawdown, maxDrawdownPercent, maxDrawdownDate, maxAt, periods);
  }

  /** What the loop of CalculateDrawdownAsync knows after the first k trades. */
  ghost predicate ScannedTo(ts: seq<Trade>, initialBalance: real, k: nat, equity: real, peak: real, currentPeak: real,
                            currentDrawdownStart: Option<int>, maxDrawdown: real, maxDrawdownPercent: real,
                            maxDrawdownDate: Option<int>, maxAt: nat, periods: seq<DrawdownPeriod>)
  {
    && k <= |ts|
    && (forall i :: 0 <= i < k ==> ts[i].exitTime.Some?)
    && equity == EquityAt(ts, initialBalance, k)
    && peak == PeakAt(ts, initialBalance, k) == currentPeak
    && maxDrawdown == MaxDrawdownTo(ts, initialBalance, k)
    && (maxDrawdown == 0.0 ==> maxDrawdownPercent == 0.0 && maxDrawdownDate.None?)
    && (maxDrawdown > 0.0 ==> maxAt <= k && FirstAttainedAt(ts, initialBalance, maxAt, maxDrawdown, maxDrawdownPercent, maxDrawdownDate))
    && periods == PeriodsTo(ts, initialBalance, k).0
    && currentDrawdownStart == PeriodsTo(ts, initialBalance, k).1
    && (currentDrawdownStart.Some? ==> k > 0 && currentDrawdownStart.value <= ts[k - 1].exitTime.value)
    && |periods| <= k
    && (forall p :: p in periods ==> p.startDate <= p.endDate && DrawdownAmount(p) == 0.0)
  }

  /** One turn of the loop: trade `k` either lifts the peak, closing the open
    * drawdown period, or opens (or extends) one and may set a new maximum. */
  method ScanTrade(ts: seq<Trade>, initialBalance: real, k: nat, equity: real, peak: real, currentPeak: real,
                   currentDrawdownStart: Option<int>, maxDrawdown: real, maxDrawdownPercent: real,
                   maxDrawdownDate: Option<int>, ghost maxAt: nat, periods: seq<DrawdownPeriod>)
    returns (equity': real, peak': real, currentPeak': real, start': Option<int>, maxDrawdown': real,
             maxDrawdownPercent': real, maxDrawdownDate': Option<int>, ghost maxAt': nat, periods': seq<DrawdownPeriod>)
    requires forall i :: 0 <= i < |ts| ==> ts[i].exitTime.Some?
    requires forall i, j :: 0 <= i < j < |ts| ==> ts[i].exitTime.value <= ts[j].exitTime.value
    requires k < |ts|
    requires ScannedTo(ts, initialBalance, k, equity, peak, currentPeak, currentDrawdownStart,
                       maxDrawdown, maxDrawdownPercent, maxDrawdownDate, maxAt, periods)
    ensures ScannedTo(ts, initialBalance, k + 1, equity', peak', currentPeak', start',
                      maxDrawdown', maxDrawdownPercent', maxDrawdownDate', maxAt', periods')
  {
    DrawdownBounds(ts, initialBalance, k);
    PeriodsShape(ts, initialBalance, k + 1);
    var trade := ts[k];
    var exit := trade.exitTime.value;
    equity' := equity + PnL(trade);
    peak', currentPeak', start', periods' := peak, currentPeak, currentDrawdownStart, periods;
    maxDrawdown', maxDrawdownPercent', maxDrawdownDate', maxAt' := maxDrawdown, maxDrawdownPercent, maxDrawdownDate, maxAt;
    if equity' > peak {
      if currentDrawdownStart.Some? {
        periods' := periods + [DrawdownPeriod(currentDrawdownStart.value, exit, currentPeak, peak)];
        start' := None;
      }
      peak' := equity';
      currentPeak' := equity';
    } else {
      if currentDrawdownStart.None? {
        start' := Some(exit);
      }
      maxDrawdown', maxDrawdownPercent', maxDrawdownDate', maxAt' :=
        RecordDrawdown(ts, initialBalance, k, peak, equity', maxDrawdown, maxDrawdownPercent, maxDrawdownDate, maxAt);
    }
  }

  /** The figures after the last trade: the current drawdown from the final
    * peak and the longest of the closed periods. */
  method FinalDrawdown(ts: seq<Trade>, initialBalance: real, equity: real, peak: real,
                       maxDrawdown: real, maxDrawdownPercent: real, maxDrawdownDate: Option<int>, ghost maxAt: nat,
                       periods: seq<DrawdownPeriod>)
    returns (info: DrawdownInfo)
    requires forall i :: 0 <= i < |ts| ==> ts[i].exitTime.Some?
    requires equity == EquityAt(ts, initialBalance, |ts|) && peak == PeakAt(ts, initialBalance, |ts|)
    requires maxDrawdown == MaxDrawdownTo(ts, initialBalance, |ts|)
    requires maxDrawdown == 0.0 ==> maxDrawdownPercent == 0.0 && maxDrawdownDate.None?
    requires maxDrawdown > 0.0 ==> FirstAttainedAt(ts, initialBalance, maxAt, maxDrawdown, maxDrawdownPercent, maxDrawdownDate)
    requires periods == PeriodsTo(ts, initialBalance, |ts|).0
    requires |periods| <= |ts|
    requires forall p :: p in periods ==> p.startDate <= p.endDate && DrawdownAmount(p) == 0.0
    ensures info.periods == periods
    ensures info.maxDrawdown == maxDrawdown && info.maxDrawdownPercent == maxDrawdownPercent
    ensures info.maxDrawdownDate == maxDrawdownDate
    ensures DrawdownReport(ts, initialBalance, info)
  {
    var currentDrawdown := peak - equity;
    var duration := if periods == [] then 0 else MaxDuration(periods);
    info := DrawdownInfo(maxDrawdown, maxDrawdownPercent, maxDrawdownDate,
      currentDrawdown, Percent(currentDrawdown, peak), duration, periods);
  }

  /** The drawdown below the peak after trade `k`, kept as the maximum when it
    * exceeds the maximum so far; on a tie the earlier trade's figures stay. */
  method RecordDrawdown(ts: seq<Trade>, initialBalance: real, k: nat, peak: real, equity: real,
                        maxDrawdown: real, maxDrawdownPercent: real, maxDrawdownDate: Option<int>, ghost maxAt: nat)
    returns (newMax: real, newPercent: real, newDate: Option<int>, ghost newAt: nat)
    requires k < |ts|
    requires equity == EquityAt(ts, initialBalance, k + 1) && peak == PeakAt(ts, initialBalance, k + 1)
    requires maxDrawdown == MaxDrawdownTo(ts, initialBalance, k)
    requires maxDrawdown == 0.0 ==> maxDrawdownPercent == 0.0 && maxDrawdownDate.None?
    requires maxDrawdown > 0.0 ==> maxAt <= k && FirstAttainedAt(ts, initialBalance, maxAt, maxDrawdown, maxDrawdownPercent, maxDrawdownDate)
    ensures newMax == MaxDrawdownTo(ts, initialBalance, k + 1)
    ensures newMax == 0.0 ==> newPercent == 0.0 && newDate.None?
    ensures newMax > 0.0 ==> newAt <= k + 1 && FirstAttainedAt(ts, initialBalance, newAt, newMax, newPercent, newDate)
    ensures newMax == maxDrawdown ==> newPercent == maxDrawdownPercent && newDate == maxDrawdownDate
  {
    DrawdownBounds(ts, initialBalance, k);
    var drawdown := peak - equity;
    var drawdownPercent := Percent(drawdown, peak);
    newMax, newPercent, newDate, newAt := maxDrawdown, maxDrawdownPercent, maxDrawdownDate, maxAt;
    if drawdown > maxDrawdown {
      newMax, newPercent, newDate, newAt := drawdown, drawdownPercent, ts[k].exitTime, k + 1;
    }
  }

  /** The report is determined by the trades: two reports over the same trades are equal,
    * so neither the periods nor the trade named for the maximum are left open. */
  lemma DrawdownReportDetermined(ts: seq<Trade>, initialBalance: real, a: DrawdownInfo, b: DrawdownInfo)
    requires DrawdownReport(ts, initialBalance, a) && DrawdownReport(ts, initialBalance, b)
    ensures a == b
  {
    if a.maxDrawdown > 0.0 {
      var ka: nat :| FirstAttainedAt(ts, initialBalance, ka, a.maxDrawdown, a.maxDrawdownPercent, a.maxDrawdownDate);
      var kb: nat :| FirstAttainedAt(ts, initialBalance, kb, b.maxDrawdown, b.maxDrawdownPercent, b.maxDrawdownDate);
      assert ka == kb;
    }
  }

  /** The drawdown figures the source promises: the peak is at least the starting balance,
    * and both the current and the maximum drawdown are non-negative. */
  lemma DrawdownNonNegative(trades: seq<Trade>, initialBalance: real)
    ensures var ts := CurveTrades(trades);
      && PeakAt(ts, initialBalance, |ts|) >= initialBalance
      && PeakAt(ts, initialBalance, |ts|) - EquityAt(ts, initialBalance, |ts|) >= 0.0
      && MaxDrawdownTo(ts, initialBalance, |ts|) >= PeakAt(ts, initialBalance, |ts|) - EquityAt(ts, initialBalance, |ts|)
  {
    var ts := CurveTrades(trades);
    DrawdownBounds(ts, initialBalance, |ts|);
  }
}
