// The trade entry form's view model: the text the user types into each box,
// the figures computed from it as it changes (profit, pips, risk:reward),
// the execution rating radio group, validation before saving, and the DTOs
// the form hands to the trade service.
// Times are seconds as in `Domain`; "today" and the current time of day are
// parameters. Loading a stored trade into the form and the save commands go
// through the trade service and the navigation engine and are not modelled.

module TradeEntry {
  import opened Common
  import opened Text
  import opened Numeric
  import opened Domain
  import opened TradeDtos

  // ----- pure helpers of the view model -----

  /** `Direction`: index 0 of the direction box is Buy, every other index Sell. */
  function DirectionOfIndex(index: int): (d: Direction)
    ensures d == Buy <==> index == 0
  {
    if index == 0 then Buy else Sell
  }

  /** `GetPipValue`: the price step of one pip, chosen by the first matching
    * fragment of the upper-cased symbol. */
  function PipValue(symbol: string): (r: real)
    ensures r > 0.0
  {
    if symbol == "" then 0.0001
    else
      var s := ToUpper(symbol);
      if Contains(s, "JPY") then 0.01
      else if Contains(s, "XAU") || Contains(s, "GOLD") then 0.1
      else if Contains(s, "XAG") || Contains(s, "SILVER") then 0.01
      else if Contains(s, "US30") || Contains(s, "SPX") || Contains(s, "NAS") then 1.0
      else 0.0001
  }

  /** The pip size is always one of the four known steps, and case does not matter. */
  lemma PipValueProperties(symbol: string)
    ensures PipValue(symbol) in {0.0001, 0.01, 0.1, 1.0}
    ensures PipValue(symbol) > 0.0
    ensures PipValue(ToLower(symbol)) == PipValue(symbol)
    ensures PipValue(ToUpper(symbol)) == PipValue(symbol)
  {
    UpperOfLower(symbol);
    PipValueOfSameUpper(ToLower(symbol), symbol);
    CaseMappingsIdempotent(symbol);
    PipValueOfSameUpper(ToUpper(symbol), symbol);
  }

  lemma UpperOfLower(s: string)
    ensures ToUpper(ToLower(s)) == ToUpper(s)
  {
    forall i | 0 <= i < |s|
      ensures ToUpper(ToLower(s))[i] == ToUpper(s)[i]
    {
    }
  }

  /** Symbols of the same length that upper-case alike have the same pip size. */
  lemma PipValueOfSameUpper(a: string, b: string)
    requires |a| == |b| && ToUpper(a) == ToUpper(b)
    ensures PipValue(a) == PipValue(b)
  {
  }

  /** Which fragment wins: a yen pair is a yen pair even if it also names a metal. */
  lemma PipValueCases(symbol: string)
    ensures symbol == "" ==> PipValue(symbol) == 0.0001
    ensures symbol != "" && Contains(ToUpper(symbol), "JPY") ==> PipValue(symbol) == 0.01
    ensures symbol != "" && !Contains(ToUpper(symbol), "JPY") && Contains(ToUpper(symbol), "GOLD") ==> PipValue(symbol) == 0.1
    ensures (symbol != "" && !Contains(ToUpper(symbol), "JPY") && !Contains(ToUpper(symbol), "XAU")
             && !Contains(ToUpper(symbol), "GOLD") && Contains(ToUpper(symbol), "SILVER")) ==> PipValue(symbol) == 0.01
  {
  }

  /** `ParseNullableDecimal`: blank or invalid text is null. */
  function ParseNullableDecimal(value: string): (r: Option<real>)
    ensures IsBlank(value) ==> r.None?
    ensures r.Some? ==> ParseDecimal(value) == r
  {
    if IsBlank(value) then None else ParseDecimal(value)
  }

  /** The view model's `ParseDecimal` (`ParseDecimalOrZero`) and `ParseNullableDecimal`
    * agree wherever the latter gives a number, and the former reads null as 0. */
  lemma ParseDecimalAgree(value: string)
    ensures ParseDecimalOrZero(value) == ParseNullableDecimal(value).GetOr(0.0)
    ensures ParseNullableDecimal(value) == ParseDecimal(value)
  {
  }

  /** The signed price move in the trade's favour. */
  function PriceMove(direction: Direction, entry: real, exit: real): real {
    if direction == Buy then exit - entry else entry - exit
  }

  /** `CalculateProfitLoss` on the parsed boxes: zero unless entry, exit and
    * volume are numbers with a positive entry and volume; otherwise ten dollars
    * a pip per lot, less commission and swap. */
  function ProfitLoss(pip: real, direction: Direction, entry: Option<real>, exit: Option<real>,
                      vol: Option<real>, commission: real, swap: real): (r: real)
    requires pip > 0.0
    ensures entry.None? || exit.None? || vol.None? || vol.value <= 0.0 || entry.value <= 0.0 ==> r == 0.0
    ensures entry.Some? && exit.Some? && vol.Some? && vol.value > 0.0 && entry.value > 0.0 ==>
      (r + commission + swap) * pip == PriceMove(direction, entry.value, exit.value) * vol.value * 10.0
  {
    if entry.None? || exit.None? || vol.None? || vol.value <= 0.0 || entry.value <= 0.0 then 0.0
    else
      var move := PriceMove(direction, entry.value, exit.value);
      var pips := move / pip;
      assert pips * pip == move;
      assert pips * vol.value * 10.0 * pip == move * vol.value * 10.0;
      pips * vol.value * 10.0 - commission - swap
  }

  /** `CalculateProfitLoss` on the text of the boxes. */
  function ProfitLossOf(symbol: string, direction: Direction, volume: string, entryPrice: string,
                        exitPrice: string, commission: string, swap: string): real
  {
    ProfitLoss(PipValue(symbol), direction, ParseDecimal(entryPrice), ParseDecimal(exitPrice), ParseDecimal(volume),
               ParseDecimalOrZero(commission), ParseDecimalOrZero(swap))
  }

  /** Scaling a move by positive factors keeps its sign. */
  lemma ScaledMoveSign(move: real, pip: real, vol: real)
    requires pip > 0.0 && vol > 0.0
    ensures move > 0.0 ==> move / pip * vol * 10.0 > 0.0
    ensures move < 0.0 ==> move / pip * vol * 10.0 < 0.0
    ensures move == 0.0 ==> move / pip * vol * 10.0 == 0.0
  {
    var q := move / pip;
    assert move > 0.0 ==> q > 0.0;
    assert move < 0.0 ==> q < 0.0;
    assert q * vol * 10.0 == q * (vol * 10.0);
  }

  /** Before costs, the profit has the sign of the move in the trade's favour;
    * without a valid entry, exit or volume it is zero. */
  lemma ProfitFollowsMove(pip: real, direction: Direction, entry: Option<real>, exit: Option<real>,
                          vol: Option<real>, commission: real, swap: real)
    requires pip > 0.0
    ensures entry.None? || exit.None? || vol.None? || vol.value <= 0.0 || entry.value <= 0.0 ==>
              ProfitLoss(pip, direction, entry, exit, vol, commission, swap) == 0.0
    ensures entry.Some? && exit.Some? && vol.Some? && vol.value > 0.0 && entry.value > 0.0 ==>
              var move := PriceMove(direction, entry.value, exit.value);
              var gross := ProfitLoss(pip, direction, entry, exit, vol, commission, swap) + commission + swap;
              (move > 0.0 ==> gross > 0.0) && (move < 0.0 ==> gross < 0.0) && (move == 0.0 ==> gross == 0.0)
  {
    if entry.Some? && exit.Some? && vol.Some? && vol.value > 0.0 && entry.value > 0.0 {
      ScaledMoveSign(PriceMove(direction, entry.value, exit.value), pip, vol.value);
    }
  }

  /** `CalculatePips` on the parsed boxes: zero unless entry and exit are
    * numbers with a positive entry; otherwise the move in pips to one decimal. */
  function Pips(pip: real, direction: Direction, entry: Option<real>, exit: Option<real>): (r: real)
    requires pip > 0.0
    ensures entry.None? || exit.None? || entry.value <= 0.0 ==> r == 0.0
    ensures entry.Some? && exit.Some? && entry.value > 0.0 ==>
      -0.05 <= r - PriceMove(direction, entry.value, exit.value) / pip <= 0.05
  {
    if entry.None? || exit.None? || entry.value <= 0.0 then 0.0
    else
      var exact := PriceMove(direction, entry.value, exit.value) / pip;
      RoundIsNearest(exact, OneDecimal);
      Round(exact, OneDecimal)
  }

  /** `CalculatePips` on the text of the boxes. */
  function PipsOf(symbol: string, direction: Direction, entryPrice: string, exitPrice: string): real {
    Pips(PipValue(symbol), direction, ParseDecimal(entryPrice), ParseDecimal(exitPrice))
  }

  /** Reversing the direction negates the pips, and they are within a twentieth
    * of a pip of the exact move. */
  lemma PipsProperties(pip: real, entry: Option<real>, exit: Option<real>)
    requires pip > 0.0
    ensures Pips(pip, Sell, entry, exit) == -Pips(pip, Buy, entry, exit)
    ensures entry.Some? && exit.Some? && entry.value > 0.0 ==>
              var exact := PriceMove(Buy, entry.value, exit.value) / pip;
              -0.05 <= Pips(pip, Buy, entry, exit) - exact <= 0.05
  {
    if entry.Some? && exit.Some? && entry.value > 0.0 {
      var buy := PriceMove(Buy, entry.value, exit.value) / pip;
      assert PriceMove(Sell, entry.value, exit.value) / pip == -buy;
      RoundNegate(buy, OneDecimal);
      RoundIsNearest(buy, OneDecimal);
    }
  }

  /** `CalculateRiskReward` on the parsed boxes: null unless entry and stop loss
    * are positive numbers that differ; the reward is measured to the exit price
    * when it is a positive number, else to the take profit when that is, else
    * null; the ratio is rounded to two decimals. */
  function RiskReward(direction: Direction, entry: Option<real>, sl: Option<real>,
                      exit: Option<real>, tp: Option<real>): (r: Option<real>)
    ensures r.Some? <==>
      && entry.Some? && sl.Some? && entry.value > 0.0 && sl.value > 0.0 && entry.value != sl.value
      && ((exit.Some? && exit.value > 0.0) || (tp.Some? && tp.value > 0.0))
  {
    if entry.None? || sl.None? || entry.value <= 0.0 || sl.value <= 0.0 then None
    else
      var risk := Abs(entry.value - sl.value);
      if risk == 0.0 then None
      else if exit.Some? && exit.value > 0.0 then
        Some(Round(PriceMove(direction, entry.value, exit.value) / risk, TwoDecimals))
      else if tp.Some? && tp.value > 0.0 then
        Some(Round(PriceMove(direction, entry.value, tp.value) / risk, TwoDecimals))
      else None
  }

  /** `CalculateRiskReward` on the text of the boxes. */
  function RiskRewardOf(direction: Direction, entryPrice: string, stopLoss: string,
                        exitPrice: string, takeProfit: string): Option<real>
  {
    RiskReward(direction, ParseDecimal(entryPrice), ParseDecimal(stopLoss), ParseDecimal(exitPrice), ParseDecimal(takeProfit))
  }

  /** When the ratio is null, and which price it is measured to: the exit price
    * takes precedence over the take profit, and the result is within half a
    * hundredth of the exact ratio. */
  lemma RiskRewardCases(direction: Direction, entry: Option<real>, sl: Option<real>, exit: Option<real>, tp: Option<real>)
    ensures (entry.None? || sl.None? || entry.value <= 0.0 || sl.value <= 0.0 || entry.value == sl.value)
              ==> RiskReward(direction, entry, sl, exit, tp).None?
    ensures entry.Some? && sl.Some? && entry.value > 0.0 && sl.value > 0.0 && entry.value != sl.value ==>
              var r := RiskReward(direction, entry, sl, exit, tp);
              var target := if exit.Some? && exit.value > 0.0 then exit
                            else if tp.Some? && tp.value > 0.0 then tp else None;
              (r.Some? <==> target.Some?)
              && (r.Some? ==>
                    var exact := PriceMove(direction, entry.value, target.value) / Abs(entry.value - sl.value);
                    -0.005 <= r.value - exact <= 0.005)
  {
    if entry.Some? && sl.Some? && entry.value > 0.0 && sl.value > 0.0 && entry.value != sl.value {
      var risk := Abs(entry.value - sl.value);
      if exit.Some? && exit.value > 0.0 {
        RoundIsNearest(PriceMove(direction, entry.value, exit.value) / risk, TwoDecimals);
      } else if tp.Some? && tp.value > 0.0 {
        RoundIsNearest(PriceMove(direction, entry.value, tp.value) / risk, TwoDecimals);
      }
    }
  }

  /** Every part is a non-empty run of digits. */
  predicate NumericParts(parts: seq<string>) {
    forall k :: 0 <= k < |parts| ==> parts[k] != [] && AllDigits(parts[k])
  }

  /** `TimeSpan.TryParse` on the time boxes, for the `H:mm` and `H:mm:ss` forms:
    * the time of day in seconds. */
  function ParseTimeOfDay(text: string): (r: Option<int>)
    ensures r.Some? ==> 0 <= r.value < SecondsPerDay
  {
    var parts := Split(Trim(text), ':');
    if |parts| < 2 || |parts| > 3 then None
    else if !NumericParts(parts) then None
    else
      var h := DigitsValue(parts[0]);
      var m := DigitsValue(parts[1]);
      var s := if |parts| == 3 then DigitsValue(parts[2]) else 0;
      if h < 24 && m < 60 && s < 60 then Some(h * SecondsPerHour + m * SecondsPerMinute + s) else None
  }

  /** The `HH:mm` text the form starts with. */
  function FormatHourMinute(hour: nat, minute: nat): string
    requires hour < 24 && minute < 60
  {
    TwoDigits(hour) + ":" + TwoDigits(minute)
  }

  /** Two digits joined by a colon split back into the two, and need no trimming. */
  lemma SplitDigitPair(hh: string, mm: string)
    requires |hh| == 2 && |mm| == 2 && AllDigits(hh) && AllDigits(mm)
    ensures Trim(hh + ":" + mm) == hh + ":" + mm
    ensures Split(Trim(hh + ":" + mm), ':') == [hh, mm]
  {
    TrimOfDigitPair(hh, mm);
    SplitOfDigitPair(hh, mm);
  }

  lemma TrimOfDigitPair(hh: string, mm: string)
    requires |hh| == 2 && |mm| == 2 && AllDigits(hh) && AllDigits(mm)
    ensures Trim(hh + ":" + mm) == hh + ":" + mm
  {
    var text := hh + ":" + mm;
    assert IsDigit(hh[0]) && IsDigit(mm[1]) && text[0] == hh[0] && text[|text| - 1] == mm[1];
    assert !IsWhiteSpace(text[0]) && !IsWhiteSpace(text[|text| - 1]);
  }

  lemma SplitOfDigitPair(hh: string, mm: string)
    requires |hh| == 2 && |mm| == 2 && AllDigits(hh) && AllDigits(mm)
    ensures Split(hh + ":" + mm, ':') == [hh, mm]
  {
    assert ':' !in hh && ':' !in mm by {
      assert IsDigit(hh[0]) && IsDigit(hh[1]) && IsDigit(mm[0]) && IsDigit(mm[1]);
    }
    SplitWithoutSeparator(hh, ':');
    SplitWithoutSeparator(mm, ':');
    SplitAtSeparator(hh, mm, ':');
  }

  /** A text whose parts are an hour and a minute in digits reads as that time. */
  lemma ParseHourMinute(text: string, hh: string, mm: string)
    requires Split(Trim(text), ':') == [hh, mm]
    requires hh != [] && mm != [] && AllDigits(hh) && AllDigits(mm)
    requires DigitsValue(hh) < 24 && DigitsValue(mm) < 60
    ensures ParseTimeOfDay(text) == Some(DigitsValue(hh) * SecondsPerHour + DigitsValue(mm) * SecondsPerMinute)
  {
    assert NumericParts(Split(Trim(text), ':'));
  }

  /** The form's own `HH:mm` text reads back as the time it shows. */
  lemma TimeOfDayRoundTrip(hour: nat, minute: nat)
    requires hour < 24 && minute < 60
    ensures ParseTimeOfDay(FormatHourMinute(hour, minute)) == Some(hour * SecondsPerHour + minute * SecondsPerMinute)
  {
    var hh := TwoDigits(hour);
    var mm := TwoDigits(minute);
    SplitDigitPair(hh, mm);
    ParseHourMinute(hh + ":" + mm, hh, mm);
  }

  /** `GetEntryDateTime`: the entry date (today when none is chosen) plus the
    * entry time when it parses. */
  function EntryDateTime(entryDate: Option<int>, entryTimeText: string, today: int): (r: int)
    ensures var date := entryDate.GetOr(today); date <= r < date + SecondsPerDay
    ensures ParseTimeOfDay(entryTimeText).None? ==> r == entryDate.GetOr(today)
  {
    var date := entryDate.GetOr(today);
    match ParseTimeOfDay(entryTimeText)
    case Some(t) => date + t
    case None => date
  }

  /** `GetExitDateTime`: null without an exit date; otherwise the date plus the
    * exit time when that is given and parses. */
  function ExitDateTime(exitDate: Option<int>, exitTimeText: string): (r: Option<int>)
    ensures r.Some? <==> exitDate.Some?
  {
    if exitDate.None? then None
    else if exitTimeText != "" && ParseTimeOfDay(exitTimeText).Some? then
      Some(exitDate.value + ParseTimeOfDay(exitTimeText).value)
    else Some(exitDate.value)
  }

  /** What `ValidateForm` complains about first. */
  datatype FormProblem =
    | MissingSymbol
    | InvalidVolume
    | InvalidEntryPrice
    | MissingEntryDate
    | BuyStopLossNotBelowEntry
    | SellStopLossNotAboveEntry

  /** `ValidateForm`'s chain of checks: the first one that fails. */
  function FormProblemOf(symbol: string, direction: Direction, volume: string, entryPrice: string,
                         entryDate: Option<int>, stopLoss: string): Option<FormProblem>
  {
    ProblemOfValues(symbol, direction, ParseDecimal(volume), ParseDecimal(entryPrice),
                    entryDate, stopLoss != "", ParseDecimal(stopLoss))
  }

  /** The chain of checks on the parsed boxes. */
  function ProblemOfValues(symbol: string, direction: Direction, vol: Option<real>, entry: Option<real>,
                           entryDate: Option<int>, stopLossGiven: bool, sl: Option<real>): Option<FormProblem>
  {
    if IsBlank(symbol) then Some(MissingSymbol)
    else if vol.None? || vol.value <= 0.0 then Some(InvalidVolume)
    else if entry.None? || entry.value <= 0.0 then Some(InvalidEntryPrice)
    else if entryDate.None? then Some(MissingEntryDate)
    else if stopLossGiven && sl.Some? && direction == Buy && sl.value >= entry.value then Some(BuyStopLossNotBelowEntry)
    else if stopLossGiven && sl.Some? && direction == Sell && sl.value <= entry.value then Some(SellStopLossNotAboveEntry)
    else None
  }

  /** A form is acceptable when it names a symbol, a positive volume and entry
    * price, an entry date, and a stop loss (if it parses) on the losing side of
    * the entry. */
  predicate Acceptable(symbol: string, direction: Direction, volume: string, entryPrice: string,
                       entryDate: Option<int>, stopLoss: string)
  {
    AcceptableValues(symbol, direction, ParseDecimal(volume), ParseDecimal(entryPrice),
                     entryDate, ParseDecimal(stopLoss))
  }

  predicate AcceptableValues(symbol: string, direction: Direction, vol: Option<real>, entry: Option<real>,
                             entryDate: Option<int>, sl: Option<real>)
  {
    !IsBlank(symbol) && vol.Some? && vol.value > 0.0 && entry.Some? && entry.value > 0.0 && entryDate.Some?
    && (sl.Some? ==> (direction == Buy ==> sl.value < entry.value) && (direction == Sell ==> sl.value > entry.value))
  }

  /** The check chain passes exactly the acceptable forms, and the problem it
    * reports is a real one. */
  lemma FormProblemIffNotAcceptable(symbol: string, direction: Direction, volume: string, entryPrice: string,
                                    entryDate: Option<int>, stopLoss: string)
    ensures FormProblemOf(symbol, direction, volume, entryPrice, entryDate, stopLoss).None?
            <==> Acceptable(symbol, direction, volume, entryPrice, entryDate, stopLoss)
    ensures FormProblemOf(symbol, direction, volume, entryPrice, entryDate, stopLoss) == Some(MissingSymbol) <==> IsBlank(symbol)
  {
    if stopLoss == "" {
      EmptyDoesNotParse(stopLoss);
    }
    ProblemIffNotAcceptable(symbol, direction, ParseDecimal(volume), ParseDecimal(entryPrice),
                            entryDate, stopLoss != "", ParseDecimal(stopLoss));
  }

  lemma EmptyDoesNotParse(s: string)
    requires s == ""
    ensures ParseDecimal(s).None?
  {
    assert IsBlank(s);
  }

  /** The same on the parsed boxes: a stop loss that is not given does not parse. */
  lemma ProblemIffNotAcceptable(symbol: string, direction: Direction, vol: Option<real>, entry: Option<real>,
                                entryDate: Option<int>, stopLossGiven: bool, sl: Option<real>)
    requires stopLossGiven || sl.None?
    ensures ProblemOfValues(symbol, direction, vol, entry, entryDate, stopLossGiven, sl).None?
            <==> AcceptableValues(symbol, direction, vol, entry, entryDate, sl)
    ensures ProblemOfValues(symbol, direction, vol, entry, entryDate, stopLossGiven, sl) == Some(MissingSymbol)
            <==> IsBlank(symbol)
  {
  }

  /** The numeric boxes, whose change recomputes the figures. */
  datatype NumericBox = VolumeBox | EntryPriceBox | ExitPriceBox | StopLossBox | TakeProfitBox | CommissionBox | SwapBox

  /** What the user has entered: the text of every box, the chosen direction
    * index, the dates and the check boxes. */
  datatype Form = Form(
    symbol: string,
    directionIndex: int,
    volume: string,
    entryPrice: string,
    exitPrice: string,
    stopLoss: string,
    takeProfit: string,
    entryDate: Option<int>,
    entryTimeText: string,
    exitDate: Option<int>,
    exitTimeText: string,
    commission: string,
    swap: string,
    entryReason: string,
    preTradeNotes: string,
    postTradeNotes: string,
    mistakes: string,
    lessons: string,
    followedPlan: bool,
    isImpulsive: bool,
    isClosed: bool)
  {
    function Direction(): Direction {
      DirectionOfIndex(directionIndex)
    }

    /** The text of a numeric box. */
    function Box(box: NumericBox): string {
      match box
      case VolumeBox => volume
      case EntryPriceBox => entryPrice
      case ExitPriceBox => exitPrice
      case StopLossBox => stopLoss
      case TakeProfitBox => takeProfit
      case CommissionBox => commission
      case SwapBox => swap
    }

    /** The problem `ValidateForm` reports for this input, if any. */
    function Problem(): Option<FormProblem> {
      FormProblemOf(symbol, Direction(), volume, entryPrice, entryDate, stopLoss)
    }

    /** The form with one numeric box changed. */
    function WithBox(box: NumericBox, value: string): (f: Form)
      ensures f.Box(box) == value
      ensures forall b :: b != box ==> f.Box(b) == Box(b)
      ensures f.symbol == symbol && f.directionIndex == directionIndex
    {
      match box
      case VolumeBox => this.(volume := value)
      case EntryPriceBox => this.(entryPrice := value)
      case ExitPriceBox => this.(exitPrice := value)
      case StopLossBox => this.(stopLoss := value)
      case TakeProfitBox => this.(takeProfit := value)
      case CommissionBox => this.(commission := value)
      case SwapBox => this.(swap := value)
    }

    /** Whether the exit price box holds a number. */
    predicate HasExit() {
      exitPrice != "" && ParseDecimal(exitPrice).Some?
    }
  }

  /** The empty form: dated today at the current time, 0.01 lots, no commission or swap. */
  function ClearedForm(today: int, timeText: string): Form {
    Form("", 0, "0.01", "", "", "", "", Some(today), timeText, None, "", "0", "0",
         "", "", "", "", "", false, false, false)
  }

  /** The figures shown under the form. */
  datatype Figures = Figures(profitLoss: real, pips: real, riskReward: Option<real>)

  const NoFigures := Figures(0.0, 0.0, None)

  /** `CalculateAll`: profit, pips and risk:reward of a form. */
  function FiguresOf(f: Form): Figures {
    Figures(
      ProfitLossOf(f.symbol, f.Direction(), f.volume, f.entryPrice, f.exitPrice, f.commission, f.swap),
      PipsOf(f.symbol, f.Direction(), f.entryPrice, f.exitPrice),
      RiskRewardOf(f.Direction(), f.entryPrice, f.stopLoss, f.exitPrice, f.takeProfit))
  }

  /** The empty form computes no figures: the entry price is empty. */
  lemma ClearedFormHasNoFigures(today: int, timeText: string)
    ensures FiguresOf(ClearedForm(today, timeText)) == NoFigures
  {
    assert IsBlank("");
  }

  /** The fields `BuildCreateDto` and `BuildUpdateDto` share. */
  function FormInput(f: Form, executionRating: int, accountId: int, today: int): (t: TradeInput)
    ensures t.symbol == f.symbol && t.direction == DirectionValue(f.Direction())
    ensures t.executionRating.Some? <==> executionRating > 0
    ensures t.executionRating.Some? ==> t.executionRating.value == executionRating
    ensures t.volume == ParseDecimalOrZero(f.volume) && t.entryPrice == ParseDecimalOrZero(f.entryPrice)
    ensures t.exitPrice == ParseNullableDecimal(f.exitPrice)
    ensures t.exitTime.Some? <==> f.exitDate.Some?
  {
    TradeInput(
      accountId, None, f.symbol, DirectionValue(f.Direction()),
      ParseDecimalOrZero(f.volume), ParseDecimalOrZero(f.entryPrice),
      ParseNullableDecimal(f.exitPrice), ParseNullableDecimal(f.stopLoss), ParseNullableDecimal(f.takeProfit),
      EntryDateTime(f.entryDate, f.entryTimeText, today), ExitDateTime(f.exitDate, f.exitTimeText),
      ParseDecimalOrZero(f.commission), ParseDecimalOrZero(f.swap),
      Some(f.preTradeNotes), Some(f.postTradeNotes), Some(f.entryReason), None, Some(f.mistakes), Some(f.lessons),
      if executionRating > 0 then Some(executionRating) else None,
      Some(f.isImpulsive), Some(f.followedPlan))
  }

  /** `BuildCreateDto`: the DTO derives `IsClosed` from an exit price and time. */
  function CreateDto(f: Form, executionRating: int, accountId: int, today: int): (dto: TradeCreateDto)
    ensures dto.IsClosed() <==> f.HasExit() && f.exitDate.Some?
    ensures dto.fields == FormInput(f, executionRating, accountId, today) && dto.customFields == []
  {
    TradeCreateDto(FormInput(f, executionRating, accountId, today), [])
  }

  /** `BuildUpdateDto`: the trade being edited, closed when the box says so or
    * when an exit price is given, even without an exit date. */
  function UpdateDto(f: Form, tradeId: int, executionRating: int, accountId: int, today: int): (dto: TradeUpdateDto)
    ensures dto.id == tradeId && dto.fields == FormInput(f, executionRating, accountId, today)
    ensures dto.isClosed <==> f.isClosed || f.HasExit()
    ensures f.HasExit() ==> dto.isClosed && dto.fields.exitPrice.Some?
  {
    TradeUpdateDto(tradeId, FormInput(f, executionRating, accountId, today), f.isClosed || f.HasExit(), [])
  }

  class TradeEntryViewModel {
    /** The trade being edited; none for a new trade. */
    var tradeId: Option<int>
    var form: Form
    /** The checked rating button, 0 for none. */
    var executionRating: int
    var figures: Figures
    var isLoading: bool
    /** The message `ShowError` displays, as the problem it names. */
    var error: Option<FormProblem>

    /** `IsNewTrade`: there is no trade id to update. */
    predicate IsNewTrade()
      reads this
    {
      tradeId.None?
    }

    /** The shown figures are those of the current input. */
    ghost predicate Calculated()
      reads this`figures, this`form
    {
      figures == FiguresOf(form)
    }

    /** `RatingK`: the radio button for `k` is checked. */
    predicate RatingChecked(k: int)
      reads this
    {
      executionRating == k
    }

    /** The cleared state: a new trade, the empty form, no rating, no figures. */
    ghost predicate IsCleared(today: int, timeText: string)
      reads this
    {
      tradeId.None? && form == ClearedForm(today, timeText) && executionRating == 0 && figures == NoFigures
    }

    constructor(today: int, timeText: string)
      ensures IsCleared(today, timeText) && !isLoading && error.None?
    {
      tradeId := None;
      form := ClearedForm(today, timeText);
      executionRating := 0;
      figures := NoFigures;
      isLoading := false;
      error := None;
    }

    /** `CalculateAll`. */
    method CalculateAll()
      modifies this`figures
      ensures Calculated()
    {
      figures := FiguresOf(form);
    }

    /** The `Symbol` setter stores the upper-cased value, null as empty. It does
      * not recompute the figures, although the pip size depends on the symbol. */
    method SetSymbol(value: Option<string>)
      modifies this`form
      ensures form == old(form).(symbol := ToUpper(value.GetOr("")))
    {
      form := form.(symbol := ToUpper(value.GetOr("")));
    }

    /** The `DirectionIndex` setter: a change recomputes the figures unless a
      * trade is being loaded, so figures that matched the input still do. */
    method SetDirectionIndex(value: int)
      modifies this`form, this`figures
      ensures form == old(form).(directionIndex := value)
      ensures figures == if !isLoading && old(form.directionIndex) != value then FiguresOf(form) else old(figures)
    {
      var changed := form.directionIndex != value;
      form := form.(directionIndex := value);
      if changed && !isLoading {
        CalculateAll();
      }
    }

    /** The setters of the numeric boxes: a change recomputes the figures unless
      * a trade is being loaded; setting a box to its own text changes nothing. */
    method SetNumericText(box: NumericBox, value: string)
      modifies this`form, this`figures
      ensures form == old(form).WithBox(box, value)
      ensures figures == if !isLoading && old(form.Box(box)) != value then FiguresOf(form) else old(figures)
    {
      var changed := form.Box(box) != value;
      form := form.WithBox(box, value);
      if changed && !isLoading {
        CalculateAll();
      }
    }

    /** `SetRating` through a `RatingK` setter: setting one checks it and clears
      * the other four; clearing one does nothing. */
    method SetRatingButton(k: int, value: bool)
      requires 1 <= k <= 5
      modifies this`executionRating
      ensures value ==> executionRating == k
      ensures value ==> forall j :: 1 <= j <= 5 ==> (RatingChecked(j) <==> j == k)
      ensures !value ==> executionRating == old(executionRating)
    {
      if value {
        executionRating := k;
      }
    }

    /** `ValidateForm`: clears the messages, then reports the first failing
      * check; the form passes when there is none, which by
      * `FormProblemIffNotAcceptable` is exactly when it is acceptable. */
    method ValidateForm() returns (ok: bool)
      modifies this`error
      ensures error == form.Problem()
      ensures ok == error.None?
    {
      error := None;
      error := form.Problem();
      ok := error.None?;
    }

    /** `ClearForm`: back to the empty form with no rating; the figures end at
      * zero, which are also the figures of the empty form. */
    method ClearForm(today: int, timeText: string)
      modifies this`tradeId, this`form, this`executionRating, this`figures
      ensures IsCleared(today, timeText)
    {
      tradeId := None;
      form := ClearedForm(today, timeText);
      executionRating := 0;
      figures := NoFigures;
    }

    /** `SetParameterAsync` for anything but a positive trade id: a new, empty form. */
    method SetParameterNew(today: int, timeText: string)
      modifies this`tradeId, this`form, this`executionRating, this`figures, this`isLoading
      ensures IsNewTrade() && IsCleared(today, timeText) && !isLoading
    {
      isLoading := true;
      ClearForm(today, timeText);
      isLoading := false;
    }

    /** `BuildCreateDto` on the current state. */
    function BuildCreateDto(accountId: int, today: int): (dto: TradeCreateDto)
      reads this
      ensures dto == CreateDto(form, executionRating, accountId, today)
    {
      CreateDto(form, executionRating, accountId, today)
    }

    /** `BuildUpdateDto` on the current state; only an edited trade has an id. */
    function BuildUpdateDto(accountId: int, today: int): (dto: TradeUpdateDto)
      reads this
      requires tradeId.Some?
      ensures dto == UpdateDto(form, tradeId.value, executionRating, accountId, today)
    {
      UpdateDto(form, tradeId.value, executionRating, accountId, today)
    }
  }
}
