// The FluentValidation rule sets for creating, updating and closing a trade
// and for creating an account. Every rule of a rule set is checked (the
// default cascade mode), and the messages of the failing ones come out in
// declaration order; the services join them with line breaks.

module TradeValidators {
  import opened Common
  import opened Domain
  import opened Text
  import opened TradeDtos

  /** The rules, each named after the message it shows when it fails. */
  datatype Rule =
    | AccountNotSelected
    | SymbolRequired
    | SymbolTooLong
    | DirectionInvalid
    | VolumeNotPositive
    | VolumeTooLarge
    | EntryPriceNotPositive
    | EntryTimeRequired
    | EntryTimeInFuture
    | BuyStopLossNotBelowEntry
    | SellStopLossNotAboveEntry
    | BuyTakeProfitNotAboveEntry
    | SellTakeProfitNotBelowEntry
    | ExitBeforeEntry
    | ExitPriceNotPositive
    | RatingOutOfRange
    | CommissionNegative
    | PreTradeNotesTooLong
    | PostTradeNotesTooLong
    | EntryReasonTooLong
    | MistakesTooLong
    | LessonsTooLong
    | TradeIdInvalid
    | ExitTimeRequired
    | AccountNameRequired
    | AccountNameTooLong
    | BrokerNameRequired
    | BrokerNameTooLong
    | AccountTypeInvalid
    | InitialBalanceNegative
    | CurrencyRequired
    | CurrencyTooLong
    | LeverageOutOfRange

  /** The message a failing rule shows. */
  function Message(rule: Rule): string {
    match rule
    case AccountNotSelected => "select a trading account"
    case SymbolRequired => "symbol is required"
    case SymbolTooLong => "symbol must not exceed 20 characters"
    case DirectionInvalid => "trade direction is invalid"
    case VolumeNotPositive => "volume must be greater than zero"
    case VolumeTooLarge => "volume must not exceed 100 lots"
    case EntryPriceNotPositive => "entry price must be greater than zero"
    case EntryTimeRequired => "entry time is required"
    case EntryTimeInFuture => "entry time cannot be in the future"
    case BuyStopLossNotBelowEntry => "a buy stop loss must be below the entry price"
    case SellStopLossNotAboveEntry => "a sell stop loss must be above the entry price"
    case BuyTakeProfitNotAboveEntry => "a buy take profit must be above the entry price"
    case SellTakeProfitNotBelowEntry => "a sell take profit must be below the entry price"
    case ExitBeforeEntry => "exit time must be after entry time"
    case ExitPriceNotPositive => "exit price must be greater than zero"
    case RatingOutOfRange => "execution rating must be between 1 and 5"
    case CommissionNegative => "commission cannot be negative"
    case PreTradeNotesTooLong => "pre-trade notes must not exceed 2000 characters"
    case PostTradeNotesTooLong => "post-trade notes must not exceed 2000 characters"
    case EntryReasonTooLong => "entry reason must not exceed 1000 characters"
    case MistakesTooLong => "mistakes must not exceed 2000 characters"
    case LessonsTooLong => "lessons must not exceed 2000 characters"
    case TradeIdInvalid => "trade id is invalid"
    case ExitTimeRequired => "exit time is required"
    case AccountNameRequired => "account name is required"
    case AccountNameTooLong => "account name must not exceed 100 characters"
    case BrokerNameRequired => "broker name is required"
    case BrokerNameTooLong => "broker name must not exceed 100 characters"
    case AccountTypeInvalid => "account type is invalid"
    case InitialBalanceNegative => "initial balance cannot be negative"
    case CurrencyRequired => "currency is required"
    case CurrencyTooLong => "currency must not exceed 10 characters"
    case LeverageOutOfRange => "leverage must be between 1 and 3000"
  }

  /** The messages of failing rules, in order. */
  function Messages(rules: seq<Rule>): (r: seq<string>)
    ensures |r| == |rules| && forall i :: 0 <= i < |r| ==> r[i] == Message(rules[i])
  {
    seq(|rules|, i requires 0 <= i < |rules| => Message(rules[i]))
  }

  /** The failing rule, nothing for one that holds. */
  function Check<R>(ok: bool, rule: R): (r: seq<R>)
    ensures r == [] <==> ok
  {
    if ok then [] else [rule]
  }

  /** `NotEmpty` on a string: not empty and not only white space. */
  predicate NotEmpty(s: string) {
    !IsBlank(s)
  }

  /** `MaximumLength(n)`: a null string passes. */
  predicate MaxLength(s: Option<string>, n: nat) {
    s.None? || |s.value| <= n
  }

  /** The rules the create and update rule sets share, in their order. The create
    * rule set also bounds the entry time by `entryTimeLimit`: `DateTime.Now`
    * plus one day, evaluated once, when the validator is constructed. */
  function FieldErrors(f: TradeInput, entryTimeLimit: Option<int>): (errors: seq<Rule>)
    ensures errors == [] <==> FieldsValid(f, entryTimeLimit)
    ensures |errors| <= 22
  {
    IdentityErrors(f) + EntryErrors(f, entryTimeLimit) + LevelErrors(f) + ExitErrors(f) + NotesErrors(f)
  }

  /** The account, the symbol and the direction. */
  function IdentityErrors(f: TradeInput): (errors: seq<Rule>)
    ensures errors == [] <==> IdentityValid(f)
    ensures |errors| <= 4
  {
    Check(f.accountId > 0, AccountNotSelected)
    + Check(NotEmpty(f.symbol), SymbolRequired)
    + Check(|f.symbol| <= 20, SymbolTooLong)
    + Check(f.direction == BuyValue || f.direction == SellValue, DirectionInvalid)
  }

  /** The volume, the entry price and the entry time. */
  function EntryErrors(f: TradeInput, entryTimeLimit: Option<int>): (errors: seq<Rule>)
    ensures errors == [] <==> EntryValid(f, entryTimeLimit)
    ensures |errors| <= 5
  {
    Check(f.volume > 0.0, VolumeNotPositive)
    + Check(f.volume <= 100.0, VolumeTooLarge)
    + Check(f.entryPrice > 0.0, EntryPriceNotPositive)
    + Check(f.entryTime != DateTimeMinValue, EntryTimeRequired)
    + Check(entryTimeLimit.None? || f.entryTime <= entryTimeLimit.value, EntryTimeInFuture)
  }

  /** The stop loss and the take profit against the entry price. */
  function LevelErrors(f: TradeInput): (errors: seq<Rule>)
    ensures errors == [] <==> LevelsValid(f)
    ensures |errors| <= 4
  {
    Check(!(f.direction == BuyValue && f.stopLoss.Some?) || f.stopLoss.value < f.entryPrice,
      BuyStopLossNotBelowEntry)
    + Check(!(f.direction == SellValue && f.stopLoss.Some?) || f.stopLoss.value > f.entryPrice,
      SellStopLossNotAboveEntry)
    + Check(!(f.direction == BuyValue && f.takeProfit.Some?) || f.takeProfit.value > f.entryPrice,
      BuyTakeProfitNotAboveEntry)
    + Check(!(f.direction == SellValue && f.takeProfit.Some?) || f.takeProfit.value < f.entryPrice,
      SellTakeProfitNotBelowEntry)
  }

  /** The exit, the rating and the commission. */
  function ExitErrors(f: TradeInput): (errors: seq<Rule>)
    ensures errors == [] <==> ExitValid(f)
    ensures |errors| <= 4
  {
    Check(f.exitTime.None? || f.exitTime.value >= f.entryTime, ExitBeforeEntry)
    + Check(f.exitPrice.None? || f.exitPrice.value > 0.0, ExitPriceNotPositive)
    + Check(f.executionRating.None? || 1 <= f.executionRating.value <= 5, RatingOutOfRange)
    + Check(f.commission >= 0.0, CommissionNegative)
  }

  /** The lengths of the notes. */
  function NotesErrors(f: TradeInput): (errors: seq<Rule>)
    ensures errors == [] <==> NotesValid(f)
    ensures |errors| <= 5
  {
    Check(MaxLength(f.preTradeNotes, 2000), PreTradeNotesTooLong)
    + Check(MaxLength(f.postTradeNotes, 2000), PostTradeNotesTooLong)
    + Check(MaxLength(f.entryReason, 1000), EntryReasonTooLong)
    + Check(MaxLength(f.mistakes, 2000), MistakesTooLong)
    + Check(MaxLength(f.lessons, 2000), LessonsTooLong)
  }

  /** What a valid trade form is, stated rule by rule. */
  predicate FieldsValid(f: TradeInput, entryTimeLimit: Option<int>) {
    IdentityValid(f) && EntryValid(f, entryTimeLimit) && LevelsValid(f) && ExitValid(f) && NotesValid(f)
  }

  predicate IdentityValid(f: TradeInput) {
    && f.accountId > 0
    && NotEmpty(f.symbol) && |f.symbol| <= 20
    && (f.direction == BuyValue || f.direction == SellValue)
  }

  predicate EntryValid(f: TradeInput, entryTimeLimit: Option<int>) {
    && 0.0 < f.volume <= 100.0
    && f.entryPrice > 0.0
    && f.entryTime != DateTimeMinValue
    && (entryTimeLimit.Some? ==> f.entryTime <= entryTimeLimit.value)
  }

  /** A stop loss lies on the losing side of the entry, a take profit on the winning side. */
  predicate LevelsValid(f: TradeInput) {
    && (f.stopLoss.Some? ==>
          (f.direction == BuyValue ==> f.stopLoss.value < f.entryPrice)
          && (f.direction == SellValue ==> f.stopLoss.value > f.entryPrice))
    && (f.takeProfit.Some? ==>
          (f.direction == BuyValue ==> f.takeProfit.value > f.entryPrice)
          && (f.direction == SellValue ==> f.takeProfit.value < f.entryPrice))
  }

  predicate ExitValid(f: TradeInput) {
    && (f.exitTime.Some? ==> f.exitTime.value >= f.entryTime)
    && (f.exitPrice.Some? ==> f.exitPrice.value > 0.0)
    && (f.executionRating.Some? ==> 1 <= f.executionRating.value <= 5)
    && f.commission >= 0.0
  }

  predicate NotesValid(f: TradeInput) {
    MaxLength(f.preTradeNotes, 2000) && MaxLength(f.postTradeNotes, 2000)
    && MaxLength(f.entryReason, 1000) && MaxLength(f.mistakes, 2000) && MaxLength(f.lessons, 2000)
  }

  /** `TradeCreateValidator`: the messages of the failing rules. */
  function CreateErrors(d: TradeCreateDto, validatorCreatedAt: int): (errors: seq<Rule>)
    ensures errors == [] <==> FieldsValid(d.fields, Some(validatorCreatedAt + SecondsPerDay))
    ensures |errors| <= 22
  {
    FieldErrors(d.fields, Some(validatorCreatedAt + SecondsPerDay))
  }

  /** `TradeUpdateValidator`: the trade id, then the shared rules without the future bound. */
  function UpdateErrors(d: TradeUpdateDto): (errors: seq<Rule>)
    ensures errors == [] <==> d.id > 0 && FieldsValid(d.fields, None)
    ensures |errors| <= 22
  {
    Check(d.id > 0, TradeIdInvalid) + FieldErrors(d.fields, None)
  }

  /** `TradeCloseValidator`. */
  function CloseErrors(d: TradeCloseDto): (errors: seq<Rule>)
    ensures errors == [] <==> d.tradeId > 0 && d.exitPrice > 0.0 && d.exitTime != DateTimeMinValue
    ensures |errors| <= 3
  {
    Check(d.tradeId > 0, TradeIdInvalid)
    + Check(d.exitPrice > 0.0, ExitPriceNotPositive)
    + Check(d.exitTime != DateTimeMinValue, ExitTimeRequired)
  }

  datatype AccountCreateDto = AccountCreateDto(
    name: string,
    accountType: int,
    brokerName: string,
    accountNumber: Option<string>,
    server: Option<string>,
    initialBalance: real,
    currency: string,
    leverage: int,
    description: Option<string>,
    isDefault: bool)

  /** `AccountCreateValidator`. */
  function AccountErrors(d: AccountCreateDto): (errors: seq<Rule>)
    ensures errors == [] <==>
      && NotEmpty(d.name) && |d.name| <= 100
      && NotEmpty(d.brokerName) && |d.brokerName| <= 100
      && IsAccountType(d.accountType)
      && d.initialBalance >= 0.0
      && NotEmpty(d.currency) && |d.currency| <= 10
      && 1 <= d.leverage <= 3000
    ensures |errors| <= 9
  {
    Check(NotEmpty(d.name), AccountNameRequired)
    + Check(|d.name| <= 100, AccountNameTooLong)
    + Check(NotEmpty(d.brokerName), BrokerNameRequired)
    + Check(|d.brokerName| <= 100, BrokerNameTooLong)
    + Check(IsAccountType(d.accountType), AccountTypeInvalid)
    + Check(d.initialBalance >= 0.0, InitialBalanceNegative)
    + Check(NotEmpty(d.currency), CurrencyRequired)
    + Check(|d.currency| <= 10, CurrencyTooLong)
    + Check(1 <= d.leverage <= 3000, LeverageOutOfRange)
  }

  /** The two rule sets agree except for the future bound and the id: a valid
    * creation form, given an id, is a valid update form. */
  lemma CreateValidIsUpdateValid(d: TradeCreateDto, validatorCreatedAt: int, id: int, closed: bool)
    requires CreateErrors(d, validatorCreatedAt) == [] && id > 0
    ensures UpdateErrors(TradeUpdateDto(id, d.fields, closed, d.customFields)) == []
  {
  }
}
