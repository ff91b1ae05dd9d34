// The journal's entities as values. The services keep them in repositories,
// modelled here as maps from id to entity inside the service classes.
// Times are whole seconds since 0001-01-01 00:00, the epoch of `DateTime`, so
// `DateTime.MinValue` (the "empty" date) is 0.

module Domain {
  import opened Common

  /** `TradeDirection`: Buy = 1, Sell = 2. */
  datatype Direction = Buy | Sell

  /** The enum value of a direction. */
  function DirectionValue(d: Direction): int {
    match d
    case Buy => 1
    case Sell => 2
  }

  /** The direction an enum value names, if it names one (`IsInEnum`). */
  function DirectionOf(v: int): (r: Option<Direction>)
    ensures r.Some? <==> v == 1 || v == 2
    ensures r.Some? ==> DirectionValue(r.value) == v
  {
    if v == 1 then Some(Buy) else if v == 2 then Some(Sell) else None
  }

  const BuyValue: int := 1
  const SellValue: int := 2

  /** A stored direction is an enum value; a value other than 1 and 2 can reach
    * storage through an update, which does not validate. */
  datatype Trade = Trade(
    id: int,
    accountId: int,
    ticket: Option<string>,
    symbol: string,
    direction: int,
    volume: real,
    entryPrice: real,
    exitPrice: Option<real>,
    stopLoss: Option<real>,
    takeProfit: Option<real>,
    entryTime: int,
    exitTime: Option<int>,
    commission: real,
    swap: real,
    profitLoss: Option<real>,
    profitLossPips: Option<real>,
    riskRewardRatio: Option<real>,
    isClosed: bool,
    preTradeNotes: Option<string>,
    postTradeNotes: Option<string>,
    entryReason: Option<string>,
    exitReason: Option<string>,
    mistakes: Option<string>,
    lessons: Option<string>,
    executionRating: Option<int>,
    isImpulsive: Option<bool>,
    followedPlan: Option<bool>,
    tags: Option<string>,
    strategy: Option<string>,
    createdAt: int,
    updatedAt: Option<int>,
    isDeleted: bool,
    deletedAt: Option<int>)

  /** `ProfitLoss ?? 0`. */
  function PnL(t: Trade): real {
    t.profitLoss.GetOr(0.0)
  }

  /** `AccountType`: Real = 1, Demo = 2, Prop = 3, Challenge = 4. */
  predicate IsAccountType(v: int) {
    1 <= v <= 4
  }

  datatype Account = Account(
    id: int,
    userId: int,
    name: string,
    accountType: int,
    brokerName: string,
    accountNumber: Option<string>,
    server: Option<string>,
    initialBalance: real,
    currentBalance: real,
    currency: string,
    leverage: int,
    description: Option<string>,
    isActive: bool,
    isDefault: bool,
    createdAt: int,
    updatedAt: Option<int>)

  /** `FieldType`: Text = 1 … Select = 8, MultiSelect = 9 … Percentage = 15. */
  const FieldTypeSelect: int := 8
  const FieldTypeMultiSelect: int := 9

  datatype FieldDefinition = FieldDefinition(
    id: int,
    userId: int,
    entityType: string,
    fieldName: string,
    displayName: string,
    fieldType: int,
    isRequired: bool,
    options: Option<string>,
    defaultValue: Option<string>,
    helpText: Option<string>,
    category: Option<string>,
    order: int,
    displayOrder: int,
    isActive: bool,
    isSystem: bool,
    createdAt: int,
    updatedAt: Option<int>)

  /** One stored value of a user-defined field for one trade. */
  datatype TradeCustomField = TradeCustomField(tradeId: int, fieldDefinitionId: int, value: Option<string>)

  /** The unique index of the custom-field table: one row per (trade, field definition). */
  predicate UniquePairs(rows: seq<TradeCustomField>) {
    forall i, j :: 0 <= i < j < |rows| ==>
      (rows[i].tradeId, rows[i].fieldDefinitionId) != (rows[j].tradeId, rows[j].fieldDefinitionId)
  }

  datatype User = User(
    id: int,
    username: string,
    passwordHash: string,
    recoveryKeyHash: string,
    failedLoginAttempts: int,
    lockoutEndTime: Option<int>,
    lastLoginAt: Option<int>,
    isActive: bool,
    createdAt: int,
    updatedAt: Option<int>)

  /** `DateTime.MinValue`, the value FluentValidation's `NotEmpty` rejects. */
  const DateTimeMinValue: int := 0

  const SecondsPerMinute: int := 60
  const SecondsPerHour: int := 3600
  const SecondsPerDay: int := 86400

  /** `DateTime.Hour` of a time in seconds: always in 0..23. */
  function HourOf(t: int): (h: int)
    ensures 0 <= h < 24
  {
    (t / SecondsPerHour) % 24
  }

  /** `DateTime.Date`: the start of the day a time falls in. */
  function DateOf(t: int): (d: int)
    ensures d <= t < d + SecondsPerDay
    ensures d % SecondsPerDay == 0
  {
    t - t % SecondsPerDay
  }

  /** A broken-down date and time, for code that needs the calendar fields. */
  datatype CalendarTime = CalendarTime(year: int, month: int, day: int, hour: int, minute: int)

  predicate ValidCalendarTime(c: CalendarTime) {
    1 <= c.year <= 9999 && 1 <= c.month <= 12 && 1 <= c.day <= 31 && 0 <= c.hour < 24 && 0 <= c.minute < 60
  }
}
