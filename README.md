# AriaJournal core in Dafny

AriaJournal is a desktop trading journal for Persian-speaking traders. Its UI is WPF and it stores data in SQLite through EF Core. Underneath sits a layer of plain domain logic, and this project models that layer and proves properties of it:

- trade arithmetic: profit and loss, pips, risk to reward, pip sizes;
- statistics over a list of trades: counts, sums, rates, streaks, the equity curve and drawdown;
- the CSV import: a quote-aware line splitter, and the mapping of rows to trades;
- the validators for trades, accounts, logins and registrations;
- the services that edit presets, filters, columns, field definitions, accounts and custom field values;
- the in-memory engines:
  - the state store with subscribers;
  - the navigation stack;
  - migration versioning;
  - the rule registry;
  - plugin dependency ordering;
  - the login lockout;
  - query filters and paging;
- recovery keys and password strength;
- the paging, sorting, filtering and validation state inside the data grid, the form builder and the form renderer;
- the field and column editors, the trade entry form and the trade list;
- screenshot file naming and theme selection.

Each source file of the core is one Dafny module in a file of its own:

| module | file |
|---|---|
| `AggregationEngine` | `aggregation.dfy` |
| `TradeServices` | `trade_service.dfy` |
| `ImportServices` | `import_service.dfy` |
| `MetadataServices` | `metadata_service.dfy` |
| `FieldDefinitions` | `field_definitions.dfy` |
| `AccountServices` | `account_service.dfy` |
| `AuthEngines` | `auth_engine.dfy` |
| `PluginEngines` | `plugin_engine.dfy` |
| `MigrationEngines` | `migration_engine.dfy` |
| `StateEngines` | `state_engine.dfy` |
| `NavigationEngines` | `navigation_engine.dfy` |
| `RuleEngines` | `rule_engine.dfy` |
| `QueryEngines` | `query_engine.dfy` |
| `RecoveryKeys` | `recovery_key.dfy` |
| `PasswordHashers` | `password_hasher.dfy` |
| `TradeValidators` | `trade_validator.dfy` |
| `LoginValidators` | `login_validator.dfy` |
| `TradeEntry` | `trade_entry.dfy` |
| `DataGrids` | `data_grid.dfy` |
| `FormBuilders` | `form_builder.dfy` |
| `UIRenderers` | `ui_renderer.dfy` |
| `FieldEditors` | `field_editor.dfy` |
| `ColumnEditors` | `column_editor.dfy` |
| `TradeLists` | `trade_list.dfy` |
| `TradeDtos` | `trade_dtos.dfy` |
| `Screenshots` | `screenshots.dfy` |
| `Themes` | `themes.dfy` |

`Common` holds `Result` and `Error`. Shared building blocks sit in their own modules:

- `Domain`: the entities;
- `FormSchemas`: form and table schemas;
- `Text`: trimming, case mapping, splitting, number printing and parsing;
- `Numeric`: rounding;
- `Linq`: stable ordering;
- `Collections`: index-of, move and remove on lists.

## Modelling conventions

These choices apply across all modules:

- **The source's own form.** Services, engines and view models that update fields in place are Dafny classes. Their methods carry `modifies` clauses, and their loops are `while` loops with invariants. Pure mappings, formulas and validators are functions.
- **Storage.** Each repository or EF table is a sequence of entity values held by the service class. `SaveChangesAsync` is the end of the method.
- **Numbers.**
  - `decimal` is `real`, so it is exact. Where the source rounds, the model rounds explicitly (`Math.Round`, and the one-decimal and two-decimal formats).
  - `int` is unbounded. The one overflow modelled is the skip count of `QueryEngine.ApplyPagination`, wrapped to 32 bits with `Text.WrapInt32`; the other places where a 32-bit product could overflow are listed under "Left out".
  - `Error.Failure(message)`, used by the services' catch blocks, is not declared in `Error.cs`. The model reads it as the code "Failure" with that message (`Common.GeneralFailure`). The services also name `Error.TradeNotFound`, `Error.AccountNotFound` and `Error.NotFound` without calling them; the model reads these as calls with no id. `Error.NotFound` requires an entity name (Error.cs:245), so QueryEngine.cs:377 as written does not compile; the model supplies the name "template" there.
- **Time.**
  - `DateTime` is a count of seconds, with `DateTime.Now` passed in as a parameter `now`.
  - Code that needs calendar fields uses a calendar record of year, month, day, hour, minute and second. That is quarter starts and the screenshot stamp.
  - `AddDays` overflows past the end of year 9999. Where the source can reach that, the model returns `None`.
- **Errors.**
  - Failures are `Result` values whose `Error` has the code, message and details of the factory in `Error.cs`.
  - Persian messages are given as their English meaning, and the codes are kept exactly.
  - An exception caught by a service's `try` becomes the failure that `catch` block builds. An uncaught exception the model cares about is a `Failure`, or `None` for a function.
- **Outside collaborators are parameters.** This covers the parts of the program that are not core logic:
  - the clock;
  - bcrypt hashing and verification;
  - the random source of recovery keys;
  - the NCalc expression evaluator behind rule conditions;
  - the predicates QueryEngine builds by reflection;
  - whether a view can be created;
  - the schema engine's declared tables;
  - the metadata service's saved columns.
- **Events.** The event bus is not modelled. Where an operation publishes an event, the model states only the state change.

## Model

One row per member whose contract states something about the source. The source column gives the lines the member models.

| member | source | states |
|---|---|---|
| Common.ErrorText | src/AriaJournal.Core/Domain/Common/Error.cs:321-326 | "[Code] Message" is always a prefix; the text is exactly that iff details are absent or empty, otherwise it ends with the details |
| Common.NoErrorHasNoError | src/AriaJournal.Core/Domain/Common/Error.cs:42 | Error.None has no error, and an error equals Error.None exactly when it has no error (also lines 331-336, 346) |
| Common.SameErrorIsEquivalence | src/AriaJournal.Core/Domain/Common/Error.cs:331-346 | code equality is reflexive, symmetric and transitive, and equal errors agree on HasError |
| Common.Result.Value | src/AriaJournal.Core/Domain/Common/Result.cs:45-53 | reading the value yields it exactly on success; on failure nothing is returned (the throw) |
| Common.Result.GetValueOrDefault | src/AriaJournal.Core/Domain/Common/Result.cs:65-68 | the value on success, the given default on failure |
| Common.Construct | src/AriaJournal.Core/Domain/Common/Result.cs:18-30 | the constructor succeeds iff (success iff the error is Error.None); a built result is well formed and keeps the flag and the error |
| Common.SuccessIffNoError | src/AriaJournal.Core/Domain/Common/Result.cs:14-30 | on every well-formed result, success iff the error is Error.None, and IsFailure is the negation of IsSuccess |
| Common.FailureFactory | src/AriaJournal.Core/Domain/Common/Result.cs:33-35 | Failure(e) builds a result iff e is not Error.None, and for an error with a code it is the failure carrying e |
| Text.Trim | src/AriaJournal.Core/Infrastructure/Engines/AuthEngine.cs:66 | `string.Trim`: a slice of the input with no white space at either end, empty iff the input is blank, and the input itself when it has nothing to trim |
| Text.ToLowerTrim | src/AriaJournal.Core/Infrastructure/Engines/AuthEngine.cs:66 | lower-casing and trimming commute, so `name.ToLower().Trim()` is the lower case of the trimmed name (also lines 119, 221) |
| Text.CaseMappingsIdempotent | src/AriaJournal.Core/Infrastructure/Security/RecoveryKeyGenerator.cs:85 | lower- and upper-casing are idempotent and lower-casing forgets a previous upper-casing |
| Text.ReplaceCharByChar | src/AriaJournal.Core/Application/Services/FieldDefinitionService.cs:131 | replacing one character by another keeps the length, changes exactly the matching positions and leaves no occurrence |
| Text.ReplaceCharByNothing | src/AriaJournal.Core/Infrastructure/Security/RecoveryKeyGenerator.cs:85 | removing a character by `Replace(c, "")` is the text without any occurrence of it |
| Text.Split | src/AriaJournal.Core/Infrastructure/Security/PasswordHasher.cs:58 | `Split(sep)` has one part more than there are separators and no part contains the separator |
| Text.JoinSplit | src/AriaJournal.Core/Infrastructure/Security/PasswordHasher.cs:58 | joining the parts of a split with the same separator gives the text back |
| Text.SplitAtSeparator | src/AriaJournal.Core/Infrastructure/Security/PasswordHasher.cs:58 | splitting at a separator splits both sides independently |
| Text.TwoDigits | src/AriaJournal.Core/Application/Services/ScreenshotService.cs:306 | `ToString("D2")`: at least two digits, exactly two with the right value below 100 |
| Text.NatToStringValue | src/AriaJournal.Core/Application/Services/ScreenshotService.cs:290 | the decimal text of a number reads back as that number |
| Text.WrapInt32 | src/AriaJournal.Core/Infrastructure/Engines/QueryEngine.cs:333 | unchecked `int` arithmetic: a 32-bit value congruent to the exact one modulo 2^32, equal to it when it fits |
| Text.ParseIntOfToString | src/AriaJournal.Core/UI/Controls/DynamicFormBuilder.cs:979-989 | parsing the text of a 32-bit integer gives the integer back |
| Text.ParseDecimalOfInt | src/AriaJournal.Core/UI/ViewModels/TradeEntryViewModel.cs:795-800 | parsing the text of an integer as a decimal gives its value |
| Text.ParseDecimalOrZero | src/AriaJournal.Core/UI/ViewModels/TradeEntryViewModel.cs:795-800 | blank or unparseable text is 0, otherwise the parsed value |
| Text.OrdinalLeTotal | src/AriaJournal.Core/Application/Services/FieldDefinitionService.cs:52-56 | ordinal string comparison is total, so sorting by name is well defined |
| Text.OrdinalLeTransitive | src/AriaJournal.Core/Application/Services/FieldDefinitionService.cs:52-56 | ordinal string comparison is transitive |
| Text.ParseDecimal | src/AriaJournal.Core/UI/ViewModels/TradeEntryViewModel.cs:799 | a blank text never parses as a number |
| Text.ParseInt | src/AriaJournal.Core/UI/Controls/DynamicFormBuilder.cs:985 | a blank text never parses, and a parsed value lies in the 32-bit range |
| Domain.DirectionOf | src/AriaJournal.Core/Application/Validators/TradeValidator.cs:29 | an enum value names a direction (`IsInEnum`) iff it is 1 or 2, and then the direction has that value |
| Domain.HourOf | src/AriaJournal.Core/Infrastructure/Engines/AggregationEngine.cs:349 | `DateTime.Hour` is always in 0..23 |
| Domain.DateOf | src/AriaJournal.Core/Infrastructure/Engines/AggregationEngine.cs:674 | `DateTime.Date` is the start of the day the time falls in |
| Linq.ByKeyIsPreorder | src/AriaJournal.Core/Application/Services/FieldDefinitionService.cs:53-54 | ordering by a key, ascending or descending, is a total preorder |
| Linq.Insert | src/AriaJournal.Core/Application/Services/FieldDefinitionService.cs:53-54 | inserting into a sorted list keeps it sorted and adds exactly that element |
| Linq.SortBy | src/AriaJournal.Core/Application/Services/FieldDefinitionService.cs:53-54 | `OrderBy`: the result is sorted by the key and is a permutation of the input, and the sort is stable: for every x, the elements level with x come out in their input order and with their repetitions |
| Linq.InsertStable | src/AriaJournal.Core/Application/Services/FieldDefinitionService.cs:53-54 | inserting an element puts it in front of every element level with it and keeps their order |
| Linq.WhereCons | src/AriaJournal.Core/Infrastructure/Engines/QueryEngine.cs:134-136 | `Where` on a list with a known head keeps the head exactly when it satisfies the predicate |
| Linq.WhereIsSelection | src/AriaJournal.Core/Infrastructure/Engines/QueryEngine.cs:134-136 | `Where` is the subsequence at the strictly increasing positions whose element satisfies the predicate, so order and repetitions are kept |
| Linq.WhereAllKept | src/AriaJournal.Core/UI/Controls/DynamicDataGrid.xaml.cs:482-504 | when every element satisfies the predicate, `Where` keeps the list as it is |
| Linq.SortByMembers | src/AriaJournal.Core/Application/Services/FieldDefinitionService.cs:53-54 | sorting keeps exactly the members of the input |
| Linq.Skip | src/AriaJournal.Core/Application/Services/TradeService.cs:127 | `Skip(n)` drops the first n elements, nothing for n <= 0, everything for n >= length |
| Linq.Take | src/AriaJournal.Core/Application/Services/TradeService.cs:128 | `Take(n)` is a prefix of at most n elements, exactly n when there are that many, none for n <= 0 |
| Linq.PageContents | src/AriaJournal.Core/Application/Services/TradeService.cs:127-128 | element i of `Skip(k).Take(n)` is element k+i of the list |
| Numeric.RoundToEven | src/AriaJournal.Core/Application/Services/TradeService.cs:564 | `Math.Round` to an integer: within one half of the value, ties to the even neighbour |
| Numeric.RoundToEvenIsNearest | src/AriaJournal.Core/Application/Services/TradeService.cs:564 | no integer is nearer to the value than the rounded one |
| Numeric.RoundToEvenNegate | src/AriaJournal.Core/Application/Services/TradeService.cs:564 | rounding commutes with negation |
| Numeric.RoundNegate | src/AriaJournal.Core/Application/Services/TradeService.cs:549-564 | rounding to a number of decimals commutes with negation |
| Numeric.RoundIsNearest | src/AriaJournal.Core/Application/Services/TradeService.cs:549-564 | `Math.Round(x, d)` is the nearest whole number of units 10^-d, ties to even |
| Numeric.RoundExact | src/AriaJournal.Core/Infrastructure/Engines/RuleEngine.cs:422 | a value that is already a whole number of units is unchanged by rounding |
| Numeric.RoundIdempotent | src/AriaJournal.Core/Infrastructure/Engines/RuleEngine.cs:422 | rounding twice to the same precision is rounding once |
| Numeric.Ceiling | src/AriaJournal.Core/Application/DTOs/TradeCreateDto.cs:136 | `Math.Ceiling` is the least integer not below the value |
| Collections.IndexOf | src/AriaJournal.Core/UI/ViewModels/FieldEditorViewModel.cs:331 | the first position holding the element, -1 iff it is absent |
| Collections.Moved | src/AriaJournal.Core/UI/ViewModels/FieldEditorViewModel.cs:334 | `ObservableCollection.Move`: same length, the moved element lands at the target |
| Collections.MovedIsPermutation | src/AriaJournal.Core/UI/ViewModels/FieldEditorViewModel.cs:334-348 | a move keeps every element (a permutation) |
| Collections.AdjacentMoveSwaps | src/AriaJournal.Core/UI/ViewModels/ColumnEditorViewModel.cs:281-295 | a move by one place swaps the two neighbours and nothing else |
| Collections.Removed | src/AriaJournal.Core/UI/ViewModels/FieldEditorViewModel.cs:314 | `Remove` takes out one occurrence of a present element and leaves the list as it is otherwise |
| AggregationEngine.OutcomeOf | src/AriaJournal.Core/Infrastructure/Engines/AggregationEngine.cs:177-179 | a trade is a win iff its P/L (null as 0) is positive, a loss iff negative, otherwise break-even |
| AggregationEngine.OutcomesPartition | src/AriaJournal.Core/Infrastructure/Engines/AggregationEngine.cs:177-179 | wins + losses + break-evens = the number of trades counted |
| AggregationEngine.OutcomeSums | src/AriaJournal.Core/Infrastructure/Engines/AggregationEngine.cs:182-186 | profit sums are >= 0, loss sums <= 0, break-even sums 0, and profit + loss is the net P/L |
| AggregationEngine.OutcomeSumZero | src/AriaJournal.Core/Infrastructure/Engines/AggregationEngine.cs:182-186 | the loss (or profit) sum is 0 exactly when there is no loss (or win) |
| AggregationEngine.ByExitTimeIsPreorder | src/AriaJournal.Core/Infrastructure/Engines/AggregationEngine.cs:170 | ordering by exit time (missing first) is a total preorder |
| AggregationEngine.ClosedOnly | src/AriaJournal.Core/Infrastructure/Engines/AggregationEngine.cs:170 | keeps exactly the closed trades |
| AggregationEngine.ClosedWithExitOnly | src/AriaJournal.Core/Infrastructure/Engines/AggregationEngine.cs:370-371 | keeps exactly the closed trades that have an exit time |
| AggregationEngine.StatisticsTrades | src/AriaJournal.Core/Infrastructure/Engines/AggregationEngine.cs:170 | the statistics see exactly the closed trades, ordered by exit time: a permutation of the closed trades in which trades with equal exit times keep their input order (OrderBy is stable) |
| AggregationEngine.CurveTrades | src/AriaJournal.Core/Infrastructure/Engines/AggregationEngine.cs:370-373 | the curve and drawdown see exactly the closed trades with an exit time, in non-decreasing exit time: a permutation of those trades in which equal exit times keep their input order (also lines 416-419) |
| AggregationEngine.StreakEndingAtBounds | src/AriaJournal.Core/Infrastructure/Engines/AggregationEngine.cs:245-268 | the run ending at a position bounds the count of every unbroken stretch ending there |
| AggregationEngine.StreakEndingAtWitness | src/AriaJournal.Core/Infrastructure/Engines/AggregationEngine.cs:245-268 | some unbroken stretch attains the run ending at a position |
| AggregationEngine.LongestStreakIsMaximum | src/AriaJournal.Core/Infrastructure/Engines/AggregationEngine.cs:245-268 | the longest streak bounds every unbroken run of that outcome and is attained by one |
| AggregationEngine.CalculateConsecutiveStats | src/AriaJournal.Core/Infrastructure/Engines/AggregationEngine.cs:245-268 | the loop yields the longest run of wins and of losses; a break-even trade resets neither counter |
| AggregationEngine.LargestPnL | src/AriaJournal.Core/Infrastructure/Engines/AggregationEngine.cs:188 | the largest P/L is one of the trades' and bounds all of them |
| AggregationEngine.SmallestPnL | src/AriaJournal.Core/Infrastructure/Engines/AggregationEngine.cs:189 | the smallest P/L is one of the trades' and is below all of them |
| AggregationEngine.CalculateRR | src/AriaJournal.Core/Infrastructure/Engines/AggregationEngine.cs:230-243 | 0 without a stop loss, a non-positive entry or no money at risk; otherwise P/L divided by (stop distance x volume x 100000) |
| AggregationEngine.StatisticsCounts | src/AriaJournal.Core/Infrastructure/Engines/AggregationEngine.cs:170-181 | only closed trades are counted, and Winning + Losing + BreakEven = TotalTrades |
| AggregationEngine.StatisticsSums | src/AriaJournal.Core/Infrastructure/Engines/AggregationEngine.cs:182-186 | TotalProfit >= 0, TotalLoss <= 0, GrossProfit = TotalProfit, GrossLoss = abs(TotalLoss), net P/L = sum of closed P/L |
| AggregationEngine.StatisticsExtremes | src/AriaJournal.Core/Infrastructure/Engines/AggregationEngine.cs:188-189 | LargestWin and LargestLoss bound every closed trade's P/L |
| AggregationEngine.StatisticsRates | src/AriaJournal.Core/Infrastructure/Engines/AggregationEngine.cs:36 | WinRate is in 0..100 and 0 without trades; ProfitFactor is 0 when GrossLoss is 0 (also lines 43, 172-173) |
| AggregationEngine.GetSession | src/AriaJournal.Core/Infrastructure/Engines/AggregationEngine.cs:347-358 | hours 0-6 and 21-23 give Asian, 7 Sydney, 8-11 London, 12-20 NewYork |
| AggregationEngine.GetQuarterStart | src/AriaJournal.Core/Infrastructure/Engines/AggregationEngine.cs:677-681 | the first day of the same year at month 1, 4, 7 or 10, not after the input month and within 2 of it |
| AggregationEngine.CalculateEquityCurve | src/AriaJournal.Core/Infrastructure/Engines/AggregationEngine.cs:364-404 | (closed trades with exit time) + 1 points; the first is the starting balance; point i holds the balance after the first i trades |
| AggregationEngine.EquityCurveOver | src/AriaJournal.Core/Infrastructure/Engines/AggregationEngine.cs:386-399 | the loop appends one point per trade whose balance is the starting balance plus the first i P/L values |
| AggregationEngine.EquityCurveEnd | src/AriaJournal.Core/Infrastructure/Engines/AggregationEngine.cs:364-404 | the last point is the starting balance plus the net P/L of every curve trade |
| AggregationEngine.MaxDuration | src/AriaJournal.Core/Infrastructure/Engines/AggregationEngine.cs:464-467 | the longest drawdown period is one of the periods and bounds them all |
| AggregationEngine.DrawdownBounds | src/AriaJournal.Core/Infrastructure/Engines/AggregationEngine.cs:425-458 | the peak is >= the starting balance and the current equity and never decreases; the maximum drawdown is >= 0 and bounds every drawdown so far |
| AggregationEngine.CalculateDrawdown | src/AriaJournal.Core/Infrastructure/Engines/AggregationEngine.cs:410-475 | the report agrees with the peak/equity specification over the curve trades: maximum and current drawdown, the first trade that reaches the maximum (its percent and date), the drawdown periods PeriodsTo records and the longest of them |
| AggregationEngine.DrawdownOver | src/AriaJournal.Core/Infrastructure/Engines/AggregationEngine.cs:416-467 | the loop's report equals the specification: maximum drawdown with the percent and date of the first trade reaching it, current drawdown, exactly the periods PeriodsTo records, and the longest of them |
| AggregationEngine.ScanTrade | src/AriaJournal.Core/Infrastructure/Engines/AggregationEngine.cs:425-458 | after trade k+1 the closed periods and the open start are exactly PeriodsTo's: a trade lifting equity above the peak appends (start, its exit time, peak, peak) when a period is open and closes it, any other trade opens a period at its exit time when none is open; the maximum keeps the first trade reaching it |
| AggregationEngine.RecordDrawdown | src/AriaJournal.Core/Infrastructure/Engines/AggregationEngine.cs:450-457 | the maximum after trade k is the specification's maximum, with its percent and date from the first trade that attains it; on a tie the earlier trade's percent and date stay |
| AggregationEngine.FinalDrawdown | src/AriaJournal.Core/Infrastructure/Engines/AggregationEngine.cs:460-467 | the report keeps the scanned periods and maximum unchanged; current drawdown = peak - final equity, with its percent, and the longest closed period |
| AggregationEngine.PeriodsShape | src/AriaJournal.Core/Infrastructure/Engines/AggregationEngine.cs:425-449 | a period is open exactly when the last trade did not lift equity above the peak, it opened no later than that trade, there are at most as many closed periods as trades, each runs forward in time and has equal peak and trough balances |
| AggregationEngine.DrawdownReportDetermined | src/AriaJournal.Core/Infrastructure/Engines/AggregationEngine.cs:410-467 | two reports over the same trades are equal: the periods, duration and the trade named for the maximum are all fixed by the trades |
| AggregationEngine.DrawdownNonNegative | src/AriaJournal.Core/Infrastructure/Engines/AggregationEngine.cs:410-466 | peak >= starting balance, MaxDrawdown >= 0 and CurrentDrawdown = peak - final equity >= 0 |
| AggregationEngine.WinRate | src/AriaJournal.Core/Infrastructure/Engines/AggregationEngine.cs:36 | 0 without trades; otherwise the rate times the trade count is 100 x the winning count, so it lies in 0..100 |
| AggregationEngine.ProfitFactor | src/AriaJournal.Core/Infrastructure/Engines/AggregationEngine.cs:43 | never negative; 0 when the gross loss is 0, otherwise the ratio of the absolute gross profit to the absolute gross loss |
| AggregationEngine.Expectancy | src/AriaJournal.Core/Infrastructure/Engines/AggregationEngine.cs:211-213 | the average win at a 100% rate, the average loss at 0%, and between the two for any rate in 0..100 |
| AggregationEngine.Statistics | src/AriaJournal.Core/Infrastructure/Engines/AggregationEngine.cs:166-227 | counts the closed trades, is the empty statistics when there are none, and its expected value is the expectancy of its own win rate and averages |
| TradeServices.GetPipValue | src/AriaJournal.Core/Application/Services/TradeService.cs:567-579 | 0.01 iff the upper-cased symbol contains JPY; 0.1 iff it contains XAU or GOLD and not JPY; 0.0001 otherwise |
| TradeServices.CalculateProfitLoss | src/AriaJournal.Core/Application/Services/TradeService.cs:524-538 | 0 without an exit price |
| TradeServices.CalculatePips | src/AriaJournal.Core/Application/Services/TradeService.cs:540-550 | 0 without an exit price |
| TradeServices.CalculateRR | src/AriaJournal.Core/Application/Services/TradeService.cs:552-565 | null exactly when the stop loss or the exit price is missing or the risk is 0 |
| TradeServices.PriceDiffReversed | src/AriaJournal.Core/Application/Services/TradeService.cs:530-532 | swapping direction negates the directional price difference |
| TradeServices.ProfitLossReversed | src/AriaJournal.Core/Application/Services/TradeService.cs:524-538 | swapping direction negates the gross term: the two results add up to minus twice the costs |
| TradeServices.ProfitLossSign | src/AriaJournal.Core/Application/Services/TradeService.cs:524-538 | with no costs and a positive volume, the P/L is positive (zero) exactly when the price moved in favour (not at all) |
| TradeServices.PipsReversed | src/AriaJournal.Core/Application/Services/TradeService.cs:540-550 | pips are antisymmetric in the direction |
| TradeServices.RiskRewardReversed | src/AriaJournal.Core/Application/Services/TradeService.cs:552-565 | the risk:reward ratio is antisymmetric in the direction |
| TradeServices.Recalculated | src/AriaJournal.Core/Application/Services/TradeService.cs:239-244 | a closed trade stores exactly its computed P/L, pips and R:R |
| TradeServices.Filtered | src/AriaJournal.Core/Application/Services/TradeService.cs:65-103 | a trade passes iff it is not deleted and meets every given filter condition; table order is kept |
| TradeServices.WinsAndLossesPartition | src/AriaJournal.Core/Application/Services/TradeService.cs:110-113 | wins (P/L > 0) and losses (P/L <= 0) together are exactly the closed trades with a result |
| TradeServices.TradeOrderIsPreorder | src/AriaJournal.Core/Application/Services/TradeService.cs:116-122 | every sort key and direction is a total preorder |
| TradeServices.Ordered | src/AriaJournal.Core/Application/Services/TradeService.cs:116-122 | the filtered trades sorted by the requested key, as a permutation of them |
| TradeServices.PageStart | src/AriaJournal.Core/Application/Services/TradeService.cs:127 | (page - 1) x size is non-negative for a page >= 1 |
| TradeServices.GetTradesCounts | src/AriaJournal.Core/Application/Services/TradeService.cs:106-129 | TotalCount counts every filtered trade, not the page; the page holds at most PageSize; wins + losses <= TotalCount |
| TradeServices.GetTradesMembers | src/AriaJournal.Core/Application/Services/TradeService.cs:65-129 | every trade on the page is stored and passes the filter |
| TradeServices.GetTradesPosition | src/AriaJournal.Core/Application/Services/TradeService.cs:126-129 | the i-th trade on the page is the ordered trade at (page - 1) x size + i |
| TradeServices.GetTradesTotalsIgnorePage | src/AriaJournal.Core/Application/Services/TradeService.cs:106-113 | the count, total and win/loss counts do not depend on the page asked for |
| TradeServices.AppendKeepsIds | src/AriaJournal.Core/Application/Services/TradeService.cs:246-247 | adding a trade with the next identity keeps ids unique |
| TradeServices.IndexOf | src/AriaJournal.Core/Application/Services/TradeService.cs:159 | the primary-key lookup: a position holding the id, none iff no trade has it |
| TradeServices.IndexOfUnique | src/AriaJournal.Core/Application/Services/TradeService.cs:159 | with unique ids the lookup finds the one trade that has the id |
| TradeServices.Lookup | src/AriaJournal.Core/Application/Services/TradeService.cs:159-164 | found iff the id is stored and the trade is not deleted; otherwise TradeNotFound |
| TradeServices.FindDefinition | src/AriaJournal.Core/Application/Services/TradeService.cs:599-600 | FirstOrDefault by field name: the first matching definition, none iff no name matches |
| TradeServices.NewTrade | src/AriaJournal.Core/Application/Services/TradeService.cs:210-244 | symbol upper-cased, closed iff the form has exit price and time, and then with computed results |
| TradeServices.Updated | src/AriaJournal.Core/Application/Services/TradeService.cs:284-313 | every form field copied, symbol upper-cased; results recomputed only for a closed trade with an exit price, else kept |
| TradeServices.Closed | src/AriaJournal.Core/Application/Services/TradeService.cs:372-385 | exit price and time set, closed, costs replaced only when given, results recomputed, identity and entry unchanged |
| TradeServices.Deleted | src/AriaJournal.Core/Application/Services/TradeService.cs:413-414 | IsDeleted set and DeletedAt stamped; nothing else changes |
| TradeServices.Restored | src/AriaJournal.Core/Application/Services/TradeService.cs:445-447 | IsDeleted false, DeletedAt null, UpdatedAt stamped; nothing else changes |
| TradeServices.RestoreUndoesDelete | src/AriaJournal.Core/Application/Services/TradeService.cs:401-459 | delete then restore gives the trade back, apart from its update time |
| TradeServices.LookupAfterDeleteAndRestore | src/AriaJournal.Core/Application/Services/TradeService.cs:161-164 | after a delete GetById fails; after a restore it finds the restored trade (also lines 401-459) |
| TradeServices.OtherTrades | src/AriaJournal.Core/Application/Services/TradeService.cs:587-591 | the rows kept are exactly those of other trades |
| TradeServices.NewRows | src/AriaJournal.Core/Application/Services/TradeService.cs:594-611 | at most one row per value, each for this trade with a value |
| TradeServices.NewRowOrigin | src/AriaJournal.Core/Application/Services/TradeService.cs:594-611 | every new row comes from a non-null value whose key names a known field, with that field's id |
| TradeServices.DistinctNamesDistinctIds | src/AriaJournal.Core/Application/Services/TradeService.cs:599 | distinct known names lead to definitions with distinct ids |
| TradeServices.NewRowsUnique | src/AriaJournal.Core/Application/Services/TradeService.cs:594-611 | with distinct keys the new rows never repeat a field |
| TradeServices.OtherTradesUnique | src/AriaJournal.Core/Application/Services/TradeService.cs:587-591 | keeping other trades' rows keeps (trade, field) pairs unique |
| TradeServices.SavedRowsUnique | src/AriaJournal.Core/Application/Services/TradeService.cs:581-614 | after saving there is at most one row per (trade, field definition) pair |
| TradeServices.RemoveRowsOf | src/AriaJournal.Core/Application/Services/TradeService.cs:587-591 | the delete loop keeps exactly the rows of other trades |
| TradeServices.BuildRows | src/AriaJournal.Core/Application/Services/TradeService.cs:594-611 | the insert loop skips null values and unknown names and yields the new rows |
| TradeServices.TradeService.constructor | src/AriaJournal.Core/Application/Services/TradeService.cs:43-53 | an empty store over the given field definitions |
| TradeServices.TradeService.GetById | src/AriaJournal.Core/Application/Services/TradeService.cs:154-164 | succeeds iff a stored, non-deleted trade has the id; otherwise TradeNotFound |
| TradeServices.TradeService.SaveCustomFields | src/AriaJournal.Core/Application/Services/TradeService.cs:581-614 | removes all old rows of the trade, then adds one per non-null value of a known field name |
| TradeServices.TradeService.Create | src/AriaJournal.Core/Application/Services/TradeService.cs:196-267 | a form breaking a rule fails with all messages joined; otherwise the trade is stored with the next id and its custom values saved |
| TradeServices.TradeService.Insert | src/AriaJournal.Core/Application/Services/TradeService.cs:246-247 | appends the trade with the next identity |
| TradeServices.TradeService.Update | src/AriaJournal.Core/Application/Services/TradeService.cs:272-338 | a missing or deleted trade is not found; otherwise the form is copied onto the stored trade |
| TradeServices.TradeService.CloseTrade | src/AriaJournal.Core/Application/Services/TradeService.cs:343-396 | fails on validation, on a missing or deleted trade, and on a trade already closed; otherwise the trade is closed with its results |
| TradeServices.TradeService.Delete | src/AriaJournal.Core/Application/Services/TradeService.cs:401-428 | a missing id fails; otherwise a soft delete of that trade only |
| TradeServices.TradeService.Restore | src/AriaJournal.Core/Application/Services/TradeService.cs:433-459 | a missing id fails; otherwise that trade's soft delete is cleared |
| TradeServices.TradeService.List | src/AriaJournal.Core/Application/Services/TradeService.cs:58-149 | the paged result of the specification; TotalCount is the filtered count and the page holds at most PageSize |
| TradeServices.GetTrades | src/AriaJournal.Core/Application/Services/TradeService.cs:58-129 | the total is the number of filtered trades, page number and size are echoed, and a page never holds more than the page size |
| ImportServices.CsvFields | src/AriaJournal.Core/Application/Services/ImportService.cs:445-470 | a line always gives at least one field |
| ImportServices.PrefixAgrees | src/AriaJournal.Core/Application/Services/ImportService.cs:451-466 | the quote, separator and kept-character counts up to a position do not depend on what follows |
| ImportServices.ScanCsvMeaning | src/AriaJournal.Core/Application/Services/ImportService.cs:451-466 | after the scan: inside quotes iff an odd number of quotes was seen, one finished field per unquoted delimiter, no quote in any field, fields hold exactly the other characters in order |
| ImportServices.ScanQuoting | src/AriaJournal.Core/Application/Services/ImportService.cs:453-456 | each quote toggles quoting: the scan ends inside quotes iff the line holds an odd number of quotes |
| ImportServices.ScanFieldCount | src/AriaJournal.Core/Application/Services/ImportService.cs:457-461 | the scan finishes one field per delimiter outside quotes |
| ImportServices.ScanDropsQuotes | src/AriaJournal.Core/Application/Services/ImportService.cs:453-456 | no quote character ever reaches a field |
| ImportServices.ScanKeeps | src/AriaJournal.Core/Application/Services/ImportService.cs:462-465 | the fields hold every other character, including delimiters inside quotes, in order |
| ImportServices.CsvFieldCount | src/AriaJournal.Core/Application/Services/ImportService.cs:445-470 | ParseCsvLine returns (delimiters outside quotes) + 1 fields |
| ImportServices.CsvFieldContents | src/AriaJournal.Core/Application/Services/ImportService.cs:453-465 | quotes are dropped, and the concatenated fields are the kept characters, so a quoted delimiter stays in its field |
| ImportServices.ParseCsvLine | src/AriaJournal.Core/Application/Services/ImportService.cs:445-470 | the loop returns the specified fields, one more than the delimiters outside quotes |
| ImportServices.TrimQuotes | src/AriaJournal.Core/Application/Services/ImportService.cs:485 | `Trim('"')`: no quote at either end of the result |
| ImportServices.RowValue | src/AriaJournal.Core/Application/Services/ImportService.cs:483-486 | the row dictionary (case-insensitive keys) holds a key iff some header pairs with a value and matches it ignoring case |
| ImportServices.RowValueBefore | src/AriaJournal.Core/Application/Services/ImportService.cs:483-486 | the same over the first n columns |
| ImportServices.FieldText | src/AriaJournal.Core/Application/Services/ImportService.cs:531-535 | the value of the first mapping key present in the row that maps to the field; none iff no such key is present |
| ImportServices.MappedInTail | src/AriaJournal.Core/Application/Services/ImportService.cs:531-532 | what the rest of the mapping finds, the whole mapping finds too |
| ImportServices.FieldNumber | src/AriaJournal.Core/Application/Services/ImportService.cs:553-557 | a number is only read from a field that is mapped and present |
| ImportServices.DirectionFromText | src/AriaJournal.Core/Application/Services/ImportService.cs:546-549 | Buy iff the lower-cased value contains "buy" or "long" or equals "1"; otherwise Sell |
| ImportServices.TradeFromRow | src/AriaJournal.Core/Application/Services/ImportService.cs:523-660 | symbol upper-cased, the account and creation time set, not deleted; closed iff an exit price parses; the direction from its text |
| ImportServices.CreateTradeFromData | src/AriaJournal.Core/Application/Services/ImportService.cs:531-539 | the row fails iff its symbol is missing or empty; otherwise the trade of the row with a non-empty symbol |
| ImportServices.ImportLinesCounts | src/AriaJournal.Core/Application/Services/ImportService.cs:115-178 | each line looked at gives exactly one success, skip or error, so success + skipped + errors <= TotalRows; a line is left unread only after a stop |
| ImportServices.ImportRowCounts | src/AriaJournal.Core/Application/Services/ImportService.cs:128-167 | a row adds exactly one success, skip or error, and adds a trade only with a success |
| ImportServices.ParsedTradeShape | src/AriaJournal.Core/Application/Services/ImportService.cs:531-539 | a parsed trade, tagged or not, has an upper-cased non-empty symbol and belongs to the account (also lines 150-155) |
| ImportServices.RowTradeShape | src/AriaJournal.Core/Application/Services/ImportService.cs:126-127 | the trade a data line gives, when it parses, is in that shape once tagged |
| ImportServices.ImportRowKeepsShape | src/AriaJournal.Core/Application/Services/ImportService.cs:142-160 | importing a row keeps every imported trade in shape and, with duplicates skipped, unlike any stored trade |
| ImportServices.ImportedTradesShape | src/AriaJournal.Core/Application/Services/ImportService.cs:119-167 | every imported trade has an upper-cased non-empty symbol, the account, and, with duplicates skipped, matches no stored trade |
| ImportServices.NonEmptyLines | src/AriaJournal.Core/Application/Services/ImportService.cs:100 | `Split('\n', RemoveEmptyEntries)`: no empty line and no newline inside a line |
| ImportServices.Nonempty | src/AriaJournal.Core/Application/Services/ImportService.cs:100 | keeps only non-empty parts, each one of the given parts |
| ImportServices.Headers | src/AriaJournal.Core/Application/Services/ImportService.cs:107-110 | one header per delimiter plus one (quotes not interpreted) |
| ImportServices.ImportFromCsvText | src/AriaJournal.Core/Application/Services/ImportService.cs:88-193 | an empty text fails with the validation error; otherwise the result is the import of every data line up to the error limit |
| ImportServices.ImportLoop | src/AriaJournal.Core/Application/Services/ImportService.cs:119-168 | the loop equals the specification, stopping once errors >= MaxErrors unless IgnoreErrors |
| ImportServices.StoppedStaysStopped | src/AriaJournal.Core/Application/Services/ImportService.cs:121-122 | once the loop has stopped, later lines change nothing |
| ImportServices.SupportsFormat | src/AriaJournal.Core/Application/Services/ImportService.cs:27 | true only for .csv and .json, ignoring case (also lines 438-441) |
| ImportServices.NormalizeColumn | src/AriaJournal.Core/Application/Services/ImportService.cs:685 | same length, lower-cased, spaces and hyphens turned into "_" |
| ImportServices.LookupIgnoreCase | src/AriaJournal.Core/Application/Services/ImportService.cs:373-408 | the default mapping's case-insensitive lookup finds the first entry whose key matches (also line 687) |
| ImportServices.SuggestMapping | src/AriaJournal.Core/Application/Services/ImportService.cs:678-694 | a column is mapped iff its normalised name is a key of the default mapping, and then to that key's field |
| ImportServices.ParsedTime | src/AriaJournal.Core/Application/Services/ImportService.cs:578-610 | no time without a mapped, non-empty field; a parsed time is the date parser's reading of that field |
| ImportServices.ImportRow | src/AriaJournal.Core/Application/Services/ImportService.cs:128-167 | the row count is kept; a row that fails to convert adds one parse error and no trade; a converted row adds no error |
| ImportServices.ImportLines | src/AriaJournal.Core/Application/Services/ImportService.cs:115-178 | the reported row count is the total handed in, whatever the rows hold |
| MetadataServices.MaxId | src/AriaJournal.Core/Application/Services/MetadataService.cs:1024 | `Max(p => p.Id)` bounds every id and is one of them |
| MetadataServices.NextId | src/AriaJournal.Core/Application/Services/MetadataService.cs:1022-1027 | a new id is above every existing id: the maximum + 1, or 1 for an empty list (also lines 1220-1225) |
| MetadataServices.IndexOfId | src/AriaJournal.Core/Application/Services/MetadataService.cs:1030 | `FirstOrDefault(p => p.Id == id)`: the first item with the id, none iff no item has it |
| MetadataServices.WithoutOtherDefaults | src/AriaJournal.Core/Application/Services/MetadataService.cs:1041-1047 | after a default save, an item is default iff it was and has the saved id; nothing else changes (also lines 1239-1245) |
| MetadataServices.WithDefault | src/AriaJournal.Core/Application/Services/MetadataService.cs:1090-1093 | exactly the items whose id is the target are default; nothing else changes (also lines 1288-1291) |
| MetadataServices.ClearOtherDefaults | src/AriaJournal.Core/Application/Services/MetadataService.cs:1041-1047 | the clearing loop computes the list without other defaults |
| MetadataServices.MarkDefault | src/AriaJournal.Core/Application/Services/MetadataService.cs:1090-1093 | the SetDefault loop computes the list in which exactly the target is default |
| MetadataServices.SavedItem | src/AriaJournal.Core/Application/Services/MetadataService.cs:1022-1027 | a new item (id 0) gets an id above every existing one; an existing id is kept |
| MetadataServices.AfterSave | src/AriaJournal.Core/Application/Services/MetadataService.cs:1019-1047 | a new item is appended, an existing one updated in place (none when the id is unknown); a default save clears the other defaults; distinct ids stay distinct |
| MetadataServices.FirstDefault | src/AriaJournal.Core/Application/Services/MetadataService.cs:1118 | `FirstOrDefault(p => p.IsDefault)`: some default item iff one exists (also line 1316) |
| MetadataServices.DefaultAfterSetDefault | src/AriaJournal.Core/Application/Services/MetadataService.cs:1079-1126 | after SetDefault the default lookup finds the target, or nothing when no item has its id |
| MetadataServices.DefaultAfterSave | src/AriaJournal.Core/Application/Services/MetadataService.cs:1015-1062 | after saving a default item that lands in the list it is the only default and the lookup finds it (also lines 1108-1126) |
| MetadataServices.UnknownDefaultSaveClearsDefaults | src/AriaJournal.Core/Application/Services/MetadataService.cs:1028-1047 | saving a default item under an unknown non-zero id updates nothing but leaves no default at all |
| MetadataServices.ColumnIndex | src/AriaJournal.Core/Application/Services/MetadataService.cs:439 | `FirstOrDefault(c => c.ColumnId == id)` as the first matching position |
| MetadataServices.ColumnIndexFirst | src/AriaJournal.Core/Application/Services/MetadataService.cs:439 | the lookup finds the first position holding the column |
| MetadataServices.UpsertColumn | src/AriaJournal.Core/Application/Services/MetadataService.cs:439-452 | upsert by ColumnId: the entry is updated or appended once; other entries unchanged; distinct ColumnIds stay distinct |
| MetadataServices.CustomizedColumn | src/AriaJournal.Core/Application/Services/MetadataService.cs:1611-1623 | an uncustomised column is unchanged; a customised one takes visibility, width, order and a non-blank header |
| MetadataServices.CustomizedColumns | src/AriaJournal.Core/Application/Services/MetadataService.cs:1609-1624 | every column customised in place |
| MetadataServices.ApplyColumnCustomizations | src/AriaJournal.Core/Application/Services/MetadataService.cs:1605-1629 | the customised columns, sorted by Order, as a permutation. Stable: items with equal keys keep their input order and repetitions. |
| MetadataServices.FieldCustomizationOf | src/AriaJournal.Core/Application/Services/MetadataService.cs:1576 | the first customisation of the field, none iff it has none |
| MetadataServices.CustomizedField | src/AriaJournal.Core/Application/Services/MetadataService.cs:1576-1590 | an uncustomised field is unchanged; a customised one takes visibility, required, a non-blank label and a given width |
| MetadataServices.CustomizedFields | src/AriaJournal.Core/Application/Services/MetadataService.cs:1574-1591 | every field customised in place |
| MetadataServices.CustomizeSection | src/AriaJournal.Core/Application/Services/MetadataService.cs:1574-1601 | the customised fields sorted by customisation order, 999 for uncustomised ones, as a permutation. Stable: items with equal keys keep their input order and repetitions. |
| MetadataServices.ApplyFieldCustomizations | src/AriaJournal.Core/Application/Services/MetadataService.cs:1566-1603 | every section keeps its place and properties; its fields are customised and reordered as a sorted permutation. Stable: items with equal keys keep their input order and repetitions. |
| MetadataServices.NonEmptyParts | src/AriaJournal.Core/Application/Services/MetadataService.cs:1680 | `RemoveEmptyEntries`: exactly the non-empty parts |
| MetadataServices.OptionsFromText | src/AriaJournal.Core/Application/Services/MetadataService.cs:1679-1682 | one option per non-empty comma part, trimmed, as both value and label |
| MetadataServices.FieldOptions | src/AriaJournal.Core/Application/Services/MetadataService.cs:1671-1684 | no options for blank text, the JSON list when it parses, otherwise the trimmed comma split |
| MetadataServices.UserFieldSchema | src/AriaJournal.Core/Application/Services/MetadataService.cs:1659-1684 | id "custom_" + name, label the display name, lower-cased type, required and default copied, options as above |
| MetadataServices.OrderedUserFields | src/AriaJournal.Core/Application/Services/MetadataService.cs:1657 | the user fields ordered by Order, as a permutation. Stable: items with equal keys keep their input order and repetitions. |
| MetadataServices.AddedFields | src/AriaJournal.Core/Application/Services/MetadataService.cs:1657-1687 | one field per user field, in Order |
| MetadataServices.CustomSectionIndex | src/AriaJournal.Core/Application/Services/MetadataService.cs:1639 | the first section with id "custom_fields", none iff there is none |
| MetadataServices.AddUserDefinedFieldsToForm | src/AriaJournal.Core/Application/Services/MetadataService.cs:1631-1688 | the user fields are appended to the first "custom_fields" section, created at the end when missing; other sections unchanged |
| MetadataServices.AppendUserFields | src/AriaJournal.Core/Application/Services/MetadataService.cs:1657-1687 | the loop appends exactly the added fields |
| MetadataServices.CustomSectionIndexFirst | src/AriaJournal.Core/Application/Services/MetadataService.cs:1639 | the lookup finds the first custom-fields section |
| MetadataServices.DefaultTradeTable | src/AriaJournal.Core/Application/Services/MetadataService.cs:1690-1740 | the "tradeList" table with page size 50 and fifteen columns |
| MetadataServices.DefaultTradeTableOrdered | src/AriaJournal.Core/Application/Services/MetadataService.cs:1690-1740 | each default column's Order is its position |
| MetadataServices.AllTables | src/AriaJournal.Core/Application/Services/MetadataService.cs:159-188 | "tradeList" is always present, added at the end only when absent |
| MetadataServices.AllTablesIdempotent | src/AriaJournal.Core/Application/Services/MetadataService.cs:176-179 | asking again adds nothing |
| MetadataServices.DefinitionById | src/AriaJournal.Core/Application/Services/MetadataService.cs:738-739 | the definition a row's navigation property finds, none iff no definition has the id |
| MetadataServices.ValueOf | src/AriaJournal.Core/Application/Services/MetadataService.cs:736-742 | the value of the first row of the entity whose definition has the name and user; none without such a row |
| MetadataServices.DefinitionFor | src/AriaJournal.Core/Application/Services/MetadataService.cs:757-761 | the first definition of that user, entity type and name, none iff there is none |
| MetadataServices.PairIndex | src/AriaJournal.Core/Application/Services/MetadataService.cs:768-770 | the row of the (trade, definition) pair, none iff there is none |
| MetadataServices.UpsertValue | src/AriaJournal.Core/Application/Services/MetadataService.cs:767-788 | the pair's row takes the value or a row is inserted; pairs stay unique; other rows unchanged |
| MetadataServices.ValueAfterSave | src/AriaJournal.Core/Application/Services/MetadataService.cs:730-797 | reading a value back after saving it gives the saved value |
| MetadataServices.ValueOfUniqueMatch | src/AriaJournal.Core/Application/Services/MetadataService.cs:736-742 | when exactly one row matches, the lookup returns its value |
| MetadataServices.MetadataService.constructor | src/AriaJournal.Core/Application/Services/MetadataService.cs:37-47 | no presets, filters or column customisations; the given definitions and values |
| MetadataServices.MetadataService.SaveFormPreset | src/AriaJournal.Core/Application/Services/MetadataService.cs:1015-1062 | returns the saved preset; the form's list becomes the list after the save; nothing else changes |
| MetadataServices.MetadataService.SaveFilter | src/AriaJournal.Core/Application/Services/MetadataService.cs:1213-1260 | returns the saved filter; the table's list becomes the list after the save; nothing else changes |
| MetadataServices.MetadataService.DeleteSaved | src/AriaJournal.Core/Application/Services/MetadataService.cs:1064-1077 | reports success and removes nothing (also lines 1262-1275) |
| MetadataServices.MetadataService.SetDefaultPreset | src/AriaJournal.Core/Application/Services/MetadataService.cs:1079-1106 | exactly the presets with the target id become default |
| MetadataServices.MetadataService.SetDefaultFilter | src/AriaJournal.Core/Application/Services/MetadataService.cs:1277-1304 | exactly the filters with the target id become default |
| MetadataServices.MetadataService.DefaultPreset | src/AriaJournal.Core/Application/Services/MetadataService.cs:1108-1126 | the default preset found is one of the form's presets and is default |
| MetadataServices.MetadataService.DefaultFilter | src/AriaJournal.Core/Application/Services/MetadataService.cs:1306-1324 | the default filter found is one of the table's filters and is default |
| MetadataServices.MetadataService.SaveColumnCustomization | src/AriaJournal.Core/Application/Services/MetadataService.cs:432-468 | the table's list becomes the upsert by ColumnId; nothing else changes |
| MetadataServices.MetadataService.ResetColumnCustomizations | src/AriaJournal.Core/Application/Services/MetadataService.cs:490-507 | the table's list is emptied |
| MetadataServices.MetadataService.CustomFieldValue | src/AriaJournal.Core/Application/Services/MetadataService.cs:730-750 | a value found is the value of a stored row |
| MetadataServices.MetadataService.SaveCustomFieldValue | src/AriaJournal.Core/Application/Services/MetadataService.cs:752-797 | NotFound without a definition of that name; otherwise the pair's row is updated or inserted, keeping pairs unique |
| MetadataServices.SaveInto | src/AriaJournal.Core/Application/Services/MetadataService.cs:1019-1047 | the save on the loaded list gives the saved item and the list after the save |
| FieldDefinitions.NormalizeFieldName | src/AriaJournal.Core/Application/Services/FieldDefinitionService.cs:131 | the stored name: same length, each character lower-cased and a space turned into "_", so no space remains |
| FieldDefinitions.NormalizeIdempotent | src/AriaJournal.Core/Application/Services/FieldDefinitionService.cs:131 | a stored name is its own normal form |
| FieldDefinitions.NameTakenCoversAsWritten | src/AriaJournal.Core/Application/Services/FieldDefinitionService.cs:116-117 | every name the lower-cased duplicate check rejects is also taken once both sides are normalised |
| FieldDefinitions.AppendKeepsNames | src/AriaJournal.Core/Application/Services/FieldDefinitionService.cs:116-151 | appending a field whose stored name is new for its user keeps names distinct per user |
| FieldDefinitions.DuplicateNameSlipsThrough | src/AriaJournal.Core/Application/Services/FieldDefinitionService.cs:116-158 | with "a_b" stored, the duplicate check lets "a b" through, and creating it ends in the general save failure, not the duplicate-name error (unique index at src/AriaJournal.Core/Infrastructure/Data/Configurations/FieldDefinitionConfiguration.cs:72-73) |
| FieldDefinitions.FreeNameIsNew | src/AriaJournal.Core/Application/Services/FieldDefinitionService.cs:116-131 | a name not taken once normalised differs, once normalised, from every stored name of the user |
| FieldDefinitions.MaxDisplayOrder | src/AriaJournal.Core/Application/Services/FieldDefinitionService.cs:125-126 | the largest DisplayOrder of the user's fields, 0 when there are none |
| FieldDefinitions.ListingLeIsPreorder | src/AriaJournal.Core/Application/Services/FieldDefinitionService.cs:52-56 | DisplayOrder then DisplayName is a total preorder |
| FieldDefinitions.ActiveFieldsOf | src/AriaJournal.Core/Application/Services/FieldDefinitionService.cs:50 | exactly the user's active fields |
| FieldDefinitions.UserFields | src/AriaJournal.Core/Application/Services/FieldDefinitionService.cs:37-67 | the user's active fields sorted by DisplayOrder, then DisplayName (names compared ordinally). Stable: items with equal keys keep their input order and repetitions. |
| FieldDefinitions.LastIndex | src/AriaJournal.Core/Application/Services/FieldDefinitionService.cs:294-302 | the last position of the id in the requested order, none iff it is not listed |
| FieldDefinitions.Reordered | src/AriaJournal.Core/Application/Services/FieldDefinitionService.cs:294-302 | a field of another user or not listed is unchanged; a listed field of the user takes its (last) position + 1 as DisplayOrder and Order |
| FieldDefinitions.IndexOfField | src/AriaJournal.Core/Application/Services/FieldDefinitionService.cs:296 | the field with the id, none iff no field has it |
| FieldDefinitions.ReorderedStep | src/AriaJournal.Core/Application/Services/FieldDefinitionService.cs:294-302 | one more listed id changes only the field it names |
| FieldDefinitions.PlaceField | src/AriaJournal.Core/Application/Services/FieldDefinitionService.cs:296-301 | one loop turn: the listed field, when it is the user's, takes i + 1 |
| FieldDefinitions.ReorderFields | src/AriaJournal.Core/Application/Services/FieldDefinitionService.cs:294-302 | the loop gives every field its reordered form |
| FieldDefinitions.NewField | src/AriaJournal.Core/Application/Services/FieldDefinitionService.cs:128-145 | stored name normalised, display name kept, DisplayOrder = Order = max + 1, active, not system |
| FieldDefinitions.CreateOutcome | src/AriaJournal.Core/Application/Services/FieldDefinitionService.cs:98-159 | blank field name or display name is refused; a name equal up to case to a stored one is DuplicateFieldName; a name whose stored form the user already has breaks the unique index and is the general save failure; otherwise success with DisplayOrder above every order of the user |
| FieldDefinitions.CreateKeepsNamesDistinct | src/AriaJournal.Core/Application/Services/FieldDefinitionService.cs:98-159 | a field Create adds never gives its user a second field of the same stored name |
| FieldDefinitions.CreateRefusesTakenNames | src/AriaJournal.Core/Application/Services/FieldDefinitionService.cs:116-158 | with stored names in normal form, Create succeeds exactly for names the user does not have once normalised |
| FieldDefinitions.FieldDefinitionService.constructor | src/AriaJournal.Core/Application/Services/FieldDefinitionService.cs:24-32 | the given fields and next id |
| FieldDefinitions.FieldDefinitionService.Create | src/AriaJournal.Core/Application/Services/FieldDefinitionService.cs:98-159 | the answer is CreateOutcome; a failure changes nothing; a success appends the field and keeps names distinct per user |
| FieldDefinitions.FieldDefinitionService.Add | src/AriaJournal.Core/Application/Services/FieldDefinitionService.cs:147-148 | appends a field whose name is new for its user |
| FieldDefinitions.FieldDefinitionService.Update | src/AriaJournal.Core/Application/Services/FieldDefinitionService.cs:164-204 | a missing field is not found; a system field is refused unchanged; otherwise the editable properties are replaced |
| FieldDefinitions.FieldDefinitionService.Delete | src/AriaJournal.Core/Application/Services/FieldDefinitionService.cs:209-245 | a missing field is not found; a system field is refused; otherwise only IsActive becomes false |
| FieldDefinitions.FieldDefinitionService.UpdateOptions | src/AriaJournal.Core/Application/Services/FieldDefinitionService.cs:250-283 | a missing field is not found; a type other than Select or MultiSelect is refused; otherwise the options are stored |
| FieldDefinitions.FieldDefinitionService.Reorder | src/AriaJournal.Core/Application/Services/FieldDefinitionService.cs:288-317 | DisplayOrder = i + 1 only on listed fields owned by the user; nothing else changes |
| AccountServices.IndexOfAccount | src/AriaJournal.Core/Application/Services/AccountService.cs:175-180 | the account with the id, none iff no account has it |
| AccountServices.Cleared | src/AriaJournal.Core/Application/Services/AccountService.cs:122-127 | a default account of the user other than the excepted one loses its flag and is stamped; any other account is unchanged |
| AccountServices.ClearDefaults | src/AriaJournal.Core/Application/Services/AccountService.cs:120-128 | every account cleared in place |
| AccountServices.ClearDefaultsLoop | src/AriaJournal.Core/Application/Services/AccountService.cs:122-127 | the clearing loop computes the cleared list |
| AccountServices.ClearedLeavesNoOtherDefault | src/AriaJournal.Core/Application/Services/AccountService.cs:120-128 | after clearing the user has no default other than the excepted account, and one active default per user at most is kept |
| AccountServices.Marked | src/AriaJournal.Core/Application/Services/AccountService.cs:280-292 | each active account of the user becomes default exactly when it is the chosen one and is stamped; others unchanged |
| AccountServices.MarkDefault | src/AriaJournal.Core/Application/Services/AccountService.cs:280-292 | every account marked in place |
| AccountServices.MarkDefaultLoop | src/AriaJournal.Core/Application/Services/AccountService.cs:282-292 | the SetDefault loop computes the marked list |
| AccountServices.MarkDefaultChoosesOne | src/AriaJournal.Core/Application/Services/AccountService.cs:280-292 | after choosing an active account it is the user's only active default; one active default per user at most is kept |
| AccountServices.NewAccount | src/AriaJournal.Core/Application/Services/AccountService.cs:130-150 | active, default as asked, current balance = initial balance |
| AccountServices.AfterCreate | src/AriaJournal.Core/Application/Services/AccountService.cs:113-165 | the new account is appended; without a default request nothing else changes |
| AccountServices.CreateKeepsOneDefault | src/AriaJournal.Core/Application/Services/AccountService.cs:120-128 | creating keeps one active default per user at most, and a new default account is its user's only default |
| AccountServices.Updated | src/AriaJournal.Core/Application/Services/AccountService.cs:194-205 | the form is copied onto the stored account; id, user and current balance are kept |
| AccountServices.UpdateAsWritten | src/AriaJournal.Core/Application/Services/AccountService.cs:183-205 | as written: other defaults are cleared only when a non-default account becomes default |
| AccountServices.UpdateAccounts | src/AriaJournal.Core/Application/Services/AccountService.cs:170-218 | corrected: other defaults of the user are cleared whenever the edited account is to be default; other users untouched |
| AccountServices.UpdateKeepsOneDefault | src/AriaJournal.Core/Application/Services/AccountService.cs:170-218 | the corrected update keeps one active default per user at most |
| AccountServices.UpdateAsWrittenBreaksOneDefault | src/AriaJournal.Core/Application/Services/AccountService.cs:183-205 | as written: delete a default, choose another, reactivate the first as default: two active defaults (also line 235) |
| AccountServices.Deactivate | src/AriaJournal.Core/Application/Services/AccountService.cs:235-236 | soft delete: IsActive false, default flag untouched, others unchanged, one active default per user kept |
| AccountServices.DefaultAccount | src/AriaJournal.Core/Application/Services/AccountService.cs:313-333 | the user's first active default, else the first active account, none iff the user has no active account |
| AccountServices.FirstWhere | src/AriaJournal.Core/Application/Services/AccountService.cs:318-324 | the first active account of the user (a default one when asked), none iff there is none |
| AccountServices.DefaultIsUnique | src/AriaJournal.Core/Application/Services/AccountService.cs:313-333 | with one active default at most, GetDefault returns that default |
| AccountServices.TradesOf | src/AriaJournal.Core/Application/Services/AccountService.cs:58 | exactly the account's trades that are not deleted |
| AccountServices.TotalPnLAppend | src/AriaJournal.Core/Application/Services/AccountService.cs:63 | the P/L sum over non-null values is additive |
| AccountServices.WinCount | src/AriaJournal.Core/Application/Services/AccountService.cs:68 | the winning trades are some of the closed ones |
| AccountServices.AccountWinRate | src/AriaJournal.Core/Application/Services/AccountService.cs:65-69 | wins / closed x 100, in 0..100, 0 without closed trades, 100 iff every closed trade wins |
| AccountServices.PercentBounds | src/AriaJournal.Core/Application/Services/AccountService.cs:68 | a part of a whole as a percentage is in 0..100 and 100 iff it is the whole |
| AccountServices.ViewOf | src/AriaJournal.Core/Application/Services/AccountService.cs:56-73 | CurrentBalance = InitialBalance + sum of non-null P/L; win rate in 0..100 |
| AccountServices.ListLeIsPreorder | src/AriaJournal.Core/Application/Services/AccountService.cs:77 | default first, then by name, is a total preorder |
| AccountServices.ViewsOf | src/AriaJournal.Core/Application/Services/AccountService.cs:52-75 | one summary per active account of the user |
| AccountServices.UserAccounts | src/AriaJournal.Core/Application/Services/AccountService.cs:45-84 | the user's active accounts with their summaries, default first, then by name: a permutation of the active accounts' views in which ties keep their stored order |
| AccountServices.DefaultListedFirst | src/AriaJournal.Core/Application/Services/AccountService.cs:77 | with one active default at most, only the first listed account can be default |
| AccountServices.NotDefaultAfterFirst | src/AriaJournal.Core/Application/Services/AccountService.cs:77 | no account after the first listed one is default |
| AccountServices.DefaultViewsEqual | src/AriaJournal.Core/Application/Services/AccountService.cs:77 | two listed default accounts of a user are the same account |
| AccountServices.ViewsOnce | src/AriaJournal.Core/Application/Services/AccountService.cs:52-75 | a default account is listed once |
| AccountServices.HeadNotRepeated | src/AriaJournal.Core/Application/Services/AccountService.cs:52-75 | an active default account is not repeated further down the list |
| AccountServices.AccountService.constructor | src/AriaJournal.Core/Application/Services/AccountService.cs:32-40 | the given accounts and next id |
| AccountServices.AccountService.Create | src/AriaJournal.Core/Application/Services/AccountService.cs:113-165 | returns the new account; the accounts become the list after the create |
| AccountServices.AccountService.Update | src/AriaJournal.Core/Application/Services/AccountService.cs:170-218 | a missing account is not found; otherwise the corrected update is applied |
| AccountServices.AccountService.Delete | src/AriaJournal.Core/Application/Services/AccountService.cs:223-249 | a missing account is not found; otherwise a soft delete |
| AccountServices.AccountService.SetDefault | src/AriaJournal.Core/Application/Services/AccountService.cs:254-308 | a missing account is not found, another user's is refused, an already-default one is a no-op; otherwise the loop marks the user's active accounts |
| AccountServices.AccountService.Default | src/AriaJournal.Core/Application/Services/AccountService.cs:313-333 | an active account of the user, none iff there is none |
| AuthEngines.RemainingMinutes | src/AriaJournal.Core/Domain/Common/Error.cs:137-138 | a locked user has at least one minute of lockout left |
| AuthEngines.AfterFailure | src/AriaJournal.Core/Infrastructure/Engines/AuthEngine.cs:303-317 | one more failed attempt; at 3 or more the lockout ends 5 minutes from now, below 3 it is unchanged; identity and hashes kept |
| AuthEngines.AfterSuccess | src/AriaJournal.Core/Infrastructure/Engines/AuthEngine.cs:319-330 | attempts 0, no lockout, last login now, so the user is not locked; identity kept |
| AuthEngines.ThirdFailureLocks | src/AriaJournal.Core/Infrastructure/Engines/AuthEngine.cs:290-312 | from a clean state, n failures count n and lock the user iff n >= 3 |
| AuthEngines.FailureAfterExpiryRelocks | src/AriaJournal.Core/Infrastructure/Engines/AuthEngine.cs:303-312 | the counter is not reset when a lockout expires, so the next failure relocks at once for 5 minutes |
| AuthEngines.FirstMatch | src/AriaJournal.Core/Infrastructure/Engines/AuthEngine.cs:65-66 | `FirstOrDefaultAsync(p)`: the first user satisfying p, none iff none does |
| AuthEngines.FindUser | src/AriaJournal.Core/Infrastructure/Engines/AuthEngine.cs:65-66 | the first user whose lower-cased name equals the lower-cased trimmed input (and active when asked) (also lines 118-119, 220-221) |
| AuthEngines.FindUserUnique | src/AriaJournal.Core/Infrastructure/Engines/AuthEngine.cs:65-66 | with distinct usernames the lookup finds the one user of that name |
| AuthEngines.IndexOfUser | src/AriaJournal.Core/Infrastructure/Engines/AuthEngine.cs:177 | the user with the id, none iff no user has it |
| AuthEngines.NewUser | src/AriaJournal.Core/Infrastructure/Engines/AuthEngine.cs:127-136 | the trimmed name, the password's hash and the given recovery-key hash, active, no failed attempts and not locked |
| AuthEngines.GeneratedKeyRecovers | src/AriaJournal.Core/Infrastructure/Engines/AuthEngine.cs:124-150 | the key registration hands out hashes successfully, and that key typed with or without dashes in any case verifies against the stored hash in recovery (also AuthEngine.cs:226) |
| AuthEngines.FreeNameIsNew | src/AriaJournal.Core/Infrastructure/Engines/AuthEngine.cs:118-122 | a name the duplicate check accepts differs, ignoring case, from every stored name once trimmed |
| AuthEngines.RegisterKeepsUsernames | src/AriaJournal.Core/Infrastructure/Engines/AuthEngine.cs:118-139 | a user the check lets through keeps usernames distinct |
| AuthEngines.RegisterInputError | src/AriaJournal.Core/Infrastructure/Engines/AuthEngine.cs:101-111 | no input error iff the name is not blank, its trimmed length >= 3, and the password is not blank and has >= 6 characters |
| AuthEngines.ChangeInputError | src/AriaJournal.Core/Infrastructure/Engines/AuthEngine.cs:162-172 | no input error iff both passwords are given, the new one has >= 6 characters and differs from the current one |
| AuthEngines.RecoverInputError | src/AriaJournal.Core/Infrastructure/Engines/AuthEngine.cs:205-215 | no input error iff name, key and new password are given and the new password has >= 6 characters |
| AuthEngines.AuthEngine.constructor | src/AriaJournal.Core/Infrastructure/Engines/AuthEngine.cs:40-50 | the given users, no current user |
| AuthEngines.AuthEngine.Login | src/AriaJournal.Core/Infrastructure/Engines/AuthEngine.cs:52-96 | a blank name or password fails before any lookup; an unknown or inactive user fails; a locked user fails even with the right password; a wrong password counts a failure; a right one resets attempts and lockout and sets CurrentUser |
| AuthEngines.AuthEngine.Register | src/AriaJournal.Core/Infrastructure/Engines/AuthEngine.cs:98-158 | the input checks in order, then a case-insensitive duplicate check on the trimmed name; otherwise a recovery key is generated from the random bytes, the user is added with the bcrypt hash of its clean form, and the result carries the user and that key |
| AuthEngines.AuthEngine.Add | src/AriaJournal.Core/Infrastructure/Engines/AuthEngine.cs:138-139 | appends the new user with the next id |
| AuthEngines.AuthEngine.Replace | src/AriaJournal.Core/Infrastructure/Engines/AuthEngine.cs:185-189 | the stored user is replaced by one with the same id and name |
| AuthEngines.AuthEngine.ChangePassword | src/AriaJournal.Core/Infrastructure/Engines/AuthEngine.cs:160-201 | the input checks, then a missing user and a wrong current password fail; otherwise the hash is replaced |
| AuthEngines.AuthEngine.Recover | src/AriaJournal.Core/Infrastructure/Engines/AuthEngine.cs:203-249 | the input checks, then a missing user and a key that `RecoveryKeyGenerator.Verify` rejects (dashes and case ignored) fail; otherwise the password is replaced and attempts and lockout reset |
| AuthEngines.AuthEngine.Logout | src/AriaJournal.Core/Infrastructure/Engines/AuthEngine.cs:263-286 | CurrentUser is cleared and nothing else changes |
| AuthEngines.Recovered | src/AriaJournal.Core/Infrastructure/Engines/AuthEngine.cs:228-231 | new hash, no failures, not locked; identity and recovery hash kept |
| PluginEngines.FindPlugin | src/AriaJournal.Core/Infrastructure/Engines/PluginEngine.cs:385 | `FirstOrDefault(p => p.PluginId == id)`: a plugin with the id, none iff no plugin has it |
| PluginEngines.SubsetCard | src/AriaJournal.Core/Infrastructure/Engines/PluginEngine.cs:369-377 | a proper subset of the ids is smaller, so the visiting set bounds the recursion |
| PluginEngines.ExtendKeepsPlaced | src/AriaJournal.Core/Infrastructure/Engines/PluginEngine.cs:392-396 | placing more plugins after the sorted ones keeps what held of them |
| PluginEngines.StackReaches | src/AriaJournal.Core/Infrastructure/Engines/PluginEngine.cs:373-377 | a dependency found on the visiting stack depends back on the plugin (a cycle) |
| PluginEngines.SelfReaches | src/AriaJournal.Core/Infrastructure/Engines/PluginEngine.cs:373-377 | a plugin reaches itself |
| PluginEngines.AppendKeepsState | src/AriaJournal.Core/Infrastructure/Engines/PluginEngine.cs:392-394 | appending a plugin whose loaded dependencies are placed or on the stack keeps the sort invariant |
| PluginEngines.Visit | src/AriaJournal.Core/Infrastructure/Engines/PluginEngine.cs:368-395 | a visited plugin is skipped, one on the visiting stack (a cycle) is cut; otherwise its dependencies come first and then it is placed once |
| PluginEngines.TopologicalSort | src/AriaJournal.Core/Infrastructure/Engines/PluginEngine.cs:362-401 | every loaded plugin exactly once, each after its loaded dependencies unless they form a cycle with it |
| PluginEngines.DependenciesFirst | src/AriaJournal.Core/Infrastructure/Engines/PluginEngine.cs:379-392 | for an acyclic graph every loaded dependency is placed before its dependent |
| PluginEngines.InitializationOrder | src/AriaJournal.Core/Infrastructure/Engines/PluginEngine.cs:133 | the order initialization visits: each plugin once, dependencies first when acyclic |
| PluginEngines.SavedState | src/AriaJournal.Core/Infrastructure/Engines/PluginEngine.cs:284-297 | a plugin is disabled only when a saved state says so; enabled by default |
| PluginEngines.IsEnabledIn | src/AriaJournal.Core/Infrastructure/Engines/PluginEngine.cs:229-240 | a blank id is never enabled; a loaded plugin answers from its info; any other id from the saved state |
| PluginEngines.CheckDependencies | src/AriaJournal.Core/Infrastructure/Engines/PluginEngine.cs:336-360 | true iff every dependency is "core" (ignoring case) or is loaded and enabled |
| PluginEngines.InitStep | src/AriaJournal.Core/Infrastructure/Engines/PluginEngine.cs:135-180 | one plugin: disabled ones are skipped, unmet dependencies disable it with a message, otherwise initialized (an exception sets the message); no other plugin changes and nothing becomes enabled |
| PluginEngines.InitStepKeepsMet | src/AriaJournal.Core/Infrastructure/Engines/PluginEngine.cs:135-180 | initializing a later plugin keeps every earlier enabled plugin's dependencies met |
| PluginEngines.EveryPluginSorted | src/AriaJournal.Core/Infrastructure/Engines/PluginEngine.cs:133-135 | what holds of every sorted plugin holds of every loaded one |
| PluginEngines.InitializeOne | src/AriaJournal.Core/Infrastructure/Engines/PluginEngine.cs:137-179 | the loop body computes the step |
| PluginEngines.PluginEngine.constructor | src/AriaJournal.Core/Infrastructure/Engines/PluginEngine.cs:32-38 | no plugins loaded; the saved states given |
| PluginEngines.PluginEngine.IsLoaded | src/AriaJournal.Core/Infrastructure/Engines/PluginEngine.cs:242-248 | false for a blank id, otherwise whether a loaded plugin has the id |
| PluginEngines.PluginEngine.GetPlugin | src/AriaJournal.Core/Infrastructure/Engines/PluginEngine.cs:188-195 | the loaded plugin with the id, none for a blank or unknown id |
| PluginEngines.PluginEngine.Register | src/AriaJournal.Core/Infrastructure/Engines/PluginEngine.cs:97-119 | an id already loaded is skipped, not replaced; otherwise it is loaded with its saved enabled state |
| PluginEngines.PluginEngine.Load | src/AriaJournal.Core/Infrastructure/Engines/PluginEngine.cs:40-128 | the loaded ids become the old ones plus the ids found; loaded plugins stay |
| PluginEngines.PluginEngine.SetEnabled | src/AriaJournal.Core/Infrastructure/Engines/PluginEngine.cs:197-227 | a blank id fails with Validation, an unknown id with PluginNotFound, both unchanged; otherwise the flag is set and saved |
| PluginEngines.PluginEngine.EnabledPlugins | src/AriaJournal.Core/Infrastructure/Engines/PluginEngine.cs:277-280 | exactly the loaded plugins that are enabled |
| PluginEngines.PluginEngine.InitializePlugins | src/AriaJournal.Core/Infrastructure/Engines/PluginEngine.cs:130-181 | no plugin becomes enabled, and for an acyclic graph every plugin left enabled has its dependencies loaded and enabled |
| PluginEngines.PluginEngine.ShutdownAll | src/AriaJournal.Core/Infrastructure/Engines/PluginEngine.cs:250-268 | every plugin is forgotten; saved states stay |
| PluginEngines.InitializeAll | src/AriaJournal.Core/Infrastructure/Engines/PluginEngine.cs:135-180 | the loop keeps the set of infos, never enables a plugin, and leaves enabled plugins with met dependencies when acyclic |
| PluginEngines.Filter | src/AriaJournal.Core/Infrastructure/Engines/PluginEngine.cs:279 | exactly the enabled plugins, in the order of the plugin list (the source's `ConcurrentDictionary` order is unspecified; load order is one it may give) |
| MigrationEngines.HeadVersionUnique | src/AriaJournal.Core/Infrastructure/Engines/MigrationEngine.cs:125-126 | a list with distinct versions keeps them when its head is put before a sublist of its tail |
| MigrationEngines.WithoutVersion | src/AriaJournal.Core/Infrastructure/Engines/MigrationEngine.cs:125 | `RemoveAll`: exactly the migrations of other versions remain; distinct versions stay distinct |
| MigrationEngines.Registered | src/AriaJournal.Core/Infrastructure/Engines/MigrationEngine.cs:119-127 | the new migration replaces any of its version and goes last; versions stay distinct |
| MigrationEngines.KeepBetween | src/AriaJournal.Core/Infrastructure/Engines/MigrationEngine.cs:65 | exactly the migrations whose version lies in the window; versions stay distinct (also line 167) |
| MigrationEngines.CountedOnce | src/AriaJournal.Core/Infrastructure/Engines/MigrationEngine.cs:66 | in a list with distinct versions each migration occurs once |
| MigrationEngines.PermutationKeepsDistinct | src/AriaJournal.Core/Infrastructure/Engines/MigrationEngine.cs:66 | reordering keeps versions distinct (also line 168) |
| MigrationEngines.SameMembers | src/AriaJournal.Core/Infrastructure/Engines/MigrationEngine.cs:66 | a permutation has the same members (also line 168) |
| MigrationEngines.SortedDistinctAscending | src/AriaJournal.Core/Infrastructure/Engines/MigrationEngine.cs:66 | sorting by version distinct versions gives a strictly ascending list |
| MigrationEngines.SortedDistinctDescending | src/AriaJournal.Core/Infrastructure/Engines/MigrationEngine.cs:168 | sorting by descending version gives a strictly descending list |
| MigrationEngines.Pending | src/AriaJournal.Core/Infrastructure/Engines/MigrationEngine.cs:64-67 | exactly the migrations newer than the current version, strictly ascending |
| MigrationEngines.ToRollBack | src/AriaJournal.Core/Infrastructure/Engines/MigrationEngine.cs:166-169 | exactly the migrations in (target, current], strictly descending |
| MigrationEngines.LatestSuccessful | src/AriaJournal.Core/Infrastructure/Engines/MigrationEngine.cs:220-226 | the highest version among successful history rows, none iff no row succeeded |
| MigrationEngines.AppliedAll | src/AriaJournal.Core/Infrastructure/Engines/MigrationEngine.cs:72-88 | one successful history row per migration, in order |
| MigrationEngines.FirstFailure | src/AriaJournal.Core/Infrastructure/Engines/MigrationEngine.cs:69-107 | the position of the first migration whose up step throws: all before it succeed |
| MigrationEngines.AppliedRowMovesDbVersion | src/AriaJournal.Core/Infrastructure/Engines/MigrationEngine.cs:86-91 | a successful row above the stored version becomes the version read back |
| MigrationEngines.AppliedAllSnoc | src/AriaJournal.Core/Infrastructure/Engines/MigrationEngine.cs:69-91 | the rows of a list are those of its prefix plus the last one |
| MigrationEngines.AppliedMovesDbVersion | src/AriaJournal.Core/Infrastructure/Engines/MigrationEngine.cs:69-91 | applying ascending migrations above the stored version leaves it at the last one |
| MigrationEngines.FailedKeepsDbVersion | src/AriaJournal.Core/Infrastructure/Engines/MigrationEngine.cs:95-103 | a failed row does not change the version read back (also line 222) |
| MigrationEngines.RemoveFirstVersion | src/AriaJournal.Core/Infrastructure/Engines/MigrationEngine.cs:178-185 | removing a version absent from the history changes nothing |
| MigrationEngines.RemoveFirstVersionRemovesOne | src/AriaJournal.Core/Infrastructure/Engines/MigrationEngine.cs:178-185 | a version present loses exactly one row of that version and nothing is added |
| MigrationEngines.RemoveEachShrinks | src/AriaJournal.Core/Infrastructure/Engines/MigrationEngine.cs:171-186 | rolling back never adds a history row |
| MigrationEngines.MigrationRows | src/AriaJournal.Core/Infrastructure/Engines/MigrationEngine.cs:69-107 | the rows a run adds: a successful one per migration before the first failure, then the failed row |
| MigrationEngines.PendingAbove | src/AriaJournal.Core/Infrastructure/Engines/MigrationEngine.cs:64-67 | the pending list is ascending and every entry is above the current version |
| MigrationEngines.ApplyPending | src/AriaJournal.Core/Infrastructure/Engines/MigrationEngine.cs:69-107 | the loop stops at the first failure and adds exactly those rows |
| MigrationEngines.FirstFailureAt | src/AriaJournal.Core/Infrastructure/Engines/MigrationEngine.cs:69-107 | a position whose predecessors succeed and which fails is the first failure |
| MigrationEngines.AppliedPrefixMovesDbVersion | src/AriaJournal.Core/Infrastructure/Engines/MigrationEngine.cs:69-91 | after the first n successes the stored version is that of the n-th, or unchanged when none |
| MigrationEngines.MigrationRowsMoveDbVersion | src/AriaJournal.Core/Infrastructure/Engines/MigrationEngine.cs:69-107 | after a run the version read back from history is the last migration applied |
| MigrationEngines.RowsKeepDbVersion | src/AriaJournal.Core/Infrastructure/Engines/MigrationEngine.cs:95-106 | a trailing failed row leaves the version read back unchanged |
| MigrationEngines.UndoAll | src/AriaJournal.Core/Infrastructure/Engines/MigrationEngine.cs:171-192 | the rollback loop stops at the first failing down step, having removed the history rows of those before it |
| MigrationEngines.MigrationEngine.constructor | src/AriaJournal.Core/Infrastructure/Engines/MigrationEngine.cs:40-47 | the initial migration registered, the version not yet read (also lines 247-251) |
| MigrationEngines.MigrationEngine.NeedsMigration | src/AriaJournal.Core/Infrastructure/Engines/MigrationEngine.cs:38 | true iff the current version is below the latest schema version 1 |
| MigrationEngines.MigrationEngine.ReadCurrentVersion | src/AriaJournal.Core/Infrastructure/Engines/MigrationEngine.cs:26-36 | the first read caches the version from history; later reads return the cache |
| MigrationEngines.MigrationEngine.Register | src/AriaJournal.Core/Infrastructure/Engines/MigrationEngine.cs:119-127 | the list becomes `Registered` of the old one; history and version unchanged |
| MigrationEngines.MigrationEngine.Migrate | src/AriaJournal.Core/Infrastructure/Engines/MigrationEngine.cs:49-117 | nothing to do at the latest version; otherwise pending migrations run ascending, each success recorded and made current, the first failure recorded and returned; the version never goes down |
| MigrationEngines.MigrationEngine.RunPending | src/AriaJournal.Core/Infrastructure/Engines/MigrationEngine.cs:64-107 | history gains exactly the run's rows and the cached version equals the version read back from it |
| MigrationEngines.MigrationEngine.RollBack | src/AriaJournal.Core/Infrastructure/Engines/MigrationEngine.cs:152-203 | a negative target or one not below current fails with Validation unchanged; otherwise the window is undone descending, each removing its row; success sets current to the target, a failure leaves it |
| MigrationEngines.Applied | src/AriaJournal.Core/Infrastructure/Engines/MigrationEngine.cs:72-88 | the history row of a migration that ran: its version and name, successful, no error message |
| MigrationEngines.Failed | src/AriaJournal.Core/Infrastructure/Engines/MigrationEngine.cs:95-100 | the history row of a migration that threw: its version, not successful, the exception's message |
| StateEngines.Default | src/AriaJournal.Core/Infrastructure/Engines/StateEngine.cs:29-37 | `default(T)`: a value only for value types, and then of that type |
| StateEngines.Typed | src/AriaJournal.Core/Infrastructure/Engines/StateEngine.cs:33-37 | `value is T`: the value when it has the type, otherwise the type's default (also lines 91-94, 127-128) |
| StateEngines.Deliver | src/AriaJournal.Core/Infrastructure/Engines/StateEngine.cs:89-95 | a callback gets the new value cast to its type; one subscribed with old values gets both, each cast (also lines 124-131) |
| StateEngines.Deliveries | src/AriaJournal.Core/Infrastructure/Engines/StateEngine.cs:162-174 | one delivery per subscriber, in subscription order |
| StateEngines.Notify | src/AriaJournal.Core/Infrastructure/Engines/StateEngine.cs:158-177 | no key, no deliveries; otherwise each subscriber of the key is called in order |
| StateEngines.RemoveSubscriber | src/AriaJournal.Core/Infrastructure/Engines/StateEngine.cs:105-140 | `list.Remove(wrapper)`: removes the one entry with the id, or nothing when absent; ids stay distinct |
| StateEngines.RemoveSubscriberDistinct | src/AriaJournal.Core/Infrastructure/Engines/StateEngine.cs:105-140 | with distinct ids, no entry with the removed id is left |
| StateEngines.StateEngine.constructor | src/AriaJournal.Core/Infrastructure/Engines/StateEngine.cs:20-24 | empty state, no subscribers |
| StateEngines.StateEngine.Get | src/AriaJournal.Core/Infrastructure/Engines/StateEngine.cs:26-38 | a blank or missing key gives the type's default; otherwise the stored value cast to the type |
| StateEngines.StateEngine.Has | src/AriaJournal.Core/Infrastructure/Engines/StateEngine.cs:52-58 | true iff the key is not blank and is stored |
| StateEngines.StateEngine.GetOrDefault | src/AriaJournal.Core/Infrastructure/Engines/StateEngine.cs:147-151 | the stored value when `Get` finds one, else the given default; for value types always `Get` |
| StateEngines.StateEngine.AllKeys | src/AriaJournal.Core/Infrastructure/Engines/StateEngine.cs:153-156 | exactly the stored keys |
| StateEngines.StateEngine.Set | src/AriaJournal.Core/Infrastructure/Engines/StateEngine.cs:40-50 | a blank key is ignored; otherwise the value is stored, readable back, and the key's subscribers are notified with old and new values |
| StateEngines.StateEngine.Remove | src/AriaJournal.Core/Infrastructure/Engines/StateEngine.cs:60-69 | afterwards the key is absent; a stored key notifies its subscribers with the old value and a null new one |
| StateEngines.StateEngine.Clear | src/AriaJournal.Core/Infrastructure/Engines/StateEngine.cs:71-74 | all values are dropped without notification; subscribers stay |
| StateEngines.StateEngine.Subscribe | src/AriaJournal.Core/Infrastructure/Engines/StateEngine.cs:76-145 | a blank key gives an empty handle and changes nothing; otherwise a new subscriber with a fresh id is appended under the key |
| StateEngines.StateEngine.Unsubscribe | src/AriaJournal.Core/Infrastructure/Engines/StateEngine.cs:99-108 | the key's list loses the subscriber; other keys and the state are unchanged (also lines 134-143) |
| StateEngines.Subscription.constructor | src/AriaJournal.Core/Infrastructure/Engines/StateEngine.cs:187-190 | a handle for one subscriber, not yet disposed |
| StateEngines.Subscription.Dispose | src/AriaJournal.Core/Infrastructure/Engines/StateEngine.cs:192-199 | the first dispose of a real handle removes its subscriber; an empty or disposed handle changes nothing |
| NavigationEngines.Reverse | src/AriaJournal.Core/Infrastructure/Engines/NavigationEngine.cs:50 | `list.Reverse()`: the same length, element i taken from the mirrored position |
| NavigationEngines.ViewNames | src/AriaJournal.Core/Infrastructure/Engines/NavigationEngine.cs:48 | one view name per stack entry, in order |
| NavigationEngines.BackStep | src/AriaJournal.Core/Infrastructure/Engines/NavigationEngine.cs:153-166 | on a coherent stack the entry below the top names another view, and dropping the top leaves a coherent stack topped by it |
| NavigationEngines.NavigationEngine.constructor | src/AriaJournal.Core/Infrastructure/Engines/NavigationEngine.cs:30-35 | no views registered, an empty stack, no current view, no main frame |
| NavigationEngines.NavigationEngine.CanGoBack | src/AriaJournal.Core/Infrastructure/Engines/NavigationEngine.cs:41 | true iff the history has more than one entry |
| NavigationEngines.NavigationEngine.NavigationHistory | src/AriaJournal.Core/Infrastructure/Engines/NavigationEngine.cs:44-52 | the view names of the stack |
| NavigationEngines.NavigationEngine.IsViewRegistered | src/AriaJournal.Core/Infrastructure/Engines/NavigationEngine.cs:192-198 | true iff the name is not blank and a registration has it, ignoring case |
| NavigationEngines.NavigationEngine.Lookup | src/AriaJournal.Core/Infrastructure/Engines/NavigationEngine.cs:33-70 | a registration is found iff the view is registered |
| NavigationEngines.NavigationEngine.RegisteredViews | src/AriaJournal.Core/Infrastructure/Engines/NavigationEngine.cs:200-203 | every name listed is registered, and every registered name is listed up to case |
| NavigationEngines.NavigationEngine.SetMainFrame | src/AriaJournal.Core/Infrastructure/Engines/NavigationEngine.cs:57-60 | the main frame is set; nothing else changes |
| NavigationEngines.NavigationEngine.RegisterView | src/AriaJournal.Core/Infrastructure/Engines/NavigationEngine.cs:168-182 | a blank name throws ArgumentNull and changes nothing; otherwise the name (any case) looks up to the new registration |
| NavigationEngines.NavigationEngine.UnregisterView | src/AriaJournal.Core/Infrastructure/Engines/NavigationEngine.cs:184-190 | afterwards the name is not registered; other names look up as before |
| NavigationEngines.NavigationEngine.ClearHistory | src/AriaJournal.Core/Infrastructure/Engines/NavigationEngine.cs:205-208 | the stack is emptied, so there is no going back; the current view stays |
| NavigationEngines.NavigationEngine.NavigationFailure | src/AriaJournal.Core/Infrastructure/Engines/NavigationEngine.cs:62-95 | navigation fails iff the name is blank (ArgumentNull), no main frame is set, the view is not registered, or the view cannot be created, checked in that order |
| NavigationEngines.NavigationEngine.NavigateTo | src/AriaJournal.Core/Infrastructure/Engines/NavigationEngine.cs:62-151 | a failure changes no state; a success makes the view and parameter current, pushes an entry only when the view changes, and raises the event from the previous view; the stack stays coherent |
| NavigationEngines.NavigationEngine.NavigateBack | src/AriaJournal.Core/Infrastructure/Engines/NavigationEngine.cs:153-166 | nothing happens with one entry or none; otherwise two entries are popped and the one below the top is navigated to, so on success the stack loses exactly its top |
| NavigationEngines.NavigationEngine.PopTwo | src/AriaJournal.Core/Infrastructure/Engines/NavigationEngine.cs:159-163 | the two top entries are removed and the lower one returned |
| RuleEngines.WithoutId | src/AriaJournal.Core/Infrastructure/Engines/RuleEngine.cs:166 | `RemoveAll(r => r.Id == rule.Id)`: exactly the rules with other ids remain |
| RuleEngines.WithoutIdKeepsDistinct | src/AriaJournal.Core/Infrastructure/Engines/RuleEngine.cs:166 | removing an id keeps ids distinct |
| RuleEngines.Registered | src/AriaJournal.Core/Infrastructure/Engines/RuleEngine.cs:165-167 | the new rule replaces any rule with its id and goes last |
| RuleEngines.RegisteredKeepsDistinct | src/AriaJournal.Core/Infrastructure/Engines/RuleEngine.cs:165-167 | a form's rules keep distinct ids |
| RuleEngines.OnTrigger | src/AriaJournal.Core/Infrastructure/Engines/RuleEngine.cs:65-66 | exactly the rules whose trigger matches, ignoring case |
| RuleEngines.ApplicableRules | src/AriaJournal.Core/Infrastructure/Engines/RuleEngine.cs:65-68 | exactly the rules with a matching trigger run, and a lower priority runs first. Stable: items with equal keys keep their input order and repetitions. |
| RuleEngines.ContainsHead | src/AriaJournal.Core/Infrastructure/Engines/RuleEngine.cs:352-364 | a pattern found in a text has its first character in the text |
| RuleEngines.ReplaceRemovesChar | src/AriaJournal.Core/Infrastructure/Engines/RuleEngine.cs:360 | replacing a character removes every occurrence of it |
| RuleEngines.ReplaceKeepsAbsent | src/AriaJournal.Core/Infrastructure/Engines/RuleEngine.cs:355-363 | a replacement that does not contain a character does not introduce it |
| RuleEngines.NormalizeRemovesBang | src/AriaJournal.Core/Infrastructure/Engines/RuleEngine.cs:352-364 | a normalized condition has no `!` left |
| RuleEngines.ReplaceWithoutHead | src/AriaJournal.Core/Infrastructure/Engines/RuleEngine.cs:355-363 | a text without the pattern's first character is unchanged |
| RuleEngines.NormalizeIdentity | src/AriaJournal.Core/Infrastructure/Engines/RuleEngine.cs:352-364 | a condition with none of the operators or literals normalized is unchanged |
| RuleEngines.NoPlaceholdersUnchanged | src/AriaJournal.Core/Infrastructure/Engines/RuleEngine.cs:366-378 | a template without brackets or braces is unchanged by substitution |
| RuleEngines.SubstitutesBracketed | src/AriaJournal.Core/Infrastructure/Engines/RuleEngine.cs:373 | `[key]` becomes the value's text (empty for null) |
| RuleEngines.SubstitutesBraced | src/AriaJournal.Core/Infrastructure/Engines/RuleEngine.cs:374 | `{key}` becomes the value's text (empty for null) |
| RuleEngines.EvaluateCondition | src/AriaJournal.Core/Infrastructure/Engines/RuleEngine.cs:86-122 | a blank condition holds; otherwise true iff the normalized condition evaluates to true (errors and non-booleans are false) |
| RuleEngines.EvaluateExpression | src/AriaJournal.Core/Infrastructure/Engines/RuleEngine.cs:124-157 | a blank expression has no value; any other is evaluated after normalization, and an expression with nothing to normalize is evaluated as written |
| RuleEngines.SetValueSubstitutes | src/AriaJournal.Core/Infrastructure/Engines/RuleEngine.cs:296-309 | the value set is the rule's value with the form's variables substituted, none for none |
| RuleEngines.ExecuteRule | src/AriaJournal.Core/Infrastructure/Engines/RuleEngine.cs:204-342 | nothing unless the condition holds, the target is given and a renderer exists; then show/hide set visibility, enable/disable set enablement, setvalue writes the value with every placeholder substituted, calculate writes the evaluated expression (nothing for a blank one), validate shows the message or the default, clear writes null, and required, optional or an unknown action do nothing |
| RuleEngines.TargetsOfTail | src/AriaJournal.Core/Infrastructure/Engines/RuleEngine.cs:73-83 | a target named by a later rule is named by the list |
| RuleEngines.EffectsTargets | src/AriaJournal.Core/Infrastructure/Engines/RuleEngine.cs:73-83 | the first rule's effects and the rest's all name some rule's target |
| RuleEngines.RulesEffects | src/AriaJournal.Core/Infrastructure/Engines/RuleEngine.cs:73-83 | rules run in order; no renderer means no effects, and each effect is on a target some rule names |
| RuleEngines.RuleEngine.constructor | src/AriaJournal.Core/Infrastructure/Engines/RuleEngine.cs:29-36 | no rules registered; exactly the sixteen built-in functions (also lines 380-507) |
| RuleEngines.RuleEngine.RegisterFunction | src/AriaJournal.Core/Infrastructure/Engines/RuleEngine.cs:194-200 | a blank name changes nothing; otherwise the name resolves to the function in any case, and other names resolve as before |
| RuleEngines.RuleEngine.RegisterRule | src/AriaJournal.Core/Infrastructure/Engines/RuleEngine.cs:159-169 | a blank form id changes nothing; otherwise the form's rules become `Registered` of the old ones; other forms are unchanged |
| RuleEngines.RuleEngine.UnregisterRules | src/AriaJournal.Core/Infrastructure/Engines/RuleEngine.cs:171-177 | the form has no registered rules; other forms are unchanged |
| RuleEngines.RuleEngine.GetRules | src/AriaJournal.Core/Infrastructure/Engines/RuleEngine.cs:179-192 | the schema's rules followed by the registered ones |
| RuleEngines.RuleEngine.ApplyRules | src/AriaJournal.Core/Infrastructure/Engines/RuleEngine.cs:46-84 | a blank form id does nothing; otherwise the effects of the applicable rules run in priority order; no renderer, no effects |
| RuleEngines.NonNull | src/AriaJournal.Core/Infrastructure/Engines/RuleEngine.cs:392 | `Where(a => a != null)`: exactly the present arguments |
| RuleEngines.MinOf | src/AriaJournal.Core/Infrastructure/Engines/RuleEngine.cs:392 | an element no greater than any other |
| RuleEngines.MaxOf | src/AriaJournal.Core/Infrastructure/Engines/RuleEngine.cs:399 | an element no less than any other |
| RuleEngines.BuiltInMin | src/AriaJournal.Core/Infrastructure/Engines/RuleEngine.cs:389-393 | 0 with no arguments; none (an exception) when all are null; otherwise the least present argument |
| RuleEngines.BuiltInMax | src/AriaJournal.Core/Infrastructure/Engines/RuleEngine.cs:396-400 | 0 with no arguments; none when all are null; otherwise the greatest present argument |
| RuleEngines.BuiltInAvg | src/AriaJournal.Core/Infrastructure/Engines/RuleEngine.cs:410-414 | none (an exception) exactly when every argument is null |
| RuleEngines.SumBounds | src/AriaJournal.Core/Infrastructure/Engines/RuleEngine.cs:406-413 | a sum of n values between lo and hi lies between n·lo and n·hi |
| RuleEngines.AvgBetweenMinAndMax | src/AriaJournal.Core/Infrastructure/Engines/RuleEngine.cs:389-414 | the average lies between the minimum and the maximum |
| RuleEngines.AverageBetween | src/AriaJournal.Core/Infrastructure/Engines/RuleEngine.cs:413 | an average of values between lo and hi lies between them |
| RuleEngines.DivBetween | src/AriaJournal.Core/Infrastructure/Engines/RuleEngine.cs:413 | dividing a sum between n·lo and n·hi by n gives a value between lo and hi |
| RuleEngines.BuiltInAbs | src/AriaJournal.Core/Infrastructure/Engines/RuleEngine.cs:426-430 | non-negative, and the first argument or its negation |
| RuleEngines.BuiltInPips | src/AriaJournal.Core/Infrastructure/Engines/RuleEngine.cs:462-469 | 0 with fewer than two arguments; otherwise the distance divided by the pip size (0.0001 by default), none for a zero size |
| RuleEngines.ProfitDirection | src/AriaJournal.Core/Infrastructure/Engines/RuleEngine.cs:472-482 | a buy earns (exit − entry)·volume·100000 and a sell the negation |
| RuleEngines.BuiltInPercent | src/AriaJournal.Core/Infrastructure/Engines/RuleEngine.cs:485-492 | value as a percentage of total; 0 for a zero total or fewer than two arguments |
| RuleEngines.BuiltInRR | src/AriaJournal.Core/Infrastructure/Engines/RuleEngine.cs:495-506 | non-negative; 0 with fewer than three arguments or zero risk |
| RuleEngines.RRIsRoundedRatio | src/AriaJournal.Core/Infrastructure/Engines/RuleEngine.cs:502-505 | with nonzero risk the result is within 0.005 of reward over risk |
| RuleEngines.ReplaceVariables | src/AriaJournal.Core/Infrastructure/Engines/RuleEngine.cs:366-378 | an empty context, or a template without `[` or `{`, leaves the template unchanged |
| RuleEngines.Num | src/AriaJournal.Core/Infrastructure/Engines/RuleEngine.cs:406 | a null argument adds nothing to a sum; any other is its own value |
| RuleEngines.BuiltInSum | src/AriaJournal.Core/Infrastructure/Engines/RuleEngine.cs:403-408 | 0 with no arguments; otherwise the first argument (null as 0) plus the sum of the rest |
| Linq.Where | src/AriaJournal.Core/Infrastructure/Engines/QueryEngine.cs:134-136 | `query.Where`: exactly the rows satisfying the predicate, never more rows than given (order and repetitions: `Linq.WhereIsSelection`) |
| QueryEngines.ApplyFilters | src/AriaJournal.Core/Infrastructure/Engines/QueryEngine.cs:110-137 | exactly the rows passing the combined filter; no filters leave the rows unchanged |
| QueryEngines.NothingBuiltKeepsAll | src/AriaJournal.Core/Infrastructure/Engines/QueryEngine.cs:119-136 | when no filter builds an expression there is nothing to combine, and the query is returned as is |
| QueryEngines.AllAndIsConjunction | src/AriaJournal.Core/Infrastructure/Engines/QueryEngine.cs:127-129 | when every later filter's logic is And, a row passes iff every built filter accepts it (also lines 272-282) |
| QueryEngines.AllOrIsDisjunction | src/AriaJournal.Core/Infrastructure/Engines/QueryEngine.cs:127-130 | when every later filter's logic is Or, a row passes iff some built filter accepts it (also lines 284-294) |
| QueryEngines.SomeBuiltGivesExpression | src/AriaJournal.Core/Infrastructure/Engines/QueryEngine.cs:119-125 | one built filter is enough for a combined expression |
| QueryEngines.LeftFoldNoPrecedence | src/AriaJournal.Core/Infrastructure/Engines/QueryEngine.cs:117-132 | filters combine left to right with no precedence: a Or b And c is (a or b) and c |
| QueryEngines.ApplySort | src/AriaJournal.Core/Infrastructure/Engines/QueryEngine.cs:300-322 | a permutation of the rows; unchanged for a blank or unknown column; otherwise ordered by the column ascending or descending |
| QueryEngines.ClampPage | src/AriaJournal.Core/Infrastructure/Engines/QueryEngine.cs:330 | a page below 1 becomes 1 |
| QueryEngines.ClampSize | src/AriaJournal.Core/Infrastructure/Engines/QueryEngine.cs:331 | a size below 1 becomes 50 |
| QueryEngines.PageStart | src/AriaJournal.Core/Infrastructure/Engines/QueryEngine.cs:333 | the `int` product (page - 1) x size: a 32-bit value, equal to the rows of the earlier pages and non-negative whenever that product fits |
| QueryEngines.RowsSkipped | src/AriaJournal.Core/Infrastructure/Engines/QueryEngine.cs:333 | `Skip` of a non-negative count skips that many rows (a negative count skips none) |
| QueryEngines.PageStartOverflows | src/AriaJournal.Core/Infrastructure/Engines/QueryEngine.cs:328-334 | page 2147483647 of size 50 wraps the skip count to -100 and shows the same rows as page 1 |
| QueryEngines.MulNonNegative | src/AriaJournal.Core/Infrastructure/Engines/QueryEngine.cs:333 | the product of two non-negative numbers, here (page - 1) and size, is non-negative |
| QueryEngines.PageShape | src/AriaJournal.Core/Infrastructure/Engines/QueryEngine.cs:333 | `Skip(start).Take(size)` keeps as many rows as remain after the start, up to the size, each the row at the start plus its position |
| QueryEngines.ApplyPagination | src/AriaJournal.Core/Infrastructure/Engines/QueryEngine.cs:328-334 | a page below 1 is page 1 and a size below 1 is 50; at most one page of rows, each the row at the (wrapped) skip count plus its position, and as many as remain |
| QueryEngines.ByNameIsPreorder | src/AriaJournal.Core/Infrastructure/Engines/QueryEngine.cs:366 | ordering templates by name is a total preorder |
| QueryEngines.QueryEngine.constructor | src/AriaJournal.Core/Infrastructure/Engines/QueryEngine.cs:97-106 | no templates |
| QueryEngines.QueryEngine.SaveTemplate | src/AriaJournal.Core/Infrastructure/Engines/QueryEngine.cs:340-353 | the template is stored under its id with the update time set, replacing any earlier one |
| QueryEngines.QueryEngine.DeleteTemplate | src/AriaJournal.Core/Infrastructure/Engines/QueryEngine.cs:369-378 | success iff the id was stored, and then it is removed; otherwise NotFound and unchanged |
| QueryEngines.QueryEngine.GetTemplates | src/AriaJournal.Core/Infrastructure/Engines/QueryEngine.cs:355-367 | exactly the templates of the category (all when none is given), each once, ordered by name |
| QueryEngines.QueryEngine.ApplyTemplate | src/AriaJournal.Core/Infrastructure/Engines/QueryEngine.cs:380-393 | an unknown id leaves the rows; otherwise its filters, then its sort when it has a sort column |
| QueryEngines.PickTemplates | src/AriaJournal.Core/Infrastructure/Engines/QueryEngine.cs:359-364 | exactly the stored templates of the category, each once |
| QueryEngines.SortedTemplates | src/AriaJournal.Core/Infrastructure/Engines/QueryEngine.cs:366 | ordering by name keeps the same templates, each once, in name order |
| QueryEngines.NoRepeatedTemplate | src/AriaJournal.Core/Infrastructure/Engines/QueryEngine.cs:359-366 | a list of distinct ids holds each template at most once |
| RecoveryKeys.Clean | src/AriaJournal.Core/Infrastructure/Security/RecoveryKeyGenerator.cs:52 | the key without dashes, upper-cased: no dash and no longer than the key (also lines 85, 108) |
| RecoveryKeys.CleanIsReplaceThenUpper | src/AriaJournal.Core/Infrastructure/Security/RecoveryKeyGenerator.cs:85 | cleaning is `Replace("-", "")` followed by `ToUpperInvariant` |
| RecoveryKeys.Groups | src/AriaJournal.Core/Infrastructure/Security/RecoveryKeyGenerator.cs:91-95 | groups of one to four characters |
| RecoveryKeys.FormatKey | src/AriaJournal.Core/Infrastructure/Security/RecoveryKeyGenerator.cs:80-98 | the loop computes the formatted key |
| RecoveryKeys.SplitIntoGroups | src/AriaJournal.Core/Infrastructure/Security/RecoveryKeyGenerator.cs:91-95 | the grouping loop computes the groups of four |
| RecoveryKeys.GroupsStep | src/AriaJournal.Core/Infrastructure/Security/RecoveryKeyGenerator.cs:92-94 | for a length that is a multiple of four, each step takes exactly four characters |
| RecoveryKeys.WithoutAppend | src/AriaJournal.Core/Infrastructure/Security/RecoveryKeyGenerator.cs:85 | removing a character distributes over concatenation |
| RecoveryKeys.WithoutAbsent | src/AriaJournal.Core/Infrastructure/Security/RecoveryKeyGenerator.cs:85 | removing an absent character changes nothing |
| RecoveryKeys.AllowedChar | src/AriaJournal.Core/Infrastructure/Security/RecoveryKeyGenerator.cs:19 | every allowed character is an upper-case letter or a digit |
| RecoveryKeys.AllowedUpperOrDigits | src/AriaJournal.Core/Infrastructure/Security/RecoveryKeyGenerator.cs:19 | a text of allowed characters is upper-case letters and digits |
| RecoveryKeys.CleanOfAllowed | src/AriaJournal.Core/Infrastructure/Security/RecoveryKeyGenerator.cs:85 | cleaning a text of allowed characters changes nothing |
| RecoveryKeys.WithoutKeepsBlank | src/AriaJournal.Core/Infrastructure/Security/RecoveryKeyGenerator.cs:82-85 | removing a character from a blank text leaves it blank |
| RecoveryKeys.CleanOfBlank | src/AriaJournal.Core/Infrastructure/Security/RecoveryKeyGenerator.cs:82-85 | a blank key cleans to a blank text |
| RecoveryKeys.CleanIdempotent | src/AriaJournal.Core/Infrastructure/Security/RecoveryKeyGenerator.cs:85 | cleaning twice is cleaning once |
| RecoveryKeys.GroupsOfFours | src/AriaJournal.Core/Infrastructure/Security/RecoveryKeyGenerator.cs:91-95 | a length that is a multiple of four splits into that many groups of four, in order |
| RecoveryKeys.JoinedGroupsWithoutDashes | src/AriaJournal.Core/Infrastructure/Security/RecoveryKeyGenerator.cs:97 | joining the groups with dashes and removing the dashes gives back the text |
| RecoveryKeys.JoinedGroupsShape | src/AriaJournal.Core/Infrastructure/Security/RecoveryKeyGenerator.cs:97 | the joined key has one dash between consecutive groups, the first after four characters |
| RecoveryKeys.FormatKeyCases | src/AriaJournal.Core/Infrastructure/Security/RecoveryKeyGenerator.cs:80-98 | a blank key formats to empty; a key whose clean form is not 32 characters is returned as is; otherwise the clean form in dash-separated groups of four |
| RecoveryKeys.FormattedKeyClean | src/AriaJournal.Core/Infrastructure/Security/RecoveryKeyGenerator.cs:80-98 | formatting a non-blank key keeps it non-blank and keeps its clean form |
| RecoveryKeys.FormatKeyIdempotent | src/AriaJournal.Core/Infrastructure/Security/RecoveryKeyGenerator.cs:80-98 | formatting twice is formatting once |
| RecoveryKeys.IsValidFormatIgnoresFormatting | src/AriaJournal.Core/Infrastructure/Security/RecoveryKeyGenerator.cs:103-114 | validity is the same for a key, its clean form and its formatted form |
| RecoveryKeys.CleanKeepsValidity | src/AriaJournal.Core/Infrastructure/Security/RecoveryKeyGenerator.cs:103-114 | a key is valid iff its clean form is |
| RecoveryKeys.RawKey | src/AriaJournal.Core/Infrastructure/Security/RecoveryKeyGenerator.cs:34-37 | 32 characters, each from the allowed set (a random byte modulo 32) |
| RecoveryKeys.Generate | src/AriaJournal.Core/Infrastructure/Security/RecoveryKeyGenerator.cs:24-41 | the formatted raw key: valid and 39 characters long |
| RecoveryKeys.GeneratedKeyValid | src/AriaJournal.Core/Infrastructure/Security/RecoveryKeyGenerator.cs:24-41 | every generated key passes the format check and has 32 characters plus 7 dashes (also lines 103-114) |
| RecoveryKeys.Hash | src/AriaJournal.Core/Infrastructure/Security/RecoveryKeyGenerator.cs:46-56 | a blank key throws; otherwise the bcrypt hash of the clean key |
| RecoveryKeys.Verify | src/AriaJournal.Core/Infrastructure/Security/RecoveryKeyGenerator.cs:61-75 | false for a blank key or hash |
| RecoveryKeys.VerifyIgnoresFormatting | src/AriaJournal.Core/Infrastructure/Security/RecoveryKeyGenerator.cs:61-98 | a key verifies exactly when its formatted form does |
| PasswordHashers.StrengthValue | src/AriaJournal.Core/Infrastructure/Security/PasswordHasher.cs:116-123 | the enum's values run from 1 (VeryWeak) to 5 (VeryStrong) |
| PasswordHashers.LengthScore | src/AriaJournal.Core/Infrastructure/Security/PasswordHasher.cs:86-88 | one point each for lengths of at least 6, 8 and 12 |
| PasswordHashers.Score | src/AriaJournal.Core/Infrastructure/Security/PasswordHasher.cs:83-100 | between 0 and 7 points |
| PasswordHashers.CheckStrength | src/AriaJournal.Core/Infrastructure/Security/PasswordHasher.cs:78-110 | the band of the password's score; a blank password is VeryWeak |
| PasswordHashers.BandMonotone | src/AriaJournal.Core/Infrastructure/Security/PasswordHasher.cs:102-109 | a higher score never gives a weaker band |
| PasswordHashers.BandsOfScores | src/AriaJournal.Core/Infrastructure/Security/PasswordHasher.cs:102-109 | scores up to 2 are VeryWeak, 3 Weak, 4 Medium, 5 Strong, 6 and above VeryStrong |
| PasswordHashers.LengthScoreMonotone | src/AriaJournal.Core/Infrastructure/Security/PasswordHasher.cs:86-88 | a longer password never loses length points |
| PasswordHashers.StrengthMonotoneUnderAppend | src/AriaJournal.Core/Infrastructure/Security/PasswordHasher.cs:83-109 | appending characters never lowers the score or the strength |
| PasswordHashers.StrongNeedsLength | src/AriaJournal.Core/Infrastructure/Security/PasswordHasher.cs:83-109 | Strong needs at least 6 characters and VeryStrong at least 8 |
| PasswordHashers.FullScoreIsVeryStrong | src/AriaJournal.Core/Infrastructure/Security/PasswordHasher.cs:83-109 | a password of 12 or more characters with an upper, a lower, a digit and a symbol scores 7 and is VeryStrong |
| PasswordHashers.NeedsRehash | src/AriaJournal.Core/Infrastructure/Security/PasswordHasher.cs:50-73 | a blank hash, or one with fewer than four dollar-separated parts, needs rehashing |
| PasswordHashers.ParseTwoDigits | src/AriaJournal.Core/Infrastructure/Security/PasswordHasher.cs:62 | a two-digit cost parses back to its number |
| PasswordHashers.SplitOfPair | src/AriaJournal.Core/Infrastructure/Security/PasswordHasher.cs:58 | splitting at the dollar sign separates the version from the cost |
| PasswordHashers.SplitOfHash | src/AriaJournal.Core/Infrastructure/Security/PasswordHasher.cs:58 | a bcrypt hash splits into an empty part, the version, the cost and the rest |
| PasswordHashers.RehashByWorkFactor | src/AriaJournal.Core/Infrastructure/Security/PasswordHasher.cs:16 | a bcrypt hash needs rehashing iff its cost is below the work factor 12 (also lines 50-73) |
| PasswordHashers.Hash | src/AriaJournal.Core/Infrastructure/Security/PasswordHasher.cs:21-27 | a blank password throws; otherwise the bcrypt hash at work factor 12 |
| PasswordHashers.Verify | src/AriaJournal.Core/Infrastructure/Security/PasswordHasher.cs:32-45 | true iff neither is blank and bcrypt accepts the pair |
| PasswordHashers.Band | src/AriaJournal.Core/Infrastructure/Security/PasswordHasher.cs:102-109 | scores up to 2 are VeryWeak, 6 and above VeryStrong, and 3, 4, 5 are Weak, Medium, Strong |
| PasswordHashers.Strength | src/AriaJournal.Core/Infrastructure/Security/PasswordHasher.cs:78-110 | a blank password is VeryWeak; any other gets the band of its score |
| TradeValidators.Messages | src/AriaJournal.Core/Application/Validators/TradeValidator.cs:17-113 | one message per failing rule, in order |
| TradeValidators.Check | src/AriaJournal.Core/Application/Validators/TradeValidator.cs:21-111 | a rule contributes a failure iff its condition does not hold |
| TradeValidators.FieldErrors | src/AriaJournal.Core/Application/Validators/TradeValidator.cs:21-111 | no errors iff every shared rule holds; at most 22 |
| TradeValidators.IdentityErrors | src/AriaJournal.Core/Application/Validators/TradeValidator.cs:21-30 | no errors iff an account is selected, the symbol is non-blank and at most 20 characters, and the direction is Buy or Sell |
| TradeValidators.EntryErrors | src/AriaJournal.Core/Application/Validators/TradeValidator.cs:31-41 | no errors iff 0 < volume ≤ 100, the entry price is positive, the entry time is set and (on create) not later than one day after the validator was built |
| TradeValidators.LevelErrors | src/AriaJournal.Core/Application/Validators/TradeValidator.cs:43-73 | no errors iff a stop loss lies below the entry for a buy and above it for a sell, and a take profit the other way |
| TradeValidators.ExitErrors | src/AriaJournal.Core/Application/Validators/TradeValidator.cs:75-97 | no errors iff an exit time is not before the entry, an exit price is positive, a rating is 1 to 5 and the commission is not negative |
| TradeValidators.NotesErrors | src/AriaJournal.Core/Application/Validators/TradeValidator.cs:99-112 | no errors iff the notes keep their length limits (2000, and 1000 for the entry reason) |
| TradeValidators.CreateErrors | src/AriaJournal.Core/Application/Validators/TradeValidator.cs:17-114 | no errors iff the shared rules hold with the entry time bounded by creation time plus one day |
| TradeValidators.UpdateErrors | src/AriaJournal.Core/Application/Validators/TradeValidator.cs:119-218 | no errors iff the id is positive and the shared rules hold, with no future bound |
| TradeValidators.CloseErrors | src/AriaJournal.Core/Application/Validators/TradeValidator.cs:223-236 | no errors iff the trade id and exit price are positive and the exit time is set |
| TradeValidators.AccountErrors | src/AriaJournal.Core/Application/Validators/TradeValidator.cs:241-266 | no errors iff name and broker are non-blank and at most 100 characters, the type is defined, the balance is not negative, the currency is non-blank and at most 10 characters, and leverage is 1 to 3000 |
| TradeValidators.CreateValidIsUpdateValid | src/AriaJournal.Core/Application/Validators/TradeValidator.cs:17-218 | a valid creation form with a positive id is a valid update form |
| LoginValidators.LoginErrors | src/AriaJournal.Core/Application/Validators/LoginValidator.cs:15-28 | no errors iff the username is non-blank with 3 to 50 characters and the password non-blank with at least 6 |
| LoginValidators.PatternImpliesNotEmpty | src/AriaJournal.Core/Application/Validators/LoginValidator.cs:41 | a username matching `^[a-zA-Z0-9_]+$` is not blank |
| LoginValidators.PatternEndAnchor | src/AriaJournal.Core/Application/Validators/LoginValidator.cs:41 | `^[a-zA-Z0-9_]+$` accepts a word followed by one line feed (the .NET `$`), exactly when the word itself matches, and never two line feeds |
| LoginValidators.RegisterErrors | src/AriaJournal.Core/Application/Validators/LoginValidator.cs:33-52 | no errors iff the username has 3 to 50 characters and is letters, digits or underscores, optionally followed by one line feed, the password is non-blank with 6 to 100 characters, and the confirmation equals it |
| LoginValidators.ChangePasswordErrors | src/AriaJournal.Core/Application/Validators/LoginValidator.cs:57-73 | no errors iff the current password is non-blank, the new one is non-blank, at least 6 characters and different, and the confirmation equals it |
| LoginValidators.RecoverPasswordErrors | src/AriaJournal.Core/Application/Validators/LoginValidator.cs:78-97 | no errors iff the username is non-blank, the key is non-blank with 32 to 40 characters, the new password is non-blank with at least 6, and the confirmation equals it |
| TradeEntry.DirectionOfIndex | src/AriaJournal.Core/UI/ViewModels/TradeEntryViewModel.cs:96 | index 0 is Buy and every other index Sell |
| TradeEntry.PipValue | src/AriaJournal.Core/UI/ViewModels/TradeEntryViewModel.cs:750-770 | the pip size is positive |
| TradeEntry.PipValueProperties | src/AriaJournal.Core/UI/ViewModels/TradeEntryViewModel.cs:750-770 | one of 0.0001, 0.01, 0.1 or 1, and the same for the symbol in either case |
| TradeEntry.UpperOfLower | src/AriaJournal.Core/UI/ViewModels/TradeEntryViewModel.cs:755 | upper-casing after lower-casing is upper-casing |
| TradeEntry.PipValueOfSameUpper | src/AriaJournal.Core/UI/ViewModels/TradeEntryViewModel.cs:755 | symbols equal up to case have the same pip size |
| TradeEntry.PipValueCases | src/AriaJournal.Core/UI/ViewModels/TradeEntryViewModel.cs:750-770 | empty symbol 0.0001; JPY 0.01; else XAU or GOLD 0.1; else XAG or SILVER 0.01; else US30, SPX or NAS 1; else 0.0001 |
| TradeEntry.ParseNullableDecimal | src/AriaJournal.Core/UI/ViewModels/TradeEntryViewModel.cs:802-807 | null for blank text, otherwise the parsed number when it parses |
| TradeEntry.ParseDecimalAgree | src/AriaJournal.Core/UI/ViewModels/TradeEntryViewModel.cs:795-807 | the zero-defaulting parse is the nullable parse with null read as 0 |
| TradeEntry.ScaledMoveSign | src/AriaJournal.Core/UI/ViewModels/TradeEntryViewModel.cs:680-684 | scaling a move by a positive pip size and volume keeps its sign |
| TradeEntry.ProfitFollowsMove | src/AriaJournal.Core/UI/ViewModels/TradeEntryViewModel.cs:663-689 | zero without a parsable entry, exit and positive volume and entry; otherwise, before commission and swap, the sign of the move in the trade's favour |
| TradeEntry.PipsProperties | src/AriaJournal.Core/UI/ViewModels/TradeEntryViewModel.cs:691-709 | a sell's pips are the buy's negated, and within 0.05 of the exact move in pips |
| TradeEntry.RiskRewardCases | src/AriaJournal.Core/UI/ViewModels/TradeEntryViewModel.cs:711-748 | null without positive, differing entry and stop loss; measured to the exit price when positive, else the take profit, else null; within 0.005 of the exact ratio |
| TradeEntry.ParseTimeOfDay | src/AriaJournal.Core/UI/ViewModels/TradeEntryViewModel.cs:775-788 | a parsed time of day lies within one day |
| TradeEntry.SplitDigitPair | src/AriaJournal.Core/UI/ViewModels/TradeEntryViewModel.cs:775 | an `hh:mm` text is already trimmed and splits at the colon into its two parts |
| TradeEntry.TrimOfDigitPair | src/AriaJournal.Core/UI/ViewModels/TradeEntryViewModel.cs:775 | an `hh:mm` text is already trimmed |
| TradeEntry.SplitOfDigitPair | src/AriaJournal.Core/UI/ViewModels/TradeEntryViewModel.cs:775 | an `hh:mm` text splits into hours and minutes |
| TradeEntry.ParseHourMinute | src/AriaJournal.Core/UI/ViewModels/TradeEntryViewModel.cs:775 | `hh:mm` with hours below 24 and minutes below 60 parses to that many seconds |
| TradeEntry.TimeOfDayRoundTrip | src/AriaJournal.Core/UI/ViewModels/TradeEntryViewModel.cs:775 | parsing a formatted hour and minute gives back their seconds |
| TradeEntry.ExitDateTime | src/AriaJournal.Core/UI/ViewModels/TradeEntryViewModel.cs:782-793 | an exit time exactly when an exit date is chosen |
| TradeEntry.FormProblemIffNotAcceptable | src/AriaJournal.Core/UI/ViewModels/TradeEntryViewModel.cs:568-612 | no problem iff the form is acceptable; the symbol problem is reported exactly for a blank symbol |
| TradeEntry.EmptyDoesNotParse | src/AriaJournal.Core/UI/ViewModels/TradeEntryViewModel.cs:575-585 | the empty text does not parse as a number |
| TradeEntry.ProblemIffNotAcceptable | src/AriaJournal.Core/UI/ViewModels/TradeEntryViewModel.cs:568-612 | on parsed values: no problem iff symbol, volume, entry, date and the stop loss's side are acceptable, checked in that order |
| TradeEntry.WithBox | src/AriaJournal.Core/UI/ViewModels/TradeEntryViewModel.cs:99-207 | setting one numeric box changes only that box |
| TradeEntry.ClearedFormHasNoFigures | src/AriaJournal.Core/UI/ViewModels/TradeEntryViewModel.cs:614-654 | a cleared form shows no profit, pips or ratio |
| TradeEntry.FormInput | src/AriaJournal.Core/UI/ViewModels/TradeEntryViewModel.cs:507-535 | the DTO fields come from the boxes: symbol, direction, parsed numbers defaulting to 0, and a rating only when one is chosen |
| TradeEntry.CreateDto | src/AriaJournal.Core/UI/ViewModels/TradeEntryViewModel.cs:507-535 | the create DTO is closed iff an exit price and exit date are given; no custom fields |
| TradeEntry.UpdateDto | src/AriaJournal.Core/UI/ViewModels/TradeEntryViewModel.cs:537-566 | the update DTO carries the trade id and is closed when the form was closed or an exit price parses |
| TradeEntry.TradeEntryViewModel.constructor | src/AriaJournal.Core/UI/ViewModels/TradeEntryViewModel.cs:56-68 | a new trade with a cleared form, not loading, no error |
| TradeEntry.TradeEntryViewModel.CalculateAll | src/AriaJournal.Core/UI/ViewModels/TradeEntryViewModel.cs:656-661 | the shown figures are those of the current form |
| TradeEntry.TradeEntryViewModel.SetSymbol | src/AriaJournal.Core/UI/ViewModels/TradeEntryViewModel.cs:76-80 | the symbol is stored upper-cased, null as empty |
| TradeEntry.TradeEntryViewModel.SetDirectionIndex | src/AriaJournal.Core/UI/ViewModels/TradeEntryViewModel.cs:82-94 | the index is stored; figures are recalculated only when it changed and no trade is loading |
| TradeEntry.TradeEntryViewModel.SetNumericText | src/AriaJournal.Core/UI/ViewModels/TradeEntryViewModel.cs:99-207 | the box is stored; figures are recalculated only when it changed and no trade is loading |
| TradeEntry.TradeEntryViewModel.SetRatingButton | src/AriaJournal.Core/UI/ViewModels/TradeEntryViewModel.cs:256-270 | checking button k makes k the rating and only button k checked; unchecking changes nothing |
| TradeEntry.TradeEntryViewModel.ValidateForm | src/AriaJournal.Core/UI/ViewModels/TradeEntryViewModel.cs:568-612 | the error shown is the form's first problem, and the form is valid iff there is none |
| TradeEntry.TradeEntryViewModel.ClearForm | src/AriaJournal.Core/UI/ViewModels/TradeEntryViewModel.cs:614-654 | the form, rating and figures return to the cleared state for a new trade |
| TradeEntry.TradeEntryViewModel.SetParameterNew | src/AriaJournal.Core/UI/ViewModels/TradeEntryViewModel.cs:376-401 | without a trade id the page is a cleared new trade |
| TradeEntry.TradeEntryViewModel.BuildCreateDto | src/AriaJournal.Core/UI/ViewModels/TradeEntryViewModel.cs:507-535 | the create DTO of the current form |
| TradeEntry.TradeEntryViewModel.BuildUpdateDto | src/AriaJournal.Core/UI/ViewModels/TradeEntryViewModel.cs:537-566 | the update DTO of the current form and trade id |
| TradeEntry.ProfitLoss | src/AriaJournal.Core/UI/ViewModels/TradeEntryViewModel.cs:663-689 | 0 without a positive entry and volume and an exit; otherwise (result + commission + swap) x pip value is the signed price move x volume x 10 |
| TradeEntry.Pips | src/AriaJournal.Core/UI/ViewModels/TradeEntryViewModel.cs:691-709 | 0 without a positive entry and an exit; otherwise within 0.05 of the signed price move divided by the pip value |
| TradeEntry.RiskReward | src/AriaJournal.Core/UI/ViewModels/TradeEntryViewModel.cs:711-748 | present iff entry and stop loss are positive and differ, and a positive exit or take profit is given |
| TradeEntry.EntryDateTime | src/AriaJournal.Core/UI/ViewModels/TradeEntryViewModel.cs:772-780 | falls within the day of the entry date (today when none); exactly that day's start when the time text does not parse |
| DataGrids.Filtered | src/AriaJournal.Core/UI/Controls/DynamicDataGrid.xaml.cs:482-504 | never more rows than given |
| DataGrids.FilteredRows | src/AriaJournal.Core/UI/Controls/DynamicDataGrid.xaml.cs:482-504 | exactly the rows passing every active filter, as the subsequence of the input at the passing positions (order and repetitions kept); no filters keep all rows |
| DataGrids.LowerOfUpper | src/AriaJournal.Core/UI/Controls/DynamicDataGrid.xaml.cs:494-495 | lower-casing after upper-casing is lower-casing |
| DataGrids.FilterIgnoresCase | src/AriaJournal.Core/UI/Controls/DynamicDataGrid.xaml.cs:494-497 | a filter text matches the same rows in upper or lower case |
| DataGrids.EmptyFilterKeepsAll | src/AriaJournal.Core/UI/Controls/DynamicDataGrid.xaml.cs:484-497 | an empty filter text and an empty filter set keep every row |
| DataGrids.FewerFiltersKeepMore | src/AriaJournal.Core/UI/Controls/DynamicDataGrid.xaml.cs:486-501 | a row passing a filter set passes any subset of it |
| DataGrids.Sorted | src/AriaJournal.Core/UI/Controls/DynamicDataGrid.xaml.cs:537-544 | as many rows as given |
| DataGrids.SortedOrder | src/AriaJournal.Core/UI/Controls/DynamicDataGrid.xaml.cs:537-544 | a permutation; unchanged without a sort column; otherwise ordered by the column ascending or descending. Stable: items with equal keys keep their input order and repetitions. |
| DataGrids.Toggled | src/AriaJournal.Core/UI/Controls/DynamicDataGrid.xaml.cs:523-535 | the column becomes the sort column; the same column flips the direction, a new one sorts ascending |
| DataGrids.ToggleTwice | src/AriaJournal.Core/UI/Controls/DynamicDataGrid.xaml.cs:523-535 | toggling the same column twice restores the direction |
| DataGrids.PageCountIsCeiling | src/AriaJournal.Core/UI/Controls/DynamicDataGrid.xaml.cs:622 | the page count is the ceiling of items over page size, zero only without items |
| DataGrids.MulMonotone | src/AriaJournal.Core/UI/Controls/DynamicDataGrid.xaml.cs:631 | multiplying by a non-negative size keeps order |
| DataGrids.PageRows | src/AriaJournal.Core/UI/Controls/DynamicDataGrid.xaml.cs:630-632 | at most one page of rows |
| DataGrids.PageRowsContents | src/AriaJournal.Core/UI/Controls/DynamicDataGrid.xaml.cs:630-632 | the page's rows are the data from its offset, as many as remain up to the size |
| DataGrids.Paginate | src/AriaJournal.Core/UI/Controls/DynamicDataGrid.xaml.cs:617-633 | a size of 0 or less leaves the data and counters; otherwise the counters are recomputed, a page past the end is clamped to the last, and that page's rows are shown |
| DataGrids.PaginateIdempotent | src/AriaJournal.Core/UI/Controls/DynamicDataGrid.xaml.cs:617-633 | paginating the same data again at the resulting page gives the same view |
| DataGrids.PageInRange | src/AriaJournal.Core/UI/Controls/DynamicDataGrid.xaml.cs:617-633 | with items, the page ends between 1 and the page count |
| DataGrids.PageInfoMatchesRows | src/AriaJournal.Core/UI/Controls/DynamicDataGrid.xaml.cs:635-661 | the "showing a to b of n" counters bound exactly the rows shown |
| DataGrids.NextPageAsWritten | src/AriaJournal.Core/UI/Controls/DynamicDataGrid.xaml.cs:568-575 | as written, the page command moves the bound property and not the field the paging reads |
| DataGrids.ShownAsWritten | src/AriaJournal.Core/UI/Controls/DynamicDataGrid.xaml.cs:617-633 | as written, a refresh shows the page of the field |
| DataGrids.NextPageAsWrittenShowsOldRows | src/AriaJournal.Core/UI/Controls/DynamicDataGrid.xaml.cs:122-125 | with more than one page, NextPage as written reports page 2 but still shows page 1's rows (also lines 186-193, 568-575, 625-632) |
| DataGrids.UndoubleDoubled | src/AriaJournal.Core/UI/Controls/DynamicDataGrid.xaml.cs:727 | doubling quotes and undoubling them gives the text back |
| DataGrids.CsvFieldRoundTrip | src/AriaJournal.Core/UI/Controls/DynamicDataGrid.xaml.cs:724-729 | a CSV field reads back to its text; a field without comma, quote or line feed is written as is, any other is quoted |
| DataGrids.VisibleColumns | src/AriaJournal.Core/UI/Controls/DynamicDataGrid.xaml.cs:707-720 | exactly the visible columns, as the subsequence of the schema's columns at the visible positions (order and repetitions kept) |
| DataGrids.HeaderCells | src/AriaJournal.Core/UI/Controls/DynamicDataGrid.xaml.cs:709 | one header per column: the Persian header, or the id |
| DataGrids.RowCells | src/AriaJournal.Core/UI/Controls/DynamicDataGrid.xaml.cs:719-731 | one escaped cell per column |
| DataGrids.Csv | src/AriaJournal.Core/UI/Controls/DynamicDataGrid.xaml.cs:698-741 | empty iff there is no schema or no items; otherwise a header line then one line per item |
| DataGrids.ExportCellsRoundTrip | src/AriaJournal.Core/UI/Controls/DynamicDataGrid.xaml.cs:717-733 | every exported cell reads back to the formatted value of a visible column |
| DataGrids.DynamicDataGrid.constructor | src/AriaJournal.Core/UI/Controls/DynamicDataGrid.xaml.cs:30 | no items, schema, filters or sort; page 1 of size 50; nothing shown (also lines 152-164) |
| DataGrids.DynamicDataGrid.RefreshData | src/AriaJournal.Core/UI/Controls/DynamicDataGrid.xaml.cs:378-433 | without items nothing is shown; otherwise the filtered, sorted data is paged and the counters match it |
| DataGrids.DynamicDataGrid.ShowPage | src/AriaJournal.Core/UI/Controls/DynamicDataGrid.xaml.cs:617-633 | the shown rows and counters are the pagination of the data at the current page |
| DataGrids.DynamicDataGrid.SetItemsSource | src/AriaJournal.Core/UI/Controls/DynamicDataGrid.xaml.cs:170-176 | the items are stored and the grid refreshed |
| DataGrids.DynamicDataGrid.SetSchema | src/AriaJournal.Core/UI/Controls/DynamicDataGrid.xaml.cs:244-249 | the schema is stored and its page size adopted |
| DataGrids.DynamicDataGrid.SetPageSize | src/AriaJournal.Core/UI/Controls/DynamicDataGrid.xaml.cs:195-203 | the page size is stored and the grid refreshed |
| DataGrids.DynamicDataGrid.ApplyFilter | src/AriaJournal.Core/UI/Controls/DynamicDataGrid.xaml.cs:442-449 | a blank column changes nothing; otherwise the filter is set, the page reset to 1 and the grid refreshed |
| DataGrids.DynamicDataGrid.RemoveFilter | src/AriaJournal.Core/UI/Controls/DynamicDataGrid.xaml.cs:454-462 | an active filter is removed, the page reset to 1 and the grid refreshed; otherwise nothing changes |
| DataGrids.DynamicDataGrid.ClearAllFilters | src/AriaJournal.Core/UI/Controls/DynamicDataGrid.xaml.cs:467-472 | no filters, page 1, and the data shown is only sorted |
| DataGrids.DynamicDataGrid.Sort | src/AriaJournal.Core/UI/Controls/DynamicDataGrid.xaml.cs:513-518 | the sort column and direction are set and the grid refreshed |
| DataGrids.DynamicDataGrid.ToggleSort | src/AriaJournal.Core/UI/Controls/DynamicDataGrid.xaml.cs:523-535 | the sort becomes `Toggled` of the old one and the grid refreshed |
| DataGrids.DynamicDataGrid.Turn | src/AriaJournal.Core/UI/Controls/DynamicDataGrid.xaml.cs:592-599 | the page is set and the grid refreshed to it |
| DataGrids.DynamicDataGrid.GoToPage | src/AriaJournal.Core/UI/Controls/DynamicDataGrid.xaml.cs:592-599 | a page outside 1 to the page count changes nothing; otherwise that page is shown |
| DataGrids.DynamicDataGrid.NextPage | src/AriaJournal.Core/UI/Controls/DynamicDataGrid.xaml.cs:568-575 | the next page is shown when there is one; otherwise nothing changes |
| DataGrids.DynamicDataGrid.PreviousPage | src/AriaJournal.Core/UI/Controls/DynamicDataGrid.xaml.cs:580-587 | the previous page is shown past page 1; otherwise nothing changes |
| DataGrids.DynamicDataGrid.GoToFirstPage | src/AriaJournal.Core/UI/Controls/DynamicDataGrid.xaml.cs:604-607 | page 1 is shown when there is a page |
| DataGrids.DynamicDataGrid.GoToLastPage | src/AriaJournal.Core/UI/Controls/DynamicDataGrid.xaml.cs:612-615 | the last page is shown when there is one |
| DataGrids.DynamicDataGrid.ExportToCsv | src/AriaJournal.Core/UI/Controls/DynamicDataGrid.xaml.cs:698-741 | the CSV of the schema and items; empty without either |
| DataGrids.RefreshedShowsPage | src/AriaJournal.Core/UI/Controls/DynamicDataGrid.xaml.cs:378-433 | after a refresh the shown rows are the current page of the prepared data, the counters match it, and the page is in range (also lines 617-633) |
| DataGrids.FilterHolds | src/AriaJournal.Core/UI/Controls/DynamicDataGrid.xaml.cs:490-497 | a column the row lacks or a null filter lets the row through; a null cell passes only the empty filter |
| DataGrids.StartItem | src/AriaJournal.Core/UI/Controls/DynamicDataGrid.xaml.cs:639 | 0 for an empty grid, otherwise at least 1 on any page from 1 |
| DataGrids.EndItem | src/AriaJournal.Core/UI/Controls/DynamicDataGrid.xaml.cs:640 | the smaller of the item count and page x size |
| DataGrids.CellText | src/AriaJournal.Core/UI/Controls/DynamicDataGrid.xaml.cs:730 | the row's value under the binding path (the id when there is none), empty when the row lacks it or holds null |
| FormSchemas.ValueText | src/AriaJournal.Core/UI/Controls/DynamicFormBuilder.cs:824 | `value.ToString()`: a text prints as itself, a list of tags as its type name |
| FormSchemas.BlankTextOnlyFromText | src/AriaJournal.Core/UI/Controls/DynamicFormBuilder.cs:824-831 | only a text or a date value can print blank |
| FormBuilders.ColumnCount | src/AriaJournal.Core/UI/Controls/DynamicFormBuilder.cs:167 | `Math.Max(1, section.Columns)`: at least one column, the section's count when positive |
| FormBuilders.VisibleFields | src/AriaJournal.Core/UI/Controls/DynamicFormBuilder.cs:176 | exactly the visible fields, never more than given |
| FormBuilders.VisibleFieldsInOrder | src/AriaJournal.Core/UI/Controls/DynamicFormBuilder.cs:176 | the visible fields are the subsequence of the section's fields at the visible positions (order and repetitions kept) |
| FormBuilders.NextRow | src/AriaJournal.Core/UI/Controls/DynamicFormBuilder.cs:201-206 | one more row adds one row of columns |
| FormBuilders.RowsCover | src/AriaJournal.Core/UI/Controls/DynamicFormBuilder.cs:183-206 | the rows added hold every field, and one fewer would not |
| FormBuilders.LayoutSection | src/AriaJournal.Core/UI/Controls/DynamicFormBuilder.cs:164-208 | the k-th visible field lands in row k / columns and column k mod columns, spanning at most to the last column, and the rows added are exactly enough |
| FormBuilders.PrintedIntegersAreValid | src/AriaJournal.Core/UI/Controls/DynamicFormBuilder.cs:979-989 | a printed integer is a valid entry for an integer, decimal or number field |
| FormBuilders.IsValidNumberIgnoresTypeCase | src/AriaJournal.Core/UI/Controls/DynamicFormBuilder.cs:979-989 | the field type is compared ignoring case, and blank text is always valid |
| FormBuilders.RequiredErrors | src/AriaJournal.Core/UI/Controls/DynamicFormBuilder.cs:809-815 | at most one error per field, each a "required" error |
| FormBuilders.ValueChecksMeaning | src/AriaJournal.Core/UI/Controls/DynamicFormBuilder.cs:818-847 | no errors iff the value meets the length and (when numeric) the range rules; a non-number only gets length errors; at most four |
| FormBuilders.RequiredErrorsEmpty | src/AriaJournal.Core/UI/Controls/DynamicFormBuilder.cs:809-815 | no required errors iff every required field has a non-empty value |
| FormBuilders.AllHoldIff | src/AriaJournal.Core/UI/Controls/DynamicFormBuilder.cs:805-849 | a property holds of all of a list iff of each element |
| FormBuilders.RuleErrorsEmpty | src/AriaJournal.Core/UI/Controls/DynamicFormBuilder.cs:818-848 | no rule errors iff every field with rules meets them |
| FormBuilders.RuleErrorsAllHold | src/AriaJournal.Core/UI/Controls/DynamicFormBuilder.cs:818-848 | the same, stated through `AllHold` |
| FormBuilders.FieldRuleErrorsEmpty | src/AriaJournal.Core/UI/Controls/DynamicFormBuilder.cs:818-848 | one field has no rule errors iff it meets its rules |
| FormBuilders.SectionErrorsEmpty | src/AriaJournal.Core/UI/Controls/DynamicFormBuilder.cs:807-848 | a section has no errors iff each field is present when required and meets its rules |
| FormBuilders.SectionsErrorsEmpty | src/AriaJournal.Core/UI/Controls/DynamicFormBuilder.cs:805-849 | no section has errors iff every section is satisfied |
| FormBuilders.FormValidIff | src/AriaJournal.Core/UI/Controls/DynamicFormBuilder.cs:798-852 | the form is valid iff it has no sections or every section is satisfied |
| FormBuilders.MissingRequiredFieldReported | src/AriaJournal.Core/UI/Controls/DynamicFormBuilder.cs:811-814 | a required field with no or an empty value is reported by its label |
| FormBuilders.MergedValues | src/AriaJournal.Core/UI/Controls/DynamicFormBuilder.cs:762-779 | every control's value, overridden by the special values such as ratings |
| FormBuilders.DynamicFormBuilder.constructor | src/AriaJournal.Core/UI/Controls/DynamicFormBuilder.cs:22-23 | the built controls, no special values |
| FormBuilders.DynamicFormBuilder.Rate | src/AriaJournal.Core/UI/Controls/DynamicFormBuilder.cs:589-598 | clicking star k stores rating k for the field, which the form values then report |
| FormBuilders.DynamicFormBuilder.GetFormValues | src/AriaJournal.Core/UI/Controls/DynamicFormBuilder.cs:762-779 | the merged values of the controls and the special values |
| FormBuilders.DynamicFormBuilder.ValidateForm | src/AriaJournal.Core/UI/Controls/DynamicFormBuilder.cs:798-852 | the errors of the schema against the form's values, valid iff none |
| FormBuilders.CheckSection | src/AriaJournal.Core/UI/Controls/DynamicFormBuilder.cs:807-848 | the loop over one section computes its errors |
| FormBuilders.CollectRequired | src/AriaJournal.Core/UI/Controls/DynamicFormBuilder.cs:809-815 | the loop computes the required errors |
| FormBuilders.CollectRules | src/AriaJournal.Core/UI/Controls/DynamicFormBuilder.cs:818-848 | the loop computes the rule errors |
| FormBuilders.CheckValue | src/AriaJournal.Core/UI/Controls/DynamicFormBuilder.cs:823-847 | the checks of one value, in order |
| FormBuilders.IsEmpty | src/AriaJournal.Core/UI/Controls/DynamicFormBuilder.cs:971-977 | null is empty; text is empty iff blank; a list iff it has no items; any other value is not empty |
| FormBuilders.IsValidNumber | src/AriaJournal.Core/UI/Controls/DynamicFormBuilder.cs:979-989 | blank text and non-numeric types pass; an integer field passes iff the text parses as int, a decimal or number field iff it parses as decimal |
| UIRenderers.Step | src/AriaJournal.Core/Infrastructure/Engines/UIRendererEngine.cs:149-158 | a field moves the column on by its span when above 1, otherwise by one |
| UIRenderers.LayoutFields | src/AriaJournal.Core/Infrastructure/Engines/UIRendererEngine.cs:132-167 | every field (hidden ones too) gets a slot: the first at row 0, column 0, each next one after its predecessor by the predecessor's span, wrapping once the column count is reached; the rows defined are exactly those used |
| UIRenderers.SameRowIsAdjacent | src/AriaJournal.Core/Infrastructure/Engines/UIRendererEngine.cs:149-164 | a field on the same row as its predecessor starts right after the predecessor's span |
| UIRenderers.RowsNeverGoBack | src/AriaJournal.Core/Infrastructure/Engines/UIRendererEngine.cs:160-164 | rows never decrease, and a move to a later row passes through column 0 |
| UIRenderers.UIRendererEngine.constructor | src/AriaJournal.Core/Infrastructure/Engines/UIRendererEngine.cs:28-34 | no field elements registered |
| UIRenderers.UIRendererEngine.RenderSection | src/AriaJournal.Core/Infrastructure/Engines/UIRendererEngine.cs:111-172 | a section without fields throws and registers nothing; otherwise as many column definitions as its positive column count, one slot per field, each registered under its id |
| UIRenderers.UIRendererEngine.Register | src/AriaJournal.Core/Infrastructure/Engines/UIRendererEngine.cs:167 | `_fieldElements[field.Id] = fieldElement` field by field |
| UIRenderers.RegistryKeys | src/AriaJournal.Core/Infrastructure/Engines/UIRendererEngine.cs:167 | the registry gains exactly the ids of the section's fields |
| UIRenderers.RegistryLastWins | src/AriaJournal.Core/Infrastructure/Engines/UIRendererEngine.cs:167 | a field id maps to the slot of its last field |
| UIRenderers.RegistryKeepsOthers | src/AriaJournal.Core/Infrastructure/Engines/UIRendererEngine.cs:167 | an id not in the section keeps its element |
| UIRenderers.FirstFailingIsFirst | src/AriaJournal.Core/Infrastructure/Engines/UIRendererEngine.cs:648-695 | the check reported fails and every check before it passes; none is reported iff none fails |
| UIRenderers.DefaultMessage | src/AriaJournal.Core/Infrastructure/Engines/UIRendererEngine.cs:659-692 | a default message is longer than the field's label |
| UIRenderers.FieldValueError | src/AriaJournal.Core/Infrastructure/Engines/UIRendererEngine.cs:648-695 | an error only for a field with rules: their Persian message when set, otherwise a default naming the field |
| UIRenderers.ValidateForm | src/AriaJournal.Core/Infrastructure/Engines/UIRendererEngine.cs:608-646 | the errors collected field by field; fails with Validation joining them with line breaks iff there is one |
| UIRenderers.CollectMessages | src/AriaJournal.Core/Infrastructure/Engines/UIRendererEngine.cs:617-638 | the loop collects every field's messages in order |
| UIRenderers.ValidateField | src/AriaJournal.Core/Infrastructure/Engines/UIRendererEngine.cs:619-637 | one field's messages |
| UIRenderers.RequiredShortCircuits | src/AriaJournal.Core/Infrastructure/Engines/UIRendererEngine.cs:622-627 | a required field left blank gets only the required message |
| UIRenderers.SilentFields | src/AriaJournal.Core/Infrastructure/Engines/UIRendererEngine.cs:629-637 | a field passing every check adds nothing, nor does one whose message is set but empty |
| UIRenderers.FailingFieldReported | src/AriaJournal.Core/Infrastructure/Engines/UIRendererEngine.cs:629-637 | a field failing a check without its own message gets exactly one message, the default of the first failing check (also lines 648-695) |
| UIRenderers.FailingValueReported | src/AriaJournal.Core/Infrastructure/Engines/UIRendererEngine.cs:648-695 | the same for `ValidateFieldValue` on the field's text |
| UIRenderers.RendererAndBuilderEmptiness | src/AriaJournal.Core/Infrastructure/Engines/UIRendererEngine.cs:622 | except for dates, what the renderer finds blank is blank text; an empty tag list is empty to the builder but not to the renderer |
| UIRenderers.FirstFailing | src/AriaJournal.Core/Infrastructure/Engines/UIRendererEngine.cs:648-695 | a reported check does fail; when none is reported neither the minimum-length nor the pattern check fails |
| FieldEditors.SettingsPanelsExclusive | src/AriaJournal.Core/UI/ViewModels/FieldEditorViewModel.cs:73-78 | the options panel and the numeric settings panel are never shown together |
| FieldEditors.NewField | src/AriaJournal.Core/UI/ViewModels/FieldEditorViewModel.cs:259-276 | a new field has a `custom_` id, is custom, new and visible, has no field name, and goes last in order |
| FieldEditors.Renumbered | src/AriaJournal.Core/UI/ViewModels/FieldEditorViewModel.cs:646-652 | each field's order becomes its position; nothing else changes |
| FieldEditors.Unnumbered | src/AriaJournal.Core/UI/ViewModels/FieldEditorViewModel.cs:646-652 | the fields with their order ignored |
| FieldEditors.MoveThenRenumber | src/AriaJournal.Core/UI/ViewModels/FieldEditorViewModel.cs:327-352 | after a move and renumbering, order equals position and the fields are the same, order aside |
| FieldEditors.UnnumberedMoved | src/AriaJournal.Core/UI/ViewModels/FieldEditorViewModel.cs:327-352 | ignoring order commutes with moving |
| FieldEditors.UnnumberedConcat | src/AriaJournal.Core/UI/ViewModels/FieldEditorViewModel.cs:646-652 | ignoring order distributes over concatenation |
| FieldEditors.FirstWithId | src/AriaJournal.Core/UI/ViewModels/FieldEditorViewModel.cs:375 | the position of the first field with the id, none iff no field has it |
| FieldEditors.DraftProblem | src/AriaJournal.Core/UI/ViewModels/FieldEditorViewModel.cs:360-370 | no problem iff the label is not blank and a new custom field has a field name; a blank label is reported first |
| FieldEditors.Confirmed | src/AriaJournal.Core/UI/ViewModels/FieldEditorViewModel.cs:372-382 | a new field is appended; an existing one replaces the first field with its id, and the others stay |
| FieldEditors.FieldEditorViewModel.constructor | src/AriaJournal.Core/UI/ViewModels/FieldEditorViewModel.cs:205-217 | no fields, nothing being edited, no changes |
| FieldEditors.FieldEditorViewModel.UpdateFieldOrders | src/AriaJournal.Core/UI/ViewModels/FieldEditorViewModel.cs:646-652 | the fields are renumbered |
| FieldEditors.FieldEditorViewModel.MoveField | src/AriaJournal.Core/UI/ViewModels/FieldEditorViewModel.cs:333-348 | the move, then renumbering, and the list is marked changed |
| FieldEditors.FieldEditorViewModel.MoveUp | src/AriaJournal.Core/UI/ViewModels/FieldEditorViewModel.cs:327-338 | a field not first trades places with the one before and the list is renumbered; otherwise nothing changes |
| FieldEditors.FieldEditorViewModel.MoveDown | src/AriaJournal.Core/UI/ViewModels/FieldEditorViewModel.cs:341-352 | a field not last trades places with the one after; the last field or none changes nothing; a field missing from a non-empty list throws |
| FieldEditors.FieldEditorViewModel.AddField | src/AriaJournal.Core/UI/ViewModels/FieldEditorViewModel.cs:259-276 | a new field is being edited and the panel shows |
| FieldEditors.FieldEditorViewModel.EditField | src/AriaJournal.Core/UI/ViewModels/FieldEditorViewModel.cs:279-286 | a copy of the field is being edited and the panel shows; none changes nothing |
| FieldEditors.FieldEditorViewModel.CancelEdit | src/AriaJournal.Core/UI/ViewModels/FieldEditorViewModel.cs:394-398 | nothing is being edited and the panel hides |
| FieldEditors.FieldEditorViewModel.ConfirmEdit | src/AriaJournal.Core/UI/ViewModels/FieldEditorViewModel.cs:355-391 | nothing being edited changes nothing; a draft with a problem shows it and stays; otherwise the draft is confirmed into the list, which is marked changed, and the panel closes |
| FieldEditors.FieldEditorViewModel.DeleteField | src/AriaJournal.Core/UI/ViewModels/FieldEditorViewModel.cs:289-324 | a system field is refused with a message; a confirmed custom field is deleted through the service, which is given the field's order, and then removed from the list with the error message cleared; a failure shows the service's message |
| ColumnEditors.CountVisible | src/AriaJournal.Core/UI/ViewModels/ColumnEditorViewModel.cs:177 | the number of visible columns never exceeds the number of columns |
| ColumnEditors.CountVisibleExtremes | src/AriaJournal.Core/UI/ViewModels/ColumnEditorViewModel.cs:177 | the visible count equals the column count exactly when every column is visible, and is zero exactly when none is |
| ColumnEditors.WithVisibility | src/AriaJournal.Core/UI/ViewModels/ColumnEditorViewModel.cs:215-223 | show-all / hide-all keep the columns and their length and change only each column's visibility |
| ColumnEditors.WithVisibilityCount | src/AriaJournal.Core/UI/ViewModels/ColumnEditorViewModel.cs:240-261 | after show-all every column counts as visible; after hide-all none does |
| ColumnEditors.Renumbered | src/AriaJournal.Core/UI/ViewModels/ColumnEditorViewModel.cs:596-602 | renumbering keeps the columns and sets each one's order to its position |
| ColumnEditors.MoveKeepsVisibleCount | src/AriaJournal.Core/UI/ViewModels/ColumnEditorViewModel.cs:274-299 | moving a column up or down and renumbering leaves the number of visible columns unchanged |
| ColumnEditors.RenumberedKeepsCount | src/AriaJournal.Core/UI/ViewModels/ColumnEditorViewModel.cs:596-602 | renumbering changes no visibility, so the visible count is unchanged |
| ColumnEditors.CountVisibleIsMultiset | src/AriaJournal.Core/UI/ViewModels/ColumnEditorViewModel.cs:177 | the visible count depends only on which columns there are, not on their order |
| ColumnEditors.CountVisibleRemove | src/AriaJournal.Core/UI/ViewModels/ColumnEditorViewModel.cs:177 | taking one column out takes its visibility out of the count |
| ColumnEditors.CountVisibleSplit | src/AriaJournal.Core/UI/ViewModels/ColumnEditorViewModel.cs:177 | the visible count of two lists put together is the sum of their counts |
| ColumnEditors.FirstWithId | src/AriaJournal.Core/UI/ViewModels/ColumnEditorViewModel.cs:306 | finds the first column with the draft's id, or reports that no column has it |
| ColumnEditors.Replaced | src/AriaJournal.Core/UI/ViewModels/ColumnEditorViewModel.cs:302-318 | confirming an edit keeps the list's length, leaves every column with another id alone, and puts the draft in when its id is present; a draft whose id is gone is dropped, not appended |
| ColumnEditors.HasTableIdAppend | src/AriaJournal.Core/UI/ViewModels/ColumnEditorViewModel.cs:447-457 | adding a table keeps every id already offered and offers the new one |
| ColumnEditors.ColumnEditorViewModel.constructor | src/AriaJournal.Core/UI/ViewModels/ColumnEditorViewModel.cs:137-193 | a new editor has no tables, no selected table, no columns, no draft, the edit panel closed, no changes and the select-all box ticked |
| ColumnEditors.ColumnEditorViewModel.VisibleCount | src/AriaJournal.Core/UI/ViewModels/ColumnEditorViewModel.cs:177 | the shown visible count is at most the number of columns |
| ColumnEditors.ColumnEditorViewModel.SetEveryVisible | src/AriaJournal.Core/UI/ViewModels/ColumnEditorViewModel.cs:217-220 | the loop gives every column the requested visibility and changes nothing else |
| ColumnEditors.ColumnEditorViewModel.SetIsAllSelected | src/AriaJournal.Core/UI/ViewModels/ColumnEditorViewModel.cs:215-223 | a new select-all value sets every column's visibility to it and marks the editor changed; the same value changes nothing |
| ColumnEditors.ColumnEditorViewModel.ShowAll | src/AriaJournal.Core/UI/ViewModels/ColumnEditorViewModel.cs:240-249 | every column becomes visible, the box is ticked and the editor is marked changed; the visible count equals the column count |
| ColumnEditors.ColumnEditorViewModel.HideAll | src/AriaJournal.Core/UI/ViewModels/ColumnEditorViewModel.cs:252-261 | every column becomes hidden, the box is cleared and the editor is marked changed; the visible count is zero |
| ColumnEditors.ColumnEditorViewModel.UpdateColumnOrders | src/AriaJournal.Core/UI/ViewModels/ColumnEditorViewModel.cs:596-602 | each column's order becomes its position in the list |
| ColumnEditors.ColumnEditorViewModel.MoveColumn | src/AriaJournal.Core/UI/ViewModels/ColumnEditorViewModel.cs:279-284 | the list becomes the moved list renumbered, and the editor is marked changed |
| ColumnEditors.ColumnEditorViewModel.MoveUp | src/AriaJournal.Core/UI/ViewModels/ColumnEditorViewModel.cs:274-285 | a column that is not first swaps with the one before it and the list is renumbered; the first column, a column not in the list, or none leaves everything unchanged |
| ColumnEditors.ColumnEditorViewModel.MoveDown | src/AriaJournal.Core/UI/ViewModels/ColumnEditorViewModel.cs:288-299 | a column that is not last swaps with the one after it and the list is renumbered; the last column, none, or an empty list changes nothing; a column missing from a non-empty list fails, as the move from position -1 throws |
| ColumnEditors.ColumnEditorViewModel.EditColumn | src/AriaJournal.Core/UI/ViewModels/ColumnEditorViewModel.cs:264-271 | a chosen column becomes the draft and the edit panel opens; no column changes nothing |
| ColumnEditors.ColumnEditorViewModel.CancelEdit | src/AriaJournal.Core/UI/ViewModels/ColumnEditorViewModel.cs:321-325 | the draft is dropped and the edit panel closes |
| ColumnEditors.ColumnEditorViewModel.ConfirmEdit | src/AriaJournal.Core/UI/ViewModels/ColumnEditorViewModel.cs:302-318 | with no draft nothing changes; otherwise the draft replaces the column with its id, the panel closes, the draft is cleared and the editor is marked changed; the list never grows |
| ColumnEditors.ColumnEditorViewModel.UpdateIsAllSelected | src/AriaJournal.Core/UI/ViewModels/ColumnEditorViewModel.cs:607-614 | corrected: the box is ticked exactly when every column is visible, and the columns are left as they are |
| ColumnEditors.ColumnEditorViewModel.LoadColumns | src/AriaJournal.Core/UI/ViewModels/ColumnEditorViewModel.cs:475-527 | the saved columns sorted by Order as a permutation, columns of equal Order in their saved order, or the defaults when the table has none saved; nothing marked changed; the box follows the loaded visibility |
| ColumnEditors.ColumnEditorViewModel.LoadTables | src/AriaJournal.Core/UI/ViewModels/ColumnEditorViewModel.cs:419-470 | the trade list and account list come first, table ids are distinct, every declared table is offered, and nothing else is |
| ColumnEditors.AsWrittenHidesEveryColumn | src/AriaJournal.Core/UI/ViewModels/ColumnEditorViewModel.cs:607-614 | as written, with the box ticked and a column hidden, the update hides every column and marks the editor changed |
| ColumnEditors.AsWrittenCounterexample | src/AriaJournal.Core/UI/ViewModels/ColumnEditorViewModel.cs:215-223 | a table saved with one visible and one hidden column loads with no column visible |
| ColumnEditors.UpdateIsAllSelectedAsWritten | src/AriaJournal.Core/UI/ViewModels/ColumnEditorViewModel.cs:607-614 | the flag ends equal to whether every column is visible; nothing changes when it already was, else the setter also rewrites every column's visibility and marks changes |
| TradeLists.EndOfDay | src/AriaJournal.Core/UI/ViewModels/TradeListViewModel.cs:361-362 | the end-date bound lies after the picked date, and exists exactly when adding a day stays within the DateTime range |
| TradeLists.EndOfDayIsLastSecond | src/AriaJournal.Core/UI/ViewModels/TradeListViewModel.cs:361-362 | for a picked midnight the bound is the last second of that same day, so every moment of the day is included |
| TradeLists.StatusFilter | src/AriaJournal.Core/UI/ViewModels/TradeListViewModel.cs:364-377 | index 1 asks for open trades, 2 for closed, 3 for winners, 4 for losers, each in both directions; any other index filters on neither |
| TradeLists.PageCount | src/AriaJournal.Core/UI/ViewModels/TradeListViewModel.cs:137 | zero pages for a page size that is not positive; otherwise the least page count whose pages hold every trade |
| TradeLists.RoundHalfAway | src/AriaJournal.Core/UI/ViewModels/TradeListViewModel.cs:195-196 | rounding to within half of the exact value, keeping the sign, a tie going away from zero |
| TradeLists.ThreeDigits | src/AriaJournal.Core/UI/ViewModels/TradeListViewModel.cs:196 | a group below 1000 prints as exactly three digits |
| TradeLists.Grouped | src/AriaJournal.Core/UI/ViewModels/TradeListViewModel.cs:196 | the integral part prints non-empty, and below 1000 as its plain digits |
| TradeLists.OneDecimal | src/AriaJournal.Core/UI/ViewModels/TradeListViewModel.cs:196 | a count of tenths prints as its grouped integral part, a point and one digit |
| TradeLists.WinRateText | src/AriaJournal.Core/UI/ViewModels/TradeListViewModel.cs:189-198 | the text is "0%" exactly when there are neither wins nor losses |
| TradeLists.WinRateTextIsRounded | src/AriaJournal.Core/UI/ViewModels/TradeListViewModel.cs:189-198 | with counts that are not negative the rate prints between 0.0% and 100.0% with one decimal, within a twentieth of a percent of the exact rate |
| TradeLists.WinRateAllWins | src/AriaJournal.Core/UI/ViewModels/TradeListViewModel.cs:189-198 | only wins shows 100.0% |
| TradeLists.WinRateAllLosses | src/AriaJournal.Core/UI/ViewModels/TradeListViewModel.cs:189-198 | only losses shows 0.0%, which is not the 0% of a list with no closed trades |
| TradeLists.TradeListViewModel.constructor | src/AriaJournal.Core/UI/ViewModels/TradeListViewModel.cs:29-40 | a new list is empty with no filters, on page 1 of size 50 with zero totals, and its page is in range |
| TradeLists.TradeListViewModel.TotalPages | src/AriaJournal.Core/UI/ViewModels/TradeListViewModel.cs:137 | with a positive page size there is at least one page when there are trades and none when there are not |
| TradeLists.TradeListViewModel.ShownPageCount | src/AriaJournal.Core/UI/ViewModels/TradeListViewModel.cs:139 | the page count shown is at least one and at least the real page count |
| TradeLists.TradeListViewModel.PageInRangeIsShown | src/AriaJournal.Core/UI/ViewModels/TradeListViewModel.cs:139 | the current page shown is between 1 and the page count shown |
| TradeLists.TradeListViewModel.BuildFilter | src/AriaJournal.Core/UI/ViewModels/TradeListViewModel.cs:343-379 | the filter asks for the current page, newest entry first, with the trimmed symbol unless blank, the dates with the end moved to the end of its day and the status filters; there is no filter exactly when moving the end date overflows |
| TradeLists.TradeListViewModel.Show | src/AriaJournal.Core/UI/ViewModels/TradeListViewModel.cs:318-337 | a successful answer replaces the rows and totals; a failure keeps them and shows the service's message |
| TradeLists.TradeListViewModel.Load | src/AriaJournal.Core/UI/ViewModels/TradeListViewModel.cs:305-341 | with no current account the list is emptied and the count zeroed; otherwise the service's answer for the built filter is shown, or the error of building it |
| TradeLists.TradeListViewModel.ApplyFilter | src/AriaJournal.Core/UI/ViewModels/TradeListViewModel.cs:255-259 | applying the filter goes back to page 1 and reloads |
| TradeLists.TradeListViewModel.FirstPage | src/AriaJournal.Core/UI/ViewModels/TradeListViewModel.cs:262-269 | from a later page, go to page 1 and reload; on page 1 nothing changes |
| TradeLists.TradeListViewModel.PreviousPage | src/AriaJournal.Core/UI/ViewModels/TradeListViewModel.cs:272-279 | from a later page, go back one and reload; on page 1 nothing changes; the page stays in range |
| TradeLists.TradeListViewModel.NextPage | src/AriaJournal.Core/UI/ViewModels/TradeListViewModel.cs:282-289 | before the last page, go on one and reload; otherwise nothing changes; the page stays in range |
| TradeLists.TradeListViewModel.LastPage | src/AriaJournal.Core/UI/ViewModels/TradeListViewModel.cs:292-299 | before the last page, jump to it and reload; otherwise nothing changes; the page stays in range |
| TradeLists.TradeListViewModel.SetPageSize | src/AriaJournal.Core/UI/ViewModels/TradeListViewModel.cs:109-120 | a new page size goes back to page 1 and reloads; the same size changes nothing |
| TradeLists.WinRateTenths | src/AriaJournal.Core/UI/ViewModels/TradeListViewModel.cs:193-196 | within half a tenth of a percent of wins / (wins + losses) x 100 |
| TradeDtos.TotalPages | src/AriaJournal.Core/Application/DTOs/TradeCreateDto.cs:136 | the page count is defined exactly when the page size is not zero |
| TradeDtos.TotalPagesCoversCount | src/AriaJournal.Core/Application/DTOs/TradeCreateDto.cs:136 | with a positive page size the page count is the least number of pages that holds every counted trade |
| TradeDtos.HasNext | src/AriaJournal.Core/Application/DTOs/TradeCreateDto.cs:138 | whether there is a next page is defined exactly when the page count is |
| TradeDtos.HasNextIffRowsRemain | src/AriaJournal.Core/Application/DTOs/TradeCreateDto.cs:137-138 | with a positive page size there is a next page exactly when some counted trade lies beyond the pages up to the current one |
| TradeDtos.WinRate | src/AriaJournal.Core/Application/DTOs/TradeCreateDto.cs:144 | the win rate is 0 when nothing is counted, lies between 0 and 100 when the wins are among the counted trades, and is 100 when every counted trade won |
| Screenshots.TypeTag | src/AriaJournal.Core/Application/Services/ScreenshotService.cs:278-288 | each picture type has a non-empty tag without '-'; the tag is "other" exactly for values outside Entry to Setup |
| Screenshots.TypeTagRoundTrip | src/AriaJournal.Core/Application/Services/ScreenshotService.cs:278-288 | the tag of a named type reads back as that type; every other value reads back as Other |
| Screenshots.FourDigits | src/AriaJournal.Core/Application/Services/ScreenshotService.cs:290 | a year prints as four digits whose value is the year |
| Screenshots.DatePart | src/AriaJournal.Core/Application/Services/ScreenshotService.cs:290 | the date stamp is eight digits |
| Screenshots.TimePart | src/AriaJournal.Core/Application/Services/ScreenshotService.cs:290 | the time stamp is four digits |
| Screenshots.StampRoundTrip | src/AriaJournal.Core/Application/Services/ScreenshotService.cs:290 | the date and time stamps read back as the year, month, day, hour and minute they were printed from |
| Screenshots.FileName | src/AriaJournal.Core/Application/Services/ScreenshotService.cs:276-291 | a file name begins with the symbol and a dash and ends in .png |
| Screenshots.FileNameParts | src/AriaJournal.Core/Application/Services/ScreenshotService.cs:290 | for a symbol without '-' the file name splits at '-' into the symbol, the date, the time and the tag with its extension |
| Screenshots.FileNameRoundTrip | src/AriaJournal.Core/Application/Services/ScreenshotService.cs:276-291 | for a symbol without '-' the file name reads back as the symbol, the minute and the tag it was made from |
| Screenshots.CombinePlain | src/AriaJournal.Core/Application/Services/ScreenshotService.cs:301-307 | combining plain folder names puts exactly one separator before each |
| Screenshots.SymbolFolder | src/AriaJournal.Core/Application/Services/ScreenshotService.cs:304 | the symbol's folder name has the symbol's length |
| Screenshots.SymbolFolderIsPlain | src/AriaJournal.Core/Application/Services/ScreenshotService.cs:304 | the upper-cased symbol of a one-folder symbol is a plain folder name |
| Screenshots.FileNameIsPlain | src/AriaJournal.Core/Application/Services/ScreenshotService.cs:276-291 | the file name is a plain folder entry |
| Screenshots.MonthIsPlain | src/AriaJournal.Core/Application/Services/ScreenshotService.cs:306 | the month folder is always two digits |
| Screenshots.FullPathLayout | src/AriaJournal.Core/Application/Services/ScreenshotService.cs:296-308 | the full path is the base folder, then the account id, the upper-cased symbol, the year, the two-digit month and the file name, each after one separator |
| Themes.NormalizeThemeName | src/AriaJournal.Core/UI/App.xaml.cs:456-465 | a name gives Light, Blue or Green exactly when its lower-cased form is that theme's English name, Persian name or index digit; anything else gives Dark |
| Themes.NormalizeName | src/AriaJournal.Core/UI/App.xaml.cs:456-465 | a theme's own name normalises to that theme |
| Themes.NormalizeIsIdempotent | src/AriaJournal.Core/UI/App.xaml.cs:456-465 | normalising the name of a normalised theme gives the same theme |
| Themes.ThemeIndex | src/AriaJournal.Core/UI/App.xaml.cs:498-508 | a theme's index is in range and the theme list holds that theme there |
| Themes.ThemeByIndex | src/AriaJournal.Core/UI/App.xaml.cs:522-532 | an index in range gives the theme at that index; any other gives Dark |
| Themes.ThemeIndexRoundTrip | src/AriaJournal.Core/UI/App.xaml.cs:498-532 | a theme's index gives the theme back, and an index in range gives a theme whose index it is |
| Themes.DigitAliasesMatchIndices | src/AriaJournal.Core/UI/App.xaml.cs:456-465 | normalising an index's digit gives the theme of that index, for every index |
| Themes.ThemeUri | src/AriaJournal.Core/UI/App.xaml.cs:470-479 | every theme's resource is a Theme.xaml file |
| Themes.ThemeUrisDistinct | src/AriaJournal.Core/UI/App.xaml.cs:470-479 | different themes have different resources |
| Themes.ThemeUriIsThemeDictionary | src/AriaJournal.Core/UI/App.xaml.cs:395-401 | every theme's own dictionary counts as a theme dictionary, so the next change removes it |
| Themes.NonThemes | src/AriaJournal.Core/UI/App.xaml.cs:395-401 | the dictionaries left are exactly the ones that are not theme dictionaries, as the subsequence at those positions (order and repetitions kept) |
| Themes.RequestedTheme | src/AriaJournal.Core/UI/App.xaml.cs:378-382 | a blank name selects Dark |
| Themes.App.constructor | src/AriaJournal.Core/UI/App.xaml.cs:50 | the application starts on Dark with its dictionaries as loaded |
| Themes.App.GetThemeIndex | src/AriaJournal.Core/UI/App.xaml.cs:498-508 | the index reported is in range and names the current theme |
| Themes.App.ChangeTheme | src/AriaJournal.Core/UI/App.xaml.cs:376-451 | the requested theme becomes current; requesting the current theme changes nothing; otherwise every theme dictionary is removed and the new theme's is put first, the others kept in order |
| Themes.App.ChangeThemeByIndex | src/AriaJournal.Core/UI/App.xaml.cs:513-517 | the theme of the index becomes current; when it already was current nothing changes, otherwise every theme dictionary is removed and its dictionary put first, the others kept in order |

## Source behaviour kept as written

The model reproduces these behaviours of the source on purpose:

- AggregationEngine.CalculateDrawdown: a recorded drawdown period's TroughBalance is the peak balance before the recovery, not the lowest equity reached. The model records that same value.
- ImportServices.ImportFromCsvText: the duplicate check looks only at trades stored before the import began, as the source's query does. Two equal rows in one file are therefore both imported.
- MetadataServices.MetadataService.SaveFormPreset: a preset with a non-zero id that no preset has updates nothing. When it is marked default it still clears every other default, as the source does.
- MetadataServices.MetadataService.CustomFieldValue: the source's query ignores the entity type it is given, and the model does the same.
- AccountServices.AccountService.SetDefault: the source does not check that the target account is active. Setting an inactive account as default leaves no default among the active ones, and the model keeps that.
- AuthEngines.AuthEngine.Login: after a lockout expires, the failed-attempt counter is not reset, so the next failure locks the account again at once, as in the source.
- UIRenderers.UIRendererEngine.RenderSection: a section whose field list is null throws. The model reports it as a failure.
- FieldEditors.FieldEditorViewModel.MoveDown: a field missing from a non-empty list makes the collection move from position -1, which throws. The model reports that case as a failure.
- FieldEditors.FieldEditorViewModel.DeleteField: the source passes the field's Order, not its id, to the delete call. The model keeps that.
- NavigationEngines.NavigationEngine.NavigateBack: two history entries are popped before the navigation. A failed navigation therefore leaves both popped, as in the source.
- UIRenderers.ValidateForm: a validation rule whose Persian message is the empty text fails silently, as in the source.
- ColumnEditors.ColumnEditorViewModel.MoveDown: as in the field editor, a column missing from a non-empty list makes the move start at position -1, which throws. The model reports it as a failure.
- RuleEngines.RulesEffects: before a UI renderer is set, applying rules has no effect.
- UIRenderers.RendererAndBuilderEmptiness: an empty multi-select list is empty to the form builder's required check. The renderer prints it as a type name, so its check finds the list not blank.

## Left out

- Persistence: EF Core, SQLite, the unit of work and the repositories are not modelled. Each table is a sequence of entities inside the service class, and the unique index on (TradeId, FieldDefinitionId) is the invariant `SavedRowsUnique` / `Valid` of the trade service.
- Caching and the event bus: cache evictions and published events have no effect in the model.
- Concurrency: async dispatch and locks are not modelled. Every operation runs to completion before the next.
- AggregationEngine: CalculatePerformanceMetricsAsync is floating-point (Math.Pow and Math.Sqrt on doubles), so it is not modelled. AverageHoldingTime is a double of minutes, so it is not modelled either.
- AggregationEngine grouped, time-distribution, symbol and period statistics are not modelled: they regroup the same per-trade figures. GetWeekStart, GetPeriodEnd and GetPeriodLabel are not modelled; GetQuarterStart is.
- TradeService GetUsedSymbolsAsync and MapToDto are plain projections and are not modelled.
- ImportService: the JSON import, PreviewImportAsync, ValidateFileAsync and the file reads are not modelled. The default column mapping is a parameter of the import, as an ordered list of pairs.
- MetadataService: these are not modelled, being repository upserts and JSON settings round-trips of the same kind as those modelled:
  - field and widget customizations;
  - user-defined field create, update and delete;
  - the schema and form getters;
  - export and import of user settings;
  - CloneForm and CloneTable.
- FieldDefinitionService GetFieldsByCategoryAsync and MapToDto are listings and projections and are not modelled.
- AccountService GetAccountSummariesAsync is not modelled. Its balance and win-rate figures are stated for one account by `TotalPnL` and `AccountWinRate`.
- AuthEngine: GenerateSessionToken is random, and the default settings and field definitions created at registration are seeding data. None of these is modelled.
- AuthEngines.AuthEngine.Login: AuthEngine.cs:73 passes the AccountLocked factory without its minutes. The model passes the minutes remaining, rounded up. The Persian message text is not modelled.
- PluginEngines.PluginEngine.SetEnabled: PluginEngine.cs:203 and 219 pass PluginNotFound without the plugin id. The model passes the id as the error's details.
- PluginEngine: assembly loading (LoadPlugins, LoadPluginFromDll, ReloadPluginsAsync) and writing the enabled state to settings are not modelled. Loaded plugins are given as values.
- Common.Construct: Result.cs compares an error with Error.None by reference. The model compares by value, so an error built with the empty code and message also counts as no error.
- Error.cs: the factories no core operation raises (backup, schema, file and database errors) and FromException are not modelled.
- DynamicDataGrid: these are WPF work and are not modelled:
  - schema loading, column creation and the context menu;
  - selection, the clipboard and the save dialog;
  - the raised row events and the button handlers;
  - the loading and no-data overlays.
  Property access by reflection is a column's key function, and the CSV file write is I/O.
- UIRendererEngine: control creation, data binding and extraction, visibility and enabled setters, and error display are WPF work and are not modelled. The regular-expression pattern check is a parameter of field validation.
- MigrationEngine.GetMigrations (the listing that joins registered migrations with history rows), EnsureMigrationHistoryTableAsync and the SQL of the initial migration are database work and are not modelled.
- RuleEngine built-ins `today`, `now`, `round`, `isempty`, `isnumber`, `tonumber` and `iif` are not modelled: they read the clock, convert arbitrary objects or only wrap a library call; the expression evaluator itself (NCalc) is a parameter of the model.
- NavigationEngine view creation, view-model parameter passing and the dispatcher are WPF work; whether a view can be created is a parameter.
- QueryEngine builds filter predicates from property names by reflection (BuildFilterExpression and its helpers); the model takes the built predicate per filter as a parameter, and sorting takes the column's key function. Loading and saving templates as JSON files is I/O and is not modelled.
- bcrypt hashing and verification, and the random number generator behind recovery keys, are parameters of the model.
- TradeEntryViewModel: loading a trade into the form (LoadTradeAsync), saving through the trade service, Save-and-new, Cancel and Back call services and navigation and are not modelled; the view model's validation, DTO building, calculations and property setters are.
- DynamicFormBuilder: creating the WPF controls (BuildForm, BuildField and the Create* methods), SetFormValues, ClearForm and reading values out of controls are UI work; the model starts from the value each control holds.
- FieldEditorViewModel: loading forms and fields, Reset, Save, Cancel, ShowDefaultFields and FilterFields talk to the metadata service and the window; the list editing commands are modelled.
- ColumnEditorViewModel RefreshAsync, ResetAsync, SaveAsync and Cancel: they talk to the metadata service, the event bus and dialogs; the model keeps the editor's in-memory state only.
- ColumnEditorViewModel LoadDefaultColumns: the defaults per data source are a parameter of LoadColumns rather than the literal column lists.
- ColumnEditorViewModel FilterColumns, selected-table change handling and InitializeAsync: search filtering is a view concern and the rest only sequences loads.
- ColumnEditorViewModel.EditColumn: the draft is the column itself, as the model's columns are values, so Clone is the identity.
- TradeListViewModel NewTrade, EditTrade and DeleteTrade: navigation and a confirmation dialog, then the trade service's delete, which the trade service model covers.
- TradeListViewModel TotalProfitLossDisplay, HasTrades and IsEmpty: display strings and flags with no behaviour beyond their expression.
- TradeListViewModel event subscriptions and InitializeAsync: each runs Load (or ApplyFilter for an account selection); the event bus is not part of this model.
- ScreenshotService saving, reading, listing, deleting, describing and orphan clean-up: file and database I/O; only the file naming and path layout are modelled.
- Screenshots.SymbolFolder: ToUpperInvariant is modelled on ASCII letters only; other letters are kept as they are.
- Themes.NormalizeThemeName: ToLower is modelled on ASCII letters only (the Persian aliases have no case); culture-specific lower-casing is not modelled.
- App ChangeTheme's exception path (falling back to the Dark dictionary when WPF refuses a resource), its early return when there is no running application, RefreshAllWindows and LoadSavedThemeAsync: WPF and settings I/O.
- App start-up, shutdown, service registration and view registration: host and dependency-injection wiring.
- TradeDtos.TotalPages: the double-to-int cast is taken as exact; for a zero page size, where the cast has no defined value, the model says None.
- TradeDtos.WinRate: decimal division is modelled on reals, without decimal's 28-digit rounding.
- ParseDecimalOrZero, ParseNullableDecimal, FieldNumber, TradeFromRow, FormProblemIffNotAcceptable, ValidateForm, CheckValue, ValidateField, FieldValueError and IsValidNumber: `Text.ParseDecimal` reads only a trimmed `[sign]digits[.digits]`. `decimal.TryParse` also accepts more. With its default NumberStyles.Number (TradeEntryViewModel.cs, UIRendererEngine.cs:668 and 677, DynamicFormBuilder.cs:836) it takes thousands separators such as "1,234.56". With NumberStyles.Any (ImportService.cs:555-647 and DynamicFormBuilder.cs:986) it also takes exponents ("1e3"), parentheses ("(5)"), trailing signs ("5-") and currency symbols. On those inputs the model finds no number where the program finds one, and the current culture's separators are not modelled either. The same holds for TradeEntry's ProfitLoss, Pips and RiskReward inputs and for the rule engine's `isnumber` and `tonumber`.
- Score and CheckStrength: `char.IsUpper`, `char.IsLower`, `char.IsDigit` and `char.IsLetterOrDigit` are modelled on ASCII only. A letter or digit outside ASCII (Persian letters, the digits "۱۲۳") counts as a special character in the model. The program counts it as a letter or digit, so such passwords can land one band apart.
- UserAccounts, UserFields, GetTemplates and SortedTemplates: OrderBy and ThenBy on string keys use `Comparer<string>.Default`, which compares culture-sensitively. The model compares ordinally, so "Beta" comes before "alpha" in the model and after it in the program. The ordering lemmas rely only on the comparison being a total preorder.
- ParseTimeOfDay, EntryDateTime and ExitDateTime: `TimeSpan.TryParse` reads a whole grammar: a bare day count ("14"), a day part ("1.09:30"), fractional seconds ("9:30:15.5") and a sign ("-1:00"). The model reads only `H:mm[:ss]` under one day. On the other inputs it keeps the bare date, where the program adds the parsed span, which may lie outside that day.
- CellText, RowCells, Csv, ExportCellsRoundTrip and DynamicDataGrid.ExportToCsv: the export writes `FormatValue(value, column)` (DynamicDataGrid.xaml.cs:732 and 746-759). Dates become yyyy/MM/dd, date-times yyyy/MM/dd HH:mm, currency N2, percent P2 and booleans the Persian yes or no. FormatValue is not modelled, and the model writes the cell's text as it is. The round trip holds for that text, not for the formatted one.
- ValueOf and MetadataService.CustomFieldValue: MetadataService.cs:735-741 reads the rows without Include, so a row's FieldDefinition is set only when the context already tracks that definition. Entity Framework's change tracking is not modelled. The model resolves every row's definition, so it may find a value where the program returns null.
- TradeServices.PageStart and GetTrades: TradeService.cs:126 computes `(PageNumber - 1) * PageSize` in 32-bit arithmetic, which can wrap around. The model uses the exact product. The grid's products at DynamicDataGrid.xaml.cs:631 and 639-640 (DataGrids.StartItem, EndItem and the page shown) are exact in the model as well. QueryEngines.PageStart does model this wrap-around.
- ToLower, ToUpper, IsWhiteSpace, OneDecimal and DatePart: text handling is modelled on ASCII and the invariant culture. `Text.ToLower` and `Text.ToUpper` map only A to Z. `Text.IsWhiteSpace` covers the common white-space characters, not every one `char.IsWhiteSpace` knows. A length counts Dafny characters, where .NET counts UTF-16 code units. `TradeLists.OneDecimal` prints with the invariant culture's separators, where `{rate:N1}` uses the current culture's. `Screenshots.DatePart` uses the Gregorian calendar, where `yyyy` follows the current culture's calendar. Members built on these inherit them: the name normalisations for accounts and field definitions, AuthEngines.FindUser, RecoveryKeys.Clean, the navigation keys, RuleEngines.OnTrigger, TradeEntry.PipValue and SetSymbol, the grid filter and the form builder's length checks.

## Findings

Three places where the code as written departs from what it evidently intends. For each one the model keeps the behaviour as written, with a lemma that shows the gap. The rest of the model uses the corrected definition, with the intended property proved about it.

| source | as written | input that shows it | evidently intended | confidence | as-written member | corrected member |
|---|---|---|---|---|---|---|
| src/AriaJournal.Core/Application/Services/AccountService.cs:183-205 | Other defaults are cleared only when the account was not already marked default. A soft-deleted account keeps its default mark. | Default account 1 is deleted, and account 2 becomes the default. Account 1 is then updated with IsDefault and IsActive set. It comes back active and default beside account 2. | Clear the other defaults whenever the updated account ends up the active default, so at most one active default remains. | medium (not executed) | AccountServices.UpdateAsWrittenBreaksOneDefault | AccountServices.UpdateKeepsOneDefault |
| src/AriaJournal.Core/UI/Controls/DynamicDataGrid.xaml.cs:568-575 | The page commands change the CurrentPage property. The page shown is read from the private _currentPage field (lines 625-632), and nothing copies the property into the field. | 120 items at a page size of 50, then NextPage. The grid reports page 2 but still shows items 1 to 50. | Moving to a page shows that page's rows. | high (not executed) | DataGrids.NextPageAsWrittenShowsOldRows | DataGrids.DynamicDataGrid.NextPage |
| src/AriaJournal.Core/UI/ViewModels/ColumnEditorViewModel.cs:607-614 | UpdateIsAllSelected assigns the IsAllSelected property. Its change handler (lines 215-223) sets every column's visibility to the new value and marks the editor changed. | A table saved with one visible and one hidden column, loaded while the box is ticked. Both columns load hidden, with unsaved changes. | The box follows the columns, and the loaded visibility is kept. | high (not executed) | ColumnEditors.AsWrittenCounterexample | ColumnEditors.ColumnEditorViewModel.UpdateIsAllSelected |
