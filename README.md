# Brand budgets and dayparting: a verified model

This project models the decision core of a small Django advertising app.
Each brand has a monthly budget, a daily budget and an optional dayparting
list. A dayparting list holds time-of-day windows in which the brand's
campaign may spend. The app keeps an append-only ledger of spends. The
status view tells whether a brand's campaign is active right now.

The model covers:

- **Dayparting parsing and serialization** (`Dayparting`):
  `dayparting_from_json` is a lenient loop. It keeps, in order, the entries
  that are two-element lists whose two sides both parse as `%H:%M` times.
  `dayparting_to_json` renders every time back as zero-padded `HH:MM`.
  Both are written as loops (`DaypartingFromJson`, `DaypartingToJson`). Each
  is proved equal to a specification function (`ParseEntries`,
  `SerializeEntries`), and the properties are proved about those functions.
  The three dayparting functions appear twice in the source, in
  `src/aa/fin/dayparting.py:4-34` and as an identical copy in
  `src/aa/fin/views.py:15-45`. They are modelled once, and the table cites
  the first copy.
- **The dayparting evaluator** (`IsTimeInDayparting`): an empty list allows
  every time. Otherwise some interval must hold the time strictly inside. No
  interval wraps past midnight.
- **Spend totals and the activity verdict** (`Campaign`): two windowed sums
  over the ledger and a three-way conjunction.
- **The views' state changes** (`Store`): a class `BrandStore` with the
  brand table and the spend ledger. It has methods for brand creation, the
  field-by-field brand update, spend registration, and the read-only views.

Representation choices:

- Money is integer cents. Every stored amount has two decimal places, so
  sums are exact and `round(..., 2)` is the identity.
- A time of day carries hour, minute, second and microsecond. `now.time()`
  has all four. Parsed dayparting times are whole minutes.
- Instants are `(year, month, day, time)` records, ordered lexicographically.
- The current instant is a parameter.
- A raw dayparting entry is either "not a list" or a list of strings.
- `strptime(s, '%H:%M')` is modelled by the grammar its regular expression
  accepts: one or two digits with value below 24, a colon, then one or two
  digits with value below 60, with nothing else around them. So `"8:00"`
  parses, and it is written back as `"08:00"`. The law that holds for
  arbitrary input is therefore `parse(serialize(parse(x))) == parse(x)`, not
  string identity.

The test `test_dayparting_respected` (`src/aa/fin/tests.py:119`) expects the
brand limited to `03:00`-`04:00` to be active at exactly 03:00:00.000000 and
04:00:00.000000. The code compares strictly (`from_time < time < to_time`)
and reports it inactive at those two instants. The model follows the code:
see `NightWindowBlocks` and `BoundaryExample`.

## Model

| member | source | states |
|---|---|---|
| `Clock.Before` | src/aa/fin/dayparting.py:34 | defines Python's `<` on `datetime.time`: hour, then minute, then second, then microsecond |
| `Clock.BeforeIsStrictTotalOrder` | src/aa/fin/dayparting.py:34 | `<` on times is irreflexive, transitive, asymmetric and total |
| `Clock.AtOrBefore` | src/aa/fin/views.py:117-119 | defines Python's `<=` on `datetime`: year, month, day, then the time of day |
| `Clock.AtOrBeforeIsTotalOrder` | src/aa/fin/views.py:117-119 | `<=` on instants is reflexive, transitive, antisymmetric and total |
| `Clock.DayStart` | src/aa/fin/views.py:115 | the day start is on the same date as `now`, not after `now`, and not after any instant of that date |
| `Clock.MonthStart` | src/aa/fin/views.py:116 | the month start is in the same month as the day start and not after it; from a midnight base it is not after any instant of that month |
| `Clock.WindowStartsOrdered` | src/aa/fin/views.py:115-116 | `month_start <= day_start <= now` |
| `Clock.DayWindowIsCalendarDay` | src/aa/fin/views.py:115-118 | an instant is in `[day_start, now]` iff it is on `now`'s date and not after `now` |
| `Clock.MonthWindowIsCalendarMonth` | src/aa/fin/views.py:115-119 | an instant is in `[month_start, now]` iff it is in `now`'s month and not after `now` |
| `Clock.DayWindowInsideMonthWindow` | src/aa/fin/views.py:118-119 | every instant at or after the day start is at or after the month start |
| `Dayparting.FieldValue` | src/aa/fin/dayparting.py:10 | a `%H`/`%M` field is one or two ASCII digits with value below the bound |
| `Dayparting.FieldValueIsDigitsValue` | src/aa/fin/dayparting.py:10 | an accepted field has the value its digits spell, and every one- or two-digit ASCII field whose value is below the bound is accepted |
| `Dayparting.ParseTime` | src/aa/fin/dayparting.py:9-16 | a parsed side is a whole-minute time taken from a 3-5 character string containing a colon |
| `Dayparting.FieldSpelling` | src/aa/fin/dayparting.py:10 | a spelling of `n` is one or two digits that spell `n`, two exactly when padding is asked for or `n >= 10` |
| `Dayparting.ParseSpelling` | src/aa/fin/dayparting.py:10 | for every hour below 24 and minute below 60, each of `H:M`, `H:MM`, `HH:M`, `HH:MM` parses to that time at zero seconds |
| `Dayparting.ParsedIsSpelling` | src/aa/fin/dayparting.py:10 | conversely, every string that parses is one of those four spellings of the time it gives |
| `Dayparting.FormatTime` | src/aa/fin/dayparting.py:25-26 | the rendering is zero-padded `HH:MM` whose digits spell the hour and the minute |
| `Dayparting.ParseFormatTime` | src/aa/fin/dayparting.py:25-26 | parsing a rendered time gives the time back, apart from the seconds the rendering drops |
| `Dayparting.FormatParseTime` | src/aa/fin/dayparting.py:10 | a zero-padded string that parses renders back to itself |
| `Dayparting.EntryInterval` | src/aa/fin/dayparting.py:7-17 | an entry yields an interval iff it is a two-element list whose two sides both parse, and the interval holds those two times |
| `Dayparting.ParseEntries` | src/aa/fin/dayparting.py:4-18 | the parsed list is no longer than the input and holds only whole-minute intervals |
| `Dayparting.DaypartingFromJson` | src/aa/fin/dayparting.py:4-18 | the loop with its `continue`s computes exactly `ParseEntries` |
| `Dayparting.RenderInterval` | src/aa/fin/dayparting.py:24-27 | an interval renders as a two-element list of zero-padded strings |
| `Dayparting.SerializeEntries` | src/aa/fin/dayparting.py:21-28 | the serialization keeps length and order, and element k renders interval k |
| `Dayparting.DaypartingToJson` | src/aa/fin/dayparting.py:21-28 | the loop computes exactly `SerializeEntries` |
| `Dayparting.Normalize` | src/aa/fin/views.py:90 | the stored form is no longer than the input, and every element is a pair of zero-padded strings |
| `Dayparting.ParseEntriesAppend` | src/aa/fin/dayparting.py:5-18 | parsing distributes over concatenation, so each entry is judged alone and order is kept |
| `Dayparting.DropsNonPair` | src/aa/fin/dayparting.py:7 | an entry that is not a list, or not of length 2, is removed without trace |
| `Dayparting.DropsWholePair` | src/aa/fin/dayparting.py:9-16 | if either side of a pair fails to parse, the whole pair is removed |
| `Dayparting.KeepsValidPair` | src/aa/fin/dayparting.py:17 | a pair whose sides both parse is kept in place as the interval of those two times |
| `Dayparting.ParsedIsSubsequence` | src/aa/fin/dayparting.py:5-18 | the output is the in-order subsequence of the valid entries' intervals, at increasing positions that include every valid entry |
| `Dayparting.RoundTrip` | src/aa/fin/dayparting.py:4-28 | `parse(serialize(ts)) == ts` for whole-minute intervals |
| `Dayparting.NormalizeIsStable` | src/aa/fin/views.py:90 | `parse(serialize(parse(x))) == parse(x)`, and normalizing twice equals normalizing once |
| `Dayparting.NormalizeKeepsCanonical` | src/aa/fin/dayparting.py:4-28 | a list of valid zero-padded pairs is stored unchanged |
| `Dayparting.SerializationExample` | src/aa/fin/tests.py:133-144 | `[['08:00','10:00'],['13:30','14:00']]` survives normalization unchanged |
| `Dayparting.LenientParseExample` | src/aa/fin/dayparting.py:9-17 | `[['25:99','10:00'],['08:00','10:00']]` parses to the single interval 08:00-10:00 |
| `Dayparting.SingleDigitHourExample` | src/aa/fin/dayparting.py:10 | `"8:00"` is accepted and stored back as `"08:00"` |
| `Dayparting.Inside` | src/aa/fin/dayparting.py:34 | defines `from_time < t < to_time`: strictly after the start and strictly before the end |
| `Dayparting.AnyInside` | src/aa/fin/dayparting.py:34 | `any(...)` holds iff some interval has `from < t < to` |
| `Dayparting.IsTimeInDayparting` | src/aa/fin/dayparting.py:31-34 | an empty list allows every time; a non-empty list allows `t` iff some interval has `from < t < to` |
| `Dayparting.BoundariesExcluded` | src/aa/fin/dayparting.py:34 | neither end of an interval is inside it |
| `Dayparting.InvertedIntervalIsEmpty` | src/aa/fin/dayparting.py:34 | an interval with `from >= to` admits no time, so there is no overnight wrap |
| `Dayparting.OnlyInvertedIntervalsBlockAll` | src/aa/fin/dayparting.py:34 | a non-empty list of inverted intervals blocks every time |
| `Dayparting.OrderIrrelevant` | src/aa/fin/dayparting.py:34 | lists with the same intervals, in any order, give the same verdict |
| `Dayparting.MoreWindowsAllowMore` | src/aa/fin/dayparting.py:34 | adding intervals to a non-empty list never takes an allowed time away |
| `Dayparting.BoundaryExample` | src/aa/fin/dayparting.py:34 | 03:30 is inside 03:00-04:00; 03:00 and 04:00 are not |
| `Campaign.InWindow` | src/aa/fin/views.py:117-119 | defines the filters: the record's brand is the brand, and `from <= timestamp <= now` |
| `Campaign.Window` | src/aa/fin/views.py:117-119 | a record is selected iff it is in the ledger, belongs to the brand and is dated in `[from, now]`; non-negative amounts stay non-negative |
| `Campaign.Total` | src/aa/fin/views.py:118-119 | an empty selection sums to 0, and non-negative amounts give a non-negative sum |
| `Campaign.SpendsToday` | src/aa/fin/views.py:118 | defines `amount_today` as the total of the window from the day start to `now` |
| `Campaign.SpendsThisMonth` | src/aa/fin/views.py:119 | defines `amount_this_month` as the total of the window from the month start to `now` |
| `Campaign.DaypartingRespected` | src/aa/fin/views.py:120 | defines `is_dayparting_respected` as the evaluator applied to `now`'s time and the parsed stored list |
| `Campaign.CampaignStatus` | src/aa/fin/views.py:112-125 | the totals are the day and month window sums; `is_active` iff dayparting allows `now.time()`, month total < monthly budget and today total < daily budget; with non-negative amounts `0 <= today <= month` |
| `Campaign.TotalAppend` | src/aa/fin/views.py:118 | the sum of a concatenation is the sum of the sums |
| `Campaign.WindowSnoc` | src/aa/fin/views.py:117-119 | the window of a ledger with one more record is the old window followed by that record if it is in the window, so repeated records are each counted |
| `Campaign.WindowTotalSnoc` | src/aa/fin/views.py:117-119 | appending one record adds its amount to a window's total iff it falls in the window |
| `Campaign.MonthCoversToday` | src/aa/fin/views.py:118-119 | with non-negative amounts the month total is at least the today total |
| `Campaign.FutureSpendIgnored` | src/aa/fin/views.py:117 | a record dated after `now` changes neither total nor the status |
| `Campaign.OtherBrandIgnored` | src/aa/fin/views.py:117 | another brand's record does not change the status |
| `Campaign.SpendTodayCounted` | src/aa/fin/views.py:118-119 | a record of the brand dated today, not after `now`, adds its amount to both totals |
| `Campaign.SpendEarlierThisMonthCounted` | src/aa/fin/views.py:118-119 | a record dated earlier this month, not today, adds to the month total only |
| `Campaign.UniformTodayTotals` | src/aa/fin/tests.py:84-94 | n records of a cents each, dated today, total `n * a` both today and this month |
| `Campaign.ZeroMonthlyBudgetNeverActive` | src/aa/fin/views.py:124 | a brand with monthly budget 0 is never active under non-negative amounts |
| `Campaign.DailyBudgetReachedInactive` | src/aa/fin/views.py:124 | spending exactly the daily budget, or more, makes the brand inactive |
| `Campaign.NoDaypartingNeverBlocks` | src/aa/fin/views.py:120-124 | with no valid dayparting entries only the two budget comparisons decide |
| `Campaign.RegisterSpendScenario` | src/aa/fin/tests.py:101-115 | nine spends of 1.00 against 100.00/10.00 give 9.00/9.00 and active; one more gives 10.00/10.00 and inactive |
| `Campaign.NightWindowBlocks` | src/aa/fin/tests.py:117-125 | the 03:00-04:00 brand is inactive at every instant not strictly inside the window, both ends included |
| `Store.IsTruthyName` | src/aa/fin/views.py:80 | defines `if name:` for a string that may be absent or null: present and non-empty |
| `Store.IsTruthyAmount` | src/aa/fin/views.py:107 | defines `if amount:` for a number that may be absent or null: present and non-zero |
| `Store.Updated` | src/aa/fin/views.py:79-90 | the name changes only if truthy; each budget only if not None; dayparting only if a list was sent, and then it is normalized and parses like the request, so it is `serialize(parse(x))`; a normalized list stays normalized |
| `Store.Created` | src/aa/fin/views.py:53-62 | a new brand takes the given name and budgets; its dayparting is `[]` when absent, otherwise it parses like the request; it is normalized |
| `Store.ApplyUpdate` | src/aa/fin/views.py:79-90 | the field-by-field assignments, with the dayparting run through both loops, produce exactly `Updated` |
| `Store.ReplaceKeepsConsistent` | src/aa/fin/views.py:91 | saving a stored brand whose dayparting is normalized keeps ids, ledger references and normal forms consistent |
| `Store.BrandStore.CreateBrand` | src/aa/fin/views.py:51-65 | inserts the created brand under a fresh id and returns that id; the ledger is unchanged |
| `Store.BrandStore.UpdateBrand` | src/aa/fin/views.py:76-92 | an unknown id is NotFound and changes nothing; otherwise only that brand changes, to `Updated`; the ledger is unchanged |
| `Store.BrandStore.RegisterSpend` | src/aa/fin/views.py:103-109 | an unknown id is NotFound; a falsy amount leaves the ledger unchanged; otherwise exactly one spend stamped `now` is appended; brands are unchanged |
| `Store.BrandStore.Details` | src/aa/fin/views.py:93-98 | returns the stored brand, or NotFound for an unknown id |
| `Store.BrandStore.ListBrands` | src/aa/fin/views.py:66-71 | holds exactly the stored ids, each with its brand's name |
| `Store.BrandStore.CampaignStatusOf` | src/aa/fin/views.py:112-125 | NotFound for an unknown id; otherwise the status computed by `CampaignStatus` over the whole ledger |
| `Store.EmptyUpdateKeepsBrand` | src/aa/fin/views.py:79-90 | an update with no fields, or only a falsy name, keeps the brand as it was |
| `Store.ZeroBudgetIsApplied` | src/aa/fin/views.py:82-87 | a budget of 0 is applied, while an empty name is ignored |
| `Store.BudgetsOnlyUpdate` | src/aa/fin/tests.py:73-82 | posting only the two budgets changes those and nothing else |
| `Store.UpdateIsIdempotent` | src/aa/fin/views.py:79-90 | applying the same update twice equals applying it once |
| `Store.CreatedDaypartingExample` | src/aa/fin/tests.py:132-144 | a brand created with `[['08:00','10:00'],['13:30','14:00']]` stores that list unchanged |
| `Store.RegisteredSpendCounts` | src/aa/fin/views.py:106-108 | a spend registered at `now` adds its amount to both of the brand's totals |
| `StoreScenarios.RegisterSpendThroughStore` | src/aa/fin/tests.py:101-115 | through the store's own methods, nine spends of 1.00 give an active 9.00/9.00 status and a tenth gives an inactive 10.00/10.00 |

## Left out

- HTTP and framework plumbing is not modelled: `json.loads`, `JsonResponse`, `csrf_exempt` and dispatch on the request method. A request body arrives decoded, with absent and null fields as `None`. A `register_spend` request that is not a POST only does the 404 check, and that path is not modelled separately.
- An undecodable body, and a `brand_list` POST missing `name` or a budget, raise in the source and end the request with a server error. These paths are not modelled.
- At creation, a non-list `dayparting` value is not modelled. In the source, a string or an object iterates into `[]`, and a number or null raises. An update ignores any non-list value, and the model covers that case.
- A two-element dayparting list whose first side is not a string raises `TypeError` in the source, and nothing catches it. So does a list whose first side parses and whose second side is not a string. A first side that is a string and fails to parse skips the pair before the second side is read, so that pair is dropped without error whatever its second side is. Raw pair sides are strings in the model, so the two raising cases are not modelled.
- The `\d` in `strptime`'s pattern also matches non-ASCII decimal digits. Only ASCII digits are modelled.
- Django's ORM is not modelled: its filters and aggregates become sequence filtering and summing. Ids come from a counter. `on_delete=PROTECT` becomes the store invariant that every spend names a stored brand. `auto_now_add` becomes the `now` parameter of `RegisterSpend`.
- Brands created directly through the ORM, bypassing the views, may hold a dayparting list that is not normalized. The store only holds brands created through the views.
- Money is integer cents. Amounts with more than two decimals, which the database field would round, are not modelled. The `max_digits=10` bound is not modelled either.
- `timezone.now()` and timezone conversion are not modelled: `now` is a parameter, and the day and month windows use its own calendar fields. Dates are not checked against month lengths.
- Concurrent spend registration is not modelled; the database handles it.
- `src/aa/fin/models.py` and `src/aa/fin/urls.py` are not part of this model. They only declare fields and routes.
- Store.BrandStore.ListBrands: returns a map from id to name, without the order in which the query lists the brands.
