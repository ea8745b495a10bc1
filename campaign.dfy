/**
 * The campaign activity decision: given a brand, the spend ledger and the
 * current instant, total the brand's spend for the current calendar day and
 * month and decide whether the campaign may spend now.
 *
 * Money is kept in integer cents. Every amount the ledger holds has two
 * decimal places, so the totals are exact and rounding them to two places
 * changes nothing.
 */
module Campaign {

  import opened Wrappers
  import opened Clock
  import opened Dayparting

  type BrandId = nat

  /** A brand: its name, its budgets in cents and its stored (JSON) dayparting list. */
  datatype Brand = Brand(name: string, monthlyBudget: int, dailyBudget: int, dayparting: seq<RawEntry>)

  /** One ledger record: the brand charged, when, and how many cents. */
  datatype Spend = Spend(brand: BrandId, timestamp: DateTime, amount: int)

  /** The response of the status view. */
  datatype Status = Status(spendsThisMonth: int, spendsToday: int, isActive: bool)

  predicate NonNegative(spends: seq<Spend>) {
    forall i :: 0 <= i < |spends| ==> spends[i].amount >= 0
  }

  /** A record of `brand` dated in `[from, now]`. */
  predicate InWindow(s: Spend, brand: BrandId, from: DateTime, now: DateTime) {
    s.brand == brand && AtOrBefore(s.timestamp, now) && AtOrBefore(from, s.timestamp)
  }

  /** The records `filter(brand=brand, datetime__lte=now).filter(datetime__gte=from)` selects, in ledger order. */
  function Window(spends: seq<Spend>, brand: BrandId, from: DateTime, now: DateTime): (r: seq<Spend>)
    ensures |r| <= |spends|
    ensures forall s :: s in r <==> s in spends && InWindow(s, brand, from, now)
    ensures NonNegative(spends) ==> NonNegative(r)
    decreases |spends|
  {
    if spends == [] then []
    else
      var last := spends[|spends| - 1];
      Window(spends[..|spends| - 1], brand, from, now) + (if InWindow(last, brand, from, now) then [last] else [])
  }

  /** `aggregate(Sum('amount'))`, with 0 for an empty set of records (the `or Decimal(0.0)` case). */
  function Total(spends: seq<Spend>): (r: int)
    ensures spends == [] ==> r == 0
    ensures NonNegative(spends) ==> r >= 0
    decreases |spends|
  {
    if spends == [] then 0
    else Total(spends[..|spends| - 1]) + spends[|spends| - 1].amount
  }

  /** `amount_today`: the brand's spend from the start of today up to `now`. */
  function SpendsToday(spends: seq<Spend>, brand: BrandId, now: DateTime): int {
    Total(Window(spends, brand, DayStart(now), now))
  }

  /** `amount_this_month`: the brand's spend from the first of this month up to `now`. */
  function SpendsThisMonth(spends: seq<Spend>, brand: BrandId, now: DateTime): int {
    Total(Window(spends, brand, MonthStart(DayStart(now)), now))
  }

  /** `is_time_in_dayparting(now.time(), dayparting_from_json(brand.dayparting))`. */
  predicate DaypartingRespected(brand: Brand, now: DateTime) {
    IsTimeInDayparting(now.time, ParseEntries(brand.dayparting))
  }

  /** The body of the status view for brand `id`. */
  function CampaignStatus(brand: Brand, id: BrandId, spends: seq<Spend>, now: DateTime): (r: Status)
    ensures r.spendsToday == SpendsToday(spends, id, now)
    ensures r.spendsThisMonth == SpendsThisMonth(spends, id, now)
    ensures r.isActive <==>
              DaypartingRespected(brand, now) &&
              r.spendsThisMonth < brand.monthlyBudget &&
              r.spendsToday < brand.dailyBudget
    ensures NonNegative(spends) ==> 0 <= r.spendsToday <= r.spendsThisMonth
  {
    MonthCoversToday(spends, id, now);
    var amountToday := SpendsToday(spends, id, now);
    var amountThisMonth := SpendsThisMonth(spends, id, now);
    var respected := DaypartingRespected(brand, now);
    Status(amountThisMonth, amountToday,
           respected && amountThisMonth < brand.monthlyBudget && amountToday < brand.dailyBudget)
  }

  // ---------------------------------------------------------------------------
  // Sums and windows
  // ---------------------------------------------------------------------------

  lemma {:induction false} TotalAppend(a: seq<Spend>, b: seq<Spend>)
    ensures Total(a + b) == Total(a) + Total(b)
    decreases |b|
  {
    if b == [] {
      assert a + b == a;
    } else {
      var b' := b[..|b| - 1];
      assert (a + b)[..|a + b| - 1] == a + b';
      TotalAppend(a, b');
    }
  }

  lemma WindowSnoc(spends: seq<Spend>, s: Spend, brand: BrandId, from: DateTime, now: DateTime)
    ensures Window(spends + [s], brand, from, now)
         == Window(spends, brand, from, now) + (if InWindow(s, brand, from, now) then [s] else [])
  {
    assert (spends + [s])[..|spends|] == spends;
  }

  /** Adding one record changes a window's total by its amount if it falls in the window, and not at all otherwise. */
  lemma WindowTotalSnoc(spends: seq<Spend>, s: Spend, brand: BrandId, from: DateTime, now: DateTime)
    ensures Total(Window(spends + [s], brand, from, now))
         == Total(Window(spends, brand, from, now)) + (if InWindow(s, brand, from, now) then s.amount else 0)
  {
    WindowSnoc(spends, s, brand, from, now);
    var w := Window(spends, brand, from, now);
    TotalAppend(w, if InWindow(s, brand, from, now) then [s] else []);
    assert [s][..0] == [];
  }

  /** Today's records are among this month's, so with non-negative amounts the month total is at least today's. */
  lemma {:induction false} MonthCoversToday(spends: seq<Spend>, brand: BrandId, now: DateTime)
    ensures NonNegative(spends) ==> SpendsToday(spends, brand, now) <= SpendsThisMonth(spends, brand, now)
    decreases |spends|
  {
    if spends != [] && NonNegative(spends) {
      var n := |spends| - 1;
      var init, s := spends[..n], spends[n];
      assert spends == init + [s];
      assert NonNegative(init);
      MonthCoversToday(init, brand, now);
      WindowTotalSnoc(init, s, brand, DayStart(now), now);
      WindowTotalSnoc(init, s, brand, MonthStart(DayStart(now)), now);
      if InWindow(s, brand, DayStart(now), now) {
        DayWindowInsideMonthWindow(now, s.timestamp);
      }
    }
  }

  /** A record dated after `now` counts in neither total, and so does not change the status. */
  lemma FutureSpendIgnored(brand: Brand, id: BrandId, spends: seq<Spend>, s: Spend, now: DateTime)
    requires !AtOrBefore(s.timestamp, now)
    ensures SpendsToday(spends + [s], id, now) == SpendsToday(spends, id, now)
    ensures SpendsThisMonth(spends + [s], id, now) == SpendsThisMonth(spends, id, now)
    ensures CampaignStatus(brand, id, spends + [s], now) == CampaignStatus(brand, id, spends, now)
  {
    WindowTotalSnoc(spends, s, id, DayStart(now), now);
    WindowTotalSnoc(spends, s, id, MonthStart(DayStart(now)), now);
  }

  /** A record of another brand counts in neither total. */
  lemma OtherBrandIgnored(brand: Brand, id: BrandId, spends: seq<Spend>, s: Spend, now: DateTime)
    requires s.brand != id
    ensures CampaignStatus(brand, id, spends + [s], now) == CampaignStatus(brand, id, spends, now)
  {
    WindowTotalSnoc(spends, s, id, DayStart(now), now);
    WindowTotalSnoc(spends, s, id, MonthStart(DayStart(now)), now);
  }

  /** A record of this brand dated today, not after `now`, adds its amount to both totals. */
  lemma SpendTodayCounted(spends: seq<Spend>, s: Spend, id: BrandId, now: DateTime)
    requires s.brand == id && SameDate(s.timestamp, now) && AtOrBefore(s.timestamp, now)
    ensures SpendsToday(spends + [s], id, now) == SpendsToday(spends, id, now) + s.amount
    ensures SpendsThisMonth(spends + [s], id, now) == SpendsThisMonth(spends, id, now) + s.amount
  {
    WindowTotalSnoc(spends, s, id, DayStart(now), now);
    WindowTotalSnoc(spends, s, id, MonthStart(DayStart(now)), now);
    DayWindowIsCalendarDay(now, s.timestamp);
    MonthWindowIsCalendarMonth(now, s.timestamp);
  }

  /** A record of this brand dated earlier this month, but not today, adds to the month total only. */
  lemma SpendEarlierThisMonthCounted(spends: seq<Spend>, s: Spend, id: BrandId, now: DateTime)
    requires s.brand == id && SameMonth(s.timestamp, now) && !SameDate(s.timestamp, now)
    requires AtOrBefore(s.timestamp, now)
    ensures SpendsToday(spends + [s], id, now) == SpendsToday(spends, id, now)
    ensures SpendsThisMonth(spends + [s], id, now) == SpendsThisMonth(spends, id, now) + s.amount
  {
    WindowTotalSnoc(spends, s, id, DayStart(now), now);
    WindowTotalSnoc(spends, s, id, MonthStart(DayStart(now)), now);
    DayWindowIsCalendarDay(now, s.timestamp);
    MonthWindowIsCalendarMonth(now, s.timestamp);
  }

  /** Records of one brand, all dated today up to `now`, each of `amount` cents. */
  predicate UniformToday(spends: seq<Spend>, id: BrandId, now: DateTime, amount: int) {
    forall i :: 0 <= i < |spends| ==>
      spends[i].brand == id && spends[i].amount == amount &&
      SameDate(spends[i].timestamp, now) && AtOrBefore(spends[i].timestamp, now)
  }

  lemma MulSucc(n: nat, a: int)
    ensures (n + 1) * a == n * a + a
  {
  }

  /** `n` such records total `n * amount` both today and this month. */
  lemma {:induction false} UniformTodayTotals(spends: seq<Spend>, id: BrandId, now: DateTime, amount: int)
    requires UniformToday(spends, id, now, amount)
    ensures SpendsToday(spends, id, now) == |spends| * amount
    ensures SpendsThisMonth(spends, id, now) == |spends| * amount
    decreases |spends|
  {
    if spends != [] {
      var n := |spends| - 1;
      var init, s := spends[..n], spends[n];
      assert spends == init + [s];
      UniformTodayTotals(init, id, now, amount);
      SpendTodayCounted(init, s, id, now);
      MulSucc(n, amount);
    }
  }

  // ---------------------------------------------------------------------------
  // The verdict
  // ---------------------------------------------------------------------------

  /** A brand whose monthly budget is 0 (or less) is never active while amounts are non-negative. */
  lemma ZeroMonthlyBudgetNeverActive(brand: Brand, id: BrandId, spends: seq<Spend>, now: DateTime)
    requires NonNegative(spends) && brand.monthlyBudget <= 0
    ensures !CampaignStatus(brand, id, spends, now).isActive
  {
  }

  /** Reaching the daily budget exactly makes the brand inactive: the comparison is strict. */
  lemma DailyBudgetReachedInactive(brand: Brand, id: BrandId, spends: seq<Spend>, now: DateTime)
    requires SpendsToday(spends, id, now) >= brand.dailyBudget
    ensures !CampaignStatus(brand, id, spends, now).isActive
  {
  }

  /** With no valid dayparting entries (in particular none at all) only the budgets decide. */
  lemma NoDaypartingNeverBlocks(brand: Brand, id: BrandId, spends: seq<Spend>, now: DateTime)
    requires ParseEntries(brand.dayparting) == []
    ensures CampaignStatus(brand, id, spends, now).isActive <==>
              SpendsThisMonth(spends, id, now) < brand.monthlyBudget &&
              SpendsToday(spends, id, now) < brand.dailyBudget
  {
  }

  /**
   * Nine spends of 1.00 today against budgets of 100.00 a month and 10.00 a
   * day: both totals read 9.00 and the brand is active; one more spend of 1.00
   * brings today's total to 10.00, equal to the daily budget, and the brand
   * is inactive.
   */
  lemma RegisterSpendScenario(spends: seq<Spend>, s: Spend, id: BrandId, now: DateTime)
    requires |spends| == 9 && UniformToday(spends, id, now, 100)
    requires s == Spend(id, now, 100)
    ensures CampaignStatus(Brand("Bakai", 10000, 1000, []), id, spends, now) == Status(900, 900, true)
    ensures CampaignStatus(Brand("Bakai", 10000, 1000, []), id, spends + [s], now) == Status(1000, 1000, false)
  {
    UniformTodayTotals(spends, id, now, 100);
    AtOrBeforeIsTotalOrder(now, now, now);
    SpendTodayCounted(spends, s, id, now);
  }

  /** A brand limited to 03:00-04:00 is inactive at every instant outside the open window, 03:00 and 04:00 included. */
  lemma NightWindowBlocks(brand: Brand, id: BrandId, spends: seq<Spend>, now: DateTime)
    requires brand.dayparting == [List(["03:00", "04:00"])]
    requires !Before(Time(3, 0, 0, 0), now.time) || !Before(now.time, Time(4, 0, 0, 0))
    ensures !CampaignStatus(brand, id, spends, now).isActive
  {
    ParseZeroPadded("03:00");
    ParseZeroPadded("04:00");
    ParseEntriesSingle(List(["03:00", "04:00"]));
    var night := Interval(Time(3, 0, 0, 0), Time(4, 0, 0, 0));
    assert ParseEntries(brand.dayparting) == [night];
    assert !DaypartingRespected(brand, now);
  }
}
