/**
 * The brand store behind the HTTP views: a table of brands keyed by id and
 * an append-only spend ledger. The POST handlers create a brand, update a
 * brand field by field and register a spend; the GET handlers read a brand,
 * list the brands and report a brand's campaign status.
 *
 * A request body arrives already decoded: a field that the body leaves out
 * or sets to null is `None`. An unknown brand id is `NotFound` (the 404 of
 * `get_object_or_404`). The current instant is a parameter.
 */
module Store {

  import opened Wrappers
  import opened Clock
  import opened Dayparting
  import opened Campaign

  datatype Response = Ok | NotFound

  /**
   * The body of a `brand_details` POST. `dayparting` is `None` unless the
   * body holds a list under that key.
   */
  datatype BrandUpdate = BrandUpdate(
    name: Option<string>,
    monthlyBudget: Option<int>,
    dailyBudget: Option<int>,
    dayparting: Option<seq<RawEntry>>)

  /** The body of a `brand_list` POST; `dayparting` is `None` when the key is absent. */
  datatype NewBrand = NewBrand(
    name: string,
    monthlyBudget: int,
    dailyBudget: int,
    dayparting: Option<seq<RawEntry>>)

  /** Python truthiness of a string field: present, not null and not empty. */
  predicate IsTruthyName(name: Option<string>) {
    name.Some? && name.value != ""
  }

  /** Python truthiness of an amount: present, not null and not zero. */
  predicate IsTruthyAmount(amount: Option<int>) {
    amount.Some? && amount.value != 0
  }

  /** A stored dayparting list is normalized when normalizing it again changes nothing. */
  predicate IsNormalized(dayparting: seq<RawEntry>) {
    Normalize(dayparting) == dayparting
  }

  /** The brand that a `brand_details` POST leaves behind. */
  function Updated(b: Brand, u: BrandUpdate): (r: Brand)
    ensures r.name == if IsTruthyName(u.name) then u.name.value else b.name
    ensures r.monthlyBudget == if u.monthlyBudget.Some? then u.monthlyBudget.value else b.monthlyBudget
    ensures r.dailyBudget == if u.dailyBudget.Some? then u.dailyBudget.value else b.dailyBudget
    ensures u.dayparting.None? ==> r.dayparting == b.dayparting
    ensures u.dayparting.Some? ==> ParseEntries(r.dayparting) == ParseEntries(u.dayparting.value)
    ensures u.dayparting.Some? ==> IsNormalized(r.dayparting)
    ensures IsNormalized(b.dayparting) ==> IsNormalized(r.dayparting)
  {
    var name := if IsTruthyName(u.name) then u.name.value else b.name;
    var monthly := if u.monthlyBudget.Some? then u.monthlyBudget.value else b.monthlyBudget;
    var daily := if u.dailyBudget.Some? then u.dailyBudget.value else b.dailyBudget;
    if u.dayparting.Some? then
      NormalizeIsStable(u.dayparting.value);
      Brand(name, monthly, daily, Normalize(u.dayparting.value))
    else
      Brand(name, monthly, daily, b.dayparting)
  }

  /** The brand that a `brand_list` POST creates. */
  function Created(req: NewBrand): (r: Brand)
    ensures r.name == req.name
    ensures r.monthlyBudget == req.monthlyBudget && r.dailyBudget == req.dailyBudget
    ensures req.dayparting.None? ==> r.dayparting == []
    ensures req.dayparting.Some? ==> ParseEntries(r.dayparting) == ParseEntries(req.dayparting.value)
    ensures IsNormalized(r.dayparting)
  {
    var raw := if req.dayparting.Some? then req.dayparting.value else [];
    NormalizeIsStable(raw);
    Brand(req.name, req.monthlyBudget, req.dailyBudget, Normalize(raw))
  }

  /** Every stored dayparting list is in normalized form. */
  ghost predicate AllNormalized(brands: map<BrandId, Brand>) {
    forall id :: id in brands ==> IsNormalized(brands[id].dayparting)
  }

  lemma PutKeepsNormalized(brands: map<BrandId, Brand>, id: BrandId, b: Brand)
    requires AllNormalized(brands) && IsNormalized(b.dayparting)
    ensures AllNormalized(brands[id := b])
  {
    var updated := brands[id := b];
    forall id' | id' in updated
      ensures IsNormalized(updated[id'].dayparting)
    {
      if id' != id {
        assert updated[id'] == brands[id'];
      }
    }
  }

  /**
   * Ids are handed out from 1 upwards, every spend refers to a stored brand
   * (brands are never deleted: the ledger protects them), and every stored
   * dayparting list is in normalized form.
   */
  ghost predicate Consistent(brands: map<BrandId, Brand>, spends: seq<Spend>, nextId: BrandId) {
    1 <= nextId &&
    (forall id :: id in brands ==> 1 <= id < nextId) &&
    (forall i :: 0 <= i < |spends| ==> spends[i].brand in brands) &&
    AllNormalized(brands)
  }

  /** Overwriting a stored brand with one whose dayparting is normalized keeps the store consistent. */
  lemma ReplaceKeepsConsistent(brands: map<BrandId, Brand>, spends: seq<Spend>, nextId: BrandId, id: BrandId, b: Brand)
    requires Consistent(brands, spends, nextId) && id in brands && IsNormalized(b.dayparting)
    ensures Consistent(brands[id := b], spends, nextId)
  {
    PutKeepsNormalized(brands, id, b);
  }

  /** The field-by-field overwrite of `brand_details`, applied to one brand value. */
  method ApplyUpdate(b: Brand, u: BrandUpdate) returns (r: Brand)
    ensures r == Updated(b, u)
  {
    r := b;
    if IsTruthyName(u.name) {
      r := r.(name := u.name.value);
    }
    if u.monthlyBudget.Some? {
      r := r.(monthlyBudget := u.monthlyBudget.value);
    }
    if u.dailyBudget.Some? {
      r := r.(dailyBudget := u.dailyBudget.value);
    }
    if u.dayparting.Some? {
      var parsed := DaypartingFromJson(u.dayparting.value);
      var stored := DaypartingToJson(parsed);
      r := r.(dayparting := stored);
    }
  }

  class BrandStore {
    var brands: map<BrandId, Brand>
    var spends: seq<Spend>
    var nextId: BrandId

    /** The store's state is consistent. */
    ghost predicate Valid()
      reads this
    {
      Consistent(brands, spends, nextId)
    }

    constructor ()
      ensures Valid()
      ensures brands == map[] && spends == [] && nextId == 1
    {
      brands := map[];
      spends := [];
      nextId := 1;
    }

    /** `brand_list` POST: create a brand with its dayparting normalized, and return its new id. */
    method CreateBrand(req: NewBrand) returns (id: BrandId)
      requires Valid()
      modifies this
      ensures Valid()
      ensures id == old(nextId) && id !in old(brands)
      ensures brands == old(brands)[id := Created(req)]
      ensures nextId == id + 1
      ensures spends == old(spends)
    {
      var dayparting := if req.dayparting.Some? then req.dayparting.value else [];
      var parsed := DaypartingFromJson(dayparting);
      var stored := DaypartingToJson(parsed);
      id := nextId;
      var brand := Brand(req.name, req.monthlyBudget, req.dailyBudget, stored);
      assert brand == Created(req);
      PutKeepsNormalized(brands, id, brand);
      brands := brands[id := brand];
      nextId := nextId + 1;
    }

    /** `brand_details` POST: overwrite the supplied fields one by one, then save. */
    method UpdateBrand(id: BrandId, u: BrandUpdate) returns (r: Response)
      requires Valid()
      modifies this
      ensures Valid()
      ensures r == if id in old(brands) then Ok else NotFound
      ensures id in old(brands) ==> brands == old(brands)[id := Updated(old(brands)[id], u)]
      ensures id !in old(brands) ==> brands == old(brands)
      ensures spends == old(spends) && nextId == old(nextId)
    {
      if id !in brands {
        return NotFound;
      }
      var brand := ApplyUpdate(brands[id], u);
      ReplaceKeepsConsistent(brands, spends, nextId, id, brand);
      brands := brands[id := brand];
      r := Ok;
    }

    /** `register_spend` POST: append one spend stamped `now`, unless the amount is falsy. */
    method RegisterSpend(id: BrandId, amount: Option<int>, now: DateTime) returns (r: Response)
      requires Valid()
      modifies this
      ensures Valid()
      ensures r == if id in old(brands) then Ok else NotFound
      ensures spends == if id in old(brands) && IsTruthyAmount(amount)
                        then old(spends) + [Spend(id, now, amount.value)]
                        else old(spends)
      ensures brands == old(brands) && nextId == old(nextId)
    {
      if id !in brands {
        return NotFound;
      }
      if IsTruthyAmount(amount) {
        spends := spends + [Spend(id, now, amount.value)];
      }
      r := Ok;
    }

    /** `brand_details` GET. */
    method Details(id: BrandId) returns (r: Option<Brand>)
      ensures id in brands <==> r.Some?
      ensures r.Some? ==> r.value == brands[id]
    {
      if id !in brands {
        return None;
      }
      r := Some(brands[id]);
    }

    /** `brand_list` GET: every brand's id with its name. */
    method ListBrands() returns (names: map<BrandId, string>)
      ensures names.Keys == brands.Keys
      ensures forall id :: id in names ==> names[id] == brands[id].name
    {
      names := map id | id in brands :: brands[id].name;
    }

    /** `campaign_status`: the totals and the verdict for one brand at `now`. */
    method CampaignStatusOf(id: BrandId, now: DateTime) returns (r: Option<Status>)
      ensures id in brands <==> r.Some?
      ensures r.Some? ==> r.value == CampaignStatus(brands[id], id, spends, now)
    {
      if id !in brands {
        return None;
      }
      var brand := brands[id];
      var dayStart := DayStart(now);
      var monthStart := MonthStart(dayStart);
      var amountToday := Total(Window(spends, id, dayStart, now));
      var amountThisMonth := Total(Window(spends, id, monthStart, now));
      var parsed := DaypartingFromJson(brand.dayparting);
      var respected := IsTimeInDayparting(now.time, parsed);
      r := Some(Status(amountThisMonth, amountToday,
                       respected && amountThisMonth < brand.monthlyBudget && amountToday < brand.dailyBudget));
    }
  }

  // ---------------------------------------------------------------------------
  // Properties of the updates
  // ---------------------------------------------------------------------------

  /** An update that supplies nothing (or only a falsy name) leaves the brand as it was. */
  lemma EmptyUpdateKeepsBrand(b: Brand, name: Option<string>)
    requires !IsTruthyName(name)
    ensures Updated(b, BrandUpdate(name, None, None, None)) == b
  {
  }

  /** A budget of 0 is not None: it is stored, unlike a falsy name. */
  lemma ZeroBudgetIsApplied(b: Brand)
    ensures Updated(b, BrandUpdate(Some(""), Some(0), Some(0), None)) == b.(monthlyBudget := 0, dailyBudget := 0)
  {
  }

  /** Posting only the two budgets changes the budgets and nothing else. */
  lemma BudgetsOnlyUpdate(b: Brand, monthly: int, daily: int)
    ensures Updated(b, BrandUpdate(None, Some(monthly), Some(daily), None))
         == Brand(b.name, monthly, daily, b.dayparting)
  {
  }

  /** The same update applied twice gives what it gave once. */
  lemma UpdateIsIdempotent(b: Brand, u: BrandUpdate)
    ensures Updated(Updated(b, u), u) == Updated(b, u)
  {
  }

  /** A brand created with `[['08:00','10:00'], ['13:30','14:00']]` stores that list unchanged. */
  lemma CreatedDaypartingExample(name: string, monthly: int, daily: int)
    ensures Created(NewBrand(name, monthly, daily, Some([List(["08:00", "10:00"]), List(["13:30", "14:00"])]))).dayparting
         == [List(["08:00", "10:00"]), List(["13:30", "14:00"])]
  {
    SerializationExample();
  }

  /** Registering a spend of a truthy amount at `now` for a known brand raises both of its totals by that amount. */
  lemma RegisteredSpendCounts(spends: seq<Spend>, id: BrandId, amount: int, now: DateTime)
    ensures SpendsToday(spends + [Spend(id, now, amount)], id, now) == SpendsToday(spends, id, now) + amount
    ensures SpendsThisMonth(spends + [Spend(id, now, amount)], id, now) == SpendsThisMonth(spends, id, now) + amount
  {
    AtOrBeforeIsTotalOrder(now, now, now);
    SpendTodayCounted(spends, Spend(id, now, amount), id, now);
  }
}

/**
 * The register-spend scenario end to end through the store: a brand with
 * budgets of 100.00 a month and 10.00 a day receives nine spends of 1.00 and
 * is active with 9.00 spent; a tenth spend of 1.00 brings today's total to
 * the daily budget and the brand is no longer active.
 */
module StoreScenarios {

  import opened Wrappers
  import opened Clock
  import opened Campaign
  import opened Store

  /** A spend of `amount` cents at `now` keeps a same-brand, same-amount ledger of today's spends uniform. */
  lemma UniformTodaySnoc(spends: seq<Spend>, id: BrandId, now: DateTime, amount: int)
    requires UniformToday(spends, id, now, amount)
    ensures UniformToday(spends + [Spend(id, now, amount)], id, now, amount)
  {
    AtOrBeforeIsTotalOrder(now, now, now);
  }

  /** Registers `count` spends of `amount` cents for brand `id` at `now`. */
  method RegisterRepeatedly(store: BrandStore, id: BrandId, amount: int, count: nat, now: DateTime)
    requires store.Valid() && id in store.brands && amount != 0
    requires UniformToday(store.spends, id, now, amount)
    modifies store
    ensures store.Valid() && store.brands == old(store.brands)
    ensures |store.spends| == |old(store.spends)| + count
    ensures UniformToday(store.spends, id, now, amount)
  {
    var i := 0;
    while i < count
      invariant 0 <= i <= count
      invariant store.Valid() && store.brands == old(store.brands)
      invariant |store.spends| == |old(store.spends)| + i
      invariant UniformToday(store.spends, id, now, amount)
    {
      ghost var prev := store.spends;
      var _ := store.RegisterSpend(id, Some(amount), now);
      UniformTodaySnoc(prev, id, now, amount);
      i := i + 1;
    }
  }

  /** A fresh store holding the brand of the scenario and nine spends of 1.00 dated `now`. */
  method NineSpendsStore(now: DateTime) returns (store: BrandStore, id: BrandId)
    ensures fresh(store) && store.Valid()
    ensures id in store.brands && store.brands[id] == Brand("Bakai", 10000, 1000, [])
    ensures |store.spends| == 9 && UniformToday(store.spends, id, now, 100)
  {
    store := new BrandStore();
    id := store.CreateBrand(NewBrand("Bakai", 10000, 1000, None));
    assert store.brands[id] == Brand("Bakai", 10000, 1000, []);
    RegisterRepeatedly(store, id, 100, 9, now);
  }

  method RegisterSpendThroughStore(now: DateTime) returns (before: Option<Status>, after: Option<Status>)
    ensures before == Some(Status(900, 900, true))
    ensures after == Some(Status(1000, 1000, false))
  {
    var store, id := NineSpendsStore(now);
    UniformTodayTotals(store.spends, id, now, 100);
    before := store.CampaignStatusOf(id, now);
    ghost var nine := store.spends;
    var _ := store.RegisterSpend(id, Some(100), now);
    RegisteredSpendCounts(nine, id, 100, now);
    after := store.CampaignStatusOf(id, now);
  }
}
