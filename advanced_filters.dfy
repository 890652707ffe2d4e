/**
 * The advanced filter panel: a JavaScript `Map` of active filters keyed by
 * `type:value` (checkbox filters) or by the fixed keys `price` and `sort`,
 * the chips that show it, the mapping of its entries to storefront query
 * parameters, and the save/restore of its entries. Also the page-wide
 * manager that keeps one panel per section id.
 */
module AdvancedFilters {
  import opened Optional
  import opened Text
  import opened OrderedMaps

  /** A stored filter object. Fields the source leaves undefined are `""`
      here; every use of them in the source only tests them for truthiness
      or prints them where they are always set. */
  datatype Filter = Filter(filterType: string, value: string, labelText: string, min: string, max: string)

  /** An entry of the loaded filter data (`{value, label, count}`). */
  datatype FilterItem = FilterItem(value: string, labelText: string, count: nat)

  const PriceKey: string := "price"
  const SortKey: string := "sort"
  const MetafieldPrefix: string := "metafield_"

  /** The map key of a checkbox filter: `${filterType}:${value}`. */
  function Key(filterType: string, value: string): string {
    filterType + ":" + value
  }

  /** A checkbox key never collides with the fixed price and sort keys. */
  lemma KeyAvoidsFixedKeys(filterType: string, value: string)
    ensures Key(filterType, value) != PriceKey && Key(filterType, value) != SortKey
  {
    var k := Key(filterType, value);
    assert k[|filterType|] == ':';
    assert ':' in k;
    assert ':' !in PriceKey && ':' !in SortKey;
  }

  /** Splitting a key on `:` gives back its type and value when neither
      contains a colon (what `removeFilter` and `restoreFilters` rely on to
      find the checkbox of a key). */
  lemma KeySplitsBack(filterType: string, value: string)
    requires ':' !in filterType && ':' !in value
    ensures Split(Key(filterType, value), ':') == [filterType, value]
  {
    assert Join([filterType, value], ':') == Key(filterType, value);
    SplitJoin([filterType, value], ':');
  }

  // ---------------------------------------------------------------------
  // Labels

  /** Position of the first item whose value is `value`, or `|items|`. */
  function FindItem(items: seq<FilterItem>, value: string): (i: nat)
    ensures i <= |items|
    ensures forall j :: 0 <= j < i ==> items[j].value != value
    ensures i < |items| ==> items[i].value == value
  {
    if items == [] then 0
    else if items[0].value == value then 0
    else 1 + FindItem(items[1..], value)
  }

  /** `filterData.get(filterType) || []`: the items loaded for a type, none
      when the type is missing from the data. */
  function ItemsOf(filterData: seq<(string, seq<FilterItem>)>, filterType: string): (items: seq<FilterItem>)
    ensures !Has(filterData, filterType) ==> items == []
    ensures Has(filterData, filterType) ==> Some(items) == Get(filterData, filterType)
  {
    Get(filterData, filterType).GetOr([])
  }

  /** `i` is the first item whose value is `value`. */
  predicate FirstWithValue(items: seq<FilterItem>, value: string, i: int) {
    0 <= i < |items| && items[i].value == value && forall j :: 0 <= j < i ==> items[j].value != value
  }

  /** `getFilterLabel`: the label of the first item of this type whose value
      matches, else the value itself. */
  function FilterLabel(filterData: seq<(string, seq<FilterItem>)>, filterType: string, value: string): (r: string)
    ensures var items := ItemsOf(filterData, filterType);
      forall i :: FirstWithValue(items, value, i) ==> r == items[i].labelText
    ensures var items := ItemsOf(filterData, filterType);
      (forall i :: 0 <= i < |items| ==> items[i].value != value) ==> r == value
  {
    var items := ItemsOf(filterData, filterType);
    var i := FindItem(items, value);
    if i < |items| then items[i].labelText else value
  }

  /** The price chip: `Price: $min - $max` with only the bounds that are
      set, or bare `Price`. */
  function PriceLabel(min: string, max: string): string {
    if min != "" && max != "" then "Price: $" + min + " - $" + max
    else if min != "" then "Price: $" + min
    else if max != "" then "Price: $" + max
    else "Price"
  }

  /** `getFilterDisplayLabel`. */
  function DisplayLabel(f: Filter): string {
    if f.filterType == PriceKey then PriceLabel(f.min, f.max)
    else if f.filterType == "vendor" then "Vendor: " + f.labelText
    else if f.filterType == "type" then "Type: " + f.labelText
    else if f.filterType == "tag" then "Tag: " + f.labelText
    else if f.filterType == SortKey then "Sort: " + f.value
    else if StartsWith(f.filterType, MetafieldPrefix) then f.filterType[|MetafieldPrefix|..] + ": " + f.labelText
    else if f.labelText != "" then f.labelText
    else f.value
  }

  /** The price chip is bare `Price` exactly when neither bound is set. */
  lemma PriceLabelBareIff(min: string, max: string)
    ensures PriceLabel(min, max) == "Price" <==> min == "" && max == ""
  {
    if min != "" || max != "" {
      assert |PriceLabel(min, max)| > |"Price"|;
    }
  }

  /** A bound that is set is shown after a dollar sign; a chip showing only
      one bound shows nothing else. */
  lemma PriceLabelShowsBounds(min: string, max: string)
    ensures min != "" ==> Includes(PriceLabel(min, max), "$" + min)
    ensures max != "" ==> Includes(PriceLabel(min, max), "$" + max)
    ensures min == "" && max != "" ==> PriceLabel(min, max) == "Price: " + "$" + max
    ensures min != "" && max == "" ==> PriceLabel(min, max) == "Price: " + "$" + min
  {
    var l := PriceLabel(min, max);
    if min != "" {
      assert OccursAt(l, "$" + min, 7);
      IncludesIff(l, "$" + min);
    }
    if max != "" {
      var at := if min != "" then 7 + 1 + |min| + 3 else 7;
      assert OccursAt(l, "$" + max, at);
      IncludesIff(l, "$" + max);
    }
  }

  /** A checkbox chip ends with the filter's label (or, for an unknown type
      without a label, its value); the sort chip ends with the sort value. */
  lemma DisplayLabelEndsWithText(f: Filter)
    requires f.filterType != PriceKey
    ensures var l := DisplayLabel(f);
      var t := if f.filterType == SortKey || (f.labelText == "" && f.filterType !in {"vendor", "type", "tag"} && !StartsWith(f.filterType, MetafieldPrefix)) then f.value else f.labelText;
      |t| <= |l| && l[|l| - |t|..] == t
  {
  }

  /** The chips shown for the map, one per entry, in insertion order. */
  function DisplayLabels(m: seq<(string, Filter)>): (r: seq<string>)
    ensures |r| == |m|
  {
    seq(|m|, i requires 0 <= i < |m| => DisplayLabel(m[i].1))
  }

  // ---------------------------------------------------------------------
  // Query parameters

  /** The query parameter a non-price filter type is sent as, if any. */
  function ParamName(filterType: string): Option<string> {
    if filterType == "vendor" then Some("filter.v.vendor")
    else if filterType == "type" then Some("filter.v.product_type")
    else if filterType == "tag" then Some("filter.v.tag")
    else if filterType == SortKey then Some("sort_by")
    else if StartsWith(filterType, MetafieldPrefix) then Some("filter.v.metafield." + filterType[|MetafieldPrefix|..])
    else None
  }

  /** The filter type a query parameter name comes from: the inverse of
      `ParamName`. */
  function TypeOfParam(name: string): Option<string> {
    if name == "filter.v.vendor" then Some("vendor")
    else if name == "filter.v.product_type" then Some("type")
    else if name == "filter.v.tag" then Some("tag")
    else if name == "sort_by" then Some(SortKey)
    else if StartsWith(name, "filter.v.metafield.") then Some(MetafieldPrefix + name[|"filter.v.metafield."|..])
    else None
  }

  /** Every parameter name determines the filter type it was made from, so
      distinct types never share a parameter. */
  lemma ParamNameRoundTrip(filterType: string)
    requires ParamName(filterType).Some?
    ensures TypeOfParam(ParamName(filterType).value) == Some(filterType)
  {
    if StartsWith(filterType, MetafieldPrefix) && filterType !in {"vendor", "type", "tag", SortKey} {
      var key := filterType[|MetafieldPrefix|..];
      var n := "filter.v.metafield." + key;
      assert n[9] == 'm';
      assert n[..|"filter.v.metafield."|] == "filter.v.metafield.";
      assert n[|"filter.v.metafield."|..] == key;
      assert filterType == MetafieldPrefix + key;
    }
  }

  /** The parameters of the price entry: `gte` and `lte` for the bounds that
      are set, in that order. */
  function PriceParams(min: string, max: string): (r: seq<(string, string)>)
    ensures |r| <= 2
    ensures forall i :: 0 <= i < |r| ==> r[i].1 != ""
    ensures ("filter.v.price.gte", min) in r <==> min != ""
    ensures ("filter.v.price.lte", max) in r <==> max != ""
  {
    (if min != "" then [("filter.v.price.gte", min)] else []) +
    (if max != "" then [("filter.v.price.lte", max)] else [])
  }

  /** The parameters one entry contributes (one step of the `forEach` in
      `applyFilters`). */
  function EntryParams(f: Filter): (r: seq<(string, string)>)
    ensures f.filterType != PriceKey ==> |r| <= 1
    ensures f.filterType != PriceKey && |r| == 1 ==> r[0].1 == f.value && TypeOfParam(r[0].0) == Some(f.filterType)
    ensures f.filterType != PriceKey ==> (|r| == 1 <==> ParamName(f.filterType).Some?)
  {
    if f.filterType == PriceKey then PriceParams(f.min, f.max)
    else match ParamName(f.filterType)
      case None => []
      case Some(name) => ParamNameRoundTrip(f.filterType); [(name, f.value)]
  }

  /** All parameters of a map, entry after entry in insertion order. */
  function ParamsOf(m: seq<(string, Filter)>): seq<(string, string)> {
    if m == [] then [] else ParamsOf(m[..|m| - 1]) + EntryParams(m[|m| - 1].1)
  }

  /** The parameters of two maps laid end to end are those of the first
      followed by those of the second. */
  lemma {:induction false} ParamsOfAppend(a: seq<(string, Filter)>, b: seq<(string, Filter)>)
    ensures ParamsOf(a + b) == ParamsOf(a) + ParamsOf(b)
    decreases |b|
  {
    if b != [] {
      var b' := b[..|b| - 1];
      assert (a + b)[..|a + b| - 1] == a + b';
      ParamsOfAppend(a, b');
    } else {
      assert a + b == a;
    }
  }

  /** A map without a price entry, all of whose types have a parameter,
      sends exactly one parameter per entry, in the map's order. */
  lemma {:induction false} ParamsOnePerEntry(m: seq<(string, Filter)>)
    requires forall i :: 0 <= i < |m| ==> m[i].1.filterType != PriceKey && ParamName(m[i].1.filterType).Some?
    ensures |ParamsOf(m)| == |m|
    ensures forall i :: 0 <= i < |m| ==> ParamsOf(m)[i] == (ParamName(m[i].1.filterType).value, m[i].1.value)
  {
    if m != [] {
      var init := m[..|m| - 1];
      ParamsOnePerEntry(init);
      var f := m[|m| - 1].1;
      assert EntryParams(f) == [(ParamName(f.filterType).value, f.value)];
    }
  }

  /** Entries whose type has no parameter contribute nothing. */
  lemma {:induction false} ParamsSkipUnmapped(a: seq<(string, Filter)>, f: Filter, b: seq<(string, Filter)>, key: string)
    requires f.filterType != PriceKey && ParamName(f.filterType).None?
    ensures ParamsOf(a + [(key, f)] + b) == ParamsOf(a) + ParamsOf(b)
  {
    var a' := a + [(key, f)];
    assert ParamsOf(a') == ParamsOf(a) by {
      assert a'[..|a'| - 1] == a;
      assert EntryParams(f) == [];
    }
    ParamsOfAppend(a', b);
  }

  // ---------------------------------------------------------------------
  // The panel

  class FilterPanel {
    const persistFilters: bool
    const filterData: seq<(string, seq<FilterItem>)>
    /** Whether the active-filter list and the active-count element exist. */
    const hasActiveList: bool
    const hasActiveCount: bool

    var currentFilters: seq<(string, Filter)>
    /** The chips of the active-filter list, in order. */
    var chips: seq<string>
    /** The number shown in the active-count element. */
    var activeCount: nat
    /** The entries saved under the storage key `advanced-filters`. */
    var storage: Option<seq<(string, Filter)>>

    ghost predicate Valid()
      reads this
    {
      DistinctKeys(currentFilters) &&
      (hasActiveList ==> chips == DisplayLabels(currentFilters)) &&
      (hasActiveList && hasActiveCount ==> activeCount == |currentFilters|)
    }

    /** Construction followed by `connectedCallback`: the configuration and
        the loaded filter data are given, saved filters are restored and the
        chips are drawn. */
    constructor (persistFilters: bool, filterData: seq<(string, seq<FilterItem>)>,
                 storage: Option<seq<(string, Filter)>>, hasActiveList: bool, hasActiveCount: bool)
      ensures Valid()
      ensures this.persistFilters == persistFilters && this.filterData == filterData
      ensures this.storage == storage
      ensures currentFilters == if persistFilters && storage.Some? then FromEntries(storage.value) else []
    {
      this.persistFilters := persistFilters;
      this.filterData := filterData;
      this.hasActiveList := hasActiveList;
      this.hasActiveCount := hasActiveCount;
      this.storage := storage;
      currentFilters := [];
      chips := [];
      activeCount := 0;
      new;
      RestoreFilters();
      UpdateActiveFilters();
    }

    /** `updateActiveFilters`: one chip per entry, in order, and the count.
        Nothing is drawn without the list element. */
    method UpdateActiveFilters()
      modifies this`chips, this`activeCount
      ensures hasActiveList ==> chips == DisplayLabels(currentFilters)
      ensures hasActiveList && hasActiveCount ==> activeCount == |currentFilters|
      ensures !hasActiveList ==> chips == old(chips) && activeCount == old(activeCount)
      ensures hasActiveList && !hasActiveCount ==> activeCount == old(activeCount)
    {
      if !hasActiveList {
        return;
      }
      var drawn := [];
      for i := 0 to |currentFilters|
        invariant drawn == DisplayLabels(currentFilters[..i])
      {
        assert currentFilters[..i + 1] == currentFilters[..i] + [currentFilters[i]];
        drawn := drawn + [DisplayLabel(currentFilters[i].1)];
      }
      assert currentFilters[..|currentFilters|] == currentFilters;
      chips := drawn;
      if hasActiveCount {
        activeCount := |currentFilters|;
      }
    }

    /** `handleFilterChange`: checking stores `type:value` with its label,
        unchecking deletes that key; every other key reads as before. */
    method HandleFilterChange(filterType: string, value: string, checked: bool)
      requires Valid()
      modifies this`currentFilters, this`chips, this`activeCount
      ensures Valid()
      ensures var key := Key(filterType, value);
        currentFilters == if checked
          then Set(old(currentFilters), key, Filter(filterType, value, FilterLabel(filterData, filterType, value), "", ""))
          else Delete(old(currentFilters), key)
      ensures forall k :: k != Key(filterType, value) ==> Get(currentFilters, k) == Get(old(currentFilters), k)
      ensures checked ==>
        Get(currentFilters, Key(filterType, value)) == Some(Filter(filterType, value, FilterLabel(filterData, filterType, value), "", ""))
      ensures !checked ==> !Has(currentFilters, Key(filterType, value))
    {
      var key := Key(filterType, value);
      var before := currentFilters;
      if checked {
        var f := Filter(filterType, value, FilterLabel(filterData, filterType, value), "", "");
        SetDistinct(currentFilters, key, f);
        currentFilters := Set(currentFilters, key, f);
        forall k ensures Get(currentFilters, k) == if k == key then Some(f) else Get(before, k) {
          SetGet(before, key, f, k);
        }
      } else {
        DeleteShape(currentFilters, key);
        currentFilters := Delete(currentFilters, key);
        forall k ensures Get(currentFilters, k) == if k == key then None else Get(before, k) {
          DeleteGet(before, key, k);
        }
        assert Get(currentFilters, key) == None;
      }
      UpdateActiveFilters();
    }

    /** `handlePriceChange`: one entry under the fixed key `price`, removed
        when both bounds are empty. An absent input reads as empty. */
    method HandlePriceChange(minPrice: string, maxPrice: string)
      requires Valid()
      modifies this`currentFilters, this`chips, this`activeCount
      ensures Valid()
      ensures currentFilters == if minPrice != "" || maxPrice != ""
          then Set(old(currentFilters), PriceKey, Filter(PriceKey, "", "", minPrice, maxPrice))
          else Delete(old(currentFilters), PriceKey)
      ensures forall k :: k != PriceKey ==> Get(currentFilters, k) == Get(old(currentFilters), k)
      ensures Has(currentFilters, PriceKey) <==> minPrice != "" || maxPrice != ""
    {
      var before := currentFilters;
      if minPrice != "" || maxPrice != "" {
        var f := Filter(PriceKey, "", "", minPrice, maxPrice);
        SetDistinct(currentFilters, PriceKey, f);
        currentFilters := Set(currentFilters, PriceKey, f);
        forall k ensures Get(currentFilters, k) == if k == PriceKey then Some(f) else Get(before, k) {
          SetGet(before, PriceKey, f, k);
        }
        assert Get(currentFilters, PriceKey) == Some(f);
      } else {
        DeleteShape(currentFilters, PriceKey);
        currentFilters := Delete(currentFilters, PriceKey);
        forall k ensures Get(currentFilters, k) == if k == PriceKey then None else Get(before, k) {
          DeleteGet(before, PriceKey, k);
        }
        assert Get(currentFilters, PriceKey) == None;
      }
      UpdateActiveFilters();
    }

    /** `handleSortChange`: one entry under the fixed key `sort`, removed
        when the chosen value is empty. */
    method HandleSortChange(sortValue: string)
      requires Valid()
      modifies this`currentFilters, this`chips, this`activeCount
      ensures Valid()
      ensures currentFilters == if sortValue != ""
          then Set(old(currentFilters), SortKey, Filter(SortKey, sortValue, "", "", ""))
          else Delete(old(currentFilters), SortKey)
      ensures forall k :: k != SortKey ==> Get(currentFilters, k) == Get(old(currentFilters), k)
      ensures Has(currentFilters, SortKey) <==> sortValue != ""
    {
      var before := currentFilters;
      if sortValue != "" {
        var f := Filter(SortKey, sortValue, "", "", "");
        SetDistinct(currentFilters, SortKey, f);
        currentFilters := Set(currentFilters, SortKey, f);
        forall k ensures Get(currentFilters, k) == if k == SortKey then Some(f) else Get(before, k) {
          SetGet(before, SortKey, f, k);
        }
        assert Get(currentFilters, SortKey) == Some(f);
      } else {
        DeleteShape(currentFilters, SortKey);
        currentFilters := Delete(currentFilters, SortKey);
        forall k ensures Get(currentFilters, k) == if k == SortKey then None else Get(before, k) {
          DeleteGet(before, SortKey, k);
        }
        assert Get(currentFilters, SortKey) == None;
      }
      UpdateActiveFilters();
    }

    /** `removeFilter`: deletes exactly that key; the map shrinks by one when
        it was present and the others keep their order. */
    method RemoveFilter(key: string)
      requires Valid()
      modifies this`currentFilters, this`chips, this`activeCount
      ensures Valid()
      ensures currentFilters == Delete(old(currentFilters), key)
      ensures !Has(currentFilters, key)
      ensures forall k :: k != key ==> Get(currentFilters, k) == Get(old(currentFilters), k)
      ensures |currentFilters| == if Has(old(currentFilters), key) then |old(currentFilters)| - 1 else |old(currentFilters)|
    {
      var before := currentFilters;
      DeleteShape(currentFilters, key);
      currentFilters := Delete(currentFilters, key);
      forall k ensures Get(currentFilters, k) == if k == key then None else Get(before, k) {
        DeleteGet(before, key, k);
      }
      assert Get(currentFilters, key) == None;
      UpdateActiveFilters();
    }

    /** `clearAllFilters`: the map is empty and no chip is shown. */
    method ClearAllFilters()
      requires Valid()
      modifies this`currentFilters, this`chips, this`activeCount
      ensures Valid()
      ensures currentFilters == []
      ensures hasActiveList ==> chips == []
      ensures hasActiveList && hasActiveCount ==> activeCount == 0
    {
      currentFilters := [];
      UpdateActiveFilters();
    }

    /** The parameter-building loop of `applyFilters`: every entry's
        parameters, in insertion order. */
    method BuildParams() returns (params: seq<(string, string)>)
      ensures params == ParamsOf(currentFilters)
    {
      params := [];
      for i := 0 to |currentFilters|
        invariant params == ParamsOf(currentFilters[..i])
      {
        assert currentFilters[..i + 1][..i] == currentFilters[..i];
        params := params + EntryParams(currentFilters[i].1);
      }
      assert currentFilters[..|currentFilters|] == currentFilters;
    }

    /** `applyFilters`: builds the search parameters of the page to navigate
        to, and saves the entries first when persistence is on. */
    method ApplyFilters() returns (params: seq<(string, string)>)
      modifies this`storage
      ensures params == ParamsOf(currentFilters)
      ensures storage == if persistFilters then Some(currentFilters) else old(storage)
    {
      params := BuildParams();
      if persistFilters {
        SaveFilters();
      }
    }

    /** `saveFilters`: stores the entries in order. */
    method SaveFilters()
      modifies this`storage
      ensures storage == Some(currentFilters)
    {
      storage := Some(currentFilters);
    }

    /** `restoreFilters`: with persistence on and something saved, the map
        is rebuilt from the saved entries. */
    method RestoreFilters()
      requires hasActiveList ==> chips == DisplayLabels(currentFilters)
      requires hasActiveList && hasActiveCount ==> activeCount == |currentFilters|
      requires DistinctKeys(currentFilters)
      modifies this`currentFilters, this`chips, this`activeCount
      ensures Valid()
      ensures currentFilters == if persistFilters && storage.Some? then FromEntries(storage.value) else old(currentFilters)
    {
      if !persistFilters {
        return;
      }
      if storage.Some? {
        FromEntriesDistinct(storage.value);
        currentFilters := FromEntries(storage.value);
        UpdateActiveFilters();
      }
    }

    /** Saving and then restoring gives back the same entries in the same
        order. */
    method SaveThenRestore()
      requires Valid() && persistFilters
      modifies this`storage, this`currentFilters, this`chips, this`activeCount
      ensures Valid()
      ensures currentFilters == old(currentFilters)
      ensures storage == Some(currentFilters)
    {
      SaveFilters();
      FromEntriesOfEntries(currentFilters);
      RestoreFilters();
    }
  }

  // ---------------------------------------------------------------------
  // The manager

  /** A panel on the page, with its `data-section` attribute (`""` when
      missing). */
  datatype Component = Component(id: nat, section: string)

  /** One `registerComponent` step on the manager's map: a component with a
      section id not yet registered is added; anything else is ignored. */
  function Register(m: seq<(string, Component)>, c: Component): seq<(string, Component)> {
    if c.section != "" && !Has(m, c.section) then m + [(c.section, c)] else m
  }

  /** Registering the components of a list one after the other. */
  function RegisterAll(m: seq<(string, Component)>, cs: seq<Component>): seq<(string, Component)>
    decreases |cs|
  {
    if cs == [] then m else RegisterAll(Register(m, cs[0]), cs[1..])
  }

  /** A registered section keeps its component whatever is registered later. */
  lemma {:induction false} RegisteredStays(m: seq<(string, Component)>, cs: seq<Component>, s: string)
    requires Has(m, s)
    ensures Get(RegisterAll(m, cs), s) == Get(m, s)
    decreases |cs|
  {
    if cs != [] {
      var m' := Register(m, cs[0]);
      if m' != m {
        SetGet(m, cs[0].section, cs[0], s);
      }
      RegisteredStays(m', cs[1..], s);
    }
  }

  /** For a section not yet registered, the first component of the list with
      that section wins; a section no component carries stays absent, and so
      does the empty section. */
  lemma {:induction false} FirstRegistrationWins(m: seq<(string, Component)>, cs: seq<Component>, s: string)
    requires !Has(m, s)
    ensures s == "" ==> !Has(RegisterAll(m, cs), s)
    ensures s != "" && (forall i :: 0 <= i < |cs| ==> cs[i].section != s) ==> !Has(RegisterAll(m, cs), s)
    ensures forall i ::
      (0 <= i < |cs| && cs[i].section == s && s != "" && forall j :: 0 <= j < i ==> cs[j].section != s) ==>
      Get(RegisterAll(m, cs), s) == Some(cs[i])
    decreases |cs|
  {
    if cs != [] {
      var c := cs[0];
      var m' := Register(m, c);
      if m' != m {
        SetGet(m, c.section, c, s);
      }
      if c.section == s && s != "" {
        RegisteredStays(m', cs[1..], s);
      } else {
        assert !Has(m', s) by {
          if m' != m { SetGet(m, c.section, c, s); }
        }
        FirstRegistrationWins(m', cs[1..], s);
        forall i | 1 <= i < |cs| && cs[i].section == s && s != "" && (forall j :: 0 <= j < i ==> cs[j].section != s)
          ensures Get(RegisterAll(m, cs), s) == Some(cs[i])
        {
          assert cs[1..][i - 1] == cs[i];
          assert forall j :: 0 <= j < i - 1 ==> cs[1..][j] == cs[j + 1];
        }
      }
    }
  }

  /** `AdvancedFiltersManager`: one component per section id. */
  class FiltersManager {
    var components: seq<(string, Component)>

    /** Keys are distinct, non-empty, and each is its component's section. */
    ghost predicate Valid()
      reads this
    {
      DistinctKeys(components) &&
      forall i :: 0 <= i < |components| ==> components[i].0 != "" && components[i].1.section == components[i].0
    }

    /** The constructor and `init`: the components already on the page are
        registered in document order. */
    constructor (onPage: seq<Component>)
      ensures Valid()
      ensures components == RegisterAll([], onPage)
    {
      components := [];
      new;
      RegisterEach(onPage);
    }

    /** `registerComponent`. */
    method RegisterComponent(c: Component)
      requires Valid()
      modifies this
      ensures Valid()
      ensures components == Register(old(components), c)
      ensures forall s :: Has(old(components), s) ==> Get(components, s) == Get(old(components), s)
      ensures c.section != "" ==> Has(components, c.section)
    {
      var before := components;
      if c.section != "" && !Has(components, c.section) {
        SetDistinct(components, c.section, c);
        components := components + [(c.section, c)];
        forall s | Has(before, s) ensures Get(components, s) == Get(before, s) {
          SetGet(before, c.section, c, s);
        }
        assert components[|before|].0 == c.section;
      }
    }

    /** The `forEach` of `init` and of the mutation observer. */
    method RegisterEach(cs: seq<Component>)
      requires Valid()
      modifies this
      ensures Valid()
      ensures components == RegisterAll(old(components), cs)
    {
      ghost var start := components;
      for i := 0 to |cs|
        invariant Valid()
        invariant RegisterAll(start, cs) == RegisterAll(components, cs[i..])
      {
        assert cs[i..][1..] == cs[i + 1..];
        RegisterComponent(cs[i]);
      }
    }

    /** `getComponent`. */
    function GetComponent(section: string): (r: Option<Component>)
      reads this
      requires Valid()
      ensures r.Some? ==> r.value.section == section
      ensures r.None? <==> !Has(components, section)
    {
      Get(components, section)
    }
  }
}
