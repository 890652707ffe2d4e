/**
 * Product badges: the decision rules for each badge, read from the
 * product's first variant and its tags, the badges emitted in a fixed
 * order, and the badge list kept by the element.
 */
module ProductBadges {
  import opened Optional
  import opened Text

  /** The fields of a variant the rules read (prices in cents). */
  datatype VariantData = VariantData(
    price: int, compareAtPrice: Option<int>, available: bool,
    inventoryManagement: string, inventoryQuantity: int)

  /** The product as fetched: its variants, tags and creation time (ms). */
  datatype ProductData = ProductData(variants: seq<VariantData>, tags: seq<string>, createdAt: int)

  /** The element's configuration after defaults are applied. */
  datatype Settings = Settings(
    saleBadgeType: string, newProductDays: int, lowStockThreshold: int,
    showStockCount: bool, customBadgeText: string)

  const MsPerDay: int := 1000 * 60 * 60 * 24

  /** The configuration read from the data attributes (an absent string
      attribute is `""`). */
  function SettingsOf(saleBadgeType: string, newProductDays: Option<int>, lowStockThreshold: Option<int>,
                      showStockCount: bool, customBadgeText: string): (s: Settings)
    ensures s.saleBadgeType == if saleBadgeType != "" then saleBadgeType else "percentage"
    ensures s.newProductDays == IntOr(newProductDays, 30) && s.lowStockThreshold == IntOr(lowStockThreshold, 5)
    ensures s.customBadgeText == if customBadgeText != "" then customBadgeText else "Special"
    ensures s.customBadgeText != ""
  {
    Settings(if saleBadgeType != "" then saleBadgeType else "percentage",
             IntOr(newProductDays, 30), IntOr(lowStockThreshold, 5), showStockCount,
             if customBadgeText != "" then customBadgeText else "Special")
  }

  // ---------------------------------------------------------------------
  // The rules

  predicate HasFirstVariant(pd: Option<ProductData>) {
    pd.Some? && |pd.value.variants| > 0
  }

  /** Sale: the first variant has a (non-zero) compare-at price above its
      price and is available. */
  predicate ShowSale(pd: Option<ProductData>) {
    HasFirstVariant(pd) &&
    var v := pd.value.variants[0];
    v.compareAtPrice.Some? && v.compareAtPrice.value != 0 && v.compareAtPrice.value > v.price && v.available
  }

  /** New: created no more than `days` days before `now`. */
  predicate ShowNew(pd: Option<ProductData>, days: int, now: int) {
    pd.Some? && now - pd.value.createdAt <= days * MsPerDay
  }

  /** Sold out: the first variant is not available. */
  predicate ShowSoldOut(pd: Option<ProductData>) {
    HasFirstVariant(pd) && !pd.value.variants[0].available
  }

  /** Low stock: available, stock tracked by Shopify, and between 1 and the
      threshold left. */
  predicate ShowLowStock(pd: Option<ProductData>, threshold: int) {
    HasFirstVariant(pd) &&
    var v := pd.value.variants[0];
    v.available && v.inventoryManagement == "shopify" && 0 < v.inventoryQuantity <= threshold
  }

  /** Pre-order: not available and tagged `pre-order`. */
  predicate ShowPreOrder(pd: Option<ProductData>) {
    HasFirstVariant(pd) && !pd.value.variants[0].available && "pre-order" in pd.value.tags
  }

  /** Back in stock: not available and tagged `back-in-stock`. */
  predicate ShowBackInStock(pd: Option<ProductData>) {
    HasFirstVariant(pd) && !pd.value.variants[0].available && "back-in-stock" in pd.value.tags
  }

  /** Custom: the text is not blank. */
  predicate ShowCustom(text: string) {
    text != "" && Trim(text) != ""
  }

  /** The custom badge shows exactly when its text has a non-space
      character. */
  lemma CustomBadgeIff(text: string)
    ensures ShowCustom(text) <==> exists i :: 0 <= i < |text| && !IsSpace(text[i])
  {
    TrimEmptyIffBlank(text);
  }

  /** Which badges can appear together: sale and sold-out never do; neither
      do low-stock and sold-out; pre-order and back-in-stock exclude sale and
      low-stock. */
  lemma MutuallyExclusive(pd: Option<ProductData>, threshold: int)
    ensures !(ShowSale(pd) && ShowSoldOut(pd))
    ensures !(ShowLowStock(pd, threshold) && ShowSoldOut(pd))
    ensures ShowPreOrder(pd) ==> !ShowSale(pd) && !ShowLowStock(pd, threshold) && ShowSoldOut(pd)
    ensures ShowBackInStock(pd) ==> !ShowSale(pd) && !ShowLowStock(pd, threshold) && ShowSoldOut(pd)
  {
  }

  /** The discount of an amount-type sale badge is positive whenever the
      badge shows. */
  lemma SaleAmountPositive(pd: Option<ProductData>)
    requires ShowSale(pd)
    ensures SaleAmount(pd.value.variants[0]) > 0
  {
  }

  /** `compare_at_price - price`. */
  function SaleAmount(v: VariantData): int
    requires v.compareAtPrice.Some?
  {
    v.compareAtPrice.value - v.price
  }

  // ---------------------------------------------------------------------
  // Badges

  /** A badge's text. The sale percentage and money amounts are kept as the
      numbers they are computed from. */
  datatype BadgeText = Plain(text: string) | PercentOff(compareAtPrice: int, price: int) | AmountOff(cents: int)

  datatype Badge = Badge(badgeType: string, text: BadgeText)

  /** The fixed order of the generated badges. */
  const BadgeOrder: seq<string> := ["sale", "new", "sold-out", "low-stock", "pre-order", "back-in-stock", "custom"]

  /** `createSaleBadge`. */
  function SaleBadge(v: VariantData, saleBadgeType: string): (b: Badge)
    requires v.compareAtPrice.Some?
    ensures b.badgeType == "sale"
  {
    var text :=
      if saleBadgeType == "percentage" then PercentOff(v.compareAtPrice.value, v.price)
      else if saleBadgeType == "amount" then AmountOff(SaleAmount(v))
      else Plain("Sale");
    Badge("sale", text)
  }

  /** `createLowStockBadge`. */
  function LowStockBadge(v: VariantData, showStockCount: bool): (b: Badge)
    ensures b.badgeType == "low-stock"
  {
    if showStockCount && v.inventoryQuantity >= 0
    then Badge("low-stock", Plain("Only " + NatToString(v.inventoryQuantity) + " left"))
    else if showStockCount then Badge("low-stock", Plain("Only -" + NatToString(-v.inventoryQuantity) + " left"))
    else Badge("low-stock", Plain("Low Stock"))
  }

  /** Position of a badge type in the fixed order. */
  function Rank(t: string): nat {
    if t == "sale" then 0 else if t == "new" then 1 else if t == "sold-out" then 2
    else if t == "low-stock" then 3 else if t == "pre-order" then 4 else if t == "back-in-stock" then 5
    else 6
  }

  function Types(badges: seq<Badge>): (r: seq<string>)
    ensures |r| == |badges|
  {
    seq(|badges|, i requires 0 <= i < |badges| => badges[i].badgeType)
  }

  /** The rule of each badge of `BadgeOrder`, in that order. */
  function Flags(pd: Option<ProductData>, settings: Settings, now: int): (flags: seq<bool>)
    ensures |flags| == |BadgeOrder|
  {
    [ShowSale(pd), ShowNew(pd, settings.newProductDays, now), ShowSoldOut(pd),
     ShowLowStock(pd, settings.lowStockThreshold), ShowPreOrder(pd), ShowBackInStock(pd),
     ShowCustom(settings.customBadgeText)]
  }

  /** The elements of `order` whose flag is set, in order. */
  function Select(order: seq<string>, flags: seq<bool>): seq<string>
    requires |order| == |flags|
  {
    if order == [] then []
    else Select(order[..|order| - 1], flags[..|order| - 1]) +
         (if flags[|order| - 1] then [order[|order| - 1]] else [])
  }

  /** Only elements of `order` are selected. */
  lemma {:induction false} SelectOnlyFrom(order: seq<string>, flags: seq<bool>)
    requires |order| == |flags|
    ensures forall x :: x in Select(order, flags) ==> x in order
  {
    if order != [] {
      var n := |order| - 1;
      SelectOnlyFrom(order[..n], flags[..n]);
      forall x | x in Select(order, flags) ensures x in order {
        if x in Select(order[..n], flags[..n]) {
          assert x in order[..n];
        }
      }
    }
  }

  /** An element of a list without repeats is selected exactly when its
      flag is set. */
  lemma {:induction false} SelectMembers(order: seq<string>, flags: seq<bool>, k: nat)
    requires |order| == |flags| && k < |order|
    requires forall i, j :: 0 <= i < j < |order| ==> order[i] != order[j]
    ensures order[k] in Select(order, flags) <==> flags[k]
  {
    var n := |order| - 1;
    if k < n {
      SelectMembers(order[..n], flags[..n], k);
      assert order[k] != order[n];
    } else {
      SelectOnlyFrom(order[..n], flags[..n]);
      assert order[n] !in order[..n];
    }
  }

  /** Badge types in strictly increasing position of the fixed order. */
  predicate RankIncreasing(ts: seq<string>) {
    forall i, j :: 0 <= i < j < |ts| ==> Rank(ts[i]) < Rank(ts[j])
  }

  /** The selected elements keep the order of `order`: their ranks strictly
      increase. */
  lemma {:induction false} SelectOrdered(order: seq<string>, flags: seq<bool>)
    requires |order| == |flags|
    requires RankIncreasing(order)
    ensures RankIncreasing(Select(order, flags))
  {
    if order != [] {
      var n := |order| - 1;
      var front := Select(order[..n], flags[..n]);
      SelectOrdered(order[..n], flags[..n]);
      SelectOnlyFrom(order[..n], flags[..n]);
      var r := Select(order, flags);
      forall i, j | 0 <= i < j < |r| ensures Rank(r[i]) < Rank(r[j]) {
        if j >= |front| {
          assert r[j] == order[n] && r[i] == front[i];
          assert front[i] in front;
          assert front[i] in order[..n];
          var m :| 0 <= m < n && order[..n][m] == front[i];
          assert order[m] == r[i];
          assert Rank(order[m]) < Rank(order[n]);
        } else {
          assert r[i] == front[i] && r[j] == front[j];
          assert Rank(front[i]) < Rank(front[j]);
        }
      }
    }
  }

  /** What `generateBadges` pushes for position `k` of `BadgeOrder`: the
      badge when its rule holds, nothing otherwise. */
  function Piece(pd: Option<ProductData>, settings: Settings, now: int, k: nat): seq<Badge>
    requires k < |BadgeOrder|
  {
    if k == 0 then (if ShowSale(pd) then [SaleBadge(pd.value.variants[0], settings.saleBadgeType)] else [])
    else if k == 1 then (if ShowNew(pd, settings.newProductDays, now) then [Badge("new", Plain("New"))] else [])
    else if k == 2 then (if ShowSoldOut(pd) then [Badge("sold-out", Plain("Sold Out"))] else [])
    else if k == 3 then (if ShowLowStock(pd, settings.lowStockThreshold)
                         then [LowStockBadge(pd.value.variants[0], settings.showStockCount)] else [])
    else if k == 4 then (if ShowPreOrder(pd) then [Badge("pre-order", Plain("Pre-order"))] else [])
    else if k == 5 then (if ShowBackInStock(pd) then [Badge("back-in-stock", Plain("Back in Stock"))] else [])
    else (if ShowCustom(settings.customBadgeText) then [Badge("custom", Plain(settings.customBadgeText))] else [])
  }

  /** The piece at `k` is one badge of type `BadgeOrder[k]` when the rule at
      `k` holds, and empty otherwise. */
  lemma PieceTypes(pd: Option<ProductData>, settings: Settings, now: int, k: nat)
    requires k < |BadgeOrder|
    ensures Types(Piece(pd, settings, now, k)) == if Flags(pd, settings, now)[k] then [BadgeOrder[k]] else []
  {
    var f := Flags(pd, settings, now);
    if k == 0 {
      assert f[0] == ShowSale(pd);
    } else if k == 1 {
      assert f[1] == ShowNew(pd, settings.newProductDays, now);
    } else if k == 2 {
      assert f[2] == ShowSoldOut(pd);
    } else if k == 3 {
      assert f[3] == ShowLowStock(pd, settings.lowStockThreshold);
    } else if k == 4 {
      assert f[4] == ShowPreOrder(pd);
    } else if k == 5 {
      assert f[5] == ShowBackInStock(pd);
    } else {
      assert f[6] == ShowCustom(settings.customBadgeText);
    }
  }

  /** The badges `generateBadges` has pushed once the rules at positions
      below `k` have run. */
  function GeneratedUpTo(pd: Option<ProductData>, settings: Settings, now: int, k: nat): seq<Badge>
    requires k <= |BadgeOrder|
  {
    if k == 0 then [] else GeneratedUpTo(pd, settings, now, k - 1) + Piece(pd, settings, now, k - 1)
  }

  /** The badges `generateBadges` produces. */
  function Generated(pd: Option<ProductData>, settings: Settings, now: int): seq<Badge> {
    GeneratedUpTo(pd, settings, now, |BadgeOrder|)
  }

  lemma TypesAppend(a: seq<Badge>, b: seq<Badge>)
    ensures Types(a + b) == Types(a) + Types(b)
  {
    assert forall i :: 0 <= i < |a + b| ==> Types(a + b)[i] == (Types(a) + Types(b))[i];
  }

  /** The types pushed by the rules below `k` are the first `k` entries of
      the fixed order filtered by those rules. */
  lemma {:induction false} GeneratedTypesUpTo(pd: Option<ProductData>, settings: Settings, now: int, k: nat)
    requires k <= |BadgeOrder|
    ensures Types(GeneratedUpTo(pd, settings, now, k)) == Select(BadgeOrder[..k], Flags(pd, settings, now)[..k])
  {
    var f := Flags(pd, settings, now);
    if k > 0 {
      GeneratedTypesUpTo(pd, settings, now, k - 1);
      TypesAppend(GeneratedUpTo(pd, settings, now, k - 1), Piece(pd, settings, now, k - 1));
      PieceTypes(pd, settings, now, k - 1);
      var o := BadgeOrder[..k];
      assert o[..k - 1] == BadgeOrder[..k - 1] && o[k - 1] == BadgeOrder[k - 1];
      assert f[..k][..k - 1] == f[..k - 1];
      assert Select(o, f[..k]) == Select(BadgeOrder[..k - 1], f[..k - 1]) + (if f[k - 1] then [BadgeOrder[k - 1]] else []);
    }
  }

  /** Each badge type is generated exactly when its rule holds, and the
      types come in the fixed order sale, new, sold-out, low-stock,
      pre-order, back-in-stock, custom. */
  lemma GeneratedFacts(pd: Option<ProductData>, settings: Settings, now: int)
    ensures var ts := Types(Generated(pd, settings, now));
      var f := Flags(pd, settings, now);
      (forall k :: 0 <= k < |BadgeOrder| ==> (BadgeOrder[k] in ts <==> f[k])) &&
      RankIncreasing(ts)
  {
    var o := BadgeOrder;
    var f := Flags(pd, settings, now);
    GeneratedTypesUpTo(pd, settings, now, |o|);
    assert o[..|o|] == o && f[..|f|] == f;
    assert forall k :: 0 <= k < |o| ==> Rank(o[k]) == k;
    forall k | 0 <= k < |o| ensures o[k] in Select(o, f) <==> f[k] {
      SelectMembers(o, f, k);
    }
    SelectOrdered(o, f);
  }

  /** `generateBadges`: each badge is pushed when its rule holds, in the
      fixed order (see `GeneratedFacts`). */
  method GenerateBadges(pd: Option<ProductData>, settings: Settings, now: int) returns (badges: seq<Badge>)
    ensures badges == Generated(pd, settings, now)
  {
    badges := [];
    if ShowSale(pd) {
      badges := badges + [SaleBadge(pd.value.variants[0], settings.saleBadgeType)];
    }
    assert badges == GeneratedUpTo(pd, settings, now, 1);
    if ShowNew(pd, settings.newProductDays, now) {
      badges := badges + [Badge("new", Plain("New"))];
    }
    assert badges == GeneratedUpTo(pd, settings, now, 2);
    if ShowSoldOut(pd) {
      badges := badges + [Badge("sold-out", Plain("Sold Out"))];
    }
    assert badges == GeneratedUpTo(pd, settings, now, 3);
    if ShowLowStock(pd, settings.lowStockThreshold) {
      badges := badges + [LowStockBadge(pd.value.variants[0], settings.showStockCount)];
    }
    assert badges == GeneratedUpTo(pd, settings, now, 4);
    if ShowPreOrder(pd) {
      badges := badges + [Badge("pre-order", Plain("Pre-order"))];
    }
    assert badges == GeneratedUpTo(pd, settings, now, 5);
    if ShowBackInStock(pd) {
      badges := badges + [Badge("back-in-stock", Plain("Back in Stock"))];
    }
    assert badges == GeneratedUpTo(pd, settings, now, 6);
    if ShowCustom(settings.customBadgeText) {
      badges := badges + [Badge("custom", Plain(settings.customBadgeText))];
    }
    assert badges == GeneratedUpTo(pd, settings, now, 7);
  }

  /** The first badge of a type, or `|badges|`. */
  function FirstOfType(badges: seq<Badge>, t: string): (i: nat)
    ensures i <= |badges|
    ensures forall j :: 0 <= j < i ==> badges[j].badgeType != t
    ensures i < |badges| ==> badges[i].badgeType == t
  {
    if badges == [] then 0 else if badges[0].badgeType == t then 0 else 1 + FirstOfType(badges[1..], t)
  }

  /** The badges of one product element. */
  class BadgeList {
    const settings: Settings
    var productData: Option<ProductData>
    var badges: seq<Badge>

    /** The element before any product data has arrived: no badges. */
    constructor (settings: Settings)
      ensures this.settings == settings && productData == None && badges == []
    {
      this.settings := settings;
      productData := None;
      badges := [];
    }

    /** `renderBadges`: without product data nothing happens (so an element
        that never gets data never shows a badge); otherwise the badges are
        regenerated. */
    method RenderBadges(now: int)
      modifies this`badges
      ensures productData.None? ==> badges == old(badges)
      ensures productData.Some? ==> badges == Generated(productData, settings, now)
    {
      if productData.None? {
        return;
      }
      ClearBadges();
      badges := GenerateBadges(productData, settings, now);
    }

    /** `loadProductData` with the fetch abstracted: a fetched product is
        stored and rendered; a failed fetch changes nothing. */
    method LoadProductData(fetched: Option<ProductData>, now: int)
      modifies this`productData, this`badges
      ensures fetched.None? ==> productData == old(productData) && badges == old(badges)
      ensures fetched.Some? ==> productData == fetched && badges == Generated(fetched, settings, now)
    {
      if fetched.Some? {
        productData := fetched;
        RenderBadges(now);
      }
    }

    /** `clearBadges`. */
    method ClearBadges()
      modifies this`badges
      ensures badges == []
    {
      badges := [];
    }

    /** `addBadge`: appended at the end. */
    method AddBadge(badgeType: string, text: string)
      modifies this`badges
      ensures badges == old(badges) + [Badge(badgeType, Plain(text))]
    {
      badges := badges + [Badge(badgeType, Plain(text))];
    }

    /** `removeBadge`: the first badge of that type (in document order) is
        removed and no other; without one nothing changes. */
    method RemoveBadge(badgeType: string)
      modifies this`badges
      ensures badgeType !in Types(old(badges)) ==> badges == old(badges)
      ensures badgeType in Types(old(badges)) ==>
        var i := FirstOfType(old(badges), badgeType);
        badges == old(badges)[..i] + old(badges)[i + 1..] && |badges| == |old(badges)| - 1
    {
      var i := 0;
      while i < |badges| && badges[i].badgeType != badgeType
        invariant 0 <= i <= |badges|
        invariant forall j :: 0 <= j < i ==> badges[j].badgeType != badgeType
      {
        i := i + 1;
      }
      assert i == FirstOfType(badges, badgeType);
      if i < |badges| {
        assert Types(badges)[i] == badgeType;
        badges := badges[..i] + badges[i + 1..];
      } else {
        assert badgeType !in Types(badges);
      }
    }
  }
}
