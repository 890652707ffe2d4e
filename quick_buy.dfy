/**
 * Quick buy: the option groups built from a product's variants, the variant
 * matching the chosen option values, and the cart line an add-to-cart
 * sends.
 */
module QuickBuy {
  import opened Optional
  import CombinedListing

  /** A variant as embedded in the button's `data-variants` (prices in
      cents). */
  datatype Variant = Variant(id: nat, options: seq<string>, optionNames: seq<string>, price: int, compareAtPrice: int)

  /** One option of the modal: its name and its distinct values. */
  datatype OptionGroup = OptionGroup(name: Option<string>, values: seq<string>)

  /** `variant.option_names[index]`, absent when the list is too short. */
  function NameAt(v: Variant, k: nat): Option<string> {
    if k < |v.optionNames| then Some(v.optionNames[k]) else None
  }

  // ---------------------------------------------------------------------
  // What the option groups are

  /** The largest number of options of any variant. */
  function MaxOptions(vs: seq<Variant>): nat {
    if vs == [] then 0
    else
      var m := MaxOptions(vs[..|vs| - 1]);
      if |vs[|vs| - 1].options| > m then |vs[|vs| - 1].options| else m
  }

  /** `MaxOptions` bounds every variant's option count and is reached by
      one of them. */
  lemma {:induction false} MaxOptionsFacts(vs: seq<Variant>)
    ensures forall i :: 0 <= i < |vs| ==> |vs[i].options| <= MaxOptions(vs)
    ensures vs != [] ==> exists i :: 0 <= i < |vs| && |vs[i].options| == MaxOptions(vs)
  {
    if vs != [] {
      var init := vs[..|vs| - 1];
      MaxOptionsFacts(init);
      assert forall i :: 0 <= i < |init| ==> vs[i] == init[i];
      if |vs[|vs| - 1].options| <= MaxOptions(init) && init != [] {
        var i :| 0 <= i < |init| && |init[i].options| == MaxOptions(init);
        assert |vs[i].options| == MaxOptions(vs);
      } else {
        assert |vs[|vs| - 1].options| == MaxOptions(vs);
      }
    }
  }

  /** The values at option index `k`, variant after variant, repeats
      included. */
  function ValuesAt(vs: seq<Variant>, k: nat): seq<string> {
    if vs == [] then []
    else
      var v := vs[|vs| - 1];
      ValuesAt(vs[..|vs| - 1], k) + (if k < |v.options| then [v.options[k]] else [])
  }

  /** `s` without repeats, each value where it first appears (the insertion
      order of a JavaScript `Set`). */
  function Dedup(s: seq<string>): seq<string> {
    if s == [] then [] else CombinedListing.AddValue(Dedup(s[..|s| - 1]), s[|s| - 1])
  }

  /** The name of option `k`: that of the first variant having an option at
      `k`. */
  function FirstName(vs: seq<Variant>, k: nat): Option<string> {
    if vs == [] then None
    else
      var init := vs[..|vs| - 1];
      var v := vs[|vs| - 1];
      if k < MaxOptions(init) then FirstName(init, k)
      else if k < |v.options| then NameAt(v, k)
      else None
  }

  /** The option groups of a list of variants. */
  function Groups(vs: seq<Variant>): (gs: seq<OptionGroup>)
    ensures |gs| == MaxOptions(vs)
  {
    seq(MaxOptions(vs), k requires 0 <= k < MaxOptions(vs) => GroupAt(vs, k))
  }

  function GroupAt(vs: seq<Variant>, k: nat): OptionGroup {
    OptionGroup(FirstName(vs, k), Dedup(ValuesAt(vs, k)))
  }

  // ---------------------------------------------------------------------
  // Properties of the groups

  /** Position of the first `x` in `s`. */
  function FirstIndex(s: seq<string>, x: string): (i: nat)
    ensures i <= |s| && x !in s[..i]
    ensures i < |s| ==> s[i] == x
    ensures i == |s| <==> x !in s
  {
    if s == [] then 0 else if s[0] == x then 0 else 1 + FirstIndex(s[1..], x)
  }

  /** The distinct values: no repeats, the same members, listed in the order
      of their first appearance. */
  lemma {:induction false} DedupFacts(s: seq<string>)
    ensures CombinedListing.NoDuplicates(Dedup(s))
    ensures forall x :: x in Dedup(s) <==> x in s
    ensures forall i, j :: 0 <= i < j < |Dedup(s)| ==> FirstIndex(s, Dedup(s)[i]) < FirstIndex(s, Dedup(s)[j])
  {
    if s != [] {
      var init := s[..|s| - 1];
      var x := s[|s| - 1];
      DedupFacts(init);
      assert s == init + [x];
      FirstSeenStep(init, x, Dedup(init), Dedup(s));
    }
  }

  /** The values of `r` are listed in the order of their first appearance
      in `s`. */
  predicate FirstSeenOrder(s: seq<string>, r: seq<string>) {
    forall i, j :: 0 <= i < j < |r| ==> FirstIndex(s, r[i]) < FirstIndex(s, r[j])
  }

  /** Adding the next value of `s` to its distinct values, unless already
      there, keeps them in first-appearance order. */
  lemma FirstSeenStep(init: seq<string>, x: string, r0: seq<string>, r: seq<string>)
    requires forall y :: y in r0 <==> y in init
    requires r == if x in init then r0 else r0 + [x]
    requires FirstSeenOrder(init, r0)
    ensures FirstSeenOrder(init + [x], r)
  {
    var s := init + [x];
    forall i, j | 0 <= i < j < |r| ensures FirstIndex(s, r[i]) < FirstIndex(s, r[j]) {
      assert r[i] == r0[i] && r[i] in init;
      FirstIndexAppend(init, x, r[i]);
      if j < |r0| {
        assert r[j] == r0[j] && r[j] in init;
        FirstIndexAppend(init, x, r[j]);
      } else {
        assert r[j] == x && x !in init;
        assert FirstIndex(s, x) == |init| by {
          assert s[|init|] == x;
          assert s[..|init|] == init;
        }
      }
    }
  }

  lemma FirstIndexAppend(s: seq<string>, x: string, y: string)
    requires y in s
    ensures FirstIndex(s + [x], y) == FirstIndex(s, y)
  {
    var i := FirstIndex(s, y);
    var t := s + [x];
    assert t[..i] == s[..i];
    assert t[i] == y;
  }

  /** No values are listed at an index no variant reaches. */
  lemma {:induction false} ValuesBeyond(vs: seq<Variant>, k: nat)
    requires k >= MaxOptions(vs)
    ensures ValuesAt(vs, k) == []
  {
    if vs != [] {
      ValuesBeyond(vs[..|vs| - 1], k);
    }
  }

  /** Every group has a value, the first of which is the value at that index
      of the first variant reaching it. */
  lemma {:induction false} GroupsNonEmpty(vs: seq<Variant>, k: nat)
    requires k < MaxOptions(vs)
    ensures |Dedup(ValuesAt(vs, k))| >= 1
    ensures exists i :: 0 <= i < |vs| && k < |vs[i].options|
  {
    var init := vs[..|vs| - 1];
    if k < MaxOptions(init) {
      GroupsNonEmpty(init, k);
      var i :| 0 <= i < |init| && k < |init[i].options|;
      assert vs[i] == init[i];
    } else {
      assert k < |vs[|vs| - 1].options|;
    }
  }

  /** The name of a group is that of the first variant having an option at
      its index. */
  lemma {:induction false} FirstNameIsFirst(vs: seq<Variant>, k: nat, i: nat)
    requires i < |vs| && k < |vs[i].options|
    requires forall j :: 0 <= j < i ==> k >= |vs[j].options|
    ensures FirstName(vs, k) == NameAt(vs[i], k)
  {
    var init := vs[..|vs| - 1];
    MaxOptionsFacts(init);
    if i < |vs| - 1 {
      assert init[i] == vs[i];
      assert k < MaxOptions(init);
      FirstNameIsFirst(init, k, i);
    } else {
      assert forall j :: 0 <= j < |init| ==> init[j] == vs[j];
    }
  }

  /** The radio inputs of a group, `checked` where the value equals the
      group's first value. */
  function CheckedFlags(g: OptionGroup): (flags: seq<bool>)
    requires |g.values| >= 1
    ensures |flags| == |g.values|
  {
    seq(|g.values|, i requires 0 <= i < |g.values| => g.values[0] == g.values[i])
  }

  /** Exactly one value per option is pre-checked: the first. */
  lemma OnlyFirstChecked(vs: seq<Variant>, k: nat, i: nat)
    requires k < MaxOptions(vs) && i < |Groups(vs)[k].values|
    ensures |Groups(vs)[k].values| >= 1
    ensures CheckedFlags(Groups(vs)[k])[i] <==> i == 0
  {
    GroupsNonEmpty(vs, k);
    DedupFacts(ValuesAt(vs, k));
  }

  // ---------------------------------------------------------------------
  // Building the groups

  /** One variant more: the group at an index it reaches gains its value
      there, and gets its name if the index is new; the others stay. */
  lemma GroupStep(pre: seq<Variant>, v: Variant, k: nat)
    ensures var post := pre + [v];
      GroupAt(post, k) == if k < |v.options| then
        OptionGroup(
          if k < MaxOptions(pre) then FirstName(pre, k) else NameAt(v, k),
          CombinedListing.AddValue(Dedup(ValuesAt(pre, k)), v.options[k]))
      else GroupAt(pre, k)
  {
    var post := pre + [v];
    assert post[..|post| - 1] == pre;
    var s := ValuesAt(post, k);
    if k < |v.options| {
      assert s == ValuesAt(pre, k) + [v.options[k]];
      assert s[..|s| - 1] == ValuesAt(pre, k);
    } else {
      assert s == ValuesAt(pre, k);
    }
  }

  /** `createVariantOptions`: every variant's options are folded into the
      groups by index. No variants give no groups (and no option markup). */
  method CreateVariantOptions(variants: seq<Variant>) returns (groups: seq<OptionGroup>)
    ensures groups == Groups(variants)
    ensures variants == [] ==> groups == []
  {
    groups := [];
    for v := 0 to |variants|
      invariant groups == Groups(variants[..v])
    {
      assert variants[..v + 1] == variants[..v] + [variants[v]];
      groups := AddVariantOptions(groups, variants[..v], variants[v]);
    }
    assert variants[..|variants|] == variants;
  }

  /** The inner `forEach` of `createVariantOptions`: each option of one
      variant is added to the group of its index, a group being created
      (with the name this variant gives it) the first time its index is
      reached. */
  method AddVariantOptions(groups0: seq<OptionGroup>, ghost pre: seq<Variant>, v: Variant) returns (groups: seq<OptionGroup>)
    requires groups0 == Groups(pre)
    ensures groups == Groups(pre + [v])
  {
    ghost var post := pre + [v];
    ghost var m := MaxOptions(pre);
    groups := groups0;
    for k := 0 to |v.options|
      invariant |groups| == if k <= m then m else k
      invariant forall j :: 0 <= j < |groups| ==> groups[j] == if j < k then GroupAt(post, j) else GroupAt(pre, j)
    {
      GroupStep(pre, v, k);
      if k == |groups| {
        groups := groups + [OptionGroup(NameAt(v, k), [])];
        ValuesBeyond(pre, k);
      }
      groups := groups[k := groups[k].(values := CombinedListing.AddValue(groups[k].values, v.options[k]))];
    }
    GroupsAfterStep(pre, v, groups);
  }

  /** Groups that agree with the new variant up to its last option and with
      the old ones beyond are the groups of the longer list. */
  lemma GroupsAfterStep(pre: seq<Variant>, v: Variant, groups: seq<OptionGroup>)
    requires |groups| == if |v.options| <= MaxOptions(pre) then MaxOptions(pre) else |v.options|
    requires forall j :: 0 <= j < |groups| ==> groups[j] == if j < |v.options| then GroupAt(pre + [v], j) else GroupAt(pre, j)
    ensures groups == Groups(pre + [v])
  {
    var post := pre + [v];
    assert post[..|post| - 1] == pre;
    assert |groups| == MaxOptions(post);
    forall j | 0 <= j < |groups| ensures groups[j] == Groups(post)[j] {
      if j >= |v.options| {
        GroupStep(pre, v, j);
      }
    }
  }

  // ---------------------------------------------------------------------
  // Matching a variant

  /** Every option of the variant equals the selected value at its index (a
      variant without options matches anything). */
  predicate MatchesSelection(v: Variant, selected: map<nat, string>) {
    forall index :: 0 <= index < |v.options| ==> index in selected && selected[index] == v.options[index]
  }

  /** `variants.find(...)`: the first matching variant, from `start` on. */
  function FindMatching(vs: seq<Variant>, selected: map<nat, string>, start: nat): (r: Option<nat>)
    requires start <= |vs|
    ensures r.Some? ==> start <= r.value < |vs| && MatchesSelection(vs[r.value], selected)
    ensures r.Some? ==> forall j :: start <= j < r.value ==> !MatchesSelection(vs[j], selected)
    ensures r.None? <==> forall j :: start <= j < |vs| ==> !MatchesSelection(vs[j], selected)
    decreases |vs| - start
  {
    if start == |vs| then None
    else if MatchesSelection(vs[start], selected) then Some(start)
    else FindMatching(vs, selected, start + 1)
  }

  /** The selection read from the checked radios, in document order; a
      later input for the same index overwrites an earlier one. */
  function SelectionOf(checked: seq<(nat, string)>): map<nat, string> {
    if checked == [] then map[]
    else SelectionOf(checked[..|checked| - 1])[checked[|checked| - 1].0 := checked[|checked| - 1].1]
  }

  /** Each index read maps to the value of the last checked input for it. */
  lemma {:induction false} SelectionOfLast(checked: seq<(nat, string)>, i: nat)
    requires i < |checked|
    requires forall j :: i < j < |checked| ==> checked[j].0 != checked[i].0
    ensures checked[i].0 in SelectionOf(checked) && SelectionOf(checked)[checked[i].0] == checked[i].1
  {
    if i < |checked| - 1 {
      SelectionOfLast(checked[..|checked| - 1], i);
    }
  }

  /** Only indexes of checked inputs are selected. */
  lemma {:induction false} SelectionOfKeys(checked: seq<(nat, string)>)
    ensures forall index :: index in SelectionOf(checked) <==> exists i :: 0 <= i < |checked| && checked[i].0 == index
  {
    if checked != [] {
      var init := checked[..|checked| - 1];
      SelectionOfKeys(init);
      assert forall i :: 0 <= i < |init| ==> init[i] == checked[i];
    }
  }

  /** What the cart receives: a variant id, or the product id when no
      variant id is known. */
  datatype ItemId = VariantItem(variantId: nat) | ProductItem(productId: string)
  datatype CartLine = CartLine(id: ItemId, quantity: int)

  /** `variantId || productId`: a missing or zero variant id falls back to
      the product id. */
  function ItemIdFor(variantId: nat, productId: string): (r: ItemId)
    ensures r.VariantItem? <==> variantId != 0
    ensures r.VariantItem? ==> r.variantId == variantId
    ensures r.ProductItem? ==> r.productId == productId
  {
    if variantId != 0 then VariantItem(variantId) else ProductItem(productId)
  }

  /** `parseInt(value) || 1`, where `None` is `NaN`: the quantity is never
      zero, and a parsable non-zero number is kept. */
  function QuantityOf(parsed: Option<int>): (q: int)
    ensures q != 0
    ensures parsed.Some? && parsed.value != 0 ==> q == parsed.value
    ensures parsed.None? || parsed.value == 0 ==> q == 1
  {
    if parsed.Some? && parsed.value != 0 then parsed.value else 1
  }

  /** What a click on the quick-buy button does. */
  datatype ClickAction = OpenModal | AddDirectly(line: CartLine)

  /** `handleClick`: with variants the modal opens; otherwise the product is
      added at once, with no variant id and quantity 1. */
  function HandleClick(hasVariants: bool, productId: string): (a: ClickAction)
    ensures a.OpenModal? <==> hasVariants
    ensures a.AddDirectly? ==> a.line == CartLine(ProductItem(productId), 1)
  {
    if hasVariants then OpenModal else AddDirectly(CartLine(ItemIdFor(0, productId), 1))
  }

  /** The modal of one product. `selectedVariantId` is `0` until a variant
      has been matched (unset reads as falsy in the source). */
  class QuickBuyModal {
    const productId: string
    const variants: seq<Variant>
    var isOpen: bool
    var selectedVariantId: nat
    /** The variant whose price is shown, once one has been matched. */
    var shownVariant: Option<Variant>

    constructor (productId: string, variants: seq<Variant>)
      ensures this.productId == productId && this.variants == variants
      ensures !isOpen && selectedVariantId == 0 && shownVariant == None
    {
      this.productId := productId;
      this.variants := variants;
      isOpen := false;
      selectedVariantId := 0;
      shownVariant := None;
    }

    method Show()
      modifies this`isOpen
      ensures isOpen
    {
      isOpen := true;
    }

    method Hide()
      modifies this`isOpen
      ensures !isOpen
    {
      isOpen := false;
    }

    /** `updateVariantSelection`: reads the checked inputs into a selection,
        then selects the first variant matching it; with no match nothing
        changes. */
    method UpdateVariantSelection(checked: seq<(nat, string)>)
      modifies this`selectedVariantId, this`shownVariant
      ensures var m := FindMatching(variants, SelectionOf(checked), 0);
        if m.Some?
        then selectedVariantId == variants[m.value].id && shownVariant == Some(variants[m.value])
        else selectedVariantId == old(selectedVariantId) && shownVariant == old(shownVariant)
    {
      var selected: map<nat, string> := map[];
      for i := 0 to |checked|
        invariant selected == SelectionOf(checked[..i])
      {
        assert checked[..i + 1][..i] == checked[..i];
        selected := selected[checked[i].0 := checked[i].1];
      }
      assert checked[..|checked|] == checked;
      var m := FindMatching(variants, selected, 0);
      if m.Some? {
        selectedVariantId := variants[m.value].id;
        shownVariant := Some(variants[m.value]);
      }
    }

    /** `handleAddToCart` followed by the button's `addToCart`: the line
        sent to the cart. */
    method HandleAddToCart(parsedQuantity: Option<int>) returns (line: CartLine)
      ensures line == CartLine(ItemIdFor(selectedVariantId, productId), QuantityOf(parsedQuantity))
      ensures line.quantity != 0
    {
      var quantity := QuantityOf(parsedQuantity);
      line := CartLine(ItemIdFor(selectedVariantId, productId), quantity);
    }
  }
}
