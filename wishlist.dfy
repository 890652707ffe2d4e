/**
 * The wishlist: products saved under the string form of their id, the
 * count text, the empty state and the clear button derived from it after
 * every change, and the copy kept in storage.
 */
module WishlistStore {
  import opened Optional
  import opened Text

  /** A product id as callers pass it: a number or a string. */
  datatype ProductId = IdNumber(n: nat) | IdString(s: string)

  /** `productId.toString()`. */
  function IdKey(id: ProductId): string {
    match id
    case IdNumber(n) => NatToString(n)
    case IdString(s) => s
  }

  /** The product data handed to `addToWishlist` (prices in cents; a missing
      image or variant list is `""` / `None`). */
  datatype ProductData = ProductData(
    id: ProductId, title: string, handle: string, featuredImage: string, image: string,
    price: int, compareAtPrice: Option<int>, available: bool, variants: Option<seq<string>>)

  /** The stored entry. */
  datatype Item = Item(
    id: string, title: string, handle: string, image: string,
    price: int, compareAtPrice: Option<int>, available: bool, variants: seq<string>, addedAt: int)

  /** The entry `addToWishlist` stores for a product, stamped with `now`. */
  function NewItem(p: ProductData, now: int): (it: Item)
    ensures it.id == IdKey(p.id)
    ensures it.image == if p.featuredImage != "" then p.featuredImage else p.image
    ensures p.variants.None? ==> it.variants == []
  {
    Item(IdKey(p.id), p.title, p.handle,
         if p.featuredImage != "" then p.featuredImage else p.image,
         p.price, p.compareAtPrice, p.available, p.variants.GetOr([]), now)
  }

  /** `getLocalizedCount`: `1 product`, otherwise `N products`. */
  function LocalizedCount(count: nat): string {
    NatToString(count) + " product" + (if count != 1 then "s" else "")
  }

  /** The count text is singular exactly for one item, and it determines the
      count it was made from. */
  lemma LocalizedCountFacts(m: nat, n: nat)
    ensures LocalizedCount(n) == "1 product" <==> n == 1
    ensures LocalizedCount(m) == LocalizedCount(n) ==> m == n
  {
    CountDigits(n);
    if LocalizedCount(n) == "1 product" {
      assert NatToString(n) == "1";
      ParseNatToString(n);
    }
    if LocalizedCount(m) == LocalizedCount(n) {
      CountDigits(m);
      NatToStringInjective(m, n);
    }
  }

  /** The digits before the first space of the count text are the count. */
  lemma CountDigits(n: nat)
    ensures LocalizedCount(n)[..IndexOfChar(LocalizedCount(n), ' ')] == NatToString(n)
    ensures NatToString(1) == "1"
  {
    var d := NatToString(n);
    var t := LocalizedCount(n);
    assert ' ' !in d by {
      forall i | 0 <= i < |d| ensures d[i] != ' ' {
        assert '0' <= d[i] <= '9';
      }
    }
    IndexOfAfter(d, ' ', t[|d| + 1..]);
    assert t == d + [' '] + t[|d| + 1..];
  }

  /** Removing the entry stored under `productId` as `removeFromWishlist`
      does: the map is looked up with the id itself, so only a string id can
      match a (string) key. */
  function RemoveEntry(items: map<string, Item>, productId: ProductId): map<string, Item> {
    match productId
    case IdString(s) => if s in items then items - {s} else items
    case IdNumber(_) => items
  }

  /** A numeric id is found by `isInWishlist` (which converts it to a string)
      but never removed by `removeFromWishlist` (which does not). */
  lemma NumericIdNotRemoved(items: map<string, Item>, n: nat)
    requires NatToString(n) in items
    ensures IdKey(IdNumber(n)) in RemoveEntry(items, IdNumber(n))
    ensures !(IdKey(IdString(NatToString(n))) in RemoveEntry(items, IdString(NatToString(n))))
  {
  }

  class Wishlist {
    const persistWishlist: bool
    /** Which of the count text, empty state and clear button exist. */
    const hasCountText: bool
    const hasEmptyState: bool
    const hasClearButton: bool

    var items: map<string, Item>
    /** What is kept under the storage key `wishlist`. */
    var storage: Option<map<string, Item>>
    var countText: string
    var emptyVisible: bool
    var clearShown: bool
    /** The last notification shown. */
    var notification: Option<string>

    /** The display agrees with the items. */
    ghost predicate Valid()
      reads this
    {
      (hasCountText ==> countText == LocalizedCount(|items|)) &&
      (hasEmptyState ==> emptyVisible == (|items| == 0)) &&
      (hasClearButton ==> clearShown == (|items| > 0))
    }

    /** Construction and `connectedCallback`: a saved wishlist is loaded when
        persistence is on, then the display is drawn. */
    constructor (persistWishlist: bool, storage: Option<map<string, Item>>,
                 hasCountText: bool, hasEmptyState: bool, hasClearButton: bool)
      ensures Valid()
      ensures this.persistWishlist == persistWishlist && this.storage == storage
      ensures items == if persistWishlist && storage.Some? then storage.value else map[]
      ensures notification == None
    {
      this.persistWishlist := persistWishlist;
      this.storage := storage;
      this.hasCountText := hasCountText;
      this.hasEmptyState := hasEmptyState;
      this.hasClearButton := hasClearButton;
      items := map[];
      countText := "";
      emptyVisible := false;
      clearShown := false;
      notification := None;
      new;
      LoadWishlist();
      UpdateDisplay();
    }

    /** `loadWishlist`. */
    method LoadWishlist()
      modifies this`items, this`countText, this`emptyVisible, this`clearShown
      ensures items == if persistWishlist && storage.Some? then storage.value else old(items)
      ensures persistWishlist && storage.Some? ==> Valid()
      ensures !(persistWishlist && storage.Some?) ==>
        countText == old(countText) && emptyVisible == old(emptyVisible) && clearShown == old(clearShown)
    {
      if !persistWishlist {
        return;
      }
      if storage.Some? {
        items := storage.value;
        UpdateDisplay();
      }
    }

    /** `saveWishlist`: a no-op when persistence is off. */
    method SaveWishlist()
      modifies this`storage
      ensures storage == if persistWishlist then Some(items) else old(storage)
    {
      if !persistWishlist {
        return;
      }
      storage := Some(items);
    }

    /** `updateDisplay`: count text, empty state and clear button. */
    method UpdateDisplay()
      modifies this`countText, this`emptyVisible, this`clearShown
      ensures Valid()
      ensures !hasCountText ==> countText == old(countText)
      ensures !hasEmptyState ==> emptyVisible == old(emptyVisible)
      ensures !hasClearButton ==> clearShown == old(clearShown)
    {
      if hasCountText {
        countText := LocalizedCount(|items|);
      }
      if hasEmptyState {
        emptyVisible := |items| == 0;
      }
      if hasClearButton {
        clearShown := |items| > 0;
      }
    }

    /** `addToWishlist`: inserts under the id's string form only when that
        key is absent; an existing entry is never overwritten. */
    method AddToWishlist(product: ProductData, now: int)
      requires Valid()
      modifies this
      ensures Valid()
      ensures var key := IdKey(product.id);
        items == if key in old(items) then old(items) else old(items)[key := NewItem(product, now)]
      ensures IdKey(product.id) in items
      ensures IdKey(product.id) in old(items) ==>
        items == old(items) && storage == old(storage) && notification == old(notification)
      ensures IdKey(product.id) !in old(items) ==>
        |items| == |old(items)| + 1 &&
        storage == (if persistWishlist then Some(items) else old(storage)) &&
        notification == Some("Product added to wishlist")
    {
      var key := IdKey(product.id);
      if key !in items {
        items := items[key := NewItem(product, now)];
        SaveWishlist();
        UpdateDisplay();
        notification := Some("Product added to wishlist");
      }
    }

    /** `removeFromWishlist`: deletes a present key and is a no-op otherwise
        (see `RemoveEntry` for how the id is compared). */
    method RemoveFromWishlist(productId: ProductId)
      requires Valid()
      modifies this
      ensures Valid()
      ensures items == RemoveEntry(old(items), productId)
      ensures items == old(items) ==> storage == old(storage) && notification == old(notification)
      ensures items != old(items) ==>
        |items| == |old(items)| - 1 &&
        storage == (if persistWishlist then Some(items) else old(storage)) &&
        notification == Some("Product removed from wishlist")
    {
      if productId.IdString? && productId.s in items {
        items := items - {productId.s};
        SaveWishlist();
        UpdateDisplay();
        notification := Some("Product removed from wishlist");
      }
    }

    /** `clearWishlist`: no items, the empty state shown, the clear button
        hidden. */
    method ClearWishlist()
      requires Valid()
      modifies this
      ensures Valid()
      ensures items == map[]
      ensures hasEmptyState ==> emptyVisible
      ensures hasClearButton ==> !clearShown
      ensures storage == if persistWishlist then Some(map[]) else old(storage)
      ensures notification == Some("Wishlist cleared")
    {
      items := map[];
      SaveWishlist();
      UpdateDisplay();
      notification := Some("Wishlist cleared");
    }

    /** `isInWishlist`. */
    predicate IsInWishlist(productId: ProductId)
      reads this
    {
      IdKey(productId) in items
    }

    /** `getWishlistCount`. */
    function Count(): nat
      reads this
    {
      |items|
    }

    /** Saving and then loading gives back the same id-to-item mapping. */
    method SaveThenLoad()
      requires Valid() && persistWishlist
      modifies this
      ensures Valid()
      ensures items == old(items)
      ensures storage == Some(items)
    {
      SaveWishlist();
      LoadWishlist();
    }
  }

  /** Adding a product makes it a member, and the count grows by one exactly
      when it was not one before; removing it by its string key undoes the
      membership and restores the count. */
  lemma AddRemoveMembership(items: map<string, Item>, p: ProductData, now: int)
    ensures var added := if IdKey(p.id) in items then items else items[IdKey(p.id) := NewItem(p, now)];
      IdKey(p.id) in added &&
      |added| == (if IdKey(p.id) in items then |items| else |items| + 1) &&
      (IdKey(p.id) !in items ==> RemoveEntry(added, IdString(IdKey(p.id))) == items)
  {
    var k := IdKey(p.id);
    if k !in items {
      var added := items[k := NewItem(p, now)];
      assert RemoveEntry(added, IdString(k)) == added - {k};
      assert added - {k} == items;
    }
  }
}
