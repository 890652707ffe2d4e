/**
 * The menu page's search box, category filter buttons and collapsible
 * categories: which product cards and categories are hidden after a
 * search, a filter click, a category toggle or the Escape key.
 */
module MenuSearch {
  import opened Text

  /** A product card: its `data-name`, its text content, and the index of
      the category that holds it (`-1` for none). */
  datatype Card = Card(name: string, text: string, owner: int)

  /** A category section: its element id and its `data-category`. */
  datatype Category = Category(id: string, category: string)

  /** The search term as the input handler derives it: lower-cased, then
      trimmed. */
  function SearchTerm(value: string): string {
    Trim(ToLower(value))
  }

  /** A card matches when its lower-cased name or text includes the term. */
  predicate Matches(card: Card, term: string) {
    Includes(ToLower(card.name), term) || Includes(ToLower(card.text), term)
  }

  /** A card matches exactly when the term occurs in its lower-cased name
      or text, and every card matches the empty term. */
  lemma MatchesIff(card: Card, term: string)
    ensures Matches(card, term) <==>
      (exists i :: OccursAt(ToLower(card.name), term, i)) || (exists i :: OccursAt(ToLower(card.text), term, i))
    ensures term == "" ==> Matches(card, term)
  {
    IncludesIff(ToLower(card.name), term);
    IncludesIff(ToLower(card.text), term);
    IncludesEmpty(ToLower(card.name));
  }

  /** `toggleCategory` on a category's (content active, header collapsed)
      pair: an active content collapses, any other expands. */
  function Toggle(state: (bool, bool)): (r: (bool, bool))
    ensures r.0 == !state.0 && r.1 == state.0
  {
    if state.0 then (false, true) else (true, false)
  }

  /** Toggling twice restores exactly the consistent pairs, those whose
      header is collapsed exactly when the content is not active. */
  lemma ToggleTwice(state: (bool, bool))
    ensures Toggle(Toggle(state)) == state <==> state.1 == !state.0
  {
  }

  class MenuPage {
    const cards: seq<Card>
    const categories: seq<Category>

    var cardHidden: seq<bool>
    var categoryHidden: seq<bool>
    var contentActive: seq<bool>
    var headerCollapsed: seq<bool>
    var searchValue: string
    /** The `data-category` of the active filter button. */
    var activeFilter: string

    ghost predicate Valid()
      reads this
    {
      |cardHidden| == |cards| && |categoryHidden| == |categories| &&
      |contentActive| == |categories| && |headerCollapsed| == |categories|
    }

    constructor (cards: seq<Card>, categories: seq<Category>, contentActive: seq<bool>, headerCollapsed: seq<bool>)
      requires |contentActive| == |categories| && |headerCollapsed| == |categories|
      ensures Valid()
      ensures this.cards == cards && this.categories == categories
      ensures this.contentActive == contentActive && this.headerCollapsed == headerCollapsed
      ensures forall i :: 0 <= i < |cardHidden| ==> !cardHidden[i]
      ensures forall k :: 0 <= k < |categoryHidden| ==> !categoryHidden[k]
      ensures searchValue == "" && activeFilter == "all"
    {
      this.cards := cards;
      this.categories := categories;
      cardHidden := seq(|cards|, _ => false);
      categoryHidden := seq(|categories|, _ => false);
      this.contentActive := contentActive;
      this.headerCollapsed := headerCollapsed;
      searchValue := "";
      activeFilter := "all";
    }

    /** Some card of category `k` is not hidden. */
    predicate HasVisibleCard(k: int)
      reads this
    {
      AnyVisible(cards, cardHidden, k)
    }

    /** The search input handler. With a non-empty term a card is hidden
        exactly when it does not match, and a category exactly when none of
        its cards is visible; an empty term shows every card and category
        and makes `all` the active filter. */
    method Search(value: string)
      requires Valid()
      modifies this`cardHidden, this`categoryHidden, this`searchValue, this`activeFilter
      ensures Valid()
      ensures searchValue == value
      ensures SearchTerm(value) != "" ==> forall i :: 0 <= i < |cards| ==> (cardHidden[i] <==> !Matches(cards[i], SearchTerm(value)))
      ensures SearchTerm(value) != "" ==> forall k :: 0 <= k < |categories| ==> (categoryHidden[k] <==> !HasVisibleCard(k))
      ensures SearchTerm(value) != "" ==> activeFilter == old(activeFilter)
      ensures SearchTerm(value) == "" ==> ((forall i :: 0 <= i < |cards| ==> !cardHidden[i]) &&
        (forall k :: 0 <= k < |categories| ==> !categoryHidden[k]) && activeFilter == "all")
    {
      var term := SearchTerm(value);
      var hidden := MatchFlags(term);
      var catHidden := CategoryFlags(hidden, term);
      searchValue := value;
      cardHidden := hidden;
      categoryHidden := catHidden;
      if term == "" {
        cardHidden := seq(|cards|, _ => false);
        categoryHidden := seq(|categories|, _ => false);
        activeFilter := "all";
      }
    }

    /** The search's card flags: hidden exactly when not matching. */
    method MatchFlags(term: string) returns (hidden: seq<bool>)
      ensures |hidden| == |cards|
      ensures forall j :: 0 <= j < |cards| ==> (hidden[j] <==> !Matches(cards[j], term))
    {
      hidden := [];
      for i := 0 to |cards|
        invariant |hidden| == i
        invariant forall j :: 0 <= j < i ==> (hidden[j] <==> !Matches(cards[j], term))
      {
        var card := cards[i];
        var matches := Includes(ToLower(card.name), term) || Includes(ToLower(card.text), term);
        hidden := hidden + [!matches];
      }
    }

    /** The search's category flags: hidden exactly when the term is not
        empty and no card of the category is visible. */
    method CategoryFlags(hidden: seq<bool>, term: string) returns (catHidden: seq<bool>)
      ensures |catHidden| == |categories|
      ensures forall m :: 0 <= m < |categories| ==> (catHidden[m] <==> !AnyVisible(cards, hidden, m) && term != "")
    {
      catHidden := [];
      for k := 0 to |categories|
        invariant |catHidden| == k
        invariant forall m :: 0 <= m < k ==> (catHidden[m] <==> !AnyVisible(cards, hidden, m) && term != "")
      {
        catHidden := catHidden + [!AnyVisible(cards, hidden, k) && term != ""];
      }
    }

    /** A filter button click: the search is cleared and the button becomes
        the active filter. `all` shows every card and category; any other
        filter shows exactly the categories of that name, each with all its
        cards, and leaves the other cards as they were. */
    method Filter(category: string)
      requires Valid()
      modifies this`cardHidden, this`categoryHidden, this`searchValue, this`activeFilter
      ensures Valid()
      ensures searchValue == "" && activeFilter == category
      ensures category == "all" ==> ((forall i :: 0 <= i < |cards| ==> !cardHidden[i]) &&
        (forall k :: 0 <= k < |categories| ==> !categoryHidden[k]))
      ensures category != "all" ==> forall k :: 0 <= k < |categories| ==> (categoryHidden[k] <==> categories[k].category != category)
      ensures category != "all" ==> forall i :: 0 <= i < |cards| ==>
        cardHidden[i] == (if ShownBy(cards[i], category) then false else old(cardHidden[i]))
    {
      if category == "all" {
        activeFilter := category;
        searchValue := "";
        cardHidden := seq(|cards|, _ => false);
        categoryHidden := seq(|categories|, _ => false);
        return;
      }
      var hidden := cardHidden;
      var catHidden: seq<bool> := [];
      for k := 0 to |categories|
        invariant |catHidden| == k && |hidden| == |cards|
        invariant forall m :: 0 <= m < k ==> (catHidden[m] <==> categories[m].category != category)
        invariant forall i :: 0 <= i < |cards| ==>
          hidden[i] == (if 0 <= cards[i].owner < k && ShownBy(cards[i], category) then false else old(cardHidden[i]))
      {
        if categories[k].category == category {
          catHidden := catHidden + [false];
          hidden := ShowCardsOf(hidden, k);
        } else {
          catHidden := catHidden + [true];
        }
      }
      activeFilter := category;
      searchValue := "";
      cardHidden := hidden;
      categoryHidden := catHidden;
    }

    /** The card lies in a category of that name. */
    predicate ShownBy(card: Card, category: string) {
      0 <= card.owner < |categories| && categories[card.owner].category == category
    }

    /** The card flags with every card of category `k` shown. */
    method ShowCardsOf(before: seq<bool>, k: int) returns (hidden: seq<bool>)
      requires |before| == |cards|
      ensures |hidden| == |cards|
      ensures forall i :: 0 <= i < |cards| ==> hidden[i] == (if cards[i].owner == k then false else before[i])
    {
      hidden := before;
      for i := 0 to |cards|
        invariant |hidden| == |cards|
        invariant forall j :: 0 <= j < |cards| ==> hidden[j] == (if j < i && cards[j].owner == k then false else before[j])
      {
        if cards[i].owner == k {
          hidden := hidden[i := false];
        }
      }
    }

    /** `toggleCategory`: flips the category's content; an unknown id makes
        the lookup throw. */
    method ToggleCategory(id: string) returns (threw: bool)
      requires Valid()
      modifies this`contentActive, this`headerCollapsed
      ensures Valid()
      ensures threw <==> FirstWithId(categories, id) == |categories|
      ensures !threw ==> var k := FirstWithId(categories, id);
        (contentActive[k], headerCollapsed[k]) == Toggle((old(contentActive[k]), old(headerCollapsed[k]))) &&
        contentActive == old(contentActive)[k := contentActive[k]] &&
        headerCollapsed == old(headerCollapsed)[k := headerCollapsed[k]]
      ensures threw ==> contentActive == old(contentActive) && headerCollapsed == old(headerCollapsed)
    {
      var k := FirstWithId(categories, id);
      if k == |categories| {
        return true;
      }
      if contentActive[k] {
        contentActive := contentActive[k := false];
        headerCollapsed := headerCollapsed[k := true];
      } else {
        contentActive := contentActive[k := true];
        headerCollapsed := headerCollapsed[k := false];
      }
      return false;
    }

    /** A navigation link click: the target category is expanded (an
        unknown target does nothing). */
    method NavigateTo(id: string)
      requires Valid()
      modifies this`contentActive, this`headerCollapsed
      ensures Valid()
      ensures FirstWithId(categories, id) < |categories| ==>
        contentActive[FirstWithId(categories, id)] &&
        headerCollapsed[FirstWithId(categories, id)] == (if old(contentActive[FirstWithId(categories, id)]) then old(headerCollapsed[FirstWithId(categories, id)]) else false)
      ensures forall m :: 0 <= m < |categories| && m != FirstWithId(categories, id) ==>
        contentActive[m] == old(contentActive[m]) && headerCollapsed[m] == old(headerCollapsed[m])
    {
      var k := FirstWithId(categories, id);
      if k == |categories| {
        return;
      }
      if !contentActive[k] {
        contentActive := contentActive[k := true];
        headerCollapsed := headerCollapsed[k := false];
      }
    }

    /** The Escape key: a non-empty search is emptied and the search rule
        re-run, which shows everything and resets the filter to `all`. */
    method Escape()
      requires Valid()
      modifies this`cardHidden, this`categoryHidden, this`searchValue, this`activeFilter
      ensures Valid()
      ensures old(searchValue) != "" ==> (searchValue == "" && activeFilter == "all" &&
        (forall i :: 0 <= i < |cards| ==> !cardHidden[i]) && (forall k :: 0 <= k < |categories| ==> !categoryHidden[k]))
      ensures old(searchValue) == "" ==> (cardHidden == old(cardHidden) && categoryHidden == old(categoryHidden) &&
        activeFilter == old(activeFilter) && searchValue == old(searchValue))
    {
      if searchValue != "" {
        assert SearchTerm("") == "" by {
          assert ToLower("") == "";
        }
        Search("");
      }
    }
  }

  /** Some card of category `k` is not hidden. */
  predicate AnyVisible(cards: seq<Card>, hidden: seq<bool>, k: int) {
    exists j :: 0 <= j < |cards| && j < |hidden| && cards[j].owner == k && !hidden[j]
  }

  /** The index of the first category with that id, `|categories|` when
      there is none (`getElementById` returning `null`). */
  function FirstWithId(categories: seq<Category>, id: string): (k: nat)
    ensures k <= |categories|
    ensures k < |categories| ==> categories[k].id == id
    ensures forall m :: 0 <= m < k ==> categories[m].id != id
  {
    if categories == [] then 0 else if categories[0].id == id then 0 else 1 + FirstWithId(categories[1..], id)
  }
}
