# Storefront widgets, modelled in Dafny

This project models the decision logic and state of a set of storefront widgets: eleven web components of a Shopify theme plus the script of a static menu page. Each widget is stripped of its DOM, timer and fetch plumbing. What remains is a small sequential state, or a decision rule, and that is modelled and proved here:

- **Combined listing** (`CombinedListing`, combined_listing.dfy). A product grid that filters by product type, vendor and a price window. It sorts in eight modes and pages the result, with a window of at most five page buttons. The element is a class whose handlers update its filter, list and page fields. The sort is a stable insertion sort, proved to be a permutation that orders by the mode's key and is stable.
- **Advanced filters** (`AdvancedFilters`, advanced_filters.dfy). An insertion-ordered map of active filters: `type:value` keys for checkboxes, plus the fixed keys `price` and `sort`. It has the chips that show the map and the mapping of entries to storefront query parameters. Entries are saved and restored. A page-wide manager keeps one panel per section id.
- **Wishlist** (`WishlistStore`, wishlist.dfy). An id-to-item map with insert-if-absent, remove-if-present and clear. It also has the count text, the empty state, the clear button and persistence.
- **Quick buy** (`QuickBuy`, quick_buy.dfy).
  - The option groups built from a product's variants: distinct values per option index, in first-seen order.
  - The match of the checked options against the variants.
  - The cart line that "add to cart" sends.
- **Product badges** (`ProductBadges`, product_badges.dfy). The seven badge rules over the first variant and the tags, generated in a fixed order. Also the badge list's add, remove and clear.
- **Countdown timer** (`Countdown`, countdown_timer.dfy).
  - The split of the time left into days, hours, minutes and seconds, with two-digit padding.
  - The timezone table and the restart interval.
  - The timer's expiry and restart.
- **Promo popup** (`PromoPopups`, promo_popup.dfy).
  - The `document.cookie` lookup, over a cookie jar rendered as the browser does.
  - The e-mail shape check and the show-once rule.
  - The popup's triggers, and its show/close state machine.
  - The manager that closes the other popups when one opens.
- **Social proof carousel** (`SocialProofs`, social_proof.dfy). Slides per view, previous, next and go-to, swipes, the arrow and dot state, and the autoplay tick that wraps.
- **Image hotspots** (`ImageHotspots`, image_hotspot.dfy). At most one active hotspot, toggling from the hotspot or from the legend, open-all and close-all, modular rotation, and coordinate clamping.
- **Infinite scroll** (`InfiniteScrolls`, infinite_scroll.dfy). The loading, end and error flags, the page counter, the product total and the remaining count, stepped by a page load whose fetch is an input value.
- **Menu page** (`MenuSearch`, menu_search.dfy). Search and category-filter visibility over cards grouped by category, the category toggle, navigation and Escape.

There are four shared modules:

- `Optional` (optional.dfy) holds an option type and `IntOr`, the `parseInt(attribute) || fallback` idiom on data attributes.
- `Text` (text.dfy) holds the JavaScript string operations the widgets use: `trim`, ASCII lower-casing, `includes`, `startsWith`, `split`/`join` on a character, decimal rendering and `padStart`.
- `OrderedMaps` (ordered_map.dfy) is a JavaScript `Map`: a sequence of key/value pairs with distinct keys that keeps insertion order.
- `Arithmetic` (arithmetic.dfy) holds the uniqueness of integer quotient and remainder, used where a proof divides by a value.

Conventions used throughout:

- Prices are integers in cents, and times are integer milliseconds.
- `parseInt`/`parseFloat` results are `Option<int>`, with `None` standing for `NaN`.
- A missing data attribute is the empty string.
- Timers are explicit method calls: a tick, an elapsed delay.
- The outcome of a fetch is a parameter.
- The current time and the viewport width are parameters.

## Model

| member | source | states |
|---|---|---|
| Text.TrimIsCore | script.js:9 | `trim` removes exactly the leading and trailing JavaScript whitespace, and keeps the core unchanged |
| Text.TrimEmptyIffBlank | theme_export__g0m0he-uw-myshopify-com-dawn__27JUL2025-0509am/assets/product-badges.js:192-194 | a string trims to the empty string exactly when every character is whitespace |
| Text.IncludesIff | script.js:15-16 | `includes` holds exactly when the pattern occurs at some position |
| Text.IncludesEmpty | script.js:15-16 | every string includes the empty string |
| Text.SplitJoin | theme_export__g0m0he-uw-myshopify-com-dawn__27JUL2025-0509am/assets/promo-popup.js:272 | splitting on a separator and joining with it gives the string back |
| Text.ParseNatToString | theme_export__g0m0he-uw-myshopify-com-dawn__27JUL2025-0509am/assets/wishlist.js:490-493 | the decimal rendering of a count consists of digits and parses back to the count |
| Text.NatToStringInjective | theme_export__g0m0he-uw-myshopify-com-dawn__27JUL2025-0509am/assets/wishlist.js:490-493 | different counts render differently |
| OrderedMaps.SetGet | theme_export__g0m0he-uw-myshopify-com-dawn__27JUL2025-0509am/assets/advanced-filters.js:214 | after `Map.set`, the key maps to the new value and every other key is unchanged |
| OrderedMaps.Set | theme_export__g0m0he-uw-myshopify-com-dawn__27JUL2025-0509am/assets/advanced-filters.js:214 | an existing key keeps its position, and a new key is appended at the end |
| OrderedMaps.SetDistinct | theme_export__g0m0he-uw-myshopify-com-dawn__27JUL2025-0509am/assets/advanced-filters.js:214 | `Map.set` keeps keys distinct |
| OrderedMaps.DeleteGet | theme_export__g0m0he-uw-myshopify-com-dawn__27JUL2025-0509am/assets/advanced-filters.js:216 | after `Map.delete`, the key is absent and every other key is unchanged |
| OrderedMaps.DeleteAt | theme_export__g0m0he-uw-myshopify-com-dawn__27JUL2025-0509am/assets/advanced-filters.js:216 | `Map.delete` removes exactly the entry of that key and keeps the rest in order |
| OrderedMaps.DeleteShape | theme_export__g0m0he-uw-myshopify-com-dawn__27JUL2025-0509am/assets/advanced-filters.js:216 | `Map.delete` keeps keys distinct, and shrinks the map by one exactly when the key was present |
| OrderedMaps.FromEntriesOfEntries | theme_export__g0m0he-uw-myshopify-com-dawn__27JUL2025-0509am/assets/advanced-filters.js:484-496 | `new Map(Array.from(map.entries()))` gives back the same map |
| CombinedListing.AddValue | theme_export__g0m0he-uw-myshopify-com-dawn__27JUL2025-0509am/assets/combined-listing.js:205-209 | checking a value yields exactly the old values plus that one; it is appended only if absent, so a duplicate-free list stays duplicate-free |
| CombinedListing.RemoveValue | theme_export__g0m0he-uw-myshopify-com-dawn__27JUL2025-0509am/assets/combined-listing.js:211 | unchecking yields exactly the old values other than that one, with no duplicates introduced |
| CombinedListing.RemoveValueKeepsOrder | theme_export__g0m0he-uw-myshopify-com-dawn__27JUL2025-0509am/assets/combined-listing.js:211 | unchecking keeps the remaining values in their order |
| CombinedListing.FilterProducts | theme_export__g0m0he-uw-myshopify-com-dawn__27JUL2025-0509am/assets/combined-listing.js:364-389 | a product is kept exactly when it passes the type, vendor and price-window tests, and no product is added |
| CombinedListing.FilterIsSubsequence | theme_export__g0m0he-uw-myshopify-com-dawn__27JUL2025-0509am/assets/combined-listing.js:364-389 | the filtered list is an order-preserving subsequence of all products |
| CombinedListing.NoFiltersKeepsPriced | theme_export__g0m0he-uw-myshopify-com-dawn__27JUL2025-0509am/assets/combined-listing.js:50-54 | with the initial filters (no type, no vendor, window [0, Infinity)), a product passes exactly when its price is not negative |
| CombinedListing.SortPermutes | theme_export__g0m0he-uw-myshopify-com-dawn__27JUL2025-0509am/assets/combined-listing.js:406-472 | every sort mode yields a permutation of its input |
| CombinedListing.SortOrders | theme_export__g0m0he-uw-myshopify-com-dawn__27JUL2025-0509am/assets/combined-listing.js:406-472 | every sort mode yields its keys in non-decreasing order |
| CombinedListing.SortIsStable | theme_export__g0m0he-uw-myshopify-com-dawn__27JUL2025-0509am/assets/combined-listing.js:406-472 | elements with equal keys keep their relative order, as `Array.prototype.sort` guarantees |
| CombinedListing.SortSortedIsIdentity | theme_export__g0m0he-uw-myshopify-com-dawn__27JUL2025-0509am/assets/combined-listing.js:406-472 | sorting a list that is already in order leaves it unchanged |
| CombinedListing.SortByPrice | theme_export__g0m0he-uw-myshopify-com-dawn__27JUL2025-0509am/assets/combined-listing.js:437-451 | price-ascending gives non-decreasing prices and price-descending non-increasing prices, each as a permutation of the input |
| CombinedListing.SubsequenceKeepsOrder | theme_export__g0m0he-uw-myshopify-com-dawn__27JUL2025-0509am/assets/combined-listing.js:466-472 | a subsequence of a list that is in order is in order |
| CombinedListing.ManualRestoresCatalogueOrder | theme_export__g0m0he-uw-myshopify-com-dawn__27JUL2025-0509am/assets/combined-listing.js:466-472 | the manual mode restores the catalogue order: sorting any filtered list manually returns it unchanged |
| CombinedListing.CeilDivBounds | theme_export__g0m0he-uw-myshopify-com-dawn__27JUL2025-0509am/assets/combined-listing.js:548 | `Math.ceil(n / perPage)` is the least number of pages of `perPage` items that holds `n` items |
| CombinedListing.PageStartIsProduct | theme_export__g0m0he-uw-myshopify-com-dawn__27JUL2025-0509am/assets/combined-listing.js:493 | a page starts at index `(page - 1) * perPage` |
| CombinedListing.PageSliceContents | theme_export__g0m0he-uw-myshopify-com-dawn__27JUL2025-0509am/assets/combined-listing.js:491-496 | the displayed slice holds the items from index `(page - 1) * perPage` on, and at most `perPage` of them |
| CombinedListing.PageNonEmptyIff | theme_export__g0m0he-uw-myshopify-com-dawn__27JUL2025-0509am/assets/combined-listing.js:491-496 | a page shows something exactly when its number is at most `totalPages` (together with line 548 of the same file) |
| CombinedListing.PageWindowContract | theme_export__g0m0he-uw-myshopify-com-dawn__27JUL2025-0509am/assets/combined-listing.js:563-569 | the page-number window holds at most five pages, all in 1..totalPages; it contains the current page whenever that page exists, and is as full as the page count allows |
| CombinedListing.BuildPageButtons | theme_export__g0m0he-uw-myshopify-com-dawn__27JUL2025-0509am/assets/combined-listing.js:571-584 | the loop emits one button per page of the window, in order, each in 1..totalPages; exactly the current page's button is active, and one is active exactly when the current page exists |
| CombinedListing.SetupProducts | theme_export__g0m0he-uw-myshopify-com-dawn__27JUL2025-0509am/assets/combined-listing.js:138-152 | every product is stamped with its catalogue position |
| CombinedListing.Listing.constructor | theme_export__g0m0he-uw-myshopify-com-dawn__27JUL2025-0509am/assets/combined-listing.js:7-57 | products stamped in order; 12 per page when the attribute is missing or 0; no filters, manual order, page 1; with pagination on, `totalPages` counts the whole catalogue, and the first page is drawn: arrows, page buttons, visible products and no-results (together with lines 154-159 and 480-586 of the same file) |
| CombinedListing.Listing.Init | theme_export__g0m0he-uw-myshopify-com-dawn__27JUL2025-0509am/assets/combined-listing.js:59-64 | from the blank state, the element invariant holds and the first page is drawn: pagination of the whole catalogue when it is on, the arrows and page buttons when its element exists, the visible products and no-results |
| CombinedListing.Listing.SetupPagination | theme_export__g0m0he-uw-myshopify-com-dawn__27JUL2025-0509am/assets/combined-listing.js:154-159 | at start-up with pagination on, the page count is the whole catalogue divided by the page size, rounded up; with the pagination element present the arrows and page buttons are drawn for it; with pagination off, nothing changes |
| CombinedListing.Listing.UpdatePagination | theme_export__g0m0he-uw-myshopify-com-dawn__27JUL2025-0509am/assets/combined-listing.js:545-586 | with pagination on and its element present: `totalPages` is the ceiling of the count over the page size; prev is disabled iff on page 1 and next iff on the last page; the buttons are the window, each numbered in 1..totalPages, the current one active. Otherwise nothing changes |
| CombinedListing.Listing.UpdateDisplay | theme_export__g0m0he-uw-myshopify-com-dawn__27JUL2025-0509am/assets/combined-listing.js:480-529 | the visible products are the current page of the sorted list (all of it without pagination); no-results is shown exactly when nothing matched |
| CombinedListing.Listing.Redraw | theme_export__g0m0he-uw-myshopify-com-dawn__27JUL2025-0509am/assets/combined-listing.js:480-586 | after `updatePagination` and `updateDisplay`: with pagination on and its element present, the arrows and page buttons match the current page and every button is in 1..totalPages, otherwise the pagination is kept; the visible products are the current page; no-results shows exactly when nothing matched |
| CombinedListing.Listing.ApplySorting | theme_export__g0m0he-uw-myshopify-com-dawn__27JUL2025-0509am/assets/combined-listing.js:406-478 | the sorted list is the filtered list sorted by the current mode |
| CombinedListing.Listing.ApplyFilters | theme_export__g0m0he-uw-myshopify-com-dawn__27JUL2025-0509am/assets/combined-listing.js:363-404 | the filtered list is the filter of all products; it is sorted, the page goes back to 1; the page is redrawn: the arrows are disabled exactly on the first and last page, the page buttons are the window with the current one active, the visible products are the current page of the sorted list, and no-results shows exactly when nothing matched (together with lines 480-586 of the same file) |
| CombinedListing.Listing.HandleFilterChange | theme_export__g0m0he-uw-myshopify-com-dawn__27JUL2025-0509am/assets/combined-listing.js:199-215 | the checkbox's list gains or loses the value; the other list and the price window are untouched; filters are re-applied from page 1; the page is redrawn: the arrows are disabled exactly on the first and last page, the page buttons are the window with the current one active, the visible products are the current page of the sorted list, and no-results shows exactly when nothing matched |
| CombinedListing.Listing.HandlePriceInput | theme_export__g0m0he-uw-myshopify-com-dawn__27JUL2025-0509am/assets/combined-listing.js:217-229 | a non-number reads as 0; the minimum is set, or the maximum with 0 meaning no upper bound; filters are re-applied from page 1; the page is redrawn: the arrows are disabled exactly on the first and last page, the page buttons are the window with the current one active, the visible products are the current page of the sorted list, and no-results shows exactly when nothing matched |
| CombinedListing.Listing.HandleFilterClear | theme_export__g0m0he-uw-myshopify-com-dawn__27JUL2025-0509am/assets/combined-listing.js:231-256 | back to empty type and vendor lists and the window [0, Infinity); filters are re-applied from page 1; the page is redrawn: the arrows are disabled exactly on the first and last page, the page buttons are the window with the current one active, the visible products are the current page of the sorted list, and no-results shows exactly when nothing matched |
| CombinedListing.Listing.HandleSortChange | theme_export__g0m0he-uw-myshopify-com-dawn__27JUL2025-0509am/assets/combined-listing.js:258-262 | the mode is the parsed select value, and the sorted list is re-sorted without a redraw |
| CombinedListing.Listing.SetSorting | theme_export__g0m0he-uw-myshopify-com-dawn__27JUL2025-0509am/assets/combined-listing.js:659-663 | like the sort change, and the page is redrawn: the visible products are the current page of the newly sorted list and no-results shows exactly when nothing matched; the pagination is left as it was |
| CombinedListing.Listing.HandlePaginationPrev | theme_export__g0m0he-uw-myshopify-com-dawn__27JUL2025-0509am/assets/combined-listing.js:264-272 | above page 1 the page goes down by one; the page is redrawn: the arrows are disabled exactly on the first and last page, the page buttons are the window with the current one active, the visible products are the current page of the sorted list, and no-results shows exactly when nothing matched; on page 1 nothing changes |
| CombinedListing.Listing.HandlePaginationNext | theme_export__g0m0he-uw-myshopify-com-dawn__27JUL2025-0509am/assets/combined-listing.js:274-282 | below `totalPages` the page goes up by one; the page is redrawn: the arrows are disabled exactly on the first and last page, the page buttons are the window with the current one active, the visible products are the current page of the sorted list, and no-results shows exactly when nothing matched; on the last page nothing changes |
| CombinedListing.Listing.HandlePaginationPage | theme_export__g0m0he-uw-myshopify-com-dawn__27JUL2025-0509am/assets/combined-listing.js:284-293 | a page button moves to its page; the page is redrawn: the arrows are disabled exactly on the first and last page, the page buttons are the window with the current one active, the visible products are the current page of the sorted list, and no-results shows exactly when nothing matched; clicking the current page changes nothing |
| CombinedListing.Listing.GoToPage | theme_export__g0m0he-uw-myshopify-com-dawn__27JUL2025-0509am/assets/combined-listing.js:665-671 | a page in 1..totalPages becomes the current page; the page is redrawn: the arrows are disabled exactly on the first and last page, the page buttons are the window with the current one active, the visible products are the current page of the sorted list, and no-results shows exactly when nothing matched; any other page is ignored |
| AdvancedFilters.KeyAvoidsFixedKeys | theme_export__g0m0he-uw-myshopify-com-dawn__27JUL2025-0509am/assets/advanced-filters.js:214-247 | a checkbox key `type:value` never collides with the fixed keys `price` and `sort` |
| AdvancedFilters.KeySplitsBack | theme_export__g0m0he-uw-myshopify-com-dawn__27JUL2025-0509am/assets/advanced-filters.js:361 | splitting a key on `:` gives back its type and value when neither contains `:` |
| AdvancedFilters.FindItem | theme_export__g0m0he-uw-myshopify-com-dawn__27JUL2025-0509am/assets/advanced-filters.js:457 | `find` gives the first item whose value matches, or none |
| AdvancedFilters.ItemsOf | theme_export__g0m0he-uw-myshopify-com-dawn__27JUL2025-0509am/assets/advanced-filters.js:456 | `filterData.get(type) \|\| []`: the loaded items of the type, and none for an unknown type |
| AdvancedFilters.FilterLabel | theme_export__g0m0he-uw-myshopify-com-dawn__27JUL2025-0509am/assets/advanced-filters.js:454-459 | the label of the first item whose value matches, else the value itself |
| AdvancedFilters.PriceLabelBareIff | theme_export__g0m0he-uw-myshopify-com-dawn__27JUL2025-0509am/assets/advanced-filters.js:463-466 | the price chip is the bare `Price` exactly when neither bound is set |
| AdvancedFilters.PriceLabelShowsBounds | theme_export__g0m0he-uw-myshopify-com-dawn__27JUL2025-0509am/assets/advanced-filters.js:463-466 | each bound that is set appears after a `$`; a single bound gives `Price: $bound` |
| AdvancedFilters.DisplayLabelEndsWithText | theme_export__g0m0he-uw-myshopify-com-dawn__27JUL2025-0509am/assets/advanced-filters.js:467-481 | a vendor, type, tag or metafield chip ends with the filter's label, a sort chip with its value, and an unknown type shows its label or else its value |
| AdvancedFilters.ParamNameRoundTrip | theme_export__g0m0he-uw-myshopify-com-dawn__27JUL2025-0509am/assets/advanced-filters.js:280-296 | the parameter name of vendor, type, tag, sort and `metafield_K` determines the filter type it came from |
| AdvancedFilters.PriceParams | theme_export__g0m0he-uw-myshopify-com-dawn__27JUL2025-0509am/assets/advanced-filters.js:278-280 | a price entry emits `filter.v.price.gte`/`lte` exactly for its non-empty bounds |
| AdvancedFilters.EntryParams | theme_export__g0m0he-uw-myshopify-com-dawn__27JUL2025-0509am/assets/advanced-filters.js:276-298 | a non-price entry emits at most one parameter, carrying its value, exactly when its type has a parameter name |
| AdvancedFilters.ParamsOfAppend | theme_export__g0m0he-uw-myshopify-com-dawn__27JUL2025-0509am/assets/advanced-filters.js:275 | the parameters of entries laid end to end are those of each part, in order |
| AdvancedFilters.ParamsOnePerEntry | theme_export__g0m0he-uw-myshopify-com-dawn__27JUL2025-0509am/assets/advanced-filters.js:275-299 | without a price entry, and with every type mapped, there is exactly one parameter per entry, in the map's insertion order |
| AdvancedFilters.ParamsSkipUnmapped | theme_export__g0m0he-uw-myshopify-com-dawn__27JUL2025-0509am/assets/advanced-filters.js:292-297 | an entry whose type has no parameter contributes nothing |
| AdvancedFilters.FilterPanel.constructor | theme_export__g0m0he-uw-myshopify-com-dawn__27JUL2025-0509am/assets/advanced-filters.js:2-46 | with persistence on and entries saved, the map is restored from them, in order; otherwise it is empty (together with lines 489-512 of the same file) |
| AdvancedFilters.FilterPanel.UpdateActiveFilters | theme_export__g0m0he-uw-myshopify-com-dawn__27JUL2025-0509am/assets/advanced-filters.js:321-353 | with the list present, one chip per entry in insertion order; the active count shown is the map size |
| AdvancedFilters.FilterPanel.HandleFilterChange | theme_export__g0m0he-uw-myshopify-com-dawn__27JUL2025-0509am/assets/advanced-filters.js:212-224 | checking stores `type:value` with its type, value and looked-up label; unchecking removes exactly that key; every other key is unchanged |
| AdvancedFilters.FilterPanel.HandlePriceChange | theme_export__g0m0he-uw-myshopify-com-dawn__27JUL2025-0509am/assets/advanced-filters.js:226-241 | the price lives under the key `price`, present exactly when a bound is set; every other key is unchanged |
| AdvancedFilters.FilterPanel.HandleSortChange | theme_export__g0m0he-uw-myshopify-com-dawn__27JUL2025-0509am/assets/advanced-filters.js:243-256 | the sort lives under the key `sort`, present exactly when the value is non-empty; every other key is unchanged |
| AdvancedFilters.FilterPanel.RemoveFilter | theme_export__g0m0he-uw-myshopify-com-dawn__27JUL2025-0509am/assets/advanced-filters.js:355-369 | deletes exactly that key; the map shrinks by one when it was present |
| AdvancedFilters.FilterPanel.ClearAllFilters | theme_export__g0m0he-uw-myshopify-com-dawn__27JUL2025-0509am/assets/advanced-filters.js:371-388 | the map is empty, no chip is shown and the count reads 0 |
| AdvancedFilters.FilterPanel.BuildParams | theme_export__g0m0he-uw-myshopify-com-dawn__27JUL2025-0509am/assets/advanced-filters.js:275-299 | the `forEach` loop appends the parameters of every entry, in insertion order |
| AdvancedFilters.FilterPanel.ApplyFilters | theme_export__g0m0he-uw-myshopify-com-dawn__27JUL2025-0509am/assets/advanced-filters.js:268-319 | the search parameters are those of the map; with persistence on, the entries are saved |
| AdvancedFilters.FilterPanel.SaveFilters | theme_export__g0m0he-uw-myshopify-com-dawn__27JUL2025-0509am/assets/advanced-filters.js:484-487 | the saved value is the entries, in order |
| AdvancedFilters.FilterPanel.RestoreFilters | theme_export__g0m0he-uw-myshopify-com-dawn__27JUL2025-0509am/assets/advanced-filters.js:489-512 | with persistence on and something saved, the map is rebuilt from it; otherwise it is unchanged |
| AdvancedFilters.FilterPanel.SaveThenRestore | theme_export__g0m0he-uw-myshopify-com-dawn__27JUL2025-0509am/assets/advanced-filters.js:484-512 | saving and then restoring reproduces the same entries in the same order |
| AdvancedFilters.RegisteredStays | theme_export__g0m0he-uw-myshopify-com-dawn__27JUL2025-0509am/assets/advanced-filters.js:606-611 | a registered section keeps its component whatever is registered later |
| AdvancedFilters.FirstRegistrationWins | theme_export__g0m0he-uw-myshopify-com-dawn__27JUL2025-0509am/assets/advanced-filters.js:606-611 | components without a section id are ignored, and the first component registered for a section is the one kept |
| AdvancedFilters.FiltersManager.constructor | theme_export__g0m0he-uw-myshopify-com-dawn__27JUL2025-0509am/assets/advanced-filters.js:573-583 | the components already on the page are registered in document order |
| AdvancedFilters.FiltersManager.RegisterComponent | theme_export__g0m0he-uw-myshopify-com-dawn__27JUL2025-0509am/assets/advanced-filters.js:606-611 | a component with a new, non-empty section id is added; existing registrations never change |
| AdvancedFilters.FiltersManager.RegisterEach | theme_export__g0m0he-uw-myshopify-com-dawn__27JUL2025-0509am/assets/advanced-filters.js:580-598 | registering a list is registering each component in turn |
| AdvancedFilters.FiltersManager.GetComponent | theme_export__g0m0he-uw-myshopify-com-dawn__27JUL2025-0509am/assets/advanced-filters.js:613-615 | the component returned is registered under that section, and none is returned exactly when the section is unknown |
| WishlistStore.NewItem | theme_export__g0m0he-uw-myshopify-com-dawn__27JUL2025-0509am/assets/wishlist.js:147-157 | the stored entry has the id's string form, the featured image or else the image, and no variants when none are given |
| WishlistStore.LocalizedCountFacts | theme_export__g0m0he-uw-myshopify-com-dawn__27JUL2025-0509am/assets/wishlist.js:490-493 | the count text is `1 product` exactly for 1, and different counts give different texts |
| WishlistStore.CountDigits | theme_export__g0m0he-uw-myshopify-com-dawn__27JUL2025-0509am/assets/wishlist.js:490-493 | the digits before the first space are the count |
| WishlistStore.NumericIdNotRemoved | theme_export__g0m0he-uw-myshopify-com-dawn__27JUL2025-0509am/assets/wishlist.js:165-166 | a numeric id is looked up by its string form but removed by its raw value, so the remove leaves it in the wishlist; its string form removes it (together with lines 500-502 of the same file) |
| WishlistStore.Wishlist.constructor | theme_export__g0m0he-uw-myshopify-com-dawn__27JUL2025-0509am/assets/wishlist.js:2-63 | with persistence on and something saved, the saved items are loaded; otherwise the wishlist is empty; the display agrees with the items (together with lines 117-130 of the same file) |
| WishlistStore.Wishlist.LoadWishlist | theme_export__g0m0he-uw-myshopify-com-dawn__27JUL2025-0509am/assets/wishlist.js:117-130 | with persistence on and something saved, the items are the saved ones; otherwise nothing changes |
| WishlistStore.Wishlist.SaveWishlist | theme_export__g0m0he-uw-myshopify-com-dawn__27JUL2025-0509am/assets/wishlist.js:132-141 | with persistence on, the saved value is the items; otherwise nothing is saved |
| WishlistStore.Wishlist.UpdateDisplay | theme_export__g0m0he-uw-myshopify-com-dawn__27JUL2025-0509am/assets/wishlist.js:181-317 | the count text is the localized count; the empty state is visible iff there are no items; the clear button is shown iff there are some |
| WishlistStore.Wishlist.AddToWishlist | theme_export__g0m0he-uw-myshopify-com-dawn__27JUL2025-0509am/assets/wishlist.js:143-163 | inserts under the id's string form only if absent, never overwriting; the count grows by one exactly then, and only then is anything saved or announced |
| WishlistStore.Wishlist.RemoveFromWishlist | theme_export__g0m0he-uw-myshopify-com-dawn__27JUL2025-0509am/assets/wishlist.js:165-172 | deletes a present key and is a no-op for an absent one; the count drops by one exactly when something was removed |
| WishlistStore.Wishlist.ClearWishlist | theme_export__g0m0he-uw-myshopify-com-dawn__27JUL2025-0509am/assets/wishlist.js:174-179 | no items, the empty state shown, the clear button hidden, the empty map saved |
| WishlistStore.Wishlist.SaveThenLoad | theme_export__g0m0he-uw-myshopify-com-dawn__27JUL2025-0509am/assets/wishlist.js:117-141 | saving and then loading yields the same id-to-item mapping |
| WishlistStore.AddRemoveMembership | theme_export__g0m0he-uw-myshopify-com-dawn__27JUL2025-0509am/assets/wishlist.js:143-172 | adding makes the product a member; the count grows by one exactly when it was absent; removing it by its key restores the wishlist (together with lines 500-506 of the same file) |
| QuickBuy.MaxOptionsFacts | theme_export__g0m0he-uw-myshopify-com-dawn__27JUL2025-0509am/assets/quick-buy.js:123-134 | the number of option groups is the largest option count of any variant, and some variant has that many options |
| QuickBuy.Groups | theme_export__g0m0he-uw-myshopify-com-dawn__27JUL2025-0509am/assets/quick-buy.js:123-134 | there is one group per option index reached by some variant |
| QuickBuy.FirstIndex | theme_export__g0m0he-uw-myshopify-com-dawn__27JUL2025-0509am/assets/quick-buy.js:133 | the position of the first occurrence of a value |
| QuickBuy.DedupFacts | theme_export__g0m0he-uw-myshopify-com-dawn__27JUL2025-0509am/assets/quick-buy.js:133-140 | a group's values are distinct, they are exactly the values seen at that index, and they are listed in first-appearance order |
| QuickBuy.GroupsNonEmpty | theme_export__g0m0he-uw-myshopify-com-dawn__27JUL2025-0509am/assets/quick-buy.js:126-133 | every group has at least one value, because some variant reaches its index |
| QuickBuy.FirstNameIsFirst | theme_export__g0m0he-uw-myshopify-com-dawn__27JUL2025-0509am/assets/quick-buy.js:126-131 | an option's name comes from the first variant having an option at that index |
| QuickBuy.OnlyFirstChecked | theme_export__g0m0he-uw-myshopify-com-dawn__27JUL2025-0509am/assets/quick-buy.js:146 | exactly one value per option is pre-checked: the first |
| QuickBuy.CreateVariantOptions | theme_export__g0m0he-uw-myshopify-com-dawn__27JUL2025-0509am/assets/quick-buy.js:120-134 | the nested `forEach` builds exactly the groups; no variants means no groups |
| QuickBuy.AddVariantOptions | theme_export__g0m0he-uw-myshopify-com-dawn__27JUL2025-0509am/assets/quick-buy.js:124-133 | folding one more variant's options gives the groups of the longer list |
| QuickBuy.FindMatching | theme_export__g0m0he-uw-myshopify-com-dawn__27JUL2025-0509am/assets/quick-buy.js:312-316 | the first variant whose every option equals the selected value at its index; none exactly when no variant matches |
| QuickBuy.SelectionOfLast | theme_export__g0m0he-uw-myshopify-com-dawn__27JUL2025-0509am/assets/quick-buy.js:307-309 | each index read maps to the value of the last checked input for it |
| QuickBuy.SelectionOfKeys | theme_export__g0m0he-uw-myshopify-com-dawn__27JUL2025-0509am/assets/quick-buy.js:307-309 | only the indexes of checked inputs are selected |
| QuickBuy.ItemIdFor | theme_export__g0m0he-uw-myshopify-com-dawn__27JUL2025-0509am/assets/quick-buy.js:164 | the cart item is the variant id, or the product id when the variant id is absent (together with line 356 of the same file) |
| QuickBuy.QuantityOf | theme_export__g0m0he-uw-myshopify-com-dawn__27JUL2025-0509am/assets/quick-buy.js:355 | an unparsable or zero quantity becomes 1, and any other is kept |
| QuickBuy.HandleClick | theme_export__g0m0he-uw-myshopify-com-dawn__27JUL2025-0509am/assets/quick-buy.js:24-32 | a click opens the modal exactly when the product has variants; otherwise it adds the product with quantity 1 |
| QuickBuy.QuickBuyModal.constructor | theme_export__g0m0he-uw-myshopify-com-dawn__27JUL2025-0509am/assets/quick-buy.js:237-243 | the modal starts closed, with no variant selected |
| QuickBuy.QuickBuyModal.Show | theme_export__g0m0he-uw-myshopify-com-dawn__27JUL2025-0509am/assets/quick-buy.js:279-289 | the modal is open |
| QuickBuy.QuickBuyModal.Hide | theme_export__g0m0he-uw-myshopify-com-dawn__27JUL2025-0509am/assets/quick-buy.js:291-302 | the modal is closed |
| QuickBuy.QuickBuyModal.UpdateVariantSelection | theme_export__g0m0he-uw-myshopify-com-dawn__27JUL2025-0509am/assets/quick-buy.js:304-322 | the selected variant becomes the first one matching the checked options, and stays unchanged when none matches |
| QuickBuy.QuickBuyModal.HandleAddToCart | theme_export__g0m0he-uw-myshopify-com-dawn__27JUL2025-0509am/assets/quick-buy.js:345-370 | the line sent is the selected variant (or the product) with the parsed quantity, 1 by default |
| ProductBadges.SettingsOf | theme_export__g0m0he-uw-myshopify-com-dawn__27JUL2025-0509am/assets/product-badges.js:2-12 | the defaults: percentage sale text, 30 new-product days, a low-stock threshold of 5, and the custom text `Special` |
| ProductBadges.CustomBadgeIff | theme_export__g0m0he-uw-myshopify-com-dawn__27JUL2025-0509am/assets/product-badges.js:192-194 | the custom badge shows exactly when its text has a non-whitespace character |
| ProductBadges.MutuallyExclusive | theme_export__g0m0he-uw-myshopify-com-dawn__27JUL2025-0509am/assets/product-badges.js:136-190 | sale and sold-out never co-occur, nor do low-stock and sold-out; pre-order and back-in-stock imply sold-out and exclude sale and low-stock |
| ProductBadges.SaleAmountPositive | theme_export__g0m0he-uw-myshopify-com-dawn__27JUL2025-0509am/assets/product-badges.js:203-205 | the discount of an amount-type sale badge is positive whenever the sale badge shows |
| ProductBadges.SaleBadge | theme_export__g0m0he-uw-myshopify-com-dawn__27JUL2025-0509am/assets/product-badges.js:196-211 | the sale badge has type `sale` |
| ProductBadges.LowStockBadge | theme_export__g0m0he-uw-myshopify-com-dawn__27JUL2025-0509am/assets/product-badges.js:223-235 | the low-stock badge has type `low-stock` |
| ProductBadges.SelectOnlyFrom | theme_export__g0m0he-uw-myshopify-com-dawn__27JUL2025-0509am/assets/product-badges.js:95-134 | only the badge types of the fixed order are generated |
| ProductBadges.SelectMembers | theme_export__g0m0he-uw-myshopify-com-dawn__27JUL2025-0509am/assets/product-badges.js:95-134 | a type is generated exactly when its rule holds |
| ProductBadges.SelectOrdered | theme_export__g0m0he-uw-myshopify-com-dawn__27JUL2025-0509am/assets/product-badges.js:95-134 | generated types keep the fixed order |
| ProductBadges.PieceTypes | theme_export__g0m0he-uw-myshopify-com-dawn__27JUL2025-0509am/assets/product-badges.js:98-131 | each `if` pushes one badge of its type exactly when its rule holds |
| ProductBadges.GeneratedTypesUpTo | theme_export__g0m0he-uw-myshopify-com-dawn__27JUL2025-0509am/assets/product-badges.js:95-134 | after the first k rules, the pushed types are those of the first k positions whose rule holds |
| ProductBadges.GeneratedFacts | theme_export__g0m0he-uw-myshopify-com-dawn__27JUL2025-0509am/assets/product-badges.js:95-134 | each badge appears exactly when its rule holds, and the badges come in the order sale, new, sold-out, low-stock, pre-order, back-in-stock, custom |
| ProductBadges.GenerateBadges | theme_export__g0m0he-uw-myshopify-com-dawn__27JUL2025-0509am/assets/product-badges.js:95-134 | the seven guarded pushes produce exactly the generated badges |
| ProductBadges.FirstOfType | theme_export__g0m0he-uw-myshopify-com-dawn__27JUL2025-0509am/assets/product-badges.js:314 | the position of the first badge of a type, as `querySelector` finds it |
| ProductBadges.BadgeList.constructor | theme_export__g0m0he-uw-myshopify-com-dawn__27JUL2025-0509am/assets/product-badges.js:2-19 | no product data and no badges |
| ProductBadges.BadgeList.RenderBadges | theme_export__g0m0he-uw-myshopify-com-dawn__27JUL2025-0509am/assets/product-badges.js:82-93 | without product data nothing changes, so no badges come from missing data; otherwise the badges are the generated ones |
| ProductBadges.BadgeList.LoadProductData | theme_export__g0m0he-uw-myshopify-com-dawn__27JUL2025-0509am/assets/product-badges.js:21-47 | a fetched product is kept and its badges rendered; a failed fetch changes nothing |
| ProductBadges.BadgeList.ClearBadges | theme_export__g0m0he-uw-myshopify-com-dawn__27JUL2025-0509am/assets/product-badges.js:277-284 | the list is empty |
| ProductBadges.BadgeList.AddBadge | theme_export__g0m0he-uw-myshopify-com-dawn__27JUL2025-0509am/assets/product-badges.js:307-311 | the badge is appended at the end |
| ProductBadges.BadgeList.RemoveBadge | theme_export__g0m0he-uw-myshopify-com-dawn__27JUL2025-0509am/assets/product-badges.js:313-319 | only the first badge of the type is removed; without one nothing changes |
| Countdown.DecomposeBounds | theme_export__g0m0he-uw-myshopify-com-dawn__27JUL2025-0509am/assets/countdown-timer.js:105-108 | hours < 24, minutes < 60 and seconds < 60, and the units add up to the time left to within one second below it |
| Countdown.DecomposeUnique | theme_export__g0m0he-uw-myshopify-com-dawn__27JUL2025-0509am/assets/countdown-timer.js:105-108 | the split is the only one within those bounds: a time made of bounded units splits back into them |
| Countdown.Pad2Facts | theme_export__g0m0he-uw-myshopify-com-dawn__27JUL2025-0509am/assets/countdown-timer.js:117-129 | a unit's text is `toString().padStart(2, '0')`: at least two digits, reading back as the number; longer values are unchanged |
| Countdown.TimezoneOffset | theme_export__g0m0he-uw-myshopify-com-dawn__27JUL2025-0509am/assets/countdown-timer.js:227-240 | EST, CST, MST and PST are -5, -6, -7 and -8 hours in milliseconds; any other zone, GMT and UTC included, is 0 |
| Countdown.Adjustment | theme_export__g0m0he-uw-myshopify-com-dawn__27JUL2025-0509am/assets/countdown-timer.js:61-64 | skipping the lookup for `UTC` gives the table's offset all the same, one of the five values of the table |
| Countdown.RestartInterval | theme_export__g0m0he-uw-myshopify-com-dawn__27JUL2025-0509am/assets/countdown-timer.js:48 | the attribute in seconds times 1000, and 24 hours when missing or 0; never 0 |
| Countdown.ConfigOf | theme_export__g0m0he-uw-myshopify-com-dawn__27JUL2025-0509am/assets/countdown-timer.js:38-48 | timezone `UTC` by default; each flag is on exactly when its attribute is `true`; the restart interval follows `RestartInterval` |
| Countdown.CountdownTimer.constructor | theme_export__g0m0he-uw-myshopify-com-dawn__27JUL2025-0509am/assets/countdown-timer.js:2-25 | no end date, UTC, every unit shown, not running, not expired |
| Countdown.CountdownTimer.InitializeTimer | theme_export__g0m0he-uw-myshopify-com-dawn__27JUL2025-0509am/assets/countdown-timer.js:36-79 | the settings are read from the attributes; without an end date the timer is hidden and the dates are unchanged; otherwise the end date is the parsed date plus the zone's adjustment, and the initial end date is the parsed date |
| Countdown.CountdownTimer.UpdateDisplay | theme_export__g0m0he-uw-myshopify-com-dawn__27JUL2025-0509am/assets/countdown-timer.js:115-131 | each present and shown unit gets its two-digit text, and the others are untouched |
| Countdown.CountdownTimer.ShowExpiredState | theme_export__g0m0he-uw-myshopify-com-dawn__27JUL2025-0509am/assets/countdown-timer.js:153-160 | every present unit reads `00` |
| Countdown.CountdownTimer.HandleExpired | theme_export__g0m0he-uw-myshopify-com-dawn__27JUL2025-0509am/assets/countdown-timer.js:144-177 | expired and stopped; the timer is hidden when configured, and otherwise all units read `00`; the message is shown when there is one; a restart is scheduled with auto-restart; one expired event |
| Countdown.CountdownTimer.UpdateTimer | theme_export__g0m0he-uw-myshopify-com-dawn__27JUL2025-0509am/assets/countdown-timer.js:95-113 | without an end date the call throws and the state, display included, is unchanged; time left <= 0 takes the expired path of `handleExpired`: message, hiding or "00" texts, restart scheduling and the expired event; otherwise the unit texts show the split of the time left, and nothing else changes |
| Countdown.CountdownTimer.StartTimer | theme_export__g0m0he-uw-myshopify-com-dawn__27JUL2025-0509am/assets/countdown-timer.js:81-86 | one update, then the interval is running unless the update threw: the display is unchanged when it threw, is the expired display when the time is up, and otherwise shows the split of the time left, as `UpdateTimer` states |
| Countdown.CountdownTimer.StopTimer | theme_export__g0m0he-uw-myshopify-com-dawn__27JUL2025-0509am/assets/countdown-timer.js:88-93 | the interval is cleared |
| Countdown.CountdownTimer.RestartTimer | theme_export__g0m0he-uw-myshopify-com-dawn__27JUL2025-0509am/assets/countdown-timer.js:179-203 | without auto-restart or a parsed date nothing changes, the hidden flag, message and unit texts included; otherwise the end date is the initial end date plus the interval, so repeated restarts give the same date; the expired message is hidden and a timer that hides on expiry is shown again; the timer then runs, showing the split of the new time left, or, if that date has passed, the expired display again; a restarted event carries the date |
| Countdown.CountdownTimer.ResetExpiry | theme_export__g0m0he-uw-myshopify-com-dawn__27JUL2025-0509am/assets/countdown-timer.js:182-194 | the first half of a restart: new end date, not expired, no restart pending, the expired message hidden when the element exists, and the timer shown again when it hides on expiry |
| PromoPopups.SetCookie | theme_export__g0m0he-uw-myshopify-com-dawn__27JUL2025-0509am/assets/promo-popup.js:264-268 | writing a cookie replaces an existing name in place and appends a new one |
| PromoPopups.SetCookieValue | theme_export__g0m0he-uw-myshopify-com-dawn__27JUL2025-0509am/assets/promo-popup.js:264-268 | after a write, the name's value in the jar is the written value, and the jar stays well formed |
| PromoPopups.StripSpaces | theme_export__g0m0he-uw-myshopify-com-dawn__27JUL2025-0509am/assets/promo-popup.js:275 | the inner `while` drops the leading spaces and nothing else |
| PromoPopups.GetCookie | theme_export__g0m0he-uw-myshopify-com-dawn__27JUL2025-0509am/assets/promo-popup.js:270-279 | `getCookie` splits the cookie string on `;` and returns what follows `name=` in the first segment that starts with it once its leading spaces are stripped, and null when no segment does |
| PromoPopups.FindSegment | theme_export__g0m0he-uw-myshopify-com-dawn__27JUL2025-0509am/assets/promo-popup.js:273-278 | the `for` loop returns the value after `name=` of the first stripped segment that starts with `name=`, and null when none does |
| PromoPopups.StripLeadingSpaces | theme_export__g0m0he-uw-myshopify-com-dawn__27JUL2025-0509am/assets/promo-popup.js:275 | the inner `while` drops exactly the leading spaces of a segment, leaving a segment that is empty or starts with something other than a space |
| PromoPopups.StartsWithName | theme_export__g0m0he-uw-myshopify-com-dawn__27JUL2025-0509am/assets/promo-popup.js:275 | a segment `k=v` starts with `name=` exactly when `k` is `name`, and the rest is `v` |
| PromoPopups.LookupRendered | theme_export__g0m0he-uw-myshopify-com-dawn__27JUL2025-0509am/assets/promo-popup.js:270-279 | looking a name up in the rendered segments gives the jar's value for it |
| PromoPopups.LookupLeadingSpace | theme_export__g0m0he-uw-myshopify-com-dawn__27JUL2025-0509am/assets/promo-popup.js:273-274 | segments that differ only in leading spaces give the same lookup |
| PromoPopups.GetCookieOfJar | theme_export__g0m0he-uw-myshopify-com-dawn__27JUL2025-0509am/assets/promo-popup.js:264-279 | `getCookie` on the `document.cookie` string of a jar gives the jar's value for the name, or null |
| PromoPopups.ValidatedHasShape | theme_export__g0m0he-uw-myshopify-com-dawn__27JUL2025-0509am/assets/promo-popup.js:213-216 | an accepted address is local `@` domain; neither part is empty or contains `@` or whitespace; the domain has a `.` that is neither its first nor its last character |
| PromoPopups.ShapeIsValidated | theme_export__g0m0he-uw-myshopify-com-dawn__27JUL2025-0509am/assets/promo-popup.js:213-216 | every address of that shape is accepted |
| PromoPopups.ValidateEmailIff | theme_export__g0m0he-uw-myshopify-com-dawn__27JUL2025-0509am/assets/promo-popup.js:213-216 | the regular expression accepts exactly the addresses of that shape |
| PromoPopups.ShownOnceStaysHidden | theme_export__g0m0he-uw-myshopify-com-dawn__27JUL2025-0509am/assets/promo-popup.js:57-69 | once a show-once popup has written its cookie, reading the cookie back finds it, so `shouldShow` is false on a later page (together with lines 143-145 of the same file) |
| PromoPopups.Page.constructor | theme_export__g0m0he-uw-myshopify-com-dawn__27JUL2025-0509am/assets/promo-popup.js:124-161 | the page starts with the given cookies, an unlocked body and no events |
| PromoPopups.PromoPopup.constructor | theme_export__g0m0he-uw-myshopify-com-dawn__27JUL2025-0509am/assets/promo-popup.js:2-23 | defaults: delay 5, trigger `time`, 50 percent scroll, 7-day cookie, cookie `promo-popup-<section>`; closed and not shown; armed exactly when `shouldShow` holds and the trigger is known (together with lines 50-83 of the same file) |
| PromoPopups.PromoPopup.Show | theme_export__g0m0he-uw-myshopify-com-dawn__27JUL2025-0509am/assets/promo-popup.js:124-146 | only the first call has an effect: it opens, locks the body and dispatches the opened event, and writes the cookie only when show-once is on; later calls change nothing |
| PromoPopups.PromoPopup.Close | theme_export__g0m0he-uw-myshopify-com-dawn__27JUL2025-0509am/assets/promo-popup.js:148-161 | a no-op when not open; otherwise it closes, unlocks the body and dispatches the closed event |
| PromoPopups.PromoPopup.TimeElapsed | theme_export__g0m0he-uw-myshopify-com-dawn__27JUL2025-0509am/assets/promo-popup.js:85-91 | the time trigger shows the popup as the first `show` does: open over a locked body, the opened event dispatched and, with show-once on, the cookie written, for an armed popup that has not shown yet; when it does not fire, the popup, the body lock, the opened events and the cookies are unchanged |
| PromoPopups.PromoPopup.Scrolled | theme_export__g0m0he-uw-myshopify-com-dawn__27JUL2025-0509am/assets/promo-popup.js:93-108 | the scroll trigger fires once, past the configured share of the page, marks itself triggered and shows the popup as the first `show` does: open over a locked body, the opened event dispatched and, with show-once on, the cookie written; when it does not fire, the popup, the body lock, the opened events and the cookies are unchanged, the trigger flag included |
| PromoPopups.PromoPopup.MouseLeft | theme_export__g0m0he-uw-myshopify-com-dawn__27JUL2025-0509am/assets/promo-popup.js:110-122 | the exit trigger fires once, when the mouse leaves through the top, marks itself triggered and shows the popup as the first `show` does: open over a locked body, the opened event dispatched and, with show-once on, the cookie written; when it does not fire, the popup, the body lock, the opened events and the cookies are unchanged, the trigger flag included |
| PromoPopups.PromoPopup.HandleNewsletterSubmit | theme_export__g0m0he-uw-myshopify-com-dawn__27JUL2025-0509am/assets/promo-popup.js:163-211 | the address is trimmed before validation; an invalid one is an error; a valid one succeeds or fails with the response, and only success schedules the close |
| PromoPopups.PromoPopupManager.constructor | theme_export__g0m0he-uw-myshopify-com-dawn__27JUL2025-0509am/assets/promo-popup.js:308-317 | the manager holds the page's popups |
| PromoPopups.PromoPopupManager.HandlePopupOpened | theme_export__g0m0he-uw-myshopify-com-dawn__27JUL2025-0509am/assets/promo-popup.js:350-357 | exactly the open popups of other sections are closed, those of the section are untouched, and nothing is marked shown; each closed popup appends one closed event, in instance order; the body stays locked only if it was locked and nothing was closed; the instances stay distinct, as in the source's `Set` |
| PromoPopups.PromoPopupManager.CloseIfOther | theme_export__g0m0he-uw-myshopify-com-dawn__27JUL2025-0509am/assets/promo-popup.js:351-355 | one step of the loop: the popup at that index is closed exactly when it is open and of another section, which unlocks the body and appends its closed event; every other popup keeps its open flag |
| PromoPopups.PromoPopupManager.CloseStep | theme_export__g0m0he-uw-myshopify-com-dawn__27JUL2025-0509am/assets/promo-popup.js:351-355 | one iteration of the `forEach` keeps its invariant: after the first k+1 instances, exactly the ones of them open in another section are closed, the rest keep their flags, and the closed events and body lock are those of closing them in order |
| PromoPopups.PromoPopupManager.OpenSections | theme_export__g0m0he-uw-myshopify-com-dawn__27JUL2025-0509am/assets/promo-popup.js:350-357 | the section of each open popup, position by position |
| PromoPopups.PromoPopupManager.OpenPopup | theme_export__g0m0he-uw-myshopify-com-dawn__27JUL2025-0509am/assets/promo-popup.js:124-161 | as written: a popup shown while another section's popup is open ends open over an unlocked body (together with lines 350-357 of the same file) |
| PromoPopups.PromoPopupManager.OpenPopupKeepingLock | theme_export__g0m0he-uw-myshopify-com-dawn__27JUL2025-0509am/assets/promo-popup.js:124-146 | corrected: the shown popup is open, the body stays locked, and only popups of its section are open (together with lines 350-357 of the same file) |
| SocialProofs.PerView | theme_export__g0m0he-uw-myshopify-com-dawn__27JUL2025-0509am/assets/social-proof.js:141-146 | one slide below 750 pixels; otherwise the smaller of the columns and the slide count |
| SocialProofs.Prev | theme_export__g0m0he-uw-myshopify-com-dawn__27JUL2025-0509am/assets/social-proof.js:148-154 | a no-op at 0; otherwise down by one |
| SocialProofs.Next | theme_export__g0m0he-uw-myshopify-com-dawn__27JUL2025-0509am/assets/social-proof.js:156-162 | a no-op at or past the last start (total - perView); otherwise up by one, never past it |
| SocialProofs.Tick | theme_export__g0m0he-uw-myshopify-com-dawn__27JUL2025-0509am/assets/social-proof.js:176-180 | wraps to 0 at or past the last start; otherwise up by one |
| SocialProofs.GoTo | theme_export__g0m0he-uw-myshopify-com-dawn__27JUL2025-0509am/assets/social-proof.js:164-170 | indexes outside [0, total) are ignored; any other index is set exactly |
| SocialProofs.TicksAdd | theme_export__g0m0he-uw-myshopify-com-dawn__27JUL2025-0509am/assets/social-proof.js:176-180 | a tick runs on from where the previous ticks left off |
| SocialProofs.TicksCountUp | theme_export__g0m0he-uw-myshopify-com-dawn__27JUL2025-0509am/assets/social-proof.js:176-180 | from slide 0, the n-th tick shows slide n up to the last start |
| SocialProofs.AutoplayCycle | theme_export__g0m0he-uw-myshopify-com-dawn__27JUL2025-0509am/assets/social-proof.js:172-180 | autoplay counts up to the last start, is back at 0 after one more tick, and repeats with period last start + 1 |
| SocialProofs.SocialProof.constructor | theme_export__g0m0he-uw-myshopify-com-dawn__27JUL2025-0509am/assets/social-proof.js:2-21 | grid layout and 5 s autoplay by default; arrows and dots shown per their attributes; columns, dot count and the slider parts as found; slides are counted only for a slider; slide 0; a slider draws its arrows, dots and one slide-changed event as `updateSliderState`, anything else keeps all disabled flags off, no dot active and no event; autoplay runs exactly for a slider with autoplay on (together with lines 33-50 of the same file) |
| SocialProofs.SocialProof.UpdateSliderState | theme_export__g0m0he-uw-myshopify-com-dawn__27JUL2025-0509am/assets/social-proof.js:107-139 | with a slider list: prev is disabled iff on slide 0 and next iff at or past the last start (each only when that arrow exists, otherwise its state is kept); exactly the dot of the current slide is active; one slide-changed event with the slide; without a slider list nothing of this changes |
| SocialProofs.SocialProof.PrevSlide | theme_export__g0m0he-uw-myshopify-com-dawn__27JUL2025-0509am/assets/social-proof.js:148-154 | the slide becomes `Prev` of the old one; at 0 the arrows, dots, events and timer are unchanged; otherwise the arrows, the dots and a slide-changed event are refreshed as `UpdateSliderState` states and the autoplay timer is reset |
| SocialProofs.SocialProof.NextSlide | theme_export__g0m0he-uw-myshopify-com-dawn__27JUL2025-0509am/assets/social-proof.js:156-162 | the slide becomes `Next` of the old one; at the end the arrows, dots, events and timer are unchanged; otherwise the arrows, the dots and a slide-changed event are refreshed as `UpdateSliderState` states and the autoplay timer is reset |
| SocialProofs.SocialProof.GoToSlide | theme_export__g0m0he-uw-myshopify-com-dawn__27JUL2025-0509am/assets/social-proof.js:164-170 | the slide becomes `GoTo` of the index; an out-of-range index changes nothing, arrows, dots, events and timer included; otherwise the arrows, the dots and a slide-changed event are refreshed as `UpdateSliderState` states and the autoplay timer is reset |
| SocialProofs.SocialProof.SwipeEnd | theme_export__g0m0he-uw-myshopify-com-dawn__27JUL2025-0509am/assets/social-proof.js:225-242 | a drag of more than 50 pixels towards the left goes next, and towards the right goes previous; a move refreshes the arrows, the dots and a slide-changed event, as `UpdateSliderState` states; a shorter drag, a drag that cannot move, or no drag keeps the slide, the display and the timer; a move also resets the autoplay timer |
| SocialProofs.SocialProof.StartAutoplay | theme_export__g0m0he-uw-myshopify-com-dawn__27JUL2025-0509am/assets/social-proof.js:172-183 | does nothing when autoplay is off or a timer already exists; otherwise the timer runs |
| SocialProofs.SocialProof.StopAutoplay | theme_export__g0m0he-uw-myshopify-com-dawn__27JUL2025-0509am/assets/social-proof.js:185-190 | the timer is cleared, and a second stop changes nothing |
| SocialProofs.SocialProof.ResetAutoplay | theme_export__g0m0he-uw-myshopify-com-dawn__27JUL2025-0509am/assets/social-proof.js:192-197 | stop then start: the timer runs exactly when autoplay is on, or when it was already running |
| SocialProofs.SocialProof.AutoplayTick | theme_export__g0m0he-uw-myshopify-com-dawn__27JUL2025-0509am/assets/social-proof.js:176-180 | with the timer running the slide becomes `Tick` of the old one and the arrows, the dots and a slide-changed event are refreshed as `UpdateSliderState` states; without it the slide and the display are unchanged |
| ImageHotspots.Clamp | theme_export__g0m0he-uw-myshopify-com-dawn__27JUL2025-0509am/assets/image-hotspot.js:368-378 | a coordinate is clamped into [0, 100], and values inside are unchanged |
| Optional.IntOr | theme_export__g0m0he-uw-myshopify-com-dawn__27JUL2025-0509am/assets/infinite-scroll.js:20-30 | a parsed number other than 0 is kept; `NaN` or 0 falls back to the default (together with line 25 of image-hotspot.js, and the page-size and speed attributes of promo-popup.js and product-badges.js) |
| ImageHotspots.ImageHotspot.constructor | theme_export__g0m0he-uw-myshopify-com-dawn__27JUL2025-0509am/assets/image-hotspot.js:7-44 | a rotation speed of 5 by default; no active hotspot; every position clamped; rotating exactly when auto-rotate is on, from index 0, and then the only event dispatched is rotation-started (together with lines 285-301 of the same file) |
| ImageHotspots.ImageHotspot.SetupHotspots | theme_export__g0m0he-uw-myshopify-com-dawn__27JUL2025-0509am/assets/image-hotspot.js:87-95 | the loop clamps every hotspot's coordinates |
| ImageHotspots.ImageHotspot.CloseHotspot | theme_export__g0m0he-uw-myshopify-com-dawn__27JUL2025-0509am/assets/image-hotspot.js:240-269 | a showable hotspot's tooltip is hidden, `activeHotspot` is cleared only if it is that id, and one closed event is dispatched; any other id changes nothing |
| ImageHotspots.ImageHotspot.OpenHotspot | theme_export__g0m0he-uw-myshopify-com-dawn__27JUL2025-0509am/assets/image-hotspot.js:203-238 | a different truthy active hotspot is closed first, with its closed event; an id not on the page throws; with tooltips on, a showable id becomes active, is shown and dispatches the opened event, and it is the only one shown (an empty id aside); otherwise the state after the close is kept: the active hotspot, the shown set and the events |
| ImageHotspots.ImageHotspot.HotspotClick | theme_export__g0m0he-uw-myshopify-com-dawn__27JUL2025-0509am/assets/image-hotspot.js:104-117 | clicking the active hotspot, or its legend entry, closes it exactly as `closeHotspot` does; clicking any other opens it exactly as `openHotspot` does, closing the other active one first (together with lines 138-149 of the same file) |
| ImageHotspots.ImageHotspot.CloseAllHotspots | theme_export__g0m0he-uw-myshopify-com-dawn__27JUL2025-0509am/assets/image-hotspot.js:278-283 | the state is that of closing every hotspot in page order, one closed event per showable hotspot; afterwards no hotspot is active or shown |
| ImageHotspots.ImageHotspot.OpenAllHotspots | theme_export__g0m0he-uw-myshopify-com-dawn__27JUL2025-0509am/assets/image-hotspot.js:271-276 | the state is that of opening every hotspot in page order, each closing the previous active one with its events; the last one is active when it can show, and never more than one is shown |
| ImageHotspots.ImageHotspot.ToggleAll | theme_export__g0m0he-uw-myshopify-com-dawn__27JUL2025-0509am/assets/image-hotspot.js:151-159 | with a hotspot active, the state is that of closing all hotspots in turn; otherwise that of opening all of them in turn |
| ImageHotspots.ImageHotspot.StartRotation | theme_export__g0m0he-uw-myshopify-com-dawn__27JUL2025-0509am/assets/image-hotspot.js:285-301 | a no-op when already rotating; otherwise rotation starts from index 0 |
| ImageHotspots.ImageHotspot.StopRotation | theme_export__g0m0he-uw-myshopify-com-dawn__27JUL2025-0509am/assets/image-hotspot.js:303-319 | a no-op when not rotating; otherwise rotation stops |
| ImageHotspots.ImageHotspot.HandleToggleRotation | theme_export__g0m0he-uw-myshopify-com-dawn__27JUL2025-0509am/assets/image-hotspot.js:161-169 | the toggle button flips rotation: a running rotation stops with a stopped event and keeps its index; a stopped one starts from index 0 with a started event |
| ImageHotspots.ImageHotspot.RotateToNextHotspot | theme_export__g0m0he-uw-myshopify-com-dawn__27JUL2025-0509am/assets/image-hotspot.js:321-337 | a no-op with no hotspots, events included; otherwise a truthy active hotspot is closed, the index becomes (index + 1) mod n and that hotspot is opened, with the closed and opened events of those steps |
| ImageHotspots.RotationsVisitInOrder | theme_export__g0m0he-uw-myshopify-com-dawn__27JUL2025-0509am/assets/image-hotspot.js:321-337 | from index 0, the k-th rotation step shows hotspot k for every k below n |
| ImageHotspots.RotationRound | theme_export__g0m0he-uw-myshopify-com-dawn__27JUL2025-0509am/assets/image-hotspot.js:321-337 | after n steps the rotation is back at index 0 |
| InfiniteScrolls.AfterPage | theme_export__g0m0he-uw-myshopify-com-dawn__27JUL2025-0509am/assets/infinite-scroll.js:177-179 | as written: a page moves the counter on by one and adds its products to the total |
| InfiniteScrolls.AfterPageKeepingTotal | theme_export__g0m0he-uw-myshopify-com-dawn__27JUL2025-0509am/assets/infinite-scroll.js:177-179 | corrected: a page moves the counter on by one and leaves the collection's total as it is |
| InfiniteScrolls.RemainingAfterPage | theme_export__g0m0he-uw-myshopify-com-dawn__27JUL2025-0509am/assets/infinite-scroll.js:275-285 | as written: a page of n products lowers the remaining count by perPage - n, so a full page leaves it unchanged (together with lines 177-179 of the same file) |
| InfiniteScrolls.RemainingAfterLastPage | theme_export__g0m0he-uw-myshopify-com-dawn__27JUL2025-0509am/assets/infinite-scroll.js:275-285 | as written: 48 products, 24 per page, page 1 shown: loading the last page still shows 24 remaining (together with lines 177-179 of the same file) |
| InfiniteScrolls.RemainingKeepingTotal | theme_export__g0m0he-uw-myshopify-com-dawn__27JUL2025-0509am/assets/infinite-scroll.js:275-285 | corrected: each page lowers the remaining count by perPage, and nothing remains once the last page is shown |
| InfiniteScrolls.InfiniteScroll.constructor | theme_export__g0m0he-uw-myshopify-com-dawn__27JUL2025-0509am/assets/infinite-scroll.js:7-41 | defaults: page 1, 1 page, 24 per page, 0 products, a 200-pixel threshold; auto-load and the end message on exactly when their attributes are `true`; the container and remaining-count elements as found; idle, with the remaining count displayed when its element exists |
| InfiniteScrolls.InfiniteScroll.RemainingDisplay | theme_export__g0m0he-uw-myshopify-com-dawn__27JUL2025-0509am/assets/infinite-scroll.js:275-285 | the remaining count total - page * perPage is displayed exactly when positive |
| InfiniteScrolls.InfiniteScroll.UpdateRemainingCount | theme_export__g0m0he-uw-myshopify-com-dawn__27JUL2025-0509am/assets/infinite-scroll.js:275-285 | with the element present, the display is `RemainingDisplay` of the counters |
| InfiniteScrolls.InfiniteScroll.StartLoad | theme_export__g0m0he-uw-myshopify-com-dawn__27JUL2025-0509am/assets/infinite-scroll.js:138-141 | a no-op while loading or after the end; otherwise the load starts |
| InfiniteScrolls.InfiniteScroll.CompleteLoad | theme_export__g0m0he-uw-myshopify-com-dawn__27JUL2025-0509am/assets/infinite-scroll.js:142-208 | an empty page sets the end and keeps the page and the remaining-count text; a page of n moves the counters as `AfterPage`, sets the end iff page >= totalPages and refreshes the remaining-count text when that element exists (else keeps it); an error sets the flag and keeps the page and the text; never loading afterwards |
| InfiniteScrolls.InfiniteScroll.HandleScroll | theme_export__g0m0he-uw-myshopify-com-dawn__27JUL2025-0509am/assets/infinite-scroll.js:100-110 | a load starts exactly when idle, not at the end, and within the threshold of the bottom |
| InfiniteScrolls.InfiniteScroll.HandleRetry | theme_export__g0m0he-uw-myshopify-com-dawn__27JUL2025-0509am/assets/infinite-scroll.js:118-122 | the error is cleared before the load is tried; loading afterwards exactly when a load was already running or one started |
| InfiniteScrolls.InfiniteScroll.HandleReset | theme_export__g0m0he-uw-myshopify-com-dawn__27JUL2025-0509am/assets/infinite-scroll.js:124-136 | page 1, with the end and error flags cleared; the remaining-count text is refreshed when that element exists, else kept |
| MenuSearch.MatchesIff | script.js:9-21 | a card matches exactly when its lower-cased name or text contains the term somewhere; the empty term matches every card |
| MenuSearch.Toggle | script.js:84-101 | a toggle flips `active` and sets `collapsed` to the old `active` |
| MenuSearch.ToggleTwice | script.js:84-101 | toggling twice restores a category exactly when its header is collapsed iff its content is not active |
| MenuSearch.MenuPage.constructor | script.js:1-6 | every card and category visible, an empty search and the filter `all` |
| MenuSearch.MenuPage.Search | script.js:8-42 | for a non-empty term: a card is hidden iff it does not match; a category is hidden iff none of its cards is visible. An empty term shows everything and resets the filter to `all` |
| MenuSearch.MenuPage.MatchFlags | script.js:11-21 | the card loop hides exactly the cards that do not match |
| MenuSearch.MenuPage.CategoryFlags | script.js:24-31 | the category loop hides exactly the categories with no visible card, for a non-empty term |
| MenuSearch.MenuPage.Filter | script.js:45-81 | the search is cleared and the filter set; `all` shows every card and category; any other filter shows exactly the categories of that name, each with all its cards, and leaves every other card as it was |
| MenuSearch.MenuPage.ShowCardsOf | script.js:70-73 | the cards of that category are shown and the others kept |
| MenuSearch.MenuPage.ToggleCategory | script.js:84-101 | an unknown id throws and changes nothing; otherwise only that category toggles |
| MenuSearch.MenuPage.NavigateTo | script.js:104-129 | the target category is expanded, and the others are untouched |
| MenuSearch.MenuPage.Escape | script.js:179-197 | Escape with a non-empty search empties it and re-runs the search rule, showing everything and resetting the filter to all; with an empty search nothing changes, the search text included |
| MenuSearch.FirstWithId | script.js:85 | the first category with that id, or the number of categories when none has it (`getElementById` returning `null`) |

## Left out

- DOM rendering is left out: markup, `innerHTML`, styles, ARIA attributes, focus handling and animations. The model keeps only the state those are drawn from: flags, texts, lists and events.
- Timers and debouncing are left out as such. Each firing is an explicit method call (`TimeElapsed`, `AutoplayTick`, `RotateToNextHotspot`, `RestartTimer`), and the debounce delay is not modelled.
- Advanced filters: `loadFilterData` fills the filter data by an asynchronous fetch (advanced-filters.js lines 135-150). The model takes the loaded data as a constant of the panel, so the time before it arrives and a failed load are not modelled.
- Fetches are left out. Their outcome is a parameter: the product JSON in `LoadProductData`, the page in `CompleteLoad`, `responseOk` in `HandleNewsletterSubmit`. The cart request is the line `HandleAddToCart` returns.
- The clock, the viewport width, the date parser and the scroll position are parameters, and `Date` values are integer milliseconds.
- Floating point is left out. Prices are integer cents; percentage discounts, money formatting, progress bars and `Intl` are not modelled. The countdown's divisions are integer divisions, which agree with `Math.floor` for the non-negative times they are applied to. The new-product rule compares the age exactly, `now - createdAt <= days × 86400000`; that is the source's real-valued `age / 86400000 <= days`, multiplied through by the positive constant.
- `localeCompare` on titles is left out. The title sort uses an abstract integer collation rank per product.
- Cookie expiry is left out: `expires`, `toUTCString`, `path` and `SameSite`. The jar keeps only names and values, rendered as the browser renders `document.cookie`.
- `localStorage` JSON and URL encoding are left out. What is stored is the value itself; the query string is the list of parameter pairs.
- The observers are left out: `MutationObserver` and `IntersectionObserver` discovery of new elements. The managers receive their components as a list.
- Several managers are left out, because they only forward calls to each component:
  - `CountdownTimerManager`;
  - `SocialProofManager`;
  - the promo manager's `openAll`, `closeAll` and `handlePopupClosed`;
  - the advanced-filters manager's `getAllComponents` and `applyFiltersToAll`.
- Advanced filters: `setFilter`, `clearFilters`, `getCurrentFilters`, `populateFilterList` and the sidebar and overlay toggles are left out; they only render.
- CombinedListing.Listing.constructor: a negative `data-products-per-page` is excluded by its precondition. The source keeps it (`parseInt(...) || 12`, combined-listing.js line 42) and then divides and slices by it; negative page sizes are not modelled.
- Combined listing: `hasPagination` stands for the pagination element together with its prev, next and page-list children (combined-listing.js lines 546-560); the source checks each child separately, and a pagination element missing only some of them is not modelled.
- Combined listing: `FilterKind` has only the `product_type` and `vendor` filters. A checkbox with any other `data-filter-type` makes `handleFilterChange` throw in the source (`this.activeFilters[filterType]` is undefined, lines 207-211); that case is not modelled.
- Combined listing: the layout switch, quick-add, wishlist and compare buttons, `setFilters` and `refresh` are left out.
- Combined listing: `totalPages` is `undefined` until pagination is drawn, and is modelled as 0. Every comparison the code makes against it is false either way.
- Social proof: `isAnimating` is left out; it is never set, so it is always false. An unparsable column count (`NaN`) is not modelled; the column count is an integer parameter.
- Image hotspots: `positionTooltip` and `triggerQuickAdd` are left out. `Clamp` works on reals and does not model `NaN` positions.
- Menu page: left out are the "S" focus shortcut, the header's scroll style, image preloading and card click animations. The filter button's active class is modelled as the active filter's name. The page is assumed to have an `all` button.
- Infinite scroll: `handleReset`'s page reload is left out. The `async` load is split into `StartLoad` and `CompleteLoad`, with any other handler possibly running between them.
- Wishlist: the display order of `Object.entries` is not modelled, since the items are a map. Sharing and the clipboard are left out.
- Product badges: the `window.productBadgeStrings` overrides (product-badges.js lines 207, 214, 219, 228-231, 238 and 243) are left out; the badge texts are always the English fallbacks.
- Countdown: the date parser is a parameter that always yields a time. An unparsable end date (`new Date` giving `NaN`, so `updateTimer` shows `NaN` and never expires) is not modelled.
- Text: lower-casing is ASCII only; Unicode case mapping is not modelled.
- Countdown.TimezoneOffset: a zone named like an inherited object property (`toString`, `constructor`) is treated as an unknown zone with offset 0. In the source the lookup returns a function, and the end date becomes `NaN`.
- QuickBuy.QuickBuyModal.Show: only the open flag is stated. Body scroll locking and focus are not modelled.
- QuickBuy.QuickBuyModal.Hide: the timer that removes the modal from the document 300 ms after hiding (quick-buy.js:296-301) is not modelled. A later `show` on the same object therefore opens a modal that is no longer on the page; the model only tracks the open flag.
- Registration of the elements with `customElements.define` is not modelled. wishlist.js registers its element under the name `wishlist` (lines 581 and 585), which has no hyphen; browsers refuse such a name.
- WishlistStore.Wishlist.IsInWishlist and WishlistStore.Wishlist.Count are plain reads of the map (membership of the id's string form, and its size), with no contract of their own.

## Findings

| source | as written | input that shows it | evidently intended | confidence | as-written member | corrected member |
|---|---|---|---|---|---|---|
| theme_export__g0m0he-uw-myshopify-com-dawn__27JUL2025-0509am/assets/promo-popup.js:124-161 | `show` locks the body and then dispatches the opened event. The manager's listener then closes every other open popup with `close`, and `close` unlocks the body. | Popup A is open; popup B of another section shows. B ends up open while the body is unlocked, so the page scrolls behind it. | While a popup is open, the body stays locked. | not executed | PromoPopups.PromoPopupManager.OpenPopup | PromoPopups.PromoPopupManager.OpenPopupKeepingLock |
| theme_export__g0m0he-uw-myshopify-com-dawn__27JUL2025-0509am/assets/infinite-scroll.js:275-285 | Each loaded page adds its products to `totalProducts` (line 179). That attribute already holds the size of the whole collection, and the remaining count is `totalProducts - currentPage * productsPerPage`. | 48 products, 24 per page, page 1 shown, so 24 remain. Loading page 2 (24 products) still shows 24 remaining, though nothing is left. | The total stays the collection's size, so each page lowers the remaining count by a page, down to nothing. | not executed | InfiniteScrolls.RemainingAfterLastPage | InfiniteScrolls.RemainingKeepingTotal |

The element classes model the source as written: `InfiniteScrolls.InfiniteScroll.CompleteLoad` moves the counters with `AfterPage`, and `PromoPopups.PromoPopup.Show` is the source's `show`. The corrected definitions sit beside them: `AfterPageKeepingTotal` and `OpenPopupKeepingLock`.
