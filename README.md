# Hela Cure Life website: carousel, product grid and navbar logic

The site is a bilingual (English/Arabic) marketing page whose few pieces of
behaviour live in three React components. This project models them in Dafny
and proves what they promise:

- `ProductsModal` (`products_modal.dfy`): the product carousel. It has a
  fixed list of twelve generated items and a `currentIndex` that "next" and
  "previous" move modulo the length. A dot click sets the index directly. A
  keydown handler maps ArrowLeft/ArrowRight to previous/next, swaps them under
  a right-to-left layout, turns Escape into a close request, and ignores
  every key while the modal is closed. The state is the class `Carousel`.
- `Products` (`products.dfy`): the product section. It has the five-tab table
  and a catalog loader that merges one parsed `info.json` per tab, using `{}`
  for a tab whose fetch failed. `getProductsToShow` picks the product keys for
  the grid. The Show All / Show Less button appears when a tab has more than
  four products. A card's number and image come from its key. The state
  (`activeTab`, `showAll`, `allProducts`, `loading`) is the class
  `ProductGrid`.
- `Navbar` (`navbar.dfy`): the five section links, the language switch and
  the mobile-menu flag. The state is the class `NavbarState`.
- `Text` (`text.dfy`): the JavaScript string behaviour these components rely
  on. That is decimal rendering of a non-negative integer in a template
  literal, `startsWith`, `indexOf` and `replace` with a string pattern.

JavaScript's `%` truncates toward zero. The model writes it out as `JsRem`;
the carousel only ever passes it non-negative operands. A fetched JSON object
is an ordered entry list with each key once, so `Object.keys` order is kept.
Decimal rendering follows JavaScript for the numbers the components use
(at most twelve); JavaScript switches to exponent form from 1e21 on.

The carousel index does not reset when the modal closes. `Hero` keeps
`ProductsModal` mounted and only flips its `isOpen` prop, and the component
returns `null` after its hooks when closed. So `currentIndex` survives a
close and reopen, and the model follows this code.

## Model

| member | source | states |
|---|---|---|
| `ProductsModal.Products` | components/ProductsModal.tsx:20-25 | the list has 12 items; item i has id i+1 and image `/products/{i+1}.jpg` |
| `ProductsModal.ImagePath` | components/ProductsModal.tsx:22 | the path is `/products/`, a numeral and `.jpg`, and the numeral reads back as the item number |
| `ProductsModal.ProductLabel` | components/ProductsModal.tsx:23-24 | the label is `Product ` followed by a numeral that reads back as the item number |
| `ProductsModal.MakeItem` | components/ProductsModal.tsx:20-25 | item i has id i+1 and that id's image path; its alt text equals its title, the label of its id |
| `ProductsModal.ProductsDistinct` | components/ProductsModal.tsx:20-25 | no two items share an id or an image path (decimal rendering is injective) |
| `ProductsModal.JsRem` | components/ProductsModal.tsx:27-33 | JavaScript remainder: on non-negative operands it is the mathematical remainder in [0, b); a negative dividend gives a non-positive result |
| `ProductsModal.Next` | components/ProductsModal.tsx:27-29 | the next index stays in [0,12) and is i+1, with 11 wrapping to 0 |
| `ProductsModal.Prev` | components/ProductsModal.tsx:31-33 | the previous index stays in [0,12) and is i-1, with 0 wrapping to 11 |
| `ProductsModal.NextThenPrev` | components/ProductsModal.tsx:27-33 | previous after next returns the original index |
| `ProductsModal.PrevThenNext` | components/ProductsModal.tsx:27-33 | next after previous returns the original index |
| `ProductsModal.NextN` | components/ProductsModal.tsx:27-29 | any number of nexts keeps the index in [0,12) |
| `ProductsModal.PrevN` | components/ProductsModal.tsx:31-33 | any number of previouses keeps the index in [0,12) |
| `ProductsModal.NextNAdds` | components/ProductsModal.tsx:27-29 | n nexts from i land on (i+n) mod 12 |
| `ProductsModal.PrevNSubtracts` | components/ProductsModal.tsx:31-33 | n previouses from i land on (i + 12 - n mod 12) mod 12 |
| `ProductsModal.FromStart` | components/ProductsModal.tsx:27-33 | from index 0, n nexts give n mod 12 and n previouses give (12 - n mod 12) mod 12 |
| `ProductsModal.FullLaps` | components/ProductsModal.tsx:27-33 | any whole number of 12-step laps, forward or backward, is the identity |
| `ProductsModal.KeyAction` | components/ProductsModal.tsx:37-47 | closed: every key is ignored; open: Escape closes, ArrowRight means next in LTR and previous in RTL, ArrowLeft the mirror, and every other key is ignored (each case as an if-and-only-if) |
| `ProductsModal.ApplyAction` | components/ProductsModal.tsx:40-46 | the index stays in range, and closing or ignoring a key leaves it unchanged |
| `ProductsModal.MirrorKey` | components/ProductsModal.tsx:40-43 | only the two arrow keys have a distinct mirror |
| `ProductsModal.MirrorKeyInvolutive` | components/ProductsModal.tsx:40-43 | mirroring twice gives the key back |
| `ProductsModal.RtlMirrorsLtr` | components/ProductsModal.tsx:40-43 | a key under RTL has the effect of its mirror under LTR; ArrowLeft in RTL acts as ArrowRight in LTR |
| `ProductsModal.OppositeArrowsCancel` | components/ProductsModal.tsx:40-43 | in either layout, an arrow key followed by the opposite arrow returns to the same item |
| `ProductsModal.Carousel.constructor` | components/ProductsModal.tsx:17 | the index starts at 0 |
| `ProductsModal.Carousel.NextProduct` | components/ProductsModal.tsx:27-29 | the new index is `Next` of the old one and stays in range |
| `ProductsModal.Carousel.PrevProduct` | components/ProductsModal.tsx:31-33 | the new index is `Prev` of the old one and stays in range |
| `ProductsModal.Carousel.SelectProduct` | components/ProductsModal.tsx:184-189 | clicking dot k sets the index to exactly k |
| `ProductsModal.Carousel.HandleKeyPress` | components/ProductsModal.tsx:37-47 | the new index is the dispatched action applied to the old one; a close is requested iff the modal is open and the key is Escape; when closed nothing changes |
| `ProductsModal.Carousel.Counter` | components/ProductsModal.tsx:102 | the header counter `currentIndex + 1` lies in 1..12 and equals the current item's id |
| `ProductsModal.Carousel.Current` | components/ProductsModal.tsx:128-131 | the displayed item has id `currentIndex + 1` and that item's image path |
| `ProductsModal.ArrowRoundTrip` | components/ProductsModal.tsx:37-47 | through the key handler, ArrowLeft then ArrowRight and ArrowRight then ArrowLeft restore the index in either layout, and a following Escape returns a close request |
| `Text.NatToString` | components/Products.tsx:120 | `${n}` is a non-empty all-digit numeral with no leading zero, one digit exactly when n < 10 |
| `Text.ParseNatToString` | components/Products.tsx:120 | reading the numeral back gives n |
| `Text.NatToStringInjective` | components/Products.tsx:120 | different numbers render differently |
| `Text.StartsWith` | components/Products.tsx:223 | `s.startsWith(p)` holds iff `s` is `p` followed by the rest of `s`, and then `indexOf(p)` is 0 |
| `Text.IndexOf` | components/Products.tsx:224-226 | the result is -1 exactly when the pattern does not occur; otherwise the pattern occurs there and nowhere earlier |
| `Text.ReplaceFirst` | components/Products.tsx:224-226 | with no occurrence the string is unchanged; otherwise the result is the text before the first occurrence, then the replacement, then the text after that occurrence |
| `Text.StripLeadingPrefix` | components/Products.tsx:224-226 | `(p + rest).replace(p, '')` is `rest` |
| `Products.Tabs` | components/Products.tsx:29-66 | five tabs, `featured` first and the only featured one without data, the other four with data; each path equals its id |
| `Products.TabIds` | components/Products.tsx:29-66 | the ids are listed in table order |
| `Products.TabIdsDistinct` | components/Products.tsx:29-66 | the ids are featured, bone, fertility, general, kids, pairwise different |
| `Products.Keys` | components/Products.tsx:125 | `Object.keys` lists one key per entry, in order |
| `Products.Lookup` | components/Products.tsx:217-220 | the lookup is undefined iff the key is absent; when it succeeds, it returns an entry stored under that key (the only one, since a parsed object has each key once) |
| `Products.DataOf` | components/Products.tsx:71-80 | a failed fetch contributes the empty object |
| `Products.TabResult` | components/Products.tsx:71-80 | each tab yields a one-key object `{ [tab.id]: data }` |
| `Products.MergeAll` | components/Products.tsx:83 | the spread fold keeps every key of the accumulator, gains every key of every result, and has no other keys |
| `Products.MergedCatalog` | components/Products.tsx:71-84 | the merged catalog has a key for every tab id and no key that is not a tab id |
| `Products.MergeSingletons` | components/Products.tsx:82-83 | the spread-merge fold over one-key results with distinct keys holds exactly the old keys plus the new ones, each new key with its own value, the old keys untouched |
| `Products.MergedCatalogSpec` | components/Products.tsx:68-93 | after loading the catalog has exactly one entry per tab id, holding that tab's parsed object, or `{}` when its fetch failed |
| `Products.FailureIsolated` | components/Products.tsx:71-83 | making one tab's fetch fail maps that tab to `{}` and leaves every other tab's entry as it was |
| `Products.NumberedKeys` | components/Products.tsx:120 | `Array.from` builds n keys, key i being the prefix followed by i+1 |
| `Products.FallbackCount` | components/Products.tsx:129 | 3 cards exactly for `kids`, 8 for any other tab |
| `Products.HasProducts` | components/Products.tsx:124 | the tab is loaded and its object has at least one key (`Object.keys(...).length > 0`) |
| `Products.ProductsToShow` | components/Products.tsx:115-132 | the list length is the tab's product count when expanded and min(4, count) when collapsed |
| `Products.ProductCount` | components/Products.tsx:292-300 | the count is positive, and the fallback count for a non-featured tab without data |
| `Products.ShowToggle` | components/Products.tsx:302 | the button always shows on `featured`; on a tab without data it shows iff the tab is not `kids`; on a tab with data it shows iff the object has more than 4 keys |
| `Products.FeaturedView` | components/Products.tsx:117-121 | the featured tab shows featured-1..12 expanded and featured-1..4 collapsed, whatever was loaded, and always has the button |
| `Products.DataView` | components/Products.tsx:123-127 | a tab with data shows all its keys in order when expanded and their first min(4, n) when collapsed |
| `Products.FallbackView` | components/Products.tsx:128-131 | a tab with no or empty data shows product-1..n, with n 3 for kids and 8 otherwise, cut to min(4, n) when collapsed |
| `Products.NumberedKeysPrefix` | components/Products.tsx:119-120 | fewer numbered keys are a prefix of more |
| `Products.CollapsedIsPrefix` | components/Products.tsx:115-132 | the collapsed list is a prefix of the expanded one and at most 4 long; the expanded length is the button block's `productCount` (lines 292-300); the button (line 302) shows iff collapsing hides a card |
| `Products.NumberedKeysDistinct` | components/Products.tsx:120 | generated keys are pairwise different |
| `Products.ShownKeysDistinct` | components/Products.tsx:216-230 | the grid never shows the same key twice |
| `Products.CardProduct` | components/Products.tsx:217-220 | a card has a product iff the tab is loaded and its object has that key, and then it is the product stored under that key |
| `Products.CardsFindTheirProduct` | components/Products.tsx:216-220 | every card of a tab with data finds its product; every card of a tab without data is a placeholder with none |
| `Products.ProductKeyNotFeatured` | components/Products.tsx:223 | a `product-` key is never taken as featured |
| `Products.IsFeaturedKey` | components/Products.tsx:223 | a key counts as featured iff it is `featured-` followed by its remainder |
| `Products.ProductNumber` | components/Products.tsx:224-226 | the number is no longer than the key |
| `Products.ProductNumberOfNumberedKey` | components/Products.tsx:223-226 | stripping `featured-` from `featured-{k}` or `product-` from `product-{k}` gives `{k}`, which reads back as k |
| `Products.ProductNumberOfPlainKey` | components/Products.tsx:224-226 | a key with neither marker is its own number |
| `Products.CardImage` | components/Products.tsx:237-241 | every card image lies under `/products/` |
| `Products.CategoryCardImage` | components/Products.tsx:240 | card `product-{k}` of a category shows `/products/{tab}/product-{k}.webp` |
| `Products.FeaturedCardMatchesCarousel` | components/Products.tsx:238-239 | featured card k shows the same image as carousel item k |
| `Products.ProductGrid.constructor` | components/Products.tsx:24-27 | the section starts on `featured`, collapsed, with an empty catalog, loading |
| `Products.ProductGrid.LoadAllProducts` | components/Products.tsx:69-90 | the catalog becomes the merge of the per-tab results, with one entry per tab id; loading ends; tab and flag are unchanged |
| `Products.ProductGrid.ResetShowAll` | components/Products.tsx:134-137 | the active tab becomes the argument and the grid collapses to at most 4 cards; the catalog is unchanged |
| `Products.ProductGrid.ToggleShowAll` | components/Products.tsx:305 | `showAll` flips and nothing else changes |
| `Products.ProductGrid.Shown` | components/Products.tsx:216 | when collapsed, at most 4 cards are on the grid |
| `Products.ToggleTwice` | components/Products.tsx:305 | two toggles restore `showAll` and the displayed keys |
| `Navbar.ToggledLanguage` | components/Navbar.tsx:21-23 | the result is always `en` or `ar`, and it is `ar` exactly when the input is `en` |
| `Navbar.ToggleSwapsLanguages` | components/Navbar.tsx:21-23 | from `en` or `ar`, toggling changes the language, and toggling twice restores it |
| `Navbar.ToggleNormalisesOthers` | components/Navbar.tsx:21-23 | any other value becomes `en`, so two toggles lead to `ar`, not back |
| `Navbar.Link` | components/Navbar.tsx:13-19 | a nav item keeps its key, and its href is `#` followed by that key |
| `Navbar.NavItems` | components/Navbar.tsx:13-19 | exactly home, about, values, services, clients, in that order, each with href `#key` |
| `Navbar.NavbarState.constructor` | components/Navbar.tsx:10-11 | the menu starts closed |
| `Navbar.NavbarState.ToggleLanguage` | components/Navbar.tsx:21-23 | the language becomes the toggled value; the menu flag is unchanged |
| `Navbar.NavbarState.ToggleMenu` | components/Navbar.tsx:76 | `isMenuOpen` flips and the language is unchanged |
| `Navbar.NavbarState.ScrollToSection` | components/Navbar.tsx:25-31 | the menu is closed afterwards, whether or not the section exists; the language is unchanged; scrolling happens iff the element is found |
| `Navbar.PressTwice` | components/Navbar.tsx:21-23 | two menu presses and two language toggles from `en` or `ar` restore the navbar |
| `Navbar.OpenThenFollow` | components/Navbar.tsx:25-31 | opening the menu and following a link leaves it closed |

## Left out

- Rendering: the JSX, CSS classes, framer-motion variants, image `onError` hiding and the loading spinner. The Swiper configuration is left out too.
- Placeholder text: the fallbacks `product?.name || …` and `product?.description || …` on a card, in either language. The model says only whether a card has a product.
- Fetching: `fetch` and `response.json()` are I/O. Each tab's result is an input, either the parsed object with its keys in `Object.keys` order, or a failure. A key repeated in a file keeps only its last value in `JSON.parse`; the model receives the object after that has happened. `console.error` is not modelled.
- Concurrency: `Promise.all`. The per-tab results are merged in table order. Their keys are disjoint, so the order does not matter.
- The outer `try`/`catch` of `loadAllProducts`: every per-tab promise catches its own error, so this path cannot be taken.
- JavaScript property lookup on an `activeTab` outside the table, such as a prototype name like `constructor`. The model treats the catalog as a plain map, and the tab buttons only pass table ids.
- DOM side effects: `window.addEventListener`/`removeEventListener`, `document.body.style.overflow`, `scrollIntoView`. The element lookup in `scrollToSection` is the input `elementFound`, and `onClose` is the `closeRequested` result.
- `onViewAllProducts` in the modal: a callback into code outside the component.
- The language context is not part of this model. `isRTL` is an input to the key handler, and the navbar's `language` field stands for the context's value as `setLanguage` leaves it.
- Static data: the content dictionary in `data/siteContent.ts` and the other presentational components. This includes Hero's open/close flag for the modal, which is a plain boolean.
- `ProductsModal.Products`: the `alt` and `title` strings (`Product {i+1}`) are built as in the source, but its contract states only the id and the image path.
