# Marketplace catalog controller, in Dafny

This project models the catalog page controller `MainMarketApp` of a small marketplace
front-end. The controller holds three pieces of state:

- the product list (`products`), loaded from a fixed demo catalog of six products;
- the cart (`cart`), one line per product with a quantity;
- the active category (`currentCategory`), `"all"` at start.

It reacts to three user actions:

- choosing a category shows the products of that category, or every product for `"all"`;
- searching shows the products whose name, description or seller contains the typed term,
  ignoring letter case and surrounding white space;
- "add to cart" adds a product or raises its quantity.

When it renders a product card, it also turns the product's rating into a row of star glyphs.

Layout:

- `sequences.dfy`, module `Sequences`: `find` and `filter` on lists, with the order-preserving
  subsequence relation.
- `text.dfy`, module `Text`: lower-casing, trimming and substring search on strings.
- `catalog.dfy`, module `Catalog`: the products, cart lines and glyphs; the demo catalog; the
  category and search views; the cart count; the cart update that "add to cart" performs. Also
  the lemmas about them: the cart keeps one line per id across any sequence of adds, and the
  count rises by one per known id.
- `market.dfy`, module `Market`: the class `MainMarketApp`, whose fields are the three pieces of
  state. Its handler methods (loading, category filter, search, add to cart) are each proved
  against the functions of `Catalog`; `GenerateStarRating` builds the star row with two loops and
  is proved to give each glyph by a closed-form rule.

Ratings are whole tenths of a star (`45` is 4.5 stars), so the full-star count is `rating / 10`
and "has a fractional part" is `rating % 10 != 0`. Every rating in the demo catalog has one
decimal.

The star row is usually described as always having exactly five glyphs. The code gives five only
for ratings up to 5.0. A larger rating gets no empty stars and more than five glyphs: five full
stars and a half star from 5.1 to 5.9, and one full star per whole star from 6.0 on. The model
follows the code. `GenerateStarRating` states the length for every rating, and proves it is five
when the rating is at most 50 tenths.

## Model

| member | source | states |
|---|---|---|
| `Sequences.FindIndex` | script.js:291 | the index returned holds the first element that matches, and no earlier element matches; there is no index exactly when no element matches |
| `Sequences.Filter` | script.js:266-268 | the result is an order-preserving subsequence of the input that holds each accepted element as often as the input does, and no rejected element |
| `Sequences.FilterIsUnique` | script.js:281-285 | any subsequence with those multiplicities equals the filter, so `Filter`'s contract determines the view exactly |
| `Text.LowerChar` | script.js:274 | an upper-case ASCII letter becomes its lower-case letter; every other character is unchanged; the result is never upper case |
| `Text.ToLower` | script.js:274 | the result has the input's length, and each character is the lower-cased input character |
| `Text.Trim` | script.js:274 | the result is the contiguous part of the input left after removing white space at both ends: everything removed is white space, and a non-empty result neither starts nor ends with white space; it is empty exactly when the input is all white space |
| `Text.Contains` | script.js:282-284 | true exactly when the needle occurs as a contiguous run somewhere in the text |
| `Catalog.SampleProducts` | script.js:114-189 | the demo catalog has six products with distinct ids, ratings of at most 5.0, all in stock |
| `Catalog.CategoryView` | script.js:266-268 | `"all"` shows the product list unchanged; any other category shows exactly the products of that category, with their multiplicities and in catalog order |
| `Catalog.FashionView` | script.js:266-268 | on the demo catalog, `"fashion"` shows the Ankara Print Dress, then the African Print Shirt |
| `Catalog.InCategory` | script.js:268 | the filter condition accepts a product exactly when its category equals the chosen one |
| `Catalog.SearchTerm` | script.js:274 | the term is no longer than the typed text, holds no upper-case ASCII letter, neither starts nor ends with white space, and is empty exactly when the typed text is all white space |
| `Catalog.Matches` | script.js:282-284 | a product matches exactly when the term occurs in its lower-cased name, its lower-cased description or its lower-cased seller |
| `Catalog.SearchView` | script.js:273-287 | a term that is empty once lower-cased and trimmed shows every product; otherwise exactly the products whose lower-cased name, description or seller contains the term, in catalog order |
| `Catalog.BlankSearchShowsAll` | script.js:274-279 | a search box holding only white space shows the whole product list |
| `Catalog.SearchIgnoresCase` | script.js:274-285 | lower-casing the typed text first does not change what the search shows |
| `Catalog.TotalQuantity` | script.js:309-311 | the cart count is the sum of the line quantities; it is 0 for an empty cart and at least the number of lines when every quantity is positive |
| `Catalog.FindProduct` | script.js:291 | the product returned carries the id, is the first in the list that does, and there is none exactly when no product carries the id |
| `Catalog.FindCartLine` | script.js:294 | the line returned is the first cart line for the id; there is none exactly when no line carries the id |
| `Catalog.AddItem` | script.js:290-303 | an unknown id leaves the cart unchanged; a product already in the cart gets its line's quantity raised by exactly one, with the length and every other line unchanged; any other product gets one new line with its fields and quantity 1 appended after the unchanged old lines |
| `Catalog.AddItemKeepsWellFormed` | script.js:290-303 | "add to cart" keeps the cart at one line per product id, each with a quantity of at least 1 |
| `Catalog.AddItemCount` | script.js:290-311 | "add to cart" raises the cart count by exactly one for a known id and leaves it unchanged for an unknown one |
| `Catalog.AddTwiceMakesOneLine` | script.js:294-302 | adding the same known product twice to an empty cart gives one line of quantity 2, not two lines |
| `Catalog.AddAllInvariant` | script.js:290-311 | across any sequence of adds, the cart keeps unique ids and positive quantities, and the count grows by the number of known ids added |
| `Market.MainMarketApp.constructor` | script.js:3-10 | a new controller has no products, an empty cart and the category `"all"` |
| `Market.MainMarketApp.LoadProducts` | script.js:92-112 | the product list becomes the demo catalog |
| `Market.MainMarketApp.GenerateStarRating` | script.js:236-255 | glyph `i` is a full star below `rating / 10`, a half star at `rating / 10` when the tenths digit is non-zero, and an empty star otherwise; the row has five glyphs, or more when the full and half stars alone exceed five; a half star appears exactly when the tenths digit is non-zero |
| `Market.MainMarketApp.FilterProductsByCategory` | script.js:257-271 | the active category becomes the argument, and the products returned are the category view of the product list |
| `Market.MainMarketApp.HandleSearch` | script.js:273-288 | the products returned are the search view of the product list for the typed text; the state is not changed, and the active category plays no part |
| `Market.MainMarketApp.AddToCart` | script.js:290-307 | the new cart is the "add to cart" update of the old one, the one-line-per-id invariant is kept, and the cart count rises by one exactly when the id is known |

## Left out

- Rendering (`renderProducts`, the loading placeholder of `loadProducts`, the `active` class on navigation links), event-listener wiring and the injected stylesheet: these are DOM presentation only. The views are modelled as the product lists they would render.
- `showToast` and `showError`: timer-driven notifications with no state of the controller.
- `setupDarkMode`, `checkAuthState`, `updateAuthUI`, `handleLogout`: they use browser storage, media queries and JSON parsing. The `currentUser` field is used only by them and is not modelled. The `wishlist` field is set to an empty list by the constructor and never read or written again, so it is not modelled either.
- `showLoginModal`, `showRegisterModal`, `showCart`, `showWishlist`: blocking alert stubs.
- `startProductVideoChat` and the video-chat button: they only navigate to another page, with a URL encoding done by the browser.
- Price formatting with `toLocaleString`: locale-dependent library behaviour.
- The `image` field of a product: only rendering reads it.
- The failure branch of `loadProducts`: the awaited value is a constant list, so the branch is reachable only through the DOM work inside the same `try` (a page without the product grid throws before the list is assigned, leaving it empty, and an error toast is shown). The DOM is not modelled; `LoadProducts` models the success path.
- `Market.MainMarketApp.constructor`: does not load the products. In the source, `init` starts `loadProducts`, but the list is assigned only after an `await`. The model therefore treats loading as the separate call `LoadProducts`.
- `Market.MainMarketApp.GenerateStarRating`: takes the rating as a natural number of tenths of a star. Negative ratings and ratings with more than one decimal are not modelled, and neither are the floating-point `Math.floor` and `% 1`.
- `Text.ToLower`: lower-cases only the ASCII letters `A`-`Z`. The full Unicode case mapping of `toLowerCase` is not modelled. Trimming uses the full ECMAScript white-space set.
- `Market.MainMarketApp.AddToCart`: raises `quantity` by writing a new line into the cart sequence rather than mutating the line object. No other object refers to a cart line, so no aliasing is lost.
- `Catalog.TotalQuantity`, `Catalog.AddItemCount`, `Market.MainMarketApp.AddToCart`: quantities and the cart count are unbounded integers. In the source they are JavaScript numbers (doubles), which stop growing by one past 2^53; that limit is not modelled.
