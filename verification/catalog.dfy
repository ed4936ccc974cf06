/** The catalog's values and the pure parts of the catalog controller: the demo product
    list, the category and search views, the cart count and the cart update that
    "add to cart" performs. */
module Catalog {
  import opened Sequences
  import opened Text

  /** One glyph of a product card's star row. */
  datatype Glyph = Full | Half | Empty

  /** A catalog product. `price` is in the smallest currency unit; `rating` is in tenths
      of a star, so 45 stands for 4.5 stars. */
  datatype Product = Product(
    id: int,
    name: string,
    price: int,
    category: string,
    seller: string,
    description: string,
    rating: nat,
    reviewCount: nat,
    inStock: bool)

  /** A cart line: the fields of the product, copied when the line was created, and how
      many of it are in the cart. */
  datatype CartItem = CartItem(product: Product, quantity: int) {
    function Id(): int { product.id }
  }

  /** The category value that stands for "no category filter". */
  const AllCategories := "all"

  predicate DistinctIds(products: seq<Product>) {
    forall i, j :: 0 <= i < j < |products| ==> products[i].id != products[j].id
  }

  /** The fixed demo catalog the page loads. */
  function SampleProducts(): (r: seq<Product>)
    ensures |r| == 6
    ensures DistinctIds(r)
    ensures forall i :: 0 <= i < |r| ==> r[i].rating <= 50 && r[i].inStock
  {
    [ Product(1, "Ankara Print Dress", 12500, "fashion", "Ngozi's Fashion",
        "Beautiful handmade Ankara dress with traditional patterns.", 45, 128, true),
      Product(2, "Wooden Carving Art", 8500, "art", "Traditional Crafts",
        "Handcrafted wooden sculpture from local artisans.", 48, 64, true),
      Product(3, "Smartphone Android", 65000, "electronics", "Tech Hub NG",
        "Latest Android smartphone with great features.", 43, 89, true),
      Product(4, "Traditional Spice Set", 3500, "food", "Local Foods Market",
        "Authentic Nigerian spices for traditional cooking.", 47, 156, true),
      Product(5, "Handwoven Basket", 4500, "home", "Artisan Collective",
        "Beautiful handwoven basket for home decor.", 46, 42, true),
      Product(6, "African Print Shirt", 9800, "fashion", "Modern Traditional",
        "Stylish African print shirt for men.", 44, 93, true) ]
  }

  // ---------------------------------------------------------------------------
  // Category and search views

  /** The filter condition of a category view. */
  function InCategory(category: string): (keep: Product -> bool)
    ensures forall p :: keep(p) <==> p.category == category
  {
    (p: Product) => p.category == category
  }

  /** The products shown for a category: all of them for "all", otherwise those whose
      category is exactly `category`, in catalog order. */
  function CategoryView(products: seq<Product>, category: string): (r: seq<Product>)
    ensures category == AllCategories ==> r == products
    ensures category != AllCategories ==> IsSubsequence(r, products)
    ensures category != AllCategories ==>
      forall p :: multiset(r)[p] == if p.category == category then multiset(products)[p] else 0
    ensures forall p :: p in r <==> p in products && (category == AllCategories || p.category == category)
  {
    if category == AllCategories then products
    else Filter(products, InCategory(category))
  }

  /** The demo catalog filtered to "fashion" shows the dress and the shirt, in that order. */
  lemma FashionView()
    ensures CategoryView(SampleProducts(), "fashion") == [SampleProducts()[0], SampleProducts()[5]]
  {
    var ps := SampleProducts();
    assert ps[0].category == "fashion" && ps[5].category == "fashion";
    assert forall k :: 1 <= k < 5 ==> |ps[k].category| != 7;
    FilterFirstAndLast(ps, InCategory("fashion"));
  }

  /** Proof step for `FashionView`: unfolds `Filter` over a six-element list whose first
      and last elements alone are kept. */
  lemma FilterFirstAndLast(ps: seq<Product>, keep: Product -> bool)
    requires |ps| == 6 && keep(ps[0]) && keep(ps[5])
    requires forall k :: 1 <= k < 5 ==> !keep(ps[k])
    ensures Filter(ps, keep) == [ps[0], ps[5]]
  {
    assert ps[5..][1..] == [];
    assert ps[4..][1..] == ps[5..];
    assert ps[3..][1..] == ps[4..];
    assert ps[2..][1..] == ps[3..];
    assert ps[1..][1..] == ps[2..];
    assert Filter(ps[5..], keep) == [ps[5]];
    assert Filter(ps[4..], keep) == [ps[5]] by { assert ps[4..][0] == ps[4]; }
    assert Filter(ps[3..], keep) == [ps[5]] by { assert ps[3..][0] == ps[3]; }
    assert Filter(ps[2..], keep) == [ps[5]] by { assert ps[2..][0] == ps[2]; }
    assert Filter(ps[1..], keep) == [ps[5]] by { assert ps[1..][0] == ps[1]; }
  }

  /** The search term as the page uses it: lower-cased, then trimmed. */
  function SearchTerm(raw: string): (term: string)
    ensures |term| <= |raw|
    ensures forall k :: 0 <= k < |term| ==> !IsUpper(term[k])
    ensures term == [] <==> forall k :: 0 <= k < |raw| ==> IsSpace(raw[k])
    ensures term != [] ==> !IsSpace(term[0]) && !IsSpace(term[|term| - 1])
  {
    LowerTrimmed(raw);
    Trim(ToLower(raw))
  }

  /** A product matches a (lower-case) term when its lower-cased name, description or
      seller contains the term. */
  function Matches(p: Product, term: string): (b: bool)
    ensures b <==> || (exists i: nat :: OccursAt(ToLower(p.name), term, i))
                   || (exists i: nat :: OccursAt(ToLower(p.description), term, i))
                   || (exists i: nat :: OccursAt(ToLower(p.seller), term, i))
  {
    || Contains(ToLower(p.name), term)
    || Contains(ToLower(p.description), term)
    || Contains(ToLower(p.seller), term)
  }

  /** The products shown for a search box holding `raw`. */
  function SearchView(products: seq<Product>, raw: string): (r: seq<Product>)
    ensures SearchTerm(raw) == [] ==> r == products
    ensures SearchTerm(raw) != [] ==> IsSubsequence(r, products)
    ensures SearchTerm(raw) != [] ==>
      forall p :: multiset(r)[p] == if Matches(p, SearchTerm(raw)) then multiset(products)[p] else 0
    ensures forall p :: p in r <==> p in products && (SearchTerm(raw) == [] || Matches(p, SearchTerm(raw)))
  {
    var term := SearchTerm(raw);
    if term == [] then products
    else Filter(products, (p: Product) => Matches(p, term))
  }

  /** A search box holding only white space shows the whole catalog. */
  lemma {:induction false} BlankSearchShowsAll(products: seq<Product>, raw: string)
    requires forall k :: 0 <= k < |raw| ==> IsSpace(raw[k])
    ensures SearchView(products, raw) == products
  {
    ToLowerKeepsSpace(raw);
  }

  /** The search ignores the letter case of what was typed. */
  lemma {:induction false} SearchIgnoresCase(products: seq<Product>, raw: string)
    ensures SearchView(products, ToLower(raw)) == SearchView(products, raw)
  {
    ToLowerIdempotent(raw);
  }

  // ---------------------------------------------------------------------------
  // The cart

  /** The cart count the page shows: the sum of the quantities of all cart lines. */
  function TotalQuantity(cart: seq<CartItem>): (n: int)
    ensures cart == [] ==> n == 0
    ensures (forall i :: 0 <= i < |cart| ==> cart[i].quantity >= 1) ==> n >= |cart|
  {
    if cart == [] then 0 else cart[0].quantity + TotalQuantity(cart[1..])
  }

  lemma {:induction false} TotalQuantityAppend(a: seq<CartItem>, b: seq<CartItem>)
    ensures TotalQuantity(a + b) == TotalQuantity(a) + TotalQuantity(b)
  {
    if a == [] {
      assert a + b == b;
    } else {
      assert (a + b)[0] == a[0];
      assert (a + b)[1..] == a[1..] + b;
      TotalQuantityAppend(a[1..], b);
    }
  }

  lemma {:induction false} TotalQuantityBump(cart: seq<CartItem>, i: nat)
    requires i < |cart|
    ensures TotalQuantity(cart[i := cart[i].(quantity := cart[i].quantity + 1)])
         == TotalQuantity(cart) + 1
  {
    var bumped := cart[i := cart[i].(quantity := cart[i].quantity + 1)];
    if i > 0 {
      assert bumped[1..] == cart[1..][i - 1 := cart[1..][i - 1].(quantity := cart[1..][i - 1].quantity + 1)];
      TotalQuantityBump(cart[1..], i - 1);
    } else {
      assert bumped[1..] == cart[1..];
    }
  }

  /** What the cart keeps true: one line per product id, each with a positive quantity. */
  predicate CartWellFormed(cart: seq<CartItem>) {
    && (forall i, j :: 0 <= i < j < |cart| ==> cart[i].Id() != cart[j].Id())
    && (forall i :: 0 <= i < |cart| ==> cart[i].quantity >= 1)
  }

  /** The first product with this id: the product `find` returns. */
  function FindProduct(products: seq<Product>, id: int): (r: Option<Product>)
    ensures r.None? <==> forall k :: 0 <= k < |products| ==> products[k].id != id
    ensures r.Some? ==> exists k :: 0 <= k < |products| && products[k] == r.value
                                    && r.value.id == id
                                    && forall j :: 0 <= j < k ==> products[j].id != id
  {
    match FindIndex(products, (p: Product) => p.id == id)
    case None => None
    case Some(k) => Some(products[k])
  }

  /** Position of the first cart line for this id. */
  function FindCartLine(cart: seq<CartItem>, id: int): (r: Option<nat>)
    ensures r.None? <==> forall i :: 0 <= i < |cart| ==> cart[i].Id() != id
    ensures r.Some? ==> r.value < |cart| && cart[r.value].Id() == id
                        && forall j :: 0 <= j < r.value ==> cart[j].Id() != id
  {
    FindIndex(cart, (item: CartItem) => item.Id() == id)
  }

  /** The cart after "add to cart" for `id`. */
  function AddItem(cart: seq<CartItem>, products: seq<Product>, id: int): (r: seq<CartItem>)
    // an unknown id leaves the cart as it is
    ensures FindProduct(products, id).None? ==> r == cart
    // a product already in the cart: that line's quantity goes up by one, nothing else changes
    ensures FindProduct(products, id).Some? && FindCartLine(cart, id).Some? ==>
      var i := FindCartLine(cart, id).value;
      && |r| == |cart|
      && r[i] == cart[i].(quantity := cart[i].quantity + 1)
      && forall j :: 0 <= j < |cart| && j != i ==> r[j] == cart[j]
    // a product not yet in the cart: one new line at the end, with quantity 1
    ensures FindProduct(products, id).Some? && FindCartLine(cart, id).None? ==>
      && |r| == |cart| + 1
      && r[..|cart|] == cart
      && r[|cart|] == CartItem(FindProduct(products, id).value, 1)
  {
    match FindProduct(products, id)
    case None => cart
    case Some(p) =>
      match FindCartLine(cart, id)
      case Some(i) => cart[i := cart[i].(quantity := cart[i].quantity + 1)]
      case None => cart + [CartItem(p, 1)]
  }

  /** "Add to cart" keeps one line per id and positive quantities. */
  lemma {:induction false} AddItemKeepsWellFormed(cart: seq<CartItem>, products: seq<Product>, id: int)
    requires CartWellFormed(cart)
    ensures CartWellFormed(AddItem(cart, products, id))
  {
    var r := AddItem(cart, products, id);
    if FindProduct(products, id).Some? && FindCartLine(cart, id).Some? {
      assert forall j :: 0 <= j < |r| ==> r[j].Id() == cart[j].Id();
    } else if FindProduct(products, id).Some? {
      assert r[|cart|].Id() == id;
      assert forall j :: 0 <= j < |cart| ==> r[j] == cart[j];
    }
  }

  /** Each successful "add to cart" raises the cart count by exactly one; an unknown id
      leaves it alone. */
  lemma {:induction false} AddItemCount(cart: seq<CartItem>, products: seq<Product>, id: int)
    ensures TotalQuantity(AddItem(cart, products, id))
         == TotalQuantity(cart) + (if FindProduct(products, id).Some? then 1 else 0)
  {
    match FindProduct(products, id)
    case None =>
    case Some(p) =>
      match FindCartLine(cart, id)
      case Some(i) => TotalQuantityBump(cart, i);
      case None =>
        TotalQuantityAppend(cart, [CartItem(p, 1)]);
        assert TotalQuantity([CartItem(p, 1)]) == 1;
  }

  /** Adding the same known product twice to an empty cart gives one line of quantity 2,
      not two lines. */
  lemma AddTwiceMakesOneLine(products: seq<Product>, id: int)
    requires FindProduct(products, id).Some?
    ensures AddItem(AddItem([], products, id), products, id)
         == [CartItem(FindProduct(products, id).value, 2)]
  {
    var once := AddItem([], products, id);
    assert once == [CartItem(FindProduct(products, id).value, 1)];
    assert FindCartLine(once, id) == Some(0);
  }

  /** The cart after "add to cart" for each id of `ids` in turn. */
  function AddAll(cart: seq<CartItem>, products: seq<Product>, ids: seq<int>): seq<CartItem>
    decreases |ids|
  {
    if ids == [] then cart else AddAll(AddItem(cart, products, ids[0]), products, ids[1..])
  }

  /** How many of `ids` name a product of the catalog. */
  function KnownCount(products: seq<Product>, ids: seq<int>): (n: nat)
    ensures n <= |ids|
  {
    if ids == [] then 0
    else (if FindProduct(products, ids[0]).Some? then 1 else 0) + KnownCount(products, ids[1..])
  }

  /** Over any sequence of "add to cart" calls the cart keeps one line per id with
      positive quantities, and its count grows by the number of known ids added. */
  lemma {:induction false} AddAllInvariant(cart: seq<CartItem>, products: seq<Product>, ids: seq<int>)
    requires CartWellFormed(cart)
    ensures CartWellFormed(AddAll(cart, products, ids))
    ensures TotalQuantity(AddAll(cart, products, ids)) == TotalQuantity(cart) + KnownCount(products, ids)
    decreases |ids|
  {
    if ids != [] {
      AddItemKeepsWellFormed(cart, products, ids[0]);
      AddItemCount(cart, products, ids[0]);
      AddAllInvariant(AddItem(cart, products, ids[0]), products, ids[1..]);
    }
  }
}
