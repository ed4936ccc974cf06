/** The catalog page controller: the product list, the cart and the active category,
    and the handlers that read and update them. */
module Market {
  import opened Catalog

  class MainMarketApp {
    var products: seq<Product>
    var cart: seq<CartItem>
    var currentCategory: string

    /** The object invariant: one cart line per product id, each with a positive quantity. */
    ghost predicate Valid()
      reads this
    {
      CartWellFormed(cart)
    }

    /** A fresh controller: no products yet, an empty cart, the "all" category. The
        product list is filled by `LoadProducts`. */
    constructor ()
      ensures Valid()
      ensures products == [] && cart == [] && currentCategory == AllCategories
    {
      products := [];
      cart := [];
      currentCategory := AllCategories;
    }

    /** Replaces the product list with the demo catalog; the cart and the category
        are left alone. */
    method LoadProducts()
      modifies this`products
      ensures products == SampleProducts()
    {
      products := SampleProducts();
    }

    /** The star row of a product card for a rating given in tenths of a star:
        `rating / 10` full stars, then a half star when the rating has a non-zero
        tenths digit, then empty stars up to five. */
    method GenerateStarRating(rating: nat) returns (stars: seq<Glyph>)
      ensures var lead := rating / 10 + (if rating % 10 != 0 then 1 else 0);
              |stars| == if lead < 5 then 5 else lead
      ensures rating <= 50 ==> |stars| == 5
      ensures forall i :: 0 <= i < |stars| ==>
        stars[i] == if i < rating / 10 then Full
                    else if i == rating / 10 && rating % 10 != 0 then Half
                    else Empty
      ensures Half in stars <==> rating % 10 != 0
    {
      stars := [];
      var fullStars := rating / 10;
      var hasHalfStar := rating % 10 != 0;
      var i := 0;
      while i < fullStars
        invariant i <= fullStars && |stars| == i
        invariant forall k :: 0 <= k < i ==> stars[k] == Full
      {
        stars := stars + [Full];
        i := i + 1;
      }
      if hasHalfStar {
        stars := stars + [Half];
      }
      var lead := |stars|;
      assert lead == fullStars + (if hasHalfStar then 1 else 0);
      var emptyStars := 5 - lead;
      i := 0;
      while i < emptyStars
        invariant 0 <= i && (emptyStars >= 0 ==> i <= emptyStars) && (emptyStars < 0 ==> i == 0)
        invariant |stars| == lead + i
        invariant forall k :: 0 <= k < fullStars ==> stars[k] == Full
        invariant hasHalfStar ==> stars[fullStars] == Half
        invariant forall k :: lead <= k < |stars| ==> stars[k] == Empty
      {
        stars := stars + [Empty];
        i := i + 1;
      }
      if Half in stars {
        ghost var k :| 0 <= k < |stars| && stars[k] == Half;
        assert k == fullStars && hasHalfStar;
      }
    }

    /** Makes `category` the active one and returns the products it shows. */
    method FilterProductsByCategory(category: string) returns (shown: seq<Product>)
      modifies this`currentCategory
      ensures currentCategory == category
      ensures shown == CategoryView(products, category)
    {
      currentCategory := category;
      shown := CategoryView(products, category);
    }

    /** The products shown for the text `rawTerm` in the search box. The active category
        plays no part. */
    method HandleSearch(rawTerm: string) returns (shown: seq<Product>)
      ensures shown == SearchView(products, rawTerm)
    {
      shown := SearchView(products, rawTerm);
    }

    /** "Add to cart": an unknown id changes nothing; a product already in the cart has
        its line's quantity raised by one; any other product gets a new line of quantity
        1 at the end. The cart count rises by one exactly when the id is known. */
    method AddToCart(productId: int)
      requires Valid()
      modifies this`cart
      ensures Valid()
      ensures cart == AddItem(old(cart), products, productId)
      ensures TotalQuantity(cart)
           == old(TotalQuantity(cart)) + (if FindProduct(products, productId).Some? then 1 else 0)
    {
      AddItemKeepsWellFormed(cart, products, productId);
      AddItemCount(cart, products, productId);
      var found := FindProduct(products, productId);
      if found.None? {
        return;
      }
      var product := found.value;
      var existing := FindCartLine(cart, productId);
      if existing.Some? {
        var i := existing.value;
        cart := cart[i := cart[i].(quantity := cart[i].quantity + 1)];
      } else {
        cart := cart + [CartItem(product, 1)];
      }
    }
  }
}
