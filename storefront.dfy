/**
 * The `App` component's state and its handlers: the filter criteria, the
 * cart, the derived product list, and the two cart updates.
 */
module Storefront {
  import opened Catalog
  import opened Text
  import opened ProductFilter
  import Cart

  /** Two catalog products with the same id are the same product. */
  lemma CatalogProductById(x: Product, y: Product)
    requires x in PRODUCTS_DATA && y in PRODUCTS_DATA && x.id == y.id
    ensures x == y
  {
    CatalogIdsUnique();
    var i :| 0 <= i < |PRODUCTS_DATA| && PRODUCTS_DATA[i] == x;
    var j :| 0 <= j < |PRODUCTS_DATA| && PRODUCTS_DATA[j] == y;
  }

  /**
   * With category "all", no search text and a price range covering every
   * product, the unsorted page lists the whole catalog in catalog order.
   */
  lemma {:induction false} OpenCriteriaShowCatalog(catalog: seq<Product>, range: (int, int))
    requires forall i :: 0 <= i < |catalog| ==> range.0 <= catalog[i].price <= range.1
    ensures Visible(catalog, Criteria(ALL, range, "", "featured")) == catalog
  {
    var c := Criteria(ALL, range, "", "featured");
    forall i | 0 <= i < |catalog| ensures Matches(catalog[i], c) {
      EmptyIncluded(ToLower(catalog[i].name));
    }
    FilterKeepsAll(catalog, c);
  }

  /** On first render the page lists the whole catalog, in catalog order. */
  lemma InitialViewIsCatalog()
    ensures Visible(PRODUCTS_DATA, Criteria(ALL, (0, 30000), "", "featured")) == PRODUCTS_DATA
  {
    CatalogPricesWithinSlider();
    OpenCriteriaShowCatalog(PRODUCTS_DATA, (0, 30000));
  }

  /** A cart of catalog lines records, for a catalog product's id, that product's price. */
  lemma CatalogLinesPriced(cart: seq<Cart.CartItem>, product: Product)
    requires forall i :: 0 <= i < |cart| ==> cart[i].product in PRODUCTS_DATA
    requires product in PRODUCTS_DATA
    ensures forall k :: 0 <= k < |cart| && cart[k].product.id == product.id ==> cart[k].product.price == product.price
  {
    forall k | 0 <= k < |cart| && cart[k].product.id == product.id
      ensures cart[k].product.price == product.price
    {
      CatalogProductById(cart[k].product, product);
    }
  }

  class App {
    var selectedCategory: string
    /** The price slider's range, in cents. */
    var priceRange: (int, int)
    var searchQuery: string
    var sortBy: string
    var cartItems: seq<Cart.CartItem>

    /** The cart is well formed and every line was copied from a catalog product. */
    ghost predicate Valid()
      reads this
    {
      && Cart.WellFormed(cartItems)
      && forall i :: 0 <= i < |cartItems| ==> cartItems[i].product in PRODUCTS_DATA
    }

    /** The initial `useState` values. */
    constructor ()
      ensures Valid()
      ensures selectedCategory == ALL && priceRange == (0, 30000) && searchQuery == "" && sortBy == "featured"
      ensures cartItems == []
    {
      selectedCategory := ALL;
      priceRange := (0, 30000);
      searchQuery := "";
      sortBy := "featured";
      cartItems := [];
    }

    function CurrentCriteria(): Criteria
      reads this
    {
      Criteria(selectedCategory, priceRange, searchQuery, sortBy)
    }

    /** `filteredProducts` for the current criteria. */
    method FilteredProducts() returns (r: seq<Product>)
      ensures r == Visible(PRODUCTS_DATA, CurrentCriteria())
    {
      r := ProductFilter.FilteredProducts(PRODUCTS_DATA, CurrentCriteria());
    }

    /**
     * `addToCart(product)`: bumps the product's line or appends a new one; the
     * item count grows by one and the total by the product's price.
     */
    method AddToCart(product: Product)
      requires Valid() && product in PRODUCTS_DATA
      modifies this`cartItems
      ensures Valid()
      ensures cartItems == Cart.AddToCart(old(cartItems), product)
      ensures Cart.CartCount(cartItems) == Cart.CartCount(old(cartItems)) + 1
      ensures Cart.CartTotal(cartItems) == Cart.CartTotal(old(cartItems)) + product.price
    {
      var prev := cartItems;
      CatalogLinesPriced(prev, product);
      Cart.AddToCartProducts(prev, product);
      Cart.AddToCartWellFormed(prev, product);
      Cart.AddToCartTotals(prev, product);
      cartItems := Cart.AddToCart(prev, product);
    }

    /** `updateCartQuantity(productId, change)` */
    method UpdateCartQuantity(productId: int, change: int)
      requires Valid()
      modifies this`cartItems
      ensures Valid()
      ensures cartItems == Cart.UpdateCartQuantity(old(cartItems), productId, change)
    {
      var prev := cartItems;
      Cart.UpdateCartQuantityProducts(prev, productId, change);
      Cart.UpdateCartQuantityWellFormed(prev, productId, change);
      cartItems := Cart.UpdateCartQuantity(prev, productId, change);
    }
  }
}
