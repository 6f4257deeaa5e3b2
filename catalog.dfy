/** The static product catalog and the category table derived from it. */
module Catalog {

  /** One catalog product; `price` is in cents and `rating` in tenths of a star. */
  datatype Product = Product(
    id: int,
    name: string,
    category: string,
    price: int,
    image: string,
    rating: int,
    description: string)

  /** One tile of the category bar; `count` is derived from the catalog. */
  datatype Category = Category(id: string, name: string, icon: string, count: nat)

  const ALL := "all"
  const ELECTRONICS := "electronics"
  const CLOTHING := "clothing"
  const ACCESSORIES := "accessories"

  const PRODUCTS_DATA: seq<Product> := [
    Product(1, "Wireless Headphones", ELECTRONICS, 7999, "🎧", 45, "Premium wireless headphones with noise cancellation and 30-hour battery life."),
    Product(2, "Smart Watch", ELECTRONICS, 29999, "⌚", 47, "Advanced fitness tracking, heart rate monitor, and smartphone notifications."),
    Product(3, "Bluetooth Speaker", ELECTRONICS, 4999, "🔊", 43, "Portable waterproof speaker with 360-degree sound and 12-hour playtime."),
    Product(4, "Laptop Stand", ELECTRONICS, 3499, "💻", 46, "Ergonomic aluminum laptop stand with adjustable height and angle."),
    Product(5, "USB-C Hub", ELECTRONICS, 4599, "🔌", 44, "7-in-1 USB-C hub with HDMI, USB 3.0, and SD card reader."),
    Product(6, "Wireless Mouse", ELECTRONICS, 2499, "🖱", 42, "Ergonomic wireless mouse with precision tracking and long battery life."),
    Product(7, "Classic T-Shirt", CLOTHING, 2499, "👕", 44, "100% organic cotton t-shirt, breathable and comfortable for everyday wear."),
    Product(8, "Denim Jeans", CLOTHING, 5999, "👖", 46, "Classic fit denim jeans with stretch fabric for maximum comfort."),
    Product(9, "Leather Jacket", CLOTHING, 19999, "🧥", 48, "Genuine leather jacket with premium stitching and timeless design."),
    Product(10, "Running Shoes", CLOTHING, 8999, "👟", 45, "Lightweight running shoes with cushioned sole and breathable mesh."),
    Product(11, "Hoodie", CLOTHING, 4499, "🧥", 43, "Cozy fleece-lined hoodie with adjustable drawstring and kangaroo pocket."),
    Product(12, "Summer Dress", CLOTHING, 5499, "👗", 47, "Flowy summer dress with vibrant patterns, perfect for warm weather."),
    Product(13, "Leather Wallet", ACCESSORIES, 3999, "👛", 45, "Handcrafted leather wallet with RFID protection and multiple card slots."),
    Product(14, "Sunglasses", ACCESSORIES, 6999, "🕶", 46, "UV400 protection sunglasses with polarized lenses and stylish frame."),
    Product(15, "Backpack", ACCESSORIES, 7999, "🎒", 47, "Durable water-resistant backpack with laptop compartment and USB port."),
    Product(16, "Watch Band", ACCESSORIES, 1999, "⌚", 42, "Premium silicone watch band, comfortable and sweat-resistant."),
    Product(17, "Phone Case", ACCESSORIES, 1499, "📱", 44, "Shockproof phone case with raised edges for screen protection."),
    Product(18, "Belt", ACCESSORIES, 2999, "🎀", 43, "Genuine leather belt with reversible buckle, fits all occasions.")
  ]

  /** The category bar: "all" counts the whole catalog, the others count their products. */
  function CategoriesOf(catalog: seq<Product>): seq<Category>
  {
    [ Category(ALL, "All Products", "🏪", |catalog|),
      Category(ELECTRONICS, "Electronics", "💻", CountInCategory(catalog, ELECTRONICS)),
      Category(CLOTHING, "Clothing", "👕", CountInCategory(catalog, CLOTHING)),
      Category(ACCESSORIES, "Accessories", "👜", CountInCategory(catalog, ACCESSORIES)) ]
  }

  const CATEGORIES: seq<Category> := CategoriesOf(PRODUCTS_DATA)

  /** `catalog.filter(p => p.category === cat).length` */
  function CountInCategory(catalog: seq<Product>, cat: string): (n: nat)
    ensures n <= |catalog|
    ensures n == 0 <==> forall i :: 0 <= i < |catalog| ==> catalog[i].category != cat
    ensures n == |catalog| <==> forall i :: 0 <= i < |catalog| ==> catalog[i].category == cat
  {
    if catalog == [] then 0
    else
      var last := catalog[|catalog| - 1];
      CountInCategory(catalog[..|catalog| - 1], cat) + (if last.category == cat then 1 else 0)
  }

  /** Counting a concatenation counts each part. */
  lemma {:induction false} CountAppend(a: seq<Product>, b: seq<Product>, cat: string)
    ensures CountInCategory(a + b, cat) == CountInCategory(a, cat) + CountInCategory(b, cat)
    decreases |b|
  {
    if b == [] {
      assert a + b == a;
    } else {
      assert (a + b)[..|a + b| - 1] == a + b[..|b| - 1];
      CountAppend(a, b[..|b| - 1], cat);
    }
  }

  /**
   * When every product lies in one of the three categories, the three
   * category counts add up to the size of the catalog.
   */
  lemma {:induction false} CountsPartition(catalog: seq<Product>)
    requires forall i :: 0 <= i < |catalog| ==> catalog[i].category in {ELECTRONICS, CLOTHING, ACCESSORIES}
    ensures |catalog| == CountInCategory(catalog, ELECTRONICS) + CountInCategory(catalog, CLOTHING)
                         + CountInCategory(catalog, ACCESSORIES)
    decreases |catalog|
  {
    if catalog != [] {
      CountsPartition(catalog[..|catalog| - 1]);
    }
  }

  /** Product ids in the catalog are 1, 2, ..., 18 in order. */
  lemma CatalogIdsAreOneBased()
    ensures forall i :: 0 <= i < |PRODUCTS_DATA| ==> PRODUCTS_DATA[i].id == i + 1
  {
  }

  /** No two catalog entries share an id. */
  lemma CatalogIdsUnique()
    ensures forall i, j :: 0 <= i < |PRODUCTS_DATA| && 0 <= j < |PRODUCTS_DATA| && PRODUCTS_DATA[i].id == PRODUCTS_DATA[j].id ==> i == j
  {
    CatalogIdsAreOneBased();
  }

  /** Every catalog product is in one of the three real categories. */
  lemma CatalogCategoriesKnown()
    ensures forall i :: 0 <= i < |PRODUCTS_DATA| ==> PRODUCTS_DATA[i].category in {ELECTRONICS, CLOTHING, ACCESSORIES}
  {
  }

  /** Every catalog price lies within the initial price slider range of $0 to $300. */
  lemma CatalogPricesWithinSlider()
    ensures forall i :: 0 <= i < |PRODUCTS_DATA| ==> 0 <= PRODUCTS_DATA[i].price <= 30000
  {
  }

  /**
   * The category table of a catalog whose products all lie in the three real
   * categories: the "all" tile counts every product, each other tile counts
   * the products of its category, and the "all" count is the sum of the
   * other three.
   */
  lemma CategoryTableCounts(catalog: seq<Product>)
    requires forall i :: 0 <= i < |catalog| ==> catalog[i].category in {ELECTRONICS, CLOTHING, ACCESSORIES}
    ensures var table := CategoriesOf(catalog);
      && |table| == 4 && table[0].id == ALL && table[0].count == |catalog|
      && (forall k :: 1 <= k < |table| ==> table[k].id != ALL && table[k].count == CountInCategory(catalog, table[k].id))
      && table[0].count == table[1].count + table[2].count + table[3].count
  {
    CountsPartition(catalog);
  }

  /** A catalog listed as three groups, one per category, counts each group's length. */
  lemma {:induction false} CountGroups(e: seq<Product>, c: seq<Product>, a: seq<Product>)
    requires forall i :: 0 <= i < |e| ==> e[i].category == ELECTRONICS
    requires forall i :: 0 <= i < |c| ==> c[i].category == CLOTHING
    requires forall i :: 0 <= i < |a| ==> a[i].category == ACCESSORIES
    ensures CountInCategory(e + c + a, ELECTRONICS) == |e|
    ensures CountInCategory(e + c + a, CLOTHING) == |c|
    ensures CountInCategory(e + c + a, ACCESSORIES) == |a|
  {
    forall cat | cat in {ELECTRONICS, CLOTHING, ACCESSORIES}
      ensures CountInCategory(e + c + a, cat) == CountInCategory(e, cat) + CountInCategory(c, cat) + CountInCategory(a, cat)
    {
      CountAppend(e, c, cat);
      CountAppend(e + c, a, cat);
    }
  }

  /** Each real category holds six of the catalog's products. */
  lemma CatalogGroupCounts()
    ensures CountInCategory(PRODUCTS_DATA, ELECTRONICS) == 6
    ensures CountInCategory(PRODUCTS_DATA, CLOTHING) == 6
    ensures CountInCategory(PRODUCTS_DATA, ACCESSORIES) == 6
  {
    var e, c, a := PRODUCTS_DATA[..6], PRODUCTS_DATA[6..12], PRODUCTS_DATA[12..];
    assert PRODUCTS_DATA == e + c + a;
    forall i | 0 <= i < 6
      ensures e[i].category == ELECTRONICS && c[i].category == CLOTHING && a[i].category == ACCESSORIES
    {
      assert i == 0 || i == 1 || i == 2 || i == 3 || i == 4 || i == 5;
    }
    CountGroups(e, c, a);
  }

  /** The shipped category table: 18 products in all, six in each real category. */
  lemma CatalogCategoryTable()
    ensures |CATEGORIES| == 4 && CATEGORIES[0].count == |PRODUCTS_DATA| == 18
    ensures forall k :: 1 <= k < |CATEGORIES| ==> CATEGORIES[k].count == CountInCategory(PRODUCTS_DATA, CATEGORIES[k].id)
    ensures CATEGORIES[1].count == 6 && CATEGORIES[2].count == 6 && CATEGORIES[3].count == 6
    ensures CATEGORIES[0].count == CATEGORIES[1].count + CATEGORIES[2].count + CATEGORIES[3].count
  {
    CatalogCategoriesKnown();
    CategoryTableCounts(PRODUCTS_DATA);
    CatalogGroupCounts();
  }
}
