/**
 * The shopping cart as a list of lines, and the pure updaters that
 * `addToCart` and `updateCartQuantity` hand to `setCartItems`, with the
 * derived `cartTotal` and `cartCount`.
 */
module Cart {
  import opened Wrappers
  import opened Catalog

  /** A cart line: the product as it was when added (`{...product}`) plus its quantity. */
  datatype CartItem = CartItem(product: Product, quantity: int)

  /** At most one line per product id, and every quantity at least one. */
  ghost predicate WellFormed(cart: seq<CartItem>)
  {
    && (forall i, j :: 0 <= i < j < |cart| ==> cart[i].product.id != cart[j].product.id)
    && (forall i :: 0 <= i < |cart| ==> cart[i].quantity >= 1)
  }

  /** `cart.find(item => item.id === id)`: the first line with that id, if any. */
  function Find(cart: seq<CartItem>, id: int): (r: Option<CartItem>)
    ensures r.Some? <==> exists i :: 0 <= i < |cart| && cart[i].product.id == id
    ensures r.Some? ==> r.value in cart && r.value.product.id == id
    ensures r.Some? ==> exists i :: (0 <= i < |cart| && cart[i] == r.value &&
                                     forall j :: 0 <= j < i ==> cart[j].product.id != id)
  {
    if cart == [] then None
    else if cart[0].product.id == id then Some(cart[0])
    else
      var r := Find(cart[1..], id);
      assert forall i :: 1 <= i < |cart| ==> cart[i] == cart[1..][i - 1];
      assert r.Some? ==> exists i :: (1 <= i < |cart| && cart[i] == r.value &&
                                      forall j :: 0 <= j < i ==> cart[j].product.id != id);
      r
  }

  /** The `map` of `addToCart`: lines with the id gain one unit, the others are kept. */
  function IncrementLine(cart: seq<CartItem>, id: int): seq<CartItem>
  {
    seq(|cart|, i requires 0 <= i < |cart| =>
      if cart[i].product.id == id then cart[i].(quantity := cart[i].quantity + 1) else cart[i])
  }

  /** The updater of `addToCart(product)`. */
  function AddToCart(cart: seq<CartItem>, product: Product): seq<CartItem>
  {
    if Find(cart, product.id).Some? then IncrementLine(cart, product.id)
    else cart + [CartItem(product, 1)]
  }

  /**
   * The `map` of `updateCartQuantity`: a line with the id takes the new
   * quantity only when it stays positive, and is returned as it was otherwise.
   */
  function ChangeLine(cart: seq<CartItem>, id: int, change: int): seq<CartItem>
  {
    seq(|cart|, i requires 0 <= i < |cart| =>
      if cart[i].product.id == id && cart[i].quantity + change > 0
      then cart[i].(quantity := cart[i].quantity + change)
      else cart[i])
  }

  /** `.filter(item => item.quantity > 0)`, keeping the order of the lines. */
  function KeepPositive(cart: seq<CartItem>): seq<CartItem>
  {
    if cart == [] then []
    else
      var last := cart[|cart| - 1];
      KeepPositive(cart[..|cart| - 1]) + (if last.quantity > 0 then [last] else [])
  }

  /** The updater of `updateCartQuantity(productId, change)`. */
  function UpdateCartQuantity(cart: seq<CartItem>, productId: int, change: int): seq<CartItem>
  {
    KeepPositive(ChangeLine(cart, productId, change))
  }

  function LineTotal(line: CartItem): int
  {
    line.product.price * line.quantity
  }

  /** `cartItems.reduce((sum, item) => sum + item.price * item.quantity, 0)`, in cents. */
  function CartTotal(cart: seq<CartItem>): int
  {
    if cart == [] then 0 else CartTotal(cart[..|cart| - 1]) + LineTotal(cart[|cart| - 1])
  }

  /** `cartItems.reduce((sum, item) => sum + item.quantity, 0)` */
  function CartCount(cart: seq<CartItem>): int
  {
    if cart == [] then 0 else CartCount(cart[..|cart| - 1]) + cart[|cart| - 1].quantity
  }

  /** Changing a line's quantity by `d` changes its total by `d` times its price. */
  lemma LineTotalChange(line: CartItem, d: int)
    ensures LineTotal(line.(quantity := line.quantity + d)) == LineTotal(line) + line.product.price * d
  {
  }

  /** One more unit of a line adds one unit price to its total. */
  lemma LineTotalIncrement(line: CartItem)
    ensures LineTotal(line.(quantity := line.quantity + 1)) == LineTotal(line) + line.product.price
  {
    LineTotalChange(line, 1);
  }

  /** Replacing one line changes the totals by that line's difference alone. */
  lemma {:induction false} TotalsReplaceLine(cart: seq<CartItem>, k: nat, line: CartItem)
    requires k < |cart|
    ensures CartTotal(cart[k := line]) == CartTotal(cart) - LineTotal(cart[k]) + LineTotal(line)
    ensures CartCount(cart[k := line]) == CartCount(cart) - cart[k].quantity + line.quantity
    decreases |cart|
  {
    var n := |cart| - 1;
    if k < n {
      TotalsReplaceLine(cart[..n], k, line);
      assert cart[k := line][..n] == cart[..n][k := line];
    } else {
      assert cart[k := line][..n] == cart[..n];
    }
  }

  /** One more unit on line `k` adds one item and that line's unit price to the totals. */
  lemma TotalsIncrementLine(cart: seq<CartItem>, k: nat)
    requires k < |cart|
    ensures CartCount(cart[k := cart[k].(quantity := cart[k].quantity + 1)]) == CartCount(cart) + 1
    ensures CartTotal(cart[k := cart[k].(quantity := cart[k].quantity + 1)]) == CartTotal(cart) + cart[k].product.price
  {
    LineTotalIncrement(cart[k]);
    TotalsReplaceLine(cart, k, cart[k].(quantity := cart[k].quantity + 1));
  }

  /** With a line whose quantity is positive everywhere, the final filter removes nothing. */
  lemma {:induction false} KeepPositiveKeepsAll(cart: seq<CartItem>)
    requires forall i :: 0 <= i < |cart| ==> cart[i].quantity > 0
    ensures KeepPositive(cart) == cart
    decreases |cart|
  {
    if cart != [] {
      var init, last := cart[..|cart| - 1], cart[|cart| - 1];
      KeepPositiveKeepsAll(init);
      assert cart == init + [last];
    }
  }

  /** The final filter keeps exactly the lines with a positive quantity. */
  lemma {:induction false} KeepPositiveMembers(cart: seq<CartItem>)
    ensures forall line :: line in KeepPositive(cart) <==> line in cart && line.quantity > 0
    decreases |cart|
  {
    if cart != [] {
      var init, last := cart[..|cart| - 1], cart[|cart| - 1];
      KeepPositiveMembers(init);
      assert cart == init + [last];
    }
  }

  /** `addToCart` with a line for the product's id bumps that line alone. */
  lemma AddToCartExisting(cart: seq<CartItem>, product: Product, k: nat)
    requires WellFormed(cart)
    requires k < |cart| && cart[k].product.id == product.id
    ensures AddToCart(cart, product) == cart[k := cart[k].(quantity := cart[k].quantity + 1)]
  {
    assert Find(cart, product.id).Some?;
    assert forall i :: 0 <= i < |cart| && i != k ==> cart[i].product.id != product.id;
  }

  /**
   * `addToCart`: when a line has the product's id, only that line's quantity
   * grows by one, in place; otherwise one new line with quantity 1 is
   * appended at the end.
   */
  lemma AddToCartEffect(cart: seq<CartItem>, product: Product)
    requires WellFormed(cart)
    ensures forall k :: 0 <= k < |cart| && cart[k].product.id == product.id ==>
      AddToCart(cart, product) == cart[k := cart[k].(quantity := cart[k].quantity + 1)]
    ensures (forall k :: 0 <= k < |cart| ==> cart[k].product.id != product.id) ==>
      AddToCart(cart, product) == cart + [CartItem(product, 1)]
  {
    forall k | 0 <= k < |cart| && cart[k].product.id == product.id {
      AddToCartExisting(cart, product, k);
    }
  }

  /** `addToCart` keeps one line per id and positive quantities. */
  lemma AddToCartWellFormed(cart: seq<CartItem>, product: Product)
    requires WellFormed(cart)
    ensures WellFormed(AddToCart(cart, product))
  {
    AddToCartEffect(cart, product);
  }

  /** After `addToCart`, every line holds the product at the same place before, or the added product. */
  lemma AddToCartProducts(cart: seq<CartItem>, product: Product)
    ensures forall i :: 0 <= i < |AddToCart(cart, product)| ==>
      AddToCart(cart, product)[i].product == product ||
      (i < |cart| && AddToCart(cart, product)[i].product == cart[i].product)
  {
  }

  /** Bumping an existing line adds one item and one unit price to the totals. */
  lemma AddToCartTotalsAt(cart: seq<CartItem>, product: Product, k: nat)
    requires WellFormed(cart)
    requires k < |cart| && cart[k].product.id == product.id && cart[k].product.price == product.price
    ensures CartCount(AddToCart(cart, product)) == CartCount(cart) + 1
    ensures CartTotal(AddToCart(cart, product)) == CartTotal(cart) + product.price
  {
    AddToCartExisting(cart, product, k);
    TotalsIncrementLine(cart, k);
  }

  /** A new line of one unit adds one item and one unit price to the totals. */
  lemma AddToCartTotalsNew(cart: seq<CartItem>, product: Product)
    requires forall k :: 0 <= k < |cart| ==> cart[k].product.id != product.id
    ensures CartCount(AddToCart(cart, product)) == CartCount(cart) + 1
    ensures CartTotal(AddToCart(cart, product)) == CartTotal(cart) + product.price
  {
    var r := cart + [CartItem(product, 1)];
    assert Find(cart, product.id).None?;
    assert AddToCart(cart, product) == r;
    assert r[..|r| - 1] == cart;
  }

  /**
   * `addToCart` raises the item count by exactly one and the total by exactly
   * the product's price, provided a line already holding the product was
   * copied from a product with the same price.
   */
  lemma AddToCartTotals(cart: seq<CartItem>, product: Product)
    requires WellFormed(cart)
    requires forall k :: 0 <= k < |cart| && cart[k].product.id == product.id ==> cart[k].product.price == product.price
    ensures CartCount(AddToCart(cart, product)) == CartCount(cart) + 1
    ensures CartTotal(AddToCart(cart, product)) == CartTotal(cart) + product.price
  {
    if k :| 0 <= k < |cart| && cart[k].product.id == product.id {
      AddToCartTotalsAt(cart, product, k);
    } else {
      AddToCartTotalsNew(cart, product);
    }
  }

  /** The `map` step of `updateCartQuantity` touches at most the one line with the id. */
  lemma ChangeLineAt(cart: seq<CartItem>, id: int, change: int, k: nat)
    requires WellFormed(cart)
    requires k < |cart| && cart[k].product.id == id
    ensures cart[k].quantity + change > 0 ==>
      ChangeLine(cart, id, change) == cart[k := cart[k].(quantity := cart[k].quantity + change)]
    ensures cart[k].quantity + change <= 0 ==> ChangeLine(cart, id, change) == cart
  {
    assert forall i :: 0 <= i < |cart| && i != k ==> cart[i].product.id != id;
  }

  /**
   * `updateCartQuantity(id, change)`: when the line's quantity plus the change
   * is positive, only that line takes the new quantity; when it is not, the
   * cart is unchanged (the line is kept, not removed); with no line for the
   * id, the cart is unchanged.
   */
  lemma UpdateCartQuantityEffect(cart: seq<CartItem>, id: int, change: int)
    requires WellFormed(cart)
    ensures forall k :: 0 <= k < |cart| && cart[k].product.id == id && cart[k].quantity + change > 0 ==>
      UpdateCartQuantity(cart, id, change) == cart[k := cart[k].(quantity := cart[k].quantity + change)]
    ensures forall k :: 0 <= k < |cart| && cart[k].product.id == id && cart[k].quantity + change <= 0 ==>
      UpdateCartQuantity(cart, id, change) == cart
    ensures (forall k :: 0 <= k < |cart| ==> cart[k].product.id != id) ==> UpdateCartQuantity(cart, id, change) == cart
  {
    var mapped := ChangeLine(cart, id, change);
    assert forall i :: 0 <= i < |mapped| ==> mapped[i].quantity > 0;
    KeepPositiveKeepsAll(mapped);
    forall k | 0 <= k < |cart| && cart[k].product.id == id {
      ChangeLineAt(cart, id, change, k);
    }
  }

  /** `updateCartQuantity` keeps every line, in place, with its product. */
  lemma UpdateCartQuantityProducts(cart: seq<CartItem>, id: int, change: int)
    requires WellFormed(cart)
    ensures |UpdateCartQuantity(cart, id, change)| == |cart|
    ensures forall i :: 0 <= i < |cart| ==> UpdateCartQuantity(cart, id, change)[i].product == cart[i].product
  {
    var mapped := ChangeLine(cart, id, change);
    assert forall i :: 0 <= i < |mapped| ==> mapped[i].quantity > 0;
    KeepPositiveKeepsAll(mapped);
  }

  /** `updateCartQuantity` keeps one line per id and positive quantities. */
  lemma UpdateCartQuantityWellFormed(cart: seq<CartItem>, id: int, change: int)
    requires WellFormed(cart)
    ensures WellFormed(UpdateCartQuantity(cart, id, change))
  {
    UpdateCartQuantityEffect(cart, id, change);
  }

  /** An applied change moves the count by `change` and the total by `change` times the price. */
  lemma UpdateCartQuantityTotalsAt(cart: seq<CartItem>, id: int, change: int, k: nat)
    requires WellFormed(cart)
    requires k < |cart| && cart[k].product.id == id && cart[k].quantity + change > 0
    ensures CartCount(UpdateCartQuantity(cart, id, change)) == CartCount(cart) + change
    ensures CartTotal(UpdateCartQuantity(cart, id, change)) == CartTotal(cart) + cart[k].product.price * change
  {
    var line := cart[k].(quantity := cart[k].quantity + change);
    UpdateCartQuantityEffect(cart, id, change);
    assert UpdateCartQuantity(cart, id, change) == cart[k := line];
    TotalsReplaceLine(cart, k, line);
    LineTotalChange(cart[k], change);
  }

  /**
   * `updateCartQuantity` moves the item count by `change` and the total by
   * `change` times the line's price when the change is applied, and leaves
   * both alone otherwise.
   */
  lemma UpdateCartQuantityTotals(cart: seq<CartItem>, id: int, change: int)
    requires WellFormed(cart)
    ensures forall k :: 0 <= k < |cart| && cart[k].product.id == id && cart[k].quantity + change > 0 ==>
      && CartCount(UpdateCartQuantity(cart, id, change)) == CartCount(cart) + change
      && CartTotal(UpdateCartQuantity(cart, id, change)) == CartTotal(cart) + cart[k].product.price * change
    ensures (forall k :: 0 <= k < |cart| && cart[k].product.id == id ==> cart[k].quantity + change <= 0) ==>
      UpdateCartQuantity(cart, id, change) == cart
  {
    forall k | 0 <= k < |cart| && cart[k].product.id == id && cart[k].quantity + change > 0 {
      UpdateCartQuantityTotalsAt(cart, id, change, k);
    }
    UpdateCartQuantityEffect(cart, id, change);
    if k :| 0 <= k < |cart| && cart[k].product.id == id {
      assert cart[k].quantity + change <= 0 ==> UpdateCartQuantity(cart, id, change) == cart;
    }
  }

  /**
   * Two products A ($10) and B ($20): adding A twice and B once gives three
   * items worth $40; lowering A by two then leaves the cart as it was, because
   * a change that would bring a quantity to zero is ignored.
   */
  lemma CartScenario(a: Product, b: Product)
    requires a.id != b.id && a.price == 1000 && b.price == 2000
    ensures var cart := AddToCart(AddToCart(AddToCart([], a), a), b);
      && cart == [CartItem(a, 2), CartItem(b, 1)]
      && CartCount(cart) == 3 && CartTotal(cart) == 4000
      && UpdateCartQuantity(cart, a.id, -2) == cart
  {
    var one := AddToCart([], a);
    assert one == [CartItem(a, 1)];
    var two := AddToCart(one, a);
    assert Find(one, a.id).Some?;
    assert two == [CartItem(a, 2)];
    var cart := AddToCart(two, b);
    assert cart == [CartItem(a, 2), CartItem(b, 1)];
    assert cart[..1] == two && two[..0] == [];
    assert LineTotal(two[0]) == 2000 && LineTotal(cart[1]) == 2000;
    assert CartTotal(two) == 2000 && CartCount(two) == 2;
    assert CartTotal(cart) == CartTotal(two) + LineTotal(cart[1]);
    assert CartCount(cart) == CartCount(two) + cart[1].quantity;
    assert WellFormed(cart);
    UpdateCartQuantityEffect(cart, a.id, -2);
  }
}
