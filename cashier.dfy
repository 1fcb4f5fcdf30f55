/** The cashier page (src/pages/CashierPage.tsx): the add-to-cart guard, the in-cart quantity
    lookup and checkout. The cart itself lives in a context that is not part of this model:
    it is a `seq<CartItem>`, its `getTotal()` is the value `cartTotal` and its `addToCart` a
    function the caller supplies. */
module Cashier {
  import opened Types
  import opened Catalog
  import Storage

  const OUT_OF_STOCK := "Stok habis!"
  const NOT_ENOUGH_STOCK := "Stok tidak mencukupi!"
  const CHECKOUT_FAILED := "Gagal memproses transaksi"

  /** Some cart line holds the product with this id. */
  predicate InCart(items: seq<CartItem>, id: string)
  {
    exists k :: 0 <= k < |items| && items[k].product.id == id
  }

  /** Position k holds the first cart line for this product id. */
  predicate IsFirstLine(items: seq<CartItem>, id: string, k: int)
  {
    0 <= k < |items| && items[k].product.id == id && forall j :: 0 <= j < k ==> items[j].product.id != id
  }

  /** `items.find(item => item.product.id === id)`. */
  function FindLine(items: seq<CartItem>, id: string): (r: Option<CartItem>)
    ensures r.Some? <==> InCart(items, id)
    ensures r.Some? ==> exists k :: IsFirstLine(items, id, k) && items[k] == r.value
  {
    if items == [] then None
    else if items[0].product.id == id then
      assert IsFirstLine(items, id, 0);
      Some(items[0])
    else
      var r := FindLine(items[1..], id);
      assert forall k :: 0 < k < |items| ==> items[k] == items[1..][k - 1];
      if r.Some? then
        ghost var k :| IsFirstLine(items[1..], id, k) && items[1..][k] == r.value;
        assert IsFirstLine(items, id, k + 1);
        r
      else r
  }

  /** `getCartItemQuantity`: the quantity on the product's cart line, or 0 when it has none. */
  function CartItemQuantity(items: seq<CartItem>, id: string): (q: int)
    ensures !InCart(items, id) ==> q == 0
    ensures InCart(items, id) ==> exists k :: IsFirstLine(items, id, k) && q == items[k].quantity
  {
    match FindLine(items, id)
    case Some(line) => line.quantity
    case None => 0
  }

  /** `handleAddToCart`: the new cart and the alert shown, if any. `addToCart` is called exactly when
      the product is in stock and its cart line (if any) is below the stock; otherwise the cart is
      left alone and the out-of-stock alert takes precedence. */
  function HandleAddToCart(items: seq<CartItem>, product: Product, addToCart: (seq<CartItem>, Product) -> seq<CartItem>)
    : (r: (seq<CartItem>, Option<string>))
    ensures r.1.None? <==> product.stock > 0 && CartItemQuantity(items, product.id) < product.stock
    ensures r.1.None? ==> r.0 == addToCart(items, product)
    ensures r.1.Some? ==> r.0 == items
    ensures product.stock <= 0 ==> r.1 == Some(OUT_OF_STOCK)
    ensures product.stock > 0 && CartItemQuantity(items, product.id) >= product.stock ==> r.1 == Some(NOT_ENOUGH_STOCK)
  {
    if product.stock <= 0 then (items, Some(OUT_OF_STOCK))
    else
      var existing := FindLine(items, product.id);
      if existing.Some? && existing.value.quantity >= product.stock then (items, Some(NOT_ENOUGH_STOCK))
      else (addToCart(items, product), None)
  }

  /** The catalogue after `updateStock` has run for each of `lines`, in cart order. */
  function ApplySales(ps: seq<Product>, lines: seq<CartItem>): (r: seq<Product>)
    ensures |r| == |ps|
    ensures forall k :: 0 <= k < |ps| ==> r[k].id == ps[k].id
    decreases |lines|
  {
    if lines == [] then ps
    else
      var last := lines[|lines| - 1];
      StockSold(ApplySales(ps, lines[..|lines| - 1]), last.product.id, last.quantity)
  }

  /** Selling one more line applies one more stock update to the result. */
  lemma ApplySalesStep(ps: seq<Product>, lines: seq<CartItem>, i: int)
    requires 0 <= i < |lines|
    ensures ApplySales(ps, lines[..i + 1]) ==
      StockSold(ApplySales(ps, lines[..i]), lines[i].product.id, lines[i].quantity)
  {
    assert lines[..i + 1][..i] == lines[..i];
  }

  /** Units of the product with this id over all cart lines. */
  function QtySold(lines: seq<CartItem>, id: string): int
    decreases |lines|
  {
    if lines == [] then 0
    else
      var last := lines[|lines| - 1];
      QtySold(lines[..|lines| - 1], id) + (if last.product.id == id then last.quantity else 0)
  }

  predicate NonNegativeQuantities(lines: seq<CartItem>)
  {
    forall j :: 0 <= j < |lines| ==> lines[j].quantity >= 0
  }

  /** No two cart lines are for the same product id. */
  predicate DistinctLines(lines: seq<CartItem>)
  {
    forall i, j :: 0 <= i < j < |lines| ==> lines[i].product.id != lines[j].product.id
  }

  /** A product is in the cart exactly when it is in all lines but the last, or it is the last line's. */
  lemma InCartSnoc(lines: seq<CartItem>, id: string)
    requires lines != []
    ensures InCart(lines, id) <==>
      InCart(lines[..|lines| - 1], id) || lines[|lines| - 1].product.id == id
  {
    var init := lines[..|lines| - 1];
    if InCart(init, id) {
      var k :| 0 <= k < |init| && init[k].product.id == id;
      assert lines[k] == init[k];
    }
    if InCart(lines, id) && lines[|lines| - 1].product.id != id {
      var k :| 0 <= k < |lines| && lines[k].product.id == id;
      assert init[k] == lines[k];
    }
  }

  /** What the checkout loop leaves at position k: the first product with an id in the cart ends at its
      stock minus all units sold of it, floored at zero; every other product is as it was. */
  function AfterSales(ps: seq<Product>, lines: seq<CartItem>, k: int): Product
    requires 0 <= k < |ps|
  {
    if IsFirstWithId(ps, ps[k].id, k) && InCart(lines, ps[k].id)
    then ps[k].(stock := Clamp(ps[k].stock - QtySold(lines, ps[k].id)))
    else ps[k]
  }

  /** The checkout loop's effect on one position of the catalogue. */
  lemma {:induction false} SalesEffectAt(ps: seq<Product>, lines: seq<CartItem>, k: int)
    requires NonNegativeQuantities(lines) && 0 <= k < |ps|
    ensures ApplySales(ps, lines)[k] == AfterSales(ps, lines, k)
    decreases |lines|
  {
    if lines != [] {
      var init, last := lines[..|lines| - 1], lines[|lines| - 1];
      assert NonNegativeQuantities(init) by {
        forall j | 0 <= j < |init| ensures init[j].quantity >= 0 {
          assert init[j] == lines[j];
        }
      }
      assert last.quantity >= 0;
      SalesEffectAt(ps, init, k);
      var before := ApplySales(ps, init);
      assert ApplySales(ps, lines) == StockSold(before, last.product.id, last.quantity);
      var id := ps[k].id;
      InCartSnoc(lines, id);
      if !InCart(init, id) {
        QtySoldAbsent(init, id);
      }
      assert QtySold(lines, id) == QtySold(init, id) + (if last.product.id == id then last.quantity else 0);
      assert IsFirstWithId(before, last.product.id, k) <==> IsFirstWithId(ps, last.product.id, k);
    }
  }

  /** The effect of the checkout loop on the whole catalogue. */
  lemma SalesEffect(ps: seq<Product>, lines: seq<CartItem>)
    requires NonNegativeQuantities(lines)
    ensures forall k :: 0 <= k < |ps| ==> ApplySales(ps, lines)[k] == AfterSales(ps, lines, k)
  {
    forall k | 0 <= k < |ps| ensures ApplySales(ps, lines)[k] == AfterSales(ps, lines, k) {
      SalesEffectAt(ps, lines, k);
    }
  }

  /** Whatever the quantities, a product sold at checkout never ends with negative stock. */
  lemma {:induction false} SoldStockNeverNegative(ps: seq<Product>, lines: seq<CartItem>, k: int)
    requires 0 <= k < |ps| && IsFirstWithId(ps, ps[k].id, k) && InCart(lines, ps[k].id)
    ensures ApplySales(ps, lines)[k].stock >= 0
    decreases |lines|
  {
    var init, last := lines[..|lines| - 1], lines[|lines| - 1];
    var before := ApplySales(ps, init);
    InCartSnoc(lines, ps[k].id);
    if last.product.id == ps[k].id {
      assert IsFirstWithId(before, last.product.id, k);
    } else {
      SoldStockNeverNegative(ps, init, k);
    }
  }

  /** A product not in any line has nothing sold. */
  lemma {:induction false} QtySoldAbsent(lines: seq<CartItem>, id: string)
    requires forall j :: 0 <= j < |lines| ==> lines[j].product.id != id
    ensures QtySold(lines, id) == 0
    decreases |lines|
  {
    if lines != [] {
      var init := lines[..|lines| - 1];
      assert forall j :: 0 <= j < |init| ==> init[j] == lines[j];
      QtySoldAbsent(init, id);
    }
  }

  /** One line per product and a quantity within stock: that product's stock drops by exactly the
      quantity and nothing else about it changes. */
  lemma ExactSale(ps: seq<Product>, lines: seq<CartItem>, j: int, k: int)
    requires DistinctLines(lines)
    requires 0 <= j < |lines| && IsFirstWithId(ps, lines[j].product.id, k)
    requires lines[j].quantity <= ps[k].stock
    ensures ApplySales(ps, lines)[k] == ps[k].(stock := ps[k].stock - lines[j].quantity)
  {
    DistinctSale(ps, lines, j, k);
  }

  /** One line per product: whatever the quantities, that product's stock is decreased once by its line's
      quantity, floored at zero. */
  lemma {:induction false} DistinctSale(ps: seq<Product>, lines: seq<CartItem>, j: int, k: int)
    requires DistinctLines(lines)
    requires 0 <= j < |lines| && IsFirstWithId(ps, lines[j].product.id, k)
    ensures ApplySales(ps, lines)[k] == ps[k].(stock := Clamp(ps[k].stock - lines[j].quantity))
    decreases |lines|
  {
    var init, last := lines[..|lines| - 1], lines[|lines| - 1];
    var id := lines[j].product.id;
    if j == |lines| - 1 {
      assert !InCart(init, id) by {
        forall i | 0 <= i < |init| ensures init[i].product.id != id {
          assert init[i] == lines[i];
        }
      }
      SaleOfLast(ps, lines, k);
    } else {
      assert DistinctLines(init) by {
        forall a, b | 0 <= a < b < |init| ensures init[a].product.id != init[b].product.id {
          assert init[a] == lines[a] && init[b] == lines[b];
        }
      }
      assert init[j] == lines[j];
      DistinctSale(ps, init, j, k);
      SaleOfOther(ps, lines, k);
    }
  }

  /** The last line sells the first product with its id; when no earlier line had that id, its stock is
      decreased once by that line's quantity. */
  lemma SaleOfLast(ps: seq<Product>, lines: seq<CartItem>, k: int)
    requires lines != [] && IsFirstWithId(ps, lines[|lines| - 1].product.id, k)
    requires !InCart(lines[..|lines| - 1], lines[|lines| - 1].product.id)
    ensures ApplySales(ps, lines)[k] == ps[k].(stock := Clamp(ps[k].stock - lines[|lines| - 1].quantity))
  {
    var init, last := lines[..|lines| - 1], lines[|lines| - 1];
    var before := ApplySales(ps, init);
    assert ApplySales(ps, lines) == StockSold(before, last.product.id, last.quantity);
    UnsoldUntouched(ps, init, k);
    SameIdsSameFirst(ps, before, last.product.id, k);
    FirstIsIndex(before, last.product.id, k);
  }

  /** The last line leaves a position holding another id as it was. */
  lemma SaleOfOther(ps: seq<Product>, lines: seq<CartItem>, k: int)
    requires lines != [] && 0 <= k < |ps| && ps[k].id != lines[|lines| - 1].product.id
    ensures ApplySales(ps, lines)[k] == ApplySales(ps, lines[..|lines| - 1])[k]
  {
    var last := lines[|lines| - 1];
    var before := ApplySales(ps, lines[..|lines| - 1]);
    assert ApplySales(ps, lines) == StockSold(before, last.product.id, last.quantity);
    assert before[k].id != last.product.id;
  }

  /** Two catalogues with the same ids position by position agree on which position is first for an id. */
  lemma SameIdsSameFirst(ps: seq<Product>, qs: seq<Product>, id: string, k: int)
    requires |qs| == |ps| && forall i :: 0 <= i < |ps| ==> qs[i].id == ps[i].id
    ensures IsFirstWithId(qs, id, k) <==> IsFirstWithId(ps, id, k)
  {
  }

  /** The first position with an id is the one `findIndex` returns. */
  lemma FirstIsIndex(ps: seq<Product>, id: string, k: int)
    requires IsFirstWithId(ps, id, k)
    ensures IndexOfId(ps, id) == k
  {
    var i := IndexOfId(ps, id);
    assert IsFirstWithId(ps, id, i);
  }

  /** A quantity beyond the stock still goes through, and that product's stock ends at zero. */
  lemma OversoldEndsAtZero(ps: seq<Product>, lines: seq<CartItem>, j: int, k: int)
    requires NonNegativeQuantities(lines)
    requires 0 <= j < |lines| && IsFirstWithId(ps, lines[j].product.id, k)
    requires lines[j].quantity > ps[k].stock
    ensures ApplySales(ps, lines)[k].stock == 0
  {
    QtySoldAtLeast(lines, j);
    SalesEffectAt(ps, lines, k);
  }

  /** With no negative quantities, the units sold of a line's product are at least that line's quantity. */
  lemma {:induction false} QtySoldAtLeast(lines: seq<CartItem>, j: int)
    requires NonNegativeQuantities(lines) && 0 <= j < |lines|
    ensures QtySold(lines, lines[j].product.id) >= lines[j].quantity
    decreases |lines|
  {
    var init := lines[..|lines| - 1];
    var id := lines[j].product.id;
    assert NonNegativeQuantities(init) by {
      forall i | 0 <= i < |init| ensures init[i].quantity >= 0 {
        assert init[i] == lines[i];
      }
    }
    if j == |lines| - 1 {
      QtySoldNonNegative(init, id);
    } else {
      assert init[j] == lines[j];
      QtySoldAtLeast(init, j);
    }
  }

  /** With no negative quantities, nothing is sold a negative number of times. */
  lemma {:induction false} QtySoldNonNegative(lines: seq<CartItem>, id: string)
    requires NonNegativeQuantities(lines)
    ensures QtySold(lines, id) >= 0
    decreases |lines|
  {
    if lines != [] {
      var init := lines[..|lines| - 1];
      assert forall i :: 0 <= i < |init| ==> init[i] == lines[i];
      QtySoldNonNegative(init, id);
    }
  }

  /** A product with no cart line, or shadowed by an earlier product with the same id, is untouched. */
  lemma {:induction false} UnsoldUntouched(ps: seq<Product>, lines: seq<CartItem>, k: int)
    requires 0 <= k < |ps| && (!InCart(lines, ps[k].id) || !IsFirstWithId(ps, ps[k].id, k))
    ensures ApplySales(ps, lines)[k] == ps[k]
    decreases |lines|
  {
    if lines != [] {
      var init, last := lines[..|lines| - 1], lines[|lines| - 1];
      var id := ps[k].id;
      var before := ApplySales(ps, init);
      assert ApplySales(ps, lines) == StockSold(before, last.product.id, last.quantity);
      InCartSnoc(lines, id);
      UnsoldUntouched(ps, init, k);
      SameIdsSameFirst(ps, before, id, k);
      assert k != IndexOfId(before, last.product.id);
    }
  }

  /** `user?.id || ''`: the signed-in user's id, or the empty id when nobody is signed in. */
  function UserIdOf(user: Option<User>): (id: string)
    ensures user.Some? ==> id == user.value.id
    ensures user.None? ==> id == ""
  {
    if user.Some? then user.value.id else ""
  }

  /** How `handleCheckout` ends: it returns at once on an empty cart, completes, catches a rejected
      `updateStock` and alerts, or never resumes because `transactionStorage.add` threw inside its timer. */
  datatype CheckoutOutcome = Skipped | Completed(transaction: Transaction) | Failed(alert: string) | Pending

  /** How many `updateStock` calls finish before the failing step (step 0 is the transaction write,
      step i + 1 the stock update of line i); all of them when no stock update fails. */
  function StockUpdatesDone(failingStep: Option<nat>, lineCount: nat): nat
  {
    if failingStep.Some? && 1 <= failingStep.value <= lineCount then failingStep.value - 1 else lineCount
  }

  /** `for (const item of items) await productStorage.updateStock(item.product.id, item.quantity)`. */
  method SellLines(catalogue: Storage.ProductStorage, lines: seq<CartItem>)
    modifies catalogue
    ensures catalogue.products == ApplySales(old(catalogue.products), lines)
  {
    ghost var start := catalogue.products;
    var i := 0;
    while i < |lines|
      invariant 0 <= i <= |lines|
      invariant catalogue.products == ApplySales(start, lines[..i])
    {
      ApplySalesStep(start, lines, i);
      catalogue.UpdateStock(lines[i].product.id, lines[i].quantity);
      i := i + 1;
    }
    assert lines[..|lines|] == lines;
  }

  /** `handleCheckout`. An empty cart returns at once. Otherwise the transaction is written first, then
      each line's stock is decreased in cart order, then the cart is cleared. `failingStep` names the
      storage call that throws, if any. Step 0, the transaction write, throws inside its `setTimeout`
      callback, so its promise never settles: checkout stays pending with nothing written, no alert and
      the cart kept. Step i + 1, the stock update of line i, throws in its promise executor and so
      rejects: the error is caught, the alert shown and the cart kept, while the transaction and the
      earlier decrements stay written. */
  method HandleCheckout(
    catalogue: Storage.ProductStorage, log: Storage.TransactionStorage,
    items: seq<CartItem>, cartTotal: int, paymentMethod: PaymentMethod, user: Option<User>,
    transactionId: string, now: int, failingStep: Option<nat>)
    returns (cart: seq<CartItem>, outcome: CheckoutOutcome)
    modifies catalogue, log
    ensures items == [] ==> outcome == Skipped && cart == items && unchanged(catalogue, log)
    ensures items != [] && failingStep == Some(0) ==>
      outcome == Pending && cart == items && unchanged(catalogue, log)
    ensures items != [] && failingStep != Some(0) ==>
      log.transactions ==
        [Transaction(transactionId, now, cartTotal, paymentMethod, items, UserIdOf(user))] + old(log.transactions) &&
      catalogue.products == ApplySales(old(catalogue.products), items[..StockUpdatesDone(failingStep, |items|)])
    ensures outcome.Completed? <==> items != [] && StockUpdatesDone(failingStep, |items|) == |items| && failingStep != Some(0)
    ensures outcome.Completed? ==> cart == [] && outcome.transaction == log.transactions[0]
    ensures !outcome.Completed? ==> cart == items
    ensures outcome.Failed? <==> items != [] && failingStep != Some(0) && StockUpdatesDone(failingStep, |items|) < |items|
    ensures outcome.Failed? ==> outcome.alert == CHECKOUT_FAILED
  {
    if |items| == 0 {
      return items, Skipped;
    }
    if failingStep == Some(0) {
      return items, Pending;
    }
    var draft := TransactionDraft(cartTotal, paymentMethod, items, UserIdOf(user));
    var transaction := log.Add(draft, transactionId, now);
    var done := StockUpdatesDone(failingStep, |items|);
    SellLines(catalogue, items[..done]);
    if done < |items| {
      return items, Failed(CHECKOUT_FAILED);
    }
    cart := [];
    outcome := Completed(transaction);
  }
}
