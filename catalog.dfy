/** The product table's operations as functions of the stored list
    (`productStorage` in src/utils/storage.ts). Storage.ProductStorage applies them in place. */
module Catalog {
  import opened Types
  import opened Seqs

  /** Some product carries this id. */
  predicate HasId(ps: seq<Product>, id: string)
  {
    exists k :: 0 <= k < |ps| && ps[k].id == id
  }

  /** Position k holds the first product with this id: the one `findIndex` selects. */
  predicate IsFirstWithId(ps: seq<Product>, id: string, k: int)
  {
    0 <= k < |ps| && ps[k].id == id && forall j :: 0 <= j < k ==> ps[j].id != id
  }

  /** `products.findIndex(p => p.id === id)`: the first position with the id, or -1 when there is none. */
  function IndexOfId(ps: seq<Product>, id: string): (r: int)
    ensures -1 <= r < |ps|
    ensures r == -1 <==> !HasId(ps, id)
    ensures r != -1 ==> IsFirstWithId(ps, id, r)
  {
    if ps == [] then -1
    else if ps[0].id == id then 0
    else
      var r := IndexOfId(ps[1..], id);
      assert forall k :: 0 < k < |ps| ==> ps[k] == ps[1..][k - 1];
      if r == -1 then -1 else r + 1
  }

  /** The fields a `Partial<Product>` may carry; `None` means the field is absent. */
  datatype ProductPatch = ProductPatch(
    id: Option<string>,
    name: Option<string>,
    price: Option<int>,
    stock: Option<int>,
    imageUrl: Option<Option<string>>,
    createdAt: Option<int>)

  function Pick<T>(given: Option<T>, current: T): T
  {
    if given.Some? then given.value else current
  }

  /** `{ ...p, ...updates }`: each field the patch carries overrides the product's; every other field is kept. */
  function Merge(p: Product, patch: ProductPatch): (r: Product)
    ensures r.id == if patch.id.Some? then patch.id.value else p.id
    ensures r.name == if patch.name.Some? then patch.name.value else p.name
    ensures r.price == if patch.price.Some? then patch.price.value else p.price
    ensures r.stock == if patch.stock.Some? then patch.stock.value else p.stock
    ensures r.imageUrl == if patch.imageUrl.Some? then patch.imageUrl.value else p.imageUrl
    ensures r.createdAt == if patch.createdAt.Some? then patch.createdAt.value else p.createdAt
    ensures patch == ProductPatch(None, None, None, None, None, None) ==> r == p
  {
    Product(
      Pick(patch.id, p.id),
      Pick(patch.name, p.name),
      Pick(patch.price, p.price),
      Pick(patch.stock, p.stock),
      Pick(patch.imageUrl, p.imageUrl),
      Pick(patch.createdAt, p.createdAt))
  }

  /** Applying the same patch twice is applying it once. */
  lemma MergeTwice(p: Product, patch: ProductPatch)
    ensures Merge(Merge(p, patch), patch) == Merge(p, patch)
  {
  }

  /** `productStorage.update`: merge the patch into the first product with the id; nothing else moves. */
  function Updated(ps: seq<Product>, id: string, patch: ProductPatch): (r: seq<Product>)
    ensures |r| == |ps|
    ensures forall k :: 0 <= k < |ps| ==>
      r[k] == if k == IndexOfId(ps, id) then Merge(ps[k], patch) else ps[k]
    ensures !HasId(ps, id) ==> r == ps
  {
    var index := IndexOfId(ps, id);
    if index == -1 then ps
    else ps[index := Merge(ps[index], patch)]
  }

  /** `Math.max(0, x)`. */
  function Clamp(x: int): (r: int)
    ensures r >= 0
    ensures x >= 0 ==> r == x
    ensures x < 0 ==> r == 0
  {
    if x < 0 then 0 else x
  }

  /** `productStorage.updateStock`: the first product with the id loses `quantitySold` units of stock,
      floored at zero; every other product, and every other field, stays as it was. */
  function StockSold(ps: seq<Product>, id: string, quantitySold: int): (r: seq<Product>)
    ensures |r| == |ps|
    ensures forall k :: 0 <= k < |ps| ==>
      r[k] == if k == IndexOfId(ps, id) then ps[k].(stock := Clamp(ps[k].stock - quantitySold)) else ps[k]
    ensures HasId(ps, id) ==> r[IndexOfId(ps, id)].stock >= 0
    ensures forall k :: 0 <= k < |ps| ==> r[k].id == ps[k].id
    ensures !HasId(ps, id) ==> r == ps
  {
    var index := IndexOfId(ps, id);
    if index == -1 then ps
    else ps[index := ps[index].(stock := Clamp(ps[index].stock - quantitySold))]
  }

  /** `products.filter(p => p.id !== id)`: every product whose id differs, each as often as before,
      in the original order. */
  function WithoutId(ps: seq<Product>, id: string): (r: seq<Product>)
    ensures forall p :: multiset(r)[p] == if p.id != id then multiset(ps)[p] else 0
    ensures forall p :: p in r <==> p in ps && p.id != id
    ensures IsSubsequence(r, ps)
  {
    if ps == [] then []
    else
      var rest := WithoutId(ps[1..], id);
      assert ps == [ps[0]] + ps[1..];
      if ps[0].id != id then
        SubsequenceKeep(rest, ps[1..], ps[0]);
        [ps[0]] + rest
      else
        SubsequenceSkip(rest, ps[1..], ps[0]);
        rest
  }

  /** Deleting an id no product carries leaves the list as it was. */
  lemma {:induction false} DeleteAbsentIsNoop(ps: seq<Product>, id: string)
    requires !HasId(ps, id)
    ensures WithoutId(ps, id) == ps
  {
    if ps != [] {
      assert ps[0].id != id;
      assert !HasId(ps[1..], id) by {
        forall k | 0 <= k < |ps| - 1 ensures ps[1..][k].id != id {
          assert ps[1..][k] == ps[k + 1];
        }
      }
      DeleteAbsentIsNoop(ps[1..], id);
      assert WithoutId(ps, id) == [ps[0]] + WithoutId(ps[1..], id);
    }
  }

  /** Deleting twice is deleting once. */
  lemma {:induction false} DeleteIdempotent(ps: seq<Product>, id: string)
    ensures WithoutId(WithoutId(ps, id), id) == WithoutId(ps, id)
  {
    var once := WithoutId(ps, id);
    assert !HasId(once, id) by {
      forall k | 0 <= k < |once| ensures once[k].id != id {
        assert once[k] in once;
      }
    }
    DeleteAbsentIsNoop(once, id);
  }
}
