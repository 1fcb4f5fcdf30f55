/** The products page (src/pages/ProductsPage.tsx): the add-product form check, the edit submission,
    and the stock badge. The name search is Search.SearchByName. `parseInt` is outside the model:
    the parsed price and stock arrive as integers beside the form's text. */
module ProductsPage {
  import opened Types
  import Catalog
  import Storage

  const FIELDS_REQUIRED := "Semua field harus diisi"

  /** The single white-space and line-terminator characters ECMAScript lists besides the U+2000..U+200A range. */
  const SPACE_CHARS: set<char> := {
    '\t', '\n', '\U{000B}', '\U{000C}', '\r', ' ', '\U{00A0}', '\U{1680}',
    '\U{2028}', '\U{2029}', '\U{202F}', '\U{205F}', '\U{3000}', '\U{FEFF}'}

  /** The characters `String.prototype.trim` removes: the ECMAScript white space and line terminators. */
  predicate IsWhitespace(c: char)
  {
    c in SPACE_CHARS || '\U{2000}' <= c <= '\U{200A}'
  }

  /** Drops the leading white space: what is left is a suffix that starts with something else. */
  function TrimStart(s: string): (r: string)
    ensures |r| <= |s| && r == s[|s| - |r|..]
    ensures forall i :: 0 <= i < |s| - |r| ==> IsWhitespace(s[i])
    ensures r != [] ==> !IsWhitespace(r[0])
  {
    if s != [] && IsWhitespace(s[0]) then TrimStart(s[1..]) else s
  }

  /** Drops the trailing white space: what is left is a prefix that ends with something else. */
  function TrimEnd(s: string): (r: string)
    ensures |r| <= |s| && r == s[..|r|]
    ensures forall i :: |r| <= i < |s| ==> IsWhitespace(s[i])
    ensures r != [] ==> !IsWhitespace(r[|r| - 1])
  {
    if s != [] && IsWhitespace(s[|s| - 1]) then TrimEnd(s[..|s| - 1]) else s
  }

  /** `trim()`: the text with its leading and trailing white space cut off. It is empty exactly when the text is
      all white space; otherwise it neither starts nor ends with any. */
  function Trim(s: string): (r: string)
    ensures exists i :: TrimmedAt(s, r, i)
    ensures r == [] <==> forall i :: 0 <= i < |s| ==> IsWhitespace(s[i])
    ensures r != [] ==> !IsWhitespace(r[0]) && !IsWhitespace(r[|r| - 1])
    ensures |r| <= |s|
  {
    TrimIsSlice(s);
    TrimBothEnds(s);
    TrimEnd(TrimStart(s))
  }

  /** r is the slice of s from i on whose every character before and after is white space. */
  predicate TrimmedAt(s: string, r: string, i: int)
  {
    0 <= i <= |s| - |r| && r == s[i..i + |r|] &&
    (forall k :: 0 <= k < i ==> IsWhitespace(s[k])) &&
    (forall k :: i + |r| <= k < |s| ==> IsWhitespace(s[k]))
  }

  /** What `TrimEnd(TrimStart(s))` keeps is a slice of s with only white space around it. */
  lemma TrimIsSlice(s: string)
    ensures TrimmedAt(s, TrimEnd(TrimStart(s)), |s| - |TrimStart(s)|)
  {
    SliceBetweenSpaces(s, TrimStart(s), TrimEnd(TrimStart(s)));
  }

  /** A prefix r of a suffix front of s, with only white space before front and after r inside front,
      is a slice of s with only white space around it. */
  lemma SliceBetweenSpaces(s: string, front: string, r: string)
    requires |front| <= |s| && front == s[|s| - |front|..]
    requires forall i :: 0 <= i < |s| - |front| ==> IsWhitespace(s[i])
    requires |r| <= |front| && r == front[..|r|]
    requires forall i :: |r| <= i < |front| ==> IsWhitespace(front[i])
    ensures TrimmedAt(s, r, |s| - |front|)
  {
    var cut := |s| - |front|;
    assert r == s[cut..cut + |r|];
    forall k | cut + |r| <= k < |s|
      ensures IsWhitespace(s[k])
    {
      assert s[k] == front[k - cut];
    }
  }

  /** What `TrimEnd(TrimStart(s))` keeps is empty exactly for all-white-space text, and has no white space
      at either end. */
  lemma TrimBothEnds(s: string)
    ensures var r := TrimEnd(TrimStart(s));
      && (r == [] <==> forall i :: 0 <= i < |s| ==> IsWhitespace(s[i]))
      && (r != [] ==> !IsWhitespace(r[0]) && !IsWhitespace(r[|r| - 1]))
      && |r| <= |s|
  {
    var front := TrimStart(s);
    var r := TrimEnd(front);
    var cut := |s| - |front|;
    if front == [] {
      assert forall i :: 0 <= i < |s| ==> IsWhitespace(s[i]);
    } else {
      // the first kept character is not white space, so the end trim stops before reaching it
      assert front[0] == s[cut] && !IsWhitespace(s[cut]);
      assert r != [] && r[0] == front[0];
    }
  }

  /** The form's text fields. */
  datatype ProductForm = ProductForm(name: string, price: string, stock: string)

  /** The guard of `handleAddProduct`: refused when the trimmed name, the price text or the stock text
      is empty (so "0" passes); otherwise the product to store, under the trimmed name. */
  function ValidateNewProduct(form: ProductForm, price: int, stock: int): (r: Result<NewProduct, string>)
    ensures r.Err? <==> Trim(form.name) == [] || form.price == [] || form.stock == []
    ensures r.Err? ==> r.error == FIELDS_REQUIRED
    ensures r.Ok? ==> r.value == NewProduct(Trim(form.name), price, stock, None)
    ensures r.Ok? ==> r.value.name != [] && !IsWhitespace(r.value.name[0])
  {
    var name := Trim(form.name);
    if name == [] || form.price == [] || form.stock == [] then Err(FIELDS_REQUIRED)
    else Ok(NewProduct(name, price, stock, None))
  }

  /** `handleAddProduct`: on a refused form the error is shown and storage is not called; otherwise
      the product is appended to the catalogue and the form error is cleared. */
  method SubmitNewProduct(catalogue: Storage.ProductStorage, form: ProductForm, price: int, stock: int, id: string, now: int)
    returns (error: string)
    modifies catalogue
    ensures ValidateNewProduct(form, price, stock).Err? ==>
      error == FIELDS_REQUIRED && unchanged(catalogue)
    ensures ValidateNewProduct(form, price, stock).Ok? ==>
      error == "" &&
      catalogue.products == old(catalogue.products) + [Product(id, Trim(form.name), price, stock, None, now)]
  {
    var checked := ValidateNewProduct(form, price, stock);
    if checked.Err? {
      return checked.error;
    }
    var _ := catalogue.Add(checked.value, id, now);
    error := "";
  }

  /** `handleEditProduct`: with a product being edited, `update` is called with the trimmed name and the
      parsed price and stock, with no emptiness check; with none, nothing happens. */
  method SubmitEdit(catalogue: Storage.ProductStorage, editing: Option<Product>, form: ProductForm, price: int, stock: int)
    modifies catalogue
    ensures editing.None? ==> unchanged(catalogue)
    ensures editing.Some? ==>
      catalogue.products == Catalog.Updated(old(catalogue.products), editing.value.id, EditPatch(form, price, stock))
  {
    if editing.None? {
      return;
    }
    catalogue.Update(editing.value.id, EditPatch(form, price, stock));
  }

  /** The fields an edit overwrites: name, price and stock. */
  function EditPatch(form: ProductForm, price: int, stock: int): (patch: Catalog.ProductPatch)
    ensures forall p :: Catalog.Merge(p, patch) == p.(name := Trim(form.name), price := price, stock := stock)
  {
    Catalog.ProductPatch(None, Some(Trim(form.name)), Some(price), Some(stock), None, None)
  }

  /** Since editing checks nothing, a blank name or any parsed price and stock reach the stored product. */
  lemma EditStoresUnchecked(ps: seq<Product>, k: int, form: ProductForm, price: int, stock: int)
    requires 0 <= k < |ps| && Catalog.IsFirstWithId(ps, ps[k].id, k)
    ensures Catalog.Updated(ps, ps[k].id, EditPatch(form, price, stock))[k] ==
      ps[k].(name := Trim(form.name), price := price, stock := stock)
  {
  }

  /** The colour of the stock badge. */
  datatype Badge = Green | Yellow | Red

  /** Exactly one badge per stock level: above 10, from 1 to 10, and 0 or below. */
  function StockBadge(stock: int): (b: Badge)
    ensures b == Green <==> stock > 10
    ensures b == Yellow <==> 0 < stock <= 10
    ensures b == Red <==> stock <= 0
  {
    if stock > 10 then Green else if stock > 0 then Yellow else Red
  }
}
