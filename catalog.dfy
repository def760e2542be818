/** `ProductService`: the validation predicate, the product CRUD behind it,
    and the name search. */
module Catalog {
  import opened Outcomes
  import opened Text
  import opened Tables

  /** A product as it arrives from a request: every field may be null. */
  datatype ProductDraft = ProductDraft(name: Option<string>, price: Option<int>, stock: Option<int>,
                                       imgUrl: Option<string>)

  /** `validateProduct`: the first failing rule, checked in the order name,
      price, stock. */
  function ValidateProduct(d: ProductDraft): (r: Option<ShopError>)
    ensures r.None? <==>
              && !IsBlank(d.name)
              && d.price.Some? && d.price.value >= 0
              && d.stock.Some? && d.stock.value >= 0
    ensures r == Some(BlankProductName) <==> IsBlank(d.name)
    ensures r == Some(InvalidPrice) <==> !IsBlank(d.name) && (d.price.None? || d.price.value < 0)
    ensures r == Some(InvalidStock) <==>
              && !IsBlank(d.name) && d.price.Some? && d.price.value >= 0
              && (d.stock.None? || d.stock.value < 0)
  {
    if IsBlank(d.name) then Some(BlankProductName)
    else if d.price.None? || d.price.value < 0 then Some(InvalidPrice)
    else if d.stock.None? || d.stock.value < 0 then Some(InvalidStock)
    else None
  }

  /** The record a valid draft is stored as, under `id`. */
  function Stored(id: nat, d: ProductDraft): (p: Product)
    requires ValidateProduct(d).None?
    ensures p.id == id && p.imgUrl == d.imgUrl
    ensures p.price >= 0 && p.stock >= 0
  {
    Product(id, d.name.value, d.price.value, d.stock.value, d.imgUrl)
  }

  /** `create`: a valid draft is stored under the next product id; an
      invalid one changes nothing.  Either way no stock goes negative. */
  method Create(st: Store, d: ProductDraft) returns (r: Result<Product>)
    requires st.Valid()
    modifies st`products, st`nextProductId
    ensures st.Valid()
    ensures r.Err? <==> ValidateProduct(d).Some?
    ensures r.Err? ==> r.error == ValidateProduct(d).value && unchanged(st)
    ensures r.Ok? ==>
              && r.value == Stored(old(st.nextProductId), d)
              && r.value.id !in old(st.products)
              && st.products == old(st.products)[r.value.id := r.value]
              && st.nextProductId == old(st.nextProductId) + 1
    ensures StockNonNegative(old(st.products)) ==> StockNonNegative(st.products)
  {
    var problem := ValidateProduct(d);
    if problem.Some? {
      return Err(problem.value);
    }
    var product := Stored(st.nextProductId, d);
    st.products := st.products[product.id := product];
    st.nextProductId := st.nextProductId + 1;
    r := Ok(product);
  }

  /** `update`: a missing id fails first, then validation; a valid draft
      replaces the whole record under exactly that id. */
  method Update(st: Store, id: nat, d: ProductDraft) returns (r: Result<Product>)
    requires st.Valid()
    modifies st`products
    ensures st.Valid()
    ensures r.Err? <==> id !in old(st.products) || ValidateProduct(d).Some?
    ensures r.Err? ==>
              && r.error == (if id !in old(st.products) then ProductNotFound else ValidateProduct(d).value)
              && st.products == old(st.products)
    ensures r.Ok? ==>
              && r.value == Stored(id, d)
              && st.products == old(st.products)[id := r.value]
              && st.products.Keys == old(st.products).Keys
    ensures StockNonNegative(old(st.products)) ==> StockNonNegative(st.products)
  {
    if id !in st.products {
      return Err(ProductNotFound);
    }
    var problem := ValidateProduct(d);
    if problem.Some? {
      return Err(problem.value);
    }
    var product := Stored(id, d);
    st.products := st.products[id := product];
    r := Ok(product);
  }

  /** `delete`: removes exactly that product, or fails when it is absent. */
  method Delete(st: Store, id: nat) returns (r: Result<()>)
    requires st.Valid()
    modifies st`products
    ensures st.Valid()
    ensures r == (if id in old(st.products) then Ok(()) else Err(ProductNotFound))
    ensures st.products == old(st.products) - {id}
  {
    if id !in st.products {
      return Err(ProductNotFound);
    }
    st.products := st.products - {id};
    r := Ok(());
  }

  /** `findById`: "商品不存在" exactly when the id is absent. */
  function FindById(products: map<nat, Product>, id: nat): (r: Result<Product>)
    ensures r.Ok? <==> id in products
    ensures r.Ok? ==> r.value == products[id]
    ensures r.Err? ==> r.error == ProductNotFound
  {
    match Lookup(products, id)
    case Some(p) => Ok(p)
    case None => Err(ProductNotFound)
  }

  /** `search`: every product for a null or blank query (`listAll`),
      otherwise those whose name contains the trimmed query, ignoring case. */
  function Search(products: map<nat, Product>, query: Option<string>): (r: map<nat, Product>)
    ensures forall k :: k in r ==> k in products && r[k] == products[k]
    ensures IsBlank(query) ==> r == products
  {
    if IsBlank(query) then products
    else map k | k in products && ContainsIgnoreCase(products[k].name, Trim(query.value)) :: products[k]
  }

  // ---------------------------------------------------------------------
  // What the search promises.

  /** A non-blank query keeps exactly the products whose name contains it. */
  lemma SearchFilters(products: map<nat, Product>, q: string, k: nat)
    requires Trim(q) != []
    ensures k in Search(products, Some(q)) <==>
              k in products && ContainsIgnoreCase(products[k].name, Trim(q))
  {
    TrimEmpty(q);
  }

  /** Every product is found by its own name, and by that name in any mix of
      upper and lower case letters, blanks around the stored name or not. */
  lemma SearchFindsByName(products: map<nat, Product>, k: nat, q: string)
    requires k in products
    requires !AllBlank(products[k].name)
    requires FoldCase(q) == FoldCase(products[k].name)
    ensures k in Search(products, Some(q))
  {
    var name := products[k].name;
    ContainsTrimmedFold(name, q);
    TrimEmpty(name);
    TrimEmpty(q);
  }

  /** Surrounding blanks in the query change nothing. */
  lemma SearchTrimmed(products: map<nat, Product>, q: string)
    ensures Search(products, Some(q)) == Search(products, Some(Trim(q)))
  {
    TrimIdempotent(q);
    TrimEmpty(q);
    TrimEmpty(Trim(q));
  }

  /** Nor does the case of the query's letters. */
  lemma SearchIgnoresCase(products: map<nat, Product>, q: string)
    ensures Search(products, Some(q)) == Search(products, Some(FoldCase(q)))
  {
    TrimFoldCase(q);
    TrimEmpty(q);
    TrimEmpty(FoldCase(q));
    var a := Search(products, Some(q));
    var b := Search(products, Some(FoldCase(q)));
    if Trim(q) != [] {
      var needle := Trim(q);
      assert Trim(FoldCase(q)) == FoldCase(needle);
      forall k | k in products
        ensures k in a <==> k in b
      {
        ContainsFoldedNeedle(products[k].name, needle);
      }
      SameEntries(a, b);
    } else {
      assert |FoldCase(Trim(q))| == 0;
      assert AllBlank(q) && AllBlank(FoldCase(q));
    }
  }

  lemma SameEntries(a: map<nat, Product>, b: map<nat, Product>)
    requires forall k :: k in a <==> k in b
    requires forall k :: k in a ==> a[k] == b[k]
    ensures a == b
  {
  }
}
