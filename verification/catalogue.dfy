/** Product catalogue administration: the administrator-only add, edit and
    delete handlers with their field checks and case-insensitive name
    uniqueness, and the public search with its filters and name ordering. */
module Catalogue {
  import opened Base
  import opened Shop

  /** The fields of an add or edit request; `None` is an absent field. */
  datatype ProductInput = ProductInput(
    name: Option<string>,
    description: Option<string>,
    price: Option<int>,
    stock: Option<int>,
    categoryName: Option<string>)

  /** Some product other than `except` already carries `name`, ignoring case. */
  predicate NameTaken(ps: map<ProductId, Product>, name: string, except: Option<ProductId>) {
    exists id | id in ps.Keys :: Some(id) != except && SameName(ps[id].name, name)
  }

  /** Storing a product with a positive price, non-negative stock and a name
      no other product carries keeps the catalogue sound and its names
      unique. */
  lemma PutProductKeepsInvariants(ps: map<ProductId, Product>, id: ProductId, p: Product)
    ensures CatalogueSound(ps) && p.price > 0 && p.stock >= 0 ==> CatalogueSound(ps[id := p])
    ensures ProductNamesUnique(ps) && !NameTaken(ps, p.name, Some(id)) ==> ProductNamesUnique(ps[id := p])
  {
  }

  // ---------------------------------------------------------------------------
  // Add
  // ---------------------------------------------------------------------------

  /** Any required field is absent or falsy; a price or stock of 0 counts as
      missing here. */
  predicate AddFieldsMissing(req: ProductInput) {
    MissingText(req.name) || MissingText(req.description) || MissingNumber(req.price)
    || MissingNumber(req.stock) || MissingText(req.categoryName)
  }

  function AddProduct(s: Store, actor: Actor, req: ProductInput): (r: Result<Store>)
    ensures !IsAdmin(actor) ==> r == Err(Forbidden)
    ensures IsAdmin(actor) && AddFieldsMissing(req) ==> r == Err(MissingFields)
    ensures IsAdmin(actor) && !AddFieldsMissing(req) && (req.price.value <= 0 || req.stock.value < 0) ==>
              r == Err(InvalidPriceOrStock)
    ensures IsAdmin(actor) && !AddFieldsMissing(req) && req.price.value > 0 && req.stock.value >= 0 ==>
              && (FindCategoryByName(s.categories, req.categoryName.value).None? ==>
                    r == Err(NotFound(CategoryEntity)))
              && (FindCategoryByName(s.categories, req.categoryName.value).Some? &&
                  NameTaken(s.products, req.name.value, None) ==>
                    r == Err(Conflict(DuplicateName)))
    ensures r.Ok? <==>
              && IsAdmin(actor)
              && !AddFieldsMissing(req)
              && req.price.value > 0
              && req.stock.value > 0
              && FindCategoryByName(s.categories, req.categoryName.value).Some?
              && !NameTaken(s.products, req.name.value, None)
    // The product is stored under the next unused id, which is then spent.
    ensures r.Ok? ==>
              var c := FindCategoryByName(s.categories, req.categoryName.value).value;
              && r.value == s.(products := r.value.products, nextId := s.nextId + 1)
              && r.value.products ==
                   s.products[s.nextId := Product(req.name.value, req.description.value, req.price.value,
                                                  req.stock.value, c, None)]
    ensures r.Ok? && IdsBelowNext(s) ==>
              s.nextId !in s.products && IdsBelowNext(r.value)
    // Prices stay positive, stock non-negative and names unique.
    ensures r.Ok? && CatalogueSound(s.products) && ProductNamesUnique(s.products) ==>
              CatalogueSound(r.value.products) && ProductNamesUnique(r.value.products)
  {
    if !IsAdmin(actor) then Err(Forbidden)
    else if AddFieldsMissing(req) then Err(MissingFields)
    else if req.price.value <= 0 || req.stock.value < 0 then Err(InvalidPriceOrStock)
    else
      match FindCategoryByName(s.categories, req.categoryName.value)
      case None => Err(NotFound(CategoryEntity))
      case Some(c) =>
        if NameTaken(s.products, req.name.value, None) then Err(Conflict(DuplicateName))
        else
          var p := Product(req.name.value, req.description.value, req.price.value, req.stock.value, c, None);
          PutProductKeepsInvariants(s.products, s.nextId, p);
          Ok(s.(products := s.products[s.nextId := p], nextId := s.nextId + 1))
  }

  // ---------------------------------------------------------------------------
  // Edit
  // ---------------------------------------------------------------------------

  /** The product with every supplied field replaced. */
  function Edited(p: Product, req: ProductInput, category: Option<CategoryId>): Product {
    p.(name := req.name.ValueOr(p.name),
       description := req.description.ValueOr(p.description),
       price := req.price.ValueOr(p.price),
       stock := req.stock.ValueOr(p.stock),
       category := category.ValueOr(p.category))
  }

  /** The category the edit resolves, if it names one. */
  function EditCategory(s: Store, req: ProductInput): Option<CategoryId> {
    if MissingText(req.categoryName) then None
    else FindCategoryByName(s.categories, req.categoryName.value)
  }

  function EditProduct(s: Store, actor: Actor, id: ProductId, req: ProductInput): (r: Result<Store>)
    ensures !IsAdmin(actor) ==> r == Err(Forbidden)
    ensures IsAdmin(actor) && id !in s.products ==> r == Err(NotFound(ProductEntity))
    ensures IsAdmin(actor) && id in s.products && req.price.Some? && req.price.value <= 0 ==>
              r == Err(InvalidPrice)
    // The remaining checks, in the order the handler and the store's
    // validators apply them, each once the earlier ones have passed.
    ensures IsAdmin(actor) && id in s.products && (req.price.Some? ==> req.price.value > 0) ==>
              && (req.stock.Some? && req.stock.value < 0 ==> r == Err(NegativeStock))
              && ((req.stock.Some? ==> req.stock.value >= 0)
                  && !MissingText(req.categoryName) && EditCategory(s, req).None? ==>
                    r == Err(NotFound(CategoryEntity)))
              && ((req.stock.Some? ==> req.stock.value >= 0)
                  && (!MissingText(req.categoryName) ==> EditCategory(s, req).Some?)
                  && !MissingText(req.name) && NameTaken(s.products, req.name.value, Some(id)) ==>
                    r == Err(Conflict(DuplicateName)))
              && ((req.stock.Some? ==> req.stock.value >= 0)
                  && (!MissingText(req.categoryName) ==> EditCategory(s, req).Some?)
                  && (!MissingText(req.name) ==> !NameTaken(s.products, req.name.value, Some(id)))
                  && (req.name == Some("") || req.description == Some("")) ==>
                    r == Err(Internal))
    ensures r.Ok? <==>
              && IsAdmin(actor)
              && id in s.products
              && (req.price.Some? ==> req.price.value > 0)
              && (req.stock.Some? ==> req.stock.value >= 0)
              && (!MissingText(req.categoryName) ==> EditCategory(s, req).Some?)
              && (!MissingText(req.name) ==> !NameTaken(s.products, req.name.value, Some(id)))
              && req.name != Some("") && req.description != Some("")
    ensures r.Ok? ==>
              && r.value == s.(products := r.value.products)
              && r.value.products.Keys == s.products.Keys
              && (forall j :: j in s.products && j != id ==> r.value.products[j] == s.products[j])
              && r.value.products[id] == Edited(s.products[id], req, EditCategory(s, req))
    ensures r.Ok? && IdsBelowNext(s) ==> IdsBelowNext(r.value)
    // Prices stay positive, stock non-negative and names unique: a product
    // may keep or re-case its own name, never take another's.
    ensures r.Ok? && CatalogueSound(s.products) && ProductNamesUnique(s.products) ==>
              CatalogueSound(r.value.products) && ProductNamesUnique(r.value.products)
  {
    if !IsAdmin(actor) then Err(Forbidden)
    else if id !in s.products then Err(NotFound(ProductEntity))
    else if req.price.Some? && req.price.value <= 0 then Err(InvalidPrice)
    else if req.stock.Some? && req.stock.value < 0 then Err(NegativeStock)
    else if !MissingText(req.categoryName) && EditCategory(s, req).None? then Err(NotFound(CategoryEntity))
    else if !MissingText(req.name) && NameTaken(s.products, req.name.value, Some(id)) then Err(Conflict(DuplicateName))
    else if req.name == Some("") || req.description == Some("") then Err(Internal)
    else
      var p := Edited(s.products[id], req, EditCategory(s, req));
      PutProductKeepsInvariants(s.products, id, p);
      Ok(s.(products := s.products[id := p]))
  }

  // ---------------------------------------------------------------------------
  // Delete
  // ---------------------------------------------------------------------------

  function DeleteProduct(s: Store, actor: Actor, id: ProductId): (r: Result<Store>)
    ensures !IsAdmin(actor) ==> r == Err(Forbidden)
    ensures r.Ok? <==> IsAdmin(actor) && id in s.products
    ensures r.Err? && IsAdmin(actor) ==> r.error == NotFound(ProductEntity)
    ensures r.Ok? ==>
              && r.value == s.(products := r.value.products)
              && r.value.products.Keys == s.products.Keys - {id}
              && forall j :: j in r.value.products ==> r.value.products[j] == s.products[j]
    // Removing a product keeps the rest of the catalogue sound and its names
    // unique; the id is not handed out again.
    ensures r.Ok? && CatalogueSound(s.products) && ProductNamesUnique(s.products) ==>
              CatalogueSound(r.value.products) && ProductNamesUnique(r.value.products)
    ensures r.Ok? && IdsBelowNext(s) ==> IdsBelowNext(r.value) && r.value.nextId == s.nextId
  {
    if !IsAdmin(actor) then Err(Forbidden)
    else if id !in s.products then Err(NotFound(ProductEntity))
    else Ok(s.(products := s.products - {id}))
  }

  // ---------------------------------------------------------------------------
  // Search
  // ---------------------------------------------------------------------------

  /** String order as the store sorts names: by character code, a proper
      prefix first. */
  predicate NameLe(a: string, b: string) {
    |a| == 0 || (|b| > 0 && (a[0] < b[0] || (a[0] == b[0] && NameLe(a[1..], b[1..]))))
  }

  lemma {:induction false} NameLeTotal(a: string, b: string)
    ensures NameLe(a, b) || NameLe(b, a)
  {
    if |a| > 0 && |b| > 0 && a[0] == b[0] {
      NameLeTotal(a[1..], b[1..]);
    }
  }

  lemma {:induction false} NameLeTransitive(a: string, b: string, c: string)
    requires NameLe(a, b) && NameLe(b, c)
    ensures NameLe(a, c)
  {
    if |a| > 0 && a[0] == b[0] && b[0] == c[0] {
      NameLeTransitive(a[1..], b[1..], c[1..]);
    }
  }

  /** The query string of a search; `None` is an absent or empty parameter,
      `inStockOnly` is `enStock=true`. */
  datatype SearchQuery = SearchQuery(
    name: Option<string>,
    category: Option<string>,
    minPrice: Option<int>,
    maxPrice: Option<int>,
    inStockOnly: bool)

  /** The product passes every filter the query supplies.  A category name
      that resolves to nothing drops the category filter. */
  predicate Matches(s: Store, q: SearchQuery, p: Product) {
    && (MissingText(q.name) || ContainsIgnoringCase(p.name, q.name.value))
    && (MissingText(q.category) || FindCategoryByName(s.categories, q.category.value).None?
        || p.category == FindCategoryByName(s.categories, q.category.value).value)
    && (q.minPrice.None? || p.price >= q.minPrice.value)
    && (q.maxPrice.None? || p.price <= q.maxPrice.value)
    && (!q.inStockOnly || p.stock > 0)
  }

  predicate AllIn(ps: map<ProductId, Product>, ids: seq<ProductId>) {
    forall i :: 0 <= i < |ids| ==> ids[i] in ps
  }

  predicate SortedByName(ps: map<ProductId, Product>, ids: seq<ProductId>)
    requires AllIn(ps, ids)
  {
    forall i, j :: 0 <= i < j < |ids| ==> NameLe(ps[ids[i]].name, ps[ids[j]].name)
  }

  /** `x` placed before the first id whose name sorts after it. */
  function Insert(ps: map<ProductId, Product>, x: ProductId, ids: seq<ProductId>): (r: seq<ProductId>)
    requires x in ps && AllIn(ps, ids)
    ensures |r| == |ids| + 1
    ensures AllIn(ps, r)
    ensures forall y :: y in r <==> y == x || y in ids
    ensures x !in ids && NoDuplicates(ids) ==> NoDuplicates(r)
  {
    if |ids| == 0 then [x]
    else if NameLe(ps[x].name, ps[ids[0]].name) then [x] + ids
    else
      var rest := Insert(ps, x, ids[1..]);
      assert forall y :: y in ids <==> y == ids[0] || y in ids[1..];
      assert NoDuplicates(ids) ==> ids[0] !in ids[1..] by {
        if NoDuplicates(ids) {
          forall k | 0 <= k < |ids| - 1
            ensures ids[1..][k] != ids[0]
          {
            assert ids[1..][k] == ids[k + 1];
          }
        }
      }
      [ids[0]] + rest
  }

  lemma {:induction false} InsertSorted(ps: map<ProductId, Product>, x: ProductId, ids: seq<ProductId>)
    requires x in ps && AllIn(ps, ids) && SortedByName(ps, ids)
    ensures SortedByName(ps, Insert(ps, x, ids))
  {
    var r := Insert(ps, x, ids);
    if |ids| == 0 {
    } else if NameLe(ps[x].name, ps[ids[0]].name) {
      forall i, j | 0 <= i < j < |r|
        ensures NameLe(ps[r[i]].name, ps[r[j]].name)
      {
        if i == 0 && j > 1 {
          NameLeTransitive(ps[x].name, ps[ids[0]].name, ps[ids[j - 1]].name);
        }
      }
    } else {
      var rest := Insert(ps, x, ids[1..]);
      assert SortedByName(ps, ids[1..]);
      InsertSorted(ps, x, ids[1..]);
      NameLeTotal(ps[x].name, ps[ids[0]].name);
      forall i, j | 0 <= i < j < |r|
        ensures NameLe(ps[r[i]].name, ps[r[j]].name)
      {
        if i == 0 {
          assert r[j] == rest[j - 1];
          assert rest[j - 1] in rest;
          if rest[j - 1] != x {
            assert rest[j - 1] in ids[1..];
            var k :| 0 <= k < |ids[1..]| && ids[1..][k] == rest[j - 1];
            assert ids[k + 1] == r[j];
          }
        } else {
          assert r[i] == rest[i - 1] && r[j] == rest[j - 1];
        }
      }
    }
  }

  /** The ids of `ids` in name order, each exactly once. */
  function SortByName(ps: map<ProductId, Product>, ids: set<ProductId>): (r: seq<ProductId>)
    requires ids <= ps.Keys
    ensures AllIn(ps, r)
    ensures forall y :: y in r <==> y in ids
    ensures NoDuplicates(r)
    ensures SortedByName(ps, r)
    decreases ids
  {
    if ids == {} then []
    else
      var m := MinId(ids);
      var rest := SortByName(ps, ids - {m});
      InsertSorted(ps, m, rest);
      Insert(ps, m, rest)
  }

  /** The ids of every product that passes the query's filters, each exactly
      once, ordered by name. */
  function SearchProducts(s: Store, q: SearchQuery): (r: seq<ProductId>)
    ensures forall id :: id in r <==> id in s.products && Matches(s, q, s.products[id])
    ensures NoDuplicates(r)
    ensures AllIn(s.products, r) && SortedByName(s.products, r)
  {
    SortByName(s.products, set id | id in s.products.Keys && Matches(s, q, s.products[id]))
  }
}
