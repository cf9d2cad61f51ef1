/**
 * The product catalogue handler, src/app/api/products/route.ts.
 *
 * `GET` lists one page of the products matching the query parameters; it only
 * reads the collection and is a function of the query and the collection.
 * `POST` validates a payload and inserts one product; the collection it
 * changes is the `ProductStore` class. The session lookup enters both as the
 * optional principal; `$text` search relevance is the predicate `textMatch`.
 */
module ProductsApi {
  import opened Common
  import opened Text
  import opened Sequences
  import Validations
  import Catalog

  // ------------------------------------------------------------------ GET

  /** A page size the model accepts: `limit` is a positive integer. */
  type Limit = n: int | 1 <= n witness 1

  /**
   * The query parameters after `parseInt`. `None` stands for a parameter that
   * is absent or empty, which `x || d` replaces by its default.
   */
  datatype ListQuery = ListQuery(
    page: Option<int>,
    limit: Option<Limit>,
    search: Option<string>,
    category: Option<string>,
    status: Option<string>,
    sortBy: Option<string>,
    sortOrder: Option<string>)

  /** The database filter: each field constrains the match only when present. */
  datatype Filter = Filter(text: Option<string>, category: Option<string>, status: Option<string>)

  /** The parameters the handler works with once defaults are applied. */
  datatype Params = Params(page: int, limit: Limit, filter: Filter, sortBy: string, ascending: bool)

  datatype Pagination = Pagination(page: int, limit: int, total: int, totalPages: int)

  datatype ListPage = ListPage(products: seq<Catalog.Product>, pagination: Pagination)

  /** A non-empty parameter, or nothing (`if (x) query.f = x`). */
  function NonEmpty(o: Option<string>): (r: Option<string>)
    ensures r.Some? <==> o.Some? && o.value != ""
    ensures r.Some? ==> r.value == o.value
  {
    if o.Some? && o.value != "" then o else None
  }

  /** Defaults and filter construction. */
  function Resolve(q: ListQuery): (r: Params)
    ensures r.page == (if q.page.Some? then q.page.value else 1)
    ensures r.limit == (if q.limit.Some? then q.limit.value else 10)
    ensures r.sortBy == (if q.sortBy.Some? && q.sortBy.value != "" then q.sortBy.value else "createdAt")
    ensures r.ascending <==> q.sortOrder == Some("asc")
    ensures r.filter.text.Some? <==> q.search.Some? && q.search.value != ""
    ensures r.filter.category.Some? <==> q.category.Some? && q.category.value != ""
    ensures r.filter.status.Some? <==> q.status.Some? && q.status.value != ""
    ensures r.filter.text.Some? ==> r.filter.text.value == q.search.value
    ensures r.filter.category.Some? ==> r.filter.category.value == q.category.value
    ensures r.filter.status.Some? ==> r.filter.status.value == q.status.value
  {
    Params(
      if q.page.Some? then q.page.value else 1,
      if q.limit.Some? then q.limit.value else 10,
      Filter(NonEmpty(q.search), NonEmpty(q.category), NonEmpty(q.status)),
      OrDefault(q.sortBy, "createdAt"),
      q.sortOrder == Some("asc"))
  }

  /** Does `p` satisfy every constraint the filter holds? */
  predicate Matches(f: Filter, p: Catalog.Product, textMatch: (string, Catalog.Product) -> bool)
  {
    && (f.text.Some? ==> textMatch(f.text.value, p))
    && (f.category.Some? ==> p.category == f.category.value)
    && (f.status.Some? ==> p.status == f.status.value)
  }

  /**
   * The integer a sort field orders by. Timestamps order by their
   * chronological key; a field without an integer order leaves the store
   * order in place.
   */
  function SortKey(sortBy: string, p: Catalog.Product): int
  {
    if sortBy == "createdAt" then Chrono(p.createdAt)
    else if sortBy == "updatedAt" then Chrono(p.updatedAt)
    else if sortBy == "price" then p.priceCents
    else if sortBy == "stock" then p.stock
    else if sortBy == "sales" then p.sales
    else if sortBy == "_id" then p.id
    else 0
  }

  /** The key a descending sort uses for the requested direction. */
  function DirectedKey(sortBy: string, ascending: bool): Catalog.Product -> int
  {
    (p: Catalog.Product) => if ascending then -SortKey(sortBy, p) else SortKey(sortBy, p)
  }

  /** The products matching `filter`, ordered on `sortBy` in the given direction. */
  function Ordered(filter: Filter, sortBy: string, ascending: bool, products: seq<Catalog.Product>,
                   textMatch: (string, Catalog.Product) -> bool): seq<Catalog.Product>
  {
    SortDesc(Sequences.Filter(products, (p: Catalog.Product) => Matches(filter, p, textMatch)),
             DirectedKey(sortBy, ascending))
  }

  /** All matches, in the requested order; the page and the page size play no part. */
  function Matching(params: Params, products: seq<Catalog.Product>, textMatch: (string, Catalog.Product) -> bool): seq<Catalog.Product>
  {
    Ordered(params.filter, params.sortBy, params.ascending, products, textMatch)
  }

  /** `Math.ceil(total / limit)` for a non-negative total and a positive limit. */
  function CeilDiv(total: nat, limit: Limit): nat
  {
    (total + limit - 1) / limit
  }

  /** The number of pages is the least page count that holds every match. */
  lemma CeilDivIsCeiling(total: nat, limit: Limit)
    ensures CeilDiv(total, limit) * limit >= total
    ensures total > 0 ==> (CeilDiv(total, limit) - 1) * limit < total
    ensures CeilDiv(total, limit) == 0 <==> total == 0
  {
    var q := CeilDiv(total, limit);
    var r := (total + limit - 1) % limit;
    assert q * limit + r == total + limit - 1;
    assert 0 <= r < limit;
  }

  /** Page `page` of `matches`: skip `(page - 1) * limit`, then at most `limit` items. */
  function PageOf<T>(matches: seq<T>, page: int, limit: Limit): (r: seq<T>)
    requires page >= 1
    ensures |r| <= limit
    ensures forall i :: 0 <= i < |r| ==> (page - 1) * limit + i < |matches| && r[i] == matches[(page - 1) * limit + i]
    ensures (page - 1) * limit < |matches| ==> |r| == if |matches| - (page - 1) * limit < limit then |matches| - (page - 1) * limit else limit
  {
    var skip := (page - 1) * limit;
    Take(Drop(matches, skip), limit)
  }

  /**
   * `GET /api/products`. No principal is 401. A page below 1 makes the skip
   * negative, which the database refuses, and the handler answers 500.
   */
  function List(principal: Option<Principal>, q: ListQuery, products: seq<Catalog.Product>,
                textMatch: (string, Catalog.Product) -> bool): (r: Response<ListPage>)
    ensures principal.None? ==> r == Failure(401, "Unauthorized", [])
    ensures principal.Some? && Resolve(q).page < 1 ==> r == Failure(500, "Internal server error", [])
    ensures r.Success? <==> principal.Some? && Resolve(q).page >= 1
    ensures r.Success? ==>
              var params := Resolve(q);
              var matches := Matching(params, products, textMatch);
              && r.status == 200
              && r.body.pagination == Pagination(params.page, params.limit, |matches|, CeilDiv(|matches|, params.limit))
              && r.body.products == PageOf(matches, params.page, params.limit)
  {
    if principal.None? then Failure(401, "Unauthorized", [])
    else
      var params := Resolve(q);
      if params.page < 1 then Failure(500, "Internal server error", [])
      else
        var matches := Matching(params, products, textMatch);
        Success(200, ListPage(PageOf(matches, params.page, params.limit),
                              Pagination(params.page, params.limit, |matches|, CeilDiv(|matches|, params.limit))))
  }

  /** Without parameters: page 1 of 10, newest first, no filter. */
  lemma DefaultQuery()
    ensures Resolve(ListQuery(None, None, None, None, None, None, None))
            == Params(1, 10, Filter(None, None, None), "createdAt", false)
  {
  }

  /** Every element of the ordering of matches is a stored product that matches the filter. */
  lemma MatchingMatches(params: Params, products: seq<Catalog.Product>, textMatch: (string, Catalog.Product) -> bool)
    ensures var matches := Matching(params, products, textMatch);
            forall i :: 0 <= i < |matches| ==> Matches(params.filter, matches[i], textMatch) && matches[i] in products
  {
    var keep := (p: Catalog.Product) => Matches(params.filter, p, textMatch);
    var filtered := Sequences.Filter(products, keep);
    var matches := Matching(params, products, textMatch);
    forall i | 0 <= i < |matches|
      ensures Matches(params.filter, matches[i], textMatch) && matches[i] in products
    {
      assert matches[i] in multiset(filtered);
      var k :| 0 <= k < |filtered| && filtered[k] == matches[i];
    }
  }

  /** A page of a sorted sequence is sorted. */
  lemma PageOfSorted<T>(matches: seq<T>, page: int, limit: Limit, key: T -> int)
    requires page >= 1 && SortedDesc(matches, key)
    ensures SortedDesc(PageOf(matches, page, limit), key)
  {
    var r := PageOf(matches, page, limit);
    var skip := (page - 1) * limit;
    forall i, j | 0 <= i < j < |r| ensures key(r[i]) >= key(r[j]) {
      assert r[i] == matches[skip + i] && r[j] == matches[skip + j];
    }
  }

  /** A page only holds elements of the sequence it is cut from. */
  lemma PageOfKeeps<T>(matches: seq<T>, page: int, limit: Limit, holds: T -> bool)
    requires page >= 1 && forall i :: 0 <= i < |matches| ==> holds(matches[i])
    ensures forall i :: 0 <= i < |PageOf(matches, page, limit)| ==> holds(PageOf(matches, page, limit)[i])
  {
    var r := PageOf(matches, page, limit);
    var skip := (page - 1) * limit;
    forall i | 0 <= i < |r| ensures holds(r[i]) {
      assert r[i] == matches[skip + i];
    }
  }

  /** Every listed product matches the filter, and the page is in the requested order. */
  lemma ListedProductsMatch(principal: Option<Principal>, q: ListQuery, products: seq<Catalog.Product>,
                            textMatch: (string, Catalog.Product) -> bool)
    requires List(principal, q, products, textMatch).Success?
    ensures var page := List(principal, q, products, textMatch).body.products;
            var params := Resolve(q);
            && (forall i :: 0 <= i < |page| ==> Matches(params.filter, page[i], textMatch) && page[i] in products)
            && SortedDesc(page, DirectedKey(params.sortBy, params.ascending))
  {
    var params := Resolve(q);
    var matches := Matching(params, products, textMatch);
    MatchingMatches(params, products, textMatch);
    PageOfSorted(matches, params.page, params.limit, DirectedKey(params.sortBy, params.ascending));
    PageOfKeeps(matches, params.page, params.limit,
                (x: Catalog.Product) => Matches(params.filter, x, textMatch) && x in products);
  }

  /** Position `j` lies on page `j / limit + 1`, at offset `j % limit`. */
  lemma PageArithmetic(j: nat, limit: Limit, n: nat)
    requires j < n
    ensures j / limit >= 0
    ensures (j / limit) * limit + j % limit == j
    ensures 0 <= j % limit < limit
    ensures j / limit + 1 <= CeilDiv(n, limit)
  {
    var p := j / limit + 1;
    assert j == (j / limit) * limit + j % limit;
    assert p * limit == (j / limit) * limit + limit;
    DivLowerBound(n + limit - 1, limit, p);
  }

  /**
   * Pages partition the matches: the match at position `j` of the ordering
   * is item `j % limit` of page `j / limit + 1`, and that page exists.
   */
  lemma EveryMatchOnItsPage(principal: Principal, q: ListQuery, products: seq<Catalog.Product>,
                            textMatch: (string, Catalog.Product) -> bool, j: nat)
    requires j < |Matching(Resolve(q), products, textMatch)|
    requires Resolve(q).page == j / Resolve(q).limit + 1
    ensures List(Some(principal), q, products, textMatch).Success?
    ensures var r := List(Some(principal), q, products, textMatch);
            && j % Resolve(q).limit < |r.body.products|
            && r.body.products[j % Resolve(q).limit] == Matching(Resolve(q), products, textMatch)[j]
            && r.body.pagination.page <= r.body.pagination.totalPages
  {
    var params := Resolve(q);
    var matches := Matching(params, products, textMatch);
    PageOfIndex(matches, j, params.limit);
  }

  /** Element `j` is at offset `j % limit` of page `j / limit + 1`, which is within the page count. */
  lemma PageOfIndex<T>(matches: seq<T>, j: nat, limit: Limit)
    requires j < |matches|
    ensures j / limit >= 0
    ensures var page := PageOf(matches, j / limit + 1, limit);
            j % limit < |page| && page[j % limit] == matches[j]
    ensures j / limit + 1 <= CeilDiv(|matches|, limit)
  {
    PageArithmetic(j, limit, |matches|);
    var p := j / limit + 1;
    var skip := (p - 1) * limit;
    var off := j % limit;
    assert skip + off == j;
    var page := PageOf(matches, p, limit);
    assert skip < |matches|;
    assert off < |page|;
    assert page[off] == matches[skip + off];
  }

  /** `k <= a / d` whenever `k * d <= a`. */
  lemma DivLowerBound(a: nat, d: Limit, k: nat)
    requires k * d <= a
    ensures k <= a / d
  {
    var q := a / d;
    assert a == q * d + a % d && a % d < d;
    assert (q + 1 - k) * d == q * d + d - k * d;
    PositiveFactor(q + 1 - k, d);
  }

  /** A product with a positive factor is positive only when the other factor is. */
  lemma PositiveFactor(x: int, d: Limit)
    requires x * d > 0
    ensures x > 0
  {
  }

  /** `total` counts every match, whatever page, page size or order is asked for. */
  lemma TotalIndependentOfPage(principal: Principal, q: ListQuery, q': ListQuery, products: seq<Catalog.Product>,
                               textMatch: (string, Catalog.Product) -> bool)
    requires q.search == q'.search && q.category == q'.category && q.status == q'.status
    requires List(Some(principal), q, products, textMatch).Success?
    requires List(Some(principal), q', products, textMatch).Success?
    ensures List(Some(principal), q, products, textMatch).body.pagination.total
            == List(Some(principal), q', products, textMatch).body.pagination.total
            == Count(products, (p: Catalog.Product) => Matches(Resolve(q).filter, p, textMatch))
  {
    var keep := (p: Catalog.Product) => Matches(Resolve(q).filter, p, textMatch);
    assert Resolve(q).filter == Resolve(q').filter;
    CountIsFilterLength(products, keep);
  }

  // ----------------------------------------------------------------- POST

  predicate SkuTaken(products: seq<Catalog.Product>, sku: string)
  {
    exists i :: 0 <= i < |products| && products[i].sku == sku
  }

  predicate SkusUnique(products: seq<Catalog.Product>)
  {
    forall i, j :: 0 <= i < j < |products| ==> products[i].sku != products[j].sku
  }

  function ToImages(images: seq<Validations.ImageInput>): (r: seq<Catalog.Image>)
    ensures |r| == |images|
    ensures forall i :: 0 <= i < |r| ==> r[i].url == images[i].url && r[i].publicId == images[i].publicId
  {
    if images == [] then []
    else [Catalog.Image(images[0].url, images[0].publicId)] + ToImages(images[1..])
  }

  /**
   * The document handed to the store: the validated fields with the SKU
   * upper-cased; `sales` is not part of the schema and takes its default.
   */
  function ToDocument(body: Validations.ProductInput): Catalog.NewProduct
  {
    Catalog.NewProduct(
      body.name, body.description, body.priceCents, body.category,
      Some(body.stock.Floor), Upper(body.sku),
      if body.images.Some? then Some(ToImages(body.images.value)) else None,
      Some(body.status), None)
  }

  /**
   * The store-side half of `POST /api/products` for a payload the schema
   * accepted: 409 when the normalised SKU is stored already, then the
   * store's own validation (its failure is a 500), then 201 with the new
   * product, whose fields are the validated ones.
   */
  function InsertOutcome(body: Validations.ProductInput, products: seq<Catalog.Product>, id: nat, now: DateTime)
    : Response<Catalog.Product>
    requires ValidDate(now)
  {
    if SkuTaken(products, Catalog.NormalizeSku(Upper(body.sku))) then
      Failure(409, "Product with this SKU already exists", [])
    else
      var created := Catalog.Create(ToDocument(body), id, now);
      if created.None? then Failure(500, "Internal server error", [])
      else Success(201, created.value)
  }

  /**
   * 409 exactly when the normalised SKU is already stored, otherwise 201
   * with the created product when the record validators accept it, 500 when
   * they do not.
   */
  lemma InsertOutcomeCases(body: Validations.ProductInput, products: seq<Catalog.Product>, id: nat, now: DateTime)
    requires ValidDate(now)
    ensures var r := InsertOutcome(body, products, id, now);
            && (SkuTaken(products, Catalog.NormalizeSku(body.sku))
                ==> r == Failure(409, "Product with this SKU already exists", []))
            && (r.Success? <==>
                  !SkuTaken(products, Catalog.NormalizeSku(body.sku)) && Catalog.Create(ToDocument(body), id, now).Some?)
            && (!r.Success? && !SkuTaken(products, Catalog.NormalizeSku(body.sku))
                ==> r == Failure(500, "Internal server error", []))
            && (r.Success? ==> r.status == 201 && r.body == Catalog.Create(ToDocument(body), id, now).value)
  {
    Catalog.NormalizeSkuOfUpper(body.sku);
  }

  /**
   * The product a 201 stores: well formed, under the next id, with the
   * normalised SKU, the trimmed name and the other fields as validated.
   */
  lemma InsertedProduct(body: Validations.ProductInput, products: seq<Catalog.Product>, id: nat, now: DateTime)
    requires ValidDate(now)
    requires InsertOutcome(body, products, id, now).Success?
    ensures var r := InsertOutcome(body, products, id, now);
              && Catalog.Wf(r.body)
              && r.body.id == id
              && r.body.sku == Catalog.NormalizeSku(body.sku)
              && r.body.name == Trim(body.name)
              && r.body.description == body.description
              && r.body.priceCents == body.priceCents
              && r.body.category == body.category
              && r.body.stock == body.stock.Floor
              && r.body.status == body.status
              && r.body.sales == 0
              && r.body.images == (if body.images.Some? then ToImages(body.images.value) else [])
              && r.body.createdAt == now
  {
    var doc := ToDocument(body);
    InsertOutcomeCases(body, products, id, now);
    var created := Catalog.Create(doc, id, now);
    assert created.Some? && InsertOutcome(body, products, id, now).body == created.value;
    assert created.value == Catalog.Cast(doc, id, now);
    Catalog.NormalizeSkuOfUpper(body.sku);
  }

  /**
   * The outcome of `POST /api/products` against the collection `products`:
   * 401 before anything else, then 400 with the schema's issues, then the
   * store-side outcome.
   */
  function CreateOutcome(principal: Option<Principal>, body: Validations.ProductInput, fmt: Validations.Formats,
                         products: seq<Catalog.Product>, id: nat, now: DateTime): (r: Response<Catalog.Product>)
    requires ValidDate(now)
    ensures principal.None? ==> r == Failure(401, "Unauthorized", [])
    ensures principal.Some? && !Validations.ProductValid(fmt, body)
            ==> r == Failure(400, "Invalid input", Validations.ProductIssues(fmt, body))
    ensures principal.Some? && Validations.ProductValid(fmt, body) ==> r == InsertOutcome(body, products, id, now)
    ensures r.Success? ==> principal.Some? && Validations.ProductValid(fmt, body)
  {
    if principal.None? then Failure(401, "Unauthorized", [])
    else if !Validations.ProductValid(fmt, body) then Failure(400, "Invalid input", Validations.ProductIssues(fmt, body))
    else InsertOutcome(body, products, id, now)
  }

  /** What every state of the collection satisfies. */
  predicate StoreInvariant(products: seq<Catalog.Product>, nextId: nat)
  {
    && (forall i :: 0 <= i < |products| ==> Catalog.Wf(products[i]))
    && SkusUnique(products)
    && (forall i :: 0 <= i < |products| ==> products[i].id < nextId)
  }

  /** Appending a created product keeps every stored product valid and the SKUs unique. */
  lemma CreatePreservesInvariant(principal: Option<Principal>, body: Validations.ProductInput, fmt: Validations.Formats,
                                 products: seq<Catalog.Product>, nextId: nat, now: DateTime)
    requires ValidDate(now) && StoreInvariant(products, nextId)
    requires CreateOutcome(principal, body, fmt, products, nextId, now).Success?
    ensures StoreInvariant(products + [CreateOutcome(principal, body, fmt, products, nextId, now).body], nextId + 1)
  {
    InsertPreservesInvariant(body, products, nextId, now);
  }

  /** The store-side half: a stored product extends a valid collection. */
  lemma InsertPreservesInvariant(body: Validations.ProductInput, products: seq<Catalog.Product>, nextId: nat, now: DateTime)
    requires ValidDate(now) && StoreInvariant(products, nextId)
    requires InsertOutcome(body, products, nextId, now).Success?
    ensures StoreInvariant(products + [InsertOutcome(body, products, nextId, now).body], nextId + 1)
  {
    var p := InsertOutcome(body, products, nextId, now).body;
    InsertedProduct(body, products, nextId, now);
    InsertOutcomeCases(body, products, nextId, now);
    AppendKeepsInvariant(products, nextId, p);
  }

  /** A valid product with a fresh SKU and the next id extends a valid collection. */
  lemma AppendKeepsInvariant(products: seq<Catalog.Product>, nextId: nat, p: Catalog.Product)
    requires StoreInvariant(products, nextId)
    requires Catalog.Wf(p) && p.id == nextId && !SkuTaken(products, p.sku)
    ensures StoreInvariant(products + [p], nextId + 1)
  {
    AppendAll(products, p, Catalog.Wf);
    AppendAll(products, p, (q: Catalog.Product) => q.id < nextId + 1);
    AppendKeepsSkusUnique(products, p);
  }

  /** A product whose SKU is not stored keeps the SKUs unique. */
  lemma AppendKeepsSkusUnique(products: seq<Catalog.Product>, p: Catalog.Product)
    requires SkusUnique(products) && !SkuTaken(products, p.sku)
    ensures SkusUnique(products + [p])
  {
    var ps := products + [p];
    forall i, j | 0 <= i < j < |ps| ensures ps[i].sku != ps[j].sku {
      assert ps[i] == products[i];
      if j < |products| {
        assert ps[j] == products[j];
      }
    }
  }

  /**
   * Once a SKU is stored, a payload whose SKU normalises to the same key
   * (any case, any surrounding white space) is refused with 409.
   */
  lemma SecondPostConflicts(body: Validations.ProductInput, body': Validations.ProductInput,
                            products: seq<Catalog.Product>, id: nat, id': nat, now: DateTime)
    requires ValidDate(now)
    requires InsertOutcome(body, products, id, now).Success?
    requires Catalog.NormalizeSku(body'.sku) == Catalog.NormalizeSku(body.sku)
    ensures InsertOutcome(body', products + [InsertOutcome(body, products, id, now).body], id', now)
            == Failure(409, "Product with this SKU already exists", [])
  {
    var p := InsertOutcome(body, products, id, now).body;
    var ps := products + [p];
    InsertedProduct(body, products, id, now);
    InsertOutcomeCases(body', ps, id', now);
    assert ps[|products|] == p;
    assert SkuTaken(ps, Catalog.NormalizeSku(body'.sku));
  }

  /** The product collection. */
  class ProductStore {
    var products: seq<Catalog.Product>
    var nextId: nat

    ghost predicate Valid()
      reads this
    {
      StoreInvariant(products, nextId)
    }

    constructor ()
      ensures Valid() && products == [] && nextId == 0
    {
      products := [];
      nextId := 0;
    }

    /** `GET /api/products`: reads the collection only. */
    method Get(principal: Option<Principal>, q: ListQuery, textMatch: (string, Catalog.Product) -> bool)
      returns (r: Response<ListPage>)
      ensures r == List(principal, q, products, textMatch)
    {
      r := List(principal, q, products, textMatch);
    }

    /** `Product.create`'s write: the product is stored under the next id. */
    method Append(p: Catalog.Product)
      requires StoreInvariant(products + [p], nextId + 1)
      modifies this
      ensures Valid()
      ensures products == old(products) + [p] && nextId == old(nextId) + 1
    {
      products, nextId := products + [p], nextId + 1;
    }

    /**
     * `POST /api/products`: on 201 the new product is appended and is the
     * only change; every other outcome leaves the collection as it was.
     */
    method Post(principal: Option<Principal>, body: Validations.ProductInput, fmt: Validations.Formats, now: DateTime)
      returns (r: Response<Catalog.Product>)
      requires Valid() && ValidDate(now)
      modifies this
      ensures Valid()
      ensures r == CreateOutcome(principal, body, fmt, old(products), old(nextId), now)
      ensures r.Success? ==> products == old(products) + [r.body] && nextId == old(nextId) + 1
      ensures !r.Success? ==> products == old(products) && nextId == old(nextId)
    {
      if principal.None? {
        return Failure(401, "Unauthorized", []);
      }
      if !Validations.ProductValid(fmt, body) {
        return Failure(400, "Invalid input", Validations.ProductIssues(fmt, body));
      }
      r := Insert(body, now);
    }

    /**
     * The store-side half of the create handler for a validated payload:
     * the SKU lookup, then `Product.create`.
     */
    method Insert(body: Validations.ProductInput, now: DateTime) returns (r: Response<Catalog.Product>)
      requires Valid() && ValidDate(now)
      modifies this
      ensures Valid()
      ensures r == InsertOutcome(body, old(products), old(nextId), now)
      ensures r.Success? ==> products == old(products) + [r.body] && nextId == old(nextId) + 1
      ensures !r.Success? ==> products == old(products) && nextId == old(nextId)
    {
      var before, id := products, nextId;
      r := InsertOutcome(body, before, id, now);
      if r.Success? {
        var p := r.body;
        InsertPreservesInvariant(body, before, id, now);
        Append(p);
      }
    }
  }
}
