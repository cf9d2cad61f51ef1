/**
 * The stored product record of src/models/Product.ts: its fields, the
 * constraints the document mapper enforces on save, the `trim` and
 * `uppercase` setters, and the defaults. Prices are integer cents.
 */
module Catalog {
  import opened Common
  import opened Text
  import Validations
  import Sequences

  datatype Image = Image(url: string, publicId: string)

  datatype Product = Product(
    id: nat,
    name: string,
    description: string,
    priceCents: int,
    category: string,
    stock: int,
    sku: string,
    images: seq<Image>,
    status: string,
    sales: int,
    createdAt: DateTime,
    updatedAt: DateTime)

  /** The SKU setters: `trim` and `uppercase` (in either order, see UpperTrimCommute). */
  function NormalizeSku(s: string): string
  {
    Upper(Trim(s))
  }

  /** Normalising a normalised SKU changes nothing, so stored SKUs are fixed points. */
  lemma NormalizeSkuIdempotent(s: string)
    ensures NormalizeSku(NormalizeSku(s)) == NormalizeSku(s)
  {
    var t := Trim(s);
    UpperTrimCommute(t);
    TrimIdempotent(s);
    UpperIdempotent(t);
  }

  /**
   * Upper-casing the SKU before the setters run (as the create handler
   * does) changes nothing: the stored and looked-up key is the same.
   */
  lemma NormalizeSkuOfUpper(s: string)
    ensures NormalizeSku(Upper(s)) == NormalizeSku(s)
  {
    UpperTrimCommute(Upper(s));
    UpperIdempotent(s);
    UpperTrimCommute(s);
  }

  predicate ImageWf(img: Image)
  {
    img.url != "" && img.publicId != ""
  }

  /** What the setters guarantee: a trimmed name and a normalised SKU. */
  predicate Normalized(p: Product)
  {
    Trim(p.name) == p.name && NormalizeSku(p.sku) == p.sku
  }

  /**
   * What the validators check: required strings are non-empty, the length
   * bounds, the non-negative numbers, the two enumerations and complete
   * image entries.
   */
  predicate Constrained(p: Product)
  {
    && p.name != "" && |p.name| <= 200
    && p.description != "" && |p.description| <= 2000
    && p.priceCents >= 0
    && p.category in Validations.Categories
    && p.stock >= 0
    && p.sku != ""
    && (forall i :: 0 <= i < |p.images| ==> ImageWf(p.images[i]))
    && p.status in Validations.Statuses
    && p.sales >= 0
  }

  /** What every stored product satisfies. */
  predicate Wf(p: Product)
  {
    Normalized(p) && Constrained(p) && ValidDate(p.createdAt) && ValidDate(p.updatedAt)
  }

  /** The document a handler hands to `Product.create`; `None` is an absent field. */
  datatype NewProduct = NewProduct(
    name: string,
    description: string,
    priceCents: int,
    category: string,
    stock: Option<int>,
    sku: string,
    images: Option<seq<Image>>,
    status: Option<string>,
    sales: Option<int>)

  function GetOr<T>(o: Option<T>, default: T): T
  {
    if o.Some? then o.value else default
  }

  /**
   * Casting a new document: the setters run, absent fields take their
   * defaults (stock 0, no images, status "draft", sales 0) and both
   * timestamps are set to `now`.
   */
  function Cast(doc: NewProduct, id: nat, now: DateTime): (p: Product)
    ensures p.name == Trim(doc.name) && p.sku == NormalizeSku(doc.sku)
    ensures doc.stock.None? ==> p.stock == 0
    ensures doc.images.None? ==> p.images == []
    ensures doc.status.None? ==> p.status == "draft"
    ensures doc.sales.None? ==> p.sales == 0
    ensures p.createdAt == now && p.updatedAt == now && p.id == id
  {
    Product(id, Trim(doc.name), doc.description, doc.priceCents, doc.category,
            GetOr(doc.stock, 0), NormalizeSku(doc.sku), GetOr(doc.images, []),
            GetOr(doc.status, "draft"), GetOr(doc.sales, 0), now, now)
  }

  /** The setters' results are fixed points, so a cast document is normalised. */
  lemma CastIsNormalized(doc: NewProduct, id: nat, now: DateTime)
    ensures Normalized(Cast(doc, id, now))
  {
    TrimIdempotent(doc.name);
    NormalizeSkuIdempotent(doc.sku);
  }

  /** A schema path of the product model, as it keys a validation error. */
  datatype Path = Name | Description | Price | Category | Stock | Sku | Images | Status | Sales

  /** The schema's paths, in declaration order. */
  const SchemaPaths: seq<Path> := [Name, Description, Price, Category, Stock, Sku, Images, Status, Sales]

  /** Whether the validators declared on `path` reject the document. */
  predicate Rejects(p: Product, path: Path)
  {
    match path
    case Name => p.name == "" || |p.name| > 200
    case Description => p.description == "" || |p.description| > 2000
    case Price => p.priceCents < 0
    case Category => p.category !in Validations.Categories
    case Stock => p.stock < 0
    case Sku => p.sku == ""
    case Images => exists i :: 0 <= i < |p.images| && !ImageWf(p.images[i])
    case Status => p.status !in Validations.Statuses
    case Sales => p.sales < 0
  }

  /** The paths whose validators reject the cast document, in schema order. */
  function ValidationErrors(p: Product): (errors: seq<Path>)
    ensures errors == [] <==> Constrained(p)
  {
    RejectedPathsFiltered(p);
    EveryPathDeclared(p);
    Sequences.Filter(SchemaPaths, (path: Path) => Rejects(p, path))
  }

  lemma RejectedPathsFiltered(p: Product)
    ensures forall path :: path in Sequences.Filter(SchemaPaths, (path: Path) => Rejects(p, path)) <==> Rejects(p, path)
  {
    Sequences.FilterMembers(SchemaPaths, (path: Path) => Rejects(p, path));
    EveryPathDeclared(p);
  }

  /** A path is reported exactly when its own validators reject the document. */
  lemma ValidationErrorsReportRejectedPaths(p: Product)
    ensures forall path :: path in ValidationErrors(p) <==> Rejects(p, path)
  {
    RejectedPathsFiltered(p);
  }

  /** Every path is declared, and the document is constrained exactly when no path rejects it. */
  lemma EveryPathDeclared(p: Product)
    ensures forall path :: path in SchemaPaths
    ensures Constrained(p) <==> forall path :: !Rejects(p, path)
  {
    forall path: Path ensures path in SchemaPaths {
      match path
      case Name => assert SchemaPaths[0] == path;
      case Description => assert SchemaPaths[1] == path;
      case Price => assert SchemaPaths[2] == path;
      case Category => assert SchemaPaths[3] == path;
      case Stock => assert SchemaPaths[4] == path;
      case Sku => assert SchemaPaths[5] == path;
      case Images => assert SchemaPaths[6] == path;
      case Status => assert SchemaPaths[7] == path;
      case Sales => assert SchemaPaths[8] == path;
    }
    if !Constrained(p) {
      var path :| path in SchemaPaths && Rejects(p, path);
    }
  }

  /**
   * `Product.create`: cast, then validate; a document that fails validation
   * is not stored (the store raises a validation error instead).
   */
  function Create(doc: NewProduct, id: nat, now: DateTime): (r: Option<Product>)
    requires ValidDate(now)
    ensures r.Some? ==> Wf(r.value) && r.value.sku == NormalizeSku(doc.sku) && r.value.name == Trim(doc.name)
    ensures r.Some? <==>
              && Trim(doc.name) != "" && |Trim(doc.name)| <= 200
              && doc.description != "" && |doc.description| <= 2000
              && doc.priceCents >= 0
              && doc.category in Validations.Categories
              && GetOr(doc.stock, 0) >= 0
              && NormalizeSku(doc.sku) != ""
              && (forall i :: 0 <= i < |GetOr(doc.images, [])| ==> ImageWf(GetOr(doc.images, [])[i]))
              && GetOr(doc.status, "draft") in Validations.Statuses
              && GetOr(doc.sales, 0) >= 0
  {
    var p := Cast(doc, id, now);
    CastIsNormalized(doc, id, now);
    if ValidationErrors(p) == [] then Some(p) else None
  }
}
