/**
 * The request schemas of src/lib/validations.ts. Each schema becomes a
 * function from a typed payload to the list of issues the schema reports,
 * in the order of the schema's fields; a payload is valid when that list is
 * empty. Whether a string is a well-formed e-mail address or URL is the
 * schema library's own check: it enters the model through `Formats`.
 */
module Validations {
  import opened Common

  /** The library's format checks, left abstract. */
  datatype Formats = Formats(isEmail: string -> bool, isUrl: string -> bool)

  const Categories: seq<string> := ["Electronics", "Clothing", "Books", "Home & Garden", "Sports", "Toys", "Other"]
  const Statuses: seq<string> := ["active", "inactive", "draft"]
  const Roles: seq<string> := ["admin", "superadmin"]

  /** One check on one top-level field: no issue when it holds. */
  function Check(ok: bool, field: string, message: string): (r: seq<Issue>)
    ensures ok <==> r == []
    ensures !ok ==> r == [Issue([Key(field)], message)]
  {
    if ok then [] else [Issue([Key(field)], message)]
  }

  predicate IsInteger(x: real)
  {
    x == x.Floor as real
  }

  // ---------------------------------------------------------------- login

  datatype LoginInput = LoginInput(email: string, password: string)

  function LoginIssues(f: Formats, x: LoginInput): (r: seq<Issue>)
    ensures r == [] <==> f.isEmail(x.email) && |x.password| >= 6
    ensures Issue([Key("email")], "Invalid email address") in r <==> !f.isEmail(x.email)
    ensures Issue([Key("password")], "Password must be at least 6 characters") in r <==> |x.password| < 6
  {
    Check(f.isEmail(x.email), "email", "Invalid email address")
    + Check(|x.password| >= 6, "password", "Password must be at least 6 characters")
  }

  // ------------------------------------------------------- admin registration

  datatype RegisterInput = RegisterInput(name: string, email: string, password: string, confirmPassword: string, role: string)

  /**
   * The object schema's issues, then the password-confirmation refinement.
   * A role outside the enum aborts the object parse, and the schema library
   * does not run a refinement over an aborted parse; the length and format
   * checks only mark the parse dirty, after which the refinement still runs.
   */
  function RegisterIssues(f: Formats, x: RegisterInput): (r: seq<Issue>)
    ensures r == [] <==>
              |x.name| >= 2 && f.isEmail(x.email) && |x.password| >= 6
              && x.role in Roles && x.password == x.confirmPassword
    ensures x.role in Roles && x.password != x.confirmPassword
            ==> Issue([Key("confirmPassword")], "Passwords do not match") in r
    ensures x.password == x.confirmPassword
            ==> Issue([Key("confirmPassword")], "Passwords do not match") !in r
  {
    var fields :=
      Check(|x.name| >= 2, "name", "Name must be at least 2 characters")
      + Check(f.isEmail(x.email), "email", "Invalid email address")
      + Check(|x.password| >= 6, "password", "Password must be at least 6 characters")
      + Check(x.role in Roles, "role", "Invalid enum value");
    if x.role !in Roles then fields
    else fields + Check(x.password == x.confirmPassword, "confirmPassword", "Passwords do not match")
  }

  // ------------------------------------------------------ product step schemas

  datatype BasicInfoInput = BasicInfoInput(name: string, description: string, category: string)

  /** Prices are integer cents, so the schema's `min(0.01)` is `priceCents >= 1`. */
  datatype PricingInput = PricingInput(priceCents: int, stock: real, sku: string)

  datatype DetailsInput = DetailsInput(status: string)

  datatype ImageInput = ImageInput(url: string, publicId: string)

  function BasicInfoIssues(b: BasicInfoInput): (r: seq<Issue>)
    ensures r == [] <==>
              3 <= |b.name| <= 200 && 10 <= |b.description| <= 2000 && b.category in Categories
  {
    Check(|b.name| >= 3, "name", "Name must be at least 3 characters")
    + Check(|b.name| <= 200, "name", "String must contain at most 200 character(s)")
    + Check(|b.description| >= 10, "description", "Description must be at least 10 characters")
    + Check(|b.description| <= 2000, "description", "String must contain at most 2000 character(s)")
    + Check(b.category in Categories, "category", "Invalid enum value")
  }

  function PricingIssues(p: PricingInput): (r: seq<Issue>)
    ensures r == [] <==>
              p.priceCents >= 1 && IsInteger(p.stock) && p.stock >= 0.0 && 3 <= |p.sku| <= 50
  {
    Check(p.priceCents >= 1, "price", "Price must be greater than 0")
    + Check(IsInteger(p.stock), "stock", "Expected integer, received float")
    + Check(p.stock >= 0.0, "stock", "Stock cannot be negative")
    + Check(|p.sku| >= 3, "sku", "SKU must be at least 3 characters")
    + Check(|p.sku| <= 50, "sku", "String must contain at most 50 character(s)")
  }

  function DetailsIssues(d: DetailsInput): (r: seq<Issue>)
    ensures r == [] <==> d.status in Statuses
  {
    Check(d.status in Statuses, "status", "Invalid enum value")
  }

  // --------------------------------------------------------- full product schema

  datatype ProductInput = ProductInput(
    name: string, description: string, category: string,
    priceCents: int, stock: real, sku: string,
    status: string,
    images: Option<seq<ImageInput>>)

  function UrlIssue(position: nat): Issue
  {
    Issue([Key("images"), Index(position), Key("url")], "Invalid url")
  }

  /** `issue` reports a bad `url` at some entry of `images`, counted from `offset`. */
  predicate IsUrlIssueFor(f: Formats, images: seq<ImageInput>, offset: nat, issue: Issue)
  {
    exists i :: 0 <= i < |images| && issue == UrlIssue(offset + i) && !f.isUrl(images[i].url)
  }

  /** The `url` issues of the image entries, numbered from `offset`. */
  function ImageUrlIssues(f: Formats, images: seq<ImageInput>, offset: nat): (r: seq<Issue>)
    ensures r == [] <==> forall i :: 0 <= i < |images| ==> f.isUrl(images[i].url)
    ensures forall i :: 0 <= i < |images| && !f.isUrl(images[i].url) ==> UrlIssue(offset + i) in r
    ensures forall k :: 0 <= k < |r| ==> IsUrlIssueFor(f, images, offset, r[k])
  {
    if images == [] then []
    else
      var tail := ImageUrlIssues(f, images[1..], offset + 1);
      ImageUrlIssuesCons(f, images, offset, tail);
      (if f.isUrl(images[0].url) then [] else [UrlIssue(offset)]) + tail
  }

  /** The issues of the first entry followed by those of the rest are the issues of all. */
  lemma ImageUrlIssuesCons(f: Formats, images: seq<ImageInput>, offset: nat, tail: seq<Issue>)
    requires images != []
    requires tail == [] <==> forall i :: 0 <= i < |images| - 1 ==> f.isUrl(images[1..][i].url)
    requires forall i :: 0 <= i < |images| - 1 && !f.isUrl(images[1..][i].url) ==> UrlIssue(offset + 1 + i) in tail
    requires forall k :: 0 <= k < |tail| ==> IsUrlIssueFor(f, images[1..], offset + 1, tail[k])
    ensures var r := (if f.isUrl(images[0].url) then [] else [UrlIssue(offset)]) + tail;
            && (r == [] <==> forall i :: 0 <= i < |images| ==> f.isUrl(images[i].url))
            && (forall i :: 0 <= i < |images| && !f.isUrl(images[i].url) ==> UrlIssue(offset + i) in r)
            && (forall k :: 0 <= k < |r| ==> IsUrlIssueFor(f, images, offset, r[k]))
  {
    var head := if f.isUrl(images[0].url) then [] else [UrlIssue(offset)];
    var r := head + tail;
    forall k | 0 <= k < |tail| ensures IsUrlIssueFor(f, images, offset, tail[k]) {
      var j :| 0 <= j < |images| - 1 && tail[k] == UrlIssue(offset + 1 + j) && !f.isUrl(images[1..][j].url);
      assert tail[k] == UrlIssue(offset + (j + 1)) && !f.isUrl(images[j + 1].url);
    }
    forall i | 0 <= i < |images| && !f.isUrl(images[i].url) ensures UrlIssue(offset + i) in r {
      if i > 0 {
        assert images[1..][i - 1] == images[i];
        assert UrlIssue(offset + 1 + (i - 1)) in tail;
      }
    }
    forall k | 0 <= k < |r| ensures IsUrlIssueFor(f, images, offset, r[k]) {
      if k >= |head| {
        assert r[k] == tail[k - |head|];
      }
    }
    if r == [] {
      forall i | 0 <= i < |images| ensures f.isUrl(images[i].url) {
        if i > 0 {
          assert images[1..][i - 1] == images[i];
        }
      }
    }
  }

  /** The optional `images` list: absent is fine, present needs URL-valid entries. */
  function ImagesIssues(f: Formats, images: Option<seq<ImageInput>>): seq<Issue>
  {
    if images.None? then [] else ImageUrlIssues(f, images.value, 0)
  }

  predicate ImagesValid(f: Formats, images: Option<seq<ImageInput>>)
  {
    images.Some? ==> forall i :: 0 <= i < |images.value| ==> f.isUrl(images.value[i].url)
  }

  /**
   * `productSchema`: the same field checks, written out a second time (the
   * source repeats them), then the images. The issues come in field order.
   */
  function ProductIssues(f: Formats, x: ProductInput): seq<Issue>
  {
    (Check(|x.name| >= 3, "name", "Name must be at least 3 characters")
     + Check(|x.name| <= 200, "name", "String must contain at most 200 character(s)")
     + Check(|x.description| >= 10, "description", "Description must be at least 10 characters")
     + Check(|x.description| <= 2000, "description", "String must contain at most 2000 character(s)")
     + Check(x.category in Categories, "category", "Invalid enum value"))
    + (Check(x.priceCents >= 1, "price", "Price must be greater than 0")
       + Check(IsInteger(x.stock), "stock", "Expected integer, received float")
       + Check(x.stock >= 0.0, "stock", "Stock cannot be negative")
       + Check(|x.sku| >= 3, "sku", "SKU must be at least 3 characters")
       + Check(|x.sku| <= 50, "sku", "String must contain at most 50 character(s)"))
    + Check(x.status in Statuses, "status", "Invalid enum value")
    + ImagesIssues(f, x.images)
  }

  predicate ProductValid(f: Formats, x: ProductInput)
  {
    ProductIssues(f, x) == []
  }

  function BasicInfoOf(x: ProductInput): BasicInfoInput
  {
    BasicInfoInput(x.name, x.description, x.category)
  }

  function PricingOf(x: ProductInput): PricingInput
  {
    PricingInput(x.priceCents, x.stock, x.sku)
  }

  function DetailsOf(x: ProductInput): DetailsInput
  {
    DetailsInput(x.status)
  }

  /**
   * The full schema reports exactly the step schemas' issues, in step order,
   * followed by the image issues.
   */
  lemma ProductIssuesAreStepIssues(f: Formats, x: ProductInput)
    ensures ProductIssues(f, x)
            == BasicInfoIssues(BasicInfoOf(x)) + PricingIssues(PricingOf(x))
               + DetailsIssues(DetailsOf(x)) + ImagesIssues(f, x.images)
  {
  }

  /** So a payload is valid for the full schema iff each step schema and the image list accept it. */
  lemma ProductValidIffSteps(f: Formats, x: ProductInput)
    ensures ProductValid(f, x) <==>
              BasicInfoIssues(BasicInfoOf(x)) == [] && PricingIssues(PricingOf(x)) == []
              && DetailsIssues(DetailsOf(x)) == [] && ImagesValid(f, x.images)
  {
    ProductIssuesAreStepIssues(f, x);
  }
}
