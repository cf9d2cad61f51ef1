# Inventory admin dashboard: a verified model of its rules

The system is a Next.js admin dashboard over a MongoDB product catalogue. Its
server side has a request gatekeeper, request schemas, a product record schema
and handlers for products, dashboard statistics, admin registration and login.
The client side has a product list page and a four-step product-creation
wizard. This project models the deterministic rules underneath, in Dafny, and
proves what those rules promise.

One module per source file or shared concern:

- `Common` (common.dfy): the shared values. These are optional values, validation issues (path and message), JSON replies with a status code, the session principal, and UTC timestamps with a chronological key.
- `Text` (text.dfy): the string operations the record schema and handlers use. These are prefix tests, ECMAScript `trim`, ASCII upper-casing and `x || default`.
- `Gatekeeper` (gatekeeper.dfy): `src/middleware.ts`. It is a decision over the path, the session cookie and a token-verification predicate.
- `Validations` (validations.dfy): the zod schemas of `src/lib/validations.ts`. Each schema is a function to the issues it reports.
- `Catalog` (catalog.dfy): the product record of `src/models/Product.ts`. It covers the fields, the `trim`/`uppercase` setters, the defaults, the validators and `Product.create`.
- `Sequences` (sequences.dfy): the collection operations the handlers ask of the database. These are filter, count, sum, a stable sort on an integer key, skip and limit.
- `ProductsApi` (products_api.dfy): `GET /api/products` as a function, and `POST /api/products` as a method on a product store class.
- `DashboardApi` (dashboard_api.dfy): `GET /api/dashboard`. It is written as group-by buckets, counts, sums, the month table and the top-five lists.
- `AuthApi` (auth_api.dfy): `POST`/`GET /api/auth/register` on a user store class, and `POST /api/auth/login`. The login decision is a function; the cookie is set in place on a reply object.
- `NewProductPage` (new_product_page.dfy): the creation wizard. It is a class whose handlers update the step, the form data, the images and the error.
- `ProductsPage` (products_page.dfy): the list page's filter and page state, its query, the range it shows, its button guards and its stock colours.

Prices are integer cents throughout. The schema's `min(0.01)` is therefore
`priceCents >= 1`, and the revenue and stock-value sums are exact integers.

## Model

| member | source | states |
|---|---|---|
| Gatekeeper.PublicPathsUnfold | src/middleware.ts:5 | A path is public exactly when it starts with `/login` or `/api/auth/login` |
| Gatekeeper.Middleware | src/middleware.ts:11-53 | Redirects go only to `/login` or `/dashboard`. A 401 only ever answers an `/api/` path. `/dashboard` is chosen exactly for `/login` with a verifying token. Without a usable token only public or static paths pass |
| Gatekeeper.PublicPathsPass | src/middleware.ts:11-24 | A public path passes, except exactly `/login` with a verifying token, which redirects to `/dashboard`. A failing token on `/login` falls back to passing |
| Gatekeeper.LoginEndpointNeverBlocked | src/middleware.ts:11-35 | `/api/auth/login` passes whatever the cookie, because the public check runs first |
| Gatekeeper.StaticPathsSkipTokenCheck | src/middleware.ts:27-33 | A non-public path under `/_next` or `/favicon`, or containing `.`, passes without any token check |
| Gatekeeper.MissingTokenOutcome | src/middleware.ts:35-42 | With no token, an `/api/` path gets 401 "Unauthorized" and any other guarded path redirects to `/login` |
| Gatekeeper.PresentTokenOutcome | src/middleware.ts:44-53 | A verifying token passes. A failing one gets 401 "Invalid token" on `/api/` paths and a redirect to `/login` elsewhere |
| Gatekeeper.MatcherIsRedundant | src/middleware.ts:56-58 | The route matcher's exclusions change no decision, since every excluded path passes anyway |
| Text.Trim | src/models/Product.ts:25 | The result is empty or starts and ends with a character that is not ECMAScript white space |
| Text.TrimIsPaddedSlice | src/models/Product.ts:25 | The trimmed string is a slice of the input with only white space before and after it |
| Text.TrimIdempotent | src/models/Product.ts:25 | Trimming twice is trimming once |
| Text.Upper | src/models/Product.ts:53 | On ASCII letters, upper-casing keeps the length, maps each character to its capital, and leaves no letter `a`-`z`; other characters are kept |
| Text.UpperIdempotent | src/models/Product.ts:53 | Upper-casing twice is upper-casing once |
| Text.UpperTrimCommute | src/models/Product.ts:53-54 | Trimming and upper-casing commute, so the setters' order does not matter |
| Text.OrDefault | src/app/api/products/route.ts:19-22 | `x \|\| d` is `d` exactly when the parameter is absent or empty |
| Validations.Check | src/lib/validations.ts:3-47 | One field check reports nothing when it holds and exactly one issue at that field otherwise |
| Validations.LoginIssues | src/lib/validations.ts:3-6 | A login payload is valid iff the e-mail is well formed and the password has at least 6 characters. Each failure is reported at its field |
| Validations.RegisterIssues | src/lib/validations.ts:8-17 | Valid iff the name has ≥ 2 characters, the e-mail is well formed, the password has ≥ 6 characters, the role is admin or superadmin, and the passwords match. A mismatch with a valid role is reported at `confirmPassword` |
| Validations.BasicInfoIssues | src/lib/validations.ts:19-23 | Valid iff the name has 3..200 characters, the description 10..2000, and the category is one of the seven |
| Validations.PricingIssues | src/lib/validations.ts:25-29 | Valid iff price ≥ 1 cent, stock is an integer ≥ 0, and the SKU has 3..50 characters |
| Validations.DetailsIssues | src/lib/validations.ts:31-33 | Valid iff the status is active, inactive or draft |
| Validations.ImageUrlIssues | src/lib/validations.ts:43-46 | No issue iff every image URL is well formed. Every bad URL is reported at `images[i].url`, and every issue names a bad URL |
| Validations.ProductIssuesAreStepIssues | src/lib/validations.ts:19-47 | The full schema reports exactly the step schemas' issues in step order, then the image issues |
| Validations.ProductValidIffSteps | src/lib/validations.ts:19-47 | A payload is valid for the full schema iff each step schema accepts its fields and the image list is valid |
| Catalog.NormalizeSkuIdempotent | src/models/Product.ts:49-55 | A stored SKU is a fixed point of the setters |
| Catalog.NormalizeSkuOfUpper | src/models/Product.ts:53-54 | Upper-casing before the setters run (as the create handler does) yields the same stored SKU |
| Catalog.Cast | src/models/Product.ts:22-75 | The name is trimmed and the SKU normalised. Absent stock, images, status and sales default to 0, none, `draft` and 0. Both timestamps are the creation time |
| Catalog.CastIsNormalized | src/models/Product.ts:22-75 | A cast document is normalised: its trimmed name and upper-cased SKU are fixed points of the setters |
| Catalog.ValidationErrors | src/models/Product.ts:22-71 | No error iff every field constraint holds |
| Catalog.ValidationErrorsReportRejectedPaths | src/models/Product.ts:22-71 | A path is reported iff the validators declared on that path reject the document (`Rejects`, one case per schema path: name, description, price, category, stock, sku, images, status, sales) |
| Catalog.EveryPathDeclared | src/models/Product.ts:22-71 | Every schema path is in the path list, and the field constraints all hold iff no path rejects the document |
| Catalog.Create | src/models/Product.ts:20-76 | A created product is well formed: trimmed name, normalised non-empty SKU, bounds, enumerations, complete images, non-negative numbers. Creation succeeds exactly when the cast document meets every constraint |
| Sequences.Filter | src/app/api/products/route.ts:42 | The result keeps exactly the elements that satisfy the condition, and only elements of the input |
| Sequences.FilterMembers | src/app/api/products/route.ts:42 | A value is in the result iff it is in the input and satisfies the condition |
| Sequences.FilterMultiplicity | src/app/api/products/route.ts:42 | A kept value occurs as often as in the input; a dropped one does not occur |
| Sequences.Count | src/app/api/dashboard/route.ts:26-29 | A count is at most the collection's size, and 0 exactly when no element qualifies |
| Sequences.CountIsFilterLength | src/app/api/products/route.ts:42-47 | Counting matches equals the length of the filtered list |
| Sequences.DisjointCounts | src/app/api/dashboard/route.ts:28-29 | Two conditions that never hold together count at most the whole collection |
| Sequences.SortDesc | src/app/api/dashboard/route.ts:30-39 | The result is ordered by the key, largest first, and is a permutation of the input |
| Sequences.SumSortDesc | src/app/api/dashboard/route.ts:30-37 | Sorting does not change a sum over the elements |
| Sequences.SortDescDistinctBy | src/app/api/dashboard/route.ts:52-61 | Sorting keeps distinct group keys distinct |
| Sequences.TakeOfSortDesc | src/app/api/dashboard/route.ts:38-39 | The first n after sorting stay sorted, come from the input, and nothing left out has a larger key than one kept |
| ProductsApi.Resolve | src/app/api/products/route.ts:17-37 | Page and limit default to 1 and 10, and sortBy to `createdAt`. Ascending iff sortOrder is exactly `asc`. Each filter field is set iff its parameter is non-empty, and then holds that parameter |
| ProductsApi.DefaultQuery | src/app/api/products/route.ts:17-23 | An empty query is page 1 of 10, newest first, unfiltered |
| ProductsApi.CeilDivIsCeiling | src/app/api/products/route.ts:56 | totalPages is the least page count that holds every match, and 0 exactly when there are none |
| ProductsApi.PageOf | src/app/api/products/route.ts:39-46 | A page holds at most `limit` items. Item i is match `(page-1)*limit + i`. The page is full unless it is the last |
| ProductsApi.List | src/app/api/products/route.ts:9-58 | 401 without a session. 500 for a page below 1, since the database refuses a negative skip. Otherwise 200 with that page of the sorted matches, `total` = number of matches and totalPages = ceil(total/limit) |
| ProductsApi.MatchingMatches | src/app/api/products/route.ts:25-46 | Every sorted match satisfies the filter and is a stored product |
| ProductsApi.ListedProductsMatch | src/app/api/products/route.ts:39-46 | Every listed product matches the filter and the page is in sort order |
| ProductsApi.EveryMatchOnItsPage | src/app/api/products/route.ts:39-46 | Match j appears on page `j / limit + 1`, at position `j % limit`, and that page exists |
| ProductsApi.TotalIndependentOfPage | src/app/api/products/route.ts:47-56 | Two queries with the same filter report the same total whatever their page and limit |
| ProductsApi.InsertOutcomeCases | src/app/api/products/route.ts:87-100 | 409 iff the normalised SKU is already stored. Otherwise 201 with the created product when the record validators accept the cast payload, and 500 when they refuse it |
| ProductsApi.InsertedProduct | src/app/api/products/route.ts:95-100 | A 201 stores a well-formed product under the next id. It has the normalised SKU and the trimmed name, the payload's description, price, category, stock, status and images, 0 sales, and the request time as creation time |
| ProductsApi.InsertPreservesInvariant | src/app/api/products/route.ts:87-100 | Appending a 201's product keeps every stored product well formed, ids below the counter, and SKUs unique |
| ProductsApi.AppendKeepsInvariant | src/app/api/products/route.ts:87-98 | A well-formed product with the next id and a SKU not yet stored extends a valid store to a valid store |
| ProductsApi.CreateOutcome | src/app/api/products/route.ts:70-100 | 401 before anything, then 400 with the schema's issues, then the insert. A 201 implies a session and a valid payload |
| ProductsApi.CreatePreservesInvariant | src/app/api/products/route.ts:95-100 | A successful create keeps every stored product well formed, ids below the counter, and SKUs unique |
| ProductsApi.SecondPostConflicts | src/app/api/products/route.ts:87-93 | After a successful create, a payload whose SKU normalises to the same value gets 409 |
| ProductsApi.ProductStore.constructor | src/models/Product.ts:83-84 | The store starts empty and satisfies its invariant |
| ProductsApi.ProductStore.Get | src/app/api/products/route.ts:7-58 | The listing reads the store and is `List` of its contents |
| ProductsApi.ProductStore.Post | src/app/api/products/route.ts:68-100 | Keeps the invariant. The reply is `CreateOutcome` of the old store. 201 appends exactly the new product; every other reply leaves the store unchanged |
| ProductsApi.ProductStore.Insert | src/app/api/products/route.ts:87-98 | Keeps the invariant. The reply is `InsertOutcome` of the old store. Only a 201 appends |
| ProductsApi.ProductStore.Append | src/app/api/products/route.ts:95-98 | `Product.create`'s write appends exactly that product and advances the id counter, keeping the invariant |
| DashboardApi.GroupByKeys | src/app/api/dashboard/route.ts:30-37 | The buckets have distinct keys, and there is a bucket for a key iff some product has it |
| DashboardApi.GroupBySums | src/app/api/dashboard/route.ts:30-37 | Each bucket holds its key's count and its sums of stock, sales and sales·price |
| DashboardApi.GroupByTotal | src/app/api/dashboard/route.ts:30-37 | The buckets' sums add up to the sum over the whole collection |
| DashboardApi.PermutedBucketSums | src/app/api/dashboard/route.ts:52-61 | Any reordering of the buckets, such as a `$sort`, still holds each key's sums |
| DashboardApi.Statistics | src/app/api/dashboard/route.ts:26-84 | totalProducts is the collection's size. Both value totals are 0 for an empty collection. The two top lists hold at most five products |
| DashboardApi.Dashboard | src/app/api/dashboard/route.ts:8-84 | 401 without a session, otherwise 200 with the statistics |
| DashboardApi.OverviewCounts | src/app/api/dashboard/route.ts:26-29 | active ≤ total, and lowStock (0 < stock ≤ 10) + outOfStock (stock = 0) ≤ total |
| DashboardApi.CategoryStatsFacts | src/app/api/dashboard/route.ts:30-33 | categoryStats has one entry per category, each holding its count and stock sum. It is sorted by count, largest first, and the counts add up to totalProducts |
| DashboardApi.SalesStatsOrdered | src/app/api/dashboard/route.ts:34-37 | salesStats has one entry per category, sorted by units sold, largest first |
| DashboardApi.SalesStatsSums | src/app/api/dashboard/route.ts:34-37 | Each salesStats entry holds its category's Σ sales and Σ sales·price |
| DashboardApi.SalesStatsRevenueTotal | src/app/api/dashboard/route.ts:34-49 | The per-category revenues add up to totalSalesValue |
| DashboardApi.MonthKeysValid | src/app/api/dashboard/route.ts:55 | Every month bucket's key is a month number 1..12 |
| DashboardApi.MonthBucketsAscending | src/app/api/dashboard/route.ts:52-61 | The month buckets are keyed 1..12 and come in strictly ascending month order |
| DashboardApi.MonthBucketSums | src/app/api/dashboard/route.ts:52-61 | Each month bucket holds Σ sales and Σ sales·price over the products created in its month |
| DashboardApi.MonthlySalesSums | src/app/api/dashboard/route.ts:52-68 | Entry i is labelled `monthNames[m-1]` for its month m and holds Σ sales and Σ sales·price over every product created in month m, of any year |
| DashboardApi.MonthlySalesCoverAllMonths | src/app/api/dashboard/route.ts:52-61 | Every month in which some product was created has an entry |
| DashboardApi.RecentProductsFacts | src/app/api/dashboard/route.ts:38 | At most five products (fewer only if the collection is smaller), all from the collection, newest first. None left out is newer than one shown |
| DashboardApi.TopSellingFacts | src/app/api/dashboard/route.ts:39 | At most five products (fewer only if fewer have sales), each with sales > 0, in descending sales order. None left out sold more than one shown |
| DashboardApi.TopSellingHaveSales | src/app/api/dashboard/route.ts:39 | Every top seller is a stored product with sales > 0 |
| AuthApi.RegisterOutcome | src/app/api/auth/register/route.ts:11-55 | 403 unless a superadmin, then 400 with the schema's issues, then 409 for a registered e-mail. 201 exactly when all three pass, replying `{id, email, name, role}` |
| AuthApi.RegisterKeepsEmailsUnique | src/app/api/auth/register/route.ts:32-45 | A successful registration keeps e-mail addresses unique |
| AuthApi.SecondRegisterConflicts | src/app/api/auth/register/route.ts:32-38 | Registering the same e-mail again after a success gets 409 |
| AuthApi.Admins | src/app/api/auth/register/route.ts:69-79 | 403 unless a superadmin. Otherwise 200 with one entry per account |
| AuthApi.AdminsListEveryAccount | src/app/api/auth/register/route.ts:77 | The listing is every account's password-free view, and only those, newest first |
| AuthApi.FindByEmail | src/app/api/auth/login/route.ts:23 | Finds nothing iff no account has the address; otherwise an account holding it |
| AuthApi.FindByEmailUnique | src/app/api/auth/login/route.ts:23 | With unique addresses the lookup finds the account holding the address |
| AuthApi.LoginOutcome | src/app/api/auth/login/route.ts:12-53 | 400 with the schema's issues before any lookup. Every later failure is the identical 401 "Invalid email or password", including an unknown address. A success carries an account with that address whose password matched, the summary `{id, email, name, role}` and the token payload (id, email, role) |
| AuthApi.LoginSucceedsIff | src/app/api/auth/login/route.ts:23-53 | For a registered address, a valid login succeeds iff that account's password matches. The reply and token carry that account |
| AuthApi.SessionCookieOptions | src/app/api/auth/login/route.ts:55-61 | httpOnly, sameSite `lax`, path `/`, maxAge 604800 s, secure iff in production |
| AuthApi.HttpResponse.SetCookie | src/app/api/auth/login/route.ts:55 | Sets that one cookie and keeps the others |
| AuthApi.UserStore.constructor | src/app/api/auth/register/route.ts:40 | The store starts empty with unique addresses |
| AuthApi.UserStore.Register | src/app/api/auth/register/route.ts:7-55 | Keeps addresses unique. The reply is `RegisterOutcome` of the old accounts. 201 adds exactly the account (name, email, password, role; no confirmation); any other reply changes nothing |
| AuthApi.UserStore.ListAdmins | src/app/api/auth/register/route.ts:65-79 | Reads the accounts and replies with `Admins` |
| AuthApi.UserStore.Login | src/app/api/auth/login/route.ts:7-63 | The reply is `LoginOutcome`. On success the fresh reply's only cookie is `auth-token`, holding the signed payload with the session options. On failure no cookie is set |
| NewProductPage.Merge | src/app/dashboard/products/new/page.tsx:93-99 | Keys from the step's values override, every other key is kept, and no key is invented |
| NewProductPage.Uploaded | src/app/dashboard/products/new/page.tsx:131-146 | The kept images are the returned images of the files before the first failure, in file order. When fewer are kept than selected, the next upload failed |
| NewProductPage.Without | src/app/dashboard/products/new/page.tsx:152-154 | No remaining image has the public id, every other image remains, and nothing new appears |
| NewProductPage.WithoutAppend | src/app/dashboard/products/new/page.tsx:152-154 | Removal works piece by piece, so the rest keep their order |
| NewProductPage.WithoutAbsent | src/app/dashboard/products/new/page.tsx:152-154 | Removing an absent public id changes nothing |
| NewProductPage.Wizard.constructor | src/app/dashboard/products/new/page.tsx:44-48 | The wizard starts at step 1 with no form data, no images, not uploading and no error |
| NewProductPage.Wizard.HandleNext | src/app/dashboard/products/new/page.tsx:89-105 | Offered below step 4. Steps 1 and 2 advance by one and merge their values only if the step validates; otherwise nothing changes. Step 3 always advances to 4. The step stays in 1..4 |
| NewProductPage.Wizard.HandleBack | src/app/dashboard/products/new/page.tsx:107-109 | Disabled at step 1. Goes back one step and changes nothing else |
| NewProductPage.Wizard.HandleSubmit | src/app/dashboard/products/new/page.tsx:111-121 | Sends iff the status is valid. The payload is the form data with `status` and `images` laid over it |
| NewProductPage.Wizard.ReportSubmitError | src/app/dashboard/products/new/page.tsx:84-86 | A failed create shows its message and changes nothing else |
| NewProductPage.Wizard.HandleImageUpload | src/app/dashboard/products/new/page.tsx:123-150 | An empty selection does nothing. Otherwise the images become the old ones plus the kept uploads, uploading ends, and the error is empty iff every upload succeeded ("Failed to upload image" otherwise) |
| NewProductPage.Wizard.RemoveImage | src/app/dashboard/products/new/page.tsx:152-154 | The images become the old ones without that public id; nothing else changes |
| NewProductPage.UploadedExtend | src/app/dashboard/products/new/page.tsx:131-144 | One more successful upload extends the kept images by its image |
| NewProductPage.UploadedStops | src/app/dashboard/products/new/page.tsx:131-147 | The first failure ends the kept images |
| ProductsPage.Param | src/app/dashboard/products/page.tsx:61-63 | A filter parameter is sent iff it is non-empty, and then unchanged |
| ProductsPage.RequestQueryResolves | src/app/dashboard/products/page.tsx:58-64 | The handler reads the page's query back as: that page, 10 per page, newest first, and a filter on exactly the non-empty fields |
| ProductsPage.RangeCountsThePage | src/app/dashboard/products/page.tsx:273-274 | On an existing page, 1 ≤ start ≤ end ≤ total. The range spans exactly as many positions as the handler's page holds |
| ProductsPage.PaginationOnlyOnExistingPage | src/app/dashboard/products/page.tsx:159-289 | The bar shows only when the page holds products, so the page is at most totalPages and Next, as written (`page === totalPages` disables it), is enabled iff the page is before the last |
| ProductsPage.NextKeepsPageInRange | src/app/dashboard/products/page.tsx:269-289 | When the bar shows and the guard as written enables Next, Next leads to a page that exists and whose range is not inverted |
| ProductsPage.StockLevelAgreesWithDashboard | src/app/dashboard/products/page.tsx:224-228 | For stock ≥ 0, red iff the dashboard counts the product out of stock. Amber iff it counts it low on stock. Green iff above 10 |
| ProductsPage.ListState.constructor | src/app/dashboard/products/page.tsx:49-52 | Starts at page 1 with an empty search, category and status |
| ProductsPage.ListState.Query | src/app/dashboard/products/page.tsx:58-64 | The query carries the page and limit 10, each of search, category and status iff it is non-empty and then unchanged, and no sort parameters |
| ProductsPage.ListState.TypeSearch | src/app/dashboard/products/page.tsx:109 | Typing changes the search only; the page stays |
| ProductsPage.ListState.SubmitSearch | src/app/dashboard/products/page.tsx:82-85 | Submitting the search resets the page to 1 |
| ProductsPage.ListState.SelectCategory | src/app/dashboard/products/page.tsx:116-119 | A new category resets the page to 1 |
| ProductsPage.ListState.SelectStatus | src/app/dashboard/products/page.tsx:131-134 | A new status resets the page to 1 |
| ProductsPage.ListState.PrevPage | src/app/dashboard/products/page.tsx:277-279 | Disabled at page 1. Moves back exactly one page |
| ProductsPage.ListState.NextPage | src/app/dashboard/products/page.tsx:287-289 | Pressed while the bar shows and the guard as written enables it, moves forward exactly one page and stays at or below totalPages |

## Left out

- Token signing and verification (`jose.jwtVerify`, `jsonwebtoken`) are not modelled: verification is a predicate parameter of `Gatekeeper.Middleware` and signing a function parameter of `AuthApi.UserStore.Login`. The session reader in `src/lib/auth.ts` becomes an optional principal passed to each handler.
- The user model (`src/models/User`) is not part of this model. Password hashing and `comparePassword` are the `passwordMatches` parameter, and a stored account keeps the password as given. Any e-mail normalisation that model applies is not represented: addresses are compared exactly.
- The database's identifier generator: the product store numbers products from a counter, and a registered account's id is a parameter.
- E-mail and URL well-formedness are zod's own checks: they enter through `Validations.Formats`. Beyond field order, the exact zod issue list is not modelled.
- Image uploads to the hosted media service (`src/app/api/upload/route.ts`, `src/lib/cloudinary.ts`) are network I/O: each upload's outcome is an input to `NewProductPage.Wizard.HandleImageUpload`.
- Floating-point prices are integer cents, so a fractional-cent price is not representable.
- ProductsApi.List: `parseInt` of a malformed page or limit (NaN) is not modelled. A limit below 1 is outside the `Limit` type.
- ProductsApi.SortKey: fields without an integer order (name, sku, category, status) are not sorted by the database's string order; they leave the store order in place.
- ProductsApi.List: text search is a `textMatch` parameter. Its relevance scoring and language rules are not modelled.
- Sequences.SortDesc: ties keep store order; the database leaves their order unspecified.
- Concurrency: the queries behind `Promise.all` are modelled one after the other. The race between the SKU or e-mail lookup and the insert, and the unique index that would then refuse the second write, are not modelled.
- Handler failures that come from the database being unreachable (the generic 500 replies) are not modelled, except the negative skip.
- Product update and delete handlers, the admin-delete handler, and the list page's delete dialog are not part of this model.
- DashboardApi.Dashboard requires every stored creation date to be a valid calendar date, which the store's timestamps always are. Times are UTC calendar fields, not epoch milliseconds.
- The category entries' grouping key `_id` is named `category` in the model.
- Rendering is not modelled: icons, CSS classes, query caching and invalidation, router navigation, and the form libraries' default values (the details form's status default of `draft`). Disabling the file input while uploading is also left out.
- Text.Upper: ASCII only. ECMAScript `toUpperCase` maps all of Unicode (`ß` to `SS`, `é` to `É`, possibly changing the length); the model capitalises `a`-`z` and keeps every other character.
- String lengths (the name, description and password bounds) are counted in characters of `seq<char>`, not in the UTF-16 code units that zod and the database count; the two differ outside the Basic Multilingual Plane.
- Request bodies are typed records. A field of the wrong JSON type (zod's `invalid_type`, a 400 with that issue) and a body that is not JSON (`request.json()` throws, and the handler's catch answers 500: `src/app/api/products/route.ts:77-101`, `src/app/api/auth/login/route.ts:11-64`, `src/app/api/auth/register/route.ts:20-56`) are not modelled.
- The index declarations of the product schema (`src/models/Product.ts:78-81`) are storage concerns and are not modelled.
