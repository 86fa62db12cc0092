# Printing service ERP: request gate, dashboard shell and stock page logic

This project models, in Dafny, the parts of the printing-service ERP web application that make decisions rather than draw screens:

- **The request gate** (`src/middleware.ts`). It runs in front of the login page, the admin API and the dashboard pages. It passes public paths and sends a `/login` request that carries a token to the dashboard. A request under a protected admin API prefix needs a token that verifies and a role listed for the first matching prefix, or it gets a 401 or 403 answer. The pages `/`, `/dashboard` and `/settings` need a token that verifies, or the request is redirected to `/login`. Every other request passes.
- **The breadcrumb trail** (`src/components/dashboard-breadcrumb.tsx`, with its name table in `src/lib/breadcrumbs.ts`). There is one crumb per non-empty path segment. Each crumb links to the path up to its segment, and only the last crumb is the current page. A crumb's caption is "Details" for a database object id, the name table's entry, or the segment with dashes turned to spaces and every word capitalised.
- **The dashboard shell** (`src/app/dashboard/layout.tsx`). It reads `userId`, `name`, `email` and `role` from the cookie header with `getCookieValue`. It shows the user-management and employee-management links to super administrators only. The dashboard home page (`src/app/dashboard/page.tsx:17-22`) uses the same reader, so one model covers both.
- **The stock entries page** (`src/app/dashboard/stocks/page.tsx`). This covers:
  - the checks made before a stock entry or item is sent;
  - the request body built for each item;
  - the edits to the add form's rows;
  - the updates to the page's lists after the server answers.

JavaScript's own operations are modelled explicitly in `text.dfy` and `seqs.dfy`: `startsWith`, `split` with a string separator, `join`, `trim` and `filter`. Calls into code the model cannot see become function parameters:

| function parameter | what it stands for | its `None` result |
|---|---|---|
| `verify` | the token verifier (`jwtVerify` with the server's secret) | the verifier throws |
| `decode` | `decodeURIComponent` on a non-empty string (the empty string decodes to itself) | it throws |
| `hostOf` | `new URL(s).hostname` | the constructor throws |

The gate's environment variable is a parameter too.

Layout: `wrappers.dfy` (`Option`), `text.dfy`, `seqs.dfy`, `middleware.dfy` (module `Middleware`), `breadcrumb.dfy` (module `Breadcrumb`), `layout.dfy` (module `DashboardLayout`), `stocks.dfy` (module `StocksPage`).

The gate does not answer CORS preflight requests, does not forward the user's id or role, and has no rule for `/dashboard/...` sub-pages; those sub-pages fall through and pass.

## Model

| member | source | states |
|---|---|---|
| Middleware.LoadSecret | src/middleware.ts:8-12 | loading succeeds exactly when `JWT_SECRET_KEY` is set and non-empty, and the secret is that value |
| Middleware.Serve | src/middleware.ts:8-38 | a request gets a decision exactly when the module loaded, and that decision is the gate's with the verifier bound to the loaded secret |
| Middleware.IsPublicRoute | src/middleware.ts:41-43 | a path is public exactly when it starts with `/login`, `/api/auth/login`, `/favicon.ico` or `/_next/static` |
| Middleware.FindApiRoute | src/middleware.ts:57-59 | no entry is found exactly when no table prefix starts the path; a found entry is a table entry whose prefix starts the path, and no earlier entry's prefix does |
| Middleware.Middleware | src/middleware.ts:38-104 | the only rejections are for non-public paths under a protected API prefix, with status 401 or 403; a 403 needs a token that verifies; every redirect goes to `/dashboard` or `/login` |
| Middleware.AdminPathNotPublic | src/middleware.ts:15-21 | no path under `/api/admin/` starts with a public prefix |
| Middleware.AdminPathNotPage | src/middleware.ts:24-29 | no path under `/api/admin/` is one of the protected pages |
| Middleware.UsersRoute | src/middleware.ts:32-36 | every path under `/api/admin/users` is governed by the SUPER_ADMIN-only entry |
| Middleware.EmployeesRoute | src/middleware.ts:32-36 | every path under `/api/admin/employees`, the attendance endpoints included, is governed by the SUPER_ADMIN-or-ADMIN entry |
| Middleware.PublicPathOutcome | src/middleware.ts:42-54 | a public path is never rejected; it is redirected to `/dashboard` exactly when a token is present and the path starts with `/login`, and passes otherwise |
| Middleware.PublicPathIgnoresVerifier | src/middleware.ts:48-53 | on a public path the decision is the same whatever the verifier answers |
| Middleware.LoginApiNeverRedirected | src/middleware.ts:15-53 | `/api/auth/login` passes with or without a token |
| Middleware.LoginWithTokenRedirects | src/middleware.ts:49-51 | every `/login...` request with a non-empty token is redirected to `/dashboard`, valid or not |
| Middleware.ApiMissingToken | src/middleware.ts:61-64 | a protected API request without a token gets 401 "Unauthorized: Missing token" |
| Middleware.ApiInvalidToken | src/middleware.ts:66-80 | a protected API request whose token fails verification gets 401 "Invalid token" |
| Middleware.ApiForbidden | src/middleware.ts:71-76 | a verified token whose role is missing or not listed for the matched entry gets 403 "Forbidden: Insufficient privileges" |
| Middleware.ApiAdmitted | src/middleware.ts:61-103 | an admin API request whose verified role is listed is not answered early; it falls through the page check and passes |
| Middleware.UsersAdminScenario | src/middleware.ts:33-76 | under `/api/admin/users` a verified ADMIN gets 403 and a verified SUPER_ADMIN passes |
| Middleware.EmployeesAdminScenario | src/middleware.ts:34-76 | under `/api/admin/employees` a verified ADMIN passes |
| Middleware.PagesNotPublicNorApi | src/middleware.ts:15-36 | the three protected pages are neither public nor under a protected API prefix |
| Middleware.PageProtection | src/middleware.ts:84-100 | a protected page is redirected to `/login` when the token is missing, empty or fails verification, and passes otherwise |
| Middleware.UnlistedPathPasses | src/middleware.ts:102-103 | a path that is not public, not under an API prefix and not exactly a protected page passes |
| Middleware.StocksPagePasses | src/middleware.ts:84-103 | `/dashboard/stocks` passes whatever the token |
| Middleware.RedirectLoopAsWritten | src/middleware.ts:49-50 | a present but unverifiable token sends `/login` to `/dashboard` and `/dashboard` back to `/login` |
| Middleware.MiddlewareIntended | src/middleware.ts:48-51 | the corrected gate agrees with the gate as written on every non-public path, and everywhere when the token is absent or verifies |
| Middleware.IntendedRedirectsSettle | src/middleware.ts:48-100 | with the correction, the target of every redirect passes for the same request state, so no redirect is followed by another |
| Seqs.Filter | src/components/dashboard-breadcrumb.tsx:20 | the result is no longer than the list |
| Seqs.FilterMembers | src/components/dashboard-breadcrumb.tsx:20 | the result holds exactly the list's elements that pass the test |
| Seqs.FilterConcat | src/components/dashboard-breadcrumb.tsx:20 | filtering a concatenation filters each part and keeps the order |
| Seqs.RemoveAt | src/app/dashboard/stocks/page.tsx:616 | `filter((_, i) => i !== index)` drops exactly the element at `index` and keeps the rest in order; out of range it drops nothing |
| Text.StartsWith | src/middleware.ts:43 | a string starts only with prefixes no longer than itself |
| Text.StartsWithMeaning | src/middleware.ts:43 | `s.startsWith(p)` holds exactly when `s` is `p` followed by some rest |
| Text.FindLeftmost | src/components/dashboard-breadcrumb.tsx:20 | the separator found by the scan `split` repeats is its leftmost occurrence from the start point, and a failed scan means it occurs nowhere after that point |
| Text.Join | src/components/dashboard-breadcrumb.tsx:41 | a join of at least one piece starts with the first piece |
| Text.JoinConcat | src/components/dashboard-breadcrumb.tsx:41 | joining two non-empty lists one after the other puts exactly one separator between their joins |
| Text.JoinSplit | src/components/dashboard-breadcrumb.tsx:20 | joining the pieces of a split with the same separator gives back the string |
| Text.Split | src/components/dashboard-breadcrumb.tsx:20 | a split yields at least one piece, which is why `shift` at src/app/dashboard/layout.tsx:41 always yields a string |
| Text.SplitJoin | src/components/dashboard-breadcrumb.tsx:41 | splitting the join of separator-free pieces gives back the pieces |
| Text.SplitConcat | src/components/dashboard-breadcrumb.tsx:20 | splitting `a + "/" + b` on `/` splits `a` and `b` separately |
| Text.SplitUnique | src/app/dashboard/layout.tsx:40 | a separator that occurs exactly once splits the string in two, around it |
| Text.SplitTwice | src/app/dashboard/layout.tsx:40-41 | two non-overlapping occurrences give at least three pieces |
| Text.FirstPiece | src/app/dashboard/layout.tsx:41 | the first piece of a split on a character is the text up to that character's first occurrence, or all of it |
| Text.TrimSlice | src/app/dashboard/stocks/page.tsx:335 | `trim` returns a middle slice of the string, and everything it cuts off at either end is JavaScript whitespace |
| Text.TrimEmpty | src/app/dashboard/stocks/page.tsx:327 | a string trims to nothing exactly when every character is JavaScript whitespace |
| Text.Trim | src/app/dashboard/stocks/page.tsx:335 | the result is no longer than the input and neither of its ends is JavaScript whitespace |
| Breadcrumb.PathSegments | src/components/dashboard-breadcrumb.tsx:20 | every segment is non-empty and contains no slash |
| Breadcrumb.SegmentsOfJoin | src/components/dashboard-breadcrumb.tsx:20 | a path built from non-empty, slash-free segments yields exactly those segments |
| Breadcrumb.SegmentsConcat | src/components/dashboard-breadcrumb.tsx:20 | a slash between two parts separates their segments |
| Breadcrumb.RootHasNoSegments | src/components/dashboard-breadcrumb.tsx:20 | `/` has no segments |
| Breadcrumb.TrailingSlash | src/components/dashboard-breadcrumb.tsx:20 | a trailing slash contributes no segment |
| Breadcrumb.LeadingSlash | src/components/dashboard-breadcrumb.tsx:20 | a leading slash contributes no segment |
| Breadcrumb.DoubledSlash | src/components/dashboard-breadcrumb.tsx:20 | a doubled slash separates like a single one |
| Breadcrumb.NormalisedPathSegments | src/components/dashboard-breadcrumb.tsx:20-41 | the normalised path has the same segments, and normalising twice changes nothing |
| Breadcrumb.IsObjectId | src/components/dashboard-breadcrumb.tsx:28-30 | a 24-digit hexadecimal segment is never one of the name table's keys, so the table cannot shadow "Details" |
| Breadcrumb.Humanize | src/components/dashboard-breadcrumb.tsx:35-37 | the fallback caption keeps the segment's length and holds no dash |
| Breadcrumb.HumanizeShape | src/components/dashboard-breadcrumb.tsx:35-37 | the fallback caption keeps the length, turns each dash into a space, upper-cases each character that starts a word, and leaves every other character unchanged |
| Breadcrumb.HumanizeIdempotent | src/components/dashboard-breadcrumb.tsx:35-37 | applying the fallback to its own output changes nothing |
| Breadcrumb.FormatSegment | src/components/dashboard-breadcrumb.tsx:22-38 | an object id reads "Details", a table name its entry, anything else the fallback; a caption never has a dash, and a non-empty segment never gets an empty caption |
| Breadcrumb.LabelExamples | src/lib/breadcrumbs.ts:3-8 | the three table entries, and an object id giving "Details" |
| Breadcrumb.HumanizedLabelExample | src/components/dashboard-breadcrumb.tsx:35-37 | "stock-items", which is not in the table, gives "Stock Items" |
| Breadcrumb.Breadcrumbs | src/components/dashboard-breadcrumb.tsx:40-50 | one crumb per segment, in order, each captioned by its own segment |
| Breadcrumb.CrumbAt | src/components/dashboard-breadcrumb.tsx:40-50 | crumb `i` has segment `i`'s caption, the href of the segments up to `i`, and is current exactly when it is the last |
| Breadcrumb.OnlyLastIsCurrent | src/components/dashboard-breadcrumb.tsx:43 | exactly one crumb, the last, is the current page |
| Breadcrumb.HrefStep | src/components/dashboard-breadcrumb.tsx:41 | each href is the previous one, a slash and the next segment |
| Breadcrumb.Href | src/components/dashboard-breadcrumb.tsx:41 | every href starts with a slash and the first segment |
| Breadcrumb.HrefsExtend | src/components/dashboard-breadcrumb.tsx:41 | the first crumb links to `/` and the first segment; each later href extends the previous one |
| Breadcrumb.HrefSegments | src/components/dashboard-breadcrumb.tsx:41 | following crumb `i` leads to a path whose segments are the first `i + 1` segments |
| Breadcrumb.LastHrefNormalised | src/components/dashboard-breadcrumb.tsx:41-43 | the last crumb links to the normalised path, whose trail has the same captions and links |
| Breadcrumb.TrailIgnoresSlashes | src/components/dashboard-breadcrumb.tsx:20-50 | `/` has no crumbs, and a trailing slash leaves the trail unchanged |
| DashboardLayout.GetCookieValue | src/app/dashboard/layout.tsx:38-43 | the value is the empty string or the decoding of a non-empty piece that holds no `;`; an empty piece decodes to the empty string and never fails |
| DashboardLayout.CookieFound | src/app/dashboard/layout.tsx:38-41 | when `; name=` occurs exactly once, the result is the decoded text after it, up to the next `;` or the end |
| DashboardLayout.CookieAbsent | src/app/dashboard/layout.tsx:40-42 | when `; name=` does not occur, the result is the empty string |
| DashboardLayout.CookieDuplicated | src/app/dashboard/layout.tsx:40-42 | when `; name=` occurs twice (a cookie set twice), the result is the empty string |
| DashboardLayout.PrefixedHeader | src/app/dashboard/layout.tsx:39 | with the `; ` prefix, the marker matches at the start exactly when the first cookie is `name=...`, and elsewhere exactly where the header has it |
| DashboardLayout.SingleCookie | src/app/dashboard/layout.tsx:38-42 | a header with one cookie yields its decoded value exactly when it starts with `name=`, and the empty string otherwise |
| DashboardLayout.RoleCookieExample | src/app/dashboard/layout.tsx:38-42 | a header holding only `role=SUPER_ADMIN` yields the decoded value for `role` |
| DashboardLayout.OtherNameExample | src/app/dashboard/layout.tsx:38-42 | a header holding only `xrole=SUPER_ADMIN` yields the empty string for `role` |
| DashboardLayout.LoadUserInfo | src/app/dashboard/layout.tsx:47-54 | the user is read exactly when all four cookies decode, and then each of `userId`, `name`, `email` and `role` is its own cookie's value |
| DashboardLayout.DesktopNavLinks | src/app/dashboard/layout.tsx:90-118 | the user- and employee-management links are shown exactly when the role is SUPER_ADMIN, so there are six links for SUPER_ADMIN and four otherwise; Dashboard comes first and Stocks, Party and Job come last |
| DashboardLayout.NoRoleCookieNoAdminLinks | src/app/dashboard/layout.tsx:29-54 | with no `role` cookie the default "ADMIN" is replaced by the empty role; both admin links are hidden then and on the first render |
| StocksPage.IsValidURL | src/app/dashboard/stocks/page.tsx:152-161 | no string is a valid image URL, because the allowed-domain list is empty |
| StocksPage.FieldProblem | src/app/dashboard/stocks/page.tsx:335-353 | an item's fields pass exactly when its name is not blank, its stock type is set, its weight is positive unless it is a PACKET, and its amount is not negative; the problem reported is the first failing check in that order (a blank name, then a missing stock type, then a weight that is not positive, then a negative amount); the image is never the field problem, and a PACKET is never refused for its weight |
| StocksPage.MissingHeader | src/app/dashboard/stocks/page.tsx:327 | the header check fails exactly when the party name is empty or all JavaScript whitespace, or the date is empty |
| StocksPage.ImageRejected | src/app/dashboard/stocks/page.tsx:355 | an image draws the invalid-URL message exactly when it is non-empty |
| StocksPage.BlankNameRejected | src/app/dashboard/stocks/page.tsx:335-338 | an item is refused for its name exactly when the name is empty or all whitespace |
| StocksPage.ItemProblem | src/app/dashboard/stocks/page.tsx:335-360 | the add flow passes an item exactly when its fields pass and it has no image; a field failure is reported before the image |
| StocksPage.CheckFields | src/app/dashboard/stocks/page.tsx:335-353 | the field checks made in source order, stopping at the first failure, report exactly the item's field problem |
| StocksPage.ValidateNewEntry | src/app/dashboard/stocks/page.tsx:326-361 | a blank party name or an empty date stops the add flow before any item is checked; otherwise the first failing item, with its problem, is reported, and the flow proceeds exactly when every item passes |
| StocksPage.WarnedIndices | src/app/dashboard/stocks/page.tsx:471-475 | no more warnings than items checked |
| StocksPage.WarnedIndicesMeaning | src/app/dashboard/stocks/page.tsx:471-475 | the items warned about are exactly those with a non-empty image, in increasing order |
| StocksPage.CheckEditItems | src/app/dashboard/stocks/page.tsx:445-476 | the edit flow's item loop stops at the first item whose fields fail, reporting that item's field problem, with every earlier item passing; when none fails every item passes; either way the image warnings are those of the items checked |
| StocksPage.ValidateEditEntry | src/app/dashboard/stocks/page.tsx:423-476 | the edit flow stops without a selected entry, then on a missing header, then at the first item whose fields fail; images never stop it, and the image warnings are those of the items checked |
| StocksPage.ValidateEditItem | src/app/dashboard/stocks/page.tsx:727-779 | without an item nothing happens; a field failure stops the save; otherwise the save proceeds, with an image warning exactly when the item has a non-empty image |
| StocksPage.ToPayload | src/app/dashboard/stocks/page.tsx:371-380 | the body copies every field, and its weight is null exactly for a PACKET item |
| StocksPage.AcceptedPayload | src/app/dashboard/stocks/page.tsx:343-379 | an item the add flow accepts is sent with no image, a stock type, a non-negative amount and, unless it is a PACKET, a positive weight |
| StocksPage.ImageOnlyStopsTheAddFlow | src/app/dashboard/stocks/page.tsx:775-779 | an item with valid fields and an image is refused by the add flow and saved, with a warning, by the item edit |
| StocksPage.Apply | src/app/dashboard/stocks/page.tsx:627 | the changed row holds the new value in the named field and agrees with the old row on every other field |
| StocksPage.HandleNewStockItemChange | src/app/dashboard/stocks/page.tsx:621-629 | only the named field of row `index` changes: the other rows, the row count and the header stay as they were |
| StocksPage.RemoveStockItemField | src/app/dashboard/stocks/page.tsx:613-618 | the rows lose exactly the one at `index`, the rest keep their order, and the header is unchanged; an index out of range removes nothing |
| StocksPage.RemoveSelectedItem | src/app/dashboard/stocks/page.tsx:700-702 | the open item list loses exactly the items with the deleted id |
| StocksPage.RemoveSelectedItemConcat | src/app/dashboard/stocks/page.tsx:700-702 | deleting from two lists one after the other deletes from each and keeps their order |
| StocksPage.RemoveItemLinks | src/app/dashboard/stocks/page.tsx:705-717 | every link to the deleted item is gone and every other link stays; entries keep their number, order and other fields; an entry without the item is untouched |
| StocksPage.RemoveItemLinksUnguarded | src/app/dashboard/stocks/page.tsx:707-714 | the `some` guard changes nothing: the result equals filtering every entry's links |
| StocksPage.ReplaceSelectedItem | src/app/dashboard/stocks/page.tsx:820-826 | the saved item takes the place of every open item with its id; nothing else changes |
| StocksPage.ReplaceItemLinks | src/app/dashboard/stocks/page.tsx:829-840 | every link to the saved item carries the new item; links keep their ids, entries keep their other fields, and nothing else changes |
| StocksPage.ReplaceIdempotent | src/app/dashboard/stocks/page.tsx:820-840 | saving the same item twice leaves the lists as saving it once |
| StocksPage.RemoveAfterReplace | src/app/dashboard/stocks/page.tsx:700-840 | deleting an item after editing it leaves the same lists as deleting it straight away |
| StocksPage.RemoveEntry | src/app/dashboard/stocks/page.tsx:314 | the entry list loses exactly the entries with the deleted id |
| StocksPage.RemoveEntryConcat | src/app/dashboard/stocks/page.tsx:314 | deleting from two lists one after the other deletes from each and keeps their order |
| StocksPage.ReplaceEntry | src/app/dashboard/stocks/page.tsx:572-575 | the updated entry takes the place of every entry with its id; nothing else changes |
| StocksPage.ReplaceEntryProperties | src/app/dashboard/stocks/page.tsx:572-575 | saving an entry keeps every entry's id; saving it twice leaves the list as saving it once; deleting it afterwards leaves the same list as deleting it straight away |

## Findings

| source | as written | input that shows it | evidently intended | confidence | as-written member | corrected member |
|---|---|---|---|---|---|---|
| src/middleware.ts:49-50 | a `/login` request is sent to `/dashboard` whenever a token cookie is present, without verifying it, while `/dashboard` verifies it and sends a failing token back to `/login` | a browser holding an expired or wrongly signed `token` cookie that opens `/login` | only a token that verifies sends `/login` to the dashboard, so a stale token lets the user reach the login page | likely; not executed | Middleware.RedirectLoopAsWritten | Middleware.IntendedRedirectsSettle |

`Middleware.MiddlewareIntended` is the corrected gate. It differs from `Middleware.Middleware` only on `/login...` paths with a present but unverifiable token. The other lemmas describe the gate as written; `Middleware.Serve` composes the gate as written too.

## Left out

- `config.matcher` (src/middleware.ts:106-117): Next.js path-pattern matching decides which requests reach the gate at all. The model states what the gate decides for any path it is given. So under the matcher, `/dashboard/...` sub-pages, `/api/stock/...`, `/api/jobs` and `/api/parties` never reach it.
- Token cryptography: signature and expiry checking belong to the verifier library. They are the `verify` parameter.
- CORS preflight answers and forwarding the user's identity to handlers: the gate does neither, so there is nothing to model.
- Reading the `token` cookie and building the redirect URL from the request URL: framework I/O. The cookie is a parameter, and a redirect is modelled by its target path.
- `decodeURIComponent`: it is the `decode` parameter, and the model does not decide which escapes throw.
- DashboardLayout.LoadUserInfo: a decoding that throws inside the effect is modelled as no update (`None`); what React does with the thrown error is not modelled.
- The brand link to the template site and the settings placeholder link in `DesktopNav` are constant markup, not modelled. `MobileNav` is never rendered.
- JavaScript object-prototype keys such as `constructor` in the breadcrumb name table: the table is modelled as a three-entry map.
- `isValidStockEntry` (src/app/dashboard/stocks/page.tsx:164-189): dynamic `typeof` checks on untyped JSON, with no typed counterpart.
- Fetching, toasts, `confirm`, modals and table rendering on the stock page: UI and network I/O. The validation results stand for the toasts, and the list updates take the server's answer as a parameter.
- The `PUT` or `POST` choice per edited item and the order of the requests: request plumbing.
- Weights and amounts are modelled as exact numbers with fractions. NaN, `parseFloat` and floating-point rounding are not modelled, and "a falsy weight" is a weight equal to 0.
- Dates: the date field is checked only for being empty, as the source does; the `split("T")` that pre-fills the edit form is not modelled.
- `addNewStockItemField`, `addEditStockItemField`, the edit-form counterparts of the row operations, and `handleEditStockEntry`: they append a blank row, repeat the add-form operations, or copy a server entry into the form.
- StocksPage.HandleNewStockItemChange: requires an index inside the form, as every row's input passes its own index. An update always carries a value of the field's type; the untyped `[field]: value` of the source could store anything anywhere.
- The login and logout routes and the database-backed API handlers are not part of this model.
