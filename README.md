# Tigre Hogar storefront — a Dafny model of its core

Tigre Hogar is a small home-goods storefront. A React client shows a product
catalogue with filters, a cart, a category picker, and profile and
password-reset pages. Two back ends serve it: an Express server with
cookie sessions, and serverless endpoints that use JWTs instead. This project
models the parts of both that hold logic:

- the cart store and its running total (`cart.dfy`);
- the in-memory product table and its id counter (`storage.dfy`);
- the product and registration schemas (`schema.dfy`);
- category-name normalisation, the duplicate guard and the sorted list (`category_select.dfy`);
- the filter panel (`product_filters.dfy`);
- token extraction and verification (`jwt.dfy`);
- the request handlers of both back ends (`server_auth.dfy`, `server_routes.dfy`, `api_login.dfy`, `api_user.dfy`);
- the client's route guard (`protected_route.dfy`) and the reset-password and profile pages (`reset_password.dfy`, `profile.dfy`).

Shared pieces:

- `wrappers.dfy`: `Option`.
- `strings.dfy`: JavaScript's `trim`, `toLowerCase`, `split` and `join`, as the code uses them.
- `http.dfy`: request values, call outcomes, the `users` row and responses.
- `toast.dfy`: the client's notification record.

How the model represents the code:

- **State the source updates in place is a class.** The cart store, the
  product table, the category picker, the filter panel, the reset-password
  page and the profile page are each a class. Their methods state the new
  state and, where there is one, the invariant they keep.
- **Pure logic is functions and lemmas.** This covers the handler ladders,
  schemas and string processing.
- **Calls into code the repository does not contain are inputs.** These are
  storage methods, bcrypt, jsonwebtoken and the mailer. Each is a function
  parameter whose outcome is a value or an exception (`Call<T> = Returns(T) | Throws`).
- **Prices are integers** (cents).

### Where the code is inconsistent with itself (the model follows the code)

- **Login and the session.** The session type declares an optional `isAdmin`
  flag (types/session.d.ts:6), and POST /api/products refuses every session
  in which it is not truthy (server/routes.ts:23). A successful login stores
  only the user id (server/auth.ts:110), and nothing in the server ever sets
  the flag. See Findings.
- **Product edits and deletes.** POST /api/products checks the admin flag, but
  the PUT and DELETE routes have no admin check at all (server/routes.ts:41-74).
- **Unverified users.** The session server refuses an unverified user before
  comparing passwords (server/auth.ts:100-102). The serverless login
  (api/auth/login.ts:37-66) never reads the verification flag.

## Model

| member | source | states |
|---|---|---|
| Strings.Trim | client/src/components/category-select.tsx:31 | the result is a contiguous piece of the input with only whitespace before and after it, has no whitespace at either edge (JavaScript's whitespace set, by code point), and is empty exactly when the input is blank |
| Strings.ToLower | client/src/components/category-select.tsx:32 | same length, every character lower-cased (ASCII letters) |
| Strings.Split | client/src/components/category-select.tsx:34 | at least one piece, and no piece contains the separator |
| Strings.JoinSplit | client/src/components/category-select.tsx:34-36 | joining the pieces of a split with the same separator gives back the original string |
| Strings.SplitAtFirst | api/_utils/jwt.ts:33-35 | splitting `a + sep + b`, when `a` has no separator, gives `a` followed by the split of `b` |
| Strings.SplitHead | api/_utils/jwt.ts:35 | the first piece is a prefix of the string and is followed by the separator when shorter than it |
| Strings.SplitTail | api/_utils/jwt.ts:35 | when there are several pieces, the remaining pieces are the split of the text after the first separator |
| Cart.Find | client/src/hooks/use-cart.ts:28 | `find` by id: `None` exactly when no line has the id, otherwise the first index holding it |
| Cart.MapQuantity | client/src/hooks/use-cart.ts:31-33 | same length; the lines with the id have their quantity shifted by delta, every other line is unchanged |
| Cart.Without | client/src/hooks/use-cart.ts:41 | the `filter`: no remaining line has the id, and none is added |
| Cart.WithoutKeepsOthers | client/src/hooks/use-cart.ts:41 | every line without the id is kept as many times as it occurred, and no line is added |
| Cart.Total | client/src/hooks/use-cart.ts:66-68 | `calculateTotal`: 0 for an empty cart, never negative when no price or quantity is |
| Cart.Step | client/src/hooks/use-cart.ts:26-58 | after adding a product its id is in the cart; after removing an id it is not; decrementing a line of quantity 1 removes the id; clearing empties the cart |
| Cart.TotalAppend | client/src/hooks/use-cart.ts:66-68 | `calculateTotal` of a concatenation is the sum of the two totals |
| Cart.TotalMapQuantity | client/src/hooks/use-cart.ts:31-34 | shifting the quantity of the unique line with an id by delta shifts the total by delta times its price |
| Cart.WithoutAt | client/src/hooks/use-cart.ts:41 | with unique ids, filtering out an id removes exactly the line at its index, keeping the order of the rest |
| Cart.TotalSplitAt | client/src/hooks/use-cart.ts:66-68 | removing the line at k lowers the total by that line's price times quantity |
| Cart.AddItemSpec | client/src/hooks/use-cart.ts:26-39 | a new id is appended with quantity 1 and the total grows by its price; an existing id gains 1 with every other line unchanged and the total grows by its price; ids stay unique and quantities positive |
| Cart.RemoveItemSpec | client/src/hooks/use-cart.ts:40-43 | the id's line goes whatever its quantity, the rest keep their order, an absent id changes nothing, and the total drops by that line's contribution |
| Cart.DecrementItemSpec | client/src/hooks/use-cart.ts:44-57 | a quantity above 1 loses 1, a quantity of 1 removes the line, an absent id changes nothing; the total drops by one unit price when the id is present |
| Cart.RunPreservesWellFormed | client/src/hooks/use-cart.ts:24-58 | after any sequence of actions from a well-formed cart, ids are unique and quantities at least 1 |
| Cart.CartStore.constructor | client/src/hooks/use-cart.ts:24-25 | the store starts empty with total 0 |
| Cart.CartStore.AddItem | client/src/hooks/use-cart.ts:26-39 | the items become the result of adding the product; the total stays equal to Σ price×quantity and grows by the unit price |
| Cart.CartStore.RemoveItem | client/src/hooks/use-cart.ts:40-43 | the items become the result of removing the id; the total stays consistent and drops by the removed line's contribution |
| Cart.CartStore.DecrementItem | client/src/hooks/use-cart.ts:44-57 | the items become the result of decrementing the id; the total stays consistent and drops by one unit price when present |
| Cart.CartStore.ClearCart | client/src/hooks/use-cart.ts:58 | no items and total 0 |
| Storage.MemStorage.GetProducts | server/storage.ts:45-47 | every stored product in creation order: the i-th has id i+1 |
| Storage.MemStorage.GetProduct | server/storage.ts:49-51 | a product exactly for the ids handed out so far, and it carries that id |
| Storage.MemStorage.CreateProduct | server/storage.ts:53-58 | the new product gets the counter's value, which was not yet a key; the counter advances by one; every other id keeps its product; the listing grows by exactly the new product |
| Storage.MemStorage.constructor | server/storage.ts:13-43 | after seeding, the counter is 4 and the listing is the three initial products with ids 1, 2, 3 |
| Schema.ParseProduct | shared/schema.ts:27-33 | success exactly when every field rule holds, carrying the body's fields; each failing rule is reported with its own message (price ≤ 0 gives both price messages) |
| Schema.ParseUser | shared/schema.ts:35-45 | success exactly when username ≥ 3, the e-mail check passes and password ≥ 6; the data is those three fields only |
| Schema.ParseUserIgnoresPrivileged | shared/schema.ts:35-40 | the admin flag, verification flag and token in a body never change the parse |
| CategorySelect.CollapseWhitespace | client/src/components/category-select.tsx:33 | `replace(/\s+/g, ' ')`: the same words (maximal non-whitespace runs) as the input, so the same non-whitespace characters in order; single-spaced; empty iff the input is; each edge is whitespace iff the input's is, and a non-whitespace first character is kept; lower case survives |
| CategorySelect.CollapseOfUnique | client/src/components/category-select.tsx:33 | the collapse contract determines its result: any text meeting it is the collapse, so each whitespace run becomes exactly one space and no word break is added or lost |
| CategorySelect.NormalizeCategory | client/src/components/category-select.tsx:29-37 | lower-casing the normalised name gives the collapsed, lower-cased, trimmed input: the capitalisation step changes only letter case |
| CategorySelect.NormalizeKeepsCharacters | client/src/components/category-select.tsx:29-37 | ignoring case, the normalised name has the same non-whitespace characters as the input, in the same order |
| CategorySelect.CapitalizeAll | client/src/components/category-select.tsx:35 | each word capitalised, same number of words |
| CategorySelect.NormalizeShape | client/src/components/category-select.tsx:29-37 | a normalised name has no edge whitespace, only single spaces between words, and is empty exactly when the input was blank |
| CategorySelect.NormalizeWordCase | client/src/components/category-select.tsx:29-37 | every word of a normalised name is upper-case first character, lower-case rest |
| CategorySelect.NormalizeIgnoresCase | client/src/components/category-select.tsx:29-37 | names differing only in letter case normalise alike |
| CategorySelect.NormalizeIdempotent | client/src/components/category-select.tsx:29-37 | normalising twice equals normalising once |
| CategorySelect.AnySameName | client/src/components/category-select.tsx:53-55 | true exactly when some existing name equals the candidate ignoring case |
| CategorySelect.DecideCreate | client/src/components/category-select.tsx:49-101 | blank input iff refused as blank; a duplicate ignoring case iff refused as duplicate; otherwise the normalised, non-empty name is what is sent |
| CategorySelect.CategoryPicker.constructor | client/src/components/category-select.tsx:40-41 | empty input, dialog closed |
| CategorySelect.CategoryPicker.SetNewCategory | client/src/components/category-select.tsx:41 | the input is set, the dialog untouched |
| CategorySelect.CategoryPicker.SetOpen | client/src/components/category-select.tsx:40 | the dialog flag is set, the input untouched |
| CategorySelect.CategoryPicker.HandleCreateCategory | client/src/components/category-select.tsx:65-101 | blank and duplicate input raise their error toasts and send nothing; success clears the input, closes the dialog, toasts and selects the created name; failure toasts the server's message and keeps the state |
| CategorySelect.SortByName | client/src/components/category-select.tsx:105-107 | the sorted copy is a permutation of the fetched list |
| CategorySelect.SortByNameSpec | client/src/components/category-select.tsx:105-107 | for any total preorder standing for `localeCompare`, the copy is a permutation and is ordered by name |
| Jwt.VerifyToken | api/_utils/jwt.ts:16-22 | `null` exactly when verification throws, otherwise the verified payload |
| Jwt.FindFirst | api/_utils/jwt.ts:33 | `find`: `None` exactly when no element matches, otherwise the first matching index |
| Jwt.SecondPieceSpec | api/_utils/jwt.ts:35 | `split('=')[1]` is the text between the first and the second `=` (or the end) and holds no `=` |
| Jwt.CookieToken | api/_utils/jwt.ts:31-36 | `None` only when no `;`-segment trims to something starting with `token=`; otherwise the value is the second `=`-piece of the first such segment |
| Jwt.GetTokenFromRequest | api/_utils/jwt.ts:24-40 | a `Bearer ` header wins, whatever the cookies say, and yields the rest of the header; otherwise a token is found only in a cookie header, and it is the second `=`-piece of the first segment that trims to something starting with `token=`; no token only when there is no cookie header or no segment matches |
| Jwt.CookieRoundTrip | api/_utils/jwt.ts:31-36 | a cookie `token=<t>` gives back `t` for any `t` without `=` or `;` |
| Jwt.TokenPrefixSegment | api/_utils/jwt.ts:33 | any segment starting with `token=` is accepted as the token cookie |
| Jwt.PrefixedNameIsNotToken | api/_utils/jwt.ts:33 | `mytoken=x` is not taken for the token cookie |
| Jwt.LongerNameIsNotToken | api/_utils/jwt.ts:33 | `tokens=x` is not taken for the token cookie |
| ProductFilters.FirstIndex | client/src/components/product-filters.tsx:28 | the first position of a value in the list |
| ProductFilters.Dedup | client/src/components/product-filters.tsx:28 | `Array.from(new Set(...))`: no duplicates and the same values as the input |
| ProductFilters.DedupFirstSeenOrder | client/src/components/product-filters.tsx:28 | the values appear in the order of their first appearance |
| ProductFilters.CategoriesFirstSeenOrder | client/src/components/product-filters.tsx:28 | the categories are listed in the order in which the products first use them |
| ProductFilters.Categories | client/src/components/product-filters.tsx:28 | each product's category exactly once, and no other value |
| ProductFilters.MaxPrice | client/src/components/product-filters.tsx:33 | a price of some product, at least every product's price |
| ProductFilters.FilterPanel.constructor | client/src/components/product-filters.tsx:23-25 | no category, range [0, 1000000], ceiling 1000000 |
| ProductFilters.FilterPanel.ProductsChanged | client/src/components/product-filters.tsx:31-42 | with products: the ceiling becomes the highest price, the range [0, ceiling], reported with the current category; with none: no change, no report |
| ProductFilters.FilterPanel.HandlePriceChange | client/src/components/product-filters.tsx:44-51 | the range becomes the first two slider values, reported with the unchanged category |
| ProductFilters.FilterPanel.HandleCategoryChange | client/src/components/product-filters.tsx:53-60 | "all" clears the category, anything else selects it; the range is unchanged and reported |
| ProductFilters.FilterPanel.HandleReset | client/src/components/product-filters.tsx:62-69 | no category and range [0, ceiling], reported as such |
| ServerAuth.ToStore | server/auth.ts:64-67 | the row passed to `createUser` keeps username and e-mail and carries the hash as its password |
| ServerAuth.Register | server/auth.ts:42-89 | an invalid body is 400 before any lookup; a taken username is 400 and checked before the e-mail; a taken e-mail is 400; a valid body with a new username and e-mail whose password hashes always reaches `createUser`, with exactly that row and the hash of the password; 201 exactly when the row was created and the verification mail (if any) sent, with the five public fields; a throw from either lookup or from hashing, and any failure once the row is handed to `createUser` (its own throw or the mailer's), is 500 "Registration failed" |
| ServerAuth.Authenticate | server/auth.ts:95-107 | success exactly for a known, verified user whose password matches; unknown user and wrong password get the same 401; an unverified user gets 401 "Please verify your email first"; a throw from the lookup or the password comparison is 500 "Login failed" |
| ServerAuth.Login | server/auth.ts:91-118 | 200 exactly on success, with the session's user id set and the user without password returned; the session's admin flag is never written; a refusal leaves the session alone |
| ServerAuth.UnverifiedLoginIgnoresPassword | server/auth.ts:100-104 | for an unverified user the outcome is the same whatever the password comparison would answer |
| ServerAuth.Logout | server/auth.ts:120-128 | a failed destroy is 500; otherwise the session is fresh and the reply says so; the admin flag is never set |
| ServerAuth.VerifyEmail | server/auth.ts:130-147 | a missing, empty or non-string token is 400 "Invalid token"; 200 exactly when storage accepts the token; a refusal is 400 "Invalid or expired token"; a throw from storage is 500 "Email verification failed" |
| ServerAuth.ForgotPassword | server/auth.ts:149-167 | a missing e-mail is 400; no issued token is 404; 200 exactly when a token was issued and the reset mail went out; a throw from issuing the token or from the mailer is 500 "Failed to send reset email" |
| ServerAuth.ResetPassword | server/auth.ts:169-188 | a missing token or password is 400; 200 exactly when storage accepts the token with the hash of the new password; a refusal is 400 "Invalid or expired token"; a throw from hashing (including a non-string password) or from storage is 500 "Password reset failed" |
| ServerAuth.ProtectedGuard | server/auth.ts:191-196 | passes exactly signed-in sessions, otherwise 401 "Unauthorized" |
| ServerAuth.Me | server/auth.ts:199-216 | 401 without a signed-in session; 404 for an unknown id; 200 exactly when the id is found, with the user without password; a throw from the lookup is 500 "Failed to get user data" |
| ServerAuth.LoginRecordingAdmin | server/auth.ts:91-118 | the corrected login: same response and user id as `Login`, and on success the session is admin exactly when the user is |
| ServerAuth.ReplayNeverGrantsAdmin | server/auth.ts:110-128 | no series of logins and logouts turns a non-admin session into an admin one |
| ServerRoutes.Health | server/routes.ts:8-10 | always 200 with status "ok" |
| ServerRoutes.ListProducts | server/routes.ts:12-20 | 200 with every stored product in creation order |
| ServerRoutes.AdmitProduct | server/routes.ts:22-30 | a non-admin session is 403 whatever the body; an admin's invalid body is 400; admitted exactly for an admin with a valid body, carrying the body's fields |
| ServerRoutes.CreateProduct | server/routes.ts:22-39 | a refused request leaves the table unchanged; an admitted one stores the product under the next id and answers 201 with it |
| ServerRoutes.UpdateProduct | server/routes.ts:41-59 | an invalid body is 400 before storage is asked; an unknown id is 404; 200 exactly when storage updates a product, with the product storage returned; a throw from storage is 500 "Failed to update product"; never 403 |
| ServerRoutes.DeleteProduct | server/routes.ts:61-74 | 204 with no body exactly when storage deletes; 404 when it does not; 500 on a throw; never 403 |
| ServerRoutes.NoSessionCanCreateProducts | server/routes.ts:22-25 | after any series of logins and logouts from a fresh session, POST /api/products is refused with 403 |
| ServerRoutes.CorrectedLoginAdmitsAdministrators | server/routes.ts:22-34 | with the corrected login, a verified administrator's valid product is admitted and a non-administrator is still refused with 403 |
| ApiLogin.PayloadOf | api/auth/login.ts:50-55 | the token carries the user's id, name and e-mail, and is admin exactly when the user's flag is true (a null flag counts as false) |
| ApiLogin.Login | api/auth/login.ts:29-71 | non-POST is 405; 200 exactly for a known user whose password matches, with no e-mail-verification check; unknown user and wrong password get the same 401; a throw from the lookup or the comparison is 500 with no cookie; on success the body is the user without password plus the signed token, and the cookie is set exactly then |
| ApiLogin.LoginIgnoresEmailVerification | api/auth/login.ts:37-66 | changing the user's verification flag does not change the status |
| ApiLogin.TokenCookieRoundTrip | api/auth/login.ts:61 | the cookie pair a browser sends back for the login cookie yields the same token |
| ApiUser.CurrentUser | api/auth/user.ts:28-60 | non-GET is 405; a GET is always 200 and never 500; the body is a user exactly when a non-empty token verifies and its id finds a row, and then it is that row without password; otherwise `null` |
| ApiUser.LoginThenCurrentUser | api/auth/user.ts:34-55 | the token issued at login, sent back in its cookie, makes the endpoint answer with that user's stored row |
| ProtectedRoute.Guard | client/src/components/protected-route.tsx:17-36 | loading shows the spinner with no redirect; no user redirects to "/auth"; a non-admin on "/add-product" is redirected to "/"; the page renders exactly for a signed-in user on any other path or an admin |
| ProtectedRoute.AdminFlagOnlyGuardsProductForm | client/src/components/protected-route.tsx:31-36 | off "/add-product", the admin flag makes no difference |
| ResetPassword.ViewFor | client/src/pages/reset-password.tsx:23-43 | the form exactly when the token is present and non-empty |
| ResetPassword.CheckInput | client/src/pages/reset-password.tsx:48-64 | accepted exactly when the password has at least 6 characters and matches; a short password is reported as short even when it also mismatches |
| ResetPassword.ResetPasswordPage.constructor | client/src/pages/reset-password.tsx:18-20 | empty fields, not loading |
| ResetPassword.ResetPasswordPage.Edit | client/src/pages/reset-password.tsx:18-19 | the fields are set, the loading flag untouched |
| ResetPassword.ResetPasswordPage.BeginSubmit | client/src/pages/reset-password.tsx:45-72 | rejected input toasts its message, sends nothing and leaves loading alone; accepted input sets loading and sends exactly the token and password |
| ResetPassword.ResetPasswordPage.FinishSubmit | client/src/pages/reset-password.tsx:74-88 | success toasts and navigates to "/auth", failure toasts the expired-link message; loading ends false either way |
| ResetPassword.ResetPasswordPage.HandleSubmit | client/src/pages/reset-password.tsx:45-89 | the fields never change; rejected input shows its error toast, sends nothing, does not navigate and leaves loading alone; accepted input sends exactly the token and the typed password, ends with loading false, and either shows the success toast and navigates to "/auth" or shows the expired-link toast and stays |
| Profile.FormIssues | client/src/pages/profile.tsx:29-36 | the current-password issue iff it is empty, the new-password issue iff it is shorter than 6, the mismatch issue on confirmPassword iff the two differ; no issue exactly when all hold |
| Profile.RequestFor | client/src/pages/profile.tsx:55-59 | the request carries the current and new password only |
| Profile.RequestOmitsConfirmation | client/src/pages/profile.tsx:56-59 | the confirmation never influences the request |
| Profile.Render | client/src/pages/profile.tsx:78-116 | nothing without a user; role "Administrador" exactly for administrators, else "Usuario"; the form is shown exactly while changing the password |
| Profile.ProfilePage.constructor | client/src/pages/profile.tsx:43-52 | form closed and empty |
| Profile.ProfilePage.Toggle | client/src/pages/profile.tsx:113 | the form's open flag flips, the fields stay |
| Profile.ProfilePage.Edit | client/src/pages/profile.tsx:124-162 | the fields are set, the open flag untouched |
| Profile.ProfilePage.Submit | client/src/pages/profile.tsx:121 | the schema's issues are shown; a request, the one for the form, is sent exactly when there are none |
| Profile.ProfilePage.OnSuccess | client/src/pages/profile.tsx:61-68 | the success toast; the form closes and its fields reset |
| Profile.ProfilePage.OnError | client/src/pages/profile.tsx:69-75 | the error toast carries the server's message |

## Left out

- Cart persistence: the cart is not saved to local storage. The model is the in-memory store only.
- Prices are integer cents. The `real` price column, parsing a typed price and formatting a price for display (`/100`, `toFixed`, `Intl.NumberFormat`) are floating point and are not modelled.
- Text:
  - Case mapping covers ASCII letters only; other letters are left unchanged.
  - Lengths count characters, not UTF-16 code units.
- bcrypt, jsonwebtoken and the mailer are parameters:
  - Hashing is taken as a fixed function of the password. The random salt stays inside that parameter.
  - The SMTP transport and the verification-mail body (server/auth.ts:7-39) are not modelled.
- Storage methods missing from the in-memory table are parameters: `getUserByUsername`, `getUserByEmail`, `getUserById`, `createUser`, `verifyEmail`, `setResetToken`, `resetPassword`, `updateProduct` and `deleteProduct` (server/storage.ts:3-59).
  - With that class as the store, each such call would throw and end in the 500 branch, which the `Throws` outcome covers.
  - How tokens are issued, expire and get cleared is not modelled.
- `sendPasswordResetEmail` (server/auth.ts:161) is not defined in that file. It is a parameter like the storage methods.
- The session store is reduced to the user id and admin flag that the handlers read and write. Destroying a session is a success/failure input. Expiry and cookie signing are not modelled.
- `parseInt` of the `:id` route parameter is not modelled: the routes take the id as an integer.
- ApiLogin.Login: only string `username` and `password` fields are modelled. Other JSON values in the body are not.
- ServerAuth.Authenticate: only string `username` and `password` are modelled. The source destructures whatever the body holds (server/auth.ts:93); a missing or non-string password would reach `bcrypt.compare` and end in the 500 branch, which is not modelled.
- ServerAuth.Login: the same restriction to string `username` and `password` (server/auth.ts:93); the 500 a missing password would cause is not modelled.
- ServerRoutes.ListProducts: the 500 branch is not modelled, because the in-memory `getProducts` cannot throw.
- ServerRoutes.CreateProduct: the 500 branch is not modelled, because the in-memory `createProduct` cannot throw.
- ProductFilters.FilterPanel.HandlePriceChange: requires two slider values, which the two-thumb slider always supplies.
- ResetPassword.ResetPasswordPage.BeginSubmit: requires the form view. With an invalid link no form is rendered, so there is nothing to submit.
- Profile.ProfilePage.Submit: requires the form to be open, because the form is rendered only then.
- `localeCompare` is abstract: any total preorder on names.
- zod's exact wording for type errors ("Required", "Expected string, received number") is only approximated. The messages the schemas define are exact.
- The category endpoint (`/api/categories`) is not part of either back end shown. Its reply is an input.
- Rendering, react-query caching and loading, routing, and the remaining pages and components are not modelled.
- The serverless register, logout and product-list endpoints are not modelled: they are database and cookie plumbing around a method check.

## Findings

| source | as written | input that shows it | evidently intended | confidence | as-written member | corrected member |
|---|---|---|---|---|---|---|
| server/auth.ts:110 | a successful login stores only `session.userId`; POST /api/products (server/routes.ts:23) admits only sessions whose `isAdmin` is truthy, and nothing in the server ever sets it | an administrator account (`isAdmin` true, e-mail verified) logs in with the right password, then POSTs a valid product: 403 "Solo los administradores pueden agregar productos" | login records the user's admin flag in the session, which the session type declares for this purpose (types/session.d.ts:6) | not executed; high | ServerRoutes.NoSessionCanCreateProducts | ServerAuth.LoginRecordingAdmin, ServerRoutes.CorrectedLoginAdmitsAdministrators |
