# Bakery admin dashboard: client state model

This project models the client-side state logic of a bakery back-office
dashboard. The dashboard signs in an administrator and manages users,
categories and products through a REST API. The model covers three parts:

- **The resource-collection reducer.** The categories, products and users
  slices each hold `{items, selected, isLoading, error}`. Each CRUD request
  runs a `pending` case and then a `fulfilled` or `rejected` case.
  `ResourceSlice.Slice<T>` models all three slices once. It is a class whose
  methods update these fields in place. `idOf` reads a record's
  server-assigned identifier, and `resource` selects the per-slice fallback
  messages and the authorization-header rule. The list operations are
  specified by the functions `Replaced` (update: overwrite the first record
  with a matching id) and `Removed` (delete: filter out the id). Lemmas prove
  what these keep: length, order, the identifiers, and their uniqueness.
- **The session reducer** (`AuthSlice.Session`). It covers login, logout and
  the credential setters. Login and logout write and remove the token in
  durable storage (`Storage.LocalStorage`, keyed by "token"). A rejected
  login marks the session unauthenticated but keeps `user` and `token`.
- **The list pages' pure helpers.** These are the search, role, category and
  status filters. Each is proved to return an order-preserving subsequence
  holding exactly the passing records. The pages also have a category-name
  lookup with a not-found fallback, description truncation, the stock badge,
  the role colour and label maps, product form validation, and the
  users-page update payload that drops an empty password. The categories
  page's modal (`CategoriesPage.Page`) is a class: open, close and submit
  update its state and dispatch to the categories slice.

An HTTP request's outcome is an input to the reducers
(`Requests.Outcome`): a fulfilled payload, or a rejection carrying the
response body's `error` field if there was one. `Scenarios` holds client
methods that drive the classes through typical request sequences and check
the observable results from the contracts alone.

Behaviours of the code a reader may not expect:

- The `fulfilled` cases of the three resource slices set `isLoading` to
  false but do not reset `error`. Only `pending` clears it. Login fulfilled
  and logout do clear `error`.
- The users slice always sends an `Authorization` header. With no token it
  sends `Bearer null`. The other two slices send the header only when a
  non-empty token is stored.
- The reducers enforce neither unique identifiers nor that `selected` is a
  listed record. Create appends whatever the server returns, and get-by-id
  selects it unconditionally. Uniqueness is proved to be preserved under
  stated conditions (`CreateFreshKeepsUnique`, `ReplacedKeepsUnique`,
  `RemovedKeepsUnique`).

## Model

| member | source | states |
|---|---|---|
| ResourceSlice.Slice.constructor | src/lib/features/categories/categoriesSlice.js:87-92 | initial state: empty list, no selection, not loading, no error |
| ResourceSlice.Slice.ClearError | src/lib/features/categories/categoriesSlice.js:98-100 | only `error` changes, to null (idempotent; frame is the one field) |
| ResourceSlice.Slice.ClearSelected | src/lib/features/users/usersSlice.js:101-103 | only the selection changes, to null |
| ResourceSlice.Slice.Pending | src/lib/features/categories/categoriesSlice.js:108-111 | every pending case sets loading and clears error; list and selection untouched |
| ResourceSlice.Slice.Rejected | src/lib/features/products/productsSlice.js:116-119 | every rejected case clears loading and stores the server message or the operation's fallback; list and selection untouched; the message is never empty |
| ResourceSlice.Slice.FetchAllFulfilled | src/lib/features/users/usersSlice.js:112-115 | list becomes exactly the payload; selection and error untouched |
| ResourceSlice.Slice.FetchByIdFulfilled | src/lib/features/products/productsSlice.js:125-128 | selection becomes the payload; list untouched |
| ResourceSlice.Slice.CreateFulfilled | src/lib/features/categories/categoriesSlice.js:138-141 | payload appended: length grows by one, every earlier element unchanged |
| ResourceSlice.Slice.UpdateFulfilled | src/lib/features/categories/categoriesSlice.js:151-160 | list becomes `Replaced(old list, payload)`; selection replaced iff its id matches the payload's |
| ResourceSlice.Slice.DeleteFulfilled | src/lib/features/categories/categoriesSlice.js:170-176 | list becomes `Removed(old list, requested id)`; selection cleared iff its id is the requested id |
| ResourceSlice.Replaced | src/lib/features/categories/categoriesSlice.js:153-156 | length kept; with no matching id the list is unchanged (nothing appended); otherwise exactly the first matching position is overwritten with the payload, and no other position changes |
| ResourceSlice.Removed | src/lib/features/categories/categoriesSlice.js:172 | a record survives iff it was present and its id differs from the deleted id |
| ResourceSlice.FirstWithId | src/lib/features/products/productsSlice.js:153 | `findIndex` by id: -1 iff no record has the id, else the first position that has it |
| ResourceSlice.ReplacedKeepsIds | src/lib/features/products/productsSlice.js:151-156 | update never changes the sequence of identifiers |
| ResourceSlice.ReplacedKeepsUnique | src/lib/features/users/usersSlice.js:151-156 | update keeps identifiers unique and every identifier's count |
| ResourceSlice.AppendedCounts | src/lib/features/products/productsSlice.js:138-141 | create adds one occurrence of the payload's id and changes no other id's count |
| ResourceSlice.CreateFreshKeepsUnique | src/lib/features/categories/categoriesSlice.js:138-141 | with a fresh server id, the list stays unique and holds exactly one record with that id |
| ResourceSlice.RemovedCounts | src/lib/features/products/productsSlice.js:170-176 | after delete no record has the id; every other id keeps its count |
| ResourceSlice.RemovedIsSubsequence | src/lib/features/users/usersSlice.js:172 | delete keeps the survivors in their original order |
| ResourceSlice.RemovedKeepsUnique | src/lib/features/categories/categoriesSlice.js:172 | delete keeps identifiers unique |
| ResourceSlice.CountZeroIffAbsent | src/lib/features/users/usersSlice.js:170-176 | an id's count is zero iff no record carries it |
| ResourceSlice.Fallback | src/lib/features/categories/categoriesSlice.js:17-85 | the fifteen per-slice, per-operation fallback messages, each starting "Failed to " |
| ResourceSlice.RejectionNeverSilent | src/lib/features/products/productsSlice.js:24-26 | every rejected request carries a non-empty message |
| Requests.RejectionMessage | src/lib/features/categories/categoriesSlice.js:80-82 | the server's `error` field when non-empty, otherwise the fallback |
| ResourceSlice.AuthHeaders | src/lib/features/products/productsSlice.js:7-14 | header only for a non-empty stored token (categories, products); always for users, "null" standing for no token; value is "Bearer " + token |
| ResourceSlice.AuthHeadersAgreeOnToken | src/lib/features/users/usersSlice.js:7-14 | with a non-empty token the three slices send the same header |
| Storage.LocalStorage.GetItem | src/lib/features/categories/categoriesSlice.js:8 | the stored string, or none when the key is absent |
| Storage.LocalStorage.SetItem | src/lib/features/auth/authSlice.js:17 | the key maps to the value, nothing else changes |
| Storage.LocalStorage.RemoveItem | src/lib/features/auth/authSlice.js:32 | the key is removed, nothing else changes |
| AuthSlice.Session.constructor | src/lib/features/auth/authSlice.js:37-43 | initial session: no user or token, not loading, no error, not authenticated |
| AuthSlice.Session.ClearError | src/lib/features/auth/authSlice.js:49-51 | only `error` changes, to null |
| AuthSlice.Session.SetCredentials | src/lib/features/auth/authSlice.js:52-56 | user and token set, authenticated; loading and error untouched |
| AuthSlice.Session.ClearCredentials | src/lib/features/auth/authSlice.js:57-61 | user and token null, not authenticated; loading and error untouched |
| AuthSlice.Session.LoginPending | src/lib/features/auth/authSlice.js:66-69 | loading set, error cleared; user, token and authentication untouched |
| AuthSlice.Session.LoginFulfilled | src/lib/features/auth/authSlice.js:70-76 | token written to storage under "token"; user and token from the payload, authenticated, not loading, no error |
| AuthSlice.Session.LoginRejected | src/lib/features/auth/authSlice.js:77-81 | not loading, message or "Login failed", not authenticated; user, token and storage untouched |
| AuthSlice.Session.LogoutFulfilled | src/lib/features/auth/authSlice.js:83-88 | stored token removed; user, token, error null, not authenticated; loading untouched |
| Sequences.Filter | src/app/dashboard/products/page.js:77 | `filter`: every result passes, membership is exactly present-and-passing, multiplicities kept for passing elements |
| Sequences.FilterIsSubsequence | src/app/dashboard/users/page.js:77 | `filter` result is an order-preserving subsequence of its input |
| Sequences.FindIndex | src/app/dashboard/products/page.js:148 | -1 iff no element passes, else the first passing position |
| ListView.SearchMatches | src/app/dashboard/products/page.js:78 | the search test of all three pages: the field is present and its lowercase form includes the lowercase term; a missing field fails |
| ListView.SearchMatchesIffOccurs | src/app/dashboard/products/page.js:78 | search passes iff the field exists and the lowered term occurs at some position of the lowered field |
| ListView.SearchEmptyTerm | src/app/dashboard/categories/page.js:66 | with an empty term exactly the records having the field pass; a missing field never passes |
| ListView.SearchIgnoresTermCase | src/app/dashboard/users/page.js:78 | lowering the term first does not change the outcome |
| ListView.StatusMatches | src/app/dashboard/products/page.js:80-82 | the status test: empty filter, or 'active' with an active record, or 'inactive' with an inactive one |
| ListView.StatusFilterCases | src/app/dashboard/products/page.js:80-82 | '' passes all, 'active' only active, 'inactive' only inactive, anything else none |
| ProductsPage.FilteredProducts | src/app/dashboard/products/page.js:77-85 | order-preserving subsequence containing exactly the products passing search, category and status, with their multiplicities |
| ProductsPage.CategoryMatches | src/app/dashboard/products/page.js:79 | the category test: empty filter, or a present `category_id` whose decimal string equals the filter value |
| ProductsPage.CategoryFilterSelectsId | src/app/dashboard/products/page.js:79 | the filter value `String(id)` keeps a product iff its `category_id` is `id` |
| Text.IntToString | src/app/dashboard/products/page.js:79 | `toString` of an integer: at least one character, with a leading '-' exactly for negative numbers |
| Text.IntToStringInjective | src/app/dashboard/products/page.js:79 | distinct integers have distinct `toString` forms |
| Text.Contains | src/app/dashboard/users/page.js:78 | `includes`: the term is a prefix of the string or of one of its suffixes |
| Text.Lower | src/app/dashboard/users/page.js:78 | `toLowerCase`: same length, each character lowered on its own |
| Text.ContainsIffOccurs | src/app/dashboard/users/page.js:78 | `includes` holds iff the term occurs at some index |
| ProductsPage.CategoryName | src/app/dashboard/products/page.js:147-150 | the first category with that id gives its title; no such category gives 'Kategori bulunamadı' |
| ProductsPage.CategoryNameOfListed | src/app/dashboard/products/page.js:147-150 | with unique category ids a listed category's title is shown for its id |
| ProductsPage.CategoryNameDangling | src/app/dashboard/products/page.js:148-149 | a dangling category reference shows the not-found text |
| ProductsPage.ShownDescription | src/app/dashboard/products/page.js:269-271 | at most 53 characters; up to 50 shown unchanged; longer ones keep their first 50 followed by "..." |
| ProductsPage.StockBadge | src/app/dashboard/products/page.js:281-286 | green iff stock > 10, yellow iff 0 < stock <= 10, red iff missing or <= 0 |
| ProductsPage.ShownStock | src/app/dashboard/products/page.js:287 | the count shown in the stock badge: the stock, or 0 when it is missing |
| ProductsPage.StockBadgeMatchesShownCount | src/app/dashboard/products/page.js:281-287 | the badge of the stock equals the badge of the count shown, which is the stock or 0 when missing |
| ProductsPage.StockBadgeMonotone | src/app/dashboard/products/page.js:281-286 | more stock never gives a worse badge |
| ProductsPage.ValidateProduct | src/app/dashboard/products/page.js:26-33 | an error for a field iff its rule fails (name present and non-empty, price > 0, category given, stock >= 0), with the form's messages |
| ProductsPage.ValidFormIsComplete | src/app/dashboard/products/page.js:26-33 | a form with no errors has a name, a positive price, a category and a non-negative stock |
| UsersPage.FilteredUsers | src/app/dashboard/users/page.js:77-85 | order-preserving subsequence containing exactly the users passing search, role and status, with their multiplicities |
| UsersPage.NoFiltersListsNamedUsers | src/app/dashboard/users/page.js:77-85 | with no filters set, a list whose users all have usernames is shown whole |
| UsersPage.RoleMatches | src/app/dashboard/users/page.js:79 | the role test: empty filter, or the user's role equals the filter |
| UsersPage.RoleFilterCases | src/app/dashboard/users/page.js:79 | '' passes every user; any other value passes exactly the users with that role |
| UsersPage.RoleBadgeColor | src/app/dashboard/users/page.js:141-152 | admin red, supervisor yellow, clerk blue, and gray iff any other role |
| UsersPage.RoleDisplayName | src/app/dashboard/users/page.js:154-165 | 'Admin', 'Süpervizör', 'Personel' for the three roles; any other role returned unchanged |
| UsersPage.KnownRoleLabelsDistinct | src/app/dashboard/users/page.js:154-165 | the three known roles have distinct labels |
| UsersPage.UpdatePayload | src/app/dashboard/users/page.js:117-120 | password kept iff truthy; every other field kept with its value; nothing added |
| UsersPage.SubmitRequest | src/app/dashboard/users/page.js:114-124 | editing gives an update with the user's id and the stripped payload; creating sends the form as-is |
| CategoriesPage.FilteredCategories | src/app/dashboard/categories/page.js:65-72 | order-preserving subsequence containing exactly the categories passing search and status, with their multiplicities |
| CategoriesPage.EmptyTermListsTitled | src/app/dashboard/categories/page.js:66 | with an empty term and no status filter, a category is listed iff it is present and has a title |
| CategoriesPage.Page.constructor | src/app/dashboard/categories/page.js:31-51 | modal closed, nothing edited, default form |
| CategoriesPage.Page.OpenModal | src/app/dashboard/categories/page.js:74-87 | modal open with the given category; form reset to title '' and active, or copied from the category |
| CategoriesPage.Page.CloseModal | src/app/dashboard/categories/page.js:89-94 | modal closed, editing cleared, form reset, slice error cleared |
| CategoriesPage.Page.Submit | src/app/dashboard/categories/page.js:96-107 | update with the edited id or create; on success the slice is updated, a selection with the updated id is refreshed (create leaves it alone), and the modal closes; on failure the page is unchanged and the slice holds the message |

## Left out

- The HTTP calls (axios), the `API_BASE_URL` lookup and the payload shapes the server returns. Each request's outcome is an input to the reducers instead.
- Interleaving of overlapping requests on one slice. The transitions are applied one at a time.
- `logoutUser` has no pending or rejected case, and its thunk cannot fail, so only its fulfilled case is modelled.
- Storing a missing token: `setItem` with an undefined token would store the text "undefined". The model's login payload always carries a string token.
- Text.Lower: folds ASCII letters only, because JavaScript's `toLowerCase` uses Unicode and locale rules that are not modelled.
- String lengths and the 50-character cut count characters, where JavaScript counts UTF-16 code units.
- Text.IntToString: gives plain decimal digits; JavaScript's exponent notation for magnitudes of 1e21 and above is not modelled.
- `parseFloat` and `parseInt` in the products submit handler, `toFixed(2)` price display, and `toLocaleDateString` dates are not modelled. Prices are opaque reals, and only their sign is checked.
- ProductsPage.ValidateProduct: a missing value and a non-numeric value are the same input, so the library's separate type-error message is not modelled.
- The users-page password rule, which relies on the validation library's `when('isEdit')` semantics, and the categories-page title rule.
- The five-second timer that clears a displayed error.
- The delete confirmation dialog.
- The products and users pages' modal open/close and their product submit handler. These follow the categories page pattern modelled in `CategoriesPage.Page`.
- Rendering-only files: the dashboard home counts, layout, login page, routing, image upload preview and configuration files.
- The store wiring. It only combines the four independent slice states.
