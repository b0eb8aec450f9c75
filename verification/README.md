# Flash POS dashboard — a Dafny model

This project models the logic of the Flash POS admin dashboard, a Next.js
point-of-sale back office. It covers the following parts.

- **Pagination component.** The page-number window with ellipses, the
  "showing X–Y of N" range, and the first, previous, next and last buttons.
- **Customers page.** Generated customers, a case-insensitive search over name,
  email and phone, client-side paging of ten per page, the add-customer form
  and the status statistics.
- **Sales page.** Thirty carts loaded once and paged on the client. Each row
  shows a `#ORD-007` order label, a discount, and a status that cycles with
  the row index.
- **Users page.** Paged on the server with `limit`/`skip`, with role badges
  and a retry after a failed load.
- **Products page.** Paged on the server with twelve per page, plus a text
  search. While a search is active, every page change re-sends the same
  search. The `skip` is dropped, so the page number changes but the list does
  not (`Products.SearchIgnoresPage`).
- **Kitchen board.** Three columns (pending, preparing, ready) with buttons
  that move a ticket forward or complete it. The elapsed-time colour runs
  green, then yellow, then red.
- **Tables board.** A floor plan of twelve tables with status texts and
  colours, a detail dialog whose buttons depend on the status, checkout, and
  the floor statistics.
- **Sidebar and the menu catalogue.** Menu entries filtered by the signed-in
  user's role, the active-entry rule, and collapsing.
- **Context providers.** The authentication context (login, logout,
  role switching, restore from storage) and the language context (Thai and
  English catalogues, the `t` lookup with fallback to the key).
- **Formatting helpers.** `getTimeAgo` and `truncateText`.
- **Dashboard page.** The statistics and the five most recent orders.

Every page is a pure state machine. Each has a state record, and every
handler is a function from state to state. Asynchronous requests are split
into `BeginFetch` and `CompleteFetch`, where the response (`Fetch<T>`:
`Loaded` or `Failed`) is a parameter. The current time, random mock data,
the stored `localStorage` value and the pathname are also parameters.

Modules:

| module | file |
|---|---|
| `Seqs` | shared sequence helpers: `Filter`, JavaScript `slice`, sums |
| `Text` | string helpers: `includes`, `toLowerCase`, `padStart`, `split(sep)[0]`, number printing |
| `Remote` | fetch outcomes |
| `Paging` | `Math.ceil` page counts and `(page - 1) * perPage` slices |
| `Pagination`, `Format`, `Types`, `Menu` | the matching source files |
| `Carts` | the order label and status cycle shared by the sales and dashboard pages |
| `Sales`, `Customers`, `Users`, `Products`, `Dashboard`, `Kitchen`, `Tables` | the pages |
| `Sidebar`, `Auth`, `Language` | the component and the two contexts |

## Model

| member | source | states |
|---|---|---|
| Pagination.PageRange | src/components/Pagination.tsx:24-27 | the loop `for i = lo..hi` pushes exactly the pages lo, lo+1, …, hi, and nothing when hi < lo |
| Pagination.PageNumbersShapes | src/components/Pagination.tsx:20-53 | with at most 7 pages every page is listed (none when there are 0); otherwise the head shape `1-5 … t`, tail shape `1 … t-4..t` or middle shape `1 … p-1 p p+1 … t`, chosen by the current page |
| Pagination.FullRangeIsWindow | src/components/Pagination.tsx:24-27 | the full listing satisfies the window property |
| Pagination.HeadShapeIsWindow | src/components/Pagination.tsx:29-34 | the head shape is a valid window that starts at page 1, ends at the last page and contains the current page |
| Pagination.TailShapeIsWindow | src/components/Pagination.tsx:35-40 | the tail shape is a valid window that contains the current page |
| Pagination.MiddleShapeIsWindow | src/components/Pagination.tsx:41-48 | the middle shape is a valid window around the current page |
| Pagination.PageNumbersAreWindow | src/components/Pagination.tsx:20-53 | for every current page and page count: at most seven entries; numbers within 1..t, strictly increasing, from page 1 to page t; neighbouring numbers consecutive; each ellipsis sits between two numbers and hides at least one page; the current page is listed when in range |
| Pagination.ClickTarget | src/components/Pagination.tsx:140-155 | an ellipsis is not clickable; a number navigates to that page |
| Pagination.ClicksTargetExistingPages | src/components/Pagination.tsx:140-155 | every clickable entry navigates to a page between 1 and the page count |
| Pagination.RangeMatchesSlice | src/components/Pagination.tsx:55-56 | the "showing X–Y of N" range equals the items the page actually slices: X−1 is the offset and Y−X+1 the slice length |
| Pagination.NavigationStaysInRange | src/components/Pagination.tsx:112-185 | for 1 ≤ p ≤ t, first/previous are disabled exactly on page 1, next/last exactly on page t, and every enabled button targets a page in 1..t |
| Pagination.EmptyListNavigationEscapes | src/components/Pagination.tsx:170-185 | with zero pages, next and last stay enabled and target pages 2 and 0, which do not exist (finding) |
| Pagination.GuardedNavigationStaysInRange | src/components/Pagination.tsx:170-185 | with `>=` guards, enabled buttons always target 1..t; they agree with the source whenever p ≤ t, and are disabled when t = 0 |
| Pagination.PageNumbersExamples | src/components/Pagination.tsx:20-53 | the three shapes on ten pages, from page 1, 10 and 5 |
| Paging.TotalPages | src/app/dashboard/sales/page.tsx:37 | `Math.ceil(n / perPage)`: the smallest count of pages that holds n items; zero exactly when n is zero |
| Paging.PageSlice | src/app/dashboard/sales/page.tsx:38-40 | a page has at most perPage items, taken in order from offset `(page-1)*perPage` |
| Paging.ItemOnItsPage | src/app/dashboard/customers/page.tsx:59-61 | every item appears exactly once: it is entry `i % perPage` of page `i / perPage + 1`, that page is in range, and no other page's window covers index i |
| Paging.PageInRangeIsFilled | src/app/dashboard/customers/page.tsx:59-61 | every page up to the count is non-empty and every page before the last is full |
| Paging.PageBeyondLastIsEmpty | src/app/dashboard/customers/page.tsx:59-61 | a page after the last one slices nothing |
| Seqs.JsSlice | src/app/dashboard/sales/page.tsx:40 | JavaScript `slice` semantics: clamped bounds, and negative bounds counted from the end |
| Text.PadStart | src/app/dashboard/sales/page.tsx:119 | `padStart` gives length max(len s, width), with the fill characters in front and s at the end |
| Text.BeforeFirst | src/contexts/AuthContext.tsx:36 | `split(sep)[0]` is the longest prefix without sep; the input itself when sep does not occur |
| Text.ToLower | src/app/dashboard/customers/page.tsx:54-55 | lower-casing keeps the length and maps each character |
| Text.ContainsIffOccurs | src/app/dashboard/customers/page.tsx:54-56 | `includes` holds exactly when the needle occurs at some position |
| Text.NatToStringRoundTrip | src/app/dashboard/sales/page.tsx:119 | `String(id)` reads back to the same number |
| Carts.OrderLabel | src/app/dashboard/sales/page.tsx:119 | the label is "#ORD-" followed only by digits, and at least three of them |
| Carts.OrderLabelRoundTrip | src/app/dashboard/sales/page.tsx:119 | the digits after "#ORD-" have the value of the cart id |
| Carts.OrderLabelInjective | src/app/dashboard/page.tsx:54 | distinct cart ids never share an order label |
| Carts.StatusForRow | src/app/dashboard/sales/page.tsx:47-56 | row index mod 3: 0 completed, 1 processing, 2 pending, in both directions |
| Carts.StatusCycles | src/app/dashboard/page.tsx:57 | the status repeats every three rows and steps completed → processing → pending → completed |
| Sales.BeginFetch | src/app/dashboard/sales/page.tsx:21-22 | loading starts, the error clears, and the carts and page are kept |
| Sales.CompleteFetch | src/app/dashboard/sales/page.tsx:19-31 | success replaces the carts; failure keeps them and stores the message; loading always ends and the page never changes |
| Sales.PageChange | src/app/dashboard/sales/page.tsx:42-45 | only the current page changes |
| Sales.Rows | src/app/dashboard/sales/page.tsx:114 | one row per cart of the current page, at most ten |
| Sales.RowsShowCurrentPage | src/app/dashboard/sales/page.tsx:114-131 | row i shows the order label of the i-th cart on the page, the status of row i, and an amount minus discount that equals the net total; when the page is in range, that cart is cart `(page-1)*10 + i` |
| Sales.EmptySalesPagerEscapes | src/app/dashboard/sales/page.tsx:148-154 | after a successful load of zero carts the pager is shown with zero pages; its next button is enabled and points at page 2, and its last button points at page 0 (finding) |
| Sales.EmptySalesPagerGuarded | src/app/dashboard/sales/page.tsx:148-154 | with the guarded buttons the same empty pager offers no navigation |
| Customers.Mount | src/app/dashboard/customers/page.tsx:37-51 | mounting installs the generated list and changes nothing else |
| Customers.FilteredCustomers | src/app/dashboard/customers/page.tsx:53-57 | a customer is listed exactly when the lower-cased name or email contains the lower-cased term, or the phone contains the term as typed |
| Customers.SearchKeepsOrder | src/app/dashboard/customers/page.tsx:53-57 | the matches keep their list order, and an empty term matches everyone |
| Customers.Filtered | src/app/dashboard/customers/page.tsx:53-57 | the page's match list holds exactly the customers matching the current term |
| Customers.TotalPages | src/app/dashboard/customers/page.tsx:59 | enough pages of ten for every match, and zero pages exactly when nothing matches |
| Customers.PagerShownIffSomethingMatches | src/app/dashboard/customers/page.tsx:220-228 | the pager appears exactly when some customer matches the term |
| Customers.CurrentCustomers | src/app/dashboard/customers/page.tsx:59-61 | the page shows at most ten customers, all of them matches |
| Customers.SetSearchTerm | src/app/dashboard/customers/page.tsx:135-138 | typing stores the term and returns to page 1, keeping the list, form and dialog |
| Customers.PageChange | src/app/dashboard/customers/page.tsx:63-66 | only the page changes: list, term, form and dialog stay |
| Customers.SearchShowsFirstPage | src/app/dashboard/customers/page.tsx:135-138 | after typing, the page shown is the first ten matches of the new term |
| Customers.OpenAddModal | src/app/dashboard/customers/page.tsx:104 | the add button opens the dialog and keeps the list, the form, the term and the page |
| Customers.CloseAddModal | src/app/dashboard/customers/page.tsx:241 | the close and cancel buttons hide the dialog and keep the typed form |
| Customers.UpdateForm | src/app/dashboard/customers/page.tsx:68-71 | an input change updates exactly the named form field; the list, term, page and dialog stay as they are |
| Customers.AddCustomer | src/app/dashboard/customers/page.tsx:73-87 | the new customer goes in front with id length+1, the form's fields, no orders, status active; the old list follows unchanged; the form resets and the dialog closes |
| Customers.SubmitAddForm | src/app/dashboard/customers/page.tsx:249 | submitting adds the customer only when every required field is filled, and otherwise changes nothing |
| Customers.SeededIdsWithinLength | src/app/dashboard/customers/page.tsx:39-40 | the generated ids 1..25 are distinct and within the list length |
| Customers.AddKeepsIdsUnique | src/app/dashboard/customers/page.tsx:76 | as long as ids stay in 1..length and are distinct, the id `length + 1` is fresh |
| Customers.Stats | src/app/dashboard/customers/page.tsx:89-93 | the total is the list length and neither count exceeds it |
| Customers.StatusCountsPartition | src/app/dashboard/customers/page.tsx:89-93 | active plus inactive equals the total |
| Customers.StatsIgnoreSearch | src/app/dashboard/customers/page.tsx:89-93 | the cards count the whole list, whatever the search or page; adding a customer adds one to total and to active |
| Users.RequestFor | src/app/dashboard/users/page.tsx:27-28 | page p asks for ten users from `(p-1)*10`, and that is a non-negative multiple of ten for p ≥ 1 |
| Users.BeginFetch | src/app/dashboard/users/page.tsx:24-25 | loading starts and the error clears; the data stays |
| Users.CompleteFetch | src/app/dashboard/users/page.tsx:22-38 | success sets users, total and page together; failure keeps all three and stores the message |
| Users.RetryAfterFailureKeepsPage | src/app/dashboard/users/page.tsx:95 | a retry after a failed page change asks again for the page shown before, not the failed one |
| Users.ServerPagingMatchesClientPaging | src/app/dashboard/users/page.tsx:22-49 | against a server that slices the full list, page p shows exactly the client-side page p, with the same page count |
| Users.RoleBadge | src/app/dashboard/users/page.tsx:51-58 | admin and moderator get their own style; a role named like an inherited `Object.prototype` property ("constructor", "toString", …) finds that property, which the fallback to `colors.user` does not replace; every other role gets the user style |
| Users.KnownRolesGetDistinctStyles | src/app/dashboard/users/page.tsx:51-58 | admin, moderator and user get three distinct styles, and "constructor" does not get the user style |
| Products.RequestFor | src/app/dashboard/products/page.tsx:27-30 | a non-empty query sends that search; an empty one sends a list request of 12 from `(page-1)*12` |
| Products.SearchIgnoresPage | src/app/dashboard/products/page.tsx:28-29 | during a search every page sends the same request |
| Products.ListingSeparatesPages | src/app/dashboard/products/page.tsx:27-30 | without a search, distinct pages send distinct requests |
| Products.SetSearchQuery | src/app/dashboard/products/page.tsx:79 | typing only stores the text: products, page, total, loading and error stay |
| Products.TypedQueryReachesNextSubmit | src/app/dashboard/products/page.tsx:46-79 | the last text typed wins, the next submit asks for page 1 of exactly that text, and typing does not show or hide the pager |
| Products.BeginFetch | src/app/dashboard/products/page.tsx:24-25 | loading starts and the error clears; the products, page, total and search text stay |
| Products.CompleteFetch | src/app/dashboard/products/page.tsx:22-40 | success sets products, total and page together; failure keeps all three and stores the message |
| Products.SearchRequest | src/app/dashboard/products/page.tsx:46-49 | submitting searches for a non-empty query and otherwise lists from offset 0 |
| Products.SearchLandsOnFirstPage | src/app/dashboard/products/page.tsx:46-49 | a successful submit shows page 1 |
| Products.PaginationHiddenWhileBusyOrEmpty | src/app/dashboard/products/page.tsx:124 | no pager while loading, after a failure, or after an empty result |
| Dashboard.ComputeStats | src/app/dashboard/page.tsx:36-50 | revenue is the sum of the carts' totals and sales the sum of their discounted totals; the order and product counts are the responses' totals; with no carts both sums are zero |
| Dashboard.RevenueMinusSalesIsDiscount | src/app/dashboard/page.tsx:38-39 | revenue minus sales is the sum of the per-cart discounts |
| Dashboard.SumsAppend | src/app/dashboard/page.tsx:38-39 | one more cart adds its total to revenue and its discounted total to sales |
| Dashboard.RecentOrders | src/app/dashboard/page.tsx:53 | at most five recent orders, fewer only when there are fewer carts |
| Dashboard.RecentOrdersFollowCarts | src/app/dashboard/page.tsx:53-59 | order i shows cart i's label, "Customer" plus its user id, its discounted total, the status of row i, and `(i+1)*5` minutes ago |
| Dashboard.BeginFetch | src/app/dashboard/page.tsx:26-27 | loading starts and the error clears; earlier data stays |
| Dashboard.CompleteFetch | src/app/dashboard/page.tsx:24-66 | success sets the statistics and recent orders from the responses; failure keeps them and stores the message |
| Dashboard.FailedFirstLoadHasNoStats | src/app/dashboard/page.tsx:62-64 | a first load that fails leaves no statistics and no recent orders |
| Kitchen.UpdateStatus | src/app/dashboard/kitchen/page.tsx:82-86 | the ticket with the id takes the new status and every other ticket is unchanged, in the same positions |
| Kitchen.UpdateAbsentIsNoOp | src/app/dashboard/kitchen/page.tsx:82-86 | an unknown id changes nothing |
| Kitchen.UpdateKeepsIds | src/app/dashboard/kitchen/page.tsx:82-86 | ids are kept position by position, so distinct ids stay distinct |
| Kitchen.Complete | src/app/dashboard/kitchen/page.tsx:88-90 | exactly the tickets with other ids remain |
| Kitchen.CompleteKeepsOrder | src/app/dashboard/kitchen/page.tsx:88-90 | the remaining tickets keep their order, and an unknown id changes nothing |
| Kitchen.CompleteKeepsIdsDistinct | src/app/dashboard/kitchen/page.tsx:88-90 | completing keeps the ids distinct |
| Kitchen.Column | src/app/dashboard/kitchen/page.tsx:92-94 | a column holds exactly the tickets of its status |
| Kitchen.ColumnsPartition | src/app/dashboard/kitchen/page.tsx:92-94 | the three columns together hold every ticket once |
| Kitchen.UpdateMovesOneCard | src/app/dashboard/kitchen/page.tsx:82-86 | a status change moves one card: the old column shrinks by one, the new one grows by one, and the third column keeps its count |
| Kitchen.CompleteRemovesOneCard | src/app/dashboard/kitchen/page.tsx:88-90 | completing removes one ticket from the board and from its column |
| Kitchen.ButtonsMoveForward | src/app/dashboard/kitchen/page.tsx:200-316 | each card's button moves the ticket one stage forward (pending → preparing → ready → gone) |
| Kitchen.ElapsedMinutes | src/app/dashboard/kitchen/page.tsx:71 | the floor of the elapsed milliseconds divided by 60 000 |
| Kitchen.TimeColorFor | src/app/dashboard/kitchen/page.tsx:75-80 | red above 15 minutes, yellow above 10 up to 15, green otherwise, in both directions |
| Kitchen.ColorNeverCoolsDown | src/app/dashboard/kitchen/page.tsx:75-80 | as time passes the elapsed minutes never decrease and the colour never goes back |
| Kitchen.SeedColumns | src/app/dashboard/kitchen/page.tsx:22-67 | the opening board has distinct ids with one pending, two preparing and one ready ticket |
| Kitchen.SeedColours | src/app/dashboard/kitchen/page.tsx:22-67 | the opening tickets, 5/12/8/15 minutes old, show green, yellow, green and yellow |
| Tables.GetStatusText | src/app/dashboard/tables/page.tsx:49-60 | the three Thai texts, and the empty text exactly for an unknown status |
| Tables.StatusTextsDistinct | src/app/dashboard/tables/page.tsx:49-60 | each status has a non-empty text and no two statuses share one |
| Tables.GetStatusColor | src/app/dashboard/tables/page.tsx:36-47 | green, red and yellow for the three statuses, and gray exactly where the text is empty |
| Tables.TableClick | src/app/dashboard/tables/page.tsx:62-65 | clicking selects the table and opens the dialog |
| Tables.CloseModal | src/app/dashboard/tables/page.tsx:168 | closing only hides the dialog and keeps the selection |
| Tables.Freed | src/app/dashboard/tables/page.tsx:69 | a freed table keeps id, number and capacity, is available, and has no bill, time or customer |
| Tables.CheckoutTables | src/app/dashboard/tables/page.tsx:68-70 | the table with the id is freed and every other table is unchanged, in place |
| Tables.Checkout | src/app/dashboard/tables/page.tsx:67-73 | checkout also closes the dialog and clears the selection |
| Tables.CheckoutAbsentIsNoOp | src/app/dashboard/tables/page.tsx:67-73 | an unknown id leaves the tables unchanged |
| Tables.CheckoutIdempotent | src/app/dashboard/tables/page.tsx:67-73 | checking out twice is the same as once |
| Tables.Stats | src/app/dashboard/tables/page.tsx:75-80 | the total is the table count and the three status counts add up to it |
| Tables.StatusCountsPartition | src/app/dashboard/tables/page.tsx:75-80 | every table has exactly one of the three statuses |
| Tables.CheckoutMovesOneTable | src/app/dashboard/tables/page.tsx:67-80 | checkout moves one table out of its status count and into the available count |
| Tables.CheckoutStats | src/app/dashboard/tables/page.tsx:67-80 | checking out an occupied table gives one more available and one fewer occupied; an available table leaves the statistics unchanged |
| Tables.ModalActions | src/app/dashboard/tables/page.tsx:206-229 | order and checkout only for occupied tables, open only for available ones, confirm only for reserved ones |
| Tables.PressCheckout | src/app/dashboard/tables/page.tsx:213 | the checkout button exists exactly when the open dialog shows an occupied table, and it checks that table out |
| Tables.SeedShape | src/app/dashboard/tables/page.tsx:19-32 | table i+1 sits at position i, and a table carries a bill exactly when it is occupied |
| Tables.SeedStats | src/app/dashboard/tables/page.tsx:19-32 | the opening floor has 12 tables: 6 available, 4 occupied, 2 reserved |
| Menu.MenuShape | src/config/menu.ts:3-53 | seven entries with distinct, slash-free ids and dot-free labels; the dashboard entry is "/dashboard", every other entry is "/dashboard/" + id, and admin sees all |
| Menu.MenuRoles | src/config/menu.ts:3-53 | managers see every entry but users; cashiers see only the first two |
| Sidebar.VisibleItems | src/components/Sidebar.tsx:39-41 | an entry is shown exactly when a user is signed in and the entry lists the user's role |
| Sidebar.VisibleItemsKeepOrder | src/components/Sidebar.tsx:39-41 | shown entries keep catalogue order, and nothing is shown with no user |
| Sidebar.AdminSeesEverything | src/config/menu.ts:3-53 | an admin sees the whole menu |
| Sidebar.ManagerSeesAllButUsers | src/config/menu.ts:44 | a manager sees the menu without the users entry |
| Sidebar.CashierSeesDashboardAndSales | src/config/menu.ts:9-16 | a cashier sees exactly dashboard and sales |
| Sidebar.ActiveExamples | src/components/Sidebar.tsx:58-60 | the sales entry is active on its page and sub-pages but not on "/dashboard/salesX"; the dashboard entry is active only on "/dashboard" |
| Sidebar.ActiveHrefShape | src/components/Sidebar.tsx:58-60 | an active non-dashboard entry's href is a prefix of the path, followed by "/" or the end |
| Sidebar.ActiveIdsAgree | src/components/Sidebar.tsx:58-60 | two slash-free ids active on one path are the same id |
| Sidebar.AtMostOneActive | src/components/Sidebar.tsx:58-60 | at most one menu entry is highlighted on any path |
| Sidebar.ToggleCollapse | src/components/Sidebar.tsx:48 | the toggle flips the collapsed flag |
| Sidebar.ToggleTwiceRestores | src/components/Sidebar.tsx:48 | two toggles restore the flag |
| Sidebar.CaptionsStayEnglish | src/components/Sidebar.tsx:76 | looked up by label in a catalogue whose keys are all dotted, every caption is its English label, in both languages (finding) |
| Sidebar.KeyedCaptionsTranslate | src/contexts/LanguageContext.tsx:16-25 | looked up by "menu." + id, English shows the label and Thai shows the Thai menu entry, which differs from it |
| Language.T | src/contexts/LanguageContext.tsx:337-339 | a present non-empty translation is returned; a missing or empty one falls back to the key |
| Language.TNeverBlank | src/contexts/LanguageContext.tsx:337-339 | a non-empty key never shows blank, and the result is the key or a catalogue value |
| Language.UndottedKeyFallsBack | src/contexts/LanguageContext.tsx:14-25 | with only dotted keys in the catalogue, any key without a dot is shown as itself |
| Language.SetLanguage | src/contexts/LanguageContext.tsx:332-335 | the chosen language becomes current |
| Language.SetLanguageSelectsTable | src/contexts/LanguageContext.tsx:323-339 | the last choice wins, lookups use the chosen table, and the initial language is Thai |
| Language.UseLanguage | src/contexts/LanguageContext.tsx:348-354 | inside a provider the context is returned; outside it fails with the provider message |
| Auth.Restore | src/contexts/AuthContext.tsx:23-30 | a stored user's JSON is restored and signed in; a stored "null" gives an authenticated session with no user; nothing stored, or text that does not parse, changes nothing |
| Auth.Persisted | src/contexts/AuthContext.tsx:43-58 | after login or a role switch storage holds the user's JSON, after logout nothing; never "null" or malformed text |
| Auth.WrittenSessionsRestore | src/contexts/AuthContext.tsx:23-58 | reloading after login, logout or a role switch restores exactly the session that transition produced |
| Auth.StoredNullBreaksConsistency | src/contexts/AuthContext.tsx:26-28 | a stored "null" is restored as authenticated with no user |
| Auth.Login | src/contexts/AuthContext.tsx:32-45 | login signs in user "1" with the given email and role, named by the part of the email before the first "@" |
| Auth.LoginIgnoresPasswordAndHistory | src/contexts/AuthContext.tsx:32-45 | the password and the previous state do not affect the result |
| Auth.Logout | src/contexts/AuthContext.tsx:47-52 | logout returns to the signed-out initial state |
| Auth.SwitchRole | src/contexts/AuthContext.tsx:54-60 | a signed-in user takes the new role and keeps everything else; with no user nothing changes |
| Auth.TransitionsKeepConsistent | src/contexts/AuthContext.tsx:19-60 | "authenticated exactly when a user is present" holds initially and after login, logout and role switching, and after a restore of anything but a stored "null" |
| Auth.SwitchRoleRoundTrip | src/contexts/AuthContext.tsx:54-60 | switching back to the old role restores the state |
| Auth.UseAuth | src/contexts/AuthContext.tsx:69-75 | inside a provider the context is returned; outside it fails with "useAuth must be used within an AuthProvider" |
| Types.UseContext | src/contexts/AuthContext.tsx:69-75 | the guard both hooks share: the provider's value when one encloses the caller, otherwise the given error message |
| Format.SecondsBetween | src/utils/format.ts:35 | the floor of the elapsed milliseconds divided by 1000 |
| Format.GetTimeAgo | src/utils/format.ts:37-40 | seconds below 60, minutes below 3600, hours below 86400, days otherwise, with the count being the floor in that unit |
| Format.TimeAgoUnitMonotone | src/utils/format.ts:37-40 | a longer elapsed time never uses a smaller unit |
| Format.TruncateText | src/utils/format.ts:43-46 | short texts are kept; longer ones become the first maxLength characters plus "...", and a negative limit follows `slice` semantics |
| Format.TruncateUnchangedIff | src/utils/format.ts:43-46 | the text comes back unchanged exactly when it fits, or when it is exactly three characters too long and already ends in "..." |

## Left out

- The data API client (`src/services/api.service.ts`), `fetch`, and the `ErrorMessage` and `LoadingSpinner` components are not part of this model. Responses and failures are parameters (`Remote.Fetch`), and a thrown error's message is supplied by the caller.
- `localStorage`, `router.push`, `window.scrollTo` and `alert` are side effects with no bearing on the state. A restored user or language is a parameter.
- `formatCurrency` and the other `Intl` formatting is not modelled. Money is an exact `real`, not a floating-point number.
- The customers' random phone numbers, order counts, totals, dates and statuses come from `Math.random` and `new Date`. The generated list is a parameter of `Customers.Mount`, and only its ids are constrained (`SeededIds`).
- The JSX markup, icons and Tailwind classes are left out. Only the values and choices behind them are modelled (texts, colours, which buttons exist).
- The HTML `type="email"` check on the add-customer form is browser behaviour. Only the `required` attribute is modelled (`Customers.FormComplete`).
- When `totalItems` is 0, the guard `{totalItems && itemsPerPage && (` at src/components/Pagination.tsx:94 renders a literal `0` in place of the range. This happens on the users page when the reported total is 0 and on the sales page after a load of zero carts; the products and customers pages hide the pager first. The guard is modelled as `Pagination.RangeShown`; the stray `0` text is markup and is not.
- The language restored from storage is trusted as-is by the source. The model only has `Th` and `En`, so a stored value outside them cannot be represented, and the restore is not modelled.
- `setUser`, which AuthContext exposes raw, is not modelled.
- The header, login, settings, reports and inventory pages are not modelled. `calculateDiscount` and the other formatting helpers that the core does not call are not modelled either.
- Language.T: the lookup `translations[language][key] || key` also finds the properties every JavaScript object inherits from `Object.prototype` (`Text.ObjectPrototypeNames`, such as "constructor" or "toString"), returning an inherited function instead of the key. The model's catalogue is a plain map, so for those keys it falls back to the key. No caller passes such a key.
- Language.TNeverBlank: for the inherited property names above the source returns a function, which is neither the key nor a catalogue value; the lemma does not cover that case.
- Language.UndottedKeyFallsBack: an undotted inherited property name such as "toString" does not fall back to itself in the source; the lemma holds for every other undotted key.
- Auth.Restore: stored text that is valid JSON but not a user (a number, `{}`) is not modelled, and the exception `JSON.parse` throws on malformed text is not modelled either; only its effect on the state, which is none, is.
- Auth.TransitionsKeepConsistent: the restore clause excludes a stored "null", which the source turns into an authenticated session with no user (`Auth.StoredNullBreaksConsistency`). The provider itself never writes "null" (`Auth.Persisted`).
- `Text.ToLower` maps only ASCII letters. JavaScript's full Unicode `toLowerCase` is not modelled, and string lengths count code points rather than UTF-16 units.
- The translation catalogue is modelled through its menu section only (`Language.MenuSectionTh`, `Language.MenuSectionEn`). The fact that every key of the full catalogue is dotted is stated as the property `Language.DottedKeys`, which the caption lemmas assume.
- Pagination never clamps the page to 1..totalPages and never shows at least one page. The model follows the code: a zero page count stays zero.

## Findings

| source | as written | input that shows it | evidently intended | confidence | as-written member | corrected member |
|---|---|---|---|---|---|---|
| src/components/Pagination.tsx:170-185 | next and last are disabled only when `currentPage === totalPages` | the sales page after a successful load of zero carts: `totalPages` is 0 and the page is 1, so next targets page 2 and last targets page 0 | disable next and last when `currentPage >= totalPages` | not executed | Pagination.EmptyListNavigationEscapes | Pagination.GuardedNavigationStaysInRange |
| src/app/dashboard/sales/page.tsx:148-154 | the sales pager is rendered whenever the load succeeded, even with no carts | a successful load that returns `[]` | a pager with zero pages offers no navigation | not executed | Sales.EmptySalesPagerEscapes | Sales.EmptySalesPagerGuarded |
| src/components/Sidebar.tsx:76 | the caption is `t(item.label)`, with labels such as "Dashboard" | language Thai, any menu entry: every catalogue key is dotted ("menu.dashboard"), so the lookup falls back to the English label | look up `t('menu.' + item.id)`, which the catalogue provides in both languages | not executed | Sidebar.CaptionsStayEnglish | Sidebar.KeyedCaptionsTranslate |
