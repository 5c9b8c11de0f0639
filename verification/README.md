# Expense tracker — a Dafny model

This project models the core of an expense tracker. The tracker has two parts:

- **An Express/Prisma back end.** Its JSON routes handle registration, login and profile updates, expenses, categories, trips, and a dashboard summary.
- **A React front end.** Its dashboard page filters expenses, exports them as CSV, seeds the trip form and totals trip cards. Its profile page validates and builds the profile update. A context object keeps the signed-in user in `localStorage`.

The database is a class `Store.Db`. It holds one map per table, from record id to record, plus an id counter. Its invariant `Db.Valid` states the relations the handlers rely on:

- ids are below the counter and match their keys;
- e-mail addresses are unique;
- every expense names an existing category;
- every expense names an existing trip, if it names one.

A handler that changes tables is a method with a `modifies` clause. Its `ensures` give the new tables in terms of the old ones. A read-only handler is a function.

The client session is a class `AuthContext.AuthSession` whose fields are the storage map and the current user.

Shared pieces:

- **`Common`**: JSON body fields that are missing, `null` or set, and JavaScript truthiness.
- **`Text`**: ASCII case mapping, `includes`, `split`, `join` and `trim`, integer to text, and ISO-date text order.
- **`Collections`**: filter, sum, sort.
- **`Grouping`**: the "reduce into an object, then `Object.values`" pattern. It is used by the dashboard summary and by the CSV category summary.
- **`Csv`**: `escapeCSV` with a round-trip proof against a CSV field reader.
- **`Initials`**: `getInitials`.

## Model

| member | source | states |
|---|---|---|
| Store.Status | backend/src/routes/trips.js:42-47 | only the server-error kind answers 500; the other kinds answer 4xx |
| Store.Rows | backend/src/routes/dashboard.js:19-22 | a `findMany` without `orderBy` returns exactly the records of the table with ids below the counter |
| Store.RowsInIdOrder | backend/src/routes/dashboard.js:19-22 | in a consistent table those records come in strictly increasing id order, each exactly once |
| Store.StoredDate | backend/src/routes/trips.js:60 | `new Date(field)` as stored: a missing field is refused, `null` becomes the epoch, a set value is kept |
| Store.StoredAmount | backend/src/routes/expenses.js:70 | `parseFloat(field)` yields a number only for a set field that parses |
| Store.Assign | backend/src/routes/expenses.js:71-74 | a Prisma `data` field leaves the column alone when `undefined`, clears it when `null`, sets it otherwise |
| Store.Public | backend/src/routes/auth.js:36 | the user in an auth response is the id, e-mail and name of the stored user |
| Store.Db.constructor | backend/src/routes/auth.js:7 | an empty database is consistent |
| Store.Db.NewId | backend/src/routes/auth.js:19-21 | a new row gets an id larger than every id in use, and consistency is kept |
| AuthApi.UsersWithEmail | backend/src/routes/auth.js:13 | the users whose e-mail is the given one, and only those |
| AuthApi.UserByEmail | backend/src/routes/auth.js:13-16 | `findUnique` by e-mail finds a user exactly when the address is taken, and the user it finds is stored under that address |
| AuthApi.DefaultCategories | backend/src/routes/auth.js:23-31 | seven starter categories, owned by the new user, with consecutive ids and pairwise distinct names, from "Food & Drinks" to "Other" |
| AuthApi.CategoriesByIds | backend/src/routes/auth.js:32 | `createMany` stores row `i` under id `firstId + i` and nothing else |
| AuthApi.StarterCategories | backend/src/routes/auth.js:23-32 | registration adds categories under ids `u+1 .. u+7`, all owned by user `u` |
| AuthApi.AddingUserKeepsConsistent | backend/src/routes/auth.js:13-21 | adding a user whose e-mail is free keeps the tables consistent |
| AuthApi.AddingStartersKeepsConsistent | backend/src/routes/auth.js:23-32 | adding the starter categories keeps the tables consistent |
| AuthApi.Register | backend/src/routes/auth.js:9-40 | fails with "Email already exists" exactly when the address is taken, and then changes nothing; otherwise stores the user with the hashed password and no avatar, adds the seven starter categories, and answers with the signed token and the public user |
| AuthApi.Login | backend/src/routes/auth.js:42-62 | succeeds exactly when a user with that e-mail exists and the password matches its hash; every failure is the same "Invalid credentials"; success answers with that user's token and public fields |
| AuthApi.RegisteredUserCanLogIn | backend/src/routes/auth.js:19-21 | a user stored by registration logs in with the password registered, and gets the same response registration gave |
| AuthApi.BuildProfilePatch | backend/src/routes/auth.js:72-80 | `updateData` gets a name, a hashed password or an avatar exactly when that body field is truthy |
| AuthApi.ApplyProfilePatch | backend/src/routes/auth.js:82-86 | the update writes the patched columns and never changes the id or e-mail |
| AuthApi.UpdateProfile | backend/src/routes/auth.js:67-92 | for an existing caller, changes only the caller's row: name, password (hashed) and avatar each only when supplied truthy; id and e-mail kept; answers with id, e-mail, name and avatar; a missing caller is a server error with nothing changed |
| CategoriesApi.NameBeforeOrders | backend/src/routes/categories.js:15 | ordering by name is total and transitive |
| CategoriesApi.ListCategories | backend/src/routes/categories.js:10-20 | exactly the caller's categories, each once, sorted ascending by name |
| CategoriesApi.NewCategory | backend/src/routes/categories.js:24-27 | the row is created exactly when name, icon and colour are all set (a missing or `null` one is refused), and is owned by the caller |
| CategoriesApi.CreateCategory | backend/src/routes/categories.js:22-32 | on success adds exactly that row under a fresh id; on failure changes nothing |
| CategoriesApi.UpdatedCategory | backend/src/routes/categories.js:36-39 | missing fields keep their value, given fields replace it, `null` is refused; id and owner never change |
| CategoriesApi.UpdateCategory | backend/src/routes/categories.js:34-45 | the row is addressed by id alone; only that row changes; a missing id or a refused value changes nothing |
| CategoriesApi.DeleteCategory | backend/src/routes/categories.js:47-54 | removes exactly that row when it exists and no expense files under it; otherwise nothing changes |
| ExpensesApi.OrderOf | backend/src/routes/expenses.js:23-24 | `orderBy[sortBy \|\| 'date'] = sortOrder \|\| 'desc'`: date descending by default; `date` and `amount` are accepted in either direction, any other column is refused by the model |
| ExpensesApi.BeforeOrders | backend/src/routes/expenses.js:23-29 | every accepted ordering is total and transitive |
| ExpensesApi.SelectedRows | backend/src/routes/expenses.js:14-21 | the caller's expenses that pass the date-range and category filters |
| ExpensesApi.ListExpenses | backend/src/routes/expenses.js:10-35 | exactly the caller's expenses within the range (both bounds inclusive, applied only when both are given) and category, each once, sorted by the requested order |
| ExpensesApi.NewExpense | backend/src/routes/expenses.js:41-54 | a missing amount, category or date answers 400 with the fixed message; otherwise the row holds the parsed amount, the date, the category, and the description and receipt only when truthy, and the trip only when given |
| ExpensesApi.CreateExpense | backend/src/routes/expenses.js:37-62 | on success adds exactly that row under a fresh id; a store refusal (unparsable amount, unknown category or trip) changes nothing |
| ExpensesApi.UpdatedExpense | backend/src/routes/expenses.js:67-76 | amount and date are always rewritten (a missing amount or date is refused); description and receipt follow missing/null/set; the trip is cleared unless given |
| ExpensesApi.UpdateExpense | backend/src/routes/expenses.js:64-83 | the row is addressed by id alone; only that row changes; any refusal changes nothing |
| ExpensesApi.DeleteExpense | backend/src/routes/expenses.js:85-92 | removes exactly that row when it exists; otherwise it is a server error and nothing changes |
| TripsApi.Linked | backend/src/routes/trips.js:15-19 | the expenses included with a trip are exactly those whose trip id is that trip, each once in a consistent table |
| TripsApi.NewerFirstOrders | backend/src/routes/trips.js:20 | ordering by creation time, newest first, is total and transitive |
| TripsApi.CallerTrips | backend/src/routes/trips.js:13-21 | exactly the caller's trips, each once, newest first |
| TripsApi.ListTrips | backend/src/routes/trips.js:10-26 | exactly the caller's trips, each once, newest first, each with its linked expenses |
| TripsApi.GetTrip | backend/src/routes/trips.js:29-49 | found exactly when the trip exists and is the caller's; otherwise "Trip not found"; answers with the trip and its expenses, each once |
| TripsApi.NewTrip | backend/src/routes/trips.js:56-62 | created exactly when a name and a start date are supplied; the end date is kept only when truthy |
| TripsApi.NewLineItem | backend/src/routes/trips.js:64-71 | a nested expense needs a parsable amount, a date and a category; it belongs to the caller and to the new trip |
| TripsApi.NewLineItems | backend/src/routes/trips.js:63-72 | all nested expenses are created with consecutive ids, or none is |
| TripsApi.CreateTrip | backend/src/routes/trips.js:52-85 | succeeds exactly when the store accepts the trip row and every nested expense (parsable amount, date and existing category); then adds the trip and its nested expenses (only when a non-empty list is sent), owned by the caller and linked to the trip; any refusal changes nothing |
| TripsApi.InsertTrip | backend/src/routes/trips.js:56-79 | the trip is stored under the next id and its nested rows under the ids that follow, none of them already taken; the counter moves past them and the tables stay consistent |
| TripsApi.ByIds | backend/src/routes/trips.js:63-72 | the nested rows are stored under their own ids and nothing else |
| TripsApi.AddingTripKeepsConsistent | backend/src/routes/trips.js:56-79 | adding a trip with nested expenses in existing categories keeps the tables consistent |
| TripsApi.BuildTripPatch | backend/src/routes/trips.js:92-98 | name and start date are written only when truthy; description and end date whenever sent, an empty end date becoming `null` |
| TripsApi.ApplyTripPatch | backend/src/routes/trips.js:100-102 | patched columns take the new value; id, owner and creation time never change |
| TripsApi.UpdateTrip | backend/src/routes/trips.js:88-113 | the trip is addressed by id alone; each column changes as `updateData` says; no expense is touched; the answer carries the trip's current expenses |
| TripsApi.DeleteTrip | backend/src/routes/trips.js:116-125 | removes the trip and keeps every expense, detaching those that were linked to it |
| DashboardApi.DayBeforeOrders | backend/src/routes/dashboard.js:49 | the day comparator is total and transitive |
| DashboardApi.Summarize | backend/src/routes/dashboard.js:24-50 | total and count of the expenses; `byCategory` holds one entry per category name, in first-seen order, with the first expense's icon and colour and the group's total and count; `byDate` holds one entry per day, ascending, with the day's total; an empty list gives zeros and empty lists |
| DashboardApi.SortedDaysAreByDate | backend/src/routes/dashboard.js:36-49 | sorting the per-day entries by date gives each day exactly once, ascending, with its total |
| DashboardApi.UniqueDatesSurviveSort | backend/src/routes/dashboard.js:49 | the sort keeps the days pairwise distinct |
| DashboardApi.CategoryTotalsConserve | backend/src/routes/dashboard.js:24-34 | the category totals add up to `totalExpense`, and the counts to `totalTransactions` |
| DashboardApi.CategoryNamesDistinct | backend/src/routes/dashboard.js:26-34 | no category name has two entries |
| DashboardApi.CategoryEntryPerName | backend/src/routes/dashboard.js:26-34 | a name has an entry exactly when some expense's category has that name |
| DashboardApi.CategoryStyleFromFirstSeen | backend/src/routes/dashboard.js:28-30 | an entry's icon and colour are those of the first expense with that name |
| DashboardApi.CategoriesInFirstSeenOrder | backend/src/routes/dashboard.js:48 | entries follow the order in which names first occur |
| DashboardApi.DayTotalsConserve | backend/src/routes/dashboard.js:36-43 | the day totals add up to `totalExpense` |
| DashboardApi.BothEmptyOrNeither | backend/src/routes/dashboard.js:45-50 | `byCategory` and `byDate` are empty together |
| DashboardApi.AscendingUnique | backend/src/routes/dashboard.js:49 | two ascending, duplicate-free date lists with the same days are equal |
| DashboardApi.ByDateIgnoresOrder | backend/src/routes/dashboard.js:19-49 | `byDate` does not depend on the order the store returns the expenses in |
| DashboardApi.SummaryRows | backend/src/routes/dashboard.js:14-22 | the caller's expenses, each once, limited to the date range only when both bounds are given |
| DashboardApi.Joined | backend/src/routes/dashboard.js:21 | each expense, in order, with the name, icon and colour of its category joined on |
| DashboardApi.GetSummary | backend/src/routes/dashboard.js:10-54 | the response is the summary of the caller's expenses in range |
| Grouping.Accumulate | frontend/src/pages/Dashboard.jsx:452-465 | the keys in first-seen order, each with its first element, the total of its amounts and its element count |
| Grouping.KeysDistinct | backend/src/routes/dashboard.js:28-30 | a key gets an entry only the first time it is seen |
| Grouping.KeysMembership | backend/src/routes/dashboard.js:28-30 | a key has an entry exactly when some element carries it |
| Grouping.FirstOfIsFirst | frontend/src/pages/Dashboard.jsx:455-463 | the element an entry is created from is the first with that key |
| Grouping.KeysInFirstOccurrenceOrder | backend/src/routes/dashboard.js:48 | `Object.values` lists entries in the order the keys were first inserted |
| Grouping.GroupTotalsConserve | backend/src/routes/dashboard.js:31 | summed over all keys, the group totals equal the total of all amounts |
| Grouping.KeysAndTotalsIgnoreOrder | backend/src/routes/dashboard.js:36-43 | which keys occur and each key's total do not depend on element order |
| Text.LowerText | frontend/src/pages/Dashboard.jsx:525-528 | `toLowerCase` maps each character |
| Text.UpperText | frontend/src/pages/Dashboard.jsx:534 | `toUpperCase` maps each character |
| Text.DatePart | backend/src/routes/dashboard.js:37 | `split('T')[0]` is the prefix before the first `T` |
| Text.SplitTwoWords | frontend/src/pages/Dashboard.jsx:534 | `split(' ')` of two words joined by one space gives the two words |
| Text.IntText | frontend/src/pages/Dashboard.jsx:529 | `toString` of an integer is non-empty and has no minus sign when the integer is not negative |
| Text.LexLeTotal | backend/src/routes/expenses.js:16-17 | date text order is total |
| Text.LexLeTransitive | backend/src/routes/expenses.js:16-17 | date text order is transitive |
| Text.Trim | frontend/src/pages/Dashboard.jsx:472 | `trim` removes exactly the leading and trailing white space |
| Csv.EscapeCsv | frontend/src/pages/Dashboard.jsx:428-434 | text with no comma, quote or line break is kept; any other text is quoted, with each quote doubled |
| Csv.EscapeRoundTrip | frontend/src/pages/Dashboard.jsx:428-434 | reading an escaped field back gives the original text |
| Csv.EscapedQuotesEven | frontend/src/pages/Dashboard.jsx:431-432 | an escaped field holds an even number of quotes |
| Csv.UndoubleDoubleQuotes | frontend/src/pages/Dashboard.jsx:432 | doubling every quote can be undone |
| Csv.DoubledQuotesCount | frontend/src/pages/Dashboard.jsx:432 | doubling quotes doubles their number |
| Initials.InitialsOf | frontend/src/pages/Dashboard.jsx:533-535 | one or two characters: the upper-cased first letters of the space-separated words, or "U" when there are none |
| Initials.FirstLettersStart | frontend/src/pages/Profile.jsx:55-57 | the first initial is the first non-space character of the name |
| Initials.FirstInitial | frontend/src/pages/Profile.jsx:55-57 | a name with some non-space character starts its initials with that character upper-cased; a blank name gives "U" |
| Initials.TwoWordInitials | frontend/src/pages/Profile.jsx:55-57 | "first last" gives the two upper-cased first letters |
| DashboardPage.Search | frontend/src/pages/Dashboard.jsx:523-531 | an empty query keeps every expense; otherwise exactly the expenses whose description, category name or amount contains the lower-cased query, each as often as in the list |
| DashboardPage.SearchKeepsOrder | frontend/src/pages/Dashboard.jsx:523 | the search only removes expenses and keeps the order of the rest |
| DashboardPage.CategoryLabel | frontend/src/pages/Dashboard.jsx:454 | the summary label is never empty; an expense with no category is "ไม่ระบุ" |
| DashboardPage.SummaryLines | frontend/src/pages/Dashboard.jsx:451-465 | one entry per label in first-seen order, with that label's first icon, count and total |
| DashboardPage.CategorySummary | frontend/src/pages/Dashboard.jsx:452-465 | the `forEach` builds exactly those entries |
| DashboardPage.CategorySummaryConserves | frontend/src/pages/Dashboard.jsx:447-465 | the entry counts add up to the number of exported expenses, and the entry totals to the overall total |
| DashboardPage.CategorySummaryLabels | frontend/src/pages/Dashboard.jsx:454-463 | labels are pairwise distinct, and a label has an entry exactly when some expense carries it |
| DashboardPage.CategorySummaryEmpty | frontend/src/pages/Dashboard.jsx:495 | the summary is empty exactly when no expense is exported, so the category section appears exactly when there are expenses |
| DashboardPage.ExpenseCells | frontend/src/pages/Dashboard.jsx:471-476 | an expense row has one cell per header |
| DashboardPage.ExpenseRows | frontend/src/pages/Dashboard.jsx:470-487 | one row per exported expense, in order |
| DashboardPage.CategoryRows | frontend/src/pages/Dashboard.jsx:498-500 | one row per summary entry, in order |
| DashboardPage.ExpensePart | frontend/src/pages/Dashboard.jsx:468-492 | the header, the expense rows and the three totals lines: four more rows than expenses |
| DashboardPage.CategoryPart | frontend/src/pages/Dashboard.jsx:495-500 | no rows without expenses; otherwise two rows plus one per label |
| DashboardPage.ExpensePartEnds | frontend/src/pages/Dashboard.jsx:468-492 | the file opens with the header row; after the expense rows come a blank row, the summary title and the count-and-total row |
| DashboardPage.ExpensePartRows | frontend/src/pages/Dashboard.jsx:468-487 | row `1 + i` is the escaped row of the `i`-th expense |
| DashboardPage.CategoryPartLayout | frontend/src/pages/Dashboard.jsx:495-500 | the category section is a blank row, its title, then one row per label in first-seen order |
| DashboardPage.PushRows | frontend/src/pages/Dashboard.jsx:498-500 | the `forEach` appends exactly one row per element, in order, after the rows already there |
| DashboardPage.ExportRows | frontend/src/pages/Dashboard.jsx:425-501 | `csvRows` is the expense part followed by the category part |
| DashboardPage.SubmittedItems | frontend/src/pages/Dashboard.jsx:279 | a trip form submits exactly the line items with an amount and a category, each as often as in the form |
| DashboardPage.SubmittedItemsKeepOrder | frontend/src/pages/Dashboard.jsx:279 | the submitted items keep the form's order |
| DashboardPage.EditTripForm | frontend/src/pages/Dashboard.jsx:373-393 | the edit form holds the trip's name, description, start day and end day, and one line item: the trip's first expense (id, amount, description, day and category) when it has one, otherwise a blank item dated today |
| DashboardPage.EditedFormSubmitsSeededItem | frontend/src/pages/Dashboard.jsx:279 | resubmitting the seeded form unchanged sends the trip's first expense, and no item for a trip without expenses |
| DashboardPage.TripTotal | frontend/src/pages/Dashboard.jsx:1299 | a trip card with no expense list, or an empty one, shows 0 |
| DashboardPage.TripTotalSingle | frontend/src/pages/Dashboard.jsx:1299 | a trip with one expense shows that expense's amount |
| DashboardPage.TripTotalIsSum | frontend/src/pages/Dashboard.jsx:1299 | the total is the first expense's amount plus the total of the rest |
| DashboardPage.TripTotalIgnoresOrder | frontend/src/pages/Dashboard.jsx:1299 | the card total does not depend on expense order |
| DashboardPage.TripTotalSplits | frontend/src/pages/Dashboard.jsx:1299 | the card total is additive over a split of the expenses |
| ProfilePage.InitialForm | frontend/src/pages/Profile.jsx:19-25 | the form starts from the user's name, e-mail and avatar, with both password inputs empty |
| ProfilePage.ProfileRequest | frontend/src/pages/Profile.jsx:95-119 | a typed password shorter than 6 characters, or one that differs from its confirmation, is refused with its own message and nothing is sent; an empty password skips both checks; the body always has the name, has the password only when one is typed, and has the avatar only when one is set |
| ProfilePage.HandleSubmit | frontend/src/pages/Profile.jsx:89-119 | the early returns and the field-by-field payload produce exactly that outcome |
| ProfilePage.SentPasswordWasConfirmed | frontend/src/pages/Profile.jsx:95-113 | a password the server is asked to store is at least 6 characters and equals its confirmation |
| ProfilePage.ClearedNameKeepsStoredName | frontend/src/pages/Profile.jsx:108-110 | the name is always sent; an empty name is falsy, so the server keeps the stored name |
| ProfilePage.AfterUpdate | frontend/src/pages/Profile.jsx:129 | after success both password inputs are cleared and every other field is kept |
| ProfilePage.ResubmitKeepsPassword | frontend/src/pages/Profile.jsx:129 | submitting again after a success passes validation and sends no password |
| AuthContext.InitialUser | frontend/src/context/AuthContext.jsx:7-18 | the parsed stored user when both `token` and `user` are stored and non-empty; otherwise, or when parsing fails, no user |
| AuthContext.SignedIn | frontend/src/context/AuthContext.jsx:23-24 | `login` writes both entries and leaves every other entry alone |
| AuthContext.SignedOut | frontend/src/context/AuthContext.jsx:29-30 | `logout` removes both entries and leaves every other entry alone |
| AuthContext.UserReplaced | frontend/src/context/AuthContext.jsx:35 | `updateUser` rewrites the user entry and leaves every other entry, the token included, alone |
| AuthContext.AuthSession.constructor | frontend/src/context/AuthContext.jsx:7-18 | the provider starts with the storage it finds and the user restored from it |
| AuthContext.AuthSession.Login | frontend/src/context/AuthContext.jsx:22-26 | stores the token and the serialized user, and the current user becomes the given one |
| AuthContext.AuthSession.Logout | frontend/src/context/AuthContext.jsx:28-32 | removes both entries, and there is no current user |
| AuthContext.AuthSession.UpdateUser | frontend/src/context/AuthContext.jsx:34-37 | rewrites the stored user and the current user, keeping the token |
| AuthContext.ReloadAfterLoginRestoresUser | frontend/src/context/AuthContext.jsx:7-26 | after a login with a non-empty token, a reload restores the same user, given that its JSON text parses back to it |
| AuthContext.ReloadAfterLogoutHasNoUser | frontend/src/context/AuthContext.jsx:7-32 | after a logout, a reload has no user |
| AuthContext.ReloadAfterUpdateRestoresUpdatedUser | frontend/src/context/AuthContext.jsx:7-37 | `updateUser` keeps the token, so a reload restores the updated user exactly when a token was stored |

## Left out

- I/O and frameworks are not modelled: HTTP, Express routing, the auth middleware and the `try`/`catch` around each handler. The caller's id is a parameter. A store failure is the server-error outcome.
- The database schema is not part of this model. Three behaviours are assumptions:
  - deleting a category still used by an expense is refused (a required relation);
  - deleting a trip detaches its expenses (an optional relation);
  - the store refuses a `null` name, icon or colour, a missing date and a `NaN` amount.
- Concurrency and asynchrony are not modelled: each handler runs to completion on its own.
- bcrypt, jwt and JSON are left out and passed in as functions:
  - `bcrypt.hash` is a function `hash`, and `bcrypt.compare` a function `compare`;
  - `jwt.sign` is a function `sign` of the user's id and e-mail, and the secret and expiry are not modelled;
  - `JSON.stringify` and `JSON.parse` are functions, with a parse that throws giving no value.
- Floating point is not modelled:
  - amounts are integers;
  - `parseFloat` is a parameter returning an optional integer, where no value stands for `NaN`;
  - `toFixed(2)` and the `date-fns` formats are parameters.
- DashboardPage.ExportAmount: the `|| 0` fallback of `parseFloat(exp.amount) || 0` is not modelled. The listed amount is already a number, so the fallback only matters for `NaN`, which integers cannot hold.
- Dates are not modelled as time values. They are ISO-8601 text, compared as text. Query bounds are taken to be in the same form, and `new Date(...)` conversion and time zones are not modelled.
- ExpensesApi.OrderOf: the model accepts only `date` and `amount` as sort columns and treats any other column as a server error. The route itself passes any `sortBy` on to the store, which sorts by any column it has; the dashboard page only ever sends `date` or `amount`. Ties keep no particular order.
- Included relations are not modelled:
  - the category and trip objects that `include` joins onto listed expenses are not modelled;
  - the page side takes them as already joined (`DashboardPage.ListedExpense`);
  - the dashboard joins only the category's name, icon and colour.
- Text is handled as characters, not UTF-16:
  - case mapping is ASCII only (`toLowerCase`, `toUpperCase`);
  - lengths and `slice` count characters, not UTF-16 code units, so a password or initial outside the Basic Multilingual Plane is measured differently.
- `Object.values` is modelled in insertion order. JavaScript lists integer-like keys first, so a category or label named like "12" is ordered differently by the real code.
- Store.Rows: the store promises no order for a `findMany` without `orderBy`. The model assumes increasing id order.
- CategoriesApi.ListCategories: categories are ordered by name with character-code order (`CategoriesApi.NameBefore`). The database orders them by its own collation, which can differ for mixed case and non-ASCII names.
- CategoriesApi.NewCategory: a category body missing `name`, `icon` or `color` is refused in the same way as one where they are `null`.
- ExpensesApi.CreateExpense: a store refusal answers `error.message || 'Server error'`. The model answers only the server-error kind and does not model the store's message text.
- DashboardApi.CategoryTotalsConserve: the grouping is keyed by plain names. The code groups into a plain object and tests `!acc[name]`. A name that is a property of `Object.prototype` ("constructor", "toString", "valueOf", "__proto__") finds the inherited property, so its group is never created and its expenses are lost from `byCategory`. For such names the conservation does not hold of the real code.
- DashboardPage.CategorySummaryConserves: the same holds for the CSV category summary, which groups into a plain object by label with `!categorySummary[catName]`.
- AuthContext.AuthSession.UpdateUser: always succeeds. `localStorage.setItem` can throw when the storage quota is exceeded (an avatar up to 5 MB is stored inside the user entry); that failure is not modelled.
- ProfilePage.AfterUpdate: states the form right after the success branch only. Because the page re-seeds name, e-mail and avatar from the updated user whenever the user changes, the fields are then replaced by the server's answer; a removed avatar comes back when the server kept it. The form after that effect is `ProfilePage.InitialForm` of the new user; the sequence of the two updates is not modelled.
- A missing `email`, `password` or `name` in the register and login bodies is not modelled. They are plain strings here.
- Ids are natural numbers handed out by a counter.
- Form inputs are text:
  - the form's `categoryId` is text;
  - an edited trip item's category is written with `IntText`.
- CSV output stops at the rows: the join with line breaks, the byte order mark, the `Blob` and the download are not modelled.
- UI elements are not modelled: React rendering, modals, timers, the mobile layout, avatar file reading and its size and type checks.
- Trip line items are not reconciled on update. `PUT /api/trips/:id` reads only `name`, `description`, `startDate` and `endDate` and leaves every expense as it is. The model follows the code (`TripsApi.UpdateTrip` ensures the expenses table is unchanged).
- Update and delete have no ownership check. The code addresses trips, expenses and categories by id alone, whoever owns them. The model follows the code, and an unknown id is the store's server error, not a 404.
- A trip name is not required to be non-blank. The code only needs it to be present, which the model follows.
