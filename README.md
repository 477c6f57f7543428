# Kelas catalog: a Dafny model

This project models the logic core of a course ("kelas") catalog web
application.

The server side is an Express API over MySQL:
- **The course model** turns a filter object into an ordered list of WHERE
  clauses and bound parameters. It also creates, patches and deletes rows of
  the `kelas` table.
- **The course service** checks title uniqueness and existence before it
  delegates to the model.
- **The course controller** maps requests and service outcomes to HTTP status
  codes and JSON bodies.
- **The auth controller** validates registrations, verifies email tokens and
  logs users in.
- **The user model** normalises and stores users, updates them through an
  allow-list, and pages them.
- **The `authenticateToken` middleware** turns the Authorization header into
  a 401, a 403 or a pass to the next handler.

The client side is React with a redux store:
- **The home page's `getFilteredCourses`** and **the course section's memo**
  filter and sort course lists.
- **The filter panel**, **the `filter` slice** and **the `kelas` slice** are
  small state machines over a filter record.
- **The `auth` slice** is the login state machine. The browser's stored token
  is an explicit field.
- **The course card** formats prices and ratings.
- **The course API client** cleans filters, guards its arguments and
  classifies errors.

Module `Js` holds the JavaScript semantics the models share:
- truthiness, `Number`, `parseInt` and `parseFloat`;
- ASCII case mapping, and `trim` over the ECMAScript white-space set;
- `split`, `includes`, `Array.prototype.filter`, and a stable sort.

The form of each module follows the form of its source file:
- State that the source updates in place is a class with `modifies` frames.
  This covers the tables, the redux stores, the filter panel and the
  middleware's request/response.
- Pure decisions and pipelines are functions with lemmas.
- Loops are methods with invariants: the SET-list builder, the
  `cleanFilters` reduce and the user update allow-list.

The model has no separate random, clock or I/O operations. These become
parameters:
- bcrypt's hash and compare;
- jwt's sign and verify;
- uuid's fresh token;
- whether the verification email was delivered;
- `localeCompare` (a `collate` function);
- `NOW()`;
- the `created_at` order of the users table (`ordered`).

## Model

| member | source | states |
|---|---|---|
| `KelasModel.NotFoundMentions` | src/backend/services/kelasService.js:19 | the message "Kelas with ID … not found" contains "not found", whatever the id |
| `KelasModel.DuplicateTitleMentions` | src/backend/services/kelasService.js:54 | the duplicate-title message contains "sudah ada" and none of "not found", "already exists", "harus diisi" (both directions) |
| `KelasModel.FieldsRequiredMentions` | src/backend/services/kelasService.js:62 | the missing-fields message always contains "harus diisi", whatever fields it lists |
| `KelasModel.MissingRequiredMentions` | src/backend/models/Kelas.js:321 | the model's missing-fields message contains none of the four phrases the controller searches for |
| `KelasModel.NoFieldsToUpdateMentions` | src/backend/models/Kelas.js:411 | 'No fields to update' contains none of the four phrases |
| `KelasModel.IdRequiredMentions` | src/backend/models/Kelas.js:196 | 'ID is required' contains none of the four phrases |
| `KelasModel.SortColumn` | src/backend/models/Kelas.js:84-85 | the ORDER BY column is always one of the six allowed names; it is `sortBy` exactly when `sortBy` is one of them, and `created_at` otherwise |
| `KelasModel.SortDirection` | src/backend/models/Kelas.js:86 | a missing `sortOrder` gives DESC; a string gives ASC iff it upper-cases to ASC, and DESC otherwise; a non-string value fails, as `toUpperCase` would throw |
| `KelasModel.BuildConditions` | src/backend/models/Kelas.js:52-81 | the six `if` tests build exactly the clause list `Where(filters)` and the parameter list that the clauses bind |
| `KelasModel.FindWithFilters` | src/backend/models/Kelas.js:33-125 | the SELECT has a WHERE only for a non-empty clause list; its parameters are the predicate values followed by LIMIT/OFFSET (only for a truthy `limit`); and it uses the allow-listed column and direction |
| `KelasModel.GetCountWithFilters` | src/backend/models/Kelas.js:128-190 | the COUNT uses the same clause list and the same parameters as the SELECT for the same filter object |
| `KelasModel.WhereMember` | src/backend/models/Kelas.js:53-81 | a clause is in the WHERE list iff its filter value is truthy |
| `KelasModel.WhereOrdered` | src/backend/models/Kelas.js:53-81 | the clauses come in the fixed order category, instructor, search, minPrice, maxPrice, minRating |
| `KelasModel.BindAligned` | src/backend/models/Kelas.js:63-66 | the bound values match the `?` placeholders one for one; search binds three identical `%term%` patterns |
| `KelasModel.SameKeysSameQuery` | src/backend/models/Kelas.js:35-47 | two filter objects that agree on the six filter keys give the same clauses and the same parameters |
| `KelasModel.LevelNeverFilters` | src/backend/models/Kelas.js:37 | `level` is destructured but never adds a clause or a value |
| `KelasModel.ReferenceId` | src/backend/models/Kelas.js:218 | the key a value designates under JavaScript's `Number`: none for NaN or a fraction, and otherwise the whole number `Number` gives |
| `KelasModel.Designated` | src/backend/models/Kelas.js:218 | a non-empty id designates the row whose INT key equals the JavaScript numeric reading of the id, which is MySQL's reading too for every id `Number` reads |
| `KelasModel.NumericPrefixKey` | src/backend/models/Kelas.js:270 | MySQL compares a bound string with an INT key by its leading digits, whatever follows them |
| `KelasModel.PrefixKeyDiffersFromNumber` | src/backend/models/Kelas.js:270 | digits followed by other text (`'5abc'`) designate the digits' key in MySQL, while `Number` reads NaN and designates none |
| `KelasModel.BoundKeyAgrees` | src/backend/models/Kelas.js:218 | on every string `Number` reads, MySQL's reading designates the same key as JavaScript's |
| `KelasModel.BuildUpdate` | src/backend/models/Kelas.js:377-416 | an empty patch fails with "No fields to update"; otherwise there is one `col = ?` per defined field in fixed order, then `updated_at = NOW()`, and the values are the defined values followed by the id |
| `KelasModel.UpdateAligned` | src/backend/models/Kelas.js:413-423 | the UPDATE's placeholder count equals the number of values it binds |
| `KelasModel.DefinedAmongProps` | src/backend/models/Kelas.js:381-408 | a column is in the SET list iff its patch value is not `undefined` |
| `KelasModel.UpdateStatementMeansPatch` | src/backend/models/Kelas.js:377-423 | executing the built UPDATE on a row gives exactly the intended patch: defined columns take the new value, the others keep theirs, and `updated_at` is now |
| `KelasModel.KelasTable.Join` | src/backend/models/Kelas.js:20-22 | the LEFT JOIN keeps the course row and attaches a tutor exactly when `tutor_id` refers to one |
| `KelasModel.KelasTable.FindAll` | src/backend/models/Kelas.js:4-30 | the result is exactly the joined rows of the table |
| `KelasModel.KelasTable.FindById` | src/backend/models/Kelas.js:193-226 | a falsy id throws 'ID is required'; otherwise the result is the joined row the id designates, or null |
| `KelasModel.KelasTable.FindByTitle` | src/backend/models/Kelas.js:228-245 | a falsy title gives null; otherwise the result is null iff no row holds exactly that title, and a result is a row holding it |
| `KelasModel.KelasTable.Search` | src/backend/models/Kelas.js:280-311 | a falsy or blank term gives []; a truthy non-string term (an array) throws on `trim`; otherwise the result is the rows whose title, description or tutor name contains the term |
| `KelasModel.KelasTable.FindByInstructor` | src/backend/models/Kelas.js:532-563 | a falsy or blank name gives []; a truthy non-string name throws on `trim`; otherwise the result is the rows whose tutor name contains it |
| `KelasModel.KelasTable.FindByCategory` | src/backend/models/Kelas.js:247-278 | a falsy id throws 'Category ID is required'; otherwise the result is the rows whose category reference is the key MySQL reads from the bound value (`'5abc'` is 5) |
| `KelasModel.KelasTable.FindByLevel` | src/backend/models/Kelas.js:500-530 | a falsy level throws; otherwise every row comes back, because the query has no condition on level |
| `KelasModel.KelasTable.Create` | src/backend/models/Kelas.js:313-360 | it rejects iff one of the six required fields is falsy, leaving the table unchanged; otherwise it inserts the new row (level defaulting to 'beginner') under the next id and returns it joined |
| `KelasModel.KelasTable.Update` | src/backend/models/Kelas.js:363-457 | the errors are checked in order: a falsy id, then an unknown id, then an empty patch; success replaces only the designated row, by its patch; an error leaves the table unchanged |
| `KelasModel.KelasTable.Delete` | src/backend/models/Kelas.js:460-498 | a falsy or unknown id fails and nothing changes; otherwise it returns the row (every joined column) as read before removal and removes exactly that row |
| `KelasService.MissingFields` | src/backend/services/kelasService.js:58-59 | the missing fields are exactly the required ones with a falsy value, in list order |
| `KelasService.LooselyDiffersFromKey` | src/backend/services/kelasService.js:84 | once the id designates key k, the loose `!=` against `kelas_id` is inequality with k |
| `KelasService.GetKelasById` | src/backend/services/kelasService.js:15-26 | the lookup succeeds iff the id designates a row; a non-empty id with no row fails with a message mentioning "not found" |
| `KelasService.SearchKelas` | src/backend/services/kelasService.js:29-36 | the model's TypeError on a non-string term becomes the fixed "Gagal mencari kelas"; success is the model's result |
| `KelasService.GetKelasByCategory` | src/backend/services/kelasService.js:39-46 | the model's error becomes the fixed "Gagal mengambil kelas berdasarkan kategori"; success is the model's result |
| `KelasService.GetKelasByLevel` | src/backend/services/kelasService.js:113-120 | the model's error becomes the fixed level message; success is every row |
| `KelasService.GetKelasByInstructor` | src/backend/services/kelasService.js:122-129 | the model's TypeError on a non-string name becomes the fixed instructor message; success is the model's result |
| `KelasService.FieldsRequiredPhrases` | src/backend/services/kelasService.js:58-62 | a message listing fields of the service's own list contains "harus diisi" and no other phrase the controller tests (both directions) |
| `KelasService.NoneMissing` | src/backend/services/kelasService.js:58-62 | no missing field means all five service-required fields are truthy |
| `KelasService.InsertKeepsUnique` | src/backend/services/kelasService.js:52-55 | inserting under a new key a row whose truthy title no row holds keeps titles unique |
| `KelasService.CreateKelas` | src/backend/services/kelasService.js:49-70 | the title check runs first: "sudah ada" iff `findByTitle` finds a row (a truthy title some row holds); then the five required fields (not durasi) are checked, listed in order; a missing durasi reaches the model and fails there; success inserts the row; any failure leaves the table unchanged and titles stay unique |
| `KelasService.UpdateKelas` | src/backend/services/kelasService.js:73-94 | "not found" comes before any title check; a truthy new title is refused only when a different row holds it; otherwise this is the model's update; titles stay unique |
| `KelasService.UpdateKeepsUnique` | src/backend/services/kelasService.js:82-89 | patching a row whose truthy new title no other row holds keeps titles unique |
| `KelasService.DeleteKelas` | src/backend/services/kelasService.js:97-110 | an absent id fails with a "not found" message before the model is called; otherwise the row is removed and returned |
| `KelasController.Route` | src/backend/controllers/kelasController.js:8-20 | exactly one path is chosen, by truthiness with priority search > category > level > instructor > all, and it carries that parameter's value (a string, or an array for a repeated parameter) |
| `KelasController.GetAllKelas` | src/backend/controllers/kelasController.js:5-37 | 200 with the rows and `total` equal to their count iff the service succeeds; otherwise 500 with the fixed message |
| `KelasController.GetAllKelasOutcome` | src/backend/controllers/kelasController.js:8-36 | the listing answers 200 unless the chosen search or instructor value is not a string; a repeated `search` gives 500 with 'Gagal mencari kelas' and a repeated `instructor` 500 with the instructor message; category and level never fail |
| `KelasController.ValidId` | src/backend/controllers/kelasController.js:45 | `!id \|\| isNaN(id)` rejects, so a valid id is non-empty and `Number` reads it |
| `KelasController.ValidIdDesignatesAlike` | src/backend/controllers/kelasController.js:45 | on an id the guard admits, MySQL's `kelas_id = ?` designates the key `Number` reads |
| `KelasController.GetKelasById` | src/backend/controllers/kelasController.js:40-75 | a missing or non-numeric id gives 400 before any lookup; an unknown id gives 404; otherwise 200 with the row |
| `KelasController.CreateValidation` | src/backend/controllers/kelasController.js:84-106 | in order: missing required fields give 400 naming them; a non-numeric or non-positive harga gives 400; then non-numeric tutor_id/kategori_id give 400; it passes iff none applies |
| `KelasController.CreateOutcome` | src/backend/controllers/kelasController.js:110-136 | success gives 201; "already exists"/"sudah ada" give 409; otherwise "harus diisi" gives 400 with the message; anything else gives 500 |
| `KelasController.CreateFailureStatus` | src/backend/controllers/kelasController.js:116-136 | the duplicate title is 409, the service's missing-fields message 400 with that message, and the model's missing-durasi message 500 |
| `KelasController.CreateKelas` | src/backend/controllers/kelasController.js:78-139 | a rejected body never reaches the table; a taken title gives 409; a missing durasi gives 500; 201 iff validation passes, the title is free and durasi is truthy, with the row inserted |
| `KelasController.UpdateValidation` | src/backend/controllers/kelasController.js:149-184 | an invalid id gives 400; an empty body gives 400; harga, tutor_id and kategori_id are validated only when present |
| `KelasController.UpdateOutcome` | src/backend/controllers/kelasController.js:188-216 | success gives 200; "not found" gives 404; otherwise "sudah ada" gives 409; anything else gives 500 |
| `KelasController.UpdateFailureStatus` | src/backend/controllers/kelasController.js:194-215 | an unknown id is 404 and a duplicate title 409; 'No fields to update' and 'ID is required' are 500 |
| `KelasController.UpdateKelas` | src/backend/controllers/kelasController.js:141-217 | end to end: a validation failure, 404, 409, or 500 for a body with no updatable column (nothing changed); otherwise 200 with the patched row; titles stay unique |
| `KelasController.DeleteOutcome` | src/backend/controllers/kelasController.js:234-254 | success gives 200; "not found" gives 404; anything else gives 500 |
| `KelasController.DeleteFailureStatus` | src/backend/controllers/kelasController.js:240-253 | an unknown id is 404, 'ID is required' 500 |
| `KelasController.DeleteKelas` | src/backend/controllers/kelasController.js:219-255 | an invalid id gives 400 and an unknown id 404, both leaving the table unchanged; 200 iff the row existed, which is removed and returned |
| `KelasController.SearchKelas` | src/backend/controllers/kelasController.js:258-285 | a falsy `q` gives 400; a string gives 200 with the matches and their count (a blank one finds nothing); a repeated `q` gives 500 with 'Gagal mencari kelas' |
| `HomePage.ParsePriceToNumber` | src/pages/Home.jsx:177-178 | the digits of the whole string read as one number, NaN when there are none; so "Rp 300K" is 300 |
| `HomePage.ParseRating` | src/pages/Home.jsx:179-180 | with no space, the rating is `parseFloat` of the whole text; text starting with a digit reads as a non-negative number |
| `HomePage.ParseDuration` | src/pages/Home.jsx:181-182 | NaN exactly when the text has no digit; otherwise a non-negative number |
| `HomePage.PriceBounds` | src/pages/Home.jsx:191 | a range with no '-' has the whole text as its minimum and a NaN maximum, so no course passes it |
| `HomePage.InBucket` | src/pages/Home.jsx:208-216 | '0-4' is below 4, '4-8' from 4 to 8 inclusive, '8+' above 8; an unknown bucket keeps all; a NaN duration is in none of the three |
| `HomePage.DurationInOneBucket` | src/pages/Home.jsx:206-217 | a course whose duration reads as a number is kept by exactly one of the filters '0-4', '4-8' and '8+' |
| `HomePage.BucketsSplitCourses` | src/pages/Home.jsx:206-217 | when every duration reads as a number, the three bucket filters together return each copy of each course exactly once |
| `HomePage.FilterStep` | src/pages/Home.jsx:185-224 | one `.filter` keeps exactly the courses that satisfy its test, each as many times as in the input, in the input's order |
| `HomePage.Apply` | src/pages/Home.jsx:184-225 | a guarded step, active or not, keeps exactly the courses satisfying its selection |
| `HomePage.Narrowed` | src/pages/Home.jsx:184-225 | the filter chain keeps exactly the courses that satisfy every active filter, as a sub-multiset of the input |
| `HomePage.GetFilteredCourses` | src/pages/Home.jsx:174-234 | the result holds exactly the courses satisfying every active filter, as a sub-multiset of the input (worked on a copy); a sort other than asc/desc keeps the filtered order |
| `HomePage.SortedByTitle` | src/pages/Home.jsx:227-231 | 'asc' orders titles ascending and 'desc' descending under a consistent collation |
| `HomePage.NoSelectionKeepsAll` | src/pages/Home.jsx:184 | with no selection and no known sort, the list comes back unchanged |
| `HomePage.RatingOfSample` | src/pages/Home.jsx:179-180 | "4.2 (124)" reads as 4.2 |
| `HomePage.RatingTokenExample` | src/pages/Home.jsx:198-204 | a course rated "4.2 (124)" passes the "4.0" filter and fails "4.5" |
| `HomePage.RangeBounds` | src/pages/Home.jsx:191 | "lo-hi" with digit strings reads as the bounds (lo, hi) |
| `HomePage.ThousandsPrice` | src/pages/Home.jsx:177-178 | "Rp nK" parses as n, not n·1000 |
| `HomePage.ThousandsPriceInRange` | src/pages/Home.jsx:190-196 | a "Rp nK" course passes the range "lo-hi" iff lo ≤ n ≤ hi, so the rupiah ranges of the filter panel compare against thousands |
| `CourseSection.Numeric` | src/components/organisems/courseSection.jsx:48 | an empty value in `(x \|\| 0)` counts as 0 |
| `CourseSection.Comparator` | src/components/organisems/courseSection.jsx:45-61 | an unknown option compares everything equal; price-high and rating-high are the ascending comparators with the arguments swapped; z-a compares the titles swapped |
| `CourseSection.ByCategory` | src/components/organisems/courseSection.jsx:31-33 | 'Semua Kelas' keeps all; any other value keeps exactly the courses with an equal category, with their multiplicities and order |
| `CourseSection.BySearch` | src/components/organisems/courseSection.jsx:35-42 | keeps exactly the courses whose title, description, tutor name or category contains the term, case-insensitively, with their multiplicities and order |
| `CourseSection.Filtered` | src/components/organisems/courseSection.jsx:29-42 | both filters together, with multiplicities and order kept |
| `CourseSection.FilteredAndSorted` | src/components/organisems/courseSection.jsx:28-66 | the output is a permutation of the filtered subset, and an empty `sortBy` keeps the filter order |
| `CourseSection.UnknownSortKeepsOrder` | src/components/organisems/courseSection.jsx:59-60 | an unknown sort key (comparator always 0) keeps the filtered order |
| `CourseSection.NumericSortOrders` | src/components/organisems/courseSection.jsx:47-58 | price-low/rating-low sort ascending and price-high/rating-high descending |
| `CourseSection.TitleSortOrders` | src/components/organisems/courseSection.jsx:51-54 | a-z sorts titles ascending and z-a descending under a consistent collation |
| `FilterPanel.SummaryShown` | src/components/molecules/Filter.jsx:195 | the "Filter Aktif" summary is shown exactly when some filter is set |
| `FilterPanel.Deduplicate` | src/components/molecules/Filter.jsx:27 | `[...new Set(xs)]` holds the same values, without duplicates |
| `FilterPanel.DeduplicateFirstOccurrenceOrder` | src/components/molecules/Filter.jsx:27 | the distinct values come in first-occurrence order |
| `FilterPanel.CourseCategories` | src/components/molecules/Filter.jsx:27 | the categories are exactly the courses' categories, each once |
| `FilterPanel.Panel.constructor` | src/components/molecules/Filter.jsx:13-18 | the panel starts with no active filter and has reported nothing |
| `FilterPanel.Panel.HandleCategoryChange` | src/components/molecules/Filter.jsx:55-63 | the category is toggled, the rest of the filters is kept, and the new filters are reported |
| `FilterPanel.Panel.HandleFilterChange` | src/components/molecules/Filter.jsx:65-69 | one key is replaced and the others stay; exactly the stored value is reported |
| `FilterPanel.Panel.ResetFilters` | src/components/molecules/Filter.jsx:71-80 | everything is emptied, the summary is hidden, and the empty filters are reported |
| `FilterSlice.RemoveAll` | src/store/redux/filterSlice.js:32 | `filter(item => item !== x)` keeps exactly the other values, and leaves a list without x unchanged |
| `FilterSlice.Toggle` | src/store/redux/filterSlice.js:27-36 | x is present afterwards iff it was absent before; other values are untouched; an absent x is appended at the end |
| `FilterSlice.ToggleDistinct` | src/store/redux/filterSlice.js:29-36 | toggling keeps a duplicate-free list duplicate-free |
| `FilterSlice.ToggleTwice` | src/store/redux/filterSlice.js:29-36 | toggling twice restores membership, and restores the list itself when x was absent |
| `FilterSlice.FilterStore.constructor` | src/store/redux/filterSlice.js:3-10 | the initial state: search '', sort 'asc', category [], and '' for the other three |
| `FilterSlice.FilterStore.SetSearch` | src/store/redux/filterSlice.js:16-18 | only `search` changes |
| `FilterSlice.FilterStore.SetSort` | src/store/redux/filterSlice.js:19-21 | only `sort` changes |
| `FilterSlice.FilterStore.SetCategory` | src/store/redux/filterSlice.js:22-38 | an array payload replaces the list; a scalar toggles it; nothing else changes |
| `FilterSlice.FilterStore.SetPriceRange` | src/store/redux/filterSlice.js:39-41 | only `priceRange` changes |
| `FilterSlice.FilterStore.SetRating` | src/store/redux/filterSlice.js:42-44 | only `rating` changes |
| `FilterSlice.FilterStore.SetDuration` | src/store/redux/filterSlice.js:45-47 | only `duration` changes |
| `FilterSlice.FilterStore.ResetFilter` | src/store/redux/filterSlice.js:48-55 | the state becomes exactly the initial state, which makes reset idempotent |
| `KelasSlice.KelasStore.constructor` | src/store/redux/kelasSlice.js:3-12 | no data, and the initial filter (sort 'asc', rating 0) |
| `KelasSlice.KelasStore.SetData` | src/store/redux/kelasSlice.js:18-20 | `data` is replaced and `filter` is unchanged |
| `KelasSlice.KelasStore.SetSearch` | src/store/redux/kelasSlice.js:21-23 | only `filter.search` changes |
| `KelasSlice.KelasStore.SetSort` | src/store/redux/kelasSlice.js:24-26 | only `filter.sort` changes |
| `KelasSlice.KelasStore.SetCategory` | src/store/redux/kelasSlice.js:27-29 | the list is replaced wholesale, never toggled |
| `KelasSlice.KelasStore.SetPriceRange` | src/store/redux/kelasSlice.js:30-32 | only `filter.priceRange` changes |
| `KelasSlice.KelasStore.SetRating` | src/store/redux/kelasSlice.js:33-35 | only `filter.rating` changes |
| `KelasSlice.KelasStore.ResetFilter` | src/store/redux/kelasSlice.js:36-38 | the filter is the initial one again, and `data` is unchanged |
| `AuthSlice.Or` | src/store/redux/authSlice.js:184 | `a \|\| b` is a when a is truthy, b otherwise |
| `AuthSlice.AuthStore.constructor` | src/store/redux/authSlice.js:140-147 | authenticated iff a truthy token is stored, in which case `token` is the stored token; everything else starts empty |
| `AuthSlice.AuthStore.ClearError` | src/store/redux/authSlice.js:149-151 | only `error` is cleared |
| `AuthSlice.AuthStore.ClearMessage` | src/store/redux/authSlice.js:152-154 | only `message` is cleared |
| `AuthSlice.AuthStore.Logout` | src/store/redux/authSlice.js:155-160 | user and token are cleared, not authenticated, and the stored token is removed |
| `AuthSlice.AuthStore.SetCredentials` | src/store/redux/authSlice.js:161-168 | user, token and authenticated are set; storage is written only for a truthy token |
| `AuthSlice.AuthStore.LoginPending` | src/store/redux/authSlice.js:173-178 | loading, with error and message cleared |
| `AuthSlice.AuthStore.LoginFulfilled` | src/store/redux/authSlice.js:179-191 | authenticated, not loading, no error; user and token come from the top level or from `data`; the message defaults to 'Login berhasil' |
| `AuthSlice.AuthStore.LoginRejected` | src/store/redux/authSlice.js:192-201 | credentials are cleared, the error is the reason, and the stored token is removed |
| `AuthSlice.AuthStore.RegisterPending` | src/store/redux/authSlice.js:204-208 | loading, with error and message cleared; the credentials are untouched |
| `AuthSlice.AuthStore.RegisterFulfilled` | src/store/redux/authSlice.js:209-213 | the message defaults to 'Registrasi berhasil'; the credentials are untouched |
| `AuthSlice.AuthStore.RegisterRejected` | src/store/redux/authSlice.js:214-218 | the error is set; the credentials are untouched |
| `AuthSlice.AuthStore.RestorePending` | src/store/redux/authSlice.js:221-223 | only `isLoading` changes |
| `AuthSlice.AuthStore.RestoreFulfilled` | src/store/redux/authSlice.js:224-229 | the user (from the top level or from `data`) is set and the store is authenticated |
| `AuthSlice.AuthStore.RestoreRejected` | src/store/redux/authSlice.js:230-237 | credentials are cleared and the stored token is removed |
| `AuthSlice.AuthStore.LogoutFulfilled` | src/store/redux/authSlice.js:240-247 | credentials are cleared; the message defaults to 'Logout berhasil' |
| `AuthSlice.AuthStore.LoginUser` | src/store/redux/authSlice.js:26-51 | the thunk with its reducers: on success a truthy token is stored and the login state set; on failure the rejection reason (default 'Login gagal.') is recorded and the token removed |
| `AuthSlice.AuthStore.RestoreAuth` | src/store/redux/authSlice.js:75-103 | with a stored token and a profile, the user is authenticated; otherwise the token is removed and the credentials cleared |
| `AuthSlice.AuthStore.LogoutUser` | src/store/redux/authSlice.js:106-136 | the stored token is removed before the request; the request is sent iff a token was stored; API errors are ignored and the state is logged out with 'Logout berhasil' |
| `CardClass.FirstTruthy` | src/components/molecules/cardClass.jsx:5-15 | `a \|\| b \|\| … \|\| fallback` is the first truthy alternative, otherwise the fallback |
| `CardClass.CourseDataOf` | src/components/molecules/cardClass.jsx:4-16 | a truthy `judul` is the title; the title is truthy or 'Judul Tidak Tersedia'; no course gives all the defaults |
| `CardClass.FormatPrice` | src/components/molecules/cardClass.jsx:18-24 | a falsy price is 'Gratis'; a string containing 'K' is returned after 'Rp '; any other value is read through the digits of its `String`: none gives 'Rp NaN', a value n below 1000 'Rp n', from 1000 on 'Rp ' + `String(n / 1000)` + 'K'; a number contributes all the digits it prints, sign and point dropped |
| `CardClass.FormatWholePrice` | src/components/molecules/cardClass.jsx:21-23 | a number n < 1000 gives 'Rp n'; a multiple of 1000 gives 'Rp (n/1000)K' |
| `CardClass.FormatHundredsPrice` | src/components/molecules/cardClass.jsx:21-22 | a whole number of hundreds from 1000 on shows one decimal of thousands: 1500 is 'Rp 1.5K' |
| `CardClass.FormatTenthsPrice` | src/components/molecules/cardClass.jsx:20-23 | a price with one decimal loses its point: 1.5 is 'Rp 15' |
| `CardClass.FormatArrayPrice` | src/components/molecules/cardClass.jsx:20-23 | a one-element array prints as its element: [250] is 'Rp 250' |
| `CardClass.FormatDigitString` | src/components/molecules/cardClass.jsx:20-23 | the same for a digit string, which contains no 'K' |
| `CardClass.FormatRating` | src/components/molecules/cardClass.jsx:26-29 | the displayed rating is the parsed value clamped to [0, 5]: above 5 gives 5, below 0 gives 0, an unparsable first token gives 0, and a value in range is kept |
| `CardClass.StarsShowWholePart` | src/components/molecules/cardClass.jsx:122-125 | star i is lit iff i ≤ the rating, so the lit stars are a prefix, as many as the rating's whole part |
| `KelasApi.Cleaned` | src/services/api/KelasApi.js:242-252 | keeps exactly the keys whose value is not '', null, undefined or an empty array, with the value unchanged (0 and false are kept) |
| `KelasApi.CleanedIdempotent` | src/services/api/KelasApi.js:242-252 | cleaning twice is cleaning once |
| `KelasApi.CleanFilters` | src/services/api/KelasApi.js:242-252 | the reduce over the entries computes `Cleaned(filters)` |
| `KelasApi.GetKelasWithFilters` | src/services/api/KelasApi.js:237-260 | the request sends the cleaned filters as its query |
| `KelasApi.GetKelasById` | src/services/api/KelasApi.js:98-103 | a falsy id throws before any request; otherwise GET of that item |
| `KelasApi.GetKelasByCategory` | src/services/api/KelasApi.js:145-150 | a falsy id throws before any request; otherwise GET of that category |
| `KelasApi.SearchKelas` | src/services/api/KelasApi.js:187-201 | a blank or all-white term throws; otherwise the trimmed, non-empty term is sent with limit 50 |
| `KelasApi.CreateKelas` | src/services/api/KelasApi.js:289-293 | missing data throws before any request; otherwise POST |
| `KelasApi.UpdateKelas` | src/services/api/KelasApi.js:334-344 | the id is checked first, then the data; a request is sent iff both are present |
| `KelasApi.DeleteKelas` | src/services/api/KelasApi.js:388-393 | a falsy id throws before any request; otherwise DELETE |
| `KelasApi.StatusMessage` | src/services/api/KelasApi.js:66-413 | only the statuses 400, 404 and 422 get a specific message; every lookup and fetch except the filtered one names its 404 |
| `KelasApi.Classify` | src/services/api/KelasApi.js:66-93 | specific statuses come first, then any status of 500 or more, then the network codes; anything else is rethrown as it is |
| `KelasApi.ClientNotFoundIsServerMessage` | src/services/api/KelasApi.js:126-129 | a 404 on the single-course endpoints reports `Kelas with ID ${id} not found`, the same text the course model throws internally for an unknown id (the server's 404 body is its own 'Kelas tidak ditemukan', and that text is never forwarded) |
| `UserModel.NormalEmailIdempotent` | src/backend/models/User.js:88 | `toLowerCase().trim()` applied twice is applied once |
| `UserModel.NormalEmailIgnoresCase` | src/backend/models/User.js:152 | an upper-cased email normalises like the original, so lookups find it |
| `UserModel.NormalEmailIgnoresPadding` | src/backend/models/User.js:191 | white space around an email does not change its normal form |
| `UserModel.StoreKeepsUnique` | src/backend/models/User.js:18-20 | a row with an email and a phone that no row holds keeps both columns unique |
| `UserModel.UserTable.EmailExists` | src/backend/models/User.js:186-198 | true iff the email is non-empty and some row holds its normal form |
| `UserModel.UserTable.PhoneExists` | src/backend/models/User.js:201-213 | true iff the phone is non-empty and some row holds it trimmed |
| `UserModel.UserTable.FindByEmail` | src/backend/models/User.js:147-159 | null iff `emailExists` is false; otherwise the stored row holding the normalised email |
| `UserModel.UserTable.FindByUserId` | src/backend/models/User.js:162-178 | null for id 0 or an unknown id; otherwise every column of the row except the password |
| `UserModel.UserTable.FindByVerificationToken` | src/backend/models/User.js:114-128 | null iff no row holds the token; otherwise that row without its password |
| `UserModel.UserTable.ClearVerificationToken` | src/backend/models/User.js:131-144 | true iff the row exists; it is then verified and no longer holds its old token; no other row changes |
| `UserModel.UserTable.Stored` | src/backend/models/User.js:78-93 | the stored row: trimmed name and phone, lower-cased gender, normalised email, the hash, the given token or a fresh one, unverified |
| `UserModel.UserTable.Insert` | src/backend/models/User.js:70-111 | a missing name, email or password fails; otherwise it succeeds iff neither the normal email nor the trimmed phone is taken (the UNIQUE columns), and then adds exactly the stored row; a failure changes nothing |
| `UserModel.UserTable.UpdateUser` | src/backend/models/User.js:231-276 | an unknown user fails; no allowed field fails; a phone taken by another row fails; success patches only full_name, gender and phone_number and returns the row without its password |
| `UserModel.UserTable.DeleteUser` | src/backend/models/User.js:303-317 | true iff the row existed, and exactly it is removed; otherwise 'User not found' with nothing changed |
| `UserModel.DefinedAmong` | src/backend/models/User.js:240-249 | the allow-listed keys present in the data, and only those |
| `UserModel.CollectUpdates` | src/backend/models/User.js:240-249 | the loop collects exactly the allowed fields present, each with its own value |
| `UserModel.Patched` | src/backend/models/User.js:240-262 | id, email, password, token and verification are never changed by an update |
| `UserModel.PatchedWritesAllowedFields` | src/backend/models/User.js:243-248 | each allowed field takes the given value when present and keeps its value otherwise |
| `UserModel.TotalPages` | src/backend/models/User.js:356 | `Math.ceil(total / limit)`: the least n with n·limit ≥ total; for limit 0 it is Infinity, or NaN when there are no rows |
| `UserModel.UsersPaginatedDefaults` | src/backend/models/User.js:332 | a page left out is 1 and a limit left out is 10, so a bare call gives the first ten rows; with both given it is `UsersPaginated` |
| `UserModel.UsersPaginated` | src/backend/models/User.js:332-363 | the page is the `limit` rows starting at offset (page−1)·limit, fewer on the last page; a negative LIMIT or OFFSET is a database error |
| `UserModel.PageOfRow` | src/backend/models/User.js:334 | row i falls within page ⌊i/limit⌋+1 |
| `UserModel.OnlyPageOfRow` | src/backend/models/User.js:334 | no other page's window holds row i |
| `UserModel.PageShowsRow` | src/backend/models/User.js:334-346 | a page whose window holds row i shows it at position i − offset |
| `UserModel.PageWithinTotal` | src/backend/models/User.js:356 | a page holding a row is within `totalPages` |
| `UserModel.RowOnExactlyOnePage` | src/backend/models/User.js:332-363 | every row is shown on exactly one page, and that page is within `totalPages` |
| `AuthController.IndexOf` | src/backend/controllers/authController.js:37 | the position of the first occurrence of a character, or the length |
| `AuthController.EmailFormatMatchesPattern` | src/backend/controllers/authController.js:37-38 | the executable check holds iff the string matches `^[^\s@]+@[^\s@]+\.[^\s@]+$` |
| `AuthController.PhoneFormatTrimmed` | src/backend/controllers/authController.js:46 | a phone number that passes is unchanged by trimming |
| `AuthController.EmailFormatNoWhite` | src/backend/controllers/authController.js:37 | an email that passes has no white space |
| `AuthController.RegisterCheck` | src/backend/controllers/authController.js:13-52 | passes iff all five fields are present, the password has at least 6 characters, the gender is male/female ignoring case, and the email and phone match their patterns; an empty field is reported first |
| `AuthController.AcceptedBody` | src/backend/controllers/authController.js:13-52 | an accepted body has a non-empty email whose normal form is its lower-case form, and a phone that trimming leaves unchanged |
| `AuthController.AdmittedRow` | src/backend/controllers/authController.js:72-80 | the row inserted for an accepted body holds the trimmed name, the lower-cased email and gender, the phone, the hash and the fresh token, unverified |
| `AuthController.Register` | src/backend/controllers/authController.js:9-109 | 400 for each validation failure; 409 for a taken email before the phone is checked, then 409 for a taken phone; 201 iff all pass and the trimmed name is non-empty, with the row inserted and a profile without password or token, whether or not the email was delivered; otherwise 500; the table is unchanged unless 201 |
| `AuthController.Enrol` | src/backend/controllers/authController.js:72-108 | the insert step: 201 with the stored profile iff the trimmed name is non-empty, otherwise 500 and nothing stored |
| `AuthController.BlankNamePassesValidation` | src/backend/controllers/authController.js:13 | a name made of a blank passes every check of `register` but trims to empty, so `insert` rejects it and the client sees a 500 |
| `AuthController.VerifyEmail` | src/backend/controllers/authController.js:111-145 | a missing token gives 400; an unknown token gives 400; 200 iff some row holds the token, which is then cleared and verified; otherwise the table is unchanged |
| `AuthController.Login` | src/backend/controllers/authController.js:147-206 | a missing field gives 400; an unknown email and a wrong password give the identical 401; 200 iff some row with the normalised email has a matching password, with a token signed over its id, email and name and a profile without the password |
| `AuthenticateToken.Credential` | src/backend/middleware/authenticateToken.js:5-6 | the credential is the second space-separated piece of the header, when it is non-empty |
| `AuthenticateToken.SchemeNotChecked` | src/backend/middleware/authenticateToken.js:6 | any scheme word, "Bearer" or not, is accepted before the token |
| `AuthenticateToken.LaterPiecesIgnored` | src/backend/middleware/authenticateToken.js:6 | pieces after the credential are ignored |
| `AuthenticateToken.NoSpaceNoCredential` | src/backend/middleware/authenticateToken.js:8-14 | a header without a space carries no credential |
| `AuthenticateToken.DoubleSpaceNoCredential` | src/backend/middleware/authenticateToken.js:8-14 | two spaces after the scheme leave an empty second piece, so no credential |
| `AuthenticateToken.Decide` | src/backend/middleware/authenticateToken.js:8-25 | 401 iff there is no credential; 403 iff the verifier rejects it; otherwise the request proceeds with the payload the verifier decoded |
| `AuthenticateToken.AcceptedTokenProceeds` | src/backend/middleware/authenticateToken.js:17-25 | a header carrying an accepted token lets the request through |
| `AuthenticateToken.AuthenticateToken` | src/backend/middleware/authenticateToken.js:3-27 | on a refusal, the status and message are set, and `req.user` and the next-call count are unchanged; on success, `req.user` is the payload, `next` runs exactly once, and nothing is sent |
| `Js.Lower` | src/pages/Home.jsx:222 | `toLowerCase` maps each character and keeps the length |
| `Js.LowerIdempotent` | src/pages/Home.jsx:222 | lower-casing twice is lower-casing once |
| `Js.TrimIdempotent` | src/services/api/KelasApi.js:194 | trimming twice is trimming once |
| `Js.SplitPair` | src/backend/middleware/authenticateToken.js:6 | splitting "a⟨sep⟩b", with no separator in a or b, gives [a, b] |
| `Js.ToNumber` | src/backend/controllers/kelasController.js:45 | `Number` of a digit string is its value; a blank string and `[]` are 0 |
| `Js.ParseInt` | src/backend/models/Kelas.js:116 | a number is truncated; a digit string is its value; a one-element array reads as its element, so `parseInt(['5'])` is 5; undefined, null and booleans are NaN |
| `Js.ParseFloat` | src/pages/Home.jsx:180 | text starting with a digit reads as a non-negative number; blank text is NaN |
| `Js.ParseFloatAgreesWithNumber` | src/pages/Home.jsx:180 | on every non-blank string `Number` reads, `parseFloat` gives the same value; on a blank one it gives NaN |
| `Js.NumberRejectsTrailing` | src/backend/controllers/kelasController.js:45 | digits followed by text that is neither a fraction nor white space are NaN to `Number` |
| `Js.ParseFloatDecimal` | src/pages/Home.jsx:180 | `parseFloat` of "i.f…" reads the decimal i.f and stops at the first non-digit |
| `Js.ParseIntDigits` | src/pages/Home.jsx:178 | `parseInt` of a digit string is its decimal value |
| `Js.Filter` | src/pages/Home.jsx:185 | `Array.prototype.filter` keeps exactly the elements passing the test, each as many times as in the input, as a subsequence |
| `Js.NumberText` | src/components/molecules/cardClass.jsx:20 | `String` of a number starts with '-' exactly when it is negative, and has a point exactly when it is not whole |
| `Js.NumberTextDigits` | src/components/molecules/cardClass.jsx:20 | the digits of `String(r)` are the decimal digits of abs(r) scaled to a whole number by its decimals, with their value |
| `Js.WholeNumberText` | src/components/molecules/cardClass.jsx:20 | a whole number prints as its decimal numeral with no point |
| `Js.Tenths` | src/components/molecules/cardClass.jsx:20 | n/10 with n not a multiple of 10 has one decimal and scales back to n |
| `Js.TenthsText` | src/components/molecules/cardClass.jsx:22 | n/10 prints as its integer part, a point and its one decimal |
| `Js.ThousandsWholeText` | src/components/molecules/cardClass.jsx:22 | a multiple of 1000 divided by 1000 prints as the quotient |
| `Js.HundredsText` | src/components/molecules/cardClass.jsx:22 | a whole number of hundreds divided by 1000 prints with one decimal |
| `Js.ArrayNumber` | src/backend/controllers/kelasController.js:94 | `Number([])` is 0 and `Number([n])` is n |
| `Js.SortBy` | src/components/organisems/courseSection.jsx:45 | the stable sort is a permutation of its input |
| `Js.SortBySorted` | src/components/organisems/courseSection.jsx:45 | with a consistent comparator, the result is ordered by it |
| `Js.SortByKeepsSorted` | src/components/organisems/courseSection.jsx:59-60 | an input already ordered under the comparator is returned unchanged (stability) |

## Left out

- Database I/O: the connection pool, transactions, and failures of the SQL
  calls on read paths. So `getAllKelas`, `findByEmail`, `login` and
  `verifyEmail` never answer 500 for a database error.
- Row order:
  - `ORDER BY created_at DESC` on the course lookups is not modelled; they
    return sets of rows.
  - The users table's order is a parameter of `UsersPaginated`.
- MySQL's column types:
  - VARCHAR lengths and ENUM checks;
  - strict-mode coercion of the values a request stores;
  - the collation's case- and accent-insensitive `=` and `LIKE`.

  The model uses exact equality, and ASCII case folding for `LIKE`. SQL LIKE
  wildcards inside a search term are not special.
- `KelasModel.KelasTable.Update` and `KelasModel.KelasTable.Delete`: the
  branches for `affectedRows === 0` after a row was read are left out,
  because the table cannot change in between here.
- The same holds for `UserModel.UserTable.UpdateUser`.
- `UserModel.UserTable.UpdateUser`: values are strings; a JSON `null` or a
  number in the update body is not modelled.
- The authentication bodies (`RegisterBody`, `LoginBody`) are strings. A
  missing field is the empty string. Non-string JSON values (which would throw
  in `toLowerCase`/`trim`) are not modelled.
- `AuthController.VerifyEmail`: the `token` query value is a string. A
  repeated `?token=a&token=b` arrives as an array, which is not modelled.
- String lengths count characters, not UTF-16 code units. Case mapping is
  ASCII only.
- JavaScript numbers are exact reals. `Number`/`parseFloat` cover decimal
  numerals; exponents, hexadecimal, `Infinity` and floating-point rounding are
  not modelled.
- bcrypt, jsonwebtoken and uuid are uninterpreted function parameters. The
  24-hour jwt expiry is a constant, and expiry itself is part of `verify`.
- Mail delivery (`sendVerificationEmail`) is a boolean parameter: the
  outcome it may have, not SMTP.
- `createTestUser`, `initializeDatabase`, `getAllUsers`, `getUserCount`,
  `getVerifiedUserCount`, `testConnection`, `hashPassword`/`comparePassword`
  and the `findById` alias in the user model are left out. They are seeding,
  DDL or direct library calls with no logic of their own.
- The course API client's `testConnection` and `debugKelasApi` are left out:
  logging only.
- The client's HTTP transport (axios, fetch), browser storage access beyond
  the one stored-token field, and React rendering are left out. Only the
  state and decisions of the components are modelled.
- `FilterPanel.Panel.HandleFilterChange`: the filter key is one of the
  three the panel calls it with (price range, rating, duration). An arbitrary
  key is not modelled.
- `Js.SortBy`: the comparator is applied by a stable insertion sort. The
  price and rating sorts of the course section can mix keys read as 0 (NaN
  through `|| 0`) with numeric ones; such a comparator is not consistent, and
  ECMAScript then leaves the order of `Array.prototype.sort` to the
  implementation. The model fixes an insertion-sort order there; the
  contracts about order hold only for consistent comparators.
- `Js.NumberText`: `String` of a number is modelled for up to 20 decimals
  and without exponent notation; numbers of 1e21 or more, below 1e-6, or
  with longer expansions print differently in JavaScript.
- `KelasModel.KelasTable.Delete`: the row it returns holds every joined
  column. The SELECT in `delete` lists fewer (no level, tutor_id,
  kategori_id, tutor bio or avatar).
- `UserModel.UserTable.Insert`: the result is the whole stored row. The
  object `insert` returns has no password or email_verified, and its
  timestamps are the clock's.
- `KelasModel.BoundKey`: MySQL's reading of a bound string is its leading
  decimal numeral after white space, as `parseFloat` reads it; exponents,
  and the difference between MySQL's and ECMAScript's white-space sets, are
  not modelled.
- `FilterPanel.Panel.HandleCategoryChange`, `HandleFilterChange` and
  `ResetFilters` are modelled with an `onFilterChange` callback supplied.
  The home page renders the panel without one (src/pages/Home.jsx:255), so
  there each handler updates its state and then throws a TypeError, and
  nothing is reported.
- `KelasController.GetAllKelasOutcome`: a repeated `category` reaches the
  database as an array parameter. The model reads it through its JavaScript
  numeric value (`['1','2']` is NaN and matches no row); what the MySQL driver
  binds for an array is not modelled. Query values that are nested objects
  (`a[b]=c`) are not modelled.
- `KelasModel.KelasTable.FindByTitle`: which of several rows holding the
  same title comes back is left open.
- `AuthSlice.AuthStore.RestoreAuth` and `AuthSlice.AuthStore.LoginUser`: the
  request and its outcome are a parameter.
