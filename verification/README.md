# edupro: a Dafny model of the dashboard's data logic

edupro is a React dashboard. It has a users table with a global search and
per-column filters, a form dialog and a form-field renderer driven by field
definitions, a login/signup page with social login, a drag-and-drop code
playground, a navigation bar and an API error formatter. This project models
the data transformations behind those screens and proves what they promise.

The modules follow the components:

- `Js` (js.dfy) holds the JavaScript values and built-ins the components rely on:
  - truthiness and `||`;
  - `===`;
  - `String(v)`, `Number(v)` and `new Date(v)`;
  - `trim`, ASCII `toLowerCase`/`toUpperCase`, `includes`, `split` and `join`.
- `Seqs` (seqs.dfy) holds `Array.prototype.filter` and the order-preserving subsequence relation.
- `CommonDataTable` (common_data_table.dfy) covers:
  - the column mapping and the row filter (search plus column filters);
  - the page-size options and pagination clamping, and the visible-row count;
  - the column-filter object;
  - the `DataTable` component state.
- `DynamicFormField` (form_field.dfy) covers the `"start,end"` range encoding and what an input shows.
- `FormSchema` (form_schema.dfy) holds the field definitions, the form seeding `reduce`, and the required-field validator. The dialog and the signup form share these.
- `DynamicFormDialog` (form_dialog.dfy) covers the dialog's initial values, its validation and the `FormDialog` state.
- `AuthPage` (auth_page.dfy) covers login and signup validation, the social-login URL lookup and `provider=` builder, and the `AuthPage` state.
- `Home` (home.dfy) covers create, edit and delete on the users list (`UserStore`).
- `PlayGround` (playground.dfy) covers:
  - the pane layout swap;
  - snippet appending;
  - preview truncation and widget labels;
  - the `PlayGround` state.
- `Navbar` (navbar.dfy) covers the page title lookup and the icon lookup.
- `ErrorHandler` (error_handler.dfy) covers `handleApiError`.

The model stands in for some of the host's behaviour:

- **Date functions.** Date parsing, `toISOString` and `Date#toString` depend on the host and the calendar. They are the fields of a `Js.DateEnv` record passed in as a parameter: `parse` returns None for an invalid date.
- **Numbers.** They are integers.
- **Objects.** An object is the map of its own properties. `===` on objects compares contents.
- **Column filters.** The filter object keeps insertion order, so it is an association list with distinct keys.

Where state is replaced through React setters, the component is a class and each handler is a method. The method's postcondition gives the new state in terms of the pure functions, and the lemmas are about those functions. The row filter's per-row test is a `for … of` loop with early exits. It is the method `RowMatches`, and `FilterRows` loops over the rows. Both are proved equal to the pure `Keep`/`Filtered`. The two validators fill their error objects in a loop. They are `FormDialog.Validate` and `AuthPage.ValidateSignup`, with loop invariants tying them to `FormSchema.RequiredErrors`.

## Model

| member | source | states |
|---|---|---|
| Js.Trim | src/components/CommonDataTable.jsx:205 | the result has no leading or trailing whitespace |
| Js.TrimIsInfix | src/components/CommonDataTable.jsx:205 | `s.trim()` is a contiguous slice of `s`, and every character of `s` outside that slice is whitespace |
| Js.TrimBlankIff | src/pages/AuthPage.jsx:200-204 | `s.trim()` is empty iff every character of `s` is whitespace |
| Js.Includes | src/components/CommonDataTable.jsx:216 | `includes` is true iff the needle occurs at some index |
| Js.Split | src/components/DynamicFormField.jsx:100-101 | `split(",")` gives at least one piece; no piece holds the separator; joining the pieces gives the input back |
| Js.SplitJoin | src/components/DynamicFormField.jsx:100-101 | splitting the join of separator-free pieces gives the pieces back |
| Js.NumberRoundTrip | src/api/errorHandler.js:5 | `Number(String(n)) == n` for every integer |
| Seqs.FilterMembership | src/components/CommonDataTable.jsx:207 | an element is in `s.filter(p)` iff it is in `s` and satisfies `p` |
| Seqs.FilterIsSubsequence | src/components/CommonDataTable.jsx:207 | `filter` returns an order-preserving subsequence, never longer than the input |
| Seqs.FilterCount | src/components/CommonDataTable.jsx:207 | `filter` keeps every copy of an element that passes and no copy of one that fails |
| Seqs.FilterIdempotent | src/components/CommonDataTable.jsx:207 | filtering twice with one predicate is filtering once |
| CommonDataTable.ActionItems | src/components/CommonDataTable.jsx:140-167 | an actions column offers Edit iff "edit" is listed and Delete iff "delete" is listed, Edit first |
| CommonDataTable.MapColumn | src/components/CommonDataTable.jsx:110-198 | a column with `field` or `headerName` passes through; otherwise its field is its id, it is a date column iff typed date/datetime, a fixed width locks min and max width, and an actions column gets a non-zero width |
| CommonDataTable.DateCellValue | src/components/CommonDataTable.jsx:176-195 | a date cell shows null for a missing value, the Date itself, or the parsed string |
| CommonDataTable.RowMatches | src/components/CommonDataTable.jsx:207-273 | the `for … of` loop with its early exits decides exactly `Keep`: search hit, and every active filter holds |
| CommonDataTable.FilterRows | src/components/CommonDataTable.jsx:204-275 | the filtered rows are exactly `Filtered` for the trimmed, lower-cased search |
| CommonDataTable.FilterHolds | src/components/CommonDataTable.jsx:221-270 | an inert filter (nullish, "", or a range with neither end) always holds; an active one drops a row whose cell is null or undefined |
| CommonDataTable.Keep | src/components/CommonDataTable.jsx:207-273 | a kept row has a non-nullish cell for every active filter; an empty search with only inert filters keeps the row |
| CommonDataTable.Filtered | src/components/CommonDataTable.jsx:204-275 | no more rows than given; every result is a given row that passes `Keep`; a passing row occurs as often as in the input, a failing one not at all |
| CommonDataTable.FilteredIsStableSubsequence | src/components/CommonDataTable.jsx:204-275 | filtered rows are an order-preserving subsequence, no longer than the rows, and filtering them again changes nothing |
| CommonDataTable.FilteredMembership | src/components/CommonDataTable.jsx:207-273 | a row is kept iff it is a row and passes the search and every active filter |
| CommonDataTable.BlankSearchKeepsAll | src/components/CommonDataTable.jsx:205-228 | a blank or whitespace-only search with only inert filters keeps every row |
| CommonDataTable.SearchIgnoresCase | src/components/CommonDataTable.jsx:205-216 | searching for a text and for its upper-cased form keeps the same rows |
| CommonDataTable.TextFilterIgnoresCase | src/components/CommonDataTable.jsx:265-270 | a text filter value and its upper-cased form keep the same rows |
| CommonDataTable.AddedFilterEntry | src/components/CommonDataTable.jsx:222-230 | an inert filter (null, "", an object without from/to) changes nothing; an active filter on a field every row lacks removes all rows |
| CommonDataTable.FilterOrderIrrelevant | src/components/CommonDataTable.jsx:222-271 | AND semantics: two filter lists with the same entries, in any order, keep the same rows |
| CommonDataTable.DateRangeInclusive | src/components/CommonDataTable.jsx:236-263 | a from/to filter keeps a row iff its cell is a valid date with from <= cell <= to, both ends inclusive; a missing or unparseable cell is dropped |
| CommonDataTable.IsoDayFilter | src/components/CommonDataTable.jsx:240-243 | a `YYYY-MM-DD` filter keeps a cell iff the first ten characters of its ISO form equal the filter |
| CommonDataTable.InsertSorted | src/components/CommonDataTable.jsx:84 | adding a value to a strictly increasing set keeps it strictly increasing and adds exactly that value |
| CommonDataTable.SafePageSizeOptions | src/components/CommonDataTable.jsx:77-85 | options are strictly increasing (deduplicated and sorted), each is some option's `Math.min(Number(p) \|\| 0, 100)`, every option is represented, and none exceeds 100 |
| CommonDataTable.InitialPagination | src/components/CommonDataTable.jsx:89-103 | the initial page size is at most 100; an explicit page size is clamped to 100; the page comes from the prop or is 0; without a prop the size is never 0 |
| CommonDataTable.VisibleCount | src/components/CommonDataTable.jsx:278-286 | 0 for no rows or a start past the end; never more than the page size, nor more than the row count |
| CommonDataTable.VisibleCountIsPageLength | src/components/CommonDataTable.jsx:278-286 | the visible count equals the length of the page's slice of the rows |
| CommonDataTable.PagesPartition | src/components/CommonDataTable.jsx:282-285 | consecutive pages concatenate back to the rows: no gap and no overlap |
| CommonDataTable.KeyIndex | src/components/CommonDataTable.jsx:427 | the position of a filter key, at its first and only occurrence, or the length when absent |
| CommonDataTable.SetFilter | src/components/CommonDataTable.jsx:427 | `{...prev, [n]: v}`: the key now holds v, every other key keeps its value, keys stay distinct, and existing keys keep their places |
| CommonDataTable.LookupOtherKeys | src/components/CommonDataTable.jsx:427 | rewriting the entries of one key leaves every other key's value |
| CommonDataTable.DataTable.constructor | src/components/CommonDataTable.jsx:55-103 | mounting: empty search, filters and selection; normalised options; initial pagination |
| CommonDataTable.DataTable.SetSearchText | src/components/CommonDataTable.jsx:569-592 | only the search text changes |
| CommonDataTable.DataTable.SetColumnFilter | src/components/CommonDataTable.jsx:427 | only that filter key changes |
| CommonDataTable.DataTable.ClearSearch | src/components/CommonDataTable.jsx:442-443 | filters and search are both cleared |
| CommonDataTable.DataTable.OnPaginationModelChange | src/components/CommonDataTable.jsx:615-620 | the grid's page is taken and its page size clamped to 100 |
| CommonDataTable.DataTable.OnSelectionModelChange | src/components/CommonDataTable.jsx:622 | only the selection changes |
| CommonDataTable.DataTable.BulkDelete | src/components/CommonDataTable.jsx:550-563 | the bulk delete fires iff the selection is non-empty, with the selection |
| CommonDataTable.DataTable.FilteredRows | src/components/CommonDataTable.jsx:204-275 | the rows shown are the filtered rows of the current state |
| CommonDataTable.DataTable.VisibleRowsCount | src/components/CommonDataTable.jsx:278-286 | the visible count of the current state, never more than the rows |
| DynamicFormField.ParseRange | src/components/DynamicFormField.jsx:98-104 | a falsy value other than 0 is ("", ""); both pieces are trimmed and comma-free |
| DynamicFormField.RangeValue | src/components/DynamicFormField.jsx:123-134 | the stored value is the start, one comma, then the end; comma-free pieces split back into exactly the two pieces |
| DynamicFormField.TrimKeepsOut | src/components/DynamicFormField.jsx:100-102 | trimming a comma-free piece keeps it comma-free |
| DynamicFormField.ParseRangeOfPieces | src/components/DynamicFormField.jsx:100-103 | parsing comma-separated pieces gives the first two, trimmed, with "" for a missing one |
| DynamicFormField.RangeRoundTrip | src/components/DynamicFormField.jsx:98-106 | `start,end` of trimmed comma-free pieces parses back to (start, end) |
| DynamicFormField.EditStartRoundTrip | src/components/DynamicFormField.jsx:106-123 | after editing the start, the stored value parses to (new start, old end) |
| DynamicFormField.EditEndRoundTrip | src/components/DynamicFormField.jsx:106-134 | after editing the end, the stored value parses to (old start, new end) |
| DynamicFormField.ThirdPieceIgnored | src/components/DynamicFormField.jsx:100-103 | a third piece is discarded |
| DynamicFormField.InputValue | src/components/DynamicFormField.jsx:212-218 | a non-range input shows a truthy value as is and "" for any falsy one |
| DynamicFormField.Display | src/components/DynamicFormField.jsx:97-153 | date-range and datetime-range inputs show the same parse of the value; every other input shows `value \|\| ""` |
| DynamicFormField.ZeroDisplay | src/components/DynamicFormField.jsx:97-106 | 0 shows as an empty text input but as the range start "0" |
| FormSchema.SeedForm | src/components/DynamicFormDialog.jsx:33-48 | the seeded form has exactly one key per field name |
| FormSchema.SeedFormValue | src/components/DynamicFormDialog.jsx:33-48 | a field's key holds its seed unless a later field reuses the name |
| FormSchema.RequiredErrors | src/components/DynamicFormDialog.jsx:57-63 | the errors name exactly the required fields whose value is missing, each with "<label> is required" |
| FormSchema.BlankStricterThanFalsy | src/components/DynamicFormDialog.jsx:60 | every field the dialog's undefined-or-"" rule flags is flagged by the signup's falsy rule, and a required 0 is flagged only by the latter |
| FormSchema.NoErrorsIff | src/components/DynamicFormDialog.jsx:65 | validation passes iff no required field is missing |
| FormSchema.FillingClearsError | src/components/DynamicFormDialog.jsx:53-63 | setting a field to a non-missing value removes exactly its error and adds none |
| DynamicFormDialog.InitialValue | src/components/DynamicFormDialog.jsx:35-47 | an explicit defaultValue, even falsy, wins; else a select's first option's value (or the option); else "" |
| DynamicFormDialog.InitialForm | src/components/DynamicFormDialog.jsx:33-48 | the seeded form has exactly one key per field name |
| DynamicFormDialog.InitialFormShape | src/components/DynamicFormDialog.jsx:33-48 | every field name has a key, holding its initial value |
| DynamicFormDialog.OnlyBlankRequiredFlagged | src/components/DynamicFormDialog.jsx:60 | 0, false and null count as filled; a non-required field is never flagged |
| DynamicFormDialog.FormDialog.constructor | src/components/DynamicFormDialog.jsx:32-51 | opening seeds the form and clears the errors |
| DynamicFormDialog.FormDialog.Reset | src/components/DynamicFormDialog.jsx:32-51 | reopening reseeds the form and clears the errors |
| DynamicFormDialog.FormDialog.HandleChange | src/components/DynamicFormDialog.jsx:53-55 | only the named key changes |
| DynamicFormDialog.FormDialog.Validate | src/components/DynamicFormDialog.jsx:57-66 | the loop records exactly `RequiredErrors` with the undefined-or-"" rule and returns true iff there are none |
| DynamicFormDialog.FormDialog.HandleSubmit | src/components/DynamicFormDialog.jsx:68-72 | the form is submitted, and the dialog closed, iff validation passes |
| AuthPage.LoginErrors | src/pages/AuthPage.jsx:198-205 | name (password) is flagged iff it is all whitespace, with its fixed message; nothing else is flagged |
| AuthPage.SignupSeed | src/pages/AuthPage.jsx:156-162 | a field's defaultValue when defined, else "" |
| AuthPage.InitialSignupForm | src/pages/AuthPage.jsx:156-183 | the signup form has one key per field, holding its seed |
| AuthPage.FirstUsable | src/pages/AuthPage.jsx:222-228 | the `\|\|` chain yields nothing iff no candidate is usable, else the first usable one |
| AuthPage.WithProvider | src/pages/AuthPage.jsx:236-238 | a URL with `provider=` is kept; otherwise `provider=<key>` is appended after `&` or `?`; the result always has `provider=` |
| AuthPage.WithProviderIdempotent | src/pages/AuthPage.jsx:236-238 | adding the provider twice is adding it once |
| AuthPage.LookupUrl | src/pages/AuthPage.jsx:222-228 | the lower-case SOCIAL_LOGIN entry if truthy, else the upper-case one, else SOCIAL_AUTH_URL, else the lower-case SOCIAL_LOGIN_URL entry, else nothing |
| AuthPage.SocialLogin | src/pages/AuthPage.jsx:216-248 | a redirect iff one of the four lookups (lower, upper, auth URL, login URL) is usable, else the "not configured" notice; a function entry redirects to its result, a URL entry to `WithProvider` of it with the lower-cased provider |
| AuthPage.PlainRouteRedirect | src/pages/AuthPage.jsx:236-239 | a plain route is redirected to `route?provider=<lower-cased provider>` |
| AuthPage.UpperIsNoRoute | src/pages/AuthPage.jsx:219-224 | an upper-cased provider never hits a lower-case route key |
| AuthPage.AppLookup | src/api/endpoints.js:9-18 | with the shipped configuration google and github use their routes, any other provider the generic social URL |
| AuthPage.AppRouteIsPlain | src/api/endpoints.js:9-18 | the shipped routes carry no query string |
| AuthPage.AppSocialLogin | src/pages/AuthPage.jsx:216-241 | with the shipped configuration every provider is redirected to its route plus `?provider=<lower-cased provider>` |
| AuthPage.AuthPage.constructor | src/pages/AuthPage.jsx:131-140 | login mode, an empty login form and no errors |
| AuthPage.AuthPage.LoadSignupFields | src/pages/AuthPage.jsx:150-184 | the fields arrive and the signup form is seeded from them |
| AuthPage.AuthPage.SetLoginField | src/pages/AuthPage.jsx:428-447 | only that login key changes |
| AuthPage.AuthPage.SetSignupField | src/pages/AuthPage.jsx:532 | only that signup key changes |
| AuthPage.AuthPage.ValidateLogin | src/pages/AuthPage.jsx:198-208 | records `LoginErrors` and returns true iff neither field is all whitespace |
| AuthPage.AuthPage.HandleLogin | src/pages/AuthPage.jsx:210-214 | the token and the navigation to /home happen only when login validation passes |
| AuthPage.AuthPage.ValidateSignup | src/pages/AuthPage.jsx:259-268 | the loop records exactly `RequiredErrors` with the falsy rule and returns true iff there are none |
| AuthPage.AuthPage.HandleSignup | src/pages/AuthPage.jsx:270-278 | the form is posted iff signup validation passes |
| AuthPage.AuthPage.HandleSocialLogin | src/pages/AuthPage.jsx:216-248 | the browser goes to the social-login redirect, or the notice is shown |
| AuthPage.AuthPage.SwitchToSignup | src/pages/AuthPage.jsx:474-477 | signup mode, login errors cleared |
| AuthPage.AuthPage.SwitchToLogin | src/pages/AuthPage.jsx:569-572 | login mode, signup errors cleared |
| Home.MaxId | src/pages/Home.jsx:636-637 | 0 for no users; NaN iff some id (a missing one read as 0) is not a number; otherwise an upper bound of the ids that some user attains |
| Home.NewId | src/pages/Home.jsx:639 | a truthy given id that reads as a non-zero number is used as that number; otherwise the id is the largest id plus 1, or NaN when the largest is NaN |
| Home.FirstIdIsOne | src/pages/Home.jsx:636-639 | with no users and no usable given id (missing, falsy, or reading as 0 or NaN), the first row gets id 1 |
| Home.GeneratedIdFollowsMax | src/pages/Home.jsx:636-639 | without a usable given id and with numeric ids, the new id exceeds every id and is one more than some user's id |
| Home.NewRow | src/pages/Home.jsx:638-646 | the row's keys; missing text fields become "", a missing status "Active" |
| Home.GeneratedIdIsFresh | src/pages/Home.jsx:636-639 | without a usable given id (missing, falsy, or reading as 0 or NaN), the new id is strictly equal to no existing id |
| Home.Edited | src/pages/Home.jsx:661-665 | same length and order; every row (duplicates included) with `id === Number(values.id)` is merged with the values, the others untouched |
| Home.Deleted | src/pages/Home.jsx:670 | a row survives iff its id is not `===` the deleted id, with all its copies; survivors keep their order |
| Home.EditIdempotent | src/pages/Home.jsx:661-665 | applying an edit twice is applying it once |
| Home.DeleteNaNKeepsAll | src/pages/Home.jsx:670 | deleting by a NaN id removes nothing |
| Home.UserStore.constructor | src/pages/Home.jsx:7 | the store starts with the given users |
| Home.UserStore.HandleCreate | src/pages/Home.jsx:634-648 | exactly one row is prepended; the others keep their order |
| Home.UserStore.HandleEditRow | src/pages/Home.jsx:650-666 | without a truthy id nothing changes, else the list is `Edited` |
| Home.UserStore.HandleDeleteRow | src/pages/Home.jsx:668-671 | a declined confirmation changes nothing, else every row with that id goes |
| PlayGround.SlotKey | src/pages/PlayGround.jsx:111-115 | each pane's key is one of the three layout keys |
| PlayGround.InitialLayoutValid | src/pages/PlayGround.jsx:111-115 | the initial layout shows each widget in exactly one pane |
| PlayGround.DropWidgetAsWritten | src/pages/PlayGround.jsx:188-200 | an empty source or a source equal to the target changes nothing; otherwise the two entries are exchanged and every other entry stays |
| PlayGround.DropOfForeignTextBreaksLayout | src/pages/PlayGround.jsx:190-197 | dropped plain text that is no pane key empties the target pane and breaks the layout |
| PlayGround.DropOfTextOnLeftPane | src/pages/PlayGround.jsx:190-197 | dropping the text "x" on the left pane leaves it undefined |
| PlayGround.DropWidget | src/pages/PlayGround.jsx:188-200 | with the source checked to be a pane key: the two panes' widgets are exchanged and the third is unchanged |
| PlayGround.DropWidgetAgreesOnPaneKeys | src/pages/PlayGround.jsx:184-191 | for the drags the page starts (a pane key or no text), the checked drop behaves as written |
| PlayGround.DropPreservesValid | src/pages/PlayGround.jsx:193-199 | a drop keeps the layout a permutation of the three widgets |
| PlayGround.SwapTwiceRestores | src/pages/PlayGround.jsx:195-197 | repeating the same swap restores the layout |
| PlayGround.DropsPreserveValid | src/pages/PlayGround.jsx:188-200 | any sequence of drops keeps the layout a permutation of the three widgets |
| PlayGround.AppendSnippet | src/pages/PlayGround.jsx:227 | non-empty code gets a newline and the snippet appended; empty code becomes the snippet |
| PlayGround.AppendTwice | src/pages/PlayGround.jsx:227 | two snippets dropped on empty code end up on separate lines |
| PlayGround.Preview | src/pages/PlayGround.jsx:44 | the first 60 characters, with "..." only when the snippet is longer |
| PlayGround.WidgetLabel | src/pages/PlayGround.jsx:174-181 | the three widget keys get their labels; any other value is shown unchanged |
| PlayGround.ValidLayoutLabelsDistinct | src/pages/PlayGround.jsx:174-181 | the panes of a valid layout carry three different labels |
| PlayGround.PlayGround.constructor | src/pages/PlayGround.jsx:111-128 | the initial layout and starter code |
| PlayGround.PlayGround.OnDropWidget | src/pages/PlayGround.jsx:188-200 | the layout becomes the checked drop and stays valid; the code is untouched |
| PlayGround.PlayGround.OnDropSnippet | src/pages/PlayGround.jsx:221-229 | a parsed question appends its snippet; no data or malformed data changes nothing |
| PlayGround.PlayGround.SetCode | src/pages/PlayGround.jsx:83 | the code becomes the typed text or the clicked snippet |
| Navbar.FindProduct | src/components/Navbar.jsx:188 | `find`: nothing iff no product has the path, else the first one that does |
| Navbar.ProductPathsDistinct | src/components/Navbar.jsx:176-180 | the menu entries go to different paths |
| Navbar.ProductPageName | src/components/Navbar.jsx:176-189 | a menu path is titled with that entry's name |
| Navbar.RootIsDashboard | src/components/Navbar.jsx:192 | "/" is titled "Dashboard" |
| Navbar.EducationIsCourses | src/components/Navbar.jsx:176-196 | "/education" is titled "Courses", never "Learning" |
| Navbar.UnknownPathIsPage | src/components/Navbar.jsx:195 | any other path is titled "Page" |
| Navbar.PageName | src/components/Navbar.jsx:186-196 | every title is Dashboard, Courses, About or Page; the "Learning" branch is unreachable because the menu lookup finds "/education" first |
| Navbar.IconFor | src/components/Navbar.jsx:46-60 | an icon is found exactly for the eight mapped names, and it is the icon of that name |
| Navbar.IconRoundTrip | src/components/Navbar.jsx:46-55 | looking up an icon's own name finds that icon |
| Navbar.ProductIconsKnown | src/components/Navbar.jsx:176-180 | every menu entry's icon renders |
| ErrorHandler.HandleApiError | src/api/errorHandler.js:2-15 | the server's message or "Server Error: <status>", else the no-response message, else the error's message or the fallback; the result is always truthy, never "" |
| ErrorHandler.ResponseTakesPrecedence | src/api/errorHandler.js:3-8 | with a response, the request does not affect the message |
| ErrorHandler.StatusReported | src/api/errorHandler.js:5 | without a server message, the status can be read back from the text after "Server Error: " |

## Left out

- Sorting, row selection and the grid's own pagination rendering happen inside the DataGrid library (src/components/CommonDataTable.jsx:606-648). No comparator exists in the repository.
- Calendar logic is not modelled. Date parsing, `toISOString` and `Date#toString` are parameters (`Js.DateEnv`), and the model proves nothing about their results.
- Numbers are integers. `Number("3.5")`, floating-point ids and fractional page sizes are not modelled. `Js.ToNumber` reads only optional-sign decimal integers, and every other string is NaN.
- Home.GeneratedIdIsFresh: integers are unbounded. In JavaScript an id at or above 2^53 loses precision, so `maxId + 1 === maxId` there and the new id can repeat an existing one; the model does not capture this.
- Js.NatToString: integers are unbounded. JavaScript's `String(n)` switches to exponent form from 1e21 (e.g. "1e+21"), which the model does not produce; this also bounds ErrorHandler.StatusReported to statuses below 1e21.
- CommonDataTable.Filtered: a `Js.DateObj` always holds a valid time. An invalid `Date` object in a row cell is not expressible; on such a cell `toISOString` throws a RangeError in the search (src/components/CommonDataTable.jsx:215) and in the text filter (src/components/CommonDataTable.jsx:268), which aborts the render. The model does not capture that failure.
- `Js.ToLower` / `Js.ToUpper` map ASCII letters only. Unicode case mapping is not modelled.
- PlayGround.Preview: strings are sequences of Unicode code points, so lengths and `slice` positions count code points. JavaScript counts UTF-16 code units: for a snippet with characters outside the Basic Multilingual Plane (emoji, for instance) `snippet.slice(0, 60)` cuts at a different place, and can split a surrogate pair. UTF-16 lengths are not modelled.
- Object identity is not modelled. `===` on two objects compares their contents.
- Property lookups that reach `Object.prototype` (e.g. a key named `toString`) are not modelled. This affects `iconMap[name]`, `labels[type]` and `ENDPOINTS.SOCIAL_LOGIN[key]`.
- The concrete result of normalising a particular page-size list is not stated. Only the general properties of `SafePageSizeOptions` are proved.
- The network is not modelled:
  - `fetchFields` and the signup POST in AuthPage.jsx; the signup fields arrive as a parameter of `LoadSignupFields`;
  - `axiosClient`, `apiUtils` and the API configuration.
- Browser side effects are not modelled:
  - `localStorage`; the token is a field;
  - `window.location` and `navigate`; the target is a field;
  - `window.confirm`; its answer is a parameter;
  - `setTimeout`, snackbars beyond their message, and the clipboard.
- AuthPage.SocialLogin: the `catch` branch of `handleSocialLogin` (src/pages/AuthPage.jsx:249-255, the "Unable to start" notice) is not modelled. The provider is a string and an entry is a URL string or a function returning one, so the model has none of the cases that throw:
  - a provider that is not a string (`toUpperCase` fails);
  - a truthy entry that is neither a string nor a function (`url.includes` fails);
  - a function entry whose call throws;
  - the browser refusing the `window.location.href` assignment.
- ErrorHandler.HandleApiError: requires an error that is not null or undefined, since reading `error.response` on those throws.
- PlayGround.PlayGround.OnDropSnippet: a dropped payload whose parsed object lacks a string `snippet` is not modelled. Only the page's own question items set that data.
- `runCode` is not modelled: it runs user code through `new Function`. The output pane's text is therefore not modelled.
- Drag-to-resize is not modelled. It is floating-point percentage arithmetic on DOM measurements.
- The mobile layout switch and all JSX rendering, styling and theme code are not modelled.
- The prop-forwarding button wrappers are not modelled.
- The course, about and code-display pages are static content and are not modelled.

## Findings

| source | as written | input that shows it | evidently intended | confidence | as-written member | corrected member |
|---|---|---|---|---|---|---|
| src/pages/PlayGround.jsx:188-199 | `onDropWidget` takes the drag's plain text as a pane key without checking it. Each pane's drop handler also receives drops that bubble up from the editor. | Select the text `x` in the editor and drop it on the left pane. `layout.left` becomes undefined, so the pane shows nothing. A new key `x` also appears. | Swap only when the dragged text is one of `left`, `rightTop`, `rightBottom`. | not executed; the drop path follows from the code | PlayGround.DropOfForeignTextBreaksLayout | PlayGround.DropPreservesValid |
