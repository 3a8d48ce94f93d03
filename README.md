# nexus-mes in Dafny

A model of the logic of nexus-mes, a web application for running an electric-vehicle plant.
It covers production schedules, materials, battery assemblies, quality inspections, production
costs, user accounts and reports. The model covers four parts of the system.

- **Server endpoints.**
  - The dashboard endpoint's reductions over the stored records.
  - The create (`POST`) and listing (`GET`) handlers of the schedule, material, inspection, cost,
    assembly and user endpoints.
  - The login decision.
- **The client's session store** (`authStore`). The sidebar's role table and the page's
  per-module role gate are modelled with it.
- **The computations inside the client screens:**
  - the figures above each table and the pagination of the user list;
  - the progress bar, the stock status, the machine checklist and the status badges;
  - the checks each form makes before it sends anything, and the body it sends.
- **The report export and the dashboard charts.** The export is the CSV text the reports screen
  builds; the charts are the data the dashboard draws.

Conventions used throughout:

- **Fixed-point numbers.**
  - Money is an integer number of cents.
  - Rates are integers in tenths of a percent.
  - JavaScript's `Math.round(a / b)` is `Numeric.RoundDiv`: the nearest integer, with a half
    rounded up.
- **Request bodies.**
  - A text field of a body is an `Option<string>`; `None` is a missing or `null` field.
  - A field the code passes to `parseInt`/`parseFloat` is a `Js.Input`: missing, a string, or a
    number.
  - JavaScript truthiness is written out: `Js.Present` and `Js.Truthy`.
  - `x || default` is written out as `Js.Or`.
- **The store.** Each endpoint's table is a class holding a `seq` of rows, oldest first. A `Create`
  method appends to it. A listing ordered newest first is the reverse of that sequence.
- **The screens.** A component's form state is a class whose fields the input handlers reassign.
  A computation over the listed records is a function.
- **Parameters for what the model cannot see.** Clocks, the locale's date text and bcrypt are
  passed in:
  - `now` is the time stamp a row is stored with;
  - `date`/`dayLabel` is the locale's rendering of a date;
  - `hashed` is the stored password hash;
  - `matches` is the password comparison.

The modules follow the program:

| area | modules |
|---|---|
| shared | `Wrappers`, `Seqs`, `Text`, `Numeric`, `Js` (`parseInt`, `parseFloat` and `String` of numbers), `Json` (the machine-list codec), `Records` (the stored rows), `Csv` |
| dashboard endpoint | `Dashboard` |
| create and list endpoints | `Schedules`, `Materials`, `Inspections`, `Costs`, `Assemblies`, `Users` |
| login endpoint | `Login` |
| client session and access | `Auth`, `Access` |
| screens | `InventoryManagement`, `UserManagement`, `CostPerformance`, `ProductionPlanning`, `BatteryPowertrain`, `QualityControl`, `Reports`, `Charts` |

## Model

| member | source | states |
|---|---|---|
| Numeric.RoundDiv | src/components/dashboard/Charts.tsx:189 | `Math.round(a / b)` for a positive divisor: `2br <= 2a + b < 2br + 2b`, the nearest integer with halves rounded up |
| Numeric.RoundDivUnique | src/components/dashboard/Charts.tsx:189 | the rounding bounds pin the rounded value down to one integer |
| Numeric.RoundDivWithin | src/components/modules/ProductionPlanning.tsx:87 | a quotient between two integers rounds to a value between them |
| Numeric.RoundDivMonotone | src/components/modules/ProductionPlanning.tsx:87 | rounding keeps the order of the numerators |
| Numeric.RateTenths | src/app/api/dashboard/route.ts:26-28 | `(part / whole * 100).toFixed(1)` in tenths: 0 for an empty whole, within 0..1000 for a part of the whole |
| Js.TrimStart | src/app/api/schedules/route.ts:65 | the white space `parseInt` skips: what is removed is all white space, and what is left does not start with any |
| Js.CoerceInt | src/app/api/schedules/route.ts:65-66 | `parseInt(x) \|\| 0`: the parsed integer, and 0 exactly where `parseInt` gives `NaN` |
| Js.ParseInt | src/app/api/schedules/route.ts:65-66 | `parseInt`: `NaN` for a missing value, a number as itself, a text as its decimal parse; ParseIntOfString and ParseIntNoDigits are its partners |
| Js.CoerceCents | src/app/api/costs/route.ts:41-43 | `parseFloat(x) \|\| 0` in cents: the parsed amount, and 0 where `parseFloat` gives `NaN` |
| Js.ParseFloatCents | src/app/api/costs/route.ts:41-43 | `parseFloat` in cents: `NaN` for a missing value, a number as itself, a text exactly when it opens with a decimal, as that decimal's cents; ParseFloatOfString and ParseFloatNoDigits are its partners |
| Js.ParseIntSkipsSpace | src/app/api/schedules/route.ts:65 | leading white space does not change what `parseInt` reads |
| Js.ParseIntIgnoresTail | src/app/api/schedules/route.ts:65 | `parseInt` reads the leading integer and ignores the text after it (`"12px"` is 12) |
| Js.ParseIntOfString | src/app/api/schedules/route.ts:65 | `parseInt(String(n)) == n` for every integer |
| Js.ParseIntNoDigits | src/app/api/schedules/route.ts:70 | text with no leading digit parses to `NaN` and is coerced to 0 |
| Js.ParseFloatNoDigits | src/app/api/materials/route.ts:74 | text with no leading digit, sign or point parses to `NaN` and is coerced to 0 |
| Js.ParseFloatOfString | src/app/api/costs/route.ts:41 | `parseFloat(String(c / 100))` gives back every amount `c` in cents |
| Json.DecodeEncode | src/app/api/schedules/route.ts:69 | `JSON.parse(JSON.stringify(xs)) == xs` for every list of strings (RFC 8259 sections 5 and 7) |
| Json.Encode | src/app/api/schedules/route.ts:69 | `JSON.stringify` of a list of strings: bracketed, and `[]` exactly for the empty list; DecodeEncode is its round-trip partner |
| Json.Decode | src/app/api/schedules/route.ts:25 | `JSON.parse` of a list of strings: a throw (`None`) for text that does not open with `[` after white space; DecodeEncode is its round-trip partner |
| Json.DecodeEncodeItems | src/app/api/schedules/route.ts:80 | the encoded elements of a non-empty list, then `]`, decode back to the elements |
| Json.UnescapeEscape | src/app/api/schedules/route.ts:69 | every character's escape, as `JSON.stringify` writes it, decodes back to that character |
| Json.DecodeEscapeAll | src/app/api/schedules/route.ts:69 | the escaped characters of a string, then the closing quote, decode back to the string |
| Json.EncodeEmpty | src/app/api/schedules/route.ts:69 | a missing machine list is stored as `[]`, which parses back to the empty list |
| Text.ToLower | src/app/api/users/route.ts:40 | `toLowerCase`: the same length, every letter lowered |
| Text.ToLowerIdempotent | src/app/api/users/route.ts:55 | lowering a lowered email changes nothing |
| Text.ContainsIff | src/app/api/materials/route.ts:20 | `includes` holds exactly when the needle occurs at some position |
| Text.IndexOf | src/components/modules/ProductionPlanning.tsx:47 | the first position of a character, or the length when it is absent |
| Text.ReplaceFirst | src/app/api/dashboard/route.ts:94 | `replace('_', ' ')` changes only the first underscore |
| Text.CapitalizeWords | src/app/api/dashboard/route.ts:94 | `replace(/\b\w/g, toUpperCase)`: exactly the characters at a word start are raised |
| Text.Humanize | src/app/api/dashboard/route.ts:94 | the label rendering keeps the length of the status |
| Text.HumanizeWord | src/app/api/dashboard/route.ts:94 | a single lowercase word gets only its first letter capitalised |
| Text.HumanizeTwoWords | src/components/modules/UserManagement.tsx:147 | two lowercase words joined by `_` become two capitalised words joined by a space |
| Text.ReplaceBetween | src/components/modules/UserManagement.tsx:147 | the first underscore of `a_b` is the one between the words when `a` has none |
| Text.CapitalizeTwoWords | src/components/modules/UserManagement.tsx:147 | two lowercase words separated by a space both get capitalised |
| Text.HumanizePending | src/app/api/dashboard/route.ts:94 | `pending` is shown as `Pending` |
| Text.HumanizeCompleted | src/app/api/dashboard/route.ts:94 | `completed` is shown as `Completed` |
| Text.HumanizeInProgress | src/app/api/dashboard/route.ts:94 | `in_progress` is shown as `In Progress` |
| Text.HumanizeSecondUnderscore | src/app/api/dashboard/route.ts:94 | only the first underscore becomes a space: `a_b_c` is shown as `A B_c` |
| Text.Split | src/components/modules/ProductionPlanning.tsx:47 | `split` never returns an empty list |
| Text.SplitJoin | src/components/modules/Reports.tsx:42 | splitting what was joined gives back the parts when none holds the separator |
| Text.Before | src/components/modules/ProductionPlanning.tsx:47 | `s.split('T')[0]`: the text before the first `T` |
| Text.SplitHead | src/components/modules/ProductionPlanning.tsx:47 | the first piece of a split is the text before the first separator |
| Text.NatToString | src/components/modules/Reports.tsx:22 | `String(n)` of a natural number: digits only, no leading zero |
| Text.IntToString | src/components/modules/Reports.tsx:22 | `String(n)` of an integer holds no quote, comma or line feed |
| Dashboard.DefectRate | src/app/api/dashboard/route.ts:24-28 | 0 without inspections, within 0..1000 tenths, and the failed share rounded half up to a tenth of a percent |
| Dashboard.TotalVehiclesProduced | src/app/api/dashboard/route.ts:12 | the sum of the completed quantities, never negative when none is; TotalVehiclesProducedOrderFree and ModelDistributionSumsToTotal are its partners |
| Dashboard.PendingOrders | src/app/api/dashboard/route.ts:15-17 | the number of schedules kept by the `pending` status filter |
| Dashboard.ActiveProductionLines | src/app/api/dashboard/route.ts:38-40 | the number of schedules kept by the `in_progress` status filter |
| Dashboard.LowStockAlerts | src/app/api/dashboard/route.ts:20-21 | the length of the low-stock filter, which keeps exactly the materials whose quantity is below their minimum |
| Dashboard.TotalProductionCost | src/app/api/dashboard/route.ts:31-32 | the sum of the stored totals, never negative when none is; CostBreakdownAddsUp is its partner |
| Dashboard.AvgCostPerVehicle | src/app/api/dashboard/route.ts:32-35 | 0 without cost records, otherwise the total over the count rounded to the cent |
| Dashboard.RecentActivities | src/app/api/dashboard/route.ts:43-46 | `take: 10` of the feed read newest first: exactly its first ten entries (all of a shorter feed), in order, none older than an entry left out |
| Dashboard.ProductionTrend | src/app/api/dashboard/route.ts:49-52 | `take: 7` of the metrics read by ascending date: exactly their first seven, in order, none newer than a metric left out |
| Dashboard.Names | src/app/api/dashboard/route.ts:89-92 | the names of the entries, in order |
| Dashboard.Slices | src/app/api/dashboard/route.ts:55-60 | one entry per key, in the order of the keys, holding the group's sum |
| Dashboard.Groups | src/app/api/dashboard/route.ts:55-66 | a group-by: each key occurring once, every element's key present, no other key, each value the group's sum |
| Dashboard.ModelDistribution | src/app/api/dashboard/route.ts:55-60 | one entry per distinct vehicle model, holding the completed quantity of that model |
| Dashboard.StatusCounts | src/app/api/dashboard/route.ts:63-66 | one entry per distinct status, holding the number of schedules in it |
| Dashboard.StatusDistribution | src/app/api/dashboard/route.ts:93-96 | the status groups, their names rendered as labels |
| Dashboard.CostBreakdown | src/app/api/dashboard/route.ts:97-101 | all three components 0 without cost records |
| Dashboard.BuildBoard | src/app/api/dashboard/route.ts:77-102 | the whole response: at most ten activities and seven metrics, a defect rate within 0..100% |
| Dashboard.TotalVehiclesProducedOrderFree | src/app/api/dashboard/route.ts:12 | the vehicles-produced total does not depend on the order the schedules are read in |
| Dashboard.DefectRateThreeOfEight | src/app/api/dashboard/route.ts:24-28 | three failures out of eight inspections give 37.5% |
| Dashboard.AvgCostExact | src/app/api/dashboard/route.ts:33-35 | a total that the count divides gives the exact average |
| Dashboard.AvgCostBetween | src/app/api/dashboard/route.ts:33-35 | the average lies between the smallest and the largest total |
| Dashboard.SumBounds | src/app/api/dashboard/route.ts:32 | the total cost lies between count times the smallest and count times the largest total |
| Dashboard.ModelDistributionSumsToTotal | src/app/api/dashboard/route.ts:89-92 | the model entries add up to the vehicles-produced total |
| Dashboard.KeySumOneIsCount | src/app/api/dashboard/route.ts:65 | a group's `_count` is the number of its elements |
| Dashboard.StatusDistributionSumsToCount | src/app/api/dashboard/route.ts:93-96 | the status counts add up to the number of schedules |
| Dashboard.PendingGroupAgrees | src/app/api/dashboard/route.ts:15-17 | the `pending` group is shown as "Pending" with the pending-orders count |
| Dashboard.InProgressGroupAgrees | src/app/api/dashboard/route.ts:38-40 | the `in_progress` group is shown as "In Progress" with the active-lines count |
| Dashboard.PendingGroupPresent | src/app/api/dashboard/route.ts:63-66 | a `pending` group exists exactly when some schedule is pending |
| Dashboard.InProgressGroupPresent | src/app/api/dashboard/route.ts:63-66 | an `in_progress` group exists exactly when some schedule is in progress |
| Dashboard.CountPositive | src/app/api/dashboard/route.ts:15-17 | a count is positive exactly when some element is counted |
| Dashboard.CostComponentsAddUp | src/app/api/dashboard/route.ts:69-75 | over well-formed records the three component sums add up to the total cost |
| Dashboard.CostBreakdownAddsUp | src/app/api/dashboard/route.ts:97-101 | the cost breakdown adds up to the total production cost when every record is well formed |
| Dashboard.BoardAgrees | src/app/api/dashboard/route.ts:77-102 | within one response the model entries sum to the vehicles produced, the status counts to the schedules, and the breakdown to the total cost |
| Schedules.Row | src/app/api/schedules/route.ts:61-73 | the stored schedule: defaults `daily` and `pending`, an end date only when one was sent, `parseInt \|\| 0` numbers, machine text that parses back to the list sent or to `[]` |
| Schedules.Parsed | src/app/api/schedules/route.ts:23-26 | the stored row with every other field copied and its machine text replaced by the parsed list; absent exactly when the parse throws |
| Schedules.ParseAll | src/app/api/schedules/route.ts:23-26 | every row parsed, absent as soon as one row does not parse |
| Schedules.Selected | src/app/api/schedules/route.ts:13-20 | the rows kept are exactly those matching the status filter |
| Schedules.Listing | src/app/api/schedules/route.ts:13-28 | present when every machine text parses; then the selected rows (the filter's matches, newest first) one for one, each parsed, so every match is listed and only matches are, all with the requested status |
| Schedules.ListingUnfiltered | src/app/api/schedules/route.ts:13-15 | without a status, or with `all`, the listing is every stored schedule, parsed, newest first |
| Schedules.Reply | src/app/api/schedules/route.ts:54-82 | a 400 exactly when the model, start date or target is falsy; otherwise the stored row with the machine list sent |
| Schedules.ZeroTarget | src/app/api/schedules/route.ts:54-59 | a target of the number 0 is refused, the text "0" is stored as 0 |
| Schedules.Store.constructor | src/app/api/schedules/route.ts:61 | an empty store |
| Schedules.Store.Create | src/app/api/schedules/route.ts:39-90 | returns the reply; a refused request leaves the rows unchanged, an accepted one appends its row |
| Schedules.CreatedHeadsListing | src/app/api/schedules/route.ts:17-20 | a schedule just created heads the listing of every filter it passes |
| Materials.Row | src/app/api/materials/route.ts:66-78 | the stored material: defaults `electronics`, `units` and `""`, coerced quantity, minimum and unit cost |
| Materials.Reply | src/app/api/materials/route.ts:47-84 | missing fields give 400 first, then a taken SKU gives "SKU already exists", otherwise the stored row |
| Materials.SecondCreateRejected | src/app/api/materials/route.ts:55-64 | the same SKU sent after a successful create is refused |
| Materials.UnparsableNumbersBecomeZero | src/app/api/materials/route.ts:71-74 | unreadable numbers are stored as 0 |
| Materials.Store.constructor | src/app/api/materials/route.ts:66 | an empty store |
| Materials.Store.Create | src/app/api/materials/route.ts:42-92 | returns the reply; a refused request leaves the rows unchanged, an accepted one appends; SKUs stay distinct |
| Materials.Listing | src/app/api/materials/route.ts:14-29 | a material is listed exactly when it is stored, in the category and matches the search |
| Materials.SearchIgnoresCase | src/app/api/materials/route.ts:18-24 | a search and its lowercase form find the same materials |
| Inspections.Row | src/app/api/inspections/route.ts:59-69 | the stored inspection: defaults, a defect description exactly for a failure, approved exactly when the result sent is `pass` |
| Inspections.Reply | src/app/api/inspections/route.ts:45-75 | a missing vehicle or inspector gives 400 first, then a failure without a description; the message of a created row follows the result sent |
| Inspections.OmittedResultNeedsReview | src/app/api/inspections/route.ts:64-67 | a request without a result is stored as a pass that is not approved and awaits review |
| Inspections.RowConsistent | src/app/api/inspections/route.ts:65-67 | a stored row is approved only as a pass and has a description only as a failure |
| Inspections.Store.constructor | src/app/api/inspections/route.ts:59 | an empty store |
| Inspections.Store.Create | src/app/api/inspections/route.ts:33-83 | returns the reply; a refused request leaves the rows unchanged, an accepted one appends |
| Inspections.Listing | src/app/api/inspections/route.ts:13-20 | an inspection is listed exactly when it matches the result filter, and all have the requested result |
| Inspections.ListingUnfiltered | src/app/api/inspections/route.ts:13-20 | without a result, or with `all`, every inspection is listed, latest first |
| Costs.Row | src/app/api/costs/route.ts:41-55 | the stored cost: coerced components, default model `EV-Compact`, the total their sum |
| Costs.Reply | src/app/api/costs/route.ts:34-61 | a 400 exactly without a vehicle, otherwise success with the stored record |
| Costs.UnreadableComponentIsZero | src/app/api/costs/route.ts:41-44 | an unreadable component is recorded as 0 and the total is the other two |
| Costs.DecimalTextRecorded | src/app/api/costs/route.ts:41-44 | amounts sent as their decimal text are recorded exactly and the total is their sum |
| Costs.Store.constructor | src/app/api/costs/route.ts:46 | an empty store |
| Costs.Store.Create | src/app/api/costs/route.ts:23-69 | returns the reply; a refused request leaves the rows unchanged, an accepted one appends; every total is the sum of its components |
| Assemblies.Row | src/app/api/assemblies/route.ts:55-66 | the stored assembly: the five defaults, a completion date exactly when the stored status is `completed` |
| Assemblies.Reply | src/app/api/assemblies/route.ts:36-72 | missing fields first, then a vehicle that already has an assembly, otherwise the stored row |
| Assemblies.Store.constructor | src/app/api/assemblies/route.ts:55 | an empty store |
| Assemblies.Store.Create | src/app/api/assemblies/route.ts:23-80 | returns the reply; a refused request leaves the rows unchanged, an accepted one appends; vehicle ids stay distinct |
| Assemblies.SecondAssemblyRejected | src/app/api/assemblies/route.ts:44-53 | a vehicle that has an assembly is refused whatever else is sent |
| Users.FindByEmail | src/app/api/users/route.ts:39-41 | the stored account with exactly this email, present exactly when one exists |
| Users.Row | src/app/api/users/route.ts:52-60 | the stored account: its email lowercased, the hash as password, defaults `production_manager` and `active` |
| Users.Reply | src/app/api/users/route.ts:31-68 | missing fields first, then an email in use in lower case, otherwise the account without its hash |
| Users.CaseVariantRejected | src/app/api/users/route.ts:39-48 | two emails differing only in case cannot both be registered |
| Users.Store.constructor | src/app/api/users/route.ts:52 | an empty store |
| Users.Store.Create | src/app/api/users/route.ts:26-76 | returns the reply; a refused request leaves the rows unchanged, an accepted one appends; emails stay lowercase and distinct |
| Users.Listing | src/app/api/users/route.ts:8-15 | every account, newest first, each without its password |
| Login.Account | src/app/api/auth/login/route.ts:19-21 | the account stored under the lowercased email, absent exactly when there is none |
| Login.Decide | src/app/api/auth/login/route.ts:12-53 | 400 without fields, then 401 for an unknown email, 403 for an inactive account, 401 for a wrong password, otherwise the account without its hash |
| Login.InactiveIgnoresPassword | src/app/api/auth/login/route.ts:30-37 | an inactive account gets 403 whatever the password |
| Login.WrongPasswordLooksUnknown | src/app/api/auth/login/route.ts:39-44 | a wrong password gets the same reply as an unknown email |
| Login.EmailCaseIgnored | src/app/api/auth/login/route.ts:19-21 | the case of the email does not change the reply |
| Login.RegisteredAccountLogsIn | src/app/api/auth/login/route.ts:47-53 | an account just registered logs in with its password under any case of its email |
| Login.FindAppended | src/app/api/auth/login/route.ts:19-21 | a new email is found on the account appended with it |
| Auth.RoleName | src/store/authStore.ts:4 | the three roles have three distinct texts |
| Auth.Allowed | src/store/authStore.ts:61-65 | `hasRole` is false with nobody signed in |
| Auth.AllowedIffListed | src/store/authStore.ts:61-65 | for a signed-in account of role `q`, `hasRole(roles)` holds exactly when `q` is listed |
| Auth.UnknownRoleDenied | src/store/authStore.ts:64 | an account whose role is none of the three passes no role test |
| Auth.AllowedWidens | src/store/authStore.ts:64 | listing more roles never takes access away |
| Auth.AuthStore.constructor | src/store/authStore.ts:28-30 | nobody signed in, not authenticated, not loading |
| Auth.AuthStore.Login | src/store/authStore.ts:32-55 | authenticated only by a successful reply that carries an account; otherwise the session is kept and the reply's message, "Login failed" or the network error is returned; never loading afterwards |
| Auth.AuthStore.Logout | src/store/authStore.ts:57-59 | no account and not authenticated |
| Auth.AuthStore.SetUser | src/store/authStore.ts:67-69 | the account given, authenticated exactly when there is one |
| Auth.AuthStore.HasRole | src/store/authStore.ts:61-65 | false when signed out; for an account whose role is stored as a role's text, whether that role is listed |
| Access.Visible | src/components/layout/Sidebar.tsx:41 | the entries of the table kept by the role test |
| Access.FilterByRole | src/components/layout/Sidebar.tsx:41 | for a user of one role, the filter keeps exactly the entries listing that role |
| Access.AdminListedEverywhere | src/components/layout/Sidebar.tsx:26-35 | every entry of the table lists the administrator |
| Access.InspectorListed | src/components/layout/Sidebar.tsx:26-35 | the quality inspector is listed on the first, sixth and eighth entries only |
| Access.ManagerListed | src/components/layout/Sidebar.tsx:26-35 | the production manager is listed on every entry but the second and sixth |
| Access.AdminSeesAll | src/components/layout/Sidebar.tsx:26-41 | an administrator sees all eight entries |
| Access.InspectorSees | src/components/layout/Sidebar.tsx:26-41 | a quality inspector sees the dashboard, quality control and reports, in that order |
| Access.ManagerSees | src/components/layout/Sidebar.tsx:26-41 | a production manager sees every entry except user management and quality control |
| Access.VisibleInTableOrder | src/components/layout/Sidebar.tsx:41 | the kept entries are a subsequence of the table, in table order |
| Access.Render | src/app/page.tsx:30-79 | the login form whenever not authenticated; the dashboard for `dashboard` and for any unknown module; reports for every session; each gated module exactly for its roles, otherwise access denied |
| Access.GateMatchesSidebar | src/app/page.tsx:40-79 | a module is shown to a signed-in user exactly when the sidebar offers it to that user |
| Access.LogoutShowsLogin | src/store/authStore.ts:57-59 | after signing out the login form is shown whatever module was active |
| InventoryManagement.LowStockCount | src/components/modules/InventoryManagement.tsx:43 | the count above the table is the dashboard's low-stock count |
| InventoryManagement.GetStockStatus | src/components/modules/InventoryManagement.tsx:161-171 | out of stock exactly at quantity 0, whatever the minimum; low stock exactly for `0 < quantity < minStock` on a non-negative quantity; otherwise in stock |
| InventoryManagement.LowStockCountMatchesLabels | src/components/modules/InventoryManagement.tsx:43 | the count is the materials labelled "Low Stock" plus the empty shelves whose minimum is positive |
| InventoryManagement.StockDialog.constructor | src/components/modules/InventoryManagement.tsx:22-37 | the dialog starts closed |
| InventoryManagement.StockDialog.Open | src/components/modules/InventoryManagement.tsx:244 | opens on the material with its current quantity |
| InventoryManagement.StockDialog.Enter | src/components/modules/InventoryManagement.tsx:290 | the typed quantity, coerced with `parseInt \|\| 0` |
| InventoryManagement.StockDialog.Submit | src/components/modules/InventoryManagement.tsx:122-141 | with the dialog open, one request carrying the material's id and only the typed quantity; the dialog closes |
| UserManagement.TotalPages | src/components/modules/UserManagement.tsx:36 | the fewest pages of five that hold every account |
| UserManagement.Page | src/components/modules/UserManagement.tsx:37-40 | at most five accounts, in order from position `(p - 1) * 5`, none beyond the last page |
| UserManagement.PagesUpToPrefix | src/components/modules/UserManagement.tsx:37-40 | the first `k` pages read in order are the first `5k` accounts |
| UserManagement.PagesCoverList | src/components/modules/UserManagement.tsx:36-40 | pages 1 to the last give every account once, in order |
| UserManagement.ShowingMatchesPage | src/components/modules/UserManagement.tsx:239 | the "Showing" line names exactly the positions of the accounts on the page |
| UserManagement.Showing | src/components/modules/UserManagement.tsx:239 | on an existing page, a range from 1 within the count, at most five wide |
| UserManagement.Pager.constructor | src/components/modules/UserManagement.tsx:18 | the first page |
| UserManagement.Pager.Previous | src/components/modules/UserManagement.tsx:243 | `max(1, p - 1)`, staying within the pages |
| UserManagement.Pager.Next | src/components/modules/UserManagement.tsx:262 | `min(totalPages, p + 1)`, staying within the pages |
| UserManagement.Pager.GoTo | src/components/modules/UserManagement.tsx:249-252 | the numbered button's page |
| UserManagement.RoleLabel | src/components/modules/UserManagement.tsx:147 | the badge text is as long as the role |
| UserManagement.RoleLabelProductionManager | src/components/modules/UserManagement.tsx:147 | `production_manager` is shown as "Production Manager" |
| UserManagement.RoleLabelQualityInspector | src/components/modules/UserManagement.tsx:147 | `quality_inspector` is shown as "Quality Inspector" |
| UserManagement.RoleLabelAdmin | src/components/modules/UserManagement.tsx:147 | `admin` is shown as "Admin" |
| UserManagement.FirstLetters | src/components/modules/UserManagement.tsx:197 | at most one initial per word |
| UserManagement.FirstLettersOfWords | src/components/modules/UserManagement.tsx:197 | non-empty words give one initial each, their first letters |
| UserManagement.InitialsOfWords | src/components/modules/UserManagement.tsx:197 | a name of words separated by single spaces has one initial per word, its first letter |
| UserManagement.Initials | src/components/modules/UserManagement.tsx:197 | at most one initial per space-separated piece, and exactly the first letter of each when no piece is empty |
| UserManagement.UserForm.constructor | src/components/modules/UserManagement.tsx:24-30 | the blank form |
| UserManagement.UserForm.Reset | src/components/modules/UserManagement.tsx:42-51 | the blank form, editing nothing |
| UserManagement.UserForm.OpenEdit | src/components/modules/UserManagement.tsx:58-68 | the account's fields and an empty password |
| UserManagement.UserForm.CreateBody | src/components/modules/UserManagement.tsx:92 | the form with `password123` for an empty password; the server's check then needs only a name and an email |
| CostPerformance.CostForm.constructor | src/components/modules/CostPerformance.tsx:15 | the blank form |
| CostPerformance.CostForm.Reset | src/components/modules/CostPerformance.tsx:27 | the blank form after a recorded cost |
| CostPerformance.CostForm.Enter | src/components/modules/CostPerformance.tsx:127-129 | the amount typed, coerced with `parseFloat \|\| 0`, in its field only |
| CostPerformance.CostForm.Body | src/components/modules/CostPerformance.tsx:25 | the texts as strings and the amounts as numbers |
| CostPerformance.CostForm.Total | src/components/modules/CostPerformance.tsx:19 | with a vehicle given, the total the server stores for the body the form sends |
| CostPerformance.CostForm.Check | src/components/modules/CostPerformance.tsx:23 | the form is sent exactly with a vehicle and a non-zero total |
| CostPerformance.FormTotalIsStoredTotal | src/components/modules/CostPerformance.tsx:19 | the total the form shows is the total the server stores |
| CostPerformance.FormStricterThanServer | src/components/modules/CostPerformance.tsx:23 | what the form sends is accepted; a zero total is held back although the server would record it |
| CostPerformance.Stats | src/components/modules/CostPerformance.tsx:33 | all zero without records, otherwise the average total rounded to the cent |
| CostPerformance.StatsAgreeWithDashboard | src/components/modules/CostPerformance.tsx:33 | the same average and breakdown as the dashboard, adding up to the total cost over well-formed records |
| CostPerformance.PerformanceTrend | src/components/modules/CostPerformance.tsx:37 | the last `min(7, n)` metrics in order, with their rates |
| CostPerformance.LatestMetric | src/components/modules/CostPerformance.tsx:39 | the last metric, absent exactly when there are none |
| CostPerformance.LatestEndsTrend | src/components/modules/CostPerformance.tsx:37-39 | the latest metric is the last point of the trend |
| CostPerformance.RecentCosts | src/components/modules/CostPerformance.tsx:100 | the first ten cost records, or all when there are fewer |
| ProductionPlanning.ProgressPercentage | src/components/modules/ProductionPlanning.tsx:87 | for a positive target the share rounded half up; 0 for 0 of 0; an infinity of the sign of a count over a zero target |
| ProductionPlanning.ProgressColor | src/components/modules/ProductionPlanning.tsx:88 | green from 100%, blue from 50%, otherwise yellow |
| ProductionPlanning.ProgressWithin | src/components/modules/ProductionPlanning.tsx:87 | no more completed than targeted gives 0..100% |
| ProductionPlanning.ProgressComplete | src/components/modules/ProductionPlanning.tsx:87-88 | a met non-zero target shows 100% and green |
| ProductionPlanning.ProgressMonotone | src/components/modules/ProductionPlanning.tsx:87 | more completed never lowers the percentage |
| ProductionPlanning.Remove | src/components/modules/ProductionPlanning.tsx:57 | `filter(x => x !== m)`: `m` gone, every other machine kept |
| ProductionPlanning.Toggle | src/components/modules/ProductionPlanning.tsx:56-58 | flips the membership of `m` and keeps every other machine |
| ProductionPlanning.RemoveAbsent | src/components/modules/ProductionPlanning.tsx:57 | removing an absent machine changes nothing |
| ProductionPlanning.RemoveConcat | src/components/modules/ProductionPlanning.tsx:57 | removing from two lists joined is removing from each |
| ProductionPlanning.RemoveTwice | src/components/modules/ProductionPlanning.tsx:57 | removing twice is removing once |
| ProductionPlanning.ToggleKeepsOthersInOrder | src/components/modules/ProductionPlanning.tsx:56-58 | the other machines keep their relative order |
| ProductionPlanning.ToggleTwiceRestores | src/components/modules/ProductionPlanning.tsx:57 | checking then unchecking an unchecked machine restores the list |
| ProductionPlanning.RemoveNoDup | src/components/modules/ProductionPlanning.tsx:57 | removing keeps a list free of duplicates |
| ProductionPlanning.ToggleNoDup | src/components/modules/ProductionPlanning.tsx:57 | a list of distinct machines stays distinct after a toggle |
| ProductionPlanning.ScheduleForm.constructor | src/components/modules/ProductionPlanning.tsx:18-28 | the blank form |
| ProductionPlanning.ScheduleForm.Reset | src/components/modules/ProductionPlanning.tsx:34-37 | the blank form, editing nothing |
| ProductionPlanning.ScheduleForm.OpenEdit | src/components/modules/ProductionPlanning.tsx:40-54 | the schedule's fields, its dates cut before `T`, a missing end date as `""` |
| ProductionPlanning.ScheduleForm.ToggleMachine | src/components/modules/ProductionPlanning.tsx:56-59 | the machine list toggled, every other field unchanged |
| BatteryPowertrain.Stats | src/components/modules/BatteryPowertrain.tsx:63 | the total is the number of assemblies; each count is the length of its status filter, and the three together do not exceed the total |
| BatteryPowertrain.CountConcatDisjoint3 | src/components/modules/BatteryPowertrain.tsx:63 | three exclusive status counts never exceed the number of assemblies |
| BatteryPowertrain.StatsCoverTotal | src/components/modules/BatteryPowertrain.tsx:63 | with every status one of the three, the counts make up the total |
| BatteryPowertrain.BadgeStyle | src/components/modules/BatteryPowertrain.tsx:52-58 | each known status its style; any other status the in-assembly style |
| BatteryPowertrain.BadgeLabel | src/components/modules/BatteryPowertrain.tsx:59-60 | a label exactly for the three known statuses |
| BatteryPowertrain.AssemblyForm.constructor | src/components/modules/BatteryPowertrain.tsx:20-23 | the blank form |
| BatteryPowertrain.AssemblyForm.Reset | src/components/modules/BatteryPowertrain.tsx:27-30 | the blank form, editing nothing |
| BatteryPowertrain.AssemblyForm.OpenEdit | src/components/modules/BatteryPowertrain.tsx:33 | the seven fields of the assembly copied as they are |
| BatteryPowertrain.AssemblyForm.EnterVehicleId | src/components/modules/BatteryPowertrain.tsx:127 | only the vehicle id changes |
| BatteryPowertrain.AssemblyForm.Body | src/components/modules/BatteryPowertrain.tsx:43 | every field as text |
| BatteryPowertrain.FormDefaultsAreServerDefaults | src/components/modules/BatteryPowertrain.tsx:28 | the form's defaults store the same row as the server's defaults |
| BatteryPowertrain.BlankFormRejected | src/components/modules/BatteryPowertrain.tsx:43 | a blank form is refused by the server for its missing vehicle id |
| QualityControl.InspectionForm.constructor | src/components/modules/QualityControl.tsx:16 | the blank form |
| QualityControl.InspectionForm.Reset | src/components/modules/QualityControl.tsx:20 | the blank form |
| QualityControl.InspectionForm.ChoosePass | src/components/modules/QualityControl.tsx:114 | the result `pass` with the defect description cleared |
| QualityControl.InspectionForm.ChooseFail | src/components/modules/QualityControl.tsx:115 | the result `fail` with the description kept |
| QualityControl.InspectionForm.Body | src/components/modules/QualityControl.tsx:27 | every field as text |
| QualityControl.InspectionForm.Check | src/components/modules/QualityControl.tsx:22-25 | the required-field toast exactly without a vehicle or inspector, then the defect toast for a failure without a description; sent exactly when the server accepts the body |
| QualityControl.PassNeedsNoDefect | src/components/modules/QualityControl.tsx:114 | after choosing Pass the form is sent, stored without a defect and approved |
| QualityControl.BlankFormHeldBack | src/components/modules/QualityControl.tsx:24 | a blank form is never sent |
| Text.TenthsText | src/components/modules/QualityControl.tsx:35 | `toFixed(1)`: always one digit after the point |
| QualityControl.Stats | src/components/modules/QualityControl.tsx:35 | passed and failed are the lengths of the `pass` and `fail` filters, together within the total; a rate of "0" without inspections, otherwise the passed share to one decimal |
| QualityControl.StatsAgreeWithReport | src/components/modules/QualityControl.tsx:35 | the counts are the quality report card's, and make up the total when every result is pass or fail |
| QualityControl.NoPassShowsZeroPointZero | src/components/modules/QualityControl.tsx:35 | inspections none of which passed show "0.0", unlike the "0" of none |
| QualityControl.PassRateIsSummaryRate | src/components/modules/Reports.tsx:115 | the pass rate above the quality table is the text the reports' quick summary shows |
| QualityControl.CountNone | src/components/modules/QualityControl.tsx:35 | no element satisfying a test counts 0 |
| Reports.ScheduleRow | src/components/modules/Reports.tsx:22 | as wide as its header, the id cut to eight characters, the progress column the production screen's percentage |
| Reports.MaterialRow | src/components/modules/Reports.tsx:27 | as wide as its header, "Low Stock" exactly under the dashboard's low-stock test |
| Reports.InspectionRow | src/components/modules/Reports.tsx:32 | as wide as its header, "Yes"/"No" for approval, an empty defect exactly when none is stored |
| Reports.CostRow | src/components/modules/Reports.tsx:37 | as wide as its header: the id cut to eight characters, the vehicle and model, the four amounts as currency text and the calculation date |
| Reports.Rows | src/components/modules/Reports.tsx:19-40 | one row per record, each as wide as its header |
| Reports.Header | src/components/modules/Reports.tsx:21-36 | nine columns for production, inventory and quality, eight for costs, none for another kind |
| Reports.RecordCount | src/components/modules/Reports.tsx:19-40 | the length of the list the kind exports, 0 for another kind |
| Reports.Lines | src/components/modules/Reports.tsx:42 | a header line and one line per record |
| Reports.Export | src/components/modules/Reports.tsx:42 | an empty report is its header line only |
| Reports.FileName | src/components/modules/Reports.tsx:46 | `<kind>_report_<date>.csv` |
| Reports.BaseName | src/components/modules/Reports.tsx:17-39 | `<kind>_report` for the four kinds, the empty text for another |
| Reports.HeaderShape | src/components/modules/Reports.tsx:21-37 | nine columns, or eight for costs, each header cell needing no quotes |
| Reports.ExportReadsBack | src/components/modules/Reports.tsx:42 | read as RFC 4180 text, the export gives back its header and rows when no cell holds a quote |
| Reports.JoinAvoids | src/components/modules/Reports.tsx:42 | joining parts free of a character other than the separator stays free of it |
| Reports.QuotedLineAvoidsNewline | src/components/modules/Reports.tsx:42 | a row of cells free of line feeds is one line |
| Reports.SplitTable | src/components/modules/Reports.tsx:42 | splitting the text on line feeds gives its lines |
| Reports.ExportLineCount | src/components/modules/Reports.tsx:42 | the export has one line for the header and one per record |
| Reports.GetReportStats | src/components/modules/Reports.tsx:51-58 | each card's total is its record count; completed, in progress, low stock, passed and failed are the lengths of their filters; the stock value is the sum of quantity times unit cost; the cost figures are the dashboard's; `{total: 0}` for another kind |
| Reports.ReportStatsAgreeWithDashboard | src/components/modules/Reports.tsx:53-56 | the low-stock count, the in-progress count, the total cost and the average cost are the dashboard's |
| Reports.InventoryValueNonNegative | src/components/modules/Reports.tsx:54 | with no negative quantity or unit cost the stock value is not negative |
| Reports.QualityCountsCover | src/components/modules/Reports.tsx:55 | with every result pass or fail, the two counts make up the total |
| Reports.Summarize | src/components/modules/Reports.tsx:113-116 | the summed targets; the completed total, the dashboard's vehicles produced and no more than the targets when no schedule is over its own; the rate text, "0" without inspections and otherwise the passed share to one decimal; the inventory card's stock value |
| Reports.CompletedWithinTarget | src/components/modules/Reports.tsx:113-114 | with no schedule over its target, completed vehicles never exceed those targeted |
| Csv.ReadTable | src/components/modules/Reports.tsx:42 | a plain header line and quoted rows of quote-free cells read back as the header and the rows |
| Csv.ReadQuotedLines | src/components/modules/Reports.tsx:42 | quoted rows of quote-free cells, one per line, read back as the rows |
| Csv.RecordOfQuotedLine | src/components/modules/Reports.tsx:42 | a quoted row of quote-free cells reads back as its cells |
| Csv.RecordOfPlainLine | src/components/modules/Reports.tsx:42 | a header row of plain cells reads back as its cells |
| Csv.QuotedFieldOf | src/components/modules/Reports.tsx:42 | a quoted quote-free cell reads back unchanged |
| Csv.PlainFieldOf | src/components/modules/Reports.tsx:42 | a plain cell reads back unchanged |
| Csv.EmbeddedQuoteIsNotReadBack | src/components/modules/Reports.tsx:42 | a cell holding a quote is written with the quote undoubled, and the text does not read back |
| Charts.TrendPoints | src/components/dashboard/Charts.tsx:45-49 | one point per metric, in order, the vehicles produced copied into `produced` |
| Charts.ModelBars | src/components/dashboard/Charts.tsx:99-100 | bar `i` gets colour `i mod 4` of the palette |
| Charts.ModelBarColours | src/components/dashboard/Charts.tsx:99-100 | neighbouring bars differ in colour, bars four apart share it |
| Charts.StatusColor | src/components/dashboard/Charts.tsx:138-143 | the three labels' colours, grey for any other |
| Charts.StatusSlices | src/components/dashboard/Charts.tsx:143 | every slice coloured by its label |
| Charts.StatusChartColours | src/components/dashboard/Charts.tsx:138-143 | the dashboard's three stored statuses get their own colours |
| Charts.Share | src/components/dashboard/Charts.tsx:189-191 | 0 unless the total is positive, otherwise the share rounded half up |
| Charts.CostSlices | src/components/dashboard/Charts.tsx:187-191 | Material, Labor and Overhead, all 0 for a total that is not positive |
| Charts.CostSharesWithin | src/components/dashboard/Charts.tsx:189-191 | with non-negative components every share is within 0..100 |
| Charts.CostSharesNearlyWhole | src/components/dashboard/Charts.tsx:197 | when the pie is drawn its three rounded shares add up to 99, 100 or 101 |

## Left out

- The database is not modelled. Prisma queries, `ensureDatabaseSeeded` and its re-entrancy flag are left out. A query's result is an input sequence.
- A store holds its rows oldest first. Reading them newest first takes their reverse, on the assumption that time stamps grow with insertion.
- Prisma leaves the group order of `groupBy` unspecified. The model lists the groups in order of first occurrence.
- bcrypt is a parameter. Hashing gives the `hashed` argument and comparing is the `matches` predicate, because both are foreign calls.
- Binary floating point is replaced by integers: money in cents, rates in tenths of a percent. `Intl.NumberFormat` and `toLocaleString` are left out.
- Clocks and locale are parameters. `new Date()`, `toISOString` and `toLocaleDateString` become `now`, `isoNow` and `date`/`dayLabel`.
- A date sent to the server is stored as its text, and that text is not checked. `new Date(text)` is not modelled.
- React rendering, toasts, modals, spinners and the browser download of the CSV are left out, as is the `isSubmitting` flag.
- The application store's fetch actions are network I/O and are left out.
- The persistence of the session in the browser's storage is left out.
- The update and delete endpoints (`[id]` routes) are not part of this model.
- The material add/edit form of the inventory screen is left out: it only holds what is typed. What it sends is checked by Materials.Reply.
- The edit submissions (`PUT`) of the screens and the user screen's delete confirmation call the update and delete endpoints, so they are left out too.
- Dashboard.AvgCostPerVehicle: rounds the average to the cent, because the source divides exactly in floating point. The same holds for CostPerformance.Stats and Reports.GetReportStats.
- Js.CoerceCents: truncates digits below the cent, and reads the text `Infinity` as `NaN`, because floating point is not modelled.
- Text.ToLower: lowers only the ASCII letters, because Unicode case mapping is outside the model. Materials.Listing inherits this for Prisma's case-insensitive `contains`.
- Json.Decode returns `None` on a `\u` escape of a lone surrogate, because a Dafny `char` cannot hold one.
- A stored `assignedMachines` text that is valid JSON but not an array of strings also makes the parse fail in the model. The source would pass the other value on.
- Csv.Quote wraps a cell in quotes and does not double a quote inside it, as the source does. This departs from section 2 of RFC 4180; Csv.EmbeddedQuoteIsNotReadBack shows the consequence.
- Inspections.Row is approved exactly when the result sent is `pass`. The model follows the code: an omitted result is stored as `pass` but not approved.
- Access.Render: the active module is a string. Authentication comes from the session store's flag, not from a fetch.
- UserManagement.Pager.Previous and UserManagement.Pager.Next: the buttons are rendered only when there is more than one page. The model keeps the page in range whenever it starts in range.
- `createdAt`/`updatedAt` stamps other than the ordering keys are left out of the stored rows.
