# Clinical-lab administration: a Dafny model

This project models the core of a clinical-lab administration app. The
app keeps four document tables: the analysis catalog (`analisis`),
users (`user`), orders (`orders`) and samples (`samples`). The model
covers:

- the server functions over those tables (`convex/*.ts`);
- the order and analysis creation forms;
- the search and paging of the samples, orders and users lists.

The database is the class `Schema.Database`. It holds four `Table`
values and one id counter. Each table is a map from typed ids to
records plus the ids in creation order. Each server mutation is a method
that changes only the tables its `modifies` clause names. A missing id,
where the platform would throw, is an explicit `Fail`/`Err` that leaves
the state as it was. Each query is a function that reads the database.
Each client page is a class whose fields are the page's React state.
Its handlers are methods, and its derived values are functions that
read the object.

Files:

- `common.dfy`: option/result types and `filter`;
- `text.dfy`: `trim`, `toLowerCase`, `includes`;
- `tables.dfy`: a document table;
- `schema.dfy`: records, enums and the database;
- `analisis_api.dfy`, `ordenes_api.dfy`, `muestras_api.dfy`, `users_api.dfy`, `dashboard_api.dfy`: the server functions;
- `paging.dfy`: `slice` and page arithmetic;
- `samples_page.dfy`, `orders_page.dfy`, `users_table.dfy`: the three list pages;
- `order_form.dfy`, `analysis_form.dfy`: the two creation forms.

Clock readings are parameters: `now`, a `clock` function of the reading
index, the Clerk event's timestamps, and a fixed UTC offset for the
weekday. The catalog and user lists a page receives from its query are
constructor arguments or `Refresh` arguments.

Where the schema and the code disagree, the model follows the code:

- `convex/schema.ts:73-78` declares a sample's `resultados` as an
  optional string-keyed record. Every mutation writes an array of
  `{nombre, medicion, estandar, valor}`, so the model stores an array.
- `app/analysis/create/page.tsx:65,86` sends `datos` as a list of
  strings, while `convex/analisis.ts:27-33` expects objects. The form is
  modelled as sending the strings it builds (`AnalysisPayload.datos`).
  The server is modelled as receiving parameter records.

## Model

| member | source | states |
|---|---|---|
| Schema.Database.constructor | convex/schema.ts:4-83 | an empty database: four empty, well-formed tables |
| Schema.Database.TakeId | convex/schema.ts:4-83 | hands out an id that no table uses yet; the database stays valid |
| Schema.Database.InsertUser | convex/users.ts:26-32 | stores a user under a fresh id, last in creation order; other tables untouched |
| Schema.Database.UpdateUser | convex/users.ts:19-23 | replaces one stored user; the creation order is kept |
| Schema.Database.DeleteUser | convex/users.ts:49 | removes one user; everyone else unchanged |
| Tables.Table.Insert | convex/analisis.ts:38-46 | `insert`: the new document is readable under its id, all other ids read as before, and well-formedness is kept |
| Tables.Table.Update | convex/ordenes.ts:139-142 | `patch`: only the patched id reads differently; ids and order are unchanged |
| Tables.Table.Delete | convex/ordenes.ts:152 | `delete`: the id reads as missing, all other ids read as before, and one id leaves the order |
| Tables.DocListed | convex/analisis.ts:7 | `collect()` lists a document exactly when it is the stored document under its id |
| Tables.CountWhere | convex/dashboard.ts:6-13 | the count of listed documents passing a filter is the number of stored documents that pass: 0 iff none passes, the table size iff all pass |
| Tables.CountPassing | convex/dashboard.ts:5-13 | filtering the listed documents keeps one per stored document that passes, so the count is the size of the passing id set |
| Common.Filter | convex/dashboard.ts:6-8 | `filter` keeps exactly the elements that pass, and never more than there were |
| Common.FilterAppend | app/analysis/create/page.tsx:65 | filtering distributes over concatenation, so kept elements keep their order |
| Text.Trim | app/analysis/create/page.tsx:65 | the trimmed string is no longer than the original and neither starts nor ends with whitespace |
| Text.TrimFactor | convex/users.ts:10 | what `trim` keeps is a factor of the string, and everything cut off at either end is whitespace |
| Text.TrimEmptyIffBlank | app/analysis/create/page.tsx:65 | `field.trim() !== ""` holds exactly when the field has a non-whitespace character |
| Text.ToLowerIdempotent | app/samples/page.tsx:161 | lower-casing twice is lower-casing once |
| Text.IncludesAt | app/samples/page.tsx:163 | `includes` holds exactly when the term occurs at some position |
| Text.MatchesTermIgnoresCase | app/samples/page.tsx:161-165 | the search gives the same answer for a term and its lower-cased form |
| AnalisisApi.ObtenerAnalisis | convex/analisis.ts:6-8 | lists every analysis once, and only stored analyses |
| AnalisisApi.ObtenerAnalisisPorId | convex/analisis.ts:14-16 | the stored analysis, or none exactly when the id is missing |
| AnalisisApi.NewAnalisis | convex/analisis.ts:37-46 | `createdAt` and `updatedAt` are the same single clock reading |
| AnalisisApi.CrearAnalisis | convex/analisis.ts:35-46 | inserts the five given fields under a fresh id; only the catalog and the id counter change |
| AnalisisApi.Overwritten | convex/analisis.ts:67-75 | all five fields are overwritten, `updatedAt` is set and `createdAt` is kept |
| AnalisisApi.ActualizarAnalisis | convex/analisis.ts:66-76 | overwrites an existing analysis; a missing id fails and changes nothing |
| AnalisisApi.EliminarAnalisis | convex/analisis.ts:84-85 | removes only that analysis; orders and samples that hold its id are untouched |
| OrdenesApi.NewOrder | convex/ordenes.ts:89-101 | the stored order carries exactly the caller's arguments, with no recomputation |
| OrdenesApi.CrearOrden | convex/ordenes.ts:88-102 | inserts that order under a fresh id; nothing is validated |
| OrdenesApi.Patched | convex/ordenes.ts:137-142 | each supplied field is replaced, every absent field is kept, and `updatedAt` is set |
| OrdenesApi.PatchLaws | convex/ordenes.ts:137-142 | an empty patch moves only `updatedAt`; applying a patch twice equals applying it once |
| OrdenesApi.ActualizarOrden | convex/ordenes.ts:136-143 | patches an existing order; a missing id fails and changes nothing |
| OrdenesApi.EliminarOrden | convex/ordenes.ts:151-152 | removes only that order; its samples stay in place |
| OrdenesApi.ObtenerOrdenPorId | convex/ordenes.ts:14-16 | the stored order unchanged, or none exactly when it is missing |
| OrdenesApi.WithUser | convex/ordenes.ts:26-31 | the order joined with its user's name and email, or "Usuario no encontrado"/"N/A" when the user is missing |
| OrdenesApi.ObtenerOrdenesConUsuario | convex/ordenes.ts:21-36 | one entry per order, newest first, each the stored order joined with its user |
| OrdenesApi.EveryOrderJoined | convex/ordenes.ts:22-33 | an order id appears in the joined list iff the order is stored |
| OrdenesApi.ObtenerOrdenPorIdConUsuario | convex/ordenes.ts:41-55 | null iff the order is absent; otherwise the order with the same join as the list |
| MuestrasApi.Freeze | convex/muestras.ts:56-61 | the results template has one entry per parameter of the analysis |
| MuestrasApi.FreezeCopiesTemplate | convex/muestras.ts:56-61 | each entry copies its parameter's three texts in order and has a null value; dropping the values gives the parameters back |
| MuestrasApi.NewSample | convex/muestras.ts:63-70 | a new sample carries the order id and the item's analysis id, state `procesando`, and the frozen template |
| MuestrasApi.Known | convex/muestras.ts:49-53 | the line items whose analysis exists |
| MuestrasApi.GeneratedPerKnownItem | convex/muestras.ts:48-72 | one sample per line item whose analysis exists, in line-item order, each for the right analysis with state `procesando` and the frozen template |
| MuestrasApi.AllGeneratedIffAllKnown | convex/muestras.ts:48-53 | every line item yields a sample iff every item's analysis exists |
| MuestrasApi.GeneratedStep | convex/muestras.ts:48-72 | each loop turn appends the item's sample when its analysis exists, and nothing otherwise |
| MuestrasApi.ExtendsByInsert | convex/muestras.ts:63-71 | inserting one more sample under a fresh id extends the table by that sample and keeps the earlier rows |
| MuestrasApi.InsertGenerated | convex/muestras.ts:48-72 | the loop adds exactly the generated samples under fresh ids, in order, and returns those ids; existing samples are kept |
| MuestrasApi.GenerarMuestrasDeOrden | convex/muestras.ts:40-75 | fails iff the order is missing, and then inserts nothing and takes no id; otherwise adds the samples of its line items |
| MuestrasApi.Filled | convex/muestras.ts:93-97 | results replaced wholesale, state `finalizada` whatever it was, `updatedAt` set, the rest kept |
| MuestrasApi.FilledIdempotent | convex/muestras.ts:93-97 | filling twice with the same results equals filling once |
| MuestrasApi.LlenarResultadosMuestra | convex/muestras.ts:92-99 | fills an existing sample; a missing id fails and changes nothing |
| MuestrasApi.SamplePatched | convex/muestras.ts:122-126 | only the supplied `estado`/`resultados` change, plus `updatedAt` |
| MuestrasApi.PatchAgreesWithFill | convex/muestras.ts:93-97 | a patch of results together with `finalizada` is a fill; an empty patch moves only `updatedAt` |
| MuestrasApi.ActualizarMuestra | convex/muestras.ts:121-128 | patches one existing sample and no other; a missing id fails and changes nothing |
| MuestrasApi.EliminarMuestra | convex/muestras.ts:29-32 | removes that sample only |
| MuestrasApi.ObtenerMuestrasPorOrden | convex/muestras.ts:167-172 | exactly the stored samples of that order |
| MuestrasApi.PaidOrdersOf | convex/muestras.ts:137-141 | exactly the stored orders of that user with `statusPago` "pagado" |
| MuestrasApi.FinishedOf | convex/muestras.ts:149-153 | exactly the finished samples of one order |
| MuestrasApi.FinishedOfAllMembers | convex/muestras.ts:147-156 | a sample is in the concatenation iff it is finished and belongs to one of the orders |
| MuestrasApi.ObtenerMuestrasDeUsuarioFiltradas | convex/muestras.ts:136-159 | the loop concatenates each paid order's finished samples; the result is empty when there is no paid order |
| MuestrasApi.UserFinishedSamples | convex/muestras.ts:137-158 | a sample is returned iff it is stored, finished, and belongs to a paid order of that user |
| MuestrasApi.PatientOf | convex/muestras.ts:186-188 | the patient exists iff the sample's order and that order's user both exist |
| MuestrasApi.WithDetails | convex/muestras.ts:184-196 | a dangling analysis, order or user gives "Análisis Desconocido"/"Paciente Desconocido"/"N/A", never a failure |
| MuestrasApi.GetSamplesWithDetails | convex/muestras.ts:176-199 | one entry per sample, newest first, each joined with its details |
| MuestrasApi.EverySampleDetailed | convex/muestras.ts:178-198 | a sample id appears in the detailed list iff the sample is stored |
| MuestrasApi.GetSampleDetailsById | convex/muestras.ts:206-226 | null iff the sample is missing; otherwise the names the list shows, plus the description or "Sin descripción." |
| UsersApi.FullNameBoth | convex/users.ts:10 | with both parts present and clean, the name is `first + " " + last` |
| UsersApi.FullNameOne | convex/users.ts:10 | with one part present and clean, the name is that part without the joining space |
| UsersApi.FullNameNone | convex/users.ts:10 | with neither part a string, the name is empty |
| UsersApi.Matches | convex/users.ts:13-15 | exactly the users whose `idClerk` is the given id |
| UsersApi.FindByClerkId | convex/users.ts:13-16 | `.unique()` finds nothing iff no user has the id, the one holder when there is exactly one, and reports several iff two distinct users hold it |
| UsersApi.NewUser | convex/users.ts:26-32 | the inserted user: the provider id, the built name, the first email, and both timestamps from the event |
| UsersApi.Resynced | convex/users.ts:19-23 | only `nombre`, `correo` and `updatedAt` change; `idClerk` and `createdAt` are kept |
| UsersApi.UpdateKeepsLookup | convex/users.ts:18-23 | a resync keeps the provider id naming exactly that user |
| UsersApi.InsertMakesLookup | convex/users.ts:25-32 | after an insert, the provider id names exactly the new user |
| UsersApi.UpsertFromClerk | convex/users.ts:9-35 | fails on a missing email, then on a duplicated id, leaving users unchanged; otherwise resyncs the match or inserts one new user, after which the id names exactly one user |
| UsersApi.DeleteClearsLookup | convex/users.ts:48-49 | deleting the one holder leaves no user with that provider id |
| UsersApi.DeleteFromClerk | convex/users.ts:42-52 | deletes the one holder; does nothing when there is none; fails on a duplicated id; afterwards no user holds the id |
| DashboardApi.GetDashboardStats | convex/dashboard.ts:4-23 | pending samples are exactly the number of stored samples not finished, unpaid orders exactly the number of stored orders with a pending payment (each 0 iff none, the table size iff all); users is the size of the user table |
| DashboardApi.PendingCount | convex/dashboard.ts:5-8 | the pending counter is the number of stored samples not finished, 0 iff all are finished |
| DashboardApi.UnpaidCount | convex/dashboard.ts:10-13 | the unpaid counter is the number of stored orders with a pending payment, 0 iff none is pending |
| DashboardApi.Occurrences | convex/dashboard.ts:33-37 | a count is 0 exactly when the id does not occur |
| DashboardApi.FirstSeen | convex/dashboard.ts:33-39 | the record's keys: each distinct id once, and only ids that occur |
| DashboardApi.AnalysisLabel | convex/dashboard.ts:31-41 | "Desconocido" exactly when the id is not in the catalog or its name is empty (or itself "Desconocido"); otherwise the analysis's name |
| DashboardApi.ChartOf | convex/dashboard.ts:39-44 | one entry per key, with the key's label and count |
| DashboardApi.TotalOfAppend | convex/dashboard.ts:33-37 | one more sample adds one to the total of a chart over distinct keys iff its id is a key |
| DashboardApi.ChartTotal | convex/dashboard.ts:33-44 | the chart's totals add up to the number of samples |
| DashboardApi.ChartBars | convex/dashboard.ts:39-44 | every bar counts at least one sample, of an id that occurs |
| DashboardApi.SampleAnalysisIds | convex/dashboard.ts:28-34 | the analysis id of each sample, in creation order |
| DashboardApi.CountByAnalysis | convex/dashboard.ts:33-37 | the `reduce` yields the keys in first-seen order, and for each id its number of samples |
| DashboardApi.GetSamplesByAnalysis | convex/dashboard.ts:27-47 | the chart is the specified chart over the samples' analysis ids |
| DashboardApi.Weekday | convex/dashboard.ts:65-66 | `getDay()` is a weekday index below 7 |
| DashboardApi.WeekdayLaws | convex/dashboard.ts:65-66 | the epoch is a Thursday (4) in UTC, and a day later is the next weekday |
| DashboardApi.DayCount | convex/dashboard.ts:64-68 | a bucket never counts more orders than there are |
| DashboardApi.DayHistogram | convex/dashboard.ts:54-62 | exactly 7 buckets, named Dom, Lun, Mar, Mié, Jue, Vie, Sáb in that order |
| DashboardApi.DaysCoverAll | convex/dashboard.ts:64-68 | every order falls in exactly one of the seven weekdays |
| DashboardApi.HistogramTotal | convex/dashboard.ts:64-68 | the seven buckets add up to the number of orders |
| DashboardApi.OrderTimes | convex/dashboard.ts:52-65 | the creation time of each order, in creation order |
| DashboardApi.GetOrdersByDayOfWeek | convex/dashboard.ts:51-71 | the loop over the 7-slot array yields the specified histogram |
| Paging.SliceIndex | app/orders/page.tsx:63-66 | `slice` clamps an index to the list, and a negative one counts back from the end |
| Paging.Slice | app/orders/page.tsx:63-66 | `slice(a, b)` is the run between the clamped indices, or empty when they cross |
| Paging.TotalPages | app/orders/page.tsx:68 | `Math.ceil(n / perPage)`: the fewest pages that hold `n` entries; 0 iff there are none |
| Paging.PageContents | app/samples/page.tsx:169-173 | a page holds at most `perPage` entries, is the run from its first index, and is non-empty iff it is at most `TotalPages` |
| Paging.PagesUpToPrefix | app/samples/page.tsx:169-175 | the first `n` pages are the first `n * perPage` entries, in order |
| Paging.PagesCoverList | app/samples/page.tsx:169-175 | pages 1 to `TotalPages` hold every entry exactly once, in list order |
| SamplesPage.SampleBadge | app/samples/page.tsx:76-87 | finalizada→default, procesando→secondary, sin tomar→destructive; the outline default is unreachable |
| SamplesPage.ResultsActionLabel | app/samples/page.tsx:241-246 | "Agregar Resultados" iff the sample is not finished, "Editar Resultados" iff it is |
| SamplesPage.SamplesList.constructor | app/samples/page.tsx:155 | an empty search on page 1 over the query's rows |
| SamplesPage.SamplesList.Filtered | app/samples/page.tsx:159-167 | exactly the rows whose analysis name, patient name or patient email contains the term, ignoring case |
| SamplesPage.SamplesList.Paginated | app/samples/page.tsx:169-173 | at most 8 matching rows, and non-empty iff the page exists |
| SamplesPage.SamplesList.TotalPages | app/samples/page.tsx:175 | enough pages of 8 for the matches; 0 iff nothing matches |
| SamplesPage.SamplesList.Search | app/samples/page.tsx:274 | a new term resets the page to 1 |
| SamplesPage.SamplesList.Previous | app/samples/page.tsx:359 | `max(1, p - 1)`: never below 1, and stays within the pages |
| SamplesPage.SamplesList.Next | app/samples/page.tsx:367 | `min(totalPages, p + 1)`: never past the last page |
| SamplesPage.SamplesList.Refresh | app/samples/page.tsx:155 | new query rows replace the old; search and page are kept |
| SamplesPage.EmptySearchKeepsAll | app/samples/page.tsx:159-166 | an empty search keeps every row |
| SamplesPage.PagesShowAllMatches | app/samples/page.tsx:169-175 | walking pages 1 to `totalPages` shows every match once, in order |
| OrdersPage.OrderBadge | app/orders/page.tsx:24-32 | pagado→default, reembolsado→secondary, pendiente→destructive, anything else→outline, each an iff |
| OrdersPage.StatusBadges | app/orders/page.tsx:24-32 | the four stored statuses get four badges, cancelado the outline one |
| OrdersPage.Balance | app/orders/page.tsx:134 | the outstanding balance is 0 iff paid equals total, positive iff underpaid, and paid plus balance is the total |
| OrdersPage.OrdersList.constructor | app/orders/page.tsx:36-39 | an empty search on page 1 over the query's rows |
| OrdersPage.OrdersList.Filtered | app/orders/page.tsx:54-61 | exactly the rows whose user name, email or payment status contains the term, ignoring case |
| OrdersPage.OrdersList.Paginated | app/orders/page.tsx:63-66 | at most 5 matching rows, and non-empty iff the page exists |
| OrdersPage.OrdersList.TotalPages | app/orders/page.tsx:68 | enough pages of 5 for the matches; 0 iff nothing matches |
| OrdersPage.OrdersList.Search | app/orders/page.tsx:91-94 | a new term resets the page to 1 |
| OrdersPage.OrdersList.Previous | app/orders/page.tsx:213 | `max(p - 1, 1)`: never below 1, and stays within the pages |
| OrdersPage.OrdersList.Next | app/orders/page.tsx:215 | `min(p + 1, totalPages)`: never past the last page |
| OrdersPage.OrdersList.HandleEliminar | app/orders/page.tsx:42-44 | deleting only logs: nothing changes |
| OrdersPage.OrdersList.Refresh | app/orders/page.tsx:36 | new query rows replace the old; search and page are kept |
| OrdersPage.EmptySearchKeepsAll | app/orders/page.tsx:54-61 | an empty search keeps every row |
| OrdersPage.StatusSearchFindsAll | app/orders/page.tsx:59 | searching for a status's text finds every order in that status |
| OrdersPage.PagesShowAllMatches | app/orders/page.tsx:63-68 | walking pages 1 to `totalPages` shows every match once, in order |
| UsersTable.PreviousAsWritten | app/users/_userTable.tsx:146 | "Previous" asks for page `p - 1`, with no lower bound |
| UsersTable.NextAsWritten | app/users/_userTable.tsx:164 | "Next" asks for page `p + 1`, with no upper bound |
| UsersTable.PagingPastTheEnds | app/users/_userTable.tsx:146-164 | with 9 users, "Previous" from page 1 and "Next" from page 2 both show an empty page |
| UsersTable.NegativePageWraps | app/users/_userTable.tsx:146-147 | a second "Previous" asks for page -1, whose slice is users 2 to 9, a window that is none of the pages |
| UsersTable.ClampPage | app/users/_userTable.tsx:57 | the requested page clamped to the pages that exist: at least 1, at most the last, unchanged when it exists |
| UsersTable.ClampedPagingShowsUsers | app/users/_userTable.tsx:146-164 | with the clamp, "Previous" from page 1 stays there, and every page reached shows users when there are any |
| UsersTable.UsersList.constructor | app/users/_userTable.tsx:27-29 | an empty search on page 1 over the query's users |
| UsersTable.UsersList.Filtered | app/users/_userTable.tsx:41-44 | exactly the users whose name or email contains the term, ignoring case |
| UsersTable.UsersList.CurrentUsers | app/users/_userTable.tsx:47-49 | the slice `[p*8-8, p*8)`: at most 8 matching users, non-empty iff the page exists |
| UsersTable.UsersList.TotalPages | app/users/_userTable.tsx:50 | enough pages of 8 for the matches; 0 iff nothing matches |
| UsersTable.UsersList.PageLinks | app/users/_userTable.tsx:150-160 | the links are numbered 1 to `totalPages` |
| UsersTable.UsersList.HandleSearchChange | app/users/_userTable.tsx:52-55 | a new term resets the page to 1 |
| UsersTable.UsersList.Paginate | app/users/_userTable.tsx:57 | a numbered link sets the page it names |
| UsersTable.UsersList.Previous | app/users/_userTable.tsx:146 | corrected: "Previous" lands on the clamped page, never below 1 |
| UsersTable.UsersList.Next | app/users/_userTable.tsx:164 | corrected: "Next" lands on the clamped page, never past the last |
| UsersTable.UsersList.Refresh | app/users/_userTable.tsx:27 | new query rows replace the old; search and page are kept |
| UsersTable.OneActiveLink | app/users/_userTable.tsx:150-160 | exactly one link is active when the current page exists, and none otherwise |
| UsersTable.EmptySearchKeepsAll | app/users/_userTable.tsx:41-44 | an empty search keeps every user |
| UsersTable.PagesShowAllMatches | app/users/_userTable.tsx:47-50 | following links 1 to `totalPages` shows every match once, in order |
| OrderForm.ItemChanged | app/orders/create/page.tsx:142-162 | a known analysis sets name, price and `subtotal = cantidad * costo`; an unknown one zeroes price and subtotal; a new quantity or price reprices |
| OrderForm.SubtotalSumUpdate | app/orders/create/page.tsx:108 | changing one item changes the sum by the change in its subtotal |
| OrderForm.DiscountAmount | app/orders/create/page.tsx:110 | no discount at 0 %, the whole subtotal at 100 %, never negative on non-negative inputs |
| OrderForm.DiscountedTotal | app/orders/create/page.tsx:111-112 | the subtotal less the discount, floored at 0 |
| OrderForm.DiscountLaws | app/orders/create/page.tsx:107-113 | between 0 and 100 %, total plus discount is the subtotal and the total is at most the subtotal; above 100 % the total is 0 |
| OrderForm.CreateOrderForm.constructor | app/orders/create/page.tsx:96-105 | no user, pending cash payment, one blank item, total 0, empty inputs |
| OrderForm.CreateOrderForm.RecomputeTotal | app/orders/create/page.tsx:107-113 | the effect restores `totalPago` as the discounted sum of the subtotals |
| OrderForm.CreateOrderForm.HandleItemChange | app/orders/create/page.tsx:142-166 | only item `index` is replaced, by the changed item; the total follows |
| OrderForm.CreateOrderForm.AddOrderItem | app/orders/create/page.tsx:168-173 | one blank item at the end; the total is unchanged |
| OrderForm.CreateOrderForm.RemoveLastOrderItem | app/orders/create/page.tsx:175-182 | drops the last item only when there are several, so there is always one |
| OrderForm.CreateOrderForm.SetDescuento | app/orders/create/page.tsx:107-113 | the discount input changes and the total follows |
| OrderForm.CreateOrderForm.SelectUser | app/orders/create/page.tsx:133 | the chosen user is recorded |
| OrderForm.CreateOrderForm.SetMontoPagado | app/orders/create/page.tsx:129 | the amount-paid input is recorded |
| OrderForm.CreateOrderForm.Submission | app/orders/create/page.tsx:184-216 | refused iff there is no user, no amount paid, or an item without an analysis; otherwise the items pass through field for field and `descuento` is the amount, not the percentage |
| OrderForm.SubmissionConsistent | app/orders/create/page.tsx:197-215 | with a 0-100 % discount on non-negative lines, the sent total plus the sent discount is the sum of the subtotals |
| AnalysisForm.KeptFields | app/analysis/create/page.tsx:65 | exactly the fields with a non-whitespace character |
| AnalysisForm.KeptFieldsAppend | app/analysis/create/page.tsx:65 | kept fields keep their order: one more field is appended iff it is not blank |
| AnalysisForm.CreateAnalysisForm.constructor | app/analysis/create/page.tsx:24-51 | one empty parameter field, every input empty |
| AnalysisForm.CreateAnalysisForm.AddField | app/analysis/create/page.tsx:27-29 | appends one empty field |
| AnalysisForm.CreateAnalysisForm.RemoveLastField | app/analysis/create/page.tsx:32-36 | drops the last field only when there are several, so there is always one |
| AnalysisForm.CreateAnalysisForm.HandleChangeArray | app/analysis/create/page.tsx:39-43 | only position `index` changes |
| AnalysisForm.CreateAnalysisForm.HandleChange | app/analysis/create/page.tsx:55-58 | the named input takes the value; the other three are kept |
| AnalysisForm.CreateAnalysisForm.Submission | app/analysis/create/page.tsx:60-87 | refused for an empty waiting time or cost first, then iff every parameter is blank; otherwise sends the inputs and the non-blank parameters in order |

## Left out

- Parsing and formatting of numbers (`Number`, `parseInt`, `parseFloat`, `Intl.NumberFormat`, `toLocaleDateString`) are left out. Amounts are reals. An empty or unreadable form input is `None`. The analysis form keeps its two numeric inputs as the typed strings.
- `Date.now()` is a parameter (`now`), or a `clock` indexed by reading, for `generarMuestrasDeOrden`. That mutation reads the clock twice per sample, so `createdAt` and `updatedAt` may differ.
- `new Date(t).getDay()` is modelled with one fixed offset from UTC. Daylight-saving changes and the browser's time zone rules are left out.
- `toLowerCase` is modelled for ASCII and Latin-1 letters only. `includes` is a plain substring test on characters (Unicode scalar values); differences from JavaScript's UTF-16 code units for surrogate pairs are left out. Other Unicode case mappings are left out.
- The platform runtime is left out: indexes, `Promise.all`, transactions and the `_id`/`_creationTime` internals. `_creationTime` is kept only on orders, which the weekday chart reads. Every table's creation order is its `order` sequence.
- The sample-generation loop collects its writes in local variables and commits them when it returns, as the platform commits a mutation. Interleaving with other mutations is not modelled.
- Console output (`console.log`/`console.warn`), alerts, toasts, error messages, `router.push`, the PDF ticket, popovers and all rendering are left out.
- A query still loading (`undefined`) is modelled as an empty list. The loading placeholders are not modelled.
- The model does not chain `OrderForm.CreateOrderForm.Submission` to `OrdenesApi.CrearOrden`. `Submission` only builds the arguments that `CrearOrden` accepts.
- The order form's analysis and user pickers, `selectedAnalisisNames` and the popover state are not modelled. Only the item fields they set are.
- `obtenerMuestras`, `obtenerMuestraPorId` (convex/muestras.ts:7-22) and `obtenerOrdenes` (convex/ordenes.ts:5-9) are plain `collect`/`get` reads. They are the same reads as `AnalisisApi.ObtenerAnalisis` and `AnalisisApi.ObtenerAnalisisPorId` on another table (`Tables.Table.Get`, `Tables.DocListed`), and have no members of their own.
- The `consultusers` query that feeds the users table and the order form is not part of this model. Its result is the `rows` the pages receive.
- Clerk authentication and webhooks are not part of this model. Only the upsert and delete handlers are.
- `UsersApi.UpsertFromClerk`: the event is typed (`ClerkUser`), so a non-string name part is `None`. Other malformed payloads, which `v.any()` would accept, are not modelled.
- `SamplesPage.SampleBadge`: the `default` → outline branch cannot be reached for a stored state, so the contract states that no state gets the outline badge.
- `Paging.TotalPages` and the pages assume a positive page size, as all three pages use constants 5 and 8.

## Findings

| source | as written | input that shows it | evidently intended | confidence | as-written member | corrected member |
|---|---|---|---|---|---|---|
| app/users/_userTable.tsx:146-164 | "Previous" and "Next" call `paginate(currentPage - 1)` and `paginate(currentPage + 1)` with no clamp. The disabled style only stops mouse clicks; the link can still be activated from the keyboard. | 9 users, page 1, "Previous": page 0, whose slice is empty. Page 2, "Next": page 3, also empty. 17 users, page 0, "Previous" again: page -1, and `slice(-16, -8)` shows users 2 to 9. | the page stays within 1..`totalPages`, as the samples and orders pages do with `Math.max`/`Math.min` | not executed | UsersTable.PreviousAsWritten, UsersTable.NextAsWritten (UsersTable.PagingPastTheEnds, UsersTable.NegativePageWraps) | UsersTable.ClampPage (UsersTable.ClampedPagingShowsUsers), used by UsersTable.UsersList.Previous and UsersTable.UsersList.Next |
