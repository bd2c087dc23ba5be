# Scrap-metal purchase backend, modelled in Dafny

This project models the backend of a scrap-metal yard's point of sale.
Executives buy metal by weight from walk-in customers. Each purchase records:

- a header (`transacciones`) with the customer and the total paid;
- one line per metal (`transaccion_detalles`), which keeps the price per
  kilo applied at that moment.

An administrator maintains:

- the catalog of metals and prices (`metales`);
- the branches (`sucursales`);
- the users (`usuarios`).

Every request passes a token gate, and the administration routes also pass
a role gate.

The modules follow the backend's files:

| module | models |
|---|---|
| `Common`, `Sorting`, `Schema` | shared vocabulary: optional fields and JavaScript truthiness, `Math.round`, calendar days, sums; `ORDER BY` as a stable sort; the table rows and token claims |
| `Database` | the `Store` class: the metal catalog (a map from id to row), the purchase headers and lines (sequences, in insertion order) and the two SERIAL id sequences; its invariant says every line belongs to a recorded header, refers to a catalogued metal, has a positive weight and `subtotal = weight × price`, and every header's total is the sum of its lines |
| `TransaccionController` | `crearTransaccion` as a method on the `Store`: the validation loop, price lookup, the subtotal/total loop, and the BEGIN … COMMIT unit of work with ROLLBACK on any failing statement |
| `TransaccionListado` | `listarTransacciones` (sort allow-list, ASC/DESC, the WHERE/`$n` builder, LIMIT/OFFSET, `total` and `totalPages`) and `obtenerTransaccion` |
| `ReporteDiario` | `obtenerReporteDiario` (group by metal name over today's lines, ordered by kilos) and the row mapping of the Excel export |
| `MetalController` | `listarMetales`, `crearMetal`, `actualizarMetal` (with its dynamic UPDATE builder) as methods on the `Store` |
| `AuthMiddleware`, `AdminMiddleware` | the token gate and the ADMIN role gate, and the two chained as the administration routes mount them |
| `AuthController` | the login decision ladder and the token it issues |
| `UserController`, `SucursalController` | user and branch management as functions from the table before a request to the table after it and the response |
| `Escenarios` | the two purchase scenarios in `backend/tests/transacciones.test.js`, played against the model |

Parameters stand in for the outside world:

- The database clock (`CURRENT_TIMESTAMP`, `CURRENT_DATE`) is a parameter `ahora`/`hoy`.
- A failing statement inside the purchase's unit of work is a parameter `falla`.
- JWT signing and verification, and bcrypt hashing and comparison, are function parameters (`sign`, `verify`, `hash`, `compare`).
- Instants are whole seconds and dates are day numbers; `DayOf` and `StartOfDay` relate the two.

The model follows the code where it departs from the documented design:

- A purchase naming an unknown metal, or the same metal twice, is answered with 500, not with a client error. The price query then returns fewer rows than there are lines, and the handler throws.
- There is no price override: every line is priced at the catalog price.
- The end of the listing's date range is compared as the handler writes it, `t.fecha_hora <= $n`, so purchases made on the end day after midnight are not listed (see Findings). The corrected comparison by calendar day is modelled beside it, selected by `TransaccionListado.FinRango`.
- `total` is 0 when the requested page is past the end. The count comes from the rows returned (`COUNT(*) OVER()` on an empty page yields no row).
- Renaming a metal to a name another metal has is answered with 500. `actualizarMetal` has no case for the unique violation, unlike `crearMetal`.
- `actualizarSucursal` validates nothing and stores `null` for a field the body leaves out.
- A line whose `metal_id` is 0, or whose weight is 0, is rejected by the truthiness tests.

## Model

| member | source | states |
|---|---|---|
| Common.MathRound | backend/controllers/metalController.js:24 | the stored price is an integer within half a unit of the given value (`x - 0.5 < r <= x + 0.5`) |
| Common.DayOf | backend/controllers/transaccionController.js:239 | `fecha_hora::date`: the day whose 86400-second span contains the instant |
| Common.StartOfDayOrder | backend/controllers/transaccionController.js:131-137 | comparing an instant with the first instant of a date agrees with comparing calendar days: at or after the start of `d` iff on day `d` or later; before the start of `d+1` iff on day `d` or earlier |
| Sorting.SortBy | backend/controllers/transaccionController.js:164 | ORDER BY returns exactly the rows it was given (same multiset) |
| Sorting.SortBySorted | backend/controllers/transaccionController.js:164 | the rows come out ordered by the key in the requested direction |
| Sorting.SortByOfSorted | backend/controllers/userController.js:46 | rows already in key order come out unchanged |
| Database.LinesOf | backend/controllers/transaccionController.js:155-157 | `WHERE td.transaccion_id = t.id`: a stored line is returned exactly when it belongs to that purchase |
| Database.LinesOfInOrder | backend/controllers/transaccionController.js:155-157 | the lines returned are the stored lines of that purchase in table order, the general row selection on `transaccion_id` |
| Database.HeaderIffLines | backend/controllers/transaccionController.js:62-84 | in a valid ledger a purchase id has a header exactly when it has lines (no header without lines, no orphan line) |
| Database.NoLinesBeyondSequence | backend/controllers/transaccionController.js:62-75 | no stored line refers to an id the header sequence has not handed out yet |
| Database.AppendPurchaseKeepsLedger | backend/controllers/transaccionController.js:62-86 | appending a fresh header together with its valid lines, when the header total is the sum of their subtotals, keeps every ledger invariant |
| Database.CatalogGrowthKeepsLedger | backend/controllers/metalController.js:25-28 | adding metals to the catalog never invalidates recorded purchases |
| Database.Store.Registrar | backend/controllers/transaccionController.js:62-86 | the committed purchase adds exactly its header and its lines, leaves the catalog and both id sequences as they were, and keeps every store invariant |
| TransaccionController.PrimeraLineaInvalida | backend/controllers/transaccionController.js:18-22 | the validation loop reports no line exactly when every line has a non-zero metal id and a positive weight; otherwise it reports the first bad line, all before it being valid |
| TransaccionController.Lineas | backend/controllers/transaccionController.js:31-49 | one validated line per requested line, in request order: line `i` carries requested line `i`'s metal id (non-zero) and weight (positive) |
| TransaccionController.PreciosCompletosIff | backend/controllers/transaccionController.js:31-36 | the price query returns as many rows as there are lines exactly when every requested id is catalogued and no id repeats |
| TransaccionController.CalcularDetalles | backend/controllers/transaccionController.js:41-59 | the accumulating loop yields each line priced at its metal's catalog price, in request order, and `total_pagar` equal to the sum of their subtotals |
| TransaccionController.FilasSuman | backend/controllers/transaccionController.js:72-84 | the stored lines' subtotals add up to the computed total |
| TransaccionController.FilasDelPedido | backend/controllers/transaccionController.js:38-84 | stored line `i` carries the new purchase id, the metal and weight of requested line `i`, the catalog price as applied price, and weight × price as subtotal |
| TransaccionController.CrearTransaccion | backend/controllers/transaccionController.js:4-115 | an invalid request gives 400 and touches nothing; the error is the missing-data one iff the client name or the line list is missing or empty, and otherwise names the first rejected line. An unknown or repeated metal gives 500 and records nothing. A failing statement gives 500 naming that statement and records nothing. Otherwise it gives 201, and exactly one header (user and branch from the token, total = sum of subtotals) plus one line per requested metal are appended, with the voucher reporting the same. The header id is consumed iff the header INSERT ran. The store invariant is kept. |
| MetalController.CrearMetal | backend/controllers/metalController.js:15-40 | 400 with nothing changed iff the name is empty or the price missing. 400 iff the name is taken, and then the catalog is unchanged but one id is consumed. Otherwise 201 and the catalog gains exactly one row under a fresh id, with the rounded price. Purchases are untouched and the store invariant is kept. |
| MetalController.ConstruirActualizacion | backend/controllers/metalController.js:49-65 | the built UPDATE numbers its placeholders `$1..$k` consecutively with one value each, binds the row id to the last one, and its SET list changes exactly `updated_at`, the name if one non-empty was sent, and the rounded price if one was sent |
| MetalController.AplicarConstruida | backend/controllers/metalController.js:50-62 | executing the built SET list on any row gives the intended update |
| MetalController.ActualizarMetal | backend/controllers/metalController.js:43-82 | 404 iff the id is absent, and 500 iff the new name belongs to another metal; in both cases nothing changes. 200 iff the id exists and the new name is free, and then only that row changes, to the intended update. Recorded purchase lines keep their applied prices, and the invariant is kept. |
| MetalController.ListarMetales | backend/controllers/metalController.js:4-7 | every catalogued metal exactly once (as a multiset), in strictly ascending name order |
| TransaccionListado.ElegirCampo | backend/controllers/transaccionController.js:122-123 | an allowed sort field is used as given; anything else, or none, falls back to `id` |
| TransaccionListado.EsDescendente | backend/controllers/transaccionController.js:124 | ascending exactly when the order parameter is some capitalisation of `asc`; descending otherwise, including when absent |
| TransaccionListado.AgregarCondicion | backend/controllers/transaccionController.js:130-142 | pushing a condition on the next placeholder with its value keeps the numbering consecutive and adds exactly that conjunct to the WHERE clause |
| TransaccionListado.EtapaDesde | backend/controllers/transaccionController.js:131-134 | with a start date, the one condition pushed keeps exactly the purchases whose calendar day is that day or later; without one, nothing is pushed and nothing is excluded |
| TransaccionListado.EtapaHasta | backend/controllers/transaccionController.js:135-138 | with an end date, the condition pushed on the next placeholder additionally keeps exactly the purchases within the end: as written (`t.fecha_hora <= $n`), those made no later than the first instant of the end day; compared by calendar day, those of that day or earlier |
| TransaccionListado.EtapaMetal | backend/controllers/transaccionController.js:139-142 | with a metal id, the EXISTS condition additionally keeps exactly the purchases with at least one line of that metal |
| TransaccionListado.EtapaPaginacion | backend/controllers/transaccionController.js:163-168 | binding the LIMIT and OFFSET values after the filters' values leaves the purchases the WHERE clause selects unchanged |
| TransaccionListado.ConstruirConsulta | backend/controllers/transaccionController.js:119-168 | the built query numbers placeholders consecutively and one-to-one with its values, with LIMIT and OFFSET last, bound to `limit` and `(page-1)*limit` (page 1 and 20 rows when absent); it uses the chosen sort field and direction; and a purchase satisfies its WHERE clause iff its calendar day is on or after the start date, it is within the end date as the chosen end condition compares it, and it has at least one line of the requested metal |
| TransaccionListado.TotalPaginas | backend/controllers/transaccionController.js:183 | `ceil(total/limit)`: the fewest pages of `limit` rows that hold `total` rows, 0 iff there are no rows |
| TransaccionListado.Pagina | backend/controllers/transaccionController.js:165 | LIMIT/OFFSET returns at most `limit` rows |
| TransaccionListado.RecorridoCompleto | backend/controllers/transaccionController.js:165-183 | reading pages 1 to `totalPages` returns every matching row exactly once, in order |
| TransaccionListado.PaginaNoVacia | backend/controllers/transaccionController.js:171-183 | a page has rows exactly when its number is at most `totalPages` |
| TransaccionListado.VistasLineasFieles | backend/controllers/transaccionController.js:149-157 | a purchase shows one entry per recorded line, with its recorded weight, applied price and subtotal, and the entries sum to the recorded subtotals |
| TransaccionListado.VistasLineasSinPrecios | backend/controllers/transaccionController.js:149-157 | the lines shown do not depend on current catalog prices, only on metal names |
| TransaccionListado.ListarTransacciones | backend/controllers/transaccionController.js:117-185 | with the end date compared as written: `data` is the views of the requested page (page 1 and 20 rows when absent) of the filtered, sorted purchases; `total` is the number of matching purchases when the page has rows and 0 otherwise; `totalPages` is `ceil(total/limit)` |
| TransaccionListado.PaginaCumpleFiltro | backend/controllers/transaccionController.js:163-165 | for either end condition, every purchase on a page is a stored purchase that passes the filter, the page holds at most `limit` purchases, and it is in the requested order |
| TransaccionListado.ListadoCompleto | backend/controllers/transaccionController.js:159-163 | for either end condition, a purchase appears on some page iff it is stored and passes that filter, and the total counts exactly the matching purchases |
| TransaccionListado.FinComoEscritoExcluyeElDia | backend/controllers/transaccionController.js:135-137 | as written, the end date keeps, of the purchases made on that day, only one made exactly at midnight |
| TransaccionListado.FinIncluyeElDia | backend/controllers/transaccionController.js:135-137 | the corrected end condition keeps a purchase iff it was made before the start of the following day |
| TransaccionListado.ListadoComoEscritoOmiteElDia | backend/controllers/transaccionController.js:135-137 | as written, a stored purchase made on the end day after midnight appears on no page of the listing |
| TransaccionListado.ListadoPorDiaIncluyeElDia | backend/controllers/transaccionController.js:135-137 | compared by calendar day, a stored purchase of the end day is listed exactly when it passes the other filters |
| TransaccionListado.BuscarCabecera | backend/controllers/transaccionController.js:214 | a header is found iff some stored header has that id, and the one found has it |
| TransaccionListado.ObtenerTransaccion | backend/controllers/transaccionController.js:193-221 | 404 exactly when no header has the id; otherwise the view of the purchase with that id |
| TransaccionListado.ObtenidaCuadra | backend/controllers/transaccionController.js:196-216 | in a valid store a found purchase lists its lines, and they add up to its total |
| ReporteDiario.LineasDelDia | backend/controllers/transaccionController.js:236-239 | a line is joined iff it is stored, its metal is catalogued and its purchase was made today; each joined line is named by the catalog |
| ReporteDiario.Nombres | backend/controllers/transaccionController.js:240 | the group keys: each metal name of today's lines, once |
| ReporteDiario.Agrupar | backend/controllers/transaccionController.js:232-240 | `GROUP BY m.nombre`: no metal has two rows, a metal has a row iff some line is of that metal, and each row holds the sum of kilos and of subtotals over that metal's lines and the number of distinct purchases among them |
| ReporteDiario.ReporteVacio | backend/controllers/transaccionController.js:239-241 | the report is empty exactly when no line was recorded today |
| ReporteDiario.ReporteOrdenado | backend/controllers/transaccionController.js:241 | rows are ordered by total kilos, heaviest first |
| ReporteDiario.FilasSonAgregados | backend/controllers/transaccionController.js:232-240 | every row is the aggregate of its own metal's lines of today, and that metal was sold today |
| ReporteDiario.UnaFilaPorMetal | backend/controllers/transaccionController.js:240 | no two rows are about the same metal |
| ReporteDiario.MetalesDelReporte | backend/controllers/transaccionController.js:236-240 | a metal has a row exactly when some line of today is of that metal |
| ReporteDiario.AgruparConserva | backend/controllers/transaccionController.js:233-240 | grouping neither loses nor duplicates a line: group totals add up to the total over all lines |
| ReporteDiario.ReporteConserva | backend/controllers/transaccionController.js:233-234 | the report's kilos and amounts add up to exactly what today's lines recorded |
| ReporteDiario.CuentaDeCompras | backend/controllers/transaccionController.js:235 | each row counts at least one purchase and no more purchases than it has lines |
| ReporteDiario.ReporteSinPrecios | backend/controllers/transaccionController.js:230-242 | the report does not change when catalog prices change: it reads recorded subtotals only |
| ReporteDiario.Exportar | backend/controllers/transaccionController.js:269-274 | an export row keeps the metal, count and kilos, and rounds the amount to within half a unit |
| ReporteDiario.ExportadoCerca | backend/controllers/transaccionController.js:273 | the sheet's grand total differs from the report's by at most half a unit per row |
| AuthMiddleware.ExtraerToken | backend/middleware/authMiddleware.js:13-15 | with the `Bearer ` prefix the token is the rest of the header (`"Bearer " + token == header`, 7 characters shorter); without it, the whole header |
| AuthMiddleware.ExtraerConPrefijo | backend/middleware/authMiddleware.js:13-15 | prefixing a token and extracting it gives the token back |
| AuthMiddleware.Autenticar | backend/middleware/authMiddleware.js:3-27 | 401 exactly when the header is missing or empty, 401 exactly when verification of the extracted token fails, and otherwise the request goes on with the decoded claims as the user |
| AuthMiddleware.TokenFirmadoPasa | backend/middleware/authMiddleware.js:13-23 | a token the verifier accepts passes with its own claims when sent as `Bearer <token>`, and also bare when it is not empty and does not itself start with the prefix |
| AdminMiddleware.RequiereAdmin | backend/middleware/adminMiddleware.js:1-7 | exactly one outcome: it passes iff there is a user whose role is `ADMIN`, and answers 403 otherwise, including when there is no user |
| AdminMiddleware.CadenaAdminDecide | backend/routes/userRoutes.js:8 | behind both gates the handler runs iff the token verifies to an ADMIN; a verified non-admin gets 403; a missing or bad token gets 401 |
| AdminMiddleware.EjecutivoProhibido | backend/middleware/adminMiddleware.js:2-6 | an executive never passes the role gate |
| AuthController.BuscarPorEmail | backend/controllers/authController.js:15-21 | a user is found iff some user has that e-mail, and the one found is a stored user with it |
| AuthController.Login | backend/controllers/authController.js:5-64 | 400 iff e-mail or password is missing or empty. 403 iff the user exists and is inactive, whatever the password. 401 iff the e-mail is unknown or the active user's password does not match, so both get the same answer. Success otherwise, with a token signed over exactly `{id, email, rol, sucursal_id}` for 8 hours and the user without the hash. |
| AuthController.LoginLuegoAutentica | backend/controllers/authController.js:37-44 | the token a login returns authenticates as that same user, and passes the administration gates exactly when the user is an ADMIN |
| AuthController.AltaLuegoLogin | backend/controllers/authController.js:15-44 | a user just created by the administrator can log in with the e-mail and password given, and is shown the new id, role and branch |
| UserController.SucursalAsignada | backend/controllers/userController.js:22 | a branch is kept exactly for an `EJECUTIVO` that sent one; every other role gets none |
| UserController.CrearUsuario | backend/controllers/userController.js:5-37 | 400 with the table unchanged iff a required field is missing. 400 iff the e-mail is taken, and then only the id sequence moves. Otherwise 201 and the table gains exactly one row: fresh id, the hash of the password, the branch only for an executive, active. The response carries id, e-mail and role only. |
| UserController.CrearConservaValida | backend/controllers/userController.js:16-33 | creating a user keeps ids increasing, e-mails unique and branches only on executives |
| UserController.ListarUsuarios | backend/controllers/userController.js:40-47 | as many rows as users, ordered by id |
| UserController.ListadoEnOrdenDeAlta | backend/controllers/userController.js:42-46 | on a valid table the listing is the table in creation order, each user once with strictly increasing ids, and with the branch name from the left join |
| UserController.NoEjecutivoSinSucursal | backend/controllers/userController.js:22-45 | a user who is not an executive is listed with no branch |
| SucursalController.ListarSucursales | backend/controllers/sucursalController.js:4-12 | every branch once (as a multiset), ordered by id |
| SucursalController.ListadoEnOrdenDeAlta | backend/controllers/sucursalController.js:6 | on a valid table the listing is the table in creation order |
| SucursalController.CrearSucursal | backend/controllers/sucursalController.js:15-32 | 400 with nothing changed iff the name or address is missing or empty; otherwise 201 and the table gains exactly that branch under a fresh id |
| SucursalController.CrearConservaValida | backend/controllers/sucursalController.js:23-26 | creating a branch keeps ids increasing and below the sequence |
| SucursalController.ActualizarSucursal | backend/controllers/sucursalController.js:35-54 | 404 with nothing changed iff no branch has the id; otherwise that branch, and only it, takes the two given values (absent ones as null) and is returned |
| SucursalController.ActualizarConservaValida | backend/controllers/sucursalController.js:40-43 | an update keeps the table valid |
| SucursalController.ActualizarIdempotente | backend/controllers/sucursalController.js:40-43 | sending the same update twice has the effect of sending it once |
| SucursalController.ActualizadaEnListado | backend/controllers/sucursalController.js:6-49 | after an update the listing shows the branch with the new values |
| Escenarios.CompraRegistrada | backend/tests/transacciones.test.js:27-78 | 10 kg of a metal priced 1000 gives 201, correlative 1, total 10000, the token's executive and branch, and exactly one header and one line stored |
| Escenarios.CompraRevertida | backend/tests/transacciones.test.js:80-114 | when the price query fails the answer is 500 and no header or line is stored |

## Left out

- Connection handling is not modelled: the pool, `client.release()`, failures of `db.connect()` or of ROLLBACK itself, concurrent requests and isolation levels. The purchase's unit of work is modelled as all or nothing.
- Route wiring (`backend/routes/*.js`, `backend/index.js`) is only represented by the admin chain `AdminMiddleware.CadenaAdmin`. The configuration controller, `backend/seed.js` and the whole frontend are not part of this model.
- JWT and bcrypt are not modelled: signing, verification, expiry, hashing and comparison are function parameters. `AuthController.LoginLuegoAutentica` and `AuthController.AltaLuegoLogin` state their results under the assumption that the verifier accepts what the signer issues and that comparison accepts a password against its own hash.
- UserController.CrearUsuario: states that the stored credential is the hash of the password under the given salt; that it differs from the plaintext depends on bcrypt and is not stated.
- JavaScript numbers are not modelled: weights are exact reals and prices exact integers. There is no NaN, no `parseFloat`/`parseInt` of malformed strings, and no floating-point rounding in the subtotals.
- Query parameters arrive parsed: `page` and `limit` are integers (1 and 20 when absent) that must be at least 1, dates are day numbers, and the metal filter is an integer. A non-numeric or empty value, `limit = 0` (an infinite `totalPages`) and a non-numeric path id (a database error answered with 500) are left out.
- Date handling assumes one time zone: instants and dates are counted in the database's time zone.
- Text is ordered code point by code point; the database's collation is not modelled. Uppercasing in the order parameter covers ASCII letters only.
- Ties in ORDER BY and the order of `json_agg` are taken to be insertion order; the database leaves both unspecified.
- Database failures outside the purchase (a lost connection during a listing, say, answered with 500) are not modelled. A constraint violation the visible code does not name, such as a foreign key or a NOT NULL, is also left out: the table definitions are not part of this model.
- The spreadsheet file of the Excel export (library calls, cell formats, headers) is not modelled; only its row mapping is.

## Findings

| source | as written | input that shows it | evidently intended | confidence | as-written member | corrected member |
|---|---|---|---|---|---|---|
| backend/controllers/transaccionController.js:135-137 | the end of the date range is `t.fecha_hora <= $n` with `$n` the `YYYY-MM-DD` date from the history screen's date picker, which compares as the first instant of that day | `fecha_fin = d` and a purchase made at one o'clock on day `d`: it is left out of the listing | the end date is inclusive, as the start date is: every purchase made on day `d` is listed | likely; not executed | TransaccionListado.ListadoComoEscritoOmiteElDia | TransaccionListado.ListadoPorDiaIncluyeElDia |
