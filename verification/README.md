# Doces Sabor de Mel — a Dafny model of the order, catalogue and access core

Doces Sabor de Mel is a small order-management application: operators look
up customers, build orders line by line, keep a product catalogue and sign
in with e-mail and password; a relational store holds `pedidos` (orders),
`itens_pedido` (order lines), `clientes`, `produtos` and `usuarios`.

This project models, in Dafny, the parts of it whose behaviour can be
stated exactly:

- **Order creation** (`POST /api/pedidos`): the request checks, the total
  fold, and the transaction `BEGIN` → order `INSERT` → one `INSERT` per line
  → `COMMIT`, with `ROLLBACK` in the `catch`. It is modelled as a class
  `PedidosRoute.Connection`, a pooled connection together with its store:
  - the committed tables, the pending (uncommitted) writes and the open-transaction flag;
  - the checked-out flag, with a counter of checkouts;
  - the store's id and order-number sequences;
  - the log of transaction-control statements.

  A failing statement is chosen by a parameter `failAt`.
- **Client-side order editing**: the line editor (`ItensPedido`), the
  summary and its submit guard (`ResumoPedido`), the order form state
  (`PedidosPage.Formulario`) and the customer search (`BuscaCliente.Busca`).
- **Access and identity**: the middleware redirect rule, the post-login
  landing route, the admin-only dashboard guard, the credentials check with
  its token and session callbacks, registration, password change and the
  profile page's submit.
- **Catalogue and customers**: product and customer search (`ILIKE` with
  `LIMIT 10`) and insertion, the maximum product code, the new-product form's
  input sanitisers and suggested code, and the mobile-phone mask of the
  sign-up page.

Conventions:

- Money (prices, costs, totals) is an integer number of cents.
- bcrypt is a function `Hasher` supplied by the environment: a password
  verifies against a digest exactly when hashing it yields that digest.
- The store's handlers are methods on `Database.Db`, which counts connects and
  releases. `Valid()` requires the two counts to be equal, so "released on
  every path" is part of every handler's postcondition.
- A database exception is the `failAt` index of the statement that throws.
  Statements are counted in the order the handler issues them.
- A string field that JavaScript would treat as falsy is `""`; a nullable
  column is an `Option`.

## Model

| member | source | states |
|---|---|---|
| PedidosRoute.Validate | src/app/api/pedidos/route.ts:43-48 | no 400 exactly when a client is given and the line list is non-empty; a null client gives "Cliente não selecionado", an empty list "O pedido deve ter pelo menos um item" |
| PedidosRoute.NewPedido | src/app/api/pedidos/route.ts:55-61 | the order row has status `pendente`, the client's id, the observations, and as total the fold of the lines' own `total` fields |
| PedidosRoute.ItemRowOf | src/app/api/pedidos/route.ts:70-73 | a line row carries the order's id and the line's product, quantity, unit price and total unchanged |
| PedidosRoute.ApplyAppend | src/app/api/pedidos/route.ts:53-76 | committing two batches of pending writes equals committing them one after the other |
| PedidosRoute.ApplyOrderWrites | src/app/api/pedidos/route.ts:58-76 | committing an order's writes appends exactly that order row and one row per line, in input order, each with the order's id |
| PedidosRoute.ApplyItemWrites | src/app/api/pedidos/route.ts:66-74 | committing the line writes appends one row per line, in order, and leaves the order table alone |
| PedidosRoute.SuccessAddsOneOrder | src/app/api/pedidos/route.ts:58-78 | on a connection with nothing pending, a committed order adds one order row and exactly the rows of its lines |
| PedidosRoute.FirstMissing | src/app/api/pedidos/route.ts:66-69 | the index of the first line without a product (or the line count): every earlier line has one, that line has none |
| PedidosRoute.Connection.constructor | src/app/api/pedidos/route.ts:50 | an idle connection over the given tables: nothing pending, no transaction, empty log; the sequences continue after the stored orders |
| PedidosRoute.Connection.Post | src/app/api/pedidos/route.ts:36-87 | as written: a 400 from the checks touches nothing. Otherwise the connection is checked out once and released. Then one of four outcomes, with id and number advanced once BEGIN succeeds: a reached statement throws → 500, ROLLBACK, nothing committed; all lines have a product → 201 with the new ids, COMMIT of everything pending; a line lacks a product → 400 with neither COMMIT nor ROLLBACK, the transaction left open holding the order row and the earlier lines |
| PedidosRoute.Connection.PostCorrected | src/app/api/pedidos/route.ts:66-69 | the same handler with ROLLBACK before the 400 for a line without a product: after any request that passes the checks no transaction is open and nothing is pending, and the committed tables change only on a 201 |
| PedidosRoute.Connection.Run | src/app/api/pedidos/route.ts:43-50 | the checks run before the connection is taken; it is checked out and released around the transaction |
| PedidosRoute.Connection.Transaction | src/app/api/pedidos/route.ts:52-83 | BEGIN is logged first; a failing BEGIN is rolled back with nothing else done; otherwise the order is built from the next id and number |
| PedidosRoute.Connection.Lines | src/app/api/pedidos/route.ts:58-83 | a failing order INSERT is rolled back; otherwise the order's write is pending before its lines and the outcome is that of the lines and the COMMIT |
| PedidosRoute.Connection.ItemsAndCommit | src/app/api/pedidos/route.ts:66-83 | after the order's write: a failed line INSERT or a failed COMMIT gives 500 and ROLLBACK; a line without a product gives 400 (with ROLLBACK only in the corrected variant); otherwise COMMIT and 201 |
| PedidosRoute.Connection.InsertLines | src/app/api/pedidos/route.ts:66-74 | the loop stops at the first line without a product or the first failing INSERT; the pending writes are exactly the rows of the lines inserted before it, in order |
| PedidosRoute.Connection.Finish | src/app/api/pedidos/route.ts:76-83 | COMMIT makes every pending write visible and answers 201 with the order's id and number; a failing COMMIT is followed by ROLLBACK and 500 with the tables unchanged |
| PedidosRoute.Connection.Abort | src/app/api/pedidos/route.ts:80-81 | ROLLBACK discards every pending write and closes the transaction |
| PedidosRoute.OrphanOrderIsCommitted | src/app/api/pedidos/route.ts:66-76 | as written: a request with a line without a product, then a valid one, on the same pooled connection stores two orders, the first of them with no lines |
| PedidosRoute.RequestWithoutProduct | src/app/api/pedidos/route.ts:66-69 | the first half of that scenario: a 400 that leaves the order row pending in an open transaction |
| PedidosRoute.NoOrphanWhenRolledBack | src/app/api/pedidos/route.ts:66-69 | with the correction the same two requests store one order, and every stored line belongs to it |
| Types.TotalAppend | src/app/api/pedidos/route.ts:55 | the total fold is additive over concatenation, i.e. it is the sum of the `total` fields |
| ItensPedido.AdicionarItem | src/components/pedidos/ItensPedido.tsx:33-35 | appends exactly the line with no product, quantity 1, price 0 and total 0, leaving the existing lines as they were |
| ItensPedido.RemoverItem | src/components/pedidos/ItensPedido.tsx:37-39 | drops position `index` only, keeping the others in order; an index out of range leaves the list unchanged |
| ItensPedido.RemoverItemSplices | src/components/pedidos/ItensPedido.tsx:37-39 | removing position `index` is the list before it followed by the list after it |
| ItensPedido.Find | src/components/pedidos/ItensPedido.tsx:48 | the lookup finds a product with the id when the catalogue has one, and none otherwise |
| ItensPedido.LineTotal | src/components/pedidos/ItensPedido.tsx:57 | the line total is quantity × unit price, a zero quantity counting as 1 |
| ItensPedido.EditItem | src/components/pedidos/ItensPedido.tsx:43-58 | choosing a catalogued product copies its price; an unknown id keeps the old price. The total is recomputed after a product or quantity edit and never after a price or total edit |
| ItensPedido.AtualizarItem | src/components/pedidos/ItensPedido.tsx:41-43 | the list keeps its length, and only position `index` changes, to the edited line |
| ItensPedido.QuantidadeDigitada | src/components/pedidos/ItensPedido.tsx:119 | the typed quantity is never 0: a non-numeric parse or a parse of 0 becomes 1, any other parse is kept |
| ItensPedido.TypedQuantityTotal | src/components/pedidos/ItensPedido.tsx:56-58 | after typing a quantity the line total is that quantity × the unit price |
| ItensPedido.AddingKeepsTotal | src/components/pedidos/ItensPedido.tsx:34 | adding a line leaves the order total unchanged |
| ItensPedido.TotalAround | src/components/pedidos/ResumoPedido.tsx:23-25 | the order total of a list split around one line is the two sides' totals plus that line's |
| ItensPedido.TotalWithout | src/components/pedidos/ResumoPedido.tsx:23-25 | the list without position i totals the whole minus line i's total |
| ItensPedido.TotalReplacing | src/components/pedidos/ResumoPedido.tsx:23-25 | replacing line i changes the total by the new line's total minus the old one's |
| ItensPedido.RemovingSubtractsLine | src/components/pedidos/ItensPedido.tsx:37-39 | removing a line takes exactly its total off the order total |
| ItensPedido.EditingReplacesLine | src/components/pedidos/ItensPedido.tsx:41-61 | editing a line changes the order total by the change in that line's total |
| ResumoPedido.CalcularTotalIsSum | src/components/pedidos/ResumoPedido.tsx:23-25 | `calcularTotal` equals the sum of the line totals taken from the front, and is 0 for no lines |
| ResumoPedido.DisplayedTotalIsStored | src/components/pedidos/ResumoPedido.tsx:23-25 | the displayed total is the total the order route stores for the same lines |
| ResumoPedido.DisabledIffRouteRefuses | src/components/pedidos/ResumoPedido.tsx:66 | "Finalizar" is disabled exactly when the order route would answer 400 before opening a connection |
| PedidosPage.RefusalText | src/app/pedidos/page.tsx:40-43 | a refusal's toast shows the server's message when it has one and the default message otherwise, never an empty text |
| PedidosPage.Formulario.constructor | src/app/pedidos/page.tsx:14-16 | the form starts with no client, no lines and no observations |
| PedidosPage.Formulario.LimparFormulario | src/app/pedidos/page.tsx:20-24 | clearing (also the Cancel handler, line 74) leaves no client, no lines and empty observations |
| PedidosPage.Formulario.FinalizarPedido | src/app/pedidos/page.tsx:26-51 | the body sent is the current client, lines and observations; only an ok reply clears the form; a refusal or thrown error leaves all three fields as they were and shows its message |
| PedidosPage.RouteRefusalsAreShown | src/app/pedidos/page.tsx:40-43 | every 400 message of the order route's checks reaches the toast verbatim |
| BuscaCliente.AutoSelecao | src/components/pedidos/BuscaCliente.tsx:31-34 | a load selects a customer exactly when it returns one customer, and then selects that one |
| BuscaCliente.Busca.constructor | src/components/pedidos/BuscaCliente.tsx:17 | the result list starts empty; the selection is the page's |
| BuscaCliente.Busca.CarregarClientes | src/components/pedidos/BuscaCliente.tsx:21-39 | a successful load replaces the list with the returned one and selects its only customer if there is exactly one, else keeps the selection; a failed load changes neither |
| BuscaCliente.SelecaoApos | src/components/pedidos/BuscaCliente.tsx:30-34 | after a load returning one customer that customer is selected; any other count keeps the previous selection |
| BuscaCliente.Busca.Selecionar | src/components/pedidos/BuscaCliente.tsx:83 | clicking a result selects exactly that customer |
| BuscaCliente.Busca.LimparSelecao | src/components/pedidos/BuscaCliente.tsx:109 | "Limpar Seleção" clears the selection |
| BuscaCliente.ListedAfterLoad | src/components/pedidos/BuscaCliente.tsx:76 | after a load the list is shown exactly when it holds two or more customers and nothing was selected |
| Middleware.Decide | middleware.ts:36-45 | redirect to /login exactly without a session on a path starting with /pedidos; to /pedidos exactly with a session on /login; pass otherwise |
| Middleware.Gate | middleware.ts:48-53 | paths outside /pedidos, /pedidos/… and /login always pass; inside them the decision applies |
| Middleware.RulesAreExclusive | middleware.ts:36-43 | the two redirect conditions never hold together, and when neither holds the request passes |
| Middleware.NoRedirectLoop | middleware.ts:36-43 | with the session unchanged, the target of any redirect passes on the next request |
| Middleware.OtherPagesPass | middleware.ts:48-53 | /produtos, /clientes, /usuarios, /dashboard and /perfil are never redirected, with or without a session |
| Middleware.OrdersNeedSession | middleware.ts:36-38 | without a session, /pedidos and every page under it redirect to /login |
| DashboardPage.RedirectTarget | src/app/dashboard/page.tsx:11-16 | no redirect while loading; otherwise a redirect to / exactly when there is no session or its role is not Admin |
| DashboardPage.ContentIffNoRedirect | src/app/dashboard/page.tsx:13-22 | the content renders only when not loading with an Admin session, and once loaded it is hidden exactly when a redirect is issued |
| DashboardPage.CallbackSessionsAreRedirected | src/app/dashboard/page.tsx:13-20 | a session built by the authentication callbacks (no role) is always redirected and never sees the content |
| LoginPage.LandingRoute | src/app/login/page.tsx:28-32 | /dashboard exactly for a session whose role is Admin, /pedidos otherwise |
| LoginPage.CallbackSessionsLandOnPedidos | src/app/login/page.tsx:28-32 | every session the callbacks can produce lands on /pedidos |
| LoginPage.Login.constructor | src/app/login/page.tsx:9-11 | empty e-mail and password, not loading |
| LoginPage.Login.HandleLogin | src/app/login/page.tsx:14-40 | not loading once the attempt is over, on every path. A sign-in error or a thrown error shows its error toast and does not navigate. A success shows the success toast and navigates to the landing route |
| Auth.FindByEmail | src/lib/auth.ts:22-27 | `rows[0]` of the e-mail query: none exactly when no user has that e-mail; otherwise a stored user with it, the only one when e-mails are unique |
| Auth.Authorize | src/lib/auth.ts:15-42 | null without e-mail or password or when the query throws; a result only for a stored user with that e-mail whose hash verifies, and then exactly `{id, name: nome, email}`; with unique e-mails such a user always signs in |
| Auth.AuthorizeHandler | src/lib/auth.ts:15-42 | the same result, without connecting when a credential is missing, and with the connection released on every path |
| Auth.JwtCallback | src/lib/auth.ts:56-62 | a user at sign-in sets the token's id; otherwise the token is unchanged; no other field is written |
| Auth.SessionCallback | src/lib/auth.ts:63-69 | copies the token's id into `session.user` only when there is a user; nothing else changes |
| Auth.CallbacksNeverSetRole | src/lib/auth.ts:56-69 | neither callback writes a role: a role-free session stays role-free |
| RegisterRoute.NewUser | src/app/api/register/route.ts:22-28 | the stored row keeps name and e-mail, holds a digest the password verifies against, and has no role |
| RegisterRoute.Post | src/app/api/register/route.ts:5-38 | missing field → 400 with no connection. Taken e-mail → 409 with users unchanged. Otherwise exactly one new row and 201. A query error → 500 with nothing stored. The connection is released on every path and other tables are untouched |
| RegisterRoute.RegisteredUserCanSignIn | src/app/api/register/route.ts:22-30 | after a registration e-mails stay unique and the new user signs in with the registered password |
| ChangePasswordRoute.FindById | src/app/api/perfil/change-password/route.ts:26-31 | the user with that id, none exactly when no such user exists |
| ChangePasswordRoute.SetPassword | src/app/api/perfil/change-password/route.ts:43-46 | the UPDATE replaces the digest of the rows with that id and leaves every other row and field as it was |
| ChangePasswordRoute.Post | src/app/api/perfil/change-password/route.ts:7-56 | checks in order: no session user id → 401 without connecting; a missing password → 400; unknown id → 404; a wrong current password → 401 (each with the table unchanged). Otherwise the UPDATE and 200; a query error → 500. The connection is released on every path |
| ChangePasswordRoute.SetPasswordKeepsKeys | src/app/api/perfil/change-password/route.ts:43-46 | the UPDATE keeps ids and e-mails unique |
| ChangePasswordRoute.ExactlyOneRowChanges | src/app/api/perfil/change-password/route.ts:43-46 | with unique ids exactly one row changes, and only its digest |
| ChangePasswordRoute.NewPasswordSignsIn | src/app/api/perfil/change-password/route.ts:40-48 | after the change the new password signs in and the old one no longer does |
| PerfilPage.ReplyError | src/app/perfil/page.tsx:34-36 | a refusal shows the server's message when it has one, else "Algo deu errado", never empty text |
| PerfilPage.SuccessText | src/app/perfil/page.tsx:38 | the success text is the server's message followed by the logout notice |
| PerfilPage.Perfil.constructor | src/app/perfil/page.tsx:7-11 | all fields and both notices start empty |
| PerfilPage.Perfil.HandleSubmit | src/app/perfil/page.tsx:13-51 | A mismatched confirmation sets only the error and sends nothing. Otherwise the request holds the current and new passwords only. Success sets the message, a refusal or thrown error sets the error. Message and error are never both set |
| PerfilPage.RouteSuccessIsShown | src/app/perfil/page.tsx:38 | the route's success message is shown followed by the logout notice |
| PerfilPage.RouteRefusalsAreShown | src/app/perfil/page.tsx:34-36 | every refusal message of the password route is shown verbatim |
| CadastroUsuariosPage.MaskLayout | src/app/cadastro-usuarios/page.tsx:17-29 | the mask of the input's digits d: "" without digits, "(" + d up to 2 digits, then ") " and up to 5 more after 2 digits, then "-" and up to 4 more after 7 |
| CadastroUsuariosPage.MaskDependsOnlyOnDigits | src/app/cadastro-usuarios/page.tsx:18 | the mask of an input is the mask of its digits |
| CadastroUsuariosPage.MaskLength | src/app/cadastro-usuarios/page.tsx:93 | the mask is at most 15 characters, the input's `maxLength` |
| CadastroUsuariosPage.FullNumber | src/app/cadastro-usuarios/page.tsx:22-29 | with 11 or more digits the mask is exactly 15 characters |
| CadastroUsuariosPage.AreaStageDigits | src/app/cadastro-usuarios/page.tsx:22 | the first stage holds the first two digits |
| CadastroUsuariosPage.PrefixStageDigits | src/app/cadastro-usuarios/page.tsx:25 | after the second stage the mask holds the first seven digits |
| CadastroUsuariosPage.SuffixStageDigits | src/app/cadastro-usuarios/page.tsx:28 | after the third stage the mask holds the first eleven digits |
| CadastroUsuariosPage.LayoutKeepsFirstElevenDigits | src/app/cadastro-usuarios/page.tsx:21-29 | the digits of the layout of a digit string are its first min(n, 11) digits |
| CadastroUsuariosPage.MaskKeepsFirstElevenDigits | src/app/cadastro-usuarios/page.tsx:18-29 | the digits of the mask are the input's first min(n, 11) digits, in order |
| CadastroUsuariosPage.LayoutIgnoresExtraDigits | src/app/cadastro-usuarios/page.tsx:28 | digits after the eleventh do not change the layout |
| CadastroUsuariosPage.MaskIdempotent | src/app/cadastro-usuarios/page.tsx:17-31 | masking a masked number gives it back |
| CadastroUsuariosPage.RegisterRequest | src/app/cadastro-usuarios/page.tsx:44 | the body is name, e-mail and password as typed |
| CadastroUsuariosPage.PhoneAndProfileNotSent | src/app/cadastro-usuarios/page.tsx:44 | the body does not depend on the phone or the chosen profile |
| ProdutosRoute.Get | src/app/api/produtos/route.ts:4-30 | a query error → 500. Otherwise at most 10 rows, a sub-multiset of those whose name ILIKE-matches `%busca%`, with an absent term read as "". It holds min(10, matches) rows. The connection is released |
| ProdutosRoute.SearchResultsContainTerm | src/app/api/produtos/route.ts:12-13 | at most 10 results, all stored rows; for a term without `%`, `_` or `\` each name contains it ignoring case |
| ProdutosRoute.EmptyTermReturnsUpToTen | src/app/api/produtos/route.ts:6-13 | with no term the answer is min(10, rows) stored rows |
| ProdutosRoute.RowOf | src/app/api/produtos/route.ts:42-45 | the inserted row holds the ten given fields unchanged |
| ProdutosRoute.Post | src/app/api/produtos/route.ts:32-54 | a falsy name, price or code (price 0 included) → 400 with no connection; otherwise one row added and 201, or 500 with the table unchanged; released on every path |
| ClientesRoute.Get | src/app/api/clientes/route.ts:4-23 | as for products, matching on `nome` or `nome_empresa` |
| ClientesRoute.SearchResultsContainTerm | src/app/api/clientes/route.ts:12-13 | at most 10 stored rows; for a wildcard-free term each has it in its name or company name ignoring case, and a row without a company name matches through its name |
| ClientesRoute.EmptyTermReturnsUpToTen | src/app/api/clientes/route.ts:6-13 | with no term the answer is min(10, rows) rows |
| ClientesRoute.RowOf | src/app/api/clientes/route.ts:26-37 | the body's `nomeEmpresa` goes to `nome_empresa`, every other field to its own column |
| ClientesRoute.Post | src/app/api/clientes/route.ts:25-47 | a falsy name or phone → 400 with no connection; otherwise one row added and 201, or 500 with the table unchanged; released on every path |
| SqlLike.PrefixLike | src/app/api/produtos/route.ts:12-13 | a wildcard-free text followed by `%` matches exactly the strings it starts |
| SqlLike.SearchPatternIsContains | src/app/api/produtos/route.ts:12-13 | `%t%` matches exactly the strings containing t, for a wildcard-free t |
| SqlLike.ILikeSearchIsContainsIgnoringCase | src/app/api/clientes/route.ts:12-13 | `ILIKE '%t%'` is substring containment ignoring (ASCII) case, for a wildcard-free t |
| SqlLike.EmptyTermMatchesAll | src/app/api/produtos/route.ts:6-13 | `%%` matches every name |
| SqlSelect.Where | src/app/api/produtos/route.ts:12 | `WHERE` keeps exactly the rows satisfying the condition, without duplicating any |
| SqlSelect.FirstRows | src/app/api/produtos/route.ts:12 | taking the first rows is one admissible `LIMIT` answer |
| SqlSelect.LimitedRowsMatch | src/app/api/clientes/route.ts:12 | any admissible `LIMIT` answer has at most `limit` rows, each a stored row satisfying the condition |
| SqlSelect.WhereAll | src/app/api/produtos/route.ts:12-13 | a condition every row satisfies selects all rows, in order |
| MaxCodeRoute.CastInteger | src/app/api/produtos/max-code/route.ts:8 | `CAST(codigo AS INTEGER)` succeeds only within the 32-bit range, and on a digit string in range gives its decimal value |
| MaxCodeRoute.PaddedCastIsUnchanged | src/app/api/produtos/max-code/route.ts:8 | white space before and after a code does not change what `CAST(codigo AS INTEGER)` gives, so `' 1000 '` casts like `'1000'` |
| MaxCodeRoute.CastErrorIffUncastable | src/app/api/produtos/max-code/route.ts:8 | the aggregate fails exactly when some value does not cast |
| MaxCodeRoute.MaxIsStoredUpperBound | src/app/api/produtos/max-code/route.ts:8 | a successful aggregate is NULL only on no rows, else bounds every value and equals one of them |
| MaxCodeRoute.MaxCodeIsMaximum | src/app/api/produtos/max-code/route.ts:8-9 | the query fails exactly when some code does not cast; otherwise it is NULL on an empty table and else a stored code's value that no stored code exceeds |
| MaxCodeRoute.Get | src/app/api/produtos/max-code/route.ts:4-18 | a query error or an uncastable code → 500. An empty table → 0. Otherwise the value is at least every stored code and equal to one of them. Released on every path |
| NovoProdutoPage.Set | src/app/produtos/novo/page.tsx:72-87 | `{...prev, [name]: value}` writes the named field and no other |
| NovoProdutoPage.HandleChange | src/app/produtos/novo/page.tsx:61-89 | price and cost keep only digits, commas and dots, and every such character typed; stock fields likewise keep only digits, and every digit typed. Other fields are stored verbatim. No other field changes |
| NovoProdutoPage.HandleChangeIdempotent | src/app/produtos/novo/page.tsx:67-78 | typing a field's sanitised value again changes nothing |
| NovoProdutoPage.HandleCheckboxChange | src/app/produtos/novo/page.tsx:91-96 | sets `ativo` to `checked` and leaves every text field alone |
| NovoProdutoPage.NextCode | src/app/produtos/novo/page.tsx:48 | the suggested code is at least 1000 and greater than the maximum |
| NovoProdutoPage.LoadedCodigo | src/app/produtos/novo/page.tsx:47-53 | a failed fetch gives "ERRO"; otherwise the decimal text of the suggested code |
| NovoProdutoPage.LoadNextCode | src/app/produtos/novo/page.tsx:49-53 | only `codigo` changes, to that text |
| NovoProdutoPage.SuggestedCodeIsNew | src/app/produtos/novo/page.tsx:47-49 | when the maximum bounds every stored code, the suggested code equals no stored code and casts back to itself |
| NovoProdutoPage.ErroCodeIsSticky | src/app/produtos/novo/page.tsx:53 | once a product is saved with code "ERRO", every later maximum-code query fails |
| NovoProdutoPage.SubmitBody | src/app/produtos/novo/page.tsx:104-111 | stock fields are sent as the decimal value of their digits, an empty one as 0; code, name and active flag as in the form |
| NovoProdutoPage.ZeroPriceIsRefused | src/app/produtos/novo/page.tsx:107 | a price that parses to 0 makes the product route refuse the body |
| JsNumber.ParseInt | src/components/pedidos/ItensPedido.tsx:119 | `parseInt` of a non-empty digit string is its decimal value, and of "" is NaN |
| JsNumber.NatToStringRoundTrip | src/app/produtos/novo/page.tsx:49 | reading back the decimal text of a natural number gives the number |

## Left out

- Network, rendering and timers: `fetch` plumbing, JSX, toasts and console logging, the 500 ms search debounce in `BuscaCliente` and the `setTimeout` redirects after sign-up and password change. Page methods take the settled outcome of their request as a parameter.
- Concurrency: two requests running at once, the check-then-insert race in registration, and isolation levels are not modelled. The order connection is a single pooled client, used by one request at a time.
- `pool.connect()` failures and a failing `ROLLBACK`: src/lib/neon/client.ts is not part of this model. Connecting always succeeds. Only the statements a handler sends can throw.
- `PedidosRoute.Connection`: the statement log records only `BEGIN`, `COMMIT` and `ROLLBACK`. The `INSERT`s appear as pending writes instead.
- `PedidosRoute.Connection.Transaction`: the order id and number advance once `BEGIN` succeeds, even if the order `INSERT` then throws. A real sequence behaves the same way, but the model does not claim the gaps are observable.
- Floating point: prices and totals are integer cents. The parse of `preco` and `custo` (`parseFloat` after replacing the first comma), `toFixed`, and the `parseFloat` of the product GET's `preco`/`custo` are not modelled. `NovoProdutoPage.SubmitBody` takes the parsed price and cost as parameters.
- `NovoProdutoPage.SubmitBody`: `imagem_url` and `data_cadastro` are not modelled. They are neither a column the product route writes nor one it reads.
- MaxCodeRoute.CastInteger: the integer input forms that PostgreSQL 16 added are not modelled, so `_` digit separators (`1_000`) and the `0x`, `0o` and `0b` prefixes are cast errors here. Older servers reject them too. Surrounding white space and a sign are modelled.
- Case folding beyond ASCII: `ILIKE` and `Lower` fold only A–Z.
- The search term is put into the URL without encoding (src/components/pedidos/BuscaCliente.tsx:24). The model receives it as typed.
- The summary's item count (`itens.length`, src/components/pedidos/ResumoPedido.tsx:48) is the length of the list and needs no member.
- src/app/page.tsx, the users routes and `GET /api/pedidos` are listing and redirect code with nothing to state beyond their SQL. They are not part of this model.
- Sessions: the middleware reads a Supabase session and the pages a next-auth one. `Middleware.Decide` takes the presence of a session as a boolean. The dashboard and login pages take the session record that the callbacks produce.
- `ItensPedido.AtualizarItem` requires a valid index. It is only called from a rendered row, so an out-of-range write (which would grow the JavaScript array) is not modelled.
- The catalogue `ItensPedido` loads on mount is a parameter of the edits.
- Where the specification and the code disagree, the model follows the code:
  - The order total is the sum of the lines' supplied `total` fields.
  - A line without a product is not rolled back; see Findings.
  - Registration ignores any role in the body and stores none.
  - The dashboard redirects to `/` rather than answering 403.
  - No role ever reaches the session.

## Findings

| source | as written | input that shows it | evidently intended | confidence | as-written member | corrected member |
|---|---|---|---|---|---|---|
| src/app/api/pedidos/route.ts:66-69 | a line without a product returns 400 from inside the `try` after `BEGIN` and the order `INSERT`, with neither `COMMIT` nor `ROLLBACK`; the pooled client goes back to the pool with the transaction open, and the next request's `BEGIN` is ignored and its `COMMIT` stores the earlier order row, which has no lines | a body with one line `{produto_id: ""}` followed, on the same client, by a valid body with one line `{produto_id: "p1", quantidade: 2, preco_unitario: 500, total: 1000}` | roll back before answering 400, so that a refused order leaves nothing behind | not executed | PedidosRoute.OrphanOrderIsCommitted | PedidosRoute.Connection.PostCorrected |
