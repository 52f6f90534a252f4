# Sales records: a verified model

This project models the sale-record logic of a small Express sales app. A browser
form collects a sale: a date, a payment method and product rows, each with a purchase
price and a sale price. The form builds a JSON payload from those rows. The server
validates the payload, appends it to a JSON file of sales and mirrors one row per
product into a hosted table. The server also lists, fetches, updates and deletes sales
by id, and computes a report.

Once HTTP, file, network and DOM access are removed, all of this is list manipulation.
The model states it over immutable values:

- the store is a `seq<Venda>`, and the mirror table is a `seq<LinhaEspelho>`;
- prices are integer cents;
- a JSON field that may be missing is an `Option`;
- a text field that the code treats as missing when empty is a string, with `""` for missing;
- ids, timestamps, "now" and the success of each write are parameters.

Modules:

- `Wrappers`: `Option`.
- `Text`: JavaScript `trim`, `toLowerCase` and `includes`.
- `Seqs`: subsequences, `filter`, left-fold sums, counts and `slice(0, end)`.
- `Vendas`: the records (`Produto`, `Resumo`, `Venda`), the create and update bodies, mirror rows, and the per-call outcome (`Resposta`) with its HTTP status.
- `Store`: server write path: validation, create with the dual write, find, update and delete by id.
- `Consulta`: the list endpoint: date filter, payment-method filter and limit.
- `Relatorio`: the report endpoint.
- `Formulario`: the browser form: the row counter, the guards on adding and saving, and the payload builder.
- `Fluxo`: lemmas that link the form, the write path and the report.

## Behaviour as coded

These points follow the code, even where a reader of the data model might expect otherwise:

- The server stores the client's `resumo` as sent and never recomputes it (`Store.Criar`).
- Only the form replaces the `"outro"` payment method by the typed name. The server stores whatever method it receives, including `"outro"` itself.
- The server does not check that the typed name is non-blank. A name made only of spaces passes (`Fluxo.EnvioAceitoPeloServidor`).
- An update forces only `id` and `updatedAt`. The request body can replace `timestamp`, `status` and every other field, with no validation (`Store.Mesclar`).
- A create runs both writes. It reports failure (500) when either write fails. The record then stays in the file whenever the file write succeeded (`Store.Criar`).
- Ids come from the clock and can repeat. Lookup, update and delete all act on the first record with the id (`Store.CriarIdRepetido`).

## Model

| member | source | states |
|---|---|---|
| `Store.TodosCompletos` | server.js:141-148 | the product loop accepts exactly when every product has a non-empty name and both prices present; a price of 0 is accepted |
| `Store.Validar` | server.js:133-148 | a create is refused as incomplete exactly when the date or method is empty or the product list is missing or empty; it is refused for a product exactly when the header is complete but some product lacks a name or a price; otherwise it is accepted |
| `Store.LinhasEspelho` | server.js:62-68 | the mirror gets one row per product, in product order, each carrying that product's name and prices and the sale's id and date |
| `Store.Criar` | server.js:150-176 | an invalid create changes neither store and answers 400; a valid one appends exactly one record at the end (earlier records unchanged) carrying the request's date, method, products and summary, the given id and timestamp and status "ativa"; the file keeps it iff the file write succeeded, the mirror gets its rows iff the mirror write succeeded, and 201 is answered iff both succeeded |
| `Store.IndiceDe` | server.js:218 | `findIndex` by id returns the first position holding the id, or nothing exactly when no record has it |
| `Store.Buscar` | server.js:190-203 | fetching by id answers not-found exactly when no record has the id, and otherwise the first stored record with that id, as `find` returns it |
| `Store.Mesclar` | server.js:228-233 | the merged record keeps the stored id, gets `updatedAt` = now, and takes every other field from the body when present and from the stored record otherwise, `timestamp` and `status` included |
| `Store.Atualizar` | server.js:217-247 | an unknown id answers 404 and changes nothing; otherwise only the first position with the id is replaced by the merge, length and every other position unchanged, provided the file write succeeds (else 500 and nothing changes) |
| `Store.Remover` | server.js:261-282 | an unknown id answers 404 and changes nothing; otherwise the first record with the id is removed and returned, the length drops by one and the records before and after it keep their order |
| `Store.IndiceDeAppend` | server.js:163 | appending a record never changes which earlier record `findIndex` reaches first |
| `Store.CriarDepoisBuscar` | server.js:153-191 | after a successful create with a fresh id, fetching that id returns the new record |
| `Store.CriarIdRepetido` | server.js:154 | when the clock id is already taken, the new record is stored but lookups by that id still reach the older record |
| `Store.AtualizarPreservaIds` | server.js:231 | an update leaves the id at every position of the list unchanged |
| `Store.AtualizarDepoisBuscar` | server.js:218-235 | after a successful update, fetching the id returns the merged record |
| `Store.RemoverTiraUm` | server.js:271 | after a delete the list is a subsequence of the old one, and adding back the returned record gives the old multiset |
| `Store.RemoverDepoisBuscar` | server.js:262-271 | when ids are unique, a deleted id is no longer found |
| `Store.MesclarCorrigido` | server.js:227-233 | the merge the comment describes keeps the stored id and the stored timestamp; every other field is taken from the body when present, as in the merge as written |
| `Store.MesclarSobrescreveTimestamp` | server.js:227-233 | a body carrying a `timestamp` makes the merge as written change the stored timestamp, which the corrected merge keeps |
| `Consulta.Filtradas` | server.js:94-106 | the date pass followed by the method pass keeps exactly what one `filter` testing both conditions keeps, in stored order and with repeated records kept; a sale passes iff it has the requested date (when one is given) and the lower-cased query occurs in its lower-cased method (when one is given); the length is the number of stored sales that pass |
| `Consulta.Listar` | server.js:108-116 | the result is a prefix of the filtered list: all of it without a limit; `min(k, len)` elements for a limit `k >= 0`; `max(len + k, 0)` for a negative `k`; none when the limit parses to NaN; `total` is always the returned length |
| `Consulta.ListarCompleto` | server.js:96-106 | without a limit, a sale is listed iff it is stored and passes both filters |
| `Consulta.PixCombinaComPix` | server.js:104 | the query "pix" matches a sale stored with method "Pix" |
| `Seqs.SliceTo` | server.js:109 | `slice(0, end)` returns a prefix whose length is the clamped end |
| `Seqs.Filter` | server.js:97-105 | `filter` returns a subsequence of its input whose every element satisfies the test, and keeps every element that satisfies it |
| `Seqs.FilterFilter` | server.js:97-105 | two `filter` passes in a row equal one pass by the conjunction of their tests |
| `Seqs.FilterCongruent` | server.js:97-105 | filtering with tests that agree on every value gives the same list |
| `Seqs.FilterKeepsAll` | server.js:94-102 | a skipped filter is a filter that keeps everything |
| `Text.TrimSpec` | public/script.js:126-128 | `trim` returns the input minus a white run at each end, and the result neither starts nor ends with white space |
| `Text.TrimEmptyIffBlank` | public/script.js:41 | the trimmed text is empty iff the text consists of white space only |
| `Text.ToLower` | server.js:104 | lower-casing keeps the length and maps each character to its small letter |
| `Text.ToLowerIdempotent` | server.js:104 | lower-casing leaves no capital behind, so applying it twice changes nothing |
| `Text.IncludesSpec` | server.js:104 | `includes` holds iff the needle occurs at some position of the haystack |
| `Relatorio.PorPagamento` | server.js:317-321 | the per-method count has distinct keys, exactly the methods used by some counted sale, each with a count of at least 1; the counts add up to the number of sales counted, and each method's count is the number of those sales using that method |
| `Relatorio.IncrementarQuantas` | server.js:319 | one step of the count adds one to that method's count and leaves every other count alone |
| `Relatorio.IncrementarDistintas` | server.js:319 | one step of the count keeps the keys distinct |
| `Relatorio.IncrementarSoma` | server.js:319 | one step of the count adds one to the total of the counts |
| `Relatorio.IncrementarFormas` | server.js:319 | one step of the count adds its method to the keys and nothing else |
| `Relatorio.SemResumoEntreAtivas` | server.js:301-307 | the handler throws exactly when some active sale has no summary |
| `Relatorio.Gerar` | server.js:300-346 | the report fails (500) iff some active sale lacks a summary, and otherwise is exactly the report `Relatorio.GerarCorrigido` describes |
| `Relatorio.GerarCorrigido` | server.js:300-346 | `totalVendas` is the list length; `vendasAtivas` is the number of sales with status "ativa"; each total is the sum of that summary field over the active sales, a missing field or summary counting 0; the per-method counts have distinct keys, exactly the methods of the active sales, each positive, add up to `vendasAtivas`, and give each method the number of active sales using it; the recent count is the number of active sales whose date parses to an instant at or after now minus 30 days (`Relatorio.Recente`: a future date counts, an unparsable one never does); the window runs from now minus 30 days to now |
| `Relatorio.LucroDoRelatorio` | server.js:303-314 | when every active sale's summary has profit = sale - purchase, the report's profit is its total sale value minus its total purchase cost |
| `Relatorio.AtivasAposAcrescentar` | server.js:301 | appending an active sale appends it to the active list and leaves the earlier active sales as they were |
| `Relatorio.CorrigidoAposAcrescentar` | server.js:300-329 | appending an active sale raises the sale and active-sale counts by one, each total by that sale's field, the recent count by one exactly when that sale is recent, and its method's count by one, every other method's count unchanged |
| `Relatorio.GerarAposAcrescentar` | server.js:300-307 | when the report succeeds, appending an active sale that has a summary keeps it succeeding, and it is then the corrected report of the longer list |
| `Relatorio.ExemploDoisResumos` | server.js:303-314 | two active sales with totals (10, 15) and (20, 25) report purchases 30, sales 40, profit 10 and 2 products |
| `Formulario.AdicionarProduto` | public/script.js:31-51 | adding is accepted iff date and method are set and, for "outro", the typed name is non-blank after trimming; a refused add changes nothing, and an accepted one raises the counter by one and appends an empty row with the new counter value |
| `Formulario.RemoverProduto` | public/script.js:76-79 | removing drops the row with that id and never touches the counter |
| `Formulario.Limpar` | public/script.js:226-240 | clearing leaves no rows, a counter of 0, empty method fields and today's date |
| `Formulario.SessaoIdsDistintos` | public/script.js:46-51 | in a session no two rows share an id |
| `Formulario.AdicionarPreservaSessao` | public/script.js:46-51 | an accepted add keeps every row id issued by the counter and in strictly increasing order |
| `Formulario.RemoverPreservaSessao` | public/script.js:76-79 | removing a row keeps the session invariant |
| `Formulario.LimparIniciaSessao` | public/script.js:232 | a cleared form satisfies the session invariant |
| `Formulario.ContadorCresce` | public/script.js:46 | an accepted add strictly raises the counter, and no add or removal lowers it |
| `Formulario.ProdutoDe` | public/script.js:122-132 | a row's product has the trimmed name, blank prices read as 0, and profit = sale price - purchase price |
| `Formulario.ProdutosDasPreenchidas` | public/script.js:120-134 | the products are exactly the rows whose name is not blank after trimming, in page order, each turned into its product |
| `Formulario.ProdutoDePreenchida` | public/script.js:126-132 | a filled row yields a non-empty trimmed name, both prices and a consistent profit |
| `Formulario.ProdutosBemFormados` | public/script.js:120-134 | every emitted product has a trimmed non-empty name, both prices and profit = sale - purchase |
| `Formulario.ColetarDadosVenda` | public/script.js:112-152 | the payload has the form's date, the typed name in place of "outro", the emitted products, `totalCompra` and `totalVenda` the sums over them, `lucroTotal` both the sum of the products' profits and `totalVenda - totalCompra`, and `quantidadeProdutos` their number |
| `Formulario.SalvarVenda` | public/script.js:154-191 | no request is sent, and nothing changes, exactly when the payload has no products; otherwise the payload is sent and the form is cleared only on a successful answer |
| `Fluxo.EnvioAceitoPeloServidor` | server.js:133-148 | a payload the form sends passes server validation iff its date and method are non-empty |
| `Fluxo.ResumoDoFormularioCoerente` | public/script.js:136-138 | a sale created from the form's payload has a coherent summary |
| `Fluxo.RelatorioAposCriar` | server.js:300-314 | a successful create raises every report figure by exactly the stored summary of the new sale |
| `Fluxo.ExemploVoucher` | public/script.js:140-149 | "outro" with "Voucher" and one product bought at 10 and sold at 15 is sent as method "Voucher" with summary (10, 15, 5, 1), and the server accepts it |
| `Fluxo.VendaSemResumoQuebraRelatorio` | server.js:303-307 | a create without a summary is accepted, and after it the report as written fails while the corrected report counts the sale |

## Findings

| source | as written | input that shows it | evidently intended | confidence | as-written member | corrected member |
|---|---|---|---|---|---|---|
| server.js:227-233 | the merge spreads the request body after the stored record and overrides only `id` and `updatedAt`, so a body `timestamp` replaces the stored one | `PUT /api/vendas/<id>` with body `{"timestamp": "2000-01-01T00:00:00.000Z"}` | keep the original timestamp, as the comment on line 227 says | medium, not executed | `Store.MesclarSobrescreveTimestamp` | `Store.MesclarCorrigido` |
| server.js:303-307 | validation does not require `resumo`, but the report reads `venda.resumo.totalCompra` unguarded, so one stored active sale without `resumo` makes every report answer 500 | `POST /api/vendas` with `{"dataVenda":"2024-01-10","formaPagamento":"pix","produtos":[{"nome":"a","precoCompra":1,"precoVenda":2}]}`, then `GET /api/relatorios` | read a missing summary as zeros, as the `|| 0` fallbacks suggest | medium, not executed | `Fluxo.VendaSemResumoQuebraRelatorio` | `Relatorio.GerarCorrigido` |

`Relatorio.Gerar` is defined through `Relatorio.GerarCorrigido`: the two agree
whenever the handler does not throw. `Store.Atualizar` keeps the as-written merge,
because the rest of the model describes the code as it runs.

## Left out

- HTTP routing, middleware, JSON parsing, the 404 and 500 catch-all handlers, and response messages. These are plumbing; outcomes are the `Resposta` datatype.
- File I/O: `inicializarDados`, `lerVendas` and `salvarVendas`. A write's success is a boolean parameter. `lerVendas` falling back to `[]` on a read error is not modelled: that is I/O failure handling.
- Store.Criar: a failed file write leaves the modelled list unchanged. A partly written or truncated file is not modelled.
- The hosted-table client call. Only the row mapping is modelled; the insert's success is a boolean parameter.
- `Date.now()`, `new Date()` and `toISOString()`. Ids, timestamps and "now" are parameters, and the report window is in milliseconds. Parsing a sale date is the parameter `instante`; an unparsable date is `None`, which never counts as recent. The report's `periodo` date strings are left as the two instants.
- Floating-point money, `parseFloat` and `toFixed`. Prices are integer cents. A blank or unparsable price input is `None` and counts as 0.
- `parseInt` on `limite` is not modelled. Its result is the `Limite` datatype: absent, a number, or NaN.
- JSON `null`, non-string names and methods, query parameters given twice, and extra fields in request bodies. The model has no values of those kinds.
- Text.ToLower: folds only the ASCII capitals and the Latin-1 capitals À–Þ (except ×). Full Unicode case mapping is not modelled.
- Relatorio.PorPagamento: the count is an insertion-ordered list of own keys. In the source, `acc[forma] = (acc[forma] || 0) + 1` on a plain object also reads inherited properties. A method named after one of them (`constructor`, `toString`, `valueOf`, `hasOwnProperty`, `isPrototypeOf`, `propertyIsEnumerable`, `toLocaleString`, `__proto__`, `__defineGetter__` and the other `Object.prototype` members) does not start at 0: for example `constructor` becomes the string `"function Object() { [native code] }1"`, and `__proto__` does not create a key at all. A user can reach this by choosing "outro" and typing such a name. The model treats every method as a fresh key. JavaScript's ordering of integer-like keys is not modelled either.
- DOM-only behaviour: showing and hiding the summary box, `calcularTotal`'s on-screen totals, `toggleOutroPagamento`, `carregarVendas`, alerts and the save button's label.
- Concurrent requests (lost updates between read and write), signal handlers and server start-up. These are concurrency and process lifecycle concerns.
- No property states that an update keeps `timestamp` or that the server recomputes `resumo`. The code does neither.
