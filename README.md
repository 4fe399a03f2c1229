# Loja: the sale/stock ledger and its services, in Dafny

Loja is a small store back end. It keeps clients, products, warehouses,
users and sales in one relational store and serves them over HTTP.
This project models the part with real rules:

- the sale/stock ledger of `VendaService`. Creating a sale checks the client,
  then the product, then the stock, and takes the sold units off the product.
  Deleting a sale puts them back. Updating a sale never touches stock.
- the four sales reports of `VendaService`.
- the table operations of `DepositoService` and `UsuarioService`, including
  the stock listing of a warehouse and the credential lookup of the login.
- `GetTokenFromHeader`, which reads a bearer token out of an `Authorization`
  header in the form of section 2.1 of RFC 6750.
- the handlers of `Program.cs` that write sales and products, and the GET
  handlers for one sale and for the detailed reports.

Files:

- `tables.dfy`: a table is a sequence of rows (primary key and record) in
  storage order. It gives lookup by key, insertion under a fresh key, overwrite,
  removal and filtering, with their laws. `Wrappers` holds `Option` and `Result`.
- `entities.dfy`: the records of `models/`, and C#'s 32-bit `int` with its
  unchecked wrap-around (`Wrap32`).
- `data.dfy`: the database context, a class holding one table per entity set.
- `vendas.dfy`: the ledger. Each operation is a function on a `Ledger` value
  (clients, products, sales), proved correct by lemmas. The class
  `VendaService` carries it out in place on the shared context and is proved
  to agree with the function.
- `relatorios.dfy`: the detailed and summarized reports per product and per client.
- `depositos.dfy`, `usuarios.dfy`: the warehouse and user services.
- `auth.dfy`: `GetTokenFromHeader`, with `char.IsWhiteSpace`, `Trim` and the
  case-insensitive prefix test.
- `endpoints.dfy`: the HTTP handlers. Whether the token validated is an input.

Modelling choices:

- Quantities are `Int32`. `produto.Quantidade -= venda.Quantidade` and `+=`
  wrap round in unchecked C# arithmetic, and the model wraps them the same way.
- Prices are `double` in the source. Here they are opaque 64-bit patterns:
  they are stored and copied, never computed on.
- A new row gets the key `1 + the largest key in use`. This stands in for the
  store's auto-increment column. The proofs only use that the key is new.
- A navigation property (`v.Produto.Nome`, `v.Cliente.Nome`) is `None` when
  the referenced row is missing.
- `UpdateVendaAsync` and `UpdateDepositoAsync` mark an entity as modified and
  save; `UpdateUsuarioAsync` calls `Usuarios.Update` and saves. When no row
  has the entity's key, the save writes nothing (the store raises a
  concurrency error). The model returns `false` and leaves the table unchanged.
- `Venda.ClienteId`, `Venda.ProdutoId`, `Venda.DepositoId` and
  `Produto.DepositoId` are non-nullable, so each relationship is required.
  A query that includes a required navigation joins it with an inner join.
  `DeleteVendaAsync` includes the product and the client, so it finds a sale
  only when both rows are stored; otherwise it does nothing
  (`Vendas.DeleteVendaStep`). `GetVendaByIdAsync` also includes the product's
  warehouse (`Vendas.VendaPorId`).
- Required relationships cascade on delete. Deleting a warehouse also deletes
  its products, the sales of the warehouse and the sales of those products
  (`Depositos.DepositoService.DeleteDeposito`).

Behaviour of the code worth knowing:

- The code never checks that a sale's quantity is positive. A negative
  quantity passes the stock check and raises the stock
  (`Vendas.NegativeSaleRaisesStock`).
- Stock also changes outside sales. `PUT /produtos/{id}` overwrites
  `Quantidade` directly (`Endpoints.PutProdutoMovesBalance`), and
  `PUT /vendas/{id}` changes a sale's quantity without touching stock
  (`Vendas.UpdateVendaBreaksBalance`).
- The product summary of a product with no sales is null
  (`FirstOrDefaultAsync` over no groups), not an empty aggregate.

## Model

| member | source | states |
|---|---|---|
| Tables.Lookup | services/DepositoService.cs:23-26 | lookup by primary key (`FindAsync`, `FirstOrDefault(x => x.Id == id)`) finds something exactly when the key is in the table, and what it finds is stored under that key |
| Tables.LookupMember | services/VendaService.cs:27-34 | with unique keys, the record stored under a key is the one a lookup returns |
| Tables.FreshKey | services/DepositoService.cs:28-32 | the key given to a new row is positive and not in use |
| Tables.Insert | services/DepositoService.cs:28-32 | adding a row under a new key adds exactly that key and keeps keys unique |
| Tables.Replace | services/DepositoService.cs:33-37 | overwriting a record keeps the table's size and keys, and keeps keys unique |
| Tables.Remove | services/DepositoService.cs:44 | `Remove` never adds rows, and no row with the removed key is left |
| Tables.RemoveRows | services/DepositoService.cs:39-47 | removal keeps exactly the rows with other keys |
| Tables.RemoveKeys | services/DepositoService.cs:39-47 | removal takes exactly the key out of the table's keys, keeps keys unique, and leaves a table without the key as it was |
| Tables.LookupInsert | services/DepositoService.cs:28-32 | after adding a row, its key finds the new record and every other key finds what it found before |
| Tables.LookupReplace | services/DepositoService.cs:33-37 | after an overwrite, its key finds the new record and every other key finds what it found before |
| Tables.LookupRemove | services/DepositoService.cs:39-47 | after a removal, its key finds nothing and every other key finds what it found before |
| Tables.RemoveInsert | services/VendaService.cs:73-91 | removing the row just added gives back the table |
| Tables.ReplaceRestore | services/VendaService.cs:57-83 | writing the old record back over an overwritten one gives back the table |
| Tables.Select | services/VendaService.cs:98 | a `Where` filter keeps exactly the rows whose record satisfies the condition, and keeps keys unique |
| Tables.SelectCount | services/VendaService.cs:93-108 | with unique keys, a filter holds one row per key that satisfies the condition |
| Entities.Wrap32 | services/VendaService.cs:57 | C# `int` arithmetic: the result is in the 32-bit range, equal to the exact value modulo 2^32, and the exact value when that is in range |
| Entities.WrapSubAdd | services/VendaService.cs:57-83 | subtracting and then adding back the same amount in wrapping arithmetic gives back the starting value |
| Entities.WrapAbove | services/VendaService.cs:57 | a value just above the 32-bit range wraps round to a negative number |
| Data.LojaDbContext.constructor | data/LojaDbContext.cs:6-15 | a freshly created, empty store, one table per entity set, has unique keys (the C# constructor only passes connection options; a context on an existing database sees its rows) |
| Vendas.Message | services/VendaService.cs:41-53 | each creation error has its own message, the text the exception carries |
| Vendas.AddVendaStep | services/VendaService.cs:36-65 | creating a sale fails with "client not found" exactly when the client is missing; with "product not found" exactly when the client exists and the product is missing; with "insufficient stock" exactly when both exist and the stock is below the quantity (equal is allowed); any failure leaves the ledger unchanged; keys stay unique |
| Vendas.ClientCheckedFirst | services/VendaService.cs:38-42 | with the client missing, the outcome is the client error whatever the product table holds |
| Vendas.AddVendaSucceeds | services/VendaService.cs:57-64 | on success the product's quantity becomes old minus the sale's quantity (wrapped to 32 bits; exact and non-negative when no overflow), every other product is unchanged, the sale is stored under a new key, other sales and the clients are unchanged |
| Vendas.NegativeSaleRaisesStock | services/VendaService.cs:51-57 | a negative quantity passes the stock check and raises the stock, or wraps it round to a negative value when it overflows |
| Vendas.NegativeSaleWrapsExample | services/VendaService.cs:51-57 | a product at the largest `int` stock, sold minus one unit, is left with the smallest `int` stock |
| Vendas.VendaPorId | services/VendaService.cs:27-34 | the query finds the sale stored under the id exactly when its client, its product and the product's warehouse are stored (inner joins on required navigations), and null otherwise |
| Vendas.DeleteVendaStep | services/VendaService.cs:73-91 | deleting a sale does nothing exactly when the query finds no sale: none has the id, or its product or client row is missing (inner joins); keys stay unique |
| Vendas.DeleteVendaRestocks | services/VendaService.cs:83-86 | a deletion adds the sale's quantity back to its product (wrapped; exact in range), leaves other products alone and removes only that sale |
| Vendas.RestockRestores | services/VendaService.cs:57-86 | taking units off a product and putting the same units back gives back the product table, wrap-around included |
| Vendas.AddThenDeleteRestores | services/VendaService.cs:36-91 | creating a sale and deleting it gives back the ledger exactly, stock included |
| Vendas.StockScenario | services/VendaService.cs:36-91 | ten units: a sale of seven leaves three, a sale of five is then refused with the stock message and no change, and deleting the first sale brings back ten |
| Vendas.AddVendaConserves | services/VendaService.cs:57-60 | a sale leaves units on hand plus units sold unchanged for every product, when the decrement does not overflow |
| Vendas.DeleteVendaConserves | services/VendaService.cs:83-86 | a deletion leaves units on hand plus units sold unchanged for every product, when the increment does not overflow |
| Vendas.UpdateVendaStep | services/VendaService.cs:67-71 | an update saves exactly when the sale's key is stored, and otherwise changes nothing |
| Vendas.UpdateVendaStores | services/VendaService.cs:67-71 | an update stores the new record under its key, leaves the other sales, the products and the clients unchanged |
| Vendas.UpdateVendaBreaksBalance | services/VendaService.cs:67-71 | raising a stored sale's quantity by update moves units on hand plus units sold from 10 to 12 |
| Vendas.VendaService.GetVendaById | services/VendaService.cs:27-34 | the result of the joined query `VendaPorId` on the context, which it does not change |
| Vendas.VendaService.AddVenda | services/VendaService.cs:36-65 | the in-place creation has the result and new ledger of `AddVendaStep`, keeps keys unique and touches no other table |
| Vendas.VendaService.UpdateVenda | services/VendaService.cs:67-71 | the in-place update has the result and new ledger of `UpdateVendaStep` and touches no other table |
| Vendas.VendaService.DeleteVenda | services/VendaService.cs:73-91 | the in-place deletion has the outcome and new ledger of `DeleteVendaStep` and touches no other table |
| Relatorios.GetVendasPorProdutoDetalhadas | services/VendaService.cs:93-108 | every entry describes a sale of the product (its name, date, id, client name, quantity, price), every such sale is listed, and with unique keys there is one entry per sale |
| Relatorios.GetVendasPorProdutoSumarizadas | services/VendaService.cs:110-123 | the summary is null exactly when the product has no sales; otherwise it carries the product's id and name |
| Relatorios.SoldIsSumOfDetalhes | services/VendaService.cs:110-123 | the units sold of a product are the sum of the quantities in its detailed list |
| Relatorios.SumarizadaAgreesWithDetalhadas | services/VendaService.cs:93-123 | the summary is null exactly when the detailed list is empty, and its total quantity is the sum of the detailed quantities |
| Relatorios.SumarizadaExample | services/VendaService.cs:110-123 | sales of two and three units of a product sum to five |
| Relatorios.GetVendasPorClienteDetalhadas | services/VendaService.cs:124-138 | every entry describes a sale to the client (product name, date, id, quantity, price), every such sale is listed, and with unique keys there is one entry per sale |
| Relatorios.ProdutosDistintos | services/VendaService.cs:144 | the grouping keys: each product of the sales once, and no other |
| Relatorios.GetVendasPorClienteSumarizadas | services/VendaService.cs:140-153 | one group per product the client bought and no product twice; each group has the product's name and the units of it sold to the client |
| Depositos.ProdutosNoDeposito | services/DepositoService.cs:49-59 | the name and quantity of each product of the warehouse, and nothing else; empty exactly when the warehouse holds no product |
| Depositos.ProdutosNoDepositoCount | services/DepositoService.cs:49-59 | as a multiset, each listing line occurs once per product of the warehouse that it describes |
| Depositos.DepositoService.GetDepositoById | services/DepositoService.cs:23-26 | the warehouse stored under the id, or null exactly when there is none |
| Depositos.DepositoService.AddDeposito | services/DepositoService.cs:28-32 | the warehouse is stored under a new key where a lookup then finds it; other keys and other tables are unchanged |
| Depositos.DepositoService.UpdateDeposito | services/DepositoService.cs:33-37 | the stored warehouse is overwritten when its key exists, and nothing changes otherwise; other keys and tables are unchanged |
| Depositos.DepositoService.DeleteDeposito | services/DepositoService.cs:39-47 | the warehouse with the id is gone and all others remain; by cascade, its products and the sales of the warehouse or of those products go too and everything else stays; an absent id changes nothing |
| Depositos.DepositoService.GetProdutosNoDepositoSumarizada | services/DepositoService.cs:49-59 | the stock listing read from the context, which it does not change |
| Usuarios.PorCredenciais | services/UsuarioService.cs:54-57 | the user found has exactly the e-mail and the password given, is stored, and is the first such; null exactly when no user has both |
| Usuarios.LoginAfterRegister | services/UsuarioService.cs:54-63 | after a user registers, a lookup with their credentials finds a user, and finds them unless an earlier user has the same credentials |
| Usuarios.UsuarioService.AddUsuario | services/UsuarioService.cs:22-26 | the user is stored under a new key where a lookup then finds it; other keys and other tables are unchanged |
| Usuarios.UsuarioService.RegisterUser | services/UsuarioService.cs:59-63 | the same effect as `AddUsuario` |
| Usuarios.UsuarioService.GetUsuarioById | services/UsuarioService.cs:33-36 | the user stored under the id, or null exactly when there is none |
| Usuarios.UsuarioService.UpdateUsuario | services/UsuarioService.cs:38-42 | the stored user is overwritten when its key exists, and nothing changes otherwise |
| Usuarios.UsuarioService.DeleteUsuario | services/UsuarioService.cs:44-52 | the user with the id is gone, all others remain, and an absent id changes nothing |
| Usuarios.UsuarioService.GetUsuarioByEmailAndSenha | services/UsuarioService.cs:54-57 | the credential lookup on the context, which it does not change |
| Auth.IsWhiteSpace | Program.cs:99 | `char.IsWhiteSpace`: among ASCII characters exactly TAB, LF, VT, FF, CR and space, and never a letter or digit |
| Auth.StartsWithIgnoreCase | Program.cs:97 | ordinal case-insensitive prefix test: for "Bearer " it holds exactly when the first six characters spell "bearer" in any mix of cases and the seventh is a space |
| Auth.TrimStart | Program.cs:99 | only leading white space is dropped, and the result does not start with white space |
| Auth.TrimEnd | Program.cs:99 | only trailing white space is dropped, and the result does not end with white space |
| Auth.Trim | Program.cs:99 | the result is a slice with only white space cut off either side, and has no white space at either end |
| Auth.TrimUnique | Program.cs:99 | any slice that cuts only white space off either end down to non-white-space edges is the result of `Trim` |
| Auth.GetTokenFromHeader | Program.cs:94-102 | null exactly when the value does not start with "Bearer " in any letter case; otherwise the rest of the value with white space trimmed, which neither starts nor ends with white space |
| Auth.ExtractAfterFormat | Program.cs:94-102 | a token with no white space at its ends, written after "Bearer " in any letter case and any white space, is read back exactly |
| Auth.LowerCaseSchemeAccepted | Program.cs:97 | "bearer abc" yields "abc" |
| Auth.SpaceRequired | Program.cs:97 | "Bearer" and "Bearerabc" yield null |
| Auth.OtherSchemeRefused | Program.cs:97-101 | a Basic credential yields null |
| Endpoints.PostVenda | Program.cs:559-577 | a creation error becomes a bad request with that error's message; success answers Created with the new key; an invalid token answers the token message and changes nothing |
| Endpoints.GetVenda | Program.cs:592-607 | NotFound exactly when the joined query finds no sale; otherwise the stored sale under that id |
| Endpoints.PutVenda | Program.cs:609-634 | NotFound and no change when the joined query finds no sale; otherwise all seven fields take the request's values, the id of the route is kept, other sales stay, and no product changes |
| Endpoints.DeleteVenda | Program.cs:637-648 | the ledger changes as `DeleteVendaStep` says, and the answer is Ok whether or not the sale was found |
| Endpoints.GetDetalhadasPorProduto | Program.cs:650-665 | NotFound exactly when the product has no sales; otherwise the non-empty detailed list |
| Endpoints.GetDetalhadasPorCliente | Program.cs:679-694 | NotFound exactly when the client has no sales; otherwise the non-empty detailed list |
| Endpoints.PutProduto | Program.cs:274-296 | a missing product gives NotFound and no change; otherwise name, price, quantity and warehouse take the request's values, the id is kept, and other products and tables are unchanged |
| Endpoints.PutProdutoMovesBalance | Program.cs:284-289 | the product update sets the stock outright, so units on hand plus units sold stay the same only when the quantity is unchanged |

## Left out

- JWT signing and validation (`ValidateTokenAsync`, `GenerateToken`, the `/rotaSegura` check): these are library calls, and expiry depends on the clock. Whether a token validated is a boolean input of the handlers. The 401 response that `ValidateTokenAsync` writes before a handler answers is not modelled.
- The `/login` and `/registro` handlers: they parse JSON and write the response. The lookup and the insertion they use are modelled (`Usuarios.PorCredenciais`, `Usuarios.UsuarioService.RegisterUser`).
- HTTP routing, Swagger, the authentication middleware, and the handlers that only call a service and wrap the result in `Ok`. These include the GET-all handlers and the summary handlers.
- Entity Framework and MySQL configuration and migrations. `Reference(...).Load()` is eager loading and changes nothing.
- Foreign-key checks when saving: the store refuses a sale or product that names a missing client, product or warehouse, with an exception the handlers do not catch. The model saves such a row (`Vendas.AddVendaStep` does not look at the sale's warehouse; `Vendas.UpdateVendaStep` and `Endpoints.PutProduto` look at no reference). Cascade deletes are modelled only for `DeleteDepositoAsync`, the one delete of the core that has dependents.
- `Relatorios.GetVendasPorProdutoDetalhadas`, `Relatorios.GetVendasPorClienteDetalhadas` and the two summaries: the queries read `v.Produto.Nome` (and `v.Cliente.Nome`) through required navigations, which join with inner joins. A sale whose product or client row is missing is then left out of the report. The model lists it with a `None` name. The store's foreign keys keep such sales from existing.
- Concurrency and atomicity across requests. Each operation is one step on the store.
- Floating-point prices and the revenue totals `TotalPrecoCobrado`, because they are double arithmetic.
- `ProductService`, `ClienteService` and `FornecedorService`: their source is not part of this model. `PUT /produtos/{id}` is modelled directly on the product table. `POST /produtos` and `DELETE /produtos/{id}` are left out because their behaviour lives in `ProductService`. The `Fornecedor` record is left out too.
- `models/Usuario.cs` is not part of this model. The user record has the fields the services use: name, e-mail and password.
- The `GetAll*` queries: each returns the whole table.
- Ids sent in request bodies: the store always assigns a fresh key on insertion.
- The exact key the store generates: the model takes one more than the largest key in use.
- The text of NotFound messages: the response carries the id, not the interpolated message.
- Multi-valued `Authorization` headers: the header is one string.
- `Endpoints.DeleteVenda`: exceptions such as a failed save are not modelled.
- `Relatorios.GetVendasPorClienteSumarizadas`: the groups are in order of first sale. SQL `GROUP BY` fixes no order. The totals are unbounded integers, while SQL `SUM` read back into an `int` could overflow.
- `Relatorios.GetVendasPorProdutoSumarizadas`: the total is an unbounded integer, with the same overflow caveat.
- `Usuarios.UsuarioService.UpdateUsuario`: `Usuarios.Update` on an entity with key 0 inserts it as a new row. The model treats every absent key as a failed save.
- `Vendas.AddVendaStep`: the product lookup of `AddVendaAsync` includes the product's warehouse, a required navigation, so it is an inner join. A product whose warehouse row is missing is then not found and the sale fails with "Produto não encontrado."; the model sees only the product row and lets the sale through. The store's foreign key on `Produto.DepositoId` keeps such a product from existing.
- `Usuarios.PorCredenciais`: the e-mail and the password are compared as exact strings, and "the first such user" means the first in storage order. The database guarantees neither. MySQL compares text columns under their collation, which for utf8mb4 in MySQL 8 ignores case and accents by default. `FirstOrDefaultAsync` without `OrderBy` picks no particular row.
- `Auth.ToUpper`: it maps only ASCII letters. Ordinal case-insensitive comparison maps more, but no other character upper-cases to a character of "Bearer ", so the prefix test is the same.
