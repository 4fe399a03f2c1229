/**
 * The request handlers of Program.cs that write sales and products, and the
 * sale lookups and detailed reports, as far as they decide anything: which
 * result they return and what they save. Whether the bearer token validated
 * is an input (`authorized`); validating it is a signature check left to the
 * JWT library.
 */
module Endpoints {
  import opened Wrappers
  import opened Tables
  import opened Entities
  import opened Data
  import opened Vendas
  import opened Relatorios

  /** The handler results that these endpoints produce. */
  datatype Response<+T> =
    | Ok(body: T)
    | OkEmpty
    | Created(id: int, body: T)
    | NotFound(id: int)
    | BadRequest(message: string)

  /** What every handler answers when the token did not validate. */
  const TokenInvalido: string := "O token de autenticação é inválido ou expirou."

  // ---------------------------------------------------------------------------
  // Sales

  /**
   * POST /vendas: a failed creation becomes a bad request carrying the
   * exception's message; a successful one answers Created with the sale's
   * new key.
   */
  method PostVenda(service: VendaService, authorized: bool, venda: Venda) returns (resp: Response<Venda>)
    requires service.db.Valid()
    modifies service.db
    ensures service.db.Valid()
    ensures !authorized ==> resp == BadRequest(TokenInvalido) && service.State() == old(service.State())
    ensures authorized ==> service.State() == AddVendaStep(old(service.State()), venda).1
    ensures authorized ==>
      match AddVendaStep(old(service.State()), venda).0
      case Success(id) => resp == Created(id, venda)
      case Failure(e) => resp == BadRequest(Message(e))
    ensures service.db.depositos == old(service.db.depositos) && service.db.usuarios == old(service.db.usuarios)
  {
    if !authorized {
      return BadRequest(TokenInvalido);
    }
    var r := service.AddVenda(venda);
    match r
    case Success(id) =>
      resp := Created(id, venda);
    case Failure(e) =>
      resp := BadRequest(Message(e));
  }

  /**
   * GET /vendas/{id}: NotFound when the query finds no sale (none stored, or
   * its client, product or warehouse missing); otherwise the sale with its key.
   */
  method GetVenda(service: VendaService, authorized: bool, id: int) returns (resp: Response<Row<Venda>>)
    ensures !authorized ==> resp == BadRequest(TokenInvalido)
    ensures authorized && VendaPorId(service.State(), service.db.depositos, id).None? ==> resp == NotFound(id)
    ensures authorized && VendaPorId(service.State(), service.db.depositos, id).Some? ==>
      resp == Ok(Row(id, VendaPorId(service.State(), service.db.depositos, id).value)) && resp.body in service.db.vendas
  {
    if !authorized {
      return BadRequest(TokenInvalido);
    }
    var venda := service.GetVendaById(id);
    if venda.None? {
      return NotFound(id);
    }
    resp := Ok(Row(id, venda.value));
  }

  /**
   * PUT /vendas/{id}: NotFound and no change when the query of GET /vendas/{id}
   * finds no sale; otherwise all seven fields of the stored sale take the
   * request's values, the sale keeps the key of the route, and no product's
   * stock moves.
   */
  method PutVenda(service: VendaService, authorized: bool, id: int, updatedVenda: Venda) returns (resp: Response<Row<Venda>>)
    requires service.db.Valid()
    modifies service.db
    ensures service.db.Valid()
    ensures !authorized ==> resp == BadRequest(TokenInvalido) && service.State() == old(service.State())
    ensures authorized && VendaPorId(old(service.State()), old(service.db.depositos), id).None? ==>
      resp == NotFound(id) && service.State() == old(service.State())
    ensures authorized && VendaPorId(old(service.State()), old(service.db.depositos), id).Some? ==>
      && resp == Ok(Row(id, updatedVenda))
      && service.State() == UpdateVendaStep(old(service.State()), Row(id, updatedVenda)).1
      && Lookup(service.db.vendas, id) == Some(updatedVenda)
    ensures forall k | k != id :: Lookup(service.db.vendas, k) == Lookup(old(service.db.vendas), k)
    ensures service.db.produtos == old(service.db.produtos) && service.db.clientes == old(service.db.clientes)
    ensures service.db.depositos == old(service.db.depositos) && service.db.usuarios == old(service.db.usuarios)
  {
    if !authorized {
      return BadRequest(TokenInvalido);
    }
    var existing := service.GetVendaById(id);
    if existing.None? {
      return NotFound(id);
    }
    var venda := existing.value.(
      dataVenda := updatedVenda.dataVenda,
      numeroNotaFiscal := updatedVenda.numeroNotaFiscal,
      clienteId := updatedVenda.clienteId,
      produtoId := updatedVenda.produtoId,
      depositoId := updatedVenda.depositoId,
      quantidade := updatedVenda.quantidade,
      precoUnitario := updatedVenda.precoUnitario);
    UpdateVendaStores(service.State(), Row(id, venda));
    var saved := service.UpdateVenda(Row(id, venda));
    resp := Ok(Row(id, venda));
  }

  /** DELETE /vendas/{id}: Ok whether or not the query found the sale. */
  method DeleteVenda(service: VendaService, authorized: bool, id: int) returns (resp: Response<Row<Venda>>)
    requires service.db.Valid()
    modifies service.db
    ensures service.db.Valid()
    ensures !authorized ==> resp == BadRequest(TokenInvalido) && service.State() == old(service.State())
    ensures authorized ==> service.State() == DeleteVendaStep(old(service.State()), id).1 && resp == OkEmpty
    ensures service.db.depositos == old(service.db.depositos) && service.db.usuarios == old(service.db.usuarios)
  {
    if !authorized {
      return BadRequest(TokenInvalido);
    }
    var outcome := service.DeleteVenda(id);
    resp := OkEmpty;
  }

  /** GET /vendas/produto/{produtoId}/detalhadas: NotFound when the product has no sales. */
  function GetDetalhadasPorProduto(l: Ledger, authorized: bool, produtoId: int): (r: Response<seq<DetalheProduto>>)
    ensures !authorized ==> r == BadRequest(TokenInvalido)
    ensures authorized ==> (r == NotFound(produtoId) <==> forall x | x in l.vendas :: x.val.produtoId != produtoId)
    ensures authorized && r.Ok? ==> r.body == GetVendasPorProdutoDetalhadas(l, produtoId) && r.body != []
  {
    if !authorized then BadRequest(TokenInvalido)
    else
      var detalhes := GetVendasPorProdutoDetalhadas(l, produtoId);
      if detalhes == [] then NotFound(produtoId)
      else
        assert detalhes[0] in detalhes;
        Ok(detalhes)
  }

  /** GET /vendas/cliente/{clienteId}/detalhadas: NotFound when the client bought nothing. */
  function GetDetalhadasPorCliente(l: Ledger, authorized: bool, clienteId: int): (r: Response<seq<DetalheCliente>>)
    ensures !authorized ==> r == BadRequest(TokenInvalido)
    ensures authorized ==> (r == NotFound(clienteId) <==> forall x | x in l.vendas :: x.val.clienteId != clienteId)
    ensures authorized && r.Ok? ==> r.body == GetVendasPorClienteDetalhadas(l, clienteId) && r.body != []
  {
    if !authorized then BadRequest(TokenInvalido)
    else
      var detalhes := GetVendasPorClienteDetalhadas(l, clienteId);
      if detalhes == [] then NotFound(clienteId)
      else
        assert detalhes[0] in detalhes;
        Ok(detalhes)
  }

  // ---------------------------------------------------------------------------
  // Products

  /**
   * PUT /produtos/{id}: NotFound and no change for a missing product;
   * otherwise name, price, quantity and warehouse all take the request's
   * values and the product keeps the key of the route.
   */
  method PutProduto(db: LojaDbContext, authorized: bool, id: int, updatedProduto: Produto) returns (resp: Response<Row<Produto>>)
    requires db.Valid()
    modifies db
    ensures db.Valid()
    ensures !authorized ==> resp == BadRequest(TokenInvalido) && db.produtos == old(db.produtos)
    ensures authorized && id !in Keys(old(db.produtos)) ==> resp == NotFound(id) && db.produtos == old(db.produtos)
    ensures authorized && id in Keys(old(db.produtos)) ==>
      && resp == Ok(Row(id, updatedProduto))
      && db.produtos == Replace(old(db.produtos), id, updatedProduto)
      && Lookup(db.produtos, id) == Some(updatedProduto)
    ensures forall k | k != id :: Lookup(db.produtos, k) == Lookup(old(db.produtos), k)
    ensures db.vendas == old(db.vendas) && db.clientes == old(db.clientes)
    ensures db.depositos == old(db.depositos) && db.usuarios == old(db.usuarios)
  {
    if !authorized {
      return BadRequest(TokenInvalido);
    }
    var i := IndexOf(db.produtos, id);
    if i.None? {
      return NotFound(id);
    }
    var produto := db.produtos[i.value].val.(
      nome := updatedProduto.nome,
      preco := updatedProduto.preco,
      quantidade := updatedProduto.quantidade,
      depositoId := updatedProduto.depositoId);
    forall k {
      LookupReplace(db.produtos, id, produto, k);
    }
    db.produtos := db.produtos[i.value := Row(id, produto)];
    resp := Ok(Row(id, produto));
  }

  /**
   * The product update sets the stock outright with no sale involved: the
   * balance of units on hand plus units sold survives it only when the stored
   * quantity is left as it was.
   */
  lemma PutProdutoMovesBalance(l: Ledger, id: int, updatedProduto: Produto)
    requires l.Valid() && id in Keys(l.produtos)
    ensures
      var l' := l.(produtos := Replace(l.produtos, id, updatedProduto));
      && OnHand(l', id) == updatedProduto.quantidade
      && (OnHand(l', id) + Sold(l'.vendas, id) == OnHand(l, id) + Sold(l.vendas, id)
          <==> updatedProduto.quantidade == OnHand(l, id))
  {
    LookupReplace(l.produtos, id, updatedProduto, id);
  }
}
