/**
 * The sale/stock ledger (services/VendaService.cs): creating a sale checks the
 * client, the product and the stock, in that order, and takes the sold units
 * off the product; deleting a sale puts them back; updating a sale leaves the
 * stock alone.
 *
 * Each operation is specified by a function on a `Ledger` value (the three
 * tables it touches), and the class `VendaService` carries it out in place on
 * the shared database context.
 */
module Vendas {
  import opened Wrappers
  import opened Tables
  import opened Entities
  import opened Data

  /** The three `InvalidOperationException`s that creating a sale can throw. */
  datatype VendaError = ClienteNaoEncontrado | ProdutoNaoEncontrado | QuantidadeInsuficiente

  /** The exception's message, which `POST /vendas` returns; each error has its own. */
  function Message(e: VendaError): (m: string)
    ensures m == "Cliente não encontrado." <==> e == ClienteNaoEncontrado
    ensures m == "Produto não encontrado." <==> e == ProdutoNaoEncontrado
    ensures m == "Quantidade insuficiente no depósito." <==> e == QuantidadeInsuficiente
  {
    match e
    case ClienteNaoEncontrado => "Cliente não encontrado."
    case ProdutoNaoEncontrado => "Produto não encontrado."
    case QuantidadeInsuficiente => "Quantidade insuficiente no depósito."
  }

  /** The part of the store that the ledger reads and writes. */
  datatype Ledger = Ledger(clientes: Table<Cliente>, produtos: Table<Produto>, vendas: Table<Venda>) {
    predicate Valid() {
      UniqueKeys(clientes) && UniqueKeys(produtos) && UniqueKeys(vendas)
    }
  }

  /** The units of a product on hand (0 for a product that does not exist). */
  function OnHand(l: Ledger, produtoId: int): int {
    match Lookup(l.produtos, produtoId)
    case Some(p) => p.quantidade
    case None => 0
  }

  /** The units of a product that the recorded sales account for. */
  function Sold(vendas: Table<Venda>, produtoId: int): int {
    if |vendas| == 0 then 0
    else (if vendas[0].val.produtoId == produtoId then vendas[0].val.quantidade else 0) + Sold(vendas[1..], produtoId)
  }

  // ---------------------------------------------------------------------------
  // AddVendaAsync

  /**
   * Creating a sale: the result is the key the store gave the new sale, or the
   * error thrown, and the ledger afterwards.
   */
  function AddVendaStep(l: Ledger, v: Venda): (r: (Result<int, VendaError>, Ledger))
    ensures l.Valid() ==> r.1.Valid()
    ensures r.0 == Failure(ClienteNaoEncontrado) <==> v.clienteId !in Keys(l.clientes)
    ensures r.0 == Failure(ProdutoNaoEncontrado)
        <==> v.clienteId in Keys(l.clientes) && v.produtoId !in Keys(l.produtos)
    ensures r.0 == Failure(QuantidadeInsuficiente)
        <==> v.clienteId in Keys(l.clientes) && v.produtoId in Keys(l.produtos) && OnHand(l, v.produtoId) < v.quantidade
    ensures r.0.Failure? ==> r.1 == l
  {
    if Lookup(l.clientes, v.clienteId).None? then (Failure(ClienteNaoEncontrado), l)
    else match Lookup(l.produtos, v.produtoId)
      case None => (Failure(ProdutoNaoEncontrado), l)
      case Some(p) =>
        if p.quantidade < v.quantidade then (Failure(QuantidadeInsuficiente), l)
        else
          var id := FreshKey(l.vendas);
          var p' := p.(quantidade := Wrap32(p.quantidade - v.quantidade));
          (Success(id), Ledger(l.clientes, Replace(l.produtos, v.produtoId, p'), Insert(l.vendas, id, v)))
  }

  /**
   * The client check comes first: when the client is missing, the outcome does
   * not depend on the product table at all.
   */
  lemma ClientCheckedFirst(l1: Ledger, l2: Ledger, v: Venda)
    requires l1.clientes == l2.clientes && v.clienteId !in Keys(l1.clientes)
    ensures AddVendaStep(l1, v) == (Failure(ClienteNaoEncontrado), l1)
    ensures AddVendaStep(l2, v) == (Failure(ClienteNaoEncontrado), l2)
  {
  }

  /** A successful sale: what happens to the products, the sales and the clients. */
  lemma AddVendaSucceeds(l: Ledger, v: Venda)
    requires l.Valid() && AddVendaStep(l, v).0.Success?
    ensures v.clienteId in Keys(l.clientes) && v.produtoId in Keys(l.produtos)
    ensures v.quantidade <= OnHand(l, v.produtoId)
    ensures Lookup(AddVendaStep(l, v).1.produtos, v.produtoId)
         == Some(Lookup(l.produtos, v.produtoId).value.(quantidade := Wrap32(OnHand(l, v.produtoId) - v.quantidade)))
    ensures OnHand(l, v.produtoId) - v.quantidade <= MaxInt32 ==>
              OnHand(AddVendaStep(l, v).1, v.produtoId) == OnHand(l, v.produtoId) - v.quantidade >= 0
    ensures Keys(AddVendaStep(l, v).1.produtos) == Keys(l.produtos)
    ensures forall k | k != v.produtoId :: Lookup(AddVendaStep(l, v).1.produtos, k) == Lookup(l.produtos, k)
    ensures AddVendaStep(l, v).0.value !in Keys(l.vendas)
    ensures Lookup(AddVendaStep(l, v).1.vendas, AddVendaStep(l, v).0.value) == Some(v)
    ensures forall k | k != AddVendaStep(l, v).0.value :: Lookup(AddVendaStep(l, v).1.vendas, k) == Lookup(l.vendas, k)
    ensures AddVendaStep(l, v).1.clientes == l.clientes
  {
    var (r, l') := AddVendaStep(l, v);
    var p := Lookup(l.produtos, v.produtoId).value;
    var p' := p.(quantidade := Wrap32(p.quantidade - v.quantidade));
    assert l'.produtos == Replace(l.produtos, v.produtoId, p');
    assert l'.vendas == Insert(l.vendas, r.value, v);
    LookupReplace(l.produtos, v.produtoId, p', v.produtoId);
    forall k | k != v.produtoId
      ensures Lookup(l'.produtos, k) == Lookup(l.produtos, k)
    {
      LookupReplace(l.produtos, v.produtoId, p', k);
    }
    forall k
      ensures Lookup(l'.vendas, k) == if k == r.value then Some(v) else Lookup(l.vendas, k)
    {
      LookupInsert(l.vendas, r.value, v, k);
    }
  }

  /**
   * A negative quantity passes the sufficiency check and raises the stock; far
   * enough below zero, the unchecked `-=` wraps the stock round to a negative.
   */
  lemma NegativeSaleRaisesStock(l: Ledger, v: Venda)
    requires l.Valid() && AddVendaStep(l, v).0.Success? && v.quantidade < 0
    ensures OnHand(l, v.produtoId) - v.quantidade <= MaxInt32 ==>
              OnHand(AddVendaStep(l, v).1, v.produtoId) > OnHand(l, v.produtoId)
    ensures OnHand(l, v.produtoId) - v.quantidade > MaxInt32 ==>
              OnHand(AddVendaStep(l, v).1, v.produtoId) < 0
  {
    AddVendaSucceeds(l, v);
    var x := OnHand(l, v.produtoId) - v.quantidade;
    if x > MaxInt32 {
      WrapAbove(x);
    }
  }

  /** One concrete wrap-around: a product at the top of `int` sells -1 units. */
  lemma NegativeSaleWrapsExample()
    ensures
      var p := Produto("caneta", Price(0), MaxInt32, 1);
      var v := Venda("2024-06-20", "NF-1", 7, 3, 1, -1, Price(0));
      var l := Ledger([Row(7, Cliente("Ana", "000", "ana@loja"))], [Row(3, p)], []);
      AddVendaStep(l, v).0 == Success(1) && OnHand(AddVendaStep(l, v).1, 3) == MinInt32
  {
    var p := Produto("caneta", Price(0), MaxInt32, 1);
    var v := Venda("2024-06-20", "NF-1", 7, 3, 1, -1, Price(0));
    var l := Ledger([Row(7, Cliente("Ana", "000", "ana@loja"))], [Row(3, p)], []);
    assert Lookup(l.clientes, 7).Some?;
    assert Lookup(l.produtos, 3) == Some(p);
    AddVendaSucceeds(l, v);
    WrapAbove(MaxInt32 + 1);
  }

  // ---------------------------------------------------------------------------
  // DeleteVendaAsync

  /**
   * The navigations a query with `Include(v => v.Produto).Include(v => v.Cliente)`
   * loads. `ProdutoId` and `ClienteId` are non-nullable, so both relationships
   * are required and the query joins them with inner joins: a sale whose
   * product or client row is missing is not found at all.
   */
  predicate ComProdutoECliente(l: Ledger, v: Venda) {
    v.produtoId in Keys(l.produtos) && v.clienteId in Keys(l.clientes)
  }

  /**
   * The query of `GetVendaByIdAsync`, which also includes the product's
   * warehouse (`Include(v => v.Produto.Deposito)`), a required relationship as
   * well: the sale stored under `id` when its client, its product and the
   * product's warehouse are all stored, and null otherwise.
   */
  function VendaPorId(l: Ledger, depositos: Table<Deposito>, id: int): (r: Option<Venda>)
    ensures r.Some? ==> Row(id, r.value) in l.vendas && ComProdutoECliente(l, r.value)
    ensures r.Some? ==> Lookup(l.produtos, r.value.produtoId).value.depositoId in Keys(depositos)
    ensures r.None? <==>
      || id !in Keys(l.vendas)
      || !ComProdutoECliente(l, Lookup(l.vendas, id).value)
      || Lookup(l.produtos, Lookup(l.vendas, id).value.produtoId).value.depositoId !in Keys(depositos)
  {
    match Lookup(l.vendas, id)
    case None => None
    case Some(v) =>
      match Lookup(l.produtos, v.produtoId)
      case None => None
      case Some(p) =>
        if v.clienteId in Keys(l.clientes) && p.depositoId in Keys(depositos) then Some(v) else None
  }

  /** What deleting a sale did: nothing when the query found no sale, or the deletion. */
  datatype DeleteOutcome = NaoEncontrada | Removida

  /**
   * Deleting a sale: the query finds it only with its product and client, and
   * then the sale's units go back on the product and the sale is removed.
   */
  function DeleteVendaStep(l: Ledger, id: int): (r: (DeleteOutcome, Ledger))
    ensures l.Valid() ==> r.1.Valid()
    ensures r.0 == NaoEncontrada
        <==> id !in Keys(l.vendas) || !ComProdutoECliente(l, Lookup(l.vendas, id).value)
    ensures r.0 == NaoEncontrada ==> r.1 == l
  {
    match Lookup(l.vendas, id)
    case None => (NaoEncontrada, l)
    case Some(v) =>
      if Lookup(l.clientes, v.clienteId).None? then (NaoEncontrada, l)
      else match Lookup(l.produtos, v.produtoId)
        case None => (NaoEncontrada, l)
        case Some(p) =>
          var p' := p.(quantidade := Wrap32(p.quantidade + v.quantidade));
          RemoveKeys(l.vendas, id);
          (Removida, Ledger(l.clientes, Replace(l.produtos, v.produtoId, p'), Remove(l.vendas, id)))
  }

  /** A deletion that goes through, spelled out. */
  lemma DeleteVendaShape(l: Ledger, id: int, v: Venda, p: Produto)
    requires Lookup(l.vendas, id) == Some(v) && Lookup(l.produtos, v.produtoId) == Some(p)
    requires v.clienteId in Keys(l.clientes)
    ensures DeleteVendaStep(l, id).0 == Removida
    ensures DeleteVendaStep(l, id).1.clientes == l.clientes
    ensures DeleteVendaStep(l, id).1.produtos
      == Replace(l.produtos, v.produtoId, p.(quantidade := Wrap32(p.quantidade + v.quantidade)))
    ensures DeleteVendaStep(l, id).1.vendas == Remove(l.vendas, id)
  {
  }

  /** Deleting a sale puts its units back on its product and removes only that sale. */
  lemma DeleteVendaRestocks(l: Ledger, id: int)
    requires l.Valid() && DeleteVendaStep(l, id).0 == Removida
    ensures
      var v := Lookup(l.vendas, id).value;
      && Lookup(DeleteVendaStep(l, id).1.produtos, v.produtoId)
         == Some(Lookup(l.produtos, v.produtoId).value.(quantidade := Wrap32(OnHand(l, v.produtoId) + v.quantidade)))
      && (MinInt32 <= OnHand(l, v.produtoId) + v.quantidade <= MaxInt32 ==>
            OnHand(DeleteVendaStep(l, id).1, v.produtoId) == OnHand(l, v.produtoId) + v.quantidade)
      && forall k | k != v.produtoId :: Lookup(DeleteVendaStep(l, id).1.produtos, k) == Lookup(l.produtos, k)
    ensures Keys(DeleteVendaStep(l, id).1.produtos) == Keys(l.produtos)
    ensures Keys(DeleteVendaStep(l, id).1.vendas) == Keys(l.vendas) - {id}
    ensures forall k | k != id :: Lookup(DeleteVendaStep(l, id).1.vendas, k) == Lookup(l.vendas, k)
    ensures DeleteVendaStep(l, id).1.clientes == l.clientes
  {
    var l' := DeleteVendaStep(l, id).1;
    var v := Lookup(l.vendas, id).value;
    RemoveKeys(l.vendas, id);
    var p := Lookup(l.produtos, v.produtoId).value;
    var p' := p.(quantidade := Wrap32(p.quantidade + v.quantidade));
    assert l'.produtos == Replace(l.produtos, v.produtoId, p');
    forall k
      ensures Lookup(l'.produtos, k) == if k == v.produtoId then Some(p') else Lookup(l.produtos, k)
    {
      LookupReplace(l.produtos, v.produtoId, p', k);
    }
    forall k | k != id
      ensures Lookup(l'.vendas, k) == Lookup(l.vendas, k)
    {
      LookupRemove(l.vendas, id, k);
    }
  }

  /** The ledger after a successful sale, spelled out. */
  lemma AddVendaShape(l: Ledger, v: Venda, p: Produto)
    requires AddVendaStep(l, v).0.Success? && Lookup(l.produtos, v.produtoId) == Some(p)
    ensures AddVendaStep(l, v).0 == Success(FreshKey(l.vendas))
    ensures AddVendaStep(l, v).1.clientes == l.clientes
    ensures AddVendaStep(l, v).1.produtos
      == Replace(l.produtos, v.produtoId, p.(quantidade := Wrap32(p.quantidade - v.quantidade)))
    ensures AddVendaStep(l, v).1.vendas == Insert(l.vendas, FreshKey(l.vendas), v)
  {
  }

  /** Creating a sale and then deleting it gives back the ledger exactly. */
  lemma AddThenDeleteRestores(l: Ledger, v: Venda)
    requires l.Valid() && AddVendaStep(l, v).0.Success?
    ensures DeleteVendaStep(AddVendaStep(l, v).1, AddVendaStep(l, v).0.value) == (Removida, l)
  {
    var p := Lookup(l.produtos, v.produtoId).value;
    AddVendaShape(l, v, p);
    DeleteAfterSale(l, AddVendaStep(l, v).1, FreshKey(l.vendas), v, p);
  }

  /** The deletion half of `AddThenDeleteRestores`, on the ledger the sale left. */
  lemma DeleteAfterSale(l: Ledger, l': Ledger, id: int, v: Venda, p: Produto)
    requires l.Valid() && id !in Keys(l.vendas) && Lookup(l.produtos, v.produtoId) == Some(p)
    requires v.clienteId in Keys(l.clientes)
    requires l'.clientes == l.clientes && l'.vendas == Insert(l.vendas, id, v)
    requires l'.produtos == Replace(l.produtos, v.produtoId, p.(quantidade := Wrap32(p.quantidade - v.quantidade)))
    ensures DeleteVendaStep(l', id) == (Removida, l)
  {
    var p' := p.(quantidade := Wrap32(p.quantidade - v.quantidade));
    SaleFound(l, l', id, v, p');
    DeleteVendaShape(l', id, v, p');
    RestockRestores(l.produtos, l'.produtos, v.produtoId, p, p', v.quantidade);
    RemoveInsert(l.vendas, id, v);
    var d := DeleteVendaStep(l', id).1;
    assert d == Ledger(l.clientes, l.produtos, l.vendas);
  }

  /** On the ledger a sale left, the sale and its product are found under their keys. */
  lemma SaleFound(l: Ledger, l': Ledger, id: int, v: Venda, p': Produto)
    requires l.Valid() && id !in Keys(l.vendas) && v.produtoId in Keys(l.produtos)
    requires l'.vendas == Insert(l.vendas, id, v) && l'.produtos == Replace(l.produtos, v.produtoId, p')
    ensures Lookup(l'.vendas, id) == Some(v) && Lookup(l'.produtos, v.produtoId) == Some(p')
  {
    LookupInsert(l.vendas, id, v, id);
    LookupReplace(l.produtos, v.produtoId, p', v.produtoId);
  }

  /** Taking `n` units off a product and putting them back restores the product table. */
  lemma RestockRestores(produtos: Table<Produto>, sold: Table<Produto>, k: int, p: Produto, p': Produto, n: Int32)
    requires Lookup(produtos, k) == Some(p) && p' == p.(quantidade := Wrap32(p.quantidade - n))
    requires sold == Replace(produtos, k, p')
    ensures Replace(sold, k, p'.(quantidade := Wrap32(p'.quantidade + n))) == produtos
  {
    WrapSubAdd(p.quantidade, n);
    assert p'.(quantidade := Wrap32(p'.quantidade + n)) == p;
    ReplaceRestore(produtos, k, p', p);
  }

  /**
   * Ten units on hand: a sale of seven leaves three, a second sale of five is
   * refused and changes nothing, and deleting the first sale brings back all
   * ten.
   */
  lemma StockScenario()
    ensures
      var l0 := Ledger([Row(1, Cliente("Ana", "000", "ana@loja"))], [Row(1, Produto("caneta", Price(0), 10, 1))], []);
      var v := Venda("2024-06-20", "NF-1", 1, 1, 1, 7, Price(0));
      var s1 := AddVendaStep(l0, v);
      var s2 := AddVendaStep(s1.1, v.(quantidade := 5));
      && s1.0.Success? && OnHand(s1.1, 1) == 3
      && s2 == (Failure(QuantidadeInsuficiente), s1.1) && Message(s2.0.error) == "Quantidade insuficiente no depósito."
      && DeleteVendaStep(s2.1, s1.0.value) == (Removida, l0) && OnHand(l0, 1) == 10
  {
    var l0 := Ledger([Row(1, Cliente("Ana", "000", "ana@loja"))], [Row(1, Produto("caneta", Price(0), 10, 1))], []);
    var v := Venda("2024-06-20", "NF-1", 1, 1, 1, 7, Price(0));
    assert Lookup(l0.clientes, 1).Some? && Lookup(l0.produtos, 1) == Some(Produto("caneta", Price(0), 10, 1));
    AddVendaSucceeds(l0, v);
    AddThenDeleteRestores(l0, v);
  }

  // ---------------------------------------------------------------------------
  // Stock is conserved: units on hand plus units sold

  lemma {:induction false} SoldAppend(vendas: Table<Venda>, x: Row<Venda>, produtoId: int)
    ensures Sold(vendas + [x], produtoId)
         == Sold(vendas, produtoId) + (if x.val.produtoId == produtoId then x.val.quantidade else 0)
  {
    if |vendas| > 0 {
      assert (vendas + [x])[1..] == vendas[1..] + [x];
      SoldAppend(vendas[1..], x, produtoId);
    }
  }

  lemma {:induction false} SoldRemove(vendas: Table<Venda>, id: int, v: Venda, produtoId: int)
    requires UniqueKeys(vendas) && Row(id, v) in vendas
    ensures Sold(Remove(vendas, id), produtoId)
         == Sold(vendas, produtoId) - (if v.produtoId == produtoId then v.quantidade else 0)
  {
    UniqueKeysCons(vendas);
    var j :| 0 <= j < |vendas| && vendas[j] == Row(id, v);
    if vendas[0].key == id {
      assert j == 0;
      assert id !in Keys(vendas[1..]);
      RemoveKeys(vendas[1..], id);
      assert Remove(vendas, id) == Remove(vendas[1..], id) == vendas[1..];
    } else {
      assert vendas[1..][j - 1] == Row(id, v);
      SoldRemove(vendas[1..], id, v, produtoId);
      var rest := Remove(vendas[1..], id);
      assert Remove(vendas, id) == [vendas[0]] + rest;
      assert ([vendas[0]] + rest)[1..] == rest;
    }
  }

  /** A sale moves its units from stock to sold, for every product. */
  lemma AddVendaConserves(l: Ledger, v: Venda, produtoId: int)
    requires l.Valid() && AddVendaStep(l, v).0.Success?
    requires OnHand(l, v.produtoId) - v.quantidade <= MaxInt32
    ensures OnHand(AddVendaStep(l, v).1, produtoId) + Sold(AddVendaStep(l, v).1.vendas, produtoId)
         == OnHand(l, produtoId) + Sold(l.vendas, produtoId)
  {
    var (r, l') := AddVendaStep(l, v);
    AddVendaSucceeds(l, v);
    assert l'.vendas == l.vendas + [Row(r.value, v)];
    SoldAppend(l.vendas, Row(r.value, v), produtoId);
  }

  /** Deleting a sale moves its units back from sold to stock. */
  lemma DeleteVendaConserves(l: Ledger, id: int, produtoId: int)
    requires l.Valid() && DeleteVendaStep(l, id).0 == Removida
    requires MinInt32 <= OnHand(l, Lookup(l.vendas, id).value.produtoId) + Lookup(l.vendas, id).value.quantidade <= MaxInt32
    ensures OnHand(DeleteVendaStep(l, id).1, produtoId) + Sold(DeleteVendaStep(l, id).1.vendas, produtoId)
         == OnHand(l, produtoId) + Sold(l.vendas, produtoId)
  {
    DeleteVendaRestocks(l, id);
    SoldRemove(l.vendas, id, Lookup(l.vendas, id).value, produtoId);
  }

  // ---------------------------------------------------------------------------
  // UpdateVendaAsync

  /**
   * Overwriting a stored sale (`Entry(venda).State = Modified`). A key with no
   * row makes the save fail and nothing changes; the result says whether it saved.
   */
  function UpdateVendaStep(l: Ledger, row: Row<Venda>): (r: (bool, Ledger))
    ensures l.Valid() ==> r.1.Valid()
    ensures r.0 <==> row.key in Keys(l.vendas)
    ensures !r.0 ==> r.1 == l
  {
    if Lookup(l.vendas, row.key).Some? then (true, Ledger(l.clientes, l.produtos, Replace(l.vendas, row.key, row.val)))
    else (false, l)
  }

  /** An update stores the new record under its key and touches neither stock nor other sales. */
  lemma UpdateVendaStores(l: Ledger, row: Row<Venda>)
    requires l.Valid() && row.key in Keys(l.vendas)
    ensures Lookup(UpdateVendaStep(l, row).1.vendas, row.key) == Some(row.val)
    ensures forall k | k != row.key :: Lookup(UpdateVendaStep(l, row).1.vendas, k) == Lookup(l.vendas, k)
    ensures UpdateVendaStep(l, row).1.produtos == l.produtos
    ensures UpdateVendaStep(l, row).1.clientes == l.clientes
  {
    forall k
      ensures Lookup(UpdateVendaStep(l, row).1.vendas, k) == if k == row.key then Some(row.val) else Lookup(l.vendas, k)
    {
      LookupReplace(l.vendas, row.key, row.val, k);
    }
  }

  /**
   * Because an update never adjusts stock, changing a sale's quantity breaks
   * the balance of units on hand plus units sold.
   */
  lemma UpdateVendaBreaksBalance()
    ensures
      var c := Cliente("Ana", "000", "ana@loja");
      var p := Produto("caneta", Price(0), 7, 1);
      var v := Venda("2024-06-20", "NF-1", 1, 1, 1, 3, Price(0));
      var l := Ledger([Row(1, c)], [Row(1, p)], [Row(1, v)]);
      var l' := UpdateVendaStep(l, Row(1, v.(quantidade := 5))).1;
      OnHand(l, 1) + Sold(l.vendas, 1) == 10 && OnHand(l', 1) + Sold(l'.vendas, 1) == 12
  {
    var v := Venda("2024-06-20", "NF-1", 1, 1, 1, 3, Price(0));
    var vendas: Table<Venda> := [Row(1, v)];
    assert IndexOf(vendas, 1) == Some(0);
    assert Replace(vendas, 1, v.(quantidade := 5)) == [Row(1, v.(quantidade := 5))];
  }

  // ---------------------------------------------------------------------------
  // The service, acting in place on the shared context

  class VendaService {
    const db: LojaDbContext

    constructor (db: LojaDbContext)
      ensures this.db == db
    {
      this.db := db;
    }

    function State(): Ledger
      reads db
    {
      Ledger(db.clientes, db.produtos, db.vendas)
    }

    /** `GetVendaByIdAsync`, which reads the context and changes nothing. */
    method GetVendaById(id: int) returns (r: Option<Venda>)
      ensures r == VendaPorId(State(), db.depositos, id)
    {
      r := Lookup(db.vendas, id);
      if r.Some? {
        var produto := Lookup(db.produtos, r.value.produtoId);
        if Lookup(db.clientes, r.value.clienteId).None? || produto.None? || Lookup(db.depositos, produto.value.depositoId).None? {
          r := None;
        }
      }
    }

    method AddVenda(venda: Venda) returns (r: Result<int, VendaError>)
      requires db.Valid()
      modifies db
      ensures db.Valid()
      ensures (r, State()) == AddVendaStep(old(State()), venda)
      ensures db.depositos == old(db.depositos) && db.usuarios == old(db.usuarios)
    {
      var cliente := Lookup(db.clientes, venda.clienteId);
      if cliente.None? {
        return Failure(ClienteNaoEncontrado);
      }
      var i := IndexOf(db.produtos, venda.produtoId);
      if i.None? {
        return Failure(ProdutoNaoEncontrado);
      }
      var produto := db.produtos[i.value].val;
      if produto.quantidade < venda.quantidade {
        return Failure(QuantidadeInsuficiente);
      }
      db.produtos := db.produtos[i.value := Row(venda.produtoId, produto.(quantidade := Wrap32(produto.quantidade - venda.quantidade)))];
      var id := FreshKey(db.vendas);
      db.vendas := db.vendas + [Row(id, venda)];
      r := Success(id);
    }

    method UpdateVenda(venda: Row<Venda>) returns (saved: bool)
      requires db.Valid()
      modifies db
      ensures db.Valid()
      ensures (saved, State()) == UpdateVendaStep(old(State()), venda)
      ensures db.depositos == old(db.depositos) && db.usuarios == old(db.usuarios)
    {
      var i := IndexOf(db.vendas, venda.key);
      if i.None? {
        return false;
      }
      db.vendas := db.vendas[i.value := venda];
      saved := true;
    }

    method DeleteVenda(id: int) returns (outcome: DeleteOutcome)
      requires db.Valid()
      modifies db
      ensures db.Valid()
      ensures (outcome, State()) == DeleteVendaStep(old(State()), id)
      ensures db.depositos == old(db.depositos) && db.usuarios == old(db.usuarios)
    {
      var i := IndexOf(db.vendas, id);
      if i.None? {
        return NaoEncontrada;
      }
      var venda := db.vendas[i.value].val;
      var cliente := Lookup(db.clientes, venda.clienteId);
      var j := IndexOf(db.produtos, venda.produtoId);
      if cliente.None? || j.None? {
        return NaoEncontrada;
      }
      var produto := db.produtos[j.value].val;
      db.produtos := db.produtos[j.value := Row(venda.produtoId, produto.(quantidade := Wrap32(produto.quantidade + venda.quantidade)))];
      RemoveKeys(db.vendas, id);
      db.vendas := Remove(db.vendas, id);
      outcome := Removida;
    }
  }
}
