/**
 * The warehouse service (services/DepositoService.cs): lookup, insertion,
 * overwrite and delete-if-present on the warehouse table, and the stock
 * listing of one warehouse.
 */
module Depositos {
  import opened Wrappers
  import opened Tables
  import opened Entities
  import opened Data

  /** One line of the stock listing: the product's name and units on hand. */
  datatype ProdutoNoDeposito = ProdutoNoDeposito(nome: string, quantidade: Int32)

  function Resumo(p: Produto): ProdutoNoDeposito {
    ProdutoNoDeposito(p.nome, p.quantidade)
  }

  /**
   * `GetProdutosNoDepositoSumarizadaAsync`: the name and quantity of every
   * product kept in the warehouse, and nothing else; an empty list when the
   * warehouse holds no product.
   */
  function ProdutosNoDeposito(produtos: Table<Produto>, depositoId: int): (r: seq<ProdutoNoDeposito>)
    ensures r == [] <==> forall x | x in produtos :: x.val.depositoId != depositoId
    ensures forall e | e in r :: exists x | x in produtos :: x.val.depositoId == depositoId && e == Resumo(x.val)
    ensures forall x | x in produtos && x.val.depositoId == depositoId :: Resumo(x.val) in r
  {
    if |produtos| == 0 then []
    else
      assert forall x | x in produtos :: x == produtos[0] || x in produtos[1..];
      var rest := ProdutosNoDeposito(produtos[1..], depositoId);
      if produtos[0].val.depositoId == depositoId then [Resumo(produtos[0].val)] + rest else rest
  }

  /** The products of the warehouse whose listing line is `e`. */
  function ListadoComo(depositoId: int, e: ProdutoNoDeposito): Produto -> bool {
    (p: Produto) => p.depositoId == depositoId && Resumo(p) == e
  }

  /**
   * As a multiset, the listing holds each line once per product of the
   * warehouse that it describes.
   */
  lemma {:induction false} ProdutosNoDepositoCount(produtos: Table<Produto>, depositoId: int, e: ProdutoNoDeposito)
    requires UniqueKeys(produtos)
    ensures multiset(ProdutosNoDeposito(produtos, depositoId))[e] == |KeysWhere(produtos, ListadoComo(depositoId, e))|
  {
    var p := ListadoComo(depositoId, e);
    if |produtos| == 0 {
      assert KeysWhere(produtos, p) == {};
    } else {
      var t := produtos;
      UniqueKeysCons(t);
      KeysWhereCons(t, p);
      ProdutosNoDepositoCount(t[1..], depositoId, e);
      var rest := ProdutosNoDeposito(t[1..], depositoId);
      if t[0].val.depositoId == depositoId {
        assert ProdutosNoDeposito(t, depositoId) == [Resumo(t[0].val)] + rest;
      }
      if p(t[0].val) {
        assert t[0].key !in KeysWhere(t[1..], p);
      }
    }
  }

  /** The products that stay when warehouse `depositoId` is deleted. */
  function ForaDoDeposito(depositoId: int): Produto -> bool {
    (p: Produto) => p.depositoId != depositoId
  }

  /**
   * The sales that stay when warehouse `depositoId` is deleted: those of
   * another warehouse whose product is not one of the warehouse's products.
   */
  function VendaSobrevive(produtos: Table<Produto>, depositoId: int): Venda -> bool {
    (v: Venda) => v.depositoId != depositoId && v.produtoId !in KeysWhere(produtos, (p: Produto) => p.depositoId == depositoId)
  }

  class DepositoService {
    const db: LojaDbContext

    constructor (db: LojaDbContext)
      ensures this.db == db
    {
      this.db := db;
    }

    /** `GetDepositoByIdAsync`: the warehouse stored under `id`, or null. */
    method GetDepositoById(id: int) returns (r: Option<Deposito>)
      ensures r.None? <==> id !in Keys(db.depositos)
      ensures r.Some? ==> Row(id, r.value) in db.depositos
    {
      r := Lookup(db.depositos, id);
    }

    /** `AddDepositoAsync`: stores the warehouse under a new key, where a lookup then finds it. */
    method AddDeposito(deposito: Deposito) returns (id: int)
      requires db.Valid()
      modifies db
      ensures db.Valid()
      ensures id !in Keys(old(db.depositos))
      ensures db.depositos == Insert(old(db.depositos), id, deposito)
      ensures Lookup(db.depositos, id) == Some(deposito)
      ensures forall k | k != id :: Lookup(db.depositos, k) == Lookup(old(db.depositos), k)
      ensures db.produtos == old(db.produtos) && db.clientes == old(db.clientes)
      ensures db.usuarios == old(db.usuarios) && db.vendas == old(db.vendas)
    {
      id := FreshKey(db.depositos);
      forall k {
        LookupInsert(db.depositos, id, deposito, k);
      }
      db.depositos := db.depositos + [Row(id, deposito)];
    }

    /**
     * `UpdateDepositoAsync`: overwrites the stored warehouse with the given
     * record; an absent key saves nothing (the store reports the failed save).
     */
    method UpdateDeposito(deposito: Row<Deposito>) returns (saved: bool)
      requires db.Valid()
      modifies db
      ensures db.Valid()
      ensures saved <==> deposito.key in Keys(old(db.depositos))
      ensures db.depositos == Replace(old(db.depositos), deposito.key, deposito.val)
      ensures saved ==> Lookup(db.depositos, deposito.key) == Some(deposito.val)
      ensures forall k | k != deposito.key :: Lookup(db.depositos, k) == Lookup(old(db.depositos), k)
      ensures db.produtos == old(db.produtos) && db.clientes == old(db.clientes)
      ensures db.usuarios == old(db.usuarios) && db.vendas == old(db.vendas)
    {
      var i := IndexOf(db.depositos, deposito.key);
      if i.None? {
        return false;
      }
      forall k {
        LookupReplace(db.depositos, deposito.key, deposito.val, k);
      }
      db.depositos := db.depositos[i.value := deposito];
      saved := true;
    }

    /**
     * `DeleteDepositoAsync`: removes the warehouse stored under `id`, if there
     * is one, and no other. `Produto.DepositoId`, `Venda.DepositoId` and
     * `Venda.ProdutoId` are required foreign keys, which cascade on delete: the
     * warehouse's products go with it, and so do the sales of the warehouse
     * and the sales of those products.
     */
    method DeleteDeposito(id: int)
      requires db.Valid()
      modifies db
      ensures db.Valid()
      ensures id !in Keys(db.depositos)
      ensures forall x | x in old(db.depositos) && x.key != id :: x in db.depositos
      ensures forall x | x in db.depositos :: x in old(db.depositos)
      ensures id !in Keys(old(db.depositos)) ==>
        db.depositos == old(db.depositos) && db.produtos == old(db.produtos) && db.vendas == old(db.vendas)
      ensures id in Keys(old(db.depositos)) ==>
        && db.produtos == Select(old(db.produtos), ForaDoDeposito(id))
        && db.vendas == Select(old(db.vendas), VendaSobrevive(old(db.produtos), id))
      ensures id in Keys(old(db.depositos)) ==> forall x | x in db.produtos :: x.val.depositoId != id
      ensures id in Keys(old(db.depositos)) ==>
        forall x | x in db.vendas :: x.val.depositoId != id && x.val.produtoId !in Keys(old(db.produtos)) - Keys(db.produtos)
      ensures db.clientes == old(db.clientes) && db.usuarios == old(db.usuarios)
    {
      var deposito := Lookup(db.depositos, id);
      if deposito.Some? {
        RemoveKeys(db.depositos, id);
        RemoveRows(db.depositos, id);
        var removidos := KeysWhere(db.produtos, (p: Produto) => p.depositoId == id);
        var produtos := Select(db.produtos, ForaDoDeposito(id));
        assert Keys(db.produtos) - Keys(produtos) <= removidos by {
          forall k | k in Keys(db.produtos) - Keys(produtos) ensures k in removidos {
            var x :| x in db.produtos && x.key == k;
            assert x !in produtos;
          }
        }
        db.vendas := Select(db.vendas, VendaSobrevive(db.produtos, id));
        db.produtos := produtos;
        db.depositos := Remove(db.depositos, id);
      }
    }

    /** `GetProdutosNoDepositoSumarizadaAsync`, which reads the product table and changes nothing. */
    method GetProdutosNoDepositoSumarizada(depositoId: int) returns (r: seq<ProdutoNoDeposito>)
      ensures r == ProdutosNoDeposito(db.produtos, depositoId)
    {
      r := ProdutosNoDeposito(db.produtos, depositoId);
    }
  }
}
