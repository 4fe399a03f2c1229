/**
 * The database context (data/LojaDbContext.cs): one table per entity set. The
 * services share one context and change its tables in place.
 */
module Data {
  import opened Tables
  import opened Entities

  class LojaDbContext {
    var produtos: Table<Produto>
    var clientes: Table<Cliente>
    var usuarios: Table<Usuario>
    var depositos: Table<Deposito>
    var vendas: Table<Venda>

    /** The primary-key constraint on every table. */
    ghost predicate Valid()
      reads this
    {
      && UniqueKeys(produtos)
      && UniqueKeys(clientes)
      && UniqueKeys(usuarios)
      && UniqueKeys(depositos)
      && UniqueKeys(vendas)
    }

    constructor ()
      ensures Valid()
      ensures produtos == [] && clientes == [] && usuarios == [] && depositos == [] && vendas == []
    {
      produtos, clientes, usuarios, depositos, vendas := [], [], [], [], [];
    }
  }
}
