/**
 * The sales reports of services/VendaService.cs: the sales of one product or of
 * one client, listed one entry per sale, or summed up per product.
 *
 * A report entry names the product and the client through the sale's
 * navigation properties; a name is `None` when the referenced row is missing
 * (which the foreign keys of the store rule out).
 */
module Relatorios {
  import opened Wrappers
  import opened Tables
  import opened Entities
  import opened Vendas

  /** `v.Produto.Nome` */
  function NomeProduto(l: Ledger, produtoId: int): Option<string> {
    match Lookup(l.produtos, produtoId)
    case Some(p) => Some(p.nome)
    case None => None
  }

  /** `v.Cliente.Nome` */
  function NomeCliente(l: Ledger, clienteId: int): Option<string> {
    match Lookup(l.clientes, clienteId)
    case Some(c) => Some(c.nome)
    case None => None
  }

  /** `Where(v => v.ProdutoId == produtoId)` */
  function DoProduto(produtoId: int): Venda -> bool {
    (v: Venda) => v.produtoId == produtoId
  }

  /** `Where(v => v.ClienteId == clienteId)` */
  function DoCliente(clienteId: int): Venda -> bool {
    (v: Venda) => v.clienteId == clienteId
  }

  // ---------------------------------------------------------------------------
  // GetVendasPorProdutoDetalhadasAsync

  datatype DetalheProduto = DetalheProduto(
    nome: Option<string>, dataVenda: string, idVenda: int,
    clienteNome: Option<string>, quantidade: Int32, precoUnitario: Price)

  function DetalheDeProduto(l: Ledger, x: Row<Venda>): DetalheProduto {
    DetalheProduto(NomeProduto(l, x.val.produtoId), x.val.dataVenda, x.key,
                   NomeCliente(l, x.val.clienteId), x.val.quantidade, x.val.precoUnitario)
  }

  function DetalhesDeProduto(l: Ledger, s: Table<Venda>): (r: seq<DetalheProduto>)
    ensures |r| == |s|
    ensures forall i | 0 <= i < |s| :: r[i] == DetalheDeProduto(l, s[i])
  {
    if |s| == 0 then [] else [DetalheDeProduto(l, s[0])] + DetalhesDeProduto(l, s[1..])
  }

  /** Each sale of `s` has its entry, and each entry comes from a sale of `s`. */
  lemma DetalhesDeProdutoMembers(l: Ledger, s: Table<Venda>)
    ensures forall x | x in s :: DetalheDeProduto(l, x) in DetalhesDeProduto(l, s)
    ensures forall e | e in DetalhesDeProduto(l, s) :: exists x | x in s :: e == DetalheDeProduto(l, x)
  {
    var r := DetalhesDeProduto(l, s);
    forall x | x in s ensures DetalheDeProduto(l, x) in r {
      var i :| 0 <= i < |s| && s[i] == x;
      assert r[i] == DetalheDeProduto(l, x);
    }
    forall e | e in r ensures exists x | x in s :: e == DetalheDeProduto(l, x) {
      var i :| 0 <= i < |r| && r[i] == e;
      assert s[i] in s;
    }
  }

  /**
   * The detailed sales of a product: one entry per sale of that product, and
   * every entry describes such a sale.
   */
  function GetVendasPorProdutoDetalhadas(l: Ledger, produtoId: int): (r: seq<DetalheProduto>)
    ensures forall e | e in r ::
      exists x | x in l.vendas :: x.val.produtoId == produtoId && e == DetalheDeProduto(l, x)
    ensures forall x | x in l.vendas && x.val.produtoId == produtoId :: DetalheDeProduto(l, x) in r
    ensures l.Valid() ==> |r| == |KeysWhere(l.vendas, DoProduto(produtoId))|
  {
    var s := Select(l.vendas, DoProduto(produtoId));
    SelectCount(l.vendas, DoProduto(produtoId));
    DetalhesDeProdutoMembers(l, s);
    DetalhesDeProduto(l, s)
  }

  // ---------------------------------------------------------------------------
  // GetVendasPorProdutoSumarizadasAsync

  datatype ResumoProduto = ResumoProduto(produtoId: int, produtoNome: Option<string>, totalQuantidadeVendida: int)

  /**
   * The summary of a product's sales: `null` when the product has no sales,
   * otherwise its name and the units its sales account for.
   */
  function GetVendasPorProdutoSumarizadas(l: Ledger, produtoId: int): (r: Option<ResumoProduto>)
    ensures r.None? <==> forall x | x in l.vendas :: x.val.produtoId != produtoId
    ensures r.Some? ==> r.value.produtoId == produtoId && r.value.produtoNome == NomeProduto(l, produtoId)
  {
    var s := Select(l.vendas, DoProduto(produtoId));
    if |s| == 0 then None
    else
      assert s[0] in s;
      Some(ResumoProduto(produtoId, NomeProduto(l, produtoId), Sold(l.vendas, produtoId)))
  }

  function SomaQuantidades(r: seq<DetalheProduto>): int {
    if |r| == 0 then 0 else r[0].quantidade + SomaQuantidades(r[1..])
  }

  lemma {:induction false} SoldIsSumOfDetalhes(l: Ledger, t: Table<Venda>, produtoId: int)
    ensures SomaQuantidades(DetalhesDeProduto(l, Select(t, DoProduto(produtoId)))) == Sold(t, produtoId)
  {
    if |t| > 0 {
      SoldIsSumOfDetalhes(l, t[1..], produtoId);
      var rest := Select(t[1..], DoProduto(produtoId));
      if t[0].val.produtoId == produtoId {
        var s := [t[0]] + rest;
        assert Select(t, DoProduto(produtoId)) == s;
        assert s[1..] == rest;
      } else {
        assert Select(t, DoProduto(produtoId)) == rest;
      }
    }
  }

  /**
   * The summary agrees with the detailed report: it is absent exactly when the
   * detailed list is empty, and its total is the sum of the listed quantities.
   */
  lemma SumarizadaAgreesWithDetalhadas(l: Ledger, produtoId: int)
    ensures GetVendasPorProdutoSumarizadas(l, produtoId).None? <==> GetVendasPorProdutoDetalhadas(l, produtoId) == []
    ensures GetVendasPorProdutoSumarizadas(l, produtoId).Some? ==>
      GetVendasPorProdutoSumarizadas(l, produtoId).value.totalQuantidadeVendida
        == SomaQuantidades(GetVendasPorProdutoDetalhadas(l, produtoId))
  {
    SoldIsSumOfDetalhes(l, l.vendas, produtoId);
  }

  /** Two sales of a product, of two and three units, sum up to five units sold. */
  lemma SumarizadaExample()
    ensures
      var v1 := Venda("2024-06-20", "NF-1", 1, 1, 1, 2, Price(0));
      var v2 := Venda("2024-06-21", "NF-2", 1, 1, 1, 3, Price(0));
      var l := Ledger([Row(1, Cliente("Ana", "000", "ana@loja"))], [Row(1, Produto("caneta", Price(0), 10, 1))],
                      [Row(1, v1), Row(2, v2)]);
      GetVendasPorProdutoSumarizadas(l, 1) == Some(ResumoProduto(1, Some("caneta"), 5))
  {
    var v1 := Venda("2024-06-20", "NF-1", 1, 1, 1, 2, Price(0));
    var v2 := Venda("2024-06-21", "NF-2", 1, 1, 1, 3, Price(0));
    var vendas: Table<Venda> := [Row(1, v1), Row(2, v2)];
    assert vendas[1..][1..] == [];
    assert Lookup([Row(1, Produto("caneta", Price(0), 10, 1))], 1) == Some(Produto("caneta", Price(0), 10, 1));
  }

  // ---------------------------------------------------------------------------
  // GetVendasPorClienteDetalhadasAsync

  datatype DetalheCliente = DetalheCliente(
    nome: Option<string>, dataVenda: string, idVenda: int, quantidade: Int32, precoUnitario: Price)

  function DetalheDeCliente(l: Ledger, x: Row<Venda>): DetalheCliente {
    DetalheCliente(NomeProduto(l, x.val.produtoId), x.val.dataVenda, x.key, x.val.quantidade, x.val.precoUnitario)
  }

  function DetalhesDeCliente(l: Ledger, s: Table<Venda>): (r: seq<DetalheCliente>)
    ensures |r| == |s|
    ensures forall i | 0 <= i < |s| :: r[i] == DetalheDeCliente(l, s[i])
  {
    if |s| == 0 then [] else [DetalheDeCliente(l, s[0])] + DetalhesDeCliente(l, s[1..])
  }

  /** Each sale of `s` has its entry, and each entry comes from a sale of `s`. */
  lemma DetalhesDeClienteMembers(l: Ledger, s: Table<Venda>)
    ensures forall x | x in s :: DetalheDeCliente(l, x) in DetalhesDeCliente(l, s)
    ensures forall e | e in DetalhesDeCliente(l, s) :: exists x | x in s :: e == DetalheDeCliente(l, x)
  {
    var r := DetalhesDeCliente(l, s);
    forall x | x in s ensures DetalheDeCliente(l, x) in r {
      var i :| 0 <= i < |s| && s[i] == x;
      assert r[i] == DetalheDeCliente(l, x);
    }
    forall e | e in r ensures exists x | x in s :: e == DetalheDeCliente(l, x) {
      var i :| 0 <= i < |r| && r[i] == e;
      assert s[i] in s;
    }
  }

  /**
   * The detailed purchases of a client: one entry per sale to that client, and
   * every entry describes such a sale.
   */
  function GetVendasPorClienteDetalhadas(l: Ledger, clienteId: int): (r: seq<DetalheCliente>)
    ensures forall e | e in r ::
      exists x | x in l.vendas :: x.val.clienteId == clienteId && e == DetalheDeCliente(l, x)
    ensures forall x | x in l.vendas && x.val.clienteId == clienteId :: DetalheDeCliente(l, x) in r
    ensures l.Valid() ==> |r| == |KeysWhere(l.vendas, DoCliente(clienteId))|
  {
    var s := Select(l.vendas, DoCliente(clienteId));
    SelectCount(l.vendas, DoCliente(clienteId));
    DetalhesDeClienteMembers(l, s);
    DetalhesDeCliente(l, s)
  }

  // ---------------------------------------------------------------------------
  // GetVendasPorClienteSumarizadasAsync

  /** The products that a list of sales refers to, each once, in order of first appearance. */
  function ProdutosDistintos(s: Table<Venda>): (r: seq<int>)
    ensures forall i, j | 0 <= i < j < |r| :: r[i] != r[j]
    ensures forall p | p in r :: exists x | x in s :: x.val.produtoId == p
    ensures forall x | x in s :: x.val.produtoId in r
  {
    if |s| == 0 then []
    else
      var init := s[..|s| - 1];
      var last := s[|s| - 1];
      assert forall x | x in s :: x in init || x == last;
      assert forall x | x in init :: x in s;
      var r := ProdutosDistintos(init);
      if last.val.produtoId in r then r else r + [last.val.produtoId]
  }

  datatype ResumoCliente = ResumoCliente(produtoId: int, produtoNome: Option<string>, totalQuantidadeVendida: int)

  /** One group per product of `ps`, summed over the sales `s`. */
  function Grupos(l: Ledger, s: Table<Venda>, ps: seq<int>): (r: seq<ResumoCliente>)
    ensures |r| == |ps|
    ensures forall i | 0 <= i < |ps| :: r[i] == ResumoCliente(ps[i], NomeProduto(l, ps[i]), Sold(s, ps[i]))
  {
    if |ps| == 0 then [] else [ResumoCliente(ps[0], NomeProduto(l, ps[0]), Sold(s, ps[0]))] + Grupos(l, s, ps[1..])
  }

  lemma GruposDistinct(l: Ledger, s: Table<Venda>, ps: seq<int>)
    requires forall i, j | 0 <= i < j < |ps| :: ps[i] != ps[j]
    ensures forall i, j | 0 <= i < j < |Grupos(l, s, ps)| :: Grupos(l, s, ps)[i].produtoId != Grupos(l, s, ps)[j].produtoId
    ensures forall e | e in Grupos(l, s, ps) ::
      e.produtoNome == NomeProduto(l, e.produtoId) && e.totalQuantidadeVendida == Sold(s, e.produtoId)
  {
  }

  lemma GruposCover(l: Ledger, s: Table<Venda>, ps: seq<int>)
    requires forall p | p in ps :: exists x | x in s :: x.val.produtoId == p
    requires forall x | x in s :: x.val.produtoId in ps
    ensures forall e | e in Grupos(l, s, ps) :: exists x | x in s :: x.val.produtoId == e.produtoId
    ensures forall x | x in s :: exists e | e in Grupos(l, s, ps) :: e.produtoId == x.val.produtoId
  {
    var r := Grupos(l, s, ps);
    forall x | x in s ensures exists e | e in r :: e.produtoId == x.val.produtoId {
      var i :| 0 <= i < |ps| && ps[i] == x.val.produtoId;
      assert r[i] in r;
    }
    forall e | e in r ensures exists x | x in s :: x.val.produtoId == e.produtoId {
      var i :| 0 <= i < |r| && r[i] == e;
      assert ps[i] in ps;
    }
  }

  /**
   * The purchases of a client grouped by product: one group per product the
   * client bought, no product twice, each with the units sold to that client.
   */
  function GetVendasPorClienteSumarizadas(l: Ledger, clienteId: int): (r: seq<ResumoCliente>)
    ensures forall i, j | 0 <= i < j < |r| :: r[i].produtoId != r[j].produtoId
    ensures forall e | e in r ::
      exists x | x in l.vendas :: x.val.clienteId == clienteId && x.val.produtoId == e.produtoId
    ensures forall x | x in l.vendas && x.val.clienteId == clienteId ::
      exists e | e in r :: e.produtoId == x.val.produtoId
    ensures forall e | e in r ::
      e.produtoNome == NomeProduto(l, e.produtoId)
      && e.totalQuantidadeVendida == Sold(Select(l.vendas, DoCliente(clienteId)), e.produtoId)
  {
    var s := Select(l.vendas, DoCliente(clienteId));
    var ps := ProdutosDistintos(s);
    GruposDistinct(l, s, ps);
    GruposCover(l, s, ps);
    Grupos(l, s, ps)
  }
}
