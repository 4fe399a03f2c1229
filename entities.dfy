/**
 * The records of the shop (the files under models/) as values. The primary key `Id` of
 * each record is the key of the row that holds it (see Tables.Row), so it is
 * not repeated here. Navigation properties (`Venda.Produto`, `Produto.Deposito`,
 * ...) are not fields: they are resolved by looking the foreign key up.
 */
module Entities {

  const MinInt32: int := -0x8000_0000
  const MaxInt32: int := 0x7FFF_FFFF

  /** A C# `int`. */
  type Int32 = x: int | MinInt32 <= x <= MaxInt32

  /** C#'s unchecked `int` arithmetic: the mathematical result taken modulo 2^32. */
  function Wrap32(x: int): (r: Int32)
    ensures MinInt32 <= x <= MaxInt32 ==> r == x
    ensures (r - x) % 0x1_0000_0000 == 0
  {
    (x - MinInt32) % 0x1_0000_0000 + MinInt32
  }

  /** Adding back what was taken away undoes the wrapped subtraction. */
  lemma WrapSubAdd(q: Int32, n: Int32)
    ensures Wrap32(Wrap32(q - n) + n) == q
  {
    var d := Wrap32(q - n);
    var m := 0x1_0000_0000;
    assert (d - (q - n)) % m == 0;
    var c := (d - (q - n)) / m;
    assert d + n == q + c * m;
    assert (Wrap32(d + n) - q) % m == 0 by {
      assert (Wrap32(d + n) - (d + n)) % m == 0;
    }
  }

  /** Just above the top of `int`, the wrapped value is 2^32 below the true one. */
  lemma WrapAbove(x: int)
    requires MaxInt32 < x <= MaxInt32 + 0x8000_0000
    ensures Wrap32(x) == x - 0x1_0000_0000 < 0
  {
    assert 0x1_0000_0000 <= x - MinInt32 < 2 * 0x1_0000_0000;
  }

  /** A `double`, kept as its 64 bits: the model never computes with prices. */
  datatype Price = Price(bits: bv64)

  datatype Cliente = Cliente(nome: string, cpf: string, email: string)

  datatype Deposito = Deposito(nome: string)

  datatype Produto = Produto(nome: string, preco: Price, quantidade: Int32, depositoId: int)

  datatype Venda = Venda(
    dataVenda: string,
    numeroNotaFiscal: string,
    clienteId: int,
    produtoId: int,
    depositoId: int,
    quantidade: Int32,
    precoUnitario: Price)

  datatype Usuario = Usuario(nome: string, email: string, senha: string)
}
