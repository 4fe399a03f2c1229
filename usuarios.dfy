/**
 * The user service (services/UsuarioService.cs): the credential lookup used by
 * the login endpoint, and insertion, lookup, overwrite and delete-if-present
 * on the user table.
 */
module Usuarios {
  import opened Wrappers
  import opened Tables
  import opened Entities
  import opened Data

  /**
   * The credential test of the login query, `u.Email == email && u.Senha == senha`,
   * taken here as exact string equality on both fields.
   */
  predicate Credenciais(u: Usuario, email: string, senha: string) {
    u.email == email && u.senha == senha
  }

  /**
   * The query of `GetUsuarioByEmailAndSenhaAsync`: a stored user whose e-mail
   * and password both match the given ones, or null when there is none. The
   * model returns the first such user in storage order.
   */
  function PorCredenciais(usuarios: Table<Usuario>, email: string, senha: string): (r: Option<Row<Usuario>>)
    ensures r.Some? ==> r.value in usuarios && r.value.val.email == email && r.value.val.senha == senha
    ensures r.None? <==> forall x | x in usuarios :: !Credenciais(x.val, email, senha)
    ensures r.Some? ==>
      exists i | 0 <= i < |usuarios| :: usuarios[i] == r.value
        && forall j | 0 <= j < i :: !Credenciais(usuarios[j].val, email, senha)
  {
    if |usuarios| == 0 then None
    else
      assert forall x | x in usuarios :: x == usuarios[0] || x in usuarios[1..];
      if Credenciais(usuarios[0].val, email, senha) then
        Some(usuarios[0])
      else
        var r := PorCredenciais(usuarios[1..], email, senha);
        if r.Some? then
          var i :| 0 <= i < |usuarios[1..]| && usuarios[1..][i] == r.value
            && forall j | 0 <= j < i :: !Credenciais(usuarios[1..][j].val, email, senha);
          assert usuarios[i + 1] == r.value;
          assert forall j | 0 <= j < i + 1 :: !Credenciais(usuarios[j].val, email, senha) by {
            forall j | 0 <= j < i + 1 ensures !Credenciais(usuarios[j].val, email, senha) {
              if j > 0 {
                assert usuarios[j] == usuarios[1..][j - 1];
              }
            }
          }
          r
        else r
  }

  /**
   * A user just registered can log in with the credentials given, and is the
   * one found unless an earlier user already has them.
   */
  lemma {:induction false} LoginAfterRegister(usuarios: Table<Usuario>, k: int, u: Usuario)
    requires k !in Keys(usuarios)
    ensures PorCredenciais(Insert(usuarios, k, u), u.email, u.senha).Some?
    ensures PorCredenciais(usuarios, u.email, u.senha).None? ==>
      PorCredenciais(Insert(usuarios, k, u), u.email, u.senha) == Some(Row(k, u))
    ensures PorCredenciais(usuarios, u.email, u.senha).Some? ==>
      PorCredenciais(Insert(usuarios, k, u), u.email, u.senha)
        == PorCredenciais(usuarios, u.email, u.senha)
  {
    if |usuarios| > 0 {
      KeysCons(usuarios);
      var t := Insert(usuarios, k, u);
      assert t[1..] == Insert(usuarios[1..], k, u);
      LoginAfterRegister(usuarios[1..], k, u);
    }
  }

  class UsuarioService {
    const db: LojaDbContext

    constructor (db: LojaDbContext)
      ensures this.db == db
    {
      this.db := db;
    }

    /** `AddUsuarioAsync`: stores the user under a new key. */
    method AddUsuario(usuario: Usuario) returns (id: int)
      requires db.Valid()
      modifies db
      ensures db.Valid()
      ensures id !in Keys(old(db.usuarios))
      ensures db.usuarios == Insert(old(db.usuarios), id, usuario)
      ensures Lookup(db.usuarios, id) == Some(usuario)
      ensures forall k | k != id :: Lookup(db.usuarios, k) == Lookup(old(db.usuarios), k)
      ensures db.produtos == old(db.produtos) && db.clientes == old(db.clientes)
      ensures db.depositos == old(db.depositos) && db.vendas == old(db.vendas)
    {
      id := FreshKey(db.usuarios);
      forall k {
        LookupInsert(db.usuarios, id, usuario, k);
      }
      db.usuarios := db.usuarios + [Row(id, usuario)];
    }

    /** `RegisterUserAsync`: the same insertion as `AddUsuarioAsync`. */
    method RegisterUser(usuario: Usuario) returns (id: int)
      requires db.Valid()
      modifies db
      ensures db.Valid()
      ensures id !in Keys(old(db.usuarios))
      ensures db.usuarios == Insert(old(db.usuarios), id, usuario)
      ensures Lookup(db.usuarios, id) == Some(usuario)
      ensures forall k | k != id :: Lookup(db.usuarios, k) == Lookup(old(db.usuarios), k)
      ensures db.produtos == old(db.produtos) && db.clientes == old(db.clientes)
      ensures db.depositos == old(db.depositos) && db.vendas == old(db.vendas)
    {
      id := AddUsuario(usuario);
    }

    /** `GetUsuarioByIdAsync`: the user stored under `id`, or null. */
    method GetUsuarioById(id: int) returns (r: Option<Usuario>)
      ensures r.None? <==> id !in Keys(db.usuarios)
      ensures r.Some? ==> Row(id, r.value) in db.usuarios
    {
      r := Lookup(db.usuarios, id);
    }

    /**
     * `UpdateUsuarioAsync`: overwrites the stored user with the given record;
     * an absent key saves nothing.
     */
    method UpdateUsuario(usuario: Row<Usuario>) returns (saved: bool)
      requires db.Valid()
      modifies db
      ensures db.Valid()
      ensures saved <==> usuario.key in Keys(old(db.usuarios))
      ensures db.usuarios == Replace(old(db.usuarios), usuario.key, usuario.val)
      ensures saved ==> Lookup(db.usuarios, usuario.key) == Some(usuario.val)
      ensures forall k | k != usuario.key :: Lookup(db.usuarios, k) == Lookup(old(db.usuarios), k)
      ensures db.produtos == old(db.produtos) && db.clientes == old(db.clientes)
      ensures db.depositos == old(db.depositos) && db.vendas == old(db.vendas)
    {
      var i := IndexOf(db.usuarios, usuario.key);
      if i.None? {
        return false;
      }
      forall k {
        LookupReplace(db.usuarios, usuario.key, usuario.val, k);
      }
      db.usuarios := db.usuarios[i.value := usuario];
      saved := true;
    }

    /** `DeleteUsuarioAsync`: removes the user stored under `id`, if there is one, and no other. */
    method DeleteUsuario(id: int)
      requires db.Valid()
      modifies db
      ensures db.Valid()
      ensures id !in Keys(db.usuarios)
      ensures forall x | x in old(db.usuarios) && x.key != id :: x in db.usuarios
      ensures forall x | x in db.usuarios :: x in old(db.usuarios)
      ensures id !in Keys(old(db.usuarios)) ==> db.usuarios == old(db.usuarios)
      ensures db.produtos == old(db.produtos) && db.clientes == old(db.clientes)
      ensures db.depositos == old(db.depositos) && db.vendas == old(db.vendas)
    {
      var usuario := Lookup(db.usuarios, id);
      if usuario.Some? {
        RemoveKeys(db.usuarios, id);
        RemoveRows(db.usuarios, id);
        db.usuarios := Remove(db.usuarios, id);
      }
    }

    /** `GetUsuarioByEmailAndSenhaAsync` on the shared context, which it only reads. */
    method GetUsuarioByEmailAndSenha(email: string, senha: string) returns (r: Option<Row<Usuario>>)
      ensures r == PorCredenciais(db.usuarios, email, senha)
    {
      r := PorCredenciais(db.usuarios, email, senha);
    }
  }
}
