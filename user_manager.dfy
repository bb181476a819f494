/**
 * The browser-side user registry (`UserManager`): an array of user records kept
 * under the local-storage key `sistema_usuarios`, seeded with two default
 * accounts, with a plain-text login check and add / remove / change-password
 * operations that each rewrite the whole array.
 */
module UserManagement {
  import opened JsStrings
  import opened JsValues

  /** The two accounts written into an empty store; both carry the same creation stamp `now`. */
  function DefaultUsers(now: string): (users: seq<Record>)
    ensures |users| == 2 && UniqueAccounts(users)
    ensures IsPrimaryAdmin(users[0]) && !IsPrimaryAdmin(users[1])
  {
    [ map["id" := Str("admin_001"), "usuario" := Str("admin"), "senha" := Str("1234"),
          "nome" := Str("Administrador"), "email" := Str("admin@coderfactory.com"),
          "tipo" := Str("admin"), "dataCriacao" := Str(now)],
      map["id" := Str("teste_001"), "usuario" := Str("teste"), "senha" := Str("123456"),
          "nome" := Str("Usuário Teste"), "email" := Str("teste@coderfactory.com"),
          "tipo" := Str("usuario"), "dataCriacao" := Str(now)] ]
  }

  /** No two records share a login name, and no two share an email. */
  ghost predicate UniqueAccounts(users: seq<Record>) {
    forall i, j :: 0 <= i < j < |users| ==>
      Field(users[i], "usuario") != Field(users[j], "usuario") && Field(users[i], "email") != Field(users[j], "email")
  }

  /** The account that `removerUsuario` refuses to delete. */
  predicate IsPrimaryAdmin(u: Record) {
    Field(u, "tipo") == Str("admin") && Field(u, "usuario") == Str("admin")
  }

  datatype LoginError = UsuarioInexistente | SenhaIncorreta {
    /** The `tipo_erro` code the login screen switches on. */
    function Code(): string {
      match this
      case UsuarioInexistente => "usuario_inexistente"
      case SenhaIncorreta => "senha_incorreta"
    }
  }

  datatype LoginResult = LoggedIn(usuario: Record) | Refused(tipoErro: LoginError) {
    function Mensagem(): string {
      match this
      case LoggedIn(_) => "Login realizado com sucesso"
      case Refused(UsuarioInexistente) => "Usuário não encontrado"
      case Refused(SenhaIncorreta) => "Senha incorreta"
    }
  }

  /**
   * The login check over a list of users: the first record with the login name
   * decides; an unknown name is never reported as a wrong password, and a
   * successful result is that record without its `senha` property.
   */
  function CheckLogin(users: seq<Record>, usuario: string, senha: string): (r: LoginResult)
    ensures r == Refused(UsuarioInexistente) <==> NoneWith(users, "usuario", Str(usuario))
    ensures r == Refused(SenhaIncorreta) <==>
      exists i :: FirstWith(users, i, "usuario", Str(usuario)) && Field(users[i], "senha") != Str(senha)
    ensures r.LoggedIn? ==> "senha" !in r.usuario
    ensures r.LoggedIn? ==>
      exists i :: FirstWith(users, i, "usuario", Str(usuario)) && Field(users[i], "senha") == Str(senha)
                  && r.usuario == Without(users[i], "senha")
  {
    var i := IndexOf(users, "usuario", Str(usuario));
    if i == -1 then Refused(UsuarioInexistente)
    else if Field(users[i], "senha") != Str(senha) then Refused(SenhaIncorreta)
    else LoggedIn(Without(users[i], "senha"))
  }

  /** The record `adicionarUsuario` appends. */
  function NewUser(nome: string, usuario: string, senha: string, email: string, tipo: string,
                   id: string, now: string): (u: Record)
    ensures Field(u, "id") == Str(id) && Field(u, "usuario") == Str(usuario) && Field(u, "senha") == Str(senha)
    ensures Field(u, "nome") == Str(nome) && Field(u, "email") == Str(email) && Field(u, "tipo") == Str(tipo)
    ensures Field(u, "dataCriacao") == Str(now)
  {
    map["id" := Str(id), "usuario" := Str(usuario), "senha" := Str(senha), "nome" := Str(nome),
        "email" := Str(email), "tipo" := Str(tipo), "dataCriacao" := Str(now)]
  }

  /** `'user_' + Date.now() + '_' + random`, with the clock and random parts given. */
  function GenerateUserId(stamp: string, random: string): (id: string)
    ensures |id| == |stamp| + |random| + 6
    ensures id[..5] == "user_" && id[5..5 + |stamp|] == stamp && id[|id| - |random|..] == random
  {
    "user_" + stamp + "_" + random
  }

  /** The list after `users[i].senha = senha`: only that property of that record changes. */
  function SetPassword(users: seq<Record>, i: int, senha: string): (r: seq<Record>)
    requires 0 <= i < |users|
    ensures |r| == |users|
    ensures forall j :: 0 <= j < |users| && j != i ==> r[j] == users[j]
    ensures Field(r[i], "senha") == Str(senha)
    ensures forall k :: k != "senha" ==> Field(r[i], k) == Field(users[i], k)
  {
    users[i := users[i]["senha" := Str(senha)]]
  }

  /** The `{sucesso, mensagem, usuario?}` object the mutating operations return. */
  datatype Reply = Reply(sucesso: bool, mensagem: string, usuario: Option<Record>)

  class UserManager {
    /** What the key `sistema_usuarios` holds. */
    var slot: Slot

    /** `new UserManager()`: adopts the stored value and seeds it if it reads as empty. */
    constructor (stored: Slot, now: string, saveOk: bool)
      ensures Load(stored) == [] && saveOk ==> slot == Saved(DefaultUsers(now))
      ensures Load(stored) != [] || !saveOk ==> slot == stored
    {
      slot := stored;
      new;
      InitializeDefaultUsers(now, saveOk);
    }

    /** `getAllUsers()`: an absent or unparseable item gives the empty list, never an error. */
    function GetAllUsers(): (users: seq<Record>)
      reads this
      ensures !slot.Saved? ==> users == []
      ensures slot.Saved? ==> users == slot.records
    {
      Load(slot)
    }

    /** `saveUsers(users)`: the write either replaces the stored array or fails and leaves it. */
    method SaveUsers(users: seq<Record>, saveOk: bool) returns (ok: bool)
      modifies this
      ensures ok == saveOk
      ensures slot == if saveOk then Saved(users) else old(slot)
    {
      if saveOk {
        slot := Saved(users);
      }
      ok := saveOk;
    }

    /** Seeds the two default accounts when the store reads as empty; otherwise writes nothing. */
    method InitializeDefaultUsers(now: string, saveOk: bool)
      modifies this
      ensures old(GetAllUsers()) == [] && saveOk ==> slot == Saved(DefaultUsers(now))
      ensures old(GetAllUsers()) != [] || !saveOk ==> slot == old(slot)
    {
      var users := GetAllUsers();
      if |users| == 0 {
        var _ := SaveUsers(DefaultUsers(now), saveOk);
      }
    }

    /** `validarLogin(usuario, senha)`: the login check against the stored list; it writes nothing. */
    function ValidarLogin(usuario: string, senha: string): (r: LoginResult)
      reads this
      ensures r == CheckLogin(GetAllUsers(), usuario, senha)
    {
      CheckLogin(GetAllUsers(), usuario, senha)
    }

    /**
     * `adicionarUsuario`: a taken login name is refused first, then a taken email;
     * otherwise exactly one record is appended and saved.
     */
    method AdicionarUsuario(nome: string, usuario: string, senha: string, email: string,
                            tipo: Option<string>, stamp: string, random: string, now: string,
                            saveOk: bool)
      returns (r: Reply)
      modifies this
      ensures !NoneWith(old(GetAllUsers()), "usuario", Str(usuario)) ==>
        r == Reply(false, "Usuário já existe", None) && slot == old(slot)
      ensures NoneWith(old(GetAllUsers()), "usuario", Str(usuario)) && !NoneWith(old(GetAllUsers()), "email", Str(email)) ==>
        r == Reply(false, "Email já cadastrado", None) && slot == old(slot)
      ensures NoneWith(old(GetAllUsers()), "usuario", Str(usuario)) && NoneWith(old(GetAllUsers()), "email", Str(email)) ==>
        var u := NewUser(nome, usuario, senha, email, if tipo.Some? then tipo.value else "usuario",
                         GenerateUserId(stamp, random), now);
        if saveOk then r == Reply(true, "Usuário adicionado com sucesso", Some(u)) && slot == Saved(old(GetAllUsers()) + [u])
        else r == Reply(false, "Erro ao salvar usuário", None) && slot == old(slot)
      ensures !saveOk ==> !r.sucesso
      ensures UniqueAccounts(old(GetAllUsers())) ==> UniqueAccounts(GetAllUsers())
    {
      var users := GetAllUsers();
      if IndexOf(users, "usuario", Str(usuario)) != -1 {
        return Reply(false, "Usuário já existe", None);
      }
      if IndexOf(users, "email", Str(email)) != -1 {
        return Reply(false, "Email já cadastrado", None);
      }
      var novo := NewUser(nome, usuario, senha, email, if tipo.Some? then tipo.value else "usuario",
                          GenerateUserId(stamp, random), now);
      users := users + [novo];
      var saved := SaveUsers(users, saveOk);
      if saved {
        r := Reply(true, "Usuário adicionado com sucesso", Some(novo));
      } else {
        r := Reply(false, "Erro ao salvar usuário", None);
      }
    }

    /**
     * `removerUsuario`: an unknown name changes nothing; the primary admin is never
     * removed; otherwise exactly the first record with the name is removed.
     */
    method RemoverUsuario(usuario: string, saveOk: bool) returns (r: Reply)
      modifies this
      ensures NoneWith(old(GetAllUsers()), "usuario", Str(usuario)) ==>
        r == Reply(false, "Usuário não encontrado", None) && slot == old(slot)
      ensures forall i :: FirstWith(old(GetAllUsers()), i, "usuario", Str(usuario)) ==>
        if IsPrimaryAdmin(old(GetAllUsers())[i]) then
          r == Reply(false, "Não é possível remover o usuário administrador principal", None) && slot == old(slot)
        else if saveOk then
          r == Reply(true, "Usuário removido com sucesso", None) && slot == Saved(RemoveAt(old(GetAllUsers()), i))
        else
          r == Reply(false, "Erro ao remover usuário", None) && slot == old(slot)
      ensures !saveOk ==> !r.sucesso
      ensures forall u :: u in old(GetAllUsers()) && IsPrimaryAdmin(u) ==> u in GetAllUsers()
      ensures UniqueAccounts(old(GetAllUsers())) ==> UniqueAccounts(GetAllUsers())
    {
      var users := GetAllUsers();
      var i := IndexOf(users, "usuario", Str(usuario));
      if i == -1 {
        return Reply(false, "Usuário não encontrado", None);
      }
      if Field(users[i], "tipo") == Str("admin") && Field(users[i], "usuario") == Str("admin") {
        return Reply(false, "Não é possível remover o usuário administrador principal", None);
      }
      FirstWithUnique(users, i, "usuario", Str(usuario));
      var rest := RemoveAt(users, i);
      RemovalKeepsPrimaryAdmin(users, i);
      RemovalKeepsUnique(users, i);
      var saved := SaveUsers(rest, saveOk);
      if saved {
        r := Reply(true, "Usuário removido com sucesso", None);
      } else {
        r := Reply(false, "Erro ao remover usuário", None);
      }
    }

    /** `alterarSenha`: only the `senha` of the first record with the name changes. */
    method AlterarSenha(usuario: string, novaSenha: string, saveOk: bool) returns (r: Reply)
      modifies this
      ensures NoneWith(old(GetAllUsers()), "usuario", Str(usuario)) ==>
        r == Reply(false, "Usuário não encontrado", None) && slot == old(slot)
      ensures forall i :: FirstWith(old(GetAllUsers()), i, "usuario", Str(usuario)) ==>
        if saveOk then
          r == Reply(true, "Senha alterada com sucesso", None) && slot == Saved(SetPassword(old(GetAllUsers()), i, novaSenha))
        else
          r == Reply(false, "Erro ao alterar senha", None) && slot == old(slot)
      ensures !saveOk ==> !r.sucesso
      ensures UniqueAccounts(old(GetAllUsers())) ==> UniqueAccounts(GetAllUsers())
    {
      var users := GetAllUsers();
      var i := IndexOf(users, "usuario", Str(usuario));
      if i == -1 {
        return Reply(false, "Usuário não encontrado", None);
      }
      FirstWithUnique(users, i, "usuario", Str(usuario));
      var saved := SaveUsers(SetPassword(users, i, novaSenha), saveOk);
      if saved {
        r := Reply(true, "Senha alterada com sucesso", None);
      } else {
        r := Reply(false, "Erro ao alterar senha", None);
      }
    }

    /** `buscarUsuarioPorId(id)`: the first record with that id, if any. */
    function BuscarUsuarioPorId(id: string): (r: Option<Record>)
      reads this
      ensures r.None? <==> NoneWith(GetAllUsers(), "id", Str(id))
      ensures r.Some? ==> exists i :: FirstWith(GetAllUsers(), i, "id", Str(id)) && r.value == GetAllUsers()[i]
    {
      Find(GetAllUsers(), "id", Str(id))
    }

    /** `buscarUsuarioPorNome(usuario)`: the first record with that login name, password included. */
    function BuscarUsuarioPorNome(usuario: string): (r: Option<Record>)
      reads this
      ensures r.None? <==> NoneWith(GetAllUsers(), "usuario", Str(usuario))
      ensures r.Some? ==> exists i :: FirstWith(GetAllUsers(), i, "usuario", Str(usuario)) && r.value == GetAllUsers()[i]
    {
      Find(GetAllUsers(), "usuario", Str(usuario))
    }
  }

  /** Removing a record that is not the primary admin keeps every primary admin record. */
  lemma RemovalKeepsPrimaryAdmin(users: seq<Record>, i: int)
    requires 0 <= i < |users| && !IsPrimaryAdmin(users[i])
    ensures forall u :: u in users && IsPrimaryAdmin(u) ==> u in RemoveAt(users, i)
  {
    var rest := RemoveAt(users, i);
    forall u | u in users && IsPrimaryAdmin(u) ensures u in rest {
      var j :| 0 <= j < |users| && users[j] == u;
      if j < i { assert rest[j] == u; } else { assert rest[j - 1] == u; }
    }
  }

  lemma RemovalKeepsUnique(users: seq<Record>, i: int)
    requires 0 <= i < |users|
    ensures UniqueAccounts(users) ==> UniqueAccounts(RemoveAt(users, i))
  {
    var rest := RemoveAt(users, i);
    if UniqueAccounts(users) {
      forall a, b | 0 <= a < b < |rest|
        ensures Field(rest[a], "usuario") != Field(rest[b], "usuario")
        ensures Field(rest[a], "email") != Field(rest[b], "email")
      {
        var a' := if a < i then a else a + 1;
        var b' := if b < i then b else b + 1;
        assert rest[a] == users[a'] && rest[b] == users[b'];
      }
    }
  }

  /**
   * A user just appended by `adicionarUsuario` can log in with the password
   * given, and any other password is reported as wrong.
   */
  lemma AddedUserCanLogin(users: seq<Record>, nome: string, usuario: string, senha: string,
                          email: string, tipo: string, id: string, now: string, other: string)
    requires NoneWith(users, "usuario", Str(usuario))
    requires other != senha
    ensures var u := NewUser(nome, usuario, senha, email, tipo, id, now);
            CheckLogin(users + [u], usuario, senha) == LoggedIn(Without(u, "senha"))
            && CheckLogin(users + [u], usuario, other) == Refused(SenhaIncorreta)
  {
    var u := NewUser(nome, usuario, senha, email, tipo, id, now);
    var s := users + [u];
    assert FirstWith(s, |users|, "usuario", Str(usuario)) by {
      forall j | 0 <= j < |users| ensures Field(s[j], "usuario") != Str(usuario) {
        assert s[j] == users[j];
      }
    }
    FirstWithUnique(s, |users|, "usuario", Str(usuario));
  }

  /** Against the seeded accounts, `admin` with a wrong password is refused as `senha_incorreta`. */
  lemma SeededAdminWrongPassword(now: string, senha: string)
    requires senha != "1234"
    ensures CheckLogin(DefaultUsers(now), "admin", senha) == Refused(SenhaIncorreta)
    ensures CheckLogin(DefaultUsers(now), "admin", "1234").LoggedIn?
  {
    var users := DefaultUsers(now);
    assert FirstWith(users, 0, "usuario", Str("admin"));
    FirstWithUnique(users, 0, "usuario", Str("admin"));
  }
}
