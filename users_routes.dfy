/**
 * The server's user registry (`/api/users`): an array of user records in
 * `users.json`, passwords stored only as their one-way hash. The hash is the
 * uninterpreted function `H`; the handlers add, remove, re-password and look up.
 */
module UsersRoutes {
  import opened JsStrings
  import opened JsValues
  import opened ServerEnvelope
  import UserManagement

  /**
   * What `users.json` holds: no file, text `JSON.parse` rejects, a parsed value
   * that is not an array, or an array of user records.
   */
  datatype UsersFile = NoFile | Unreadable | NotAList | UserList(users: seq<Record>)

  /**
   * `readUsers()`: a missing or unparseable file reads as `[]`. A parsed value that
   * is not an array is `None`: the handlers' first `find`/`findIndex` on it throws.
   */
  function ReadUsers(f: UsersFile): (r: Option<seq<Record>>)
    ensures r.None? <==> f.NotAList?
    ensures f.NoFile? || f.Unreadable? ==> r == Some([])
    ensures f.UserList? ==> r == Some(f.users)
  {
    match f
    case NoFile => Some([])
    case Unreadable => Some([])
    case NotAList => None
    case UserList(users) => Some(users)
  }

  /** `bcrypt.hash(v, 10)`: `None` when `v` is not a string, which bcrypt rejects by throwing. */
  function Hash(H: string -> string, v: Value): (h: Option<string>)
    ensures h.Some? <==> v.Str?
    ensures v.Str? ==> h == Some(H(v.s))
  {
    if v.Str? then Some(H(v.s)) else None
  }

  /** `{ a: r.a, b: r.b, ... }` for the names in `keys`; a missing property is dropped by `JSON.stringify`. */
  function Pick(r: Record, keys: set<string>): (p: Record)
    ensures p.Keys == keys * r.Keys
    ensures forall k :: k in p ==> p[k] == r[k]
  {
    map k | k in keys && k in r :: r[k]
  }

  /** The properties POST echoes back for a created user. */
  const PublicKeys: set<string> := {"id", "nome", "usuario", "email", "tipo", "dataCriacao"}

  /** The properties DELETE echoes back for a removed user. */
  const SummaryKeys: set<string> := {"id", "nome", "usuario"}

  /** The record POST stores: the hash of the password in `senha`, `tipo` defaulting to `'usuario'`. */
  function NewServerUser(id: string, nome: Value, usuario: Value, email: Value, hashed: string,
                         tipo: Value, now: string): (u: Record)
    ensures u.Keys == PublicKeys + {"senha"}
    ensures Field(u, "senha") == Str(hashed)
    ensures Field(u, "tipo") == (if Truthy(tipo) then tipo else Str("usuario"))
    ensures Field(u, "usuario") == usuario && Field(u, "email") == email && Field(u, "nome") == nome
  {
    map["id" := Str(id), "nome" := nome, "usuario" := usuario, "email" := email,
        "senha" := Str(hashed), "tipo" := Or(tipo, Str("usuario")), "dataCriacao" := Str(now)]
  }

  /** What POST answers for a created user is the stored record without its password. */
  lemma CreateEchoIsRecordWithoutSenha(id: string, nome: Value, usuario: Value, email: Value,
                                       hashed: string, tipo: Value, now: string)
    ensures var u := NewServerUser(id, nome, usuario, email, hashed, tipo, now);
      Pick(u, PublicKeys) == Without(u, "senha") && "senha" !in Pick(u, PublicKeys)
  {
    var u := NewServerUser(id, nome, usuario, email, hashed, tipo, now);
    assert Pick(u, PublicKeys).Keys == Without(u, "senha").Keys;
  }

  /**
   * GET `/`: always a success carrying what the file parsed to, password hashes
   * included; a parsed value that is not an array is echoed as it is (`None`).
   */
  function ListUsers(f: UsersFile): (r: Response<Option<seq<Record>>>)
    ensures r.status == 200 && r.success && r.data.Some?
    ensures f.NoFile? || f.Unreadable? ==> r.data.value == Some([])
    ensures f.UserList? ==> r.data.value == Some(f.users)
    ensures f.NotAList? ==> r.data.value.None?
  {
    Ok(ReadUsers(f))
  }

  class UsersRoute {
    /** What `users.json` holds. */
    var file: UsersFile

    constructor (stored: UsersFile)
      ensures file == stored
    {
      file := stored;
    }

    /**
     * POST `/`: a falsy `nome`, `usuario`, `email` or `senha` is a 400; a taken
     * `usuario` or `email` is a 400; otherwise one record holding `H(senha)` is
     * appended, and the answer carries it without `senha`.
     */
    method Create(body: Record, H: string -> string, newId: string, now: string, writeOk: bool)
      returns (resp: Response<Record>)
      modifies this
      ensures var nome, usuario, email, senha := Field(body, "nome"), Field(body, "usuario"), Field(body, "email"), Field(body, "senha");
        if !Truthy(nome) || !Truthy(usuario) || !Truthy(email) || !Truthy(senha) then
          resp == Fail(400, "Todos os campos são obrigatórios") && file == old(file)
        else if ReadUsers(old(file)).None? then
          resp == Fail(500, "Erro ao adicionar usuário") && file == old(file)
        else
          var users := ReadUsers(old(file)).value;
          if !NoneWith(users, "usuario", usuario) || !NoneWith(users, "email", email) then
            resp == Fail(400, "Usuário ou email já existem") && file == old(file)
          else if !senha.Str? then
            resp == Fail(500, "Erro ao adicionar usuário") && file == old(file)
          else
            var u := NewServerUser(newId, nome, usuario, email, H(senha.s), Field(body, "tipo"), now);
            if writeOk then
              resp == Response(200, true, Some("Usuário adicionado com sucesso"), Some(Pick(u, PublicKeys)))
              && file == UserList(users + [u])
            else
              resp == Fail(500, "Erro ao salvar usuário") && file == old(file)
      ensures resp.success ==> resp.data.Some? && "senha" !in resp.data.value
      ensures ReadUsers(old(file)).Some? && UserManagement.UniqueAccounts(ReadUsers(old(file)).value) && ReadUsers(file).Some? ==>
        UserManagement.UniqueAccounts(ReadUsers(file).value)
    {
      var nome, usuario, email, senha := Field(body, "nome"), Field(body, "usuario"), Field(body, "email"), Field(body, "senha");
      if !Truthy(nome) || !Truthy(usuario) || !Truthy(email) || !Truthy(senha) {
        return Fail(400, "Todos os campos são obrigatórios");
      }
      var read := ReadUsers(file);
      if read.None? {
        return Fail(500, "Erro ao adicionar usuário");
      }
      var users := read.value;
      if IndexOf(users, "usuario", usuario) != -1 || IndexOf(users, "email", email) != -1 {
        return Fail(400, "Usuário ou email já existem");
      }
      var hashed := Hash(H, senha);
      if hashed.None? {
        return Fail(500, "Erro ao adicionar usuário");
      }
      var u := NewServerUser(newId, nome, usuario, email, hashed.value, Field(body, "tipo"), now);
      AppendKeepsUnique(users, u);
      users := users + [u];
      if !writeOk {
        return Fail(500, "Erro ao salvar usuário");
      }
      file := UserList(users);
      resp := Response(200, true, Some("Usuário adicionado com sucesso"), Some(Pick(u, PublicKeys)));
    }

    /**
     * DELETE `/:id`: an unknown id is a 404 with no write; otherwise exactly the
     * first record with the id is removed (administrators included) and its
     * `id`, `nome` and `usuario` are returned.
     */
    method Delete(id: string, writeOk: bool) returns (resp: Response<Record>)
      modifies this
      ensures ReadUsers(old(file)).None? ==> resp == Fail(500, "Erro ao remover usuário") && file == old(file)
      ensures ReadUsers(old(file)).Some? ==>
        var users := ReadUsers(old(file)).value;
        var i := IndexOf(users, "id", Str(id));
        if i == -1 then
          resp == Fail(404, "Usuário não encontrado") && file == old(file)
        else if writeOk then
          resp == Response(200, true, Some("Usuário removido com sucesso"), Some(Pick(users[i], SummaryKeys)))
          && file == UserList(RemoveAt(users, i))
        else
          resp == Fail(500, "Erro ao salvar alterações") && file == old(file)
      ensures ReadUsers(old(file)).Some? && UserManagement.UniqueAccounts(ReadUsers(old(file)).value) && ReadUsers(file).Some? ==>
        UserManagement.UniqueAccounts(ReadUsers(file).value)
    {
      var read := ReadUsers(file);
      if read.None? {
        return Fail(500, "Erro ao remover usuário");
      }
      var users := read.value;
      var idx := IndexOf(users, "id", Str(id));
      if idx == -1 {
        return Fail(404, "Usuário não encontrado");
      }
      var removed := users[idx];
      UserManagement.RemovalKeepsUnique(users, idx);
      users := RemoveAt(users, idx);
      if !writeOk {
        return Fail(500, "Erro ao salvar alterações");
      }
      file := UserList(users);
      resp := Response(200, true, Some("Usuário removido com sucesso"), Some(Pick(removed, SummaryKeys)));
    }

    /**
     * PUT `/:id/password`: a falsy `novaSenha` is a 400 before any lookup; an
     * unknown id is a 404; otherwise only that user's `senha` becomes `H(novaSenha)`.
     */
    method ChangePassword(id: string, body: Record, H: string -> string, writeOk: bool)
      returns (resp: Response<Record>)
      modifies this
      ensures var novaSenha := Field(body, "novaSenha");
        if !Truthy(novaSenha) then
          resp == Fail(400, "Nova senha é obrigatória") && file == old(file)
        else if ReadUsers(old(file)).None? then
          resp == Fail(500, "Erro ao alterar senha") && file == old(file)
        else
          var users := ReadUsers(old(file)).value;
          var i := IndexOf(users, "id", Str(id));
          if i == -1 then
            resp == Fail(404, "Usuário não encontrado") && file == old(file)
          else if !novaSenha.Str? then
            resp == Fail(500, "Erro ao alterar senha") && file == old(file)
          else if writeOk then
            resp == Response(200, true, Some("Senha alterada com sucesso"), None)
            && file == UserList(UserManagement.SetPassword(users, i, H(novaSenha.s)))
          else
            resp == Fail(500, "Erro ao salvar alterações") && file == old(file)
      ensures ReadUsers(old(file)).Some? && UserManagement.UniqueAccounts(ReadUsers(old(file)).value) && ReadUsers(file).Some? ==>
        UserManagement.UniqueAccounts(ReadUsers(file).value)
    {
      var novaSenha := Field(body, "novaSenha");
      if !Truthy(novaSenha) {
        return Fail(400, "Nova senha é obrigatória");
      }
      var read := ReadUsers(file);
      if read.None? {
        return Fail(500, "Erro ao alterar senha");
      }
      var users := read.value;
      var idx := IndexOf(users, "id", Str(id));
      if idx == -1 {
        return Fail(404, "Usuário não encontrado");
      }
      var hashed := Hash(H, novaSenha);
      if hashed.None? {
        return Fail(500, "Erro ao alterar senha");
      }
      users := UserManagement.SetPassword(users, idx, hashed.value);
      if !writeOk {
        return Fail(500, "Erro ao salvar alterações");
      }
      file := UserList(users);
      resp := Response(200, true, Some("Senha alterada com sucesso"), None);
    }

    /** GET `/:id`: the first record with the id, without `senha`, or 404. */
    function GetById(id: string): (resp: Response<Record>)
      reads this
      ensures ReadUsers(file).None? ==> resp == Fail(500, "Erro ao buscar usuário")
      ensures ReadUsers(file).Some? ==>
        var users := ReadUsers(file).value;
        (NoneWith(users, "id", Str(id)) ==> resp == Fail(404, "Usuário não encontrado"))
        && (forall i :: FirstWith(users, i, "id", Str(id)) ==> resp == Ok(Without(users[i], "senha")))
      ensures resp.success ==> resp.data.Some? && "senha" !in resp.data.value
    {
      var read := ReadUsers(file);
      if read.None? then Fail(500, "Erro ao buscar usuário")
      else
        var user := Find(read.value, "id", Str(id));
        if user.None? then Fail(404, "Usuário não encontrado")
        else
          assert forall i :: FirstWith(read.value, i, "id", Str(id)) ==> user.value == read.value[i] by {
            var k :| FirstWith(read.value, k, "id", Str(id)) && user.value == read.value[k];
            FirstWithUnique(read.value, k, "id", Str(id));
          }
          Ok(Without(user.value, "senha"))
    }
  }

  /**
   * Creating a user keeps every other record, appends the new one last, and the
   * combined `usuario`/`email` check keeps both unique.
   */
  lemma AppendKeepsUnique(users: seq<Record>, u: Record)
    requires NoneWith(users, "usuario", Field(u, "usuario")) && NoneWith(users, "email", Field(u, "email"))
    ensures UserManagement.UniqueAccounts(users) ==> UserManagement.UniqueAccounts(users + [u])
  {
    var s := users + [u];
    if UserManagement.UniqueAccounts(users) {
      forall i, j | 0 <= i < j < |s|
        ensures Field(s[i], "usuario") != Field(s[j], "usuario") && Field(s[i], "email") != Field(s[j], "email")
      {
        if j < |users| {
          assert s[i] == users[i] && s[j] == users[j];
        } else {
          assert s[i] == users[i] && s[j] == u;
        }
      }
    }
  }
}
