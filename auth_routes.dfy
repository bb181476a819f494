/**
 * The server's login route (`POST /api/auth/login`): an ordered chain of checks
 * over `users.json` that classifies every refusal, with `bcrypt.compare(p, s)`
 * read as `H(p) == s`. Nothing is written.
 */
module AuthRoutes {
  import opened JsStrings
  import opened JsValues
  import UsersRoutes

  /** The login answer: status, `success`, `message`, `tipo_erro` and, on success, `usuario`. */
  datatype LoginReply = LoginReply(status: nat, success: bool, message: string, tipoErro: Option<string>,
                                   usuario: Option<Record>)

  function Refuse(status: nat, message: string, tipoErro: string): LoginReply {
    LoginReply(status, false, message, Some(tipoErro), None)
  }

  const InternalError := LoginReply(500, false, "Erro interno do servidor", None, None)

  /**
   * The login handler. The `senha`-less record of the first user whose `usuario`
   * matches is returned exactly when the password hashes to the stored `senha`;
   * the refusals come in the order missing fields, unknown user, wrong password.
   */
  function Login(f: UsersRoutes.UsersFile, body: Record, H: string -> string): (r: LoginReply)
    ensures var usuario, senha := Field(body, "usuario"), Field(body, "senha");
      && (r.tipoErro == Some("campos_obrigatorios") <==> !Truthy(usuario) || !Truthy(senha))
      && (r.tipoErro == Some("campos_obrigatorios") ==> r == Refuse(400, "Usuário e senha são obrigatórios", "campos_obrigatorios"))
      && (Truthy(usuario) && Truthy(senha) && UsersRoutes.ReadUsers(f).None? ==> r == InternalError)
      && (Truthy(usuario) && Truthy(senha) && UsersRoutes.ReadUsers(f).Some? ==>
            var users := UsersRoutes.ReadUsers(f).value;
            (r.tipoErro == Some("usuario_inexistente") <==> NoneWith(users, "usuario", usuario))
            && (NoneWith(users, "usuario", usuario) ==> r == Refuse(401, "Usuário não encontrado", "usuario_inexistente"))
            && forall i :: FirstWith(users, i, "usuario", usuario) ==>
                 var stored := Field(users[i], "senha");
                 if !senha.Str? || !stored.Str? then r == InternalError
                 else if H(senha.s) == stored.s then
                   r == LoginReply(200, true, "Login realizado com sucesso", None, Some(Without(users[i], "senha")))
                 else
                   r == Refuse(401, "Senha incorreta", "senha_incorreta"))
    ensures r.success ==> r.usuario.Some? && "senha" !in r.usuario.value
  {
    var usuario, senha := Field(body, "usuario"), Field(body, "senha");
    if !Truthy(usuario) || !Truthy(senha) then
      Refuse(400, "Usuário e senha são obrigatórios", "campos_obrigatorios")
    else
      var read := UsersRoutes.ReadUsers(f);
      if read.None? then InternalError
      else
        var i := IndexOf(read.value, "usuario", usuario);
        if i == -1 then Refuse(401, "Usuário não encontrado", "usuario_inexistente")
        else
          FirstWithUnique(read.value, i, "usuario", usuario);
          var user := read.value[i];
          var stored := Field(user, "senha");
          if !senha.Str? || !stored.Str? then InternalError
          else if H(senha.s) == stored.s then
            LoginReply(200, true, "Login realizado com sucesso", None, Some(Without(user, "senha")))
          else
            Refuse(401, "Senha incorreta", "senha_incorreta")
  }

  /** With no users file, or one that does not parse, every filled-in login is an unknown user. */
  lemma MissingFileMeansUnknownUser(f: UsersRoutes.UsersFile, body: Record, H: string -> string)
    requires f.NoFile? || f.Unreadable?
    requires Truthy(Field(body, "usuario")) && Truthy(Field(body, "senha"))
    ensures Login(f, body, H) == Refuse(401, "Usuário não encontrado", "usuario_inexistente")
  {
  }

  /**
   * A user that POST `/api/users` appended can log in with the password it was
   * created with, gets back exactly what the create answered, and any other
   * password is `senha_incorreta`, as long as `H` tells the two apart.
   */
  lemma CreatedUserCanLogin(users: seq<Record>, id: string, nome: Value, usuario: Value, email: Value,
                            senha: string, tipo: Value, now: string, other: string, H: string -> string)
    requires Truthy(usuario) && senha != "" && other != ""
    requires NoneWith(users, "usuario", usuario)
    requires H(other) != H(senha)
    ensures var u := UsersRoutes.NewServerUser(id, nome, usuario, email, H(senha), tipo, now);
      var f := UsersRoutes.UserList(users + [u]);
      && Login(f, map["usuario" := usuario, "senha" := Str(senha)], H)
           == LoginReply(200, true, "Login realizado com sucesso", None, Some(UsersRoutes.Pick(u, UsersRoutes.PublicKeys)))
      && Login(f, map["usuario" := usuario, "senha" := Str(other)], H) == Refuse(401, "Senha incorreta", "senha_incorreta")
  {
    var u := UsersRoutes.NewServerUser(id, nome, usuario, email, H(senha), tipo, now);
    var s := users + [u];
    assert FirstWith(s, |users|, "usuario", usuario) by {
      forall j | 0 <= j < |users| ensures Field(s[j], "usuario") != usuario {
        assert s[j] == users[j];
      }
    }
    UsersRoutes.CreateEchoIsRecordWithoutSenha(id, nome, usuario, email, H(senha), tipo, now);
  }
}
