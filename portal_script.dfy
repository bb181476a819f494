/**
 * The page logic of the portal's front end: the login form and how it reports
 * each refusal, the course list the page shows (local registry first, then the
 * API), enrolment into "Meus Cursos", its initial Python/English selection,
 * and the password and contact form checks.
 */
module PortalScript {
  import opened JsStrings
  import opened JsValues
  import UserManagement
  import CourseManagement

  // ----- Login form -----

  /** The notice under the login form: text, colour and CSS class. */
  datatype Alert = Alert(text: string, color: string, cssClass: string)

  const FillAllFields := Alert("Preencha todos os campos.", "red", "alert alert-error")

  /**
   * How a refused login is shown: the two known `tipo_erro` codes get their own
   * text and colour (orange warning, red error); any other refusal shows the
   * message it came with, in red.
   */
  function ErrorAlert(tipoErro: Option<string>, mensagem: string): (a: Alert)
    ensures tipoErro == Some("usuario_inexistente") ==>
      a == Alert("Usuário não encontrado. Verifique o nome de usuário.", "#ff6b35", "alert alert-warning")
    ensures tipoErro == Some("senha_incorreta") ==>
      a == Alert("Senha incorreta. Tente novamente.", "#dc3545", "alert alert-error")
    ensures tipoErro != Some("usuario_inexistente") && tipoErro != Some("senha_incorreta") ==>
      a == Alert(mensagem, "red", "alert alert-error")
  {
    if tipoErro == Some("usuario_inexistente") then
      Alert("Usuário não encontrado. Verifique o nome de usuário.", "#ff6b35", "alert alert-warning")
    else if tipoErro == Some("senha_incorreta") then
      Alert("Senha incorreta. Tente novamente.", "#dc3545", "alert alert-error")
    else
      Alert(mensagem, "red", "alert alert-error")
  }

  /** What submitting the login form leads to. */
  datatype FormResult = Warned(alert: Alert) | Dashboard(usuario: Record) | StudentArea(usuario: Record)

  /**
   * `validarLogin()` of the page: both fields are trimmed and must be non-empty
   * before the user store is consulted; a success keeps the user (without
   * `senha`) in the session and sends an `admin` to the dashboard, everyone
   * else to the student area.
   */
  function SubmitLogin(users: seq<Record>, rawUsuario: string, rawSenha: string): (r: FormResult)
    ensures Trim(rawUsuario) == [] || Trim(rawSenha) == [] ==> r == Warned(FillAllFields)
    ensures Trim(rawUsuario) != [] && Trim(rawSenha) != [] ==>
      var check := UserManagement.CheckLogin(users, Trim(rawUsuario), Trim(rawSenha));
      && (r.Warned? <==> check.Refused?)
      && (check.Refused? ==> r.alert == ErrorAlert(Some(check.tipoErro.Code()), check.Mensagem()))
      && (r.Dashboard? <==> check.LoggedIn? && Field(check.usuario, "tipo") == Str("admin"))
      && (!r.Warned? ==> r.usuario == check.usuario && "senha" !in r.usuario)
  {
    var usuario, senha := Trim(rawUsuario), Trim(rawSenha);
    if usuario == [] || senha == [] then Warned(FillAllFields)
    else
      var check := UserManagement.CheckLogin(users, usuario, senha);
      match check
      case Refused(e) => Warned(ErrorAlert(Some(e.Code()), check.Mensagem()))
      case LoggedIn(u) => if Field(u, "tipo") == Str("admin") then Dashboard(u) else StudentArea(u)
  }

  /** A field of blanks stops the form before any user record is looked at. */
  lemma BlankFieldIsRejected(users: seq<Record>, rawUsuario: string, rawSenha: string)
    requires AllWhitespace(rawUsuario) || AllWhitespace(rawSenha)
    ensures SubmitLogin(users, rawUsuario, rawSenha) == Warned(FillAllFields)
  {
    TrimEmptyIff(rawUsuario);
    TrimEmptyIff(rawSenha);
  }

  /** Every refusal of the local login check is shown with its specific text, never passed through. */
  lemma RefusalsAreClassified(users: seq<Record>, rawUsuario: string, rawSenha: string)
    requires SubmitLogin(users, rawUsuario, rawSenha).Warned?
    ensures SubmitLogin(users, rawUsuario, rawSenha).alert.color in {"red", "#ff6b35", "#dc3545"}
    ensures SubmitLogin(users, rawUsuario, rawSenha).alert.color == "red" ==>
      SubmitLogin(users, rawUsuario, rawSenha) == Warned(FillAllFields)
  {
  }

  /** Blanks typed around the login name or the password do not change the outcome: the form trims both. */
  lemma PaddingIsIgnored(users: seq<Record>, pre1: string, usuario: string, post1: string,
                         pre2: string, senha: string, post2: string)
    requires AllWhitespace(pre1) && AllWhitespace(post1) && AllWhitespace(pre2) && AllWhitespace(post2)
    requires usuario != [] && !IsWhitespace(usuario[0]) && !IsWhitespace(usuario[|usuario| - 1])
    requires senha != [] && !IsWhitespace(senha[0]) && !IsWhitespace(senha[|senha| - 1])
    ensures SubmitLogin(users, pre1 + usuario + post1, pre2 + senha + post2) == SubmitLogin(users, usuario, senha)
  {
    TrimPadded(pre1, usuario, post1);
    TrimPadded(pre2, senha, post2);
    SubmitLoginSeesTrimmedFields(users, pre1 + usuario + post1, pre2 + senha + post2, usuario, senha);
  }

  /** The form reads its fields only through their trimmed values. */
  lemma SubmitLoginSeesTrimmedFields(users: seq<Record>, u1: string, s1: string, u2: string, s2: string)
    requires Trim(u1) == Trim(u2) && Trim(s1) == Trim(s2)
    ensures SubmitLogin(users, u1, s1) == SubmitLogin(users, u2, s2)
  {
  }

  // ----- Password and contact forms -----

  /** `validarSenhas()`: the save button is enabled iff both fields are filled in and equal. */
  function SaveEnabled(senha1: string, senha2: string): (enabled: bool)
    ensures enabled <==> senha1 != "" && senha1 == senha2
  {
    !(senha1 == "" || senha2 == "" || senha1 != senha2)
  }

  /** `alterarSenhaUsuario()`: the alert that stops the change, or `None` when it goes ahead. */
  function PasswordChangeBlocker(novaSenha: string, confirmarSenha: string): (blocker: Option<string>)
    ensures novaSenha == "" || confirmarSenha == "" ==> blocker == Some("Por favor, preencha todos os campos")
    ensures novaSenha != "" && confirmarSenha != "" && novaSenha != confirmarSenha ==>
      blocker == Some("As senhas não coincidem")
  {
    if novaSenha == "" || confirmarSenha == "" then Some("Por favor, preencha todos os campos")
    else if novaSenha != confirmarSenha then Some("As senhas não coincidem")
    else None
  }

  /** The button and the click handler agree: a change goes ahead exactly when the button is enabled. */
  lemma ButtonMatchesHandler(novaSenha: string, confirmarSenha: string)
    ensures SaveEnabled(novaSenha, confirmarSenha) <==> PasswordChangeBlocker(novaSenha, confirmarSenha).None?
  {
  }

  /** `validarFormulario()`: the contact form is valid iff no field is blank (or empty). */
  function ContactFormValid(nome: string, email: string, mensagem: string): (valid: bool)
    ensures valid <==> !AllWhitespace(nome) && !AllWhitespace(email) && !AllWhitespace(mensagem)
  {
    TrimEmptyIff(nome);
    TrimEmptyIff(email);
    TrimEmptyIff(mensagem);
    Trim(nome) != [] && Trim(email) != [] && Trim(mensagem) != []
  }

  // ----- Course list of the page -----

  /** The keys of a course as the page renders it. */
  const UiKeys: set<string> := {"id", "name", "description", "duration", "level", "category", "emoji"}

  /** `c[pt] || c[en] || ''`: the Portuguese field if truthy, else the English one if truthy, else `""`. */
  function PreferPortuguese(c: Record, pt: string, en: string): Value {
    if Truthy(Field(c, pt)) then Field(c, pt) else if Truthy(Field(c, en)) then Field(c, en) else Str("")
  }

  /** A local course record mapped to the page's shape: the Portuguese field wins, the English one is the fallback. */
  function ToUiCourse(c: Record): (u: Record)
    ensures Field(u, "id") == Field(c, "id")
    ensures Field(u, "name") == (if Truthy(Field(c, "nome")) then Field(c, "nome") else Field(c, "name"))
    ensures Field(u, "description") == PreferPortuguese(c, "descricao", "description")
    ensures Field(u, "duration") == PreferPortuguese(c, "duracao", "duration")
    ensures Field(u, "level") == PreferPortuguese(c, "nivel", "level")
    ensures Field(u, "category") == PreferPortuguese(c, "categoria", "category")
    ensures Field(u, "emoji") == (if Truthy(Field(c, "emoji")) then Field(c, "emoji") else Str(""))
    ensures u.Keys == UiKeys
  {
    map["id" := Field(c, "id"),
        "name" := Or(Field(c, "nome"), Field(c, "name")),
        "description" := Or(Or(Field(c, "descricao"), Field(c, "description")), Str("")),
        "duration" := Or(Or(Field(c, "duracao"), Field(c, "duration")), Str("")),
        "level" := Or(Or(Field(c, "nivel"), Field(c, "level")), Str("")),
        "category" := Or(Or(Field(c, "categoria"), Field(c, "category")), Str("")),
        "emoji" := Or(Field(c, "emoji"), Str(""))]
  }

  /** A course the local registry created is shown with its own name, description, duration, level and category. */
  lemma RegistryCourseShowsItsFields(id: string, nome: string, descricao: string, duracao: string, nivel: string,
                                     categoria: string, emoji: string, now: string)
    requires nome != "" && descricao != "" && duracao != "" && nivel != "" && categoria != ""
    ensures var u := ToUiCourse(CourseManagement.Course(id, nome, descricao, duracao, nivel, categoria, emoji, now));
      && Field(u, "id") == Str(id) && Field(u, "name") == Str(nome) && Field(u, "description") == Str(descricao)
      && Field(u, "duration") == Str(duracao) && Field(u, "level") == Str(nivel) && Field(u, "category") == Str(categoria)
      && Field(u, "emoji") == Str(emoji)
  {
  }

  /**
   * What the courses request produced: it failed (rejected, not `ok`, or not JSON),
   * or it answered with a list (`data.courses` or a bare array) or without one.
   */
  datatype ApiCourses = Unavailable | Answered(courses: Option<seq<Record>>)

  /**
   * `fetchCursosFromApi()`: a non-empty local registry wins and is mapped to the
   * page's shape; otherwise the API's list, or `null`.
   */
  function FetchCursos(local: Slot, api: ApiCourses): (r: Option<seq<Record>>)
    ensures local.Saved? && |local.records| > 0 ==>
      r.Some? && |r.value| == |local.records|
      && forall i :: 0 <= i < |local.records| ==> r.value[i] == ToUiCourse(local.records[i])
    ensures !(local.Saved? && |local.records| > 0) ==> r == (if api.Answered? then api.courses else None)
  {
    if local.Saved? && |local.records| > 0 then
      Some(seq(|local.records|, i requires 0 <= i < |local.records| => ToUiCourse(local.records[i])))
    else if api.Answered? then api.courses
    else None
  }

  // ----- Meus Cursos -----

  /** The title a course is enrolled under: `name || title`. */
  function Title(c: Record): Value {
    Or(Field(c, "name"), Field(c, "title"))
  }

  /** The "Meus Cursos" entry for a course: `{ id: 'srv-' + id, title, description, progress: 0 }`. */
  function Enrolment(c: Record): (e: Record)
    ensures Field(e, "title") == Title(c) && Field(e, "progress") == Num(0)
    ensures Field(e, "id") == Str("srv-" + ToJsString(Field(c, "id")))
    ensures Field(e, "description") == Or(Field(c, "description"), Str(""))
  {
    map["id" := Str("srv-" + ToJsString(Field(c, "id"))), "title" := Title(c),
        "description" := Or(Field(c, "description"), Str("")), "progress" := Num(0)]
  }

  /** Index `i` holds the first course whose `String(id)` is `id`. */
  predicate FirstWithStringId(cs: seq<Record>, i: int, id: string) {
    0 <= i < |cs| && ToJsString(Field(cs[i], "id")) == id
    && forall j :: 0 <= j < i ==> ToJsString(Field(cs[j], "id")) != id
  }

  /** `cursos.find(x => String(x.id) === String(id))` */
  function FindByStringId(cs: seq<Record>, id: string): (r: Option<Record>)
    ensures r.None? <==> forall j :: 0 <= j < |cs| ==> ToJsString(Field(cs[j], "id")) != id
    ensures r.Some? ==> exists i :: FirstWithStringId(cs, i, id) && r.value == cs[i]
  {
    if cs == [] then None
    else if ToJsString(Field(cs[0], "id")) == id then
      assert FirstWithStringId(cs, 0, id);
      Some(cs[0])
    else
      var r := FindByStringId(cs[1..], id);
      assert forall j :: 1 <= j < |cs| ==> cs[j] == cs[1..][j - 1];
      if r.Some? then
        var i :| FirstWithStringId(cs[1..], i, id) && r.value == cs[1..][i];
        assert FirstWithStringId(cs, i + 1, id);
        r
      else r
  }

  /** Some entry of the list has the title. */
  predicate HasTitle(meus: seq<Record>, title: Value) {
    exists j :: 0 <= j < |meus| && Field(meus[j], "title") == title
  }

  /** `/python/i` or `/ingl/i` against `name || title || ''`. */
  predicate IsPythonOrEnglish(c: Record) {
    var text := LowerAsciiString(ToJsString(Or(Title(c), Str(""))));
    Contains(text, "python") || Contains(text, "ingl")
  }

  /** A course whose name mentions "Python", in any ASCII case, passes the filter. */
  lemma NamedPythonIsPicked(c: Record, pre: string, word: string, post: string)
    requires Field(c, "name") == Str(pre + word + post)
    requires LowerAsciiString(word) == "python"
    ensures IsPythonOrEnglish(c)
  {
    var name := pre + word + post;
    var text := LowerAsciiString(name);
    assert text == LowerAsciiString(ToJsString(Or(Title(c), Str(""))));
    assert text[|pre|..|pre| + |word|] == LowerAsciiString(word) by {
      forall k | 0 <= k < |word| ensures text[|pre| + k] == LowerAsciiString(word)[k] {
        assert name[|pre| + k] == word[k];
      }
    }
    assert OccursAt(text, "python", |pre|);
  }

  /** `apiCursos.filter(c => /python/i.test(...) || /ingl/i.test(...))` */
  function PythonOrEnglish(cs: seq<Record>): (kept: seq<Record>)
    ensures |kept| <= |cs|
    ensures forall c :: c in kept <==> c in cs && IsPythonOrEnglish(c)
  {
    if cs == [] then []
    else
      var rest := PythonOrEnglish(cs[1..]);
      assert forall c :: c in cs <==> c == cs[0] || c in cs[1..];
      if IsPythonOrEnglish(cs[0]) then [cs[0]] + rest else rest
  }

  /** The filter keeps the listing order: it distributes over concatenation. */
  lemma {:induction false} PythonOrEnglishAppend(a: seq<Record>, b: seq<Record>)
    ensures PythonOrEnglish(a + b) == PythonOrEnglish(a) + PythonOrEnglish(b)
  {
    if a == [] {
      assert a + b == b;
    } else {
      var ab := a + b;
      assert ab[0] == a[0] && ab[1..] == a[1..] + b;
      PythonOrEnglishAppend(a[1..], b);
    }
  }

  /** The two entries written when neither the API nor the browser has any. */
  function SampleCourses(): (samples: seq<Record>)
    ensures |samples| == 2
    ensures Field(samples[0], "title") == Str("Python") && Field(samples[1], "title") == Str("Inglês")
    ensures Field(samples[0], "id") == Str("c-py") && Field(samples[1], "id") == Str("c-en")
  {
    [ map["id" := Str("c-py"), "title" := Str("Python"), "description" := Str("Programação em Python"), "progress" := Num(10)],
      map["id" := Str("c-en"), "title" := Str("Inglês"), "description" := Str("Inglês técnico para programadores"),
          "progress" := Num(5)] ]
  }

  /** How an enrolment attempt ended. */
  datatype EnrolOutcome = CourseNotFound | AlreadyEnrolled | Enrolled | StorageError

  /** The browser's "Meus Cursos" list under the local-storage key `meusCursos`. */
  class MeusCursos {
    var slot: Slot

    constructor (stored: Slot)
      ensures slot == stored
    {
      slot := stored;
    }

    /**
     * `inscreverCurso(id)`: an unknown id or a title already on the list changes
     * nothing; otherwise exactly one entry is appended. A stored value that does
     * not parse, or a write that fails, leaves the list as it was.
     */
    method Inscrever(cursos: Option<seq<Record>>, id: string, saveOk: bool) returns (outcome: EnrolOutcome)
      modifies this
      ensures cursos.None? || FindByStringId(cursos.value, id).None? ==> outcome == CourseNotFound && slot == old(slot)
      ensures cursos.Some? && FindByStringId(cursos.value, id).Some? ==>
        var found := FindByStringId(cursos.value, id).value;
        if old(slot).Garbled? then outcome == StorageError && slot == old(slot)
        else if HasTitle(Load(old(slot)), Title(found)) then outcome == AlreadyEnrolled && slot == old(slot)
        else if !saveOk then outcome == StorageError && slot == old(slot)
        else outcome == Enrolled && slot == Saved(Load(old(slot)) + [Enrolment(found)])
    {
      if cursos.None? {
        return CourseNotFound;
      }
      var found := FindByStringId(cursos.value, id);
      if found.None? {
        return CourseNotFound;
      }
      if slot.Garbled? {
        return StorageError;
      }
      var meus := Load(slot);
      var title := Title(found.value);
      var k := 0;
      while k < |meus|
        invariant 0 <= k <= |meus|
        invariant forall j :: 0 <= j < k ==> Field(meus[j], "title") != title
      {
        if Field(meus[k], "title") == title {
          return AlreadyEnrolled;
        }
        k := k + 1;
      }
      meus := meus + [Enrolment(found.value)];
      if !saveOk {
        return StorageError;
      }
      slot := Saved(meus);
      outcome := Enrolled;
    }

    /**
     * `initMeusCursosFromApiOrFallback()`: the API's Python and English courses
     * replace the list when there are any; otherwise a stored list is kept as it is
     * and an empty store gets the two samples. Returns what the page shows.
     */
    method InitFromApiOrFallback(cursos: Option<seq<Record>>, saveOk: bool) returns (shown: Option<seq<Record>>)
      modifies this
      ensures var picked := if cursos.Some? then PythonOrEnglish(cursos.value) else [];
        if picked != [] then
          var mapped := seq(|picked|, i requires 0 <= i < |picked| => Enrolment(picked[i]));
          if saveOk then shown == Some(mapped) && slot == Saved(mapped)
          else shown == None && slot == old(slot)
        else if old(slot).Garbled? then shown == None && slot == old(slot)
        else if old(slot).Saved? then shown == Some(old(slot).records) && slot == old(slot)
        else if saveOk then shown == Some(SampleCourses()) && slot == Saved(SampleCourses())
        else shown == None && slot == old(slot)
    {
      var picked := if cursos.Some? then PythonOrEnglish(cursos.value) else [];
      if picked != [] {
        var mapped := seq(|picked|, i requires 0 <= i < |picked| => Enrolment(picked[i]));
        if !saveOk {
          return None;
        }
        slot := Saved(mapped);
        return Some(mapped);
      }
      match slot
      case Garbled =>
        shown := None;
      case Saved(records) =>
        shown := Some(records);
      case Empty =>
        if saveOk {
          slot := Saved(SampleCourses());
          shown := Some(SampleCourses());
        } else {
          shown := None;
        }
    }
  }

  /** After an enrolment the course's title is on the list, so enrolling again is refused. */
  lemma EnrolledTitleIsListed(meus: seq<Record>, c: Record)
    ensures HasTitle(meus + [Enrolment(c)], Title(c))
  {
    assert (meus + [Enrolment(c)])[|meus|] == Enrolment(c);
  }

  /** Only Python and English courses end up in the list the API fills. */
  lemma PickedCoursesAreOnTopic(cs: seq<Record>, i: int)
    requires 0 <= i < |PythonOrEnglish(cs)|
    ensures IsPythonOrEnglish(PythonOrEnglish(cs)[i]) && PythonOrEnglish(cs)[i] in cs
  {
    assert PythonOrEnglish(cs)[i] in PythonOrEnglish(cs);
  }
}
