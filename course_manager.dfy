/**
 * The browser-side course registry (`CourseManager`): an array of course
 * records under the local-storage key `sistema_cursos`, seeded with six
 * sample courses, with add, merge-update, delete-by-filter and lookup.
 */
module CourseManagement {
  import opened JsStrings
  import opened JsValues

  /** The record `adicionarCurso` appends. */
  function Course(id: string, nome: string, descricao: string, duracao: string, nivel: string,
                  categoria: string, emoji: string, now: string): (c: Record)
    ensures Field(c, "id") == Str(id) && Field(c, "nome") == Str(nome) && Field(c, "descricao") == Str(descricao)
    ensures Field(c, "duracao") == Str(duracao) && Field(c, "nivel") == Str(nivel)
    ensures Field(c, "categoria") == Str(categoria) && Field(c, "emoji") == Str(emoji)
    ensures Field(c, "dataCriacao") == Str(now)
  {
    map["id" := Str(id), "nome" := Str(nome), "descricao" := Str(descricao), "duracao" := Str(duracao),
        "nivel" := Str(nivel), "categoria" := Str(categoria), "emoji" := Str(emoji),
        "dataCriacao" := Str(now)]
  }

  /** A seeded course before it is stamped with its creation time. */
  datatype SeedCourse = SeedCourse(id: string, nome: string, descricao: string, duracao: string,
                                   nivel: string, categoria: string, emoji: string)

  /** The six sample courses, in seeding order. */
  const SeedCourses: seq<SeedCourse> := [
    SeedCourse("excel_001", "Excel", "Aprenda Excel do básico ao avançado", "40h", "Iniciante a Avançado", "Office", "📊"),
    SeedCourse("python_001", "Python", "Programação em Python", "60h", "Iniciante", "Programação", "💻"),
    SeedCourse("arduino_001", "Arduino", "Introdução à programação com Arduino", "40h", "Iniciante", "Eletrônica", "⚡"),
    SeedCourse("games_001", "Criação de jogos", "Aprenda a criar seus próprios jogos", "80h", "Intermediário", "Game Development", "🎮"),
    SeedCourse("ingles_001", "Inglês", "Inglês técnico para programadores", "100h", "Todos os níveis", "Idiomas", "🌎"),
    SeedCourse("espanhol_001", "Espanhol", "Espanhol para tecnologia", "100h", "Todos os níveis", "Idiomas", "🌎") ]

  /** The courses written into an empty store: one record per seed, in order, each carrying every seeded field and the creation stamp `now`. */
  function DefaultCourses(now: string): (courses: seq<Record>)
    ensures |courses| == |SeedCourses|
    ensures forall i :: 0 <= i < |courses| ==> var c, sc := courses[i], SeedCourses[i];
      Field(c, "id") == Str(sc.id) && Field(c, "nome") == Str(sc.nome) && Field(c, "descricao") == Str(sc.descricao)
      && Field(c, "duracao") == Str(sc.duracao) && Field(c, "nivel") == Str(sc.nivel)
      && Field(c, "categoria") == Str(sc.categoria) && Field(c, "emoji") == Str(sc.emoji)
      && Field(c, "dataCriacao") == Str(now)
  {
    seq(|SeedCourses|, i requires 0 <= i < |SeedCourses| =>
      var sc := SeedCourses[i];
      Course(sc.id, sc.nome, sc.descricao, sc.duracao, sc.nivel, sc.categoria, sc.emoji, now))
  }

  /** No two seeded courses share an id, so `getCursoById` reaches each of them. */
  lemma DefaultCourseIdsDistinct(now: string)
    ensures forall i, j :: 0 <= i < j < |DefaultCourses(now)| ==>
      Field(DefaultCourses(now)[i], "id") != Field(DefaultCourses(now)[j], "id")
  {
    // The seed ids differ pairwise in their first letter or in their length.
    var firsts, lengths := "epagie", [9, 10, 11, 9, 10, 12];
    forall k | 0 <= k < |SeedCourses|
      ensures |SeedCourses[k].id| == lengths[k] && SeedCourses[k].id[0] == firsts[k]
    {
    }
  }

  /** A character that survives `.replace(/[^a-z0-9]/g, '')`. */
  predicate IsIdChar(c: char) {
    'a' <= c <= 'z' || '0' <= c <= '9'
  }

  predicate AllIdChars(s: string) {
    forall k :: 0 <= k < |s| ==> IsIdChar(s[k])
  }

  /**
   * What `c.toLowerCase()` contributes once the non-`[a-z0-9]` characters are
   * dropped: ASCII letters lower-cased, digits kept, U+0130 and the Kelvin sign
   * (whose lower-case forms contain `i` and `k`) give that letter, all else nothing.
   */
  function KeptChars(c: char): (r: string)
    ensures |r| <= 1 && AllIdChars(r)
    ensures IsIdChar(c) ==> r == [c]
    ensures 'A' <= c <= 'Z' ==> r == [LowerAscii(c)]
    ensures c == '\U{0130}' ==> r == "i"
    ensures c == '\U{212A}' ==> r == "k"
    ensures !IsIdChar(c) && !('A' <= c <= 'Z') && c != '\U{0130}' && c != '\U{212A}' ==> r == []
  {
    if 'A' <= c <= 'Z' then [(c as int + 32) as char]
    else if IsIdChar(c) then [c]
    else if c == '\U{0130}' then "i"
    else if c == '\U{212A}' then "k"
    else []
  }

  /** `nome.toLowerCase().replace(/[^a-z0-9]/g, '')` */
  function IdLetters(nome: string): (r: string)
    ensures |r| <= |nome| && AllIdChars(r)
    ensures AllIdChars(nome) ==> r == nome
    ensures |nome| == 1 ==> r == KeptChars(nome[0])
  {
    if nome == [] then [] else KeptChars(nome[0]) + IdLetters(nome[1..])
  }

  /** The name is folded character by character, left to right. */
  lemma {:induction false} IdLettersAppend(a: string, b: string)
    ensures IdLetters(a + b) == IdLetters(a) + IdLetters(b)
  {
    if a == [] {
      assert a + b == b;
    } else {
      var ab := a + b;
      assert ab[0] == a[0] && ab[1..] == a[1..] + b;
      IdLettersAppend(a[1..], b);
    }
  }

  /** The prefix of a generated course id: at most ten of `[a-z0-9]`. */
  function IdPrefix(nome: string): (p: string)
    ensures |p| <= 10 && AllIdChars(p)
    ensures |p| <= |IdLetters(nome)| && p == IdLetters(nome)[..|p|]
    ensures |p| < 10 ==> p == IdLetters(nome)
  {
    var letters := IdLetters(nome);
    if |letters| <= 10 then letters else letters[..10]
  }

  /** `generateId(nome)`: prefix, `_`, the clock, `_`, four random base-36 digits (given). */
  function GenerateId(nome: string, stamp: string, random: string): (id: string)
    ensures |IdPrefix(nome)| < |id| && id[..|IdPrefix(nome)| + 1] == IdPrefix(nome) + "_"
  {
    IdPrefix(nome) + "_" + stamp + "_" + random
  }

  /** `courses.filter(c => c.id !== id)` */
  function DropId(courses: seq<Record>, id: Value): (r: seq<Record>)
    ensures |r| <= |courses|
    ensures NoneWith(r, "id", id)
    ensures |r| == |courses| <==> NoneWith(courses, "id", id)
  {
    if courses == [] then []
    else
      var rest := DropId(courses[1..], id);
      assert forall j :: 1 <= j < |courses| ==> courses[j] == courses[1..][j - 1];
      if Field(courses[0], "id") != id then [courses[0]] + rest else rest
  }

  /** Exactly the courses whose id differs survive the filter. */
  lemma {:induction false} DropIdMembers(courses: seq<Record>, id: Value, c: Record)
    ensures c in DropId(courses, id) <==> c in courses && Field(c, "id") != id
  {
    if courses != [] {
      DropIdMembers(courses[1..], id, c);
      assert c in courses <==> c == courses[0] || c in courses[1..];
    }
  }

  /** Filtering distributes over concatenation, so the kept courses stay in their order. */
  lemma {:induction false} DropIdAppend(a: seq<Record>, b: seq<Record>, id: Value)
    ensures DropId(a + b, id) == DropId(a, id) + DropId(b, id)
  {
    if a == [] {
      assert a + b == b;
    } else {
      var ab := a + b;
      assert ab[0] == a[0] && ab[1..] == a[1..] + b;
      DropIdAppend(a[1..], b, id);
    }
  }

  class CourseManager {
    /** What the key `sistema_cursos` holds. */
    var slot: Slot

    /** `new CourseManager()`: adopts the stored value and seeds it if it reads as empty. */
    constructor (stored: Slot, now: string, saveOk: bool)
      ensures Load(stored) == [] && saveOk ==> slot == Saved(DefaultCourses(now))
      ensures Load(stored) != [] || !saveOk ==> slot == stored
    {
      slot := stored;
      new;
      InitializeDefaultCourses(now, saveOk);
    }

    /** `getAllCourses()`: an absent or unparseable item gives the empty list, never an error. */
    function GetAllCourses(): (courses: seq<Record>)
      reads this
      ensures !slot.Saved? ==> courses == []
      ensures slot.Saved? ==> courses == slot.records
    {
      Load(slot)
    }

    /** `saveCourses(courses)`: the write either replaces the stored array or fails and leaves it. */
    method SaveCourses(courses: seq<Record>, saveOk: bool) returns (ok: bool)
      modifies this
      ensures ok == saveOk
      ensures slot == if saveOk then Saved(courses) else old(slot)
    {
      if saveOk {
        slot := Saved(courses);
      }
      ok := saveOk;
    }

    /** Seeds the six sample courses when the store reads as empty; otherwise writes nothing. */
    method InitializeDefaultCourses(now: string, saveOk: bool)
      modifies this
      ensures old(GetAllCourses()) == [] && saveOk ==> slot == Saved(DefaultCourses(now))
      ensures old(GetAllCourses()) != [] || !saveOk ==> slot == old(slot)
    {
      var courses := GetAllCourses();
      if |courses| == 0 {
        var _ := SaveCourses(DefaultCourses(now), saveOk);
      }
    }

    /** `adicionarCurso`: appends exactly one course and returns it, or `null` when the save fails. */
    method AdicionarCurso(nome: string, descricao: string, duracao: string, nivel: string,
                          categoria: string, emoji: string, stamp: string, random: string,
                          now: string, saveOk: bool)
      returns (r: Option<Record>)
      modifies this
      ensures var c := Course(GenerateId(nome, stamp, random), nome, descricao, duracao, nivel, categoria, emoji, now);
        if saveOk then r == Some(c) && slot == Saved(old(GetAllCourses()) + [c])
        else r == None && slot == old(slot)
    {
      var courses := GetAllCourses();
      var novo := Course(GenerateId(nome, stamp, random), nome, descricao, duracao, nivel, categoria, emoji, now);
      courses := courses + [novo];
      var saved := SaveCourses(courses, saveOk);
      r := if saved then Some(novo) else None;
    }

    /**
     * `atualizarCurso(id, dados)`: an unknown id changes nothing; otherwise only the
     * first course with the id is replaced by its merge with `dados`, id kept.
     */
    method AtualizarCurso(id: Value, dados: Record, saveOk: bool) returns (r: Option<Record>)
      modifies this
      ensures NoneWith(old(GetAllCourses()), "id", id) ==> r == None && slot == old(slot)
      ensures forall i :: FirstWith(old(GetAllCourses()), i, "id", id) ==>
        var merged := MergeKeepingId(old(GetAllCourses())[i], dados, id);
        Field(merged, "id") == Field(old(GetAllCourses())[i], "id") &&
        if saveOk then r == Some(merged) && slot == Saved(old(GetAllCourses())[i := merged])
        else r == None && slot == old(slot)
    {
      var courses := GetAllCourses();
      var index := IndexOf(courses, "id", id);
      if index == -1 {
        return None;
      }
      FirstWithUnique(courses, index, "id", id);
      var merged := MergeKeepingId(courses[index], dados, id);
      courses := courses[index := merged];
      var saved := SaveCourses(courses, saveOk);
      r := if saved then Some(merged) else None;
    }

    /**
     * `removerCurso(id)`: `false` and no write when no course has the id; otherwise
     * every course with the id is dropped and the outcome of the save is returned.
     */
    method RemoverCurso(id: Value, saveOk: bool) returns (removed: bool)
      modifies this
      ensures NoneWith(old(GetAllCourses()), "id", id) ==> !removed && slot == old(slot)
      ensures !NoneWith(old(GetAllCourses()), "id", id) ==>
        removed == saveOk && slot == if saveOk then Saved(DropId(old(GetAllCourses()), id)) else old(slot)
    {
      var courses := GetAllCourses();
      var filtered := DropId(courses, id);
      if |filtered| == |courses| {
        return false;
      }
      removed := SaveCourses(filtered, saveOk);
    }

    /** `getCursoById(id)`: the first course with the id, or `null`. */
    function GetCursoById(id: Value): (r: Option<Record>)
      reads this
      ensures r.None? <==> NoneWith(GetAllCourses(), "id", id)
      ensures r.Some? ==> exists i :: FirstWith(GetAllCourses(), i, "id", id) && r.value == GetAllCourses()[i]
    {
      Find(GetAllCourses(), "id", id)
    }
  }
}
