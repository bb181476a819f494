/**
 * The server's content routes: the read-only documents (texts, school info,
 * courses, config) and the course CRUD handlers that rewrite `courses.json`.
 * Integer ids are assigned as one more than the largest existing id.
 */
module ContentRoutes {
  import opened JsStrings
  import opened JsValues
  import opened ServerEnvelope

  /**
   * A GET on one of the read-only documents: the parsed document, or 404 with the
   * route's message when `readData` yields `null` (missing or unparseable file).
   */
  function ServeDocument<T>(doc: Option<T>, notFound: string): (r: Response<T>)
    ensures r.success <==> doc.Some?
    ensures doc.Some? ==> r == Ok(doc.value)
    ensures doc.None? ==> r.status == 404 && r.message == Some(notFound) && r.data.None?
  {
    if doc.Some? then Ok(doc.value) else Fail(404, notFound)
  }

  const TextsNotFound := "Arquivo de textos não encontrado"
  const SchoolInfoNotFound := "Informações da escola não encontradas"
  const CoursesNotFound := "Lista de cursos não encontrada"
  const ConfigNotFound := "Configurações não encontradas"

  /**
   * What `courses.json` holds: no file, text that `JSON.parse` rejects, or an
   * object whose `courses` property is an array (`Some`) or something else
   * (`None`), beside its other properties.
   */
  datatype CoursesFile = NoFile | Unreadable | Document(courses: Option<seq<Record>>, others: Record)

  /** GET `/courses`: the whole document, or 404 when it cannot be read. */
  function GetCourses(f: CoursesFile): (r: Response<CoursesFile>)
    ensures r.success <==> f.Document?
    ensures f.Document? ==> r.data == Some(f)
    ensures !f.Document? ==> r.status == 404 && r.message == Some(CoursesNotFound)
  {
    ServeDocument(if f.Document? then Some(f) else None, CoursesNotFound)
  }

  /** `readData('courses.json') || { courses: [] }` and the `Array.isArray` guard. */
  function CourseArray(f: CoursesFile): (arr: seq<Record>)
    ensures f.Document? && f.courses.Some? ==> arr == f.courses.value
    ensures !(f.Document? && f.courses.Some?) ==> arr == []
  {
    if f.Document? && f.courses.Some? then f.courses.value else []
  }

  /** The document written back after `coursesData.courses = arr`; other properties are kept. */
  function WithCourses(f: CoursesFile, arr: seq<Record>): CoursesFile {
    Document(Some(arr), if f.Document? then f.others else map[])
  }

  /** A missing, unparseable or array-less file is read as the empty list, and writing it back keeps its array. */
  lemma CourseArrayOfWrite(f: CoursesFile, arr: seq<Record>)
    ensures !f.Document? ==> CourseArray(f) == []
    ensures f.Document? && f.courses.None? ==> CourseArray(f) == []
    ensures CourseArray(WithCourses(f, arr)) == arr
  {
  }

  /** `c.id || 0` as `Math.max` sees it. */
  function IdForMax(c: Record): (n: int)
    ensures Field(c, "id").Num? ==> n == Field(c, "id").n
    ensures Field(c, "id") == Bool(true) ==> n == 1
    ensures !Field(c, "id").Num? && Field(c, "id") != Bool(true) ==> n == 0
  {
    match Field(c, "id")
    case Num(n) => n
    case Bool(b) => if b then 1 else 0
    case _ => 0
  }

  /** `arr.reduce((max, c) => Math.max(max, c.id || 0), acc)` */
  function MaxIdFrom(acc: int, arr: seq<Record>): (m: int)
    ensures m >= acc
    ensures forall i :: 0 <= i < |arr| ==> m >= IdForMax(arr[i])
    ensures m == acc || exists i :: 0 <= i < |arr| && m == IdForMax(arr[i])
    decreases |arr|
  {
    if arr == [] then acc
    else
      var m := MaxIdFrom(if IdForMax(arr[0]) > acc then IdForMax(arr[0]) else acc, arr[1..]);
      assert forall i :: 1 <= i < |arr| ==> arr[i] == arr[1..][i - 1];
      m
  }

  /** The id POST assigns: one more than the largest existing id, or 1 for an empty list. */
  function NextId(arr: seq<Record>): (id: int)
    ensures id >= 1
    ensures forall i :: 0 <= i < |arr| ==> id > IdForMax(arr[i])
    ensures id == 1 || exists i :: 0 <= i < |arr| && id == IdForMax(arr[i]) + 1
  {
    MaxIdFrom(0, arr) + 1
  }

  /** `Object.assign({ id: nextId }, payload)`: every payload property, `id` only as a default. */
  function NewCourse(nextId: int, payload: Record): (c: Record)
    ensures forall k :: k in payload ==> Field(c, k) == payload[k]
    ensures "id" !in payload ==> Field(c, "id") == Num(nextId)
    ensures c.Keys == payload.Keys + {"id"}
  {
    map["id" := Num(nextId)] + payload
  }

  /** The course list after one successful POST. */
  function AppendCourse(arr: seq<Record>, payload: Record): seq<Record> {
    arr + [NewCourse(NextId(arr), payload)]
  }

  /** `parseInt(c.id, 10)`; `None` is NaN. */
  function ParsedId(c: Record): (id: Option<int>)
    ensures Field(c, "id").Num? ==> id == Some(Field(c, "id").n)
    ensures Field(c, "id").Str? ==> id == ParseInt(Field(c, "id").s)
    ensures !Field(c, "id").Num? && !Field(c, "id").Str? ==> id.None?
  {
    match Field(c, "id")
    case Num(n) => Some(n)
    case Str(s) => ParseInt(s)
    case _ => None
  }

  /** `arr.findIndex(c => parseInt(c.id, 10) === id)` */
  function IndexOfParsedId(arr: seq<Record>, id: int): (i: int)
    ensures -1 <= i < |arr|
    ensures i == -1 <==> forall j :: 0 <= j < |arr| ==> ParsedId(arr[j]) != Some(id)
    ensures i != -1 ==> ParsedId(arr[i]) == Some(id) && forall j :: 0 <= j < i ==> ParsedId(arr[j]) != Some(id)
  {
    if arr == [] then -1
    else if ParsedId(arr[0]) == Some(id) then 0
    else
      var k := IndexOfParsedId(arr[1..], id);
      if k == -1 then -1 else k + 1
  }

  /** `!id` for the parsed route parameter: NaN and 0 are rejected. */
  predicate IsUsableId(id: Option<int>) {
    id.Some? && id.value != 0
  }

  /** A route parameter written as `String(n)` is accepted exactly when `n` is not 0. */
  lemma UsableIdIff(n: int)
    ensures IsUsableId(ParseInt(IntToString(n))) <==> n != 0
  {
    ParseIntRoundTrip(n);
  }

  class CoursesRoute {
    /** What `courses.json` holds. */
    var file: CoursesFile

    constructor (stored: CoursesFile)
      ensures file == stored
    {
      file := stored;
    }

    /**
     * POST `/courses`: a missing payload or falsy `name` is a 400 with no write;
     * otherwise the new course gets the next id and is appended at the end.
     */
    method Create(payload: Option<Record>, writeOk: bool) returns (resp: Response<Record>)
      modifies this
      ensures payload.None? || !Truthy(Field(payload.value, "name")) ==>
        resp == Fail(400, "Dados do curso inválidos") && file == old(file)
      ensures payload.Some? && Truthy(Field(payload.value, "name")) ==>
        var arr := CourseArray(old(file));
        if writeOk then
          resp == Ok(NewCourse(NextId(arr), payload.value)) && file == WithCourses(old(file), AppendCourse(arr, payload.value))
        else
          resp == Fail(500, "Falha ao salvar curso") && file == old(file)
    {
      if payload.None? || !Truthy(Field(payload.value, "name")) {
        return Fail(400, "Dados do curso inválidos");
      }
      var arr := CourseArray(file);
      var nextId := NextId(arr);
      var newCourse := NewCourse(nextId, payload.value);
      arr := arr + [newCourse];
      if !writeOk {
        return Fail(500, "Falha ao salvar curso");
      }
      file := WithCourses(file, arr);
      resp := Ok(newCourse);
    }

    /**
     * PUT `/courses/:id`: NaN or 0 is a 400, an id no course parses to is a 404,
     * both with no write; otherwise the first match is merged with the payload,
     * its original `id` kept, and every other course left as it was.
     */
    method Update(param: string, payload: Option<Record>, writeOk: bool) returns (resp: Response<Record>)
      modifies this
      ensures !IsUsableId(ParseInt(param)) || payload.None? ==>
        resp == Fail(400, "Dados inválidos") && file == old(file)
      ensures IsUsableId(ParseInt(param)) && payload.Some? ==>
        var arr := CourseArray(old(file));
        var i := IndexOfParsedId(arr, ParseInt(param).value);
        if i == -1 then
          resp == Fail(404, "Curso não encontrado") && file == old(file)
        else
          var merged := MergeKeepingId(arr[i], payload.value, Field(arr[i], "id"));
          if writeOk then
            resp == Ok(merged) && file == WithCourses(old(file), arr[i := merged])
          else
            resp == Fail(500, "Falha ao salvar curso") && file == old(file)
    {
      var id := ParseInt(param);
      if !IsUsableId(id) || payload.None? {
        return Fail(400, "Dados inválidos");
      }
      var arr := CourseArray(file);
      var idx := IndexOfParsedId(arr, id.value);
      if idx == -1 {
        return Fail(404, "Curso não encontrado");
      }
      var merged := MergeKeepingId(arr[idx], payload.value, Field(arr[idx], "id"));
      arr := arr[idx := merged];
      if !writeOk {
        return Fail(500, "Falha ao salvar curso");
      }
      file := WithCourses(file, arr);
      resp := Ok(merged);
    }

    /**
     * DELETE `/courses/:id`: NaN or 0 is a 400, an id no course parses to is a 404,
     * both with no write; otherwise exactly the first match is removed and returned.
     */
    method Delete(param: string, writeOk: bool) returns (resp: Response<Record>)
      modifies this
      ensures !IsUsableId(ParseInt(param)) ==> resp == Fail(400, "ID inválido") && file == old(file)
      ensures IsUsableId(ParseInt(param)) ==>
        var arr := CourseArray(old(file));
        var i := IndexOfParsedId(arr, ParseInt(param).value);
        if i == -1 then
          resp == Fail(404, "Curso não encontrado") && file == old(file)
        else if writeOk then
          resp == Ok(arr[i]) && file == WithCourses(old(file), RemoveAt(arr, i))
        else
          resp == Fail(500, "Falha ao remover curso") && file == old(file)
    {
      var id := ParseInt(param);
      if !IsUsableId(id) {
        return Fail(400, "ID inválido");
      }
      var arr := CourseArray(file);
      var idx := IndexOfParsedId(arr, id.value);
      if idx == -1 {
        return Fail(404, "Curso não encontrado");
      }
      var removed := arr[idx];
      arr := RemoveAt(arr, idx);
      if !writeOk {
        return Fail(500, "Falha ao remover curso");
      }
      file := WithCourses(file, arr);
      resp := Ok(removed);
    }
  }

  /** Ids stored as numbers, or not at all: what POST itself writes for payloads without `id`. */
  predicate NumericIds(arr: seq<Record>) {
    forall i :: 0 <= i < |arr| ==> Field(arr[i], "id").Num? || Field(arr[i], "id") == Undefined
  }

  /**
   * A course created without an `id` of its own can be addressed at once: PUT or
   * DELETE with `String(id)` as the route parameter selects exactly that course.
   */
  lemma CreatedCourseIsAddressable(arr: seq<Record>, payload: Record)
    requires NumericIds(arr) && "id" !in payload
    ensures var id := NextId(arr);
      IsUsableId(ParseInt(IntToString(id)))
      && IndexOfParsedId(AppendCourse(arr, payload), ParseInt(IntToString(id)).value) == |arr|
  {
    var id := NextId(arr);
    ParseIntRoundTrip(id);
    var s := AppendCourse(arr, payload);
    forall j | 0 <= j < |arr| ensures ParsedId(s[j]) != Some(id) {
      assert s[j] == arr[j];
      assert id > IdForMax(arr[j]);
    }
    assert ParsedId(s[|arr|]) == Some(id);
  }

  /** On an empty collection two creates get ids 1 and 2, in that order. */
  lemma TwoCreatesOnEmpty(rust: Record, go: Record)
    requires "id" !in rust && "id" !in go
    ensures var after := AppendCourse(AppendCourse([], rust), go);
      |after| == 2 && Field(after[0], "id") == Num(1) && Field(after[1], "id") == Num(2)
      && after[0] == NewCourse(1, rust) && after[1] == NewCourse(2, go)
  {
    var first := AppendCourse([], rust);
    assert NextId([]) == 1;
    assert IdForMax(first[0]) == 1;
    assert NextId(first) == 2 by {
      assert MaxIdFrom(0, first) == MaxIdFrom(1, []);
    }
  }

  /** Deleting an id no course carries (99 when the ids are 1 and 2) is a 404 that writes nothing. */
  lemma DeleteUnknownIdIsNotFound(arr: seq<Record>)
    requires |arr| == 2 && Field(arr[0], "id") == Num(1) && Field(arr[1], "id") == Num(2)
    ensures IsUsableId(ParseInt("99")) && IndexOfParsedId(arr, ParseInt("99").value) == -1
  {
    assert IntToString(99) == "99";
    ParseIntRoundTrip(99);
  }
}
