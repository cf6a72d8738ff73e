/**
  Shape normalisation of a fetched quiz document (`abrirQuestionario` in
  app/index.tsx): where the questions are found and which name is shown.
*/
module Payload {
  import opened Wrappers
  import opened Text

  /** A parsed JSON document. */
  datatype Json =
    | JNull
    | JBool(b: bool)
    | JNumber(n: real)
    | JString(s: string)
    | JArray(items: seq<Json>)
    | JObject(fields: map<string, Json>)

  /** `data?.key`: only objects have fields; a missing field is `undefined` (None). */
  function Field(data: Json, key: string): (v: Option<Json>)
    ensures v.Some? <==> data.JObject? && key in data.fields
    ensures v.Some? ==> v.value == data.fields[key]
  {
    if data.JObject? && key in data.fields then Some(data.fields[key]) else None
  }

  /** JavaScript truthiness: `undefined`, `null`, `false`, `0` and `""` are falsy. */
  function Truthy(v: Option<Json>): (b: bool)
    ensures v.None? || v == Some(JNull) ==> !b
    ensures v.Some? && (v.value.JArray? || v.value.JObject?) ==> b
    ensures v.Some? && v.value.JString? ==> (b <==> v.value.s != "")
    ensures v.Some? && v.value.JBool? ==> (b <==> v.value.b)
    ensures v.Some? && v.value.JNumber? ==> (b <==> v.value.n != 0.0)
  {
    match v
    case None => false
    case Some(JNull) => false
    case Some(JBool(b)) => b
    case Some(JNumber(n)) => n != 0.0
    case Some(JString(s)) => s != ""
    case Some(JArray(_)) => true
    case Some(JObject(_)) => true
  }

  function ArrayItems(v: Option<Json>): seq<Json> {
    if v.Some? && v.value.JArray? then v.value.items else []
  }

  /**
    `Array.isArray(data) ? data : data?.perguntas || data?.questions`, then
    anything that is not an array reads as no questions.  A truthy
    `perguntas` that is not an array hides `questions`.
  */
  function QuestionItems(data: Json): (r: seq<Json>)
    ensures data.JArray? ==> r == data.items
    ensures !data.JArray? && Truthy(Field(data, "perguntas")) ==> r == ArrayItems(Field(data, "perguntas"))
    ensures !data.JArray? && !Truthy(Field(data, "perguntas")) ==> r == ArrayItems(Field(data, "questions"))
    ensures r != [] ==> data == JArray(r) || Field(data, "perguntas") == Some(JArray(r)) || Field(data, "questions") == Some(JArray(r))
  {
    var arr := if data.JArray? then Some(data)
               else if Truthy(Field(data, "perguntas")) then Field(data, "perguntas")
               else Field(data, "questions");
    ArrayItems(arr)
  }

  const DefaultName: string := "Bible Quiz"

  predicate NonBlank(s: string) {
    Trim(s) != []
  }

  /**
    `questionarioNome`: the document's string `name` when it is not blank,
    else the catalog's fallback name when that is not blank, else
    `Bible Quiz`.
  */
  function QuizName(data: Json, fallbackName: Option<string>): (name: string)
    ensures NonBlank(name)
    ensures var n := Field(data, "name");
      n.Some? && n.value.JString? && NonBlank(n.value.s) ==> name == n.value.s
    ensures var n := Field(data, "name");
      !(n.Some? && n.value.JString? && NonBlank(n.value.s)) ==>
        name == if fallbackName.Some? && NonBlank(fallbackName.value) then fallbackName.value else DefaultName
  {
    var n := Field(data, "name");
    if n.Some? && n.value.JString? && NonBlank(n.value.s) then n.value.s
    else if fallbackName.Some? && NonBlank(fallbackName.value) then fallbackName.value
    else
      assert !IsSpace(DefaultName[0]);
      DefaultName
  }

  /** A document that is neither an array nor an object opens with no questions. */
  lemma ScalarDocumentHasNoQuestions(data: Json)
    requires !data.JArray? && !data.JObject?
    ensures QuestionItems(data) == []
  {
  }
}
