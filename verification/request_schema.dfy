/** The request-shape rules of src/validation-schema/form.schema.ts, as parsers from
    raw JSON to the typed values the handlers receive. A parser returns `None`
    exactly when the rule rejects the request. */
module RequestSchema {
  import opened Wrappers
  import opened JsonValues
  import opened FormTypes

  // ---------------------------------------------------------------- field type

  /** The wire name of each member of the field-type enum. */
  function FieldTypeName(t: FieldType): string
  {
    match t
    case Text => "text"
    case Number => "number"
    case Email => "email"
    case Select => "select"
    case Checkbox => "checkbox"
  }

  /** The names the closed field-type enum accepts. */
  const FieldTypeNames: set<string> := {"text", "number", "email", "select", "checkbox"}

  /** The closed enum: exactly the five names are accepted. */
  function ParseFieldType(s: string): (r: Option<FieldType>)
    ensures r.Some? <==> s in FieldTypeNames
    ensures r.Some? ==> FieldTypeName(r.value) == s
  {
    if s == "text" then Some(Text)
    else if s == "number" then Some(Number)
    else if s == "email" then Some(Email)
    else if s == "select" then Some(Select)
    else if s == "checkbox" then Some(Checkbox)
    else None
  }

  lemma FieldTypeRoundTrip(t: FieldType)
    ensures ParseFieldType(FieldTypeName(t)) == Some(t)
  {
  }

  // ---------------------------------------------------------------- slug

  predicate IsSlugChar(c: char)
  {
    'a' <= c <= 'z' || '0' <= c <= '9' || c == '-'
  }

  /** What a slug is: non-empty, lower-case ASCII letters, digits and hyphens only. */
  predicate IsSlug(s: string)
  {
    |s| > 0 && forall i :: 0 <= i < |s| ==> IsSlugChar(s[i])
  }

  /** The pattern `^[a-z0-9-]+$` matched one character at a time. */
  function MatchesSlugPattern(s: string): (r: bool)
    ensures r <==> IsSlug(s)
  {
    |s| > 0 && IsSlugChar(s[0]) && (|s| == 1 || MatchesSlugPattern(s[1..]))
  }

  // ---------------------------------------------------------------- fields

  /** `z.array(z.string())`: every item is a string. */
  function ParseStrings(items: seq<Json>): (r: Option<seq<string>>)
    ensures r.Some? <==> forall i :: 0 <= i < |items| ==> items[i].JStr?
    ensures r.Some? ==> |r.value| == |items| && forall i :: 0 <= i < |items| ==> items[i] == JStr(r.value[i])
  {
    if |items| == 0 then Some([])
    else if !items[0].JStr? then None
    else match ParseStrings(items[1..])
      case None => None
      case Some(rest) => Some([items[0].s] + rest)
  }

  /** A non-empty string member, as `z.string().min(1)` demands. */
  predicate NonEmptyString(m: map<string, Json>, key: string)
  {
    key in m && m[key].JStr? && |m[key].s| >= 1
  }

  /** `formFieldSchema`: key and label non-empty strings, type in the enum, `required`
      a boolean, and `options`, when present, a list of strings. Other members are
      ignored. */
  function ParseField(j: Json): (r: Option<FormField>)
    ensures r.Some? <==>
      && j.JObj?
      && NonEmptyString(j.members, "key")
      && NonEmptyString(j.members, "label")
      && "type" in j.members && j.members["type"].JStr? && j.members["type"].s in FieldTypeNames
      && "required" in j.members && j.members["required"].JBool?
      && ("options" in j.members ==>
            && j.members["options"].JArr?
            && forall i :: 0 <= i < |j.members["options"].items| ==> j.members["options"].items[i].JStr?)
    ensures r.Some? ==> |r.value.key| > 0 && |r.value.labelText| > 0
  {
    if !j.JObj? then None
    else
      var m := j.members;
      if !NonEmptyString(m, "key") || !NonEmptyString(m, "label") then None
      else if !("type" in m && m["type"].JStr? && ParseFieldType(m["type"].s).Some?) then None
      else if !("required" in m && m["required"].JBool?) then None
      else if "options" in m && !(m["options"].JArr? && ParseStrings(m["options"].items).Some?) then None
      else
        var options := if "options" in m then Some(ParseStrings(m["options"].items).value) else None;
        Some(FormField(m["key"].s, m["label"].s, ParseFieldType(m["type"].s).value, m["required"].b, options))
  }

  /** The member names `formFieldSchema` declares. */
  const FieldMemberNames: set<string> := {"key", "label", "type", "required", "options"}

  /** The JSON a typed field is written as. */
  function FieldToJson(f: FormField): Json
  {
    var base := map["key" := JStr(f.key), "label" := JStr(f.labelText),
                    "type" := JStr(FieldTypeName(f.fieldType)), "required" := JBool(f.required)];
    match f.options
    case None => JObj(base)
    case Some(opts) => JObj(base["options" := JArr(StringsToJson(opts))])
  }

  function StringsToJson(ss: seq<string>): (r: seq<Json>)
    ensures |r| == |ss| && forall i :: 0 <= i < |ss| ==> r[i] == JStr(ss[i])
  {
    seq(|ss|, i requires 0 <= i < |ss| => JStr(ss[i]))
  }

  /** Writing a field and reading it back gives the same field, exactly when its key
      and label are non-empty. */
  lemma FieldRoundTrip(f: FormField)
    ensures ParseField(FieldToJson(f)) == Some(f) <==> |f.key| > 0 && |f.labelText| > 0
  {
    var j := FieldToJson(f);
    FieldTypeRoundTrip(f.fieldType);
    if f.options.Some? {
      var items := StringsToJson(f.options.value);
      assert j.members["options"] == JArr(items);
      var p := ParseStrings(items);
      assert p.Some?;
      assert p.value == f.options.value;
    }
  }

  /** An accepted field is exactly what the request held under the five declared
      member names: nothing is added, changed or lost. */
  lemma ParseFieldKeepsDeclaredMembers(j: Json, f: FormField)
    requires ParseField(j) == Some(f)
    ensures j.JObj?
    ensures FieldToJson(f) == JObj(map k | k in j.members && k in FieldMemberNames :: j.members[k])
  {
    var m := j.members;
    var restricted := map k | k in m && k in FieldMemberNames :: m[k];
    var written := FieldToJson(f).members;
    if "options" in m {
      var opts := ParseStrings(m["options"].items).value;
      assert StringsToJson(opts) == m["options"].items;
    }
    assert written.Keys == restricted.Keys;
    forall k | k in written
      ensures written[k] == restricted[k]
    {
    }
  }

  /** A member under a name the field schema does not declare changes nothing: the
      object is accepted or refused, and parsed, as if the member were absent. */
  lemma UndeclaredMemberIgnored(m: map<string, Json>, name: string, value: Json)
    requires name !in FieldMemberNames
    ensures ParseField(JObj(m[name := value])) == ParseField(JObj(m))
  {
    var m' := m[name := value];
    assert forall k :: k in FieldMemberNames ==> (k in m' <==> k in m) && (k in m ==> m'[k] == m[k]);
  }

  /** `fields: z.array(formFieldSchema)`: every item is an accepted field. */
  function ParseFields(items: seq<Json>): (r: Option<FormSchema>)
    ensures r.Some? <==> forall i :: 0 <= i < |items| ==> ParseField(items[i]).Some?
    ensures r.Some? ==> |r.value| == |items|
    ensures r.Some? ==> forall i :: 0 <= i < |items| ==> ParseField(items[i]) == Some(r.value[i])
  {
    if |items| == 0 then Some([])
    else match ParseField(items[0])
      case None => None
      case Some(f) =>
        match ParseFields(items[1..])
        case None => None
        case Some(rest) => Some([f] + rest)
  }

  /** The `schema` body member of a publish request: an object whose `fields` is a
      non-empty list of accepted fields. */
  function ParseSchema(j: Json): (r: Option<FormSchema>)
    ensures r.Some? <==>
      && Member(j, "fields").Some? && Member(j, "fields").value.JArr?
      && |Member(j, "fields").value.items| >= 1
      && ParseFields(Member(j, "fields").value.items).Some?
    ensures r.Some? ==> r == ParseFields(Member(j, "fields").value.items)
    ensures r.Some? ==> |r.value| >= 1
    ensures r.Some? ==> forall i :: 0 <= i < |r.value| ==> |r.value[i].key| > 0 && |r.value[i].labelText| > 0
  {
    match Member(j, "fields")
    case Some(JArr(items)) =>
      if |items| >= 1 then ParseFields(items) else None
    case _ => None
  }

  /** Field keys need not be distinct: two fields with the same key are both accepted. */
  lemma RepeatedKeysAccepted(a: FormField, b: FormField)
    requires |a.key| > 0 && |a.labelText| > 0 && |b.labelText| > 0 && b.key == a.key
    ensures ParseSchema(JObj(map["fields" := JArr([FieldToJson(a), FieldToJson(b)])])) == Some([a, b])
  {
    FieldRoundTrip(a);
    FieldRoundTrip(b);
    var items := [FieldToJson(a), FieldToJson(b)];
    var tail := [FieldToJson(b)];
    assert items[1..] == tail;
    assert tail[1..] == [];
    assert ParseField(tail[0]) == Some(b);
    assert [b] + [] == [b];
    assert ParseFields(tail) == Some([b]);
    assert ParseField(items[0]) == Some(a);
    assert [a] + [b] == [a, b];
    assert ParseFields(items) == Some([a, b]);
  }

  // ---------------------------------------------------------------- request bodies

  /** The typed body of a create-form request. */
  datatype CreateFormInput = CreateFormInput(title: string, slug: string, description: Option<string>)

  /** `createFormSchema`: a non-empty title, a slug, and an optional string description. */
  function ParseCreateFormBody(body: Json): (r: Option<CreateFormInput>)
    ensures r.Some? <==>
      && body.JObj? && NonEmptyString(body.members, "title")
      && "slug" in body.members && body.members["slug"].JStr? && IsSlug(body.members["slug"].s)
      && ("description" in body.members ==> body.members["description"].JStr?)
    ensures r.Some? ==> |r.value.title| > 0 && IsSlug(r.value.slug)
    ensures r.Some? ==> body.JObj? && "title" in body.members && "slug" in body.members
    ensures r.Some? ==>
      r.value.title == body.members["title"].s && r.value.slug == body.members["slug"].s
    ensures r.Some? ==>
      && (r.value.description.Some? <==> "description" in body.members)
      && (r.value.description.Some? ==> JStr(r.value.description.value) == body.members["description"])
  {
    if !body.JObj? then None
    else
      var m := body.members;
      if !NonEmptyString(m, "title") then None
      else if !("slug" in m && m["slug"].JStr? && |m["slug"].s| >= 1 && MatchesSlugPattern(m["slug"].s)) then None
      else if "description" in m && !m["description"].JStr? then None
      else
        var description := if "description" in m then Some(m["description"].s) else None;
        Some(CreateFormInput(m["title"].s, m["slug"].s, description))
  }

  /** A body holding just a non-empty title and a slug is accepted as it is, with no description. */
  lemma TitleAndSlugAccepted(title: string, slug: string)
    requires |title| > 0 && IsSlug(slug)
    ensures ParseCreateFormBody(JObj(map["title" := JStr(title), "slug" := JStr(slug)]))
            == Some(CreateFormInput(title, slug, None))
  {
    var m := map["title" := JStr(title), "slug" := JStr(slug)];
    assert |"title"| != |"slug"| && |"description"| != |"title"| && |"description"| != |"slug"|;
    assert "description" !in m;
    assert m["slug"] == JStr(slug);
    assert MatchesSlugPattern(slug);
  }

  /** `addVersionSchema`: the form id parameter is a UUID and `body.schema` an accepted schema. */
  function ParseAddVersionRequest(formIdParam: Id, body: Json, isUuid: Id -> bool): (r: Option<FormSchema>)
    ensures r.Some? <==>
      isUuid(formIdParam) && Member(body, "schema").Some? && ParseSchema(Member(body, "schema").value).Some?
    ensures r.Some? ==> r == ParseSchema(Member(body, "schema").value) && |r.value| >= 1
  {
    if !isUuid(formIdParam) then None
    else match Member(body, "schema")
      case None => None
      case Some(schema) => ParseSchema(schema)
  }

  /** `submitResponseSchema`: the version id parameter is a UUID and `answers` a record
      (an object; arrays, null and scalars are refused). Values are not checked. */
  function ParseSubmitRequest(versionIdParam: Id, body: Json, isUuid: Id -> bool): (r: Option<Answers>)
    ensures r.Some? <==> isUuid(versionIdParam) && Member(body, "answers").Some? && Member(body, "answers").value.JObj?
    ensures r.Some? ==> Member(body, "answers") == Some(JObj(r.value))
  {
    if !isUuid(versionIdParam) then None
    else match Member(body, "answers")
      case Some(JObj(answers)) => Some(answers)
      case _ => None
  }

  /** `getFormSchema`: the slug parameter is non-empty. */
  predicate GetFormRequestOk(slugParam: string)
  {
    |slugParam| >= 1
  }

  /** `getSubmissionsSchema`: the form id parameter is a UUID. */
  predicate GetSubmissionsRequestOk(formIdParam: Id, isUuid: Id -> bool)
  {
    isUuid(formIdParam)
  }
}
