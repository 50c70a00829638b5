/** The dynamic answer validator of src/middleware/dynamic-validation.middleware.ts:
    looks up the requested version and checks the answers against its fields. */
module DynamicValidation {
  import opened Wrappers
  import opened Errors
  import opened JsonValues
  import opened FormTypes
  import opened FormStore

  function RequiredMessage(labelText: string): string
  {
    "Field '" + labelText + "' is required"
  }

  function NumberMessage(labelText: string): string
  {
    "Field '" + labelText + "' must be a number"
  }

  /** The two message kinds never coincide, whatever the labels. */
  lemma MessageKindsDiffer(l1: string, l2: string)
    ensures RequiredMessage(l1) != NumberMessage(l2)
  {
    var a := RequiredMessage(l1);
    var b := NumberMessage(l2);
    assert a[|a| - 1] == 'd' && b[|b| - 1] == 'r';
  }

  /** `answers[field.key]`; `None` is `undefined`. */
  function AnswerTo(answers: Answers, key: string): Option<Json>
  {
    if key in answers then Some(answers[key]) else None
  }

  /** What the required check treats as no answer: undefined, null or `""`. */
  predicate Blank(a: Option<Json>)
  {
    a == None || a == Some(JNull) || a == Some(JStr(""))
  }

  /** What the type check looks at: defined and not null. */
  predicate Given(a: Option<Json>)
  {
    a.Some? && a.value != JNull
  }

  /** The messages one loop iteration pushes for one field. */
  function FieldMessages(f: FormField, answers: Answers): (ms: seq<string>)
    ensures |ms| <= 2
  {
    var a := AnswerTo(answers, f.key);
    (if f.required && Blank(a) then [RequiredMessage(f.labelText)] else [])
    + (if Given(a) && f.fieldType == Number && !a.value.JNum? then [NumberMessage(f.labelText)] else [])
  }

  /** The `errors` array after the loop over `fields`, pushed in field order. */
  function Messages(fields: FormSchema, answers: Answers): (ms: seq<string>)
    ensures |ms| <= 2 * |fields|
    ensures forall m :: m in ms ==>
              exists i :: 0 <= i < |fields| && (m == RequiredMessage(fields[i].labelText) || m == NumberMessage(fields[i].labelText))
  {
    if |fields| == 0 then []
    else
      var init := fields[..|fields| - 1];
      var last := fields[|fields| - 1];
      var earlier := Messages(init, answers);
      assert forall i :: 0 <= i < |init| ==> init[i] == fields[i];
      earlier + FieldMessages(last, answers)
  }

  /** A field's answer is acceptable: a required field's answer is not blank, and a
      given answer to a number field is a JSON number. */
  predicate Conforms(f: FormField, answers: Answers)
  {
    && (f.required ==> !Blank(AnswerTo(answers, f.key)))
    && (f.fieldType == Number && Given(AnswerTo(answers, f.key)) ==> AnswerTo(answers, f.key).value.JNum?)
  }

  predicate AllConform(fields: FormSchema, answers: Answers)
  {
    forall i :: 0 <= i < |fields| ==> Conforms(fields[i], answers)
  }

  /** The validator collects no message exactly when every field's answer conforms. */
  lemma {:induction false} NoMessagesIffConforming(fields: FormSchema, answers: Answers)
    ensures Messages(fields, answers) == [] <==> AllConform(fields, answers)
  {
    if |fields| > 0 {
      var init := fields[..|fields| - 1];
      var last := fields[|fields| - 1];
      NoMessagesIffConforming(init, answers);
      assert FieldMessages(last, answers) == [] <==> Conforms(last, answers);
      assert AllConform(fields, answers) <==> AllConform(init, answers) && Conforms(last, answers) by {
        assert forall i :: 0 <= i < |init| ==> init[i] == fields[i];
      }
    }
  }

  /** Messages follow schema order: the messages of a concatenation are the messages
      of its parts, concatenated. */
  lemma {:induction false} MessagesOfConcat(xs: FormSchema, ys: FormSchema, answers: Answers)
    ensures Messages(xs + ys, answers) == Messages(xs, answers) + Messages(ys, answers)
  {
    if |ys| == 0 {
      assert xs + ys == xs;
    } else {
      var init := ys[..|ys| - 1];
      assert (xs + ys)[..|xs + ys| - 1] == xs + init;
      assert (xs + ys)[|xs + ys| - 1] == ys[|ys| - 1];
      MessagesOfConcat(xs, init, answers);
    }
  }

  /** Only the answers under the schema's keys matter: two answer maps that agree on
      every field key draw the same messages. */
  lemma {:induction false} OnlyFieldKeysMatter(fields: FormSchema, a1: Answers, a2: Answers)
    requires forall i :: 0 <= i < |fields| ==> AnswerTo(a1, fields[i].key) == AnswerTo(a2, fields[i].key)
    ensures Messages(fields, a1) == Messages(fields, a2)
  {
    if |fields| > 0 {
      var init := fields[..|fields| - 1];
      assert forall i :: 0 <= i < |init| ==> init[i] == fields[i];
      OnlyFieldKeysMatter(init, a1, a2);
    }
  }

  /** An answer under a key that names no field draws no message. */
  lemma UnknownKeyIgnored(fields: FormSchema, answers: Answers, key: string, value: Json)
    requires forall i :: 0 <= i < |fields| ==> fields[i].key != key
    ensures Messages(fields, answers[key := value]) == Messages(fields, answers)
  {
    OnlyFieldKeysMatter(fields, answers[key := value], answers);
  }

  /** A required field left undefined or null, or a required non-number field answered
      `""`, draws exactly one message, the required one. */
  lemma RequiredAndBlank(f: FormField, answers: Answers)
    requires f.required
    requires || f.key !in answers
             || answers[f.key] == JNull
             || (answers[f.key] == JStr("") && f.fieldType != Number)
    ensures FieldMessages(f, answers) == [RequiredMessage(f.labelText)]
  {
  }

  /** A given answer to a number field that is not a number and not `""` draws exactly
      one message, the type one (numeric strings such as "25" included). */
  lemma NotANumber(f: FormField, answers: Answers)
    requires f.fieldType == Number
    requires f.key in answers && answers[f.key] != JNull && answers[f.key] != JStr("") && !answers[f.key].JNum?
    ensures FieldMessages(f, answers) == [NumberMessage(f.labelText)]
  {
  }

  /** `""` to a number field draws the type message, preceded by the required one when
      the field is required. */
  lemma EmptyStringToNumberField(f: FormField, answers: Answers)
    requires f.fieldType == Number
    requires f.key in answers && answers[f.key] == JStr("")
    ensures f.required ==> FieldMessages(f, answers) == [RequiredMessage(f.labelText), NumberMessage(f.labelText)]
    ensures !f.required ==> FieldMessages(f, answers) == [NumberMessage(f.labelText)]
  {
  }

  /** Fields typed text, email, select or checkbox never draw the type message. */
  lemma OnlyNumberFieldsTypeChecked(f: FormField, answers: Answers)
    requires f.fieldType != Number
    ensures forall m :: m in FieldMessages(f, answers) ==> m == RequiredMessage(f.labelText)
    ensures NumberMessage(f.labelText) !in FieldMessages(f, answers)
  {
    MessageKindsDiffer(f.labelText, f.labelText);
  }

  /** `errors.join(sep)`. */
  function Join(parts: seq<string>, sep: string): string
  {
    if |parts| == 0 then ""
    else if |parts| == 1 then parts[0]
    else parts[0] + sep + Join(parts[1..], sep)
  }

  /** `validateDynamicSchema`: NotFound for an unknown version (no field is checked);
      otherwise BadRequest listing every message when any was collected, else pass. */
  function ValidateDynamicSchema(s: Store, versionId: Id, answers: Answers): (r: Result<(), HttpError>)
    ensures FindVersion(s.versions, versionId).None? ==> r == Err(NotFound("Form Version not found"))
    ensures r.Ok? <==>
      FindVersion(s.versions, versionId).Some? && AllConform(FindVersion(s.versions, versionId).value.schema, answers)
    ensures r.Err? && FindVersion(s.versions, versionId).Some? ==>
      var ms := Messages(FindVersion(s.versions, versionId).value.schema, answers);
      ms != [] && r.error == BadRequest("Validation Failed: " + Join(ms, ", "))
  {
    match FindVersion(s.versions, versionId)
    case None => Err(NotFound("Form Version not found"))
    case Some(version) =>
      var ms := Messages(version.schema, answers);
      NoMessagesIffConforming(version.schema, answers);
      if |ms| > 0 then Err(BadRequest("Validation Failed: " + Join(ms, ", "))) else Ok(())
  }

  /** A required number field answered with `""`: both messages, required first, in one rejection. */
  lemma RequiredNumberGivenEmptyString()
    ensures
      var age := FormField("age", "Age", Number, true, None);
      var s := Store([], [FormVersion(7, 3, 1, [age])], [], 8);
      ValidateDynamicSchema(s, 7, map["age" := JStr("")])
        == Err(BadRequest("Validation Failed: " + (RequiredMessage("Age") + ", " + NumberMessage("Age"))))
  {
    var age := FormField("age", "Age", Number, true, None);
    var s := Store([], [FormVersion(7, 3, 1, [age])], [], 8);
    var answers := map["age" := JStr("")];
    EmptyStringToNumberField(age, answers);
    var ms := [RequiredMessage("Age"), NumberMessage("Age")];
    assert Messages([age], answers) == ms by {
      assert [age][..0] == [];
    }
    assert FindVersion(s.versions, 7) == Some(FormVersion(7, 3, 1, [age]));
    assert Join(ms, ", ") == ms[0] + ", " + ms[1] by {
      assert ms[1..] == [ms[1]];
    }
    assert ValidateDynamicSchema(s, 7, answers) == Err(BadRequest("Validation Failed: " + (ms[0] + ", " + ms[1])));

  }
}
