/** The request pipelines of src/routes/form.route.ts: each route runs its shape
    rules first; submissions are then checked by the answer validator before they
    are recorded. Authentication and role checks are not modelled. */
module FormRoutes {
  import opened Wrappers
  import opened Errors
  import opened JsonValues
  import opened FormTypes
  import opened FormStore
  import opened RequestSchema
  import opened FormService
  import opened SubmissionService
  import opened DynamicValidation

  /** POST /forms: shape rules, then `createForm`. */
  function CreateFormRoute(s: Store, body: Json): (r: Result<Inserted<Form>, HttpError>)
    ensures ParseCreateFormBody(body).None? ==> r == Err(InvalidRequest)
    ensures ParseCreateFormBody(body).Some? ==>
      && (r.Err? <==> exists f :: f in s.forms && f.slug == ParseCreateFormBody(body).value.slug)
      && (r.Err? ==> r.error == Conflict("Form of the same slug exists"))
    ensures r.Ok? ==> |r.value.row.title| > 0 && IsSlug(r.value.row.slug)
    ensures r.Ok? ==>
      && body.JObj? && "title" in body.members && "slug" in body.members
      && JStr(r.value.row.title) == body.members["title"]
      && JStr(r.value.row.slug) == body.members["slug"]
      && (r.value.row.description.Some? <==> "description" in body.members)
      && (r.value.row.description.Some? ==> JStr(r.value.row.description.value) == body.members["description"])
    ensures r.Ok? ==>
      && r.value.store.forms == s.forms + [r.value.row]
      && r.value.store.versions == s.versions
      && r.value.store.submissions == s.submissions
  {
    match ParseCreateFormBody(body)
    case None => Err(InvalidRequest)
    case Some(input) => CreateForm(s, input.title, input.slug, input.description)
  }

  /** POST /forms/:id/versions: shape rules, then `addVersion` with `body.schema`. */
  function PublishVersionRoute(s: Store, formIdParam: Id, body: Json, isUuid: Id -> bool): (r: Result<Inserted<FormVersion>, HttpError>)
    ensures ParseAddVersionRequest(formIdParam, body, isUuid).None? ==> r == Err(InvalidRequest)
    ensures ParseAddVersionRequest(formIdParam, body, isUuid).Some? ==>
      && (r.Ok? <==> formIdParam in FormIds(s.forms))
      && (r.Err? ==> r.error == NotFound("Form not found"))
    ensures r.Ok? ==> r.value.row.schema == ParseAddVersionRequest(formIdParam, body, isUuid).value
    ensures r.Ok? ==> forall v :: v in s.versions && v.formId == formIdParam ==> v.version < r.value.row.version
    ensures r.Ok? ==>
      || (r.value.row.version == 1 && forall v :: v in s.versions ==> v.formId != formIdParam)
      || exists v :: v in s.versions && v.formId == formIdParam && v.version == r.value.row.version - 1
    ensures r.Ok? ==>
      && r.value.store.versions == s.versions + [r.value.row]
      && r.value.store.forms == s.forms
      && r.value.store.submissions == s.submissions
    ensures r.Ok? ==> isUuid(formIdParam) && r.value.row.formId == formIdParam
    ensures r.Ok? ==> |r.value.row.schema| >= 1
    ensures r.Ok? ==> forall i :: 0 <= i < |r.value.row.schema| ==>
      |r.value.row.schema[i].key| > 0 && |r.value.row.schema[i].labelText| > 0
  {
    match ParseAddVersionRequest(formIdParam, body, isUuid)
    case None => Err(InvalidRequest)
    case Some(schema) => AddVersion(s, formIdParam, schema)
  }

  /** GET /forms/:slug: shape rules, then `getLatestVersion`. */
  function GetFormRoute(s: Store, slugParam: string): (r: Result<FormVersion, HttpError>)
    ensures |slugParam| == 0 ==> r == Err(InvalidRequest)
    ensures |slugParam| > 0 ==>
      && (r.Err? <==> forall v :: v in s.versions ==> v.formId !in FormIdsWithSlug(s.forms, slugParam))
      && (r.Err? ==> r.error == NotFound("Version not found"))
    ensures r.Ok? ==> r.value in s.versions && r.value.formId in FormIdsWithSlug(s.forms, slugParam)
    ensures r.Ok? ==> forall v :: v in s.versions && v.formId in FormIdsWithSlug(s.forms, slugParam) ==>
      v.version <= r.value.version
  {
    if !GetFormRequestOk(slugParam) then Err(InvalidRequest) else GetLatestVersion(s, slugParam)
  }

  /** GET /forms/:formId/submissions: shape rules, then `getSubmissions`. */
  function ListSubmissionsRoute(s: Store, formIdParam: Id, isUuid: Id -> bool): (r: Result<seq<Submission>, HttpError>)
    ensures r.Ok? <==> isUuid(formIdParam)
    ensures r.Err? ==> r.error == InvalidRequest
    ensures r.Ok? ==> NewestFirst(r.value)
    ensures r.Ok? ==> forall u ::
      multiset(r.value)[u] == if u.versionId in VersionIdsOfForm(s, formIdParam) then multiset(s.submissions)[u] else 0
  {
    if !GetSubmissionsRequestOk(formIdParam, isUuid) then Err(InvalidRequest) else GetSubmissions(s, formIdParam)
  }

  /** POST /submissions/:versionId: shape rules, then the answer validator, then
      `submitResponse`. */
  function SubmitRoute(s: Store, versionIdParam: Id, body: Json, isUuid: Id -> bool, now: nat): (r: Result<Inserted<Submission>, HttpError>)
    ensures ParseSubmitRequest(versionIdParam, body, isUuid).None? ==> r == Err(InvalidRequest)
    ensures ParseSubmitRequest(versionIdParam, body, isUuid).Some? && versionIdParam !in VersionIds(s.versions) ==>
      r == Err(NotFound("Form Version not found"))
    ensures ParseSubmitRequest(versionIdParam, body, isUuid).Some? && FindVersion(s.versions, versionIdParam).Some? ==>
      (r.Ok? <==> AllConform(FindVersion(s.versions, versionIdParam).value.schema, ParseSubmitRequest(versionIdParam, body, isUuid).value))
    ensures (&& ParseSubmitRequest(versionIdParam, body, isUuid).Some?
             && FindVersion(s.versions, versionIdParam).Some?
             && !AllConform(FindVersion(s.versions, versionIdParam).value.schema,
                            ParseSubmitRequest(versionIdParam, body, isUuid).value)) ==>
      r == Err(BadRequest("Validation Failed: " + Join(Messages(FindVersion(s.versions, versionIdParam).value.schema,
                                                                 ParseSubmitRequest(versionIdParam, body, isUuid).value), ", ")))
    ensures r.Ok? ==> FindVersion(s.versions, versionIdParam).Some?
    ensures r.Ok? ==> AllConform(FindVersion(s.versions, versionIdParam).value.schema, r.value.row.answers)
    ensures r.Ok? ==> Member(body, "answers") == Some(JObj(r.value.row.answers))
    ensures r.Ok? ==> r.value.row.versionId == versionIdParam && r.value.row.createdAt == now
    ensures r.Ok? ==>
      && r.value.store.submissions == s.submissions + [r.value.row]
      && r.value.store.forms == s.forms
      && r.value.store.versions == s.versions
  {
    match ParseSubmitRequest(versionIdParam, body, isUuid)
    case None => Err(InvalidRequest)
    case Some(answers) =>
      match ValidateDynamicSchema(s, versionIdParam, answers)
      case Err(e) => Err(e)
      case Ok(_) => SubmitResponse(s, versionIdParam, answers, now)
  }

  // ---------------------------------------------------------------- reachable stores

  /** The requests that write to the store. */
  datatype Request =
    | CreateFormRequest(body: Json)
    | PublishVersionRequest(formIdParam: Id, publishBody: Json)
    | SubmitRequest(versionIdParam: Id, submitBody: Json, now: nat)

  /** The store an insert leaves behind; a failed request leaves it as it was. */
  function StoreAfter<T>(s: Store, r: Result<Inserted<T>, HttpError>): Store
  {
    if r.Ok? then r.value.store else s
  }

  /** The store after one request. */
  function Handle(s: Store, req: Request, isUuid: Id -> bool): Store
  {
    match req
    case CreateFormRequest(body) => StoreAfter(s, CreateFormRoute(s, body))
    case PublishVersionRequest(formIdParam, body) => StoreAfter(s, PublishVersionRoute(s, formIdParam, body, isUuid))
    case SubmitRequest(versionIdParam, body, now) => StoreAfter(s, SubmitRoute(s, versionIdParam, body, isUuid, now))
  }

  /** The store after a series of requests, handled in order. */
  function Run(s: Store, reqs: seq<Request>, isUuid: Id -> bool): Store
    decreases |reqs|
  {
    if |reqs| == 0 then s else Run(Handle(s, reqs[0], isUuid), reqs[1..], isUuid)
  }

  /** One write request keeps the store valid, whether it succeeds or fails. */
  lemma HandlePreservesValid(s: Store, req: Request, isUuid: Id -> bool)
    requires Valid(s)
    ensures Valid(Handle(s, req, isUuid))
  {
    match req
    case CreateFormRequest(body) =>
      var input := ParseCreateFormBody(body);
      if input.Some? && CreateFormRoute(s, body).Ok? {
        CreateFormPreservesValid(s, input.value.title, input.value.slug, input.value.description);
      }
    case PublishVersionRequest(formIdParam, body) =>
      var schema := ParseAddVersionRequest(formIdParam, body, isUuid);
      if schema.Some? && PublishVersionRoute(s, formIdParam, body, isUuid).Ok? {
        AddVersionPreservesValid(s, formIdParam, schema.value);
      }
    case SubmitRequest(versionIdParam, body, now) =>
      var answers := ParseSubmitRequest(versionIdParam, body, isUuid);
      if answers.Some? && SubmitRoute(s, versionIdParam, body, isUuid, now).Ok? {
        SubmitResponsePreservesValid(s, versionIdParam, answers.value, now);
      }
  }

  /** Every store reachable from the empty one through the routes is valid: slugs are
      unique, the `(form, version)` index is unique and each form's version numbers
      increase. */
  lemma ReachableStoresValid(reqs: seq<Request>, isUuid: Id -> bool)
    ensures Valid(Run(EmptyStore, reqs, isUuid))
  {
    EmptyStoreValid();
    RunPreservesValid(EmptyStore, reqs, isUuid);
  }

  /** A series of write requests keeps a valid store valid. */
  lemma {:induction false} RunPreservesValid(s: Store, reqs: seq<Request>, isUuid: Id -> bool)
    requires Valid(s)
    ensures Valid(Run(s, reqs, isUuid))
    decreases |reqs|
  {
    if |reqs| > 0 {
      HandlePreservesValid(s, reqs[0], isUuid);
      RunPreservesValid(Handle(s, reqs[0], isUuid), reqs[1..], isUuid);
    }
  }

  // ---------------------------------------------------------------- older versions

  /** Publishing a new version does not change how answers to an existing version are
      judged: submissions keep being validated against the version they name. */
  lemma OlderVersionStillJudgedByItsOwnSchema(s: Store, formId: Id, schema: FormSchema, versionId: Id, answers: Answers)
    requires AddVersion(s, formId, schema).Ok?
    requires versionId in VersionIds(s.versions)
    ensures ValidateDynamicSchema(AddVersion(s, formId, schema).value.store, versionId, answers)
            == ValidateDynamicSchema(s, versionId, answers)
  {
    var ins := AddVersion(s, formId, schema).value;
    FindAppend(s.versions, [ins.row], (v: FormVersion) => v.id == versionId);
  }

  // ---------------------------------------------------------------- end to end

  const FullName: FormField := FormField("full_name", "Full Name", Text, true, None)
  const SundayForm: Form := Form(0, "sunday-service", "Sunday Service", None)
  const SundayVersion: FormVersion := FormVersion(1, 0, 1, [FullName])

  /** Step 1 of the scenario: the create-form request is accepted and inserts form 0. */
  lemma SundayServiceCreated()
    ensures CreateFormRoute(EmptyStore, JObj(map["title" := JStr("Sunday Service"), "slug" := JStr("sunday-service")]))
            == Ok(Inserted(Store([SundayForm], [], [], 1), SundayForm))
  {
    var body := JObj(map["title" := JStr("Sunday Service"), "slug" := JStr("sunday-service")]);
    assert IsSlug("sunday-service");
    TitleAndSlugAccepted("Sunday Service", "sunday-service");
    assert CreateFormRoute(EmptyStore, body) == CreateForm(EmptyStore, "Sunday Service", "sunday-service", None);
    SundayFormInserted();
  }

  /** `createForm` on the empty store. */
  lemma SundayFormInserted()
    ensures CreateForm(EmptyStore, "Sunday Service", "sunday-service", None) == Ok(Inserted(Store([SundayForm], [], [], 1), SundayForm))
  {
    assert [] + [SundayForm] == [SundayForm];
  }

  /** Step 2: the publish request is accepted and inserts version 1 of form 0. */
  lemma SundayServicePublished(isUuid: Id -> bool)
    requires isUuid(SundayForm.id)
    ensures PublishVersionRoute(Store([SundayForm], [], [], 1), SundayForm.id,
              JObj(map["schema" := JObj(map["fields" := JArr([FieldToJson(FullName)])])]), isUuid)
            == Ok(Inserted(Store([SundayForm], [SundayVersion], [], 2), SundayVersion))
  {
    FieldRoundTrip(FullName);
    var items := [FieldToJson(FullName)];
    assert items[1..] == [];
    assert ParseFields(items) == Some([FullName] + []);
    assert [FullName] + [] == [FullName];
    var schemaJson := JObj(map["fields" := JArr(items)]);
    assert ParseSchema(schemaJson) == Some([FullName]);
    var body := JObj(map["schema" := schemaJson]);
    assert ParseAddVersionRequest(SundayForm.id, body, isUuid) == Some([FullName]);
    SundayVersionInserted();
  }

  /** `addVersion` on a form with no versions. */
  lemma SundayVersionInserted()
    ensures AddVersion(Store([SundayForm], [], [], 1), SundayForm.id, [FullName])
            == Ok(Inserted(Store([SundayForm], [SundayVersion], [], 2), SundayVersion))
  {
    assert FindForm([SundayForm], SundayForm.id) == Some(SundayForm);
    assert MaxVersion([], SundayForm.id) == 0;
    assert [] + [SundayVersion] == [SundayVersion];
  }

  /** Step 3: the answers pass the validator and are recorded. */
  lemma SundayServiceSubmitted(isUuid: Id -> bool, now: nat)
    requires isUuid(SundayVersion.id)
    ensures SubmitRoute(Store([SundayForm], [SundayVersion], [], 2), SundayVersion.id,
              JObj(map["answers" := JObj(map["full_name" := JStr("Dex")])]), isUuid, now)
            == Ok(Inserted(Store([SundayForm], [SundayVersion], [Submission(2, 1, map["full_name" := JStr("Dex")], now)], 3),
                           Submission(2, 1, map["full_name" := JStr("Dex")], now)))
  {
    var s := Store([SundayForm], [SundayVersion], [], 2);
    var answers := map["full_name" := JStr("Dex")];
    var body := JObj(map["answers" := JObj(answers)]);
    assert ParseSubmitRequest(SundayVersion.id, body, isUuid) == Some(answers);
    assert FindVersion([SundayVersion], 1) == Some(SundayVersion);
    assert Conforms(FullName, answers);
    assert AllConform([FullName], answers);
    assert ValidateDynamicSchema(s, SundayVersion.id, answers) == Ok(());
    SundaySubmissionInserted(now);
  }

  /** `submitResponse` against version 1. */
  lemma SundaySubmissionInserted(now: nat)
    ensures SubmitResponse(Store([SundayForm], [SundayVersion], [], 2), SundayVersion.id, map["full_name" := JStr("Dex")], now)
            == Ok(Inserted(Store([SundayForm], [SundayVersion], [Submission(2, 1, map["full_name" := JStr("Dex")], now)], 3),
                           Submission(2, 1, map["full_name" := JStr("Dex")], now)))
  {
    assert FindVersion([SundayVersion], 1) == Some(SundayVersion);
    var u := Submission(2, 1, map["full_name" := JStr("Dex")], now);
    assert [] + [u] == [u];
  }

  /** A form "sunday-service", version 1 with one required text field, and a
      submission answering it: the submission is recorded against version 1 with the
      answers as sent. */
  lemma SundayServiceScenario(isUuid: Id -> bool, now: nat)
    requires forall id: Id :: isUuid(id)
    ensures
      var created := CreateFormRoute(EmptyStore,
        JObj(map["title" := JStr("Sunday Service"), "slug" := JStr("sunday-service")]));
      && created.Ok?
      && var published := PublishVersionRoute(created.value.store, created.value.row.id,
           JObj(map["schema" := JObj(map["fields" := JArr([FieldToJson(FullName)])])]), isUuid);
      && published.Ok?
      && published.value.row.version == 1
      && published.value.row.schema == [FullName]
      && var submitted := SubmitRoute(published.value.store, published.value.row.id,
           JObj(map["answers" := JObj(map["full_name" := JStr("Dex")])]), isUuid, now);
      && submitted.Ok?
      && submitted.value.row.versionId == published.value.row.id
      && submitted.value.row.answers == map["full_name" := JStr("Dex")]
  {
    SundayServiceCreated();
    SundayServicePublished(isUuid);
    SundayServiceSubmitted(isUuid, now);
  }
}
