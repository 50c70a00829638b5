/** FormService of src/services/form.service.ts: creating forms, publishing versions
    and reading a form's latest version. Each operation is one atomic transition; the
    row lock and transaction of `addVersion` are what make it atomic in the source. */
module FormService {
  import opened Wrappers
  import opened Errors
  import opened FormTypes
  import opened FormStore

  // ---------------------------------------------------------------- createForm

  /** `createForm`: Conflict when the slug is taken, else one new form row. */
  function CreateForm(s: Store, title: string, slug: string, description: Option<string>): (r: Result<Inserted<Form>, HttpError>)
    ensures r.Err? <==> exists f :: f in s.forms && f.slug == slug
    ensures r.Err? ==> r.error == Conflict("Form of the same slug exists")
    ensures r.Ok? ==>
      && r.value.row.title == title && r.value.row.slug == slug && r.value.row.description == description
      && r.value.store.forms == s.forms + [r.value.row]
      && r.value.store.versions == s.versions
      && r.value.store.submissions == s.submissions
  {
    if FindFormBySlug(s.forms, slug).Some? then Err(Conflict("Form of the same slug exists"))
    else
      var form := Form(s.nextId, slug, title, description);
      Ok(Inserted(s.(forms := s.forms + [form], nextId := s.nextId + 1), form))
  }

  /** A created form keeps every slug unique and the whole store valid. */
  lemma CreateFormPreservesValid(s: Store, title: string, slug: string, description: Option<string>)
    requires Valid(s)
    requires CreateForm(s, title, slug, description).Ok?
    ensures Valid(CreateForm(s, title, slug, description).value.store)
  {
    var s' := CreateForm(s, title, slug, description).value.store;
    var f := CreateForm(s, title, slug, description).value.row;
    assert forall g :: g in s.forms ==> g.id != f.id && g.slug != f.slug;
    assert FormIds(s.forms) <= FormIds(s'.forms);
  }

  // ---------------------------------------------------------------- addVersion

  /** `MAX(version.version)` over the versions of one form, 0 when it has none (the
      `parseInt(...) || 0` fallback). */
  function MaxVersion(versions: seq<FormVersion>, formId: Id): (m: nat)
    ensures forall v :: v in versions && v.formId == formId ==> v.version <= m
    ensures m == 0 || exists v :: v in versions && v.formId == formId && v.version == m
  {
    if |versions| == 0 then 0
    else
      var earlier := MaxVersion(versions[..|versions| - 1], formId);
      var last := versions[|versions| - 1];
      assert versions == versions[..|versions| - 1] + [last];
      if last.formId == formId && last.version > earlier then last.version else earlier
  }

  /** `addVersion`: NotFound for an unknown form, else a new version numbered one
      past the form's highest number, holding the given schema. */
  function AddVersion(s: Store, formId: Id, schema: FormSchema): (r: Result<Inserted<FormVersion>, HttpError>)
    ensures r.Err? <==> formId !in FormIds(s.forms)
    ensures r.Err? ==> r.error == NotFound("Form not found")
    ensures r.Ok? ==>
      && r.value.row.formId == formId && r.value.row.schema == schema
      && r.value.store.versions == s.versions + [r.value.row]
      && r.value.store.forms == s.forms
      && r.value.store.submissions == s.submissions
    ensures r.Ok? ==> forall v :: v in s.versions && v.formId == formId ==> v.version < r.value.row.version
    ensures r.Ok? ==>
      || (r.value.row.version == 1 && forall v :: v in s.versions ==> v.formId != formId)
      || exists v :: v in s.versions && v.formId == formId && v.version == r.value.row.version - 1
  {
    if FindForm(s.forms, formId).None? then Err(NotFound("Form not found"))
    else
      var next := MaxVersion(s.versions, formId) + 1;
      var version := FormVersion(s.nextId, formId, next, schema);
      Ok(Inserted(s.(versions := s.versions + [version], nextId := s.nextId + 1), version))
  }

  /** Publishing keeps the `(form, version)` index unique and the whole store valid. */
  lemma AddVersionPreservesValid(s: Store, formId: Id, schema: FormSchema)
    requires Valid(s)
    requires AddVersion(s, formId, schema).Ok?
    ensures Valid(AddVersion(s, formId, schema).value.store)
  {
    var ins := AddVersion(s, formId, schema).value;
    var vs := ins.store.versions;
    assert VersionIds(s.versions) <= VersionIds(vs);
    forall i, j | 0 <= i < j < |vs| && vs[i].formId == vs[j].formId
      ensures vs[i].version < vs[j].version
    {
      if j == |vs| - 1 {
        assert vs[i] in s.versions;
      }
    }
  }

  // ---------------------------------------------------------------- successive versions

  /** The version numbers of one form, in insertion order. */
  function VersionNumbers(versions: seq<FormVersion>, formId: Id): seq<nat>
  {
    if |versions| == 0 then []
    else
      var earlier := VersionNumbers(versions[..|versions| - 1], formId);
      var last := versions[|versions| - 1];
      if last.formId == formId then earlier + [last.version] else earlier
  }

  /** The number list holds exactly the numbers of the form's versions. */
  lemma {:induction false} VersionNumbersMembers(versions: seq<FormVersion>, formId: Id, n: nat)
    ensures n in VersionNumbers(versions, formId) <==> exists v :: v in versions && v.formId == formId && v.version == n
  {
    if |versions| > 0 {
      var init := versions[..|versions| - 1];
      VersionNumbersMembers(init, formId, n);
      assert versions == init + [versions[|versions| - 1]];
    }
  }

  /** The numbers lo, lo + 1, ..., hi - 1. */
  function Range(lo: nat, hi: nat): (r: seq<nat>)
    ensures |r| == if hi <= lo then 0 else hi - lo
    ensures forall i :: 0 <= i < |r| ==> r[i] == lo + i
  {
    if hi <= lo then [] else Range(lo, hi - 1) + [hi - 1]
  }

  /** `addVersion` applied once per schema, in order; stops at the first error. */
  function AddVersions(s: Store, formId: Id, schemas: seq<FormSchema>): Result<Store, HttpError>
    decreases |schemas|
  {
    if |schemas| == 0 then Ok(s)
    else match AddVersion(s, formId, schemas[0])
      case Err(e) => Err(e)
      case Ok(ins) => AddVersions(ins.store, formId, schemas[1..])
  }

  /** Publishing continues a gap-free numbering 1..k with k + 1, k + 2, ... */
  lemma {:induction false} ContinueNumbering(s: Store, formId: Id, schemas: seq<FormSchema>, k: nat)
    requires formId in FormIds(s.forms)
    requires VersionNumbers(s.versions, formId) == Range(1, k + 1)
    ensures AddVersions(s, formId, schemas).Ok?
    ensures VersionNumbers(AddVersions(s, formId, schemas).value.versions, formId) == Range(1, k + |schemas| + 1)
    decreases |schemas|
  {
    if |schemas| > 0 {
      var ins := AddVersion(s, formId, schemas[0]).value;
      var m := MaxVersion(s.versions, formId);
      // the highest existing number is k
      if k >= 1 {
        assert k in Range(1, k + 1) by { assert Range(1, k + 1)[k - 1] == k; }
        VersionNumbersMembers(s.versions, formId, k);
      }
      if m != 0 {
        VersionNumbersMembers(s.versions, formId, m);
        assert m in Range(1, k + 1);
      }
      assert m == k;
      var vs := ins.store.versions;
      assert vs[..|vs| - 1] == s.versions;
      assert VersionNumbers(vs, formId) == Range(1, k + 2);
      ContinueNumbering(ins.store, formId, schemas[1..], k + 1);
    }
  }

  /** N successive publishes on a form without versions number them 1, 2, ..., N. */
  lemma SuccessiveVersionsNumberedFromOne(s: Store, formId: Id, schemas: seq<FormSchema>)
    requires formId in FormIds(s.forms)
    requires forall v :: v in s.versions ==> v.formId != formId
    ensures AddVersions(s, formId, schemas).Ok?
    ensures VersionNumbers(AddVersions(s, formId, schemas).value.versions, formId) == Range(1, |schemas| + 1)
  {
    if VersionNumbers(s.versions, formId) != [] {
      VersionNumbersMembers(s.versions, formId, VersionNumbers(s.versions, formId)[0]);
    }
    ContinueNumbering(s, formId, schemas, 0);
  }

  // ---------------------------------------------------------------- getLatestVersion

  /** Ids of the forms whose slug is `slug` (the join on `form.slug`). */
  function FormIdsWithSlug(forms: seq<Form>, slug: string): set<Id>
  {
    set f | f in forms && f.slug == slug :: f.id
  }

  /** A highest-numbered version among those of the forms in `formIds`
      (`ORDER BY version DESC` and the first row). */
  function Highest(versions: seq<FormVersion>, formIds: set<Id>): (r: Option<FormVersion>)
    ensures r.Some? ==> r.value in versions && r.value.formId in formIds
    ensures r.Some? ==> forall v :: v in versions && v.formId in formIds ==> v.version <= r.value.version
    ensures r.None? <==> forall v :: v in versions ==> v.formId !in formIds
  {
    if |versions| == 0 then None
    else
      var earlier := Highest(versions[..|versions| - 1], formIds);
      var last := versions[|versions| - 1];
      assert versions == versions[..|versions| - 1] + [last];
      if last.formId !in formIds then earlier
      else if earlier.None? || earlier.value.version < last.version then Some(last)
      else earlier
  }

  /** `getLatestVersion`: the highest-numbered version of the form with that slug;
      NotFound when no form has the slug or the form has no versions. */
  function GetLatestVersion(s: Store, slug: string): (r: Result<FormVersion, HttpError>)
    ensures r.Err? <==> forall v :: v in s.versions ==> v.formId !in FormIdsWithSlug(s.forms, slug)
    ensures r.Err? ==> r.error == NotFound("Version not found")
    ensures r.Ok? ==> r.value in s.versions && r.value.formId in FormIdsWithSlug(s.forms, slug)
    ensures r.Ok? ==> forall v :: v in s.versions && v.formId in FormIdsWithSlug(s.forms, slug) ==>
      v.version <= r.value.version
  {
    match Highest(s.versions, FormIdsWithSlug(s.forms, slug))
    case None => Err(NotFound("Version not found"))
    case Some(v) => Ok(v)
  }

  /** Right after a publish, the latest version of that form's slug is the one just published. */
  lemma LatestIsJustPublished(s: Store, formId: Id, schema: FormSchema)
    requires Valid(s)
    requires AddVersion(s, formId, schema).Ok?
    ensures FindForm(s.forms, formId).Some?
    ensures GetLatestVersion(AddVersion(s, formId, schema).value.store, FindForm(s.forms, formId).value.slug)
            == Ok(AddVersion(s, formId, schema).value.row)
  {
    var ins := AddVersion(s, formId, schema).value;
    var form := FindForm(s.forms, formId).value;
    var ids := FormIdsWithSlug(s.forms, form.slug);
    assert ids == {formId} by {
      forall g | g in s.forms && g.slug == form.slug ensures g.id == formId {
        var i :| 0 <= i < |s.forms| && s.forms[i] == g;
        var j :| 0 <= j < |s.forms| && s.forms[j] == form;
        assert i == j;
      }
    }
    var r := GetLatestVersion(ins.store, form.slug);
    assert ins.row in ins.store.versions;
    assert r.Ok?;
  }
}
