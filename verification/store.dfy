/** The relational store behind the services: the Form, FormVersion and Submission
    tables of src/models, held as sequences in insertion order. */
module FormStore {
  import opened Wrappers
  import opened FormTypes

  datatype Form = Form(id: Id, slug: string, title: string, description: Option<string>)

  /** A published schema version; `formId` is the owning form (the `form` relation). */
  datatype FormVersion = FormVersion(id: Id, formId: Id, version: nat, schema: FormSchema)

  /** A recorded answer set; `versionId` is the answered version (the `formVersion` relation). */
  datatype Submission = Submission(id: Id, versionId: Id, answers: Answers, createdAt: nat)

  /** The three tables and the source of fresh row ids. */
  datatype Store = Store(forms: seq<Form>, versions: seq<FormVersion>, submissions: seq<Submission>, nextId: Id)

  /** What a successful insert returns: the new store and the saved row. */
  datatype Inserted<T> = Inserted(store: Store, row: T)

  const EmptyStore: Store := Store([], [], [], 0)

  function FormIds(forms: seq<Form>): set<Id>
  {
    set f | f in forms :: f.id
  }

  function VersionIds(versions: seq<FormVersion>): set<Id>
  {
    set v | v in versions :: v.id
  }

  /** `findOne({ where: { id } })` on the forms table. */
  function FindForm(forms: seq<Form>, id: Id): Option<Form>
  {
    Find(forms, (f: Form) => f.id == id)
  }

  /** `findOne({ where: { slug } })` on the forms table. */
  function FindFormBySlug(forms: seq<Form>, slug: string): Option<Form>
  {
    Find(forms, (f: Form) => f.slug == slug)
  }

  /** `findOne({ where: { id } })` on the versions table. */
  function FindVersion(versions: seq<FormVersion>, id: Id): Option<FormVersion>
  {
    Find(versions, (v: FormVersion) => v.id == id)
  }

  /** Form ids and slugs are unique (the primary key and the unique slug column). */
  predicate UniqueForms(forms: seq<Form>)
  {
    forall i, j :: 0 <= i < j < |forms| ==> forms[i].id != forms[j].id && forms[i].slug != forms[j].slug
  }

  predicate UniqueVersionIds(versions: seq<FormVersion>)
  {
    forall i, j :: 0 <= i < j < |versions| ==> versions[i].id != versions[j].id
  }

  predicate UniqueSubmissionIds(submissions: seq<Submission>)
  {
    forall i, j :: 0 <= i < j < |submissions| ==> submissions[i].id != submissions[j].id
  }

  /** Version numbers of one form strictly increase in insertion order. */
  predicate VersionsIncrease(versions: seq<FormVersion>)
  {
    forall i, j :: 0 <= i < j < |versions| && versions[i].formId == versions[j].formId ==>
      versions[i].version < versions[j].version
  }

  /** The store invariant: unique keys, references that resolve, positive version
      numbers that increase per form, and ids below the next fresh id. */
  predicate Valid(s: Store)
  {
    && UniqueForms(s.forms)
    && UniqueVersionIds(s.versions)
    && UniqueSubmissionIds(s.submissions)
    && VersionsIncrease(s.versions)
    && (forall f :: f in s.forms ==> f.id < s.nextId)
    && (forall v :: v in s.versions ==> v.id < s.nextId && v.formId in FormIds(s.forms) && v.version >= 1)
    && (forall u :: u in s.submissions ==> u.id < s.nextId && u.versionId in VersionIds(s.versions))
  }

  lemma EmptyStoreValid()
    ensures Valid(EmptyStore)
  {
  }

  /** The unique `(form, version)` index of the FormVersion table holds in every valid store. */
  lemma FormVersionIndexUnique(s: Store)
    requires Valid(s)
    ensures forall i, j ::
              0 <= i < |s.versions| && 0 <= j < |s.versions| && i != j && s.versions[i].formId == s.versions[j].formId
              ==> s.versions[i].version != s.versions[j].version
  {
    forall i, j | 0 <= i < |s.versions| && 0 <= j < |s.versions| && i != j &&
      s.versions[i].formId == s.versions[j].formId
      ensures s.versions[i].version != s.versions[j].version
    {
      if i < j {
        assert s.versions[i].version < s.versions[j].version;
      } else {
        assert s.versions[j].version < s.versions[i].version;
      }
    }
  }
}
