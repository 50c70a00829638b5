/** SubmissionService of src/services/submission.service.ts: recording a submission
    against a version and listing a form's submissions, newest first. */
module SubmissionService {
  import opened Wrappers
  import opened Errors
  import opened FormTypes
  import opened FormStore

  // ---------------------------------------------------------------- submitResponse

  /** `submitResponse`: NotFound for an unknown version, else one new submission that
      references the version and carries the answers as given. The answers are not
      checked against the version's schema here. */
  function SubmitResponse(s: Store, versionId: Id, answers: Answers, now: nat): (r: Result<Inserted<Submission>, HttpError>)
    ensures r.Err? <==> versionId !in VersionIds(s.versions)
    ensures r.Err? ==> r.error == NotFound("Form Version not found")
    ensures r.Ok? ==>
      && r.value.row.versionId == versionId && r.value.row.answers == answers && r.value.row.createdAt == now
      && r.value.store.submissions == s.submissions + [r.value.row]
      && r.value.store.forms == s.forms
      && r.value.store.versions == s.versions
  {
    if FindVersion(s.versions, versionId).None? then Err(NotFound("Form Version not found"))
    else
      var submission := Submission(s.nextId, versionId, answers, now);
      Ok(Inserted(s.(submissions := s.submissions + [submission], nextId := s.nextId + 1), submission))
  }

  /** Recording a submission keeps the store valid; the new row's id is fresh. */
  lemma SubmitResponsePreservesValid(s: Store, versionId: Id, answers: Answers, now: nat)
    requires Valid(s)
    requires SubmitResponse(s, versionId, answers, now).Ok?
    ensures Valid(SubmitResponse(s, versionId, answers, now).value.store)
    ensures forall u :: u in s.submissions ==> u.id != SubmitResponse(s, versionId, answers, now).value.row.id
  {
  }

  // ---------------------------------------------------------------- getSubmissions

  /** Ids of the versions that belong to a form (the join on `formVersion.form`). */
  function VersionIdsOfForm(s: Store, formId: Id): set<Id>
  {
    set v | v in s.versions && v.formId == formId :: v.id
  }

  /** The submissions whose version is in `versionIds`, each kept as often as it occurs. */
  function Filter(submissions: seq<Submission>, versionIds: set<Id>): (r: seq<Submission>)
    ensures forall u :: multiset(r)[u] == if u.versionId in versionIds then multiset(submissions)[u] else 0
  {
    if |submissions| == 0 then []
    else
      var rest := Filter(submissions[1..], versionIds);
      assert submissions == [submissions[0]] + submissions[1..];
      if submissions[0].versionId in versionIds then [submissions[0]] + rest else rest
  }

  /** `order: { createdAt: 'DESC' }`. */
  predicate NewestFirst(submissions: seq<Submission>)
  {
    forall i, j :: 0 <= i < j < |submissions| ==> submissions[i].createdAt >= submissions[j].createdAt
  }

  /** Putting a newer-or-equal submission in front of a sorted list keeps it sorted. */
  lemma PrependNewest(u: Submission, sorted: seq<Submission>)
    requires NewestFirst(sorted)
    requires |sorted| == 0 || sorted[0].createdAt <= u.createdAt
    ensures NewestFirst([u] + sorted)
  {
    var r := [u] + sorted;
    forall i, j | 0 <= i < j < |r|
      ensures r[i].createdAt >= r[j].createdAt
    {
      if i == 0 && j > 1 {
        assert sorted[0].createdAt >= sorted[j - 1].createdAt;
      }
    }
  }

  function Insert(u: Submission, sorted: seq<Submission>): (r: seq<Submission>)
    requires NewestFirst(sorted)
    ensures |r| == |sorted| + 1
    ensures r[0] == u || (|sorted| > 0 && r[0] == sorted[0])
    ensures NewestFirst(r)
    ensures multiset(r) == multiset(sorted) + multiset{u}
  {
    if |sorted| == 0 then [u]
    else if sorted[0].createdAt <= u.createdAt then PrependNewest(u, sorted); [u] + sorted
    else
      var rest := Insert(u, sorted[1..]);
      assert sorted == [sorted[0]] + sorted[1..];
      PrependNewest(sorted[0], rest);
      [sorted[0]] + rest
  }

  /** Insertion sort by creation time, newest first. Submissions with equal times may
      come in either order in the source; this picks one. */
  function SortNewestFirst(submissions: seq<Submission>): (r: seq<Submission>)
    ensures NewestFirst(r)
    ensures multiset(r) == multiset(submissions)
  {
    if |submissions| == 0 then []
    else
      assert submissions == [submissions[0]] + submissions[1..];
      Insert(submissions[0], SortNewestFirst(submissions[1..]))
  }

  /** `getSubmissions`: exactly the submissions of the form's versions, newest first.
      It never fails: the query returns a list, so the not-found branch is dead. */
  function GetSubmissions(s: Store, formId: Id): (r: Result<seq<Submission>, HttpError>)
    ensures r.Ok?
    ensures NewestFirst(r.value)
    ensures forall u ::
              multiset(r.value)[u] == if u.versionId in VersionIdsOfForm(s, formId) then multiset(s.submissions)[u] else 0
  {
    Ok(SortNewestFirst(Filter(s.submissions, VersionIdsOfForm(s, formId))))
  }

  /** An id that names no form lists no submissions, rather than raising an error. */
  lemma UnknownFormListsNothing(s: Store, formId: Id)
    requires Valid(s)
    requires formId !in FormIds(s.forms)
    ensures GetSubmissions(s, formId) == Ok([])
  {
    var r := GetSubmissions(s, formId).value;
    assert VersionIdsOfForm(s, formId) == {};
    assert multiset(r) == multiset{};
  }

  /** A recorded submission is listed for the form of its version, with the answers
      exactly as submitted. */
  lemma SubmissionListedUnderItsForm(s: Store, versionId: Id, answers: Answers, now: nat)
    requires SubmitResponse(s, versionId, answers, now).Ok?
    ensures FindVersion(s.versions, versionId).Some?
    ensures
      var ins := SubmitResponse(s, versionId, answers, now).value;
      var listed := GetSubmissions(ins.store, FindVersion(s.versions, versionId).value.formId).value;
      ins.row in listed && ins.row.answers == answers
  {
    var ins := SubmitResponse(s, versionId, answers, now).value;
    var version := FindVersion(s.versions, versionId).value;
    assert ins.row.versionId in VersionIdsOfForm(ins.store, version.formId);
    assert multiset(ins.store.submissions)[ins.row] > 0;
  }
}
