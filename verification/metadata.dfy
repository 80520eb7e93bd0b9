/**
 The read side of routes/metaData.js. `POST /` answers with the caller's own
 lists, the projects and forms the caller belongs to and, on request, the
 submission counts the forms gateway reports for the forms of one project.
 `centralUrl` is the gateway's configured address; `fetch` gives the outcome
 of listing the submissions at a URL, as the number of submissions listed.
 */
module MetaData {
  import opened Lists
  import opened Store
  import opened Http

  // ----- BuildSubmissionURL -----

  /** The two submission-listing URLs of a form */
  datatype SubmissionURLs = SubmissionURLs(live: string, draft: string)

  /** The gateway's address of the form, within its project */
  function FormURL(centralUrl: string, project: Project, form: Form): string {
    centralUrl + "/v1/projects/" + project.centralID + "/forms/" + form.centralID
  }

  /** `BuildSubmissionURL`: the live listing is the form's address followed by
      "/submissions", and the draft listing is the same address with
      "/draft" inserted before "/submissions" */
  function BuildSubmissionURL(centralUrl: string, project: Project, form: Form): (r: SubmissionURLs)
    ensures r.live == FormURL(centralUrl, project, form) + "/submissions"
    ensures |r.live| >= 12 && r.draft == r.live[..|r.live| - 12] + "/draft/submissions"
    ensures r.draft != r.live
  {
    var base := FormURL(centralUrl, project, form);
    var r := SubmissionURLs(base + "/submissions", base + "/draft/submissions");
    assert r.live[..|r.live| - 12] == base;
    r
  }

  /** Strings that agree around a middle part agree in the middle */
  lemma MiddleAgrees(a: string, m1: string, m2: string, b: string)
    requires a + m1 + b == a + m2 + b
    ensures m1 == m2
  {
    var x := a + m1 + b;
    assert |m1| == |m2|;
    assert m1 == x[|a|..|a| + |m1|];
  }

  /** Within one project, a submission URL names exactly one gateway form id */
  lemma {:induction false} SubmissionURLIdentifiesForm(centralUrl: string, project: Project, f1: Form, f2: Form)
    requires BuildSubmissionURL(centralUrl, project, f1).live == BuildSubmissionURL(centralUrl, project, f2).live
             || BuildSubmissionURL(centralUrl, project, f1).draft == BuildSubmissionURL(centralUrl, project, f2).draft
    ensures f1.centralID == f2.centralID
  {
    var a := centralUrl + "/v1/projects/" + project.centralID + "/forms/";
    assert FormURL(centralUrl, project, f1) == a + f1.centralID;
    assert FormURL(centralUrl, project, f2) == a + f2.centralID;
    if BuildSubmissionURL(centralUrl, project, f1).live == BuildSubmissionURL(centralUrl, project, f2).live {
      MiddleAgrees(a, f1.centralID, f2.centralID, "/submissions");
    } else {
      MiddleAgrees(a, f1.centralID, f2.centralID, "/draft/submissions");
    }
  }

  // ----- getSubmissionCounts -----

  /** The `submissions` object: a count stays `null` unless it was fetched */
  datatype Submissions = Submissions(live: Option<nat>, draft: Option<nat>)

  datatype Counted = Counted(submissions: Submissions) | CountFailed(error: Error)

  /** The error `BuildSubmissionURL` raises when the project or the form
      lookup found nothing */
  const NullCentralID: Error := Thrown("Cannot read properties of null (reading 'centralID')")

  /** `getSubmissionCounts` for the form `formName` of project `projectName`:
      the draft listing is fetched only for a draft and the live listing only
      for a live form, and a failed fetch is rethrown */
  function GetSubmissionCounts(s: Store, centralUrl: string, projectName: string, formName: string,
                               fetch: string -> Call<nat>): (r: Counted)
    ensures ProjectNamed(s.projects, projectName).None? || FormIn(s.forms, formName, projectName).None? ==>
              r == CountFailed(NullCentralID)
    ensures ProjectNamed(s.projects, projectName).Some? && FormIn(s.forms, formName, projectName).Some? ==>
              var form := s.forms[FormIn(s.forms, formName, projectName).value];
              var urls := BuildSubmissionURL(centralUrl, s.projects[ProjectNamed(s.projects, projectName).value], form);
              && (r.Counted? <==> (form.draft ==> fetch(urls.draft).Done?) && (form.live ==> fetch(urls.live).Done?))
              && (r.Counted? ==> r.submissions.draft == (if form.draft then Some(fetch(urls.draft).value) else None))
              && (r.Counted? ==> r.submissions.live == (if form.live then Some(fetch(urls.live).value) else None))
              && (form.draft && fetch(urls.draft).Failed? ==> r == CountFailed(GatewayError(fetch(urls.draft).message)))
              && (!(form.draft && fetch(urls.draft).Failed?) && form.live && fetch(urls.live).Failed? ==>
                    r == CountFailed(GatewayError(fetch(urls.live).message)))
  {
    match ProjectNamed(s.projects, projectName)
    case None => CountFailed(NullCentralID)
    case Some(p) =>
      match FormIn(s.forms, formName, projectName)
      case None => CountFailed(NullCentralID)
      case Some(k) =>
        var form := s.forms[k];
        var urls := BuildSubmissionURL(centralUrl, s.projects[p], form);
        var draft := if form.draft then fetch(urls.draft) else Done(0);
        var live := if form.live then fetch(urls.live) else Done(0);
        if draft.Failed? then CountFailed(GatewayError(draft.message))
        else if live.Failed? then CountFailed(GatewayError(live.message))
        else Counted(Submissions(if form.live then Some(live.value) else None,
                                 if form.draft then Some(draft.value) else None))
  }

  /** The counts depend on the gateway only through the form's two listing
      URLs: two gateways that answer alike there give the same outcome */
  lemma {:induction false} GetSubmissionCountsLocal(s: Store, centralUrl: string, projectName: string, formName: string,
                                                    fetch1: string -> Call<nat>, fetch2: string -> Call<nat>)
    requires ProjectNamed(s.projects, projectName).Some? && FormIn(s.forms, formName, projectName).Some?
    requires var urls := BuildSubmissionURL(centralUrl, s.projects[ProjectNamed(s.projects, projectName).value],
                                            s.forms[FormIn(s.forms, formName, projectName).value]);
             fetch1(urls.live) == fetch2(urls.live) && fetch1(urls.draft) == fetch2(urls.draft)
    ensures GetSubmissionCounts(s, centralUrl, projectName, formName, fetch1)
         == GetSubmissionCounts(s, centralUrl, projectName, formName, fetch2)
  {
  }

  // ----- POST / -----

  /** A returned form, with the `submissions` field it may have been given */
  datatype FormEntry = FormEntry(form: Form, submissions: Option<Submissions>)

  /** The fields of the caller's account the route selects */
  datatype UserLists = UserLists(projects: seq<string>, forms: seq<string>, roles: Roles)

  datatype Listing = Listing(user: Option<UserLists>, projects: seq<Project>, forms: seq<FormEntry>)

  /** `res.status(200).send(result)` or, for any exception, `res.status(400).send(err)` */
  datatype Response = Listed(listing: Listing) | Refused(error: Error)

  datatype Attached = Attached(entries: seq<FormEntry>) | AttachFailed(error: Error)

  /** The form at `i` is the first form of `projectName` whose counts fail */
  ghost predicate FirstCountFailure(s: Store, centralUrl: string, forms: seq<Form>, projectName: string,
                                    fetch: string -> Call<nat>, i: nat) {
    && i < |forms| && forms[i].project == projectName
    && GetSubmissionCounts(s, centralUrl, forms[i].project, forms[i].name, fetch).CountFailed?
    && forall j :: 0 <= j < i && forms[j].project == projectName ==>
         GetSubmissionCounts(s, centralUrl, forms[j].project, forms[j].name, fetch).Counted?
  }

  /** The counting loop over the returned forms: a form of project
      `projectName` gets its counts, every other form is left as it is, and
      the first failure ends the loop */
  function AttachCounts(s: Store, centralUrl: string, forms: seq<Form>, projectName: string,
                        fetch: string -> Call<nat>): (r: Attached)
    ensures r.Attached? <==>
              forall i :: 0 <= i < |forms| && forms[i].project == projectName ==>
                GetSubmissionCounts(s, centralUrl, forms[i].project, forms[i].name, fetch).Counted?
    ensures r.Attached? ==> |r.entries| == |forms|
    ensures r.Attached? ==> forall i :: 0 <= i < |forms| ==>
              && r.entries[i].form == forms[i]
              && (forms[i].project != projectName ==> r.entries[i].submissions.None?)
              && (forms[i].project == projectName ==>
                    r.entries[i].submissions == Some(GetSubmissionCounts(s, centralUrl, forms[i].project, forms[i].name, fetch).submissions))
  {
    if |forms| == 0 then Attached([])
    else
      var f := forms[0];
      var head := if f.project == projectName then GetSubmissionCounts(s, centralUrl, f.project, f.name, fetch)
                  else Counted(Submissions(None, None));
      if head.CountFailed? then AttachFailed(head.error)
      else match AttachCounts(s, centralUrl, forms[1..], projectName, fetch)
        case AttachFailed(e) => AttachFailed(e)
        case Attached(rest) =>
          var entry := FormEntry(f, if f.project == projectName then Some(head.submissions) else None);
          Attached([entry] + rest)
  }

  /** The loop awaits the forms in order, so a failure reports the error of
      the first form of the project whose counts fail */
  lemma {:induction false} AttachCountsFirstFailure(s: Store, centralUrl: string, forms: seq<Form>, projectName: string,
                                                    fetch: string -> Call<nat>)
    requires AttachCounts(s, centralUrl, forms, projectName, fetch).AttachFailed?
    ensures exists i: nat :: FirstCountFailure(s, centralUrl, forms, projectName, fetch, i)
                        && AttachCounts(s, centralUrl, forms, projectName, fetch).error
                           == GetSubmissionCounts(s, centralUrl, forms[i].project, forms[i].name, fetch).error
    decreases |forms|
  {
    var f := forms[0];
    if f.project == projectName && GetSubmissionCounts(s, centralUrl, f.project, f.name, fetch).CountFailed? {
      assert FirstCountFailure(s, centralUrl, forms, projectName, fetch, 0);
    } else {
      assert AttachCounts(s, centralUrl, forms[1..], projectName, fetch).AttachFailed?;
      assert AttachCounts(s, centralUrl, forms, projectName, fetch).error
             == AttachCounts(s, centralUrl, forms[1..], projectName, fetch).error;
      AttachCountsFirstFailure(s, centralUrl, forms[1..], projectName, fetch);
      var i: nat :| FirstCountFailure(s, centralUrl, forms[1..], projectName, fetch, i)
               && AttachCounts(s, centralUrl, forms[1..], projectName, fetch).error
                  == GetSubmissionCounts(s, centralUrl, forms[1..][i].project, forms[1..][i].name, fetch).error;
      assert forms[1..][i] == forms[i + 1];
      forall j | 0 <= j < i + 1 && forms[j].project == projectName
        ensures GetSubmissionCounts(s, centralUrl, forms[j].project, forms[j].name, fetch).Counted?
      {
        if j > 0 { assert forms[j] == forms[1..][j - 1]; }
      }
      assert FirstCountFailure(s, centralUrl, forms, projectName, fetch, i + 1);
    }
  }

  /** The forms of a listing, without their counts */
  function EntryForms(entries: seq<FormEntry>): (r: seq<Form>)
    ensures |r| == |entries|
    ensures forall i :: 0 <= i < |entries| ==> r[i] == entries[i].form
  {
    seq(|entries|, i requires 0 <= i < |entries| => entries[i].form)
  }

  /** The forms the caller belongs to, in store order */
  function MemberForms(forms: seq<Form>, caller: UserId): (r: seq<Form>)
    ensures forall f :: f in r <==> f in forms && caller in f.users
  {
    Filter(forms, (f: Form) => caller in f.users)
  }

  /** `POST /` for the caller `caller`. `getSubmissionCount` is whether the
      body's flag is the boolean `true`; `projectName` is the body's project
      name, `None` when absent. */
  function ListMetaData(s: Store, caller: UserId, getSubmissionCount: bool, projectName: Option<string>,
                        centralUrl: string, fetch: string -> Call<nat>): (r: Response)
    ensures r.Listed? ==>
              && (forall p :: p in r.listing.projects <==> p in s.projects && caller in p.users)
              && (forall f :: f in EntryForms(r.listing.forms) <==> f in s.forms && caller in f.users)
    ensures r.Listed? ==> forall i :: 0 <= i < |r.listing.forms| && r.listing.forms[i].submissions.Some? ==>
              getSubmissionCount && projectName.Some? && r.listing.forms[i].form.project == projectName.value
    ensures r.Listed? && getSubmissionCount && projectName.Some? && projectName.value != "" ==>
              forall i :: 0 <= i < |r.listing.forms| && r.listing.forms[i].form.project == projectName.value ==>
                r.listing.forms[i].submissions.Some?
    ensures r.Listed? ==> (r.listing.user.Some? <==> UserWithId(s.users, caller).Some?)
    ensures r.Refused? ==> getSubmissionCount && projectName.Some? && projectName.value != ""
    ensures getSubmissionCount && projectName.Some? && projectName.value != "" ==>
              var a := AttachCounts(s, centralUrl, MemberForms(s.forms, caller), projectName.value, fetch);
              && (r.Refused? <==> a.AttachFailed?)
              && (r.Refused? ==> r.error == a.error)
              && (r.Listed? ==> r.listing.forms == a.entries)
    ensures !(getSubmissionCount && projectName.Some? && projectName.value != "") ==>
              && r.Listed?
              && EntryForms(r.listing.forms) == MemberForms(s.forms, caller)
              && forall i :: 0 <= i < |r.listing.forms| ==> r.listing.forms[i].submissions.None?
  {
    var user := match UserWithId(s.users, caller)
                case None => None
                case Some(j) => Some(UserLists(s.users[j].projects, s.users[j].forms, s.users[j].roles));
    var projects := Filter(s.projects, (p: Project) => caller in p.users);
    var forms := MemberForms(s.forms, caller);
    var plain := seq(|forms|, i requires 0 <= i < |forms| => FormEntry(forms[i], None));
    assert EntryForms(plain) == forms;
    if getSubmissionCount && projectName.Some? && projectName.value != "" then
      match AttachCounts(s, centralUrl, forms, projectName.value, fetch)
      case AttachFailed(e) => Refused(e)
      case Attached(entries) =>
        assert EntryForms(entries) == forms;
        Listed(Listing(user, projects, entries))
    else
      Listed(Listing(user, projects, plain))
  }
}
