/**
 The form lifecycle of routes/forms.js. `/new` creates a form as a draft,
 `/new-draft` uploads a further draft version of an existing form, and
 `/publish` turns the current draft into the live version. Every handler
 checks its request against the collections, then talks to the forms gateway
 (ODK Central), and writes to the collections only after every gateway call
 has succeeded. Each gateway call is a parameter holding that call's outcome.
 */
module FormRoutes {
  import opened Lists
  import opened JsNumbers
  import opened Store
  import opened Http
  import opened Admin

  /** `req.query`: a key maps to its value, and `req.query[key]` is
      `undefined` exactly when the key is absent */
  type Query = map<string, string>

  // ----- validateRequestQuery -----

  /** The required keys the query lacks, in the order they were required */
  function MissingKeys(query: Query, required: seq<string>): (r: seq<string>)
    ensures forall k :: k in r <==> k in required && k !in query
  {
    Filter(required, k => k !in query)
  }

  /** `validateRequestQuery`: an `HttpError` with status 400 naming every
      missing key, or nothing when all keys are present */
  function ValidateRequestQuery(query: Query, required: seq<string>): (r: Option<Error>)
    ensures r.None? <==> forall i :: 0 <= i < |required| ==> required[i] in query
    ensures r.Some? ==> r.value.HttpError? && r.value.status == 400
    ensures r.Some? ==> r.value.message == "Request query must include the following: " + Join(MissingKeys(query, required), ",")
  {
    var missing := MissingKeys(query, required);
    if |missing| > 0 then
      Some(HttpError("Request query must include the following: " + Join(missing, ","), 400))
    else
      assert forall i :: 0 <= i < |required| ==> required[i] !in missing;
      None
  }

  const PublishKeys: seq<string> := ["project_name", "form_name"]

  /** With both keys missing, the message lists them in the order the route
      requires them */
  lemma PublishQueryMissingBoth()
    ensures ValidateRequestQuery(map[], PublishKeys)
            == Some(HttpError("Request query must include the following: project_name,form_name", 400))
  {
    var q: Query := map[];
    assert PublishKeys[1..][1..] == [];
    assert MissingKeys(q, PublishKeys) == ["project_name", "form_name"];
    assert ["project_name", "form_name"][1..] == ["form_name"];
    assert Join(["project_name", "form_name"], ",") == "project_name,form_name";
    assert "Request query must include the following: " + "project_name,form_name"
           == "Request query must include the following: project_name,form_name";
  }

  /** With one key missing, the message names just that key */
  lemma PublishQueryMissingOne(v: string)
    ensures ValidateRequestQuery(map["project_name" := v], PublishKeys)
            == Some(HttpError("Request query must include the following: form_name", 400))
    ensures ValidateRequestQuery(map["form_name" := v], PublishKeys)
            == Some(HttpError("Request query must include the following: project_name", 400))
  {
    var q1: Query := map["project_name" := v];
    assert MissingKeys(q1, PublishKeys) == ["form_name"];
    assert "Request query must include the following: " + "form_name" == "Request query must include the following: form_name";
    var q2: Query := map["form_name" := v];
    assert MissingKeys(q2, PublishKeys) == ["project_name"];
    assert "Request query must include the following: " + "project_name" == "Request query must include the following: project_name";
  }

  // ----- /publish -----

  /** `Form.findOne({ name, draft: true })`: the first draft with that name,
      whichever project it belongs to */
  function DraftNamed(forms: seq<Form>, name: string): (r: Option<nat>)
    ensures r.Some? ==> r.value < |forms| && forms[r.value].name == name && forms[r.value].draft
    ensures r.Some? ==> forall j :: 0 <= j < r.value ==> !(forms[j].name == name && forms[j].draft)
    ensures r.None? <==> forall j :: 0 <= j < |forms| ==> !(forms[j].name == name && forms[j].draft)
  {
    FirstIndex(forms, (f: Form) => f.name == name && f.draft)
  }

  /** The first draft with that name in the project `project` */
  function DraftIn(forms: seq<Form>, name: string, project: string): (r: Option<nat>)
    ensures r.Some? ==> r.value < |forms| && forms[r.value].name == name && forms[r.value].project == project && forms[r.value].draft
    ensures r.Some? ==> forall j :: 0 <= j < r.value ==> !(forms[j].name == name && forms[j].project == project && forms[j].draft)
    ensures r.None? <==> forall j :: 0 <= j < |forms| ==> !(forms[j].name == name && forms[j].project == project && forms[j].draft)
  {
    FirstIndex(forms, (f: Form) => f.name == name && f.project == project && f.draft)
  }

  /** The `$set` of a publish, with `version` the draft version read earlier */
  function Finalized(f: Form, version: Option<string>): Form {
    f.(draft := false, live := true, liveVersion := Some(NullableToString(version)), draftVersion := None)
  }

  /** `gs` is `fs` after the form at `k` went live: its draft version became
      its live version, it is no longer a draft, and no other form and no
      other field changed */
  ghost predicate WentLive(fs: seq<Form>, gs: seq<Form>, k: nat) {
    k < |fs| && WentLiveAt(fs, gs, k, fs[k].draftVersion)
  }

  /** `gs` is `fs` after the form at `k` went live at `version`, wherever
      that version was read: it is no longer a draft and has no draft
      version, and no other form and no other field changed */
  ghost predicate WentLiveAt(fs: seq<Form>, gs: seq<Form>, k: nat, version: Option<string>) {
    && k < |fs| && |gs| == |fs|
    && gs[k] == fs[k].(draft := false, live := true,
                       liveVersion := Some(NullableToString(version)), draftVersion := None)
    && forall j :: 0 <= j < |fs| && j != k ==> gs[j] == fs[j]
  }

  /** `/publish` after its query check, as evidently intended: the draft it
      checks for is the form of that name in the named project, and that form
      is the one that goes live */
  function PublishForm(s: Store, projectName: string, formName: string, gateway: Call<()>): (r: Step)
    ensures ProjectNamed(s.projects, projectName).None? ==>
              r == Step(Raised(HttpError("Project does not exist in RHoMIS db", 400)), s)
    ensures ProjectNamed(s.projects, projectName).Some? && DraftIn(s.forms, formName, projectName).None? ==>
              r == Step(Raised(HttpError("Form does not exist in RHoMIS db", 400)), s)
    ensures ProjectNamed(s.projects, projectName).Some? && DraftIn(s.forms, formName, projectName).Some? && gateway.Failed? ==>
              r == Step(Raised(GatewayError(gateway.message)), s)
    ensures ProjectNamed(s.projects, projectName).Some? && DraftIn(s.forms, formName, projectName).Some? && gateway.Done? ==>
              && r.reply == Sent(200, Text("Form finalized"))
              && WentLive(s.forms, r.store.forms, DraftIn(s.forms, formName, projectName).value)
    ensures r.store.users == s.users && r.store.projects == s.projects
  {
    if ProjectNamed(s.projects, projectName).None? then
      Step(Raised(HttpError("Project does not exist in RHoMIS db", 400)), s)
    else match DraftIn(s.forms, formName, projectName)
      case None => Step(Raised(HttpError("Form does not exist in RHoMIS db", 400)), s)
      case Some(k) =>
        if gateway.Failed? then Step(Raised(GatewayError(gateway.message)), s)
        else
          Step(Sent(200, Text("Form finalized")),
               s.(forms := s.forms[k := Finalized(s.forms[k], s.forms[k].draftVersion)]))
  }

  /** `/publish` after its query check, as written: the draft check finds the
      first draft of that name in ANY project, its draft version is the one
      published, and the update then goes to the form of that name in the
      named project, which may be another document or none at all */
  function PublishFormAsWritten(s: Store, projectName: string, formName: string, gateway: Call<()>): (r: Step)
    ensures ProjectNamed(s.projects, projectName).None? ==>
              r == Step(Raised(HttpError("Project does not exist in RHoMIS db", 400)), s)
    ensures ProjectNamed(s.projects, projectName).Some? && DraftNamed(s.forms, formName).None? ==>
              r == Step(Raised(HttpError("Form does not exist in RHoMIS db", 400)), s)
    ensures ProjectNamed(s.projects, projectName).Some? && DraftNamed(s.forms, formName).Some? && gateway.Failed? ==>
              r == Step(Raised(GatewayError(gateway.message)), s)
    ensures ProjectNamed(s.projects, projectName).Some? && DraftNamed(s.forms, formName).Some? && gateway.Done? ==>
              && r.reply == Sent(200, Text("Form finalized"))
              && (FormIn(s.forms, formName, projectName).None? ==> r.store == s)
              && (FormIn(s.forms, formName, projectName).Some? ==>
                    WentLiveAt(s.forms, r.store.forms, FormIn(s.forms, formName, projectName).value,
                               s.forms[DraftNamed(s.forms, formName).value].draftVersion))
    ensures r.store != s ==> r.reply == Sent(200, Text("Form finalized"))
    ensures r.store.users == s.users && r.store.projects == s.projects
  {
    if ProjectNamed(s.projects, projectName).None? then
      Step(Raised(HttpError("Project does not exist in RHoMIS db", 400)), s)
    else match DraftNamed(s.forms, formName)
      case None => Step(Raised(HttpError("Form does not exist in RHoMIS db", 400)), s)
      case Some(d) =>
        if gateway.Failed? then Step(Raised(GatewayError(gateway.message)), s)
        else match FormIn(s.forms, formName, projectName)
          case None => Step(Sent(200, Text("Form finalized")), s)
          case Some(k) =>
            Step(Sent(200, Text("Form finalized")),
                 s.(forms := s.forms[k := Finalized(s.forms[k], s.forms[d].draftVersion)]))
  }

  /** When the first draft of that name anywhere is also the named project's
      form of that name, the written handler does what was intended */
  lemma AsWrittenAgreesOnOwnDraft(s: Store, projectName: string, formName: string, gateway: Call<()>)
    requires DraftNamed(s.forms, formName).Some?
    requires FormIn(s.forms, formName, projectName) == DraftNamed(s.forms, formName)
    ensures PublishFormAsWritten(s, projectName, formName, gateway) == PublishForm(s, projectName, formName, gateway)
  {
    var k := DraftNamed(s.forms, formName).value;
    assert DraftIn(s.forms, formName, projectName) == Some(k);
  }

  /** Two projects each with a form "survey": project "A"'s is a draft at
      version "2", project "B"'s is live at version "1" with no draft */
  function CrossProjectStore(): Store {
    Store([],
          [Project("A", "1", [], ["survey"]), Project("B", "2", [], ["survey"])],
          [Form("survey", "A", "survey", [], true, Some("2"), false, None, false, "", ""),
           Form("survey", "B", "survey", [], false, None, true, Some("1"), false, "", "")])
  }

  /** Publishing "survey" in project "B", which has no draft, is answered
      "Form finalized" and overwrites B's live version with A's draft version
      "2"; the intended handler refuses with 400 and writes nothing */
  lemma PublishCrossesProjects()
    ensures var s := CrossProjectStore();
            var w := PublishFormAsWritten(s, "B", "survey", Done(()));
            && w.reply == Sent(200, Text("Form finalized"))
            && w.store.forms[1].liveVersion == Some("2")
            && w.store.forms[1].draftVersion.None?
            && s.forms[1].draftVersion.None?
    ensures var s := CrossProjectStore();
            PublishForm(s, "B", "survey", Done(())) == Step(Raised(HttpError("Form does not exist in RHoMIS db", 400)), s)
  {
    var s := CrossProjectStore();
    assert DraftNamed(s.forms, "survey") == Some(0);
    assert FormIn(s.forms, "survey", "B") == Some(1);
    assert ProjectNamed(s.projects, "B") == Some(1);
    assert DraftIn(s.forms, "survey", "B").None?;
  }

  /** `POST /publish` as written: the query check comes first, then the
      lookups with the draft check of any project */
  function Publish(s: Store, query: Query, gateway: Call<()>): (r: Step)
    ensures !("project_name" in query && "form_name" in query) ==>
              && r.store == s
              && r.reply.Raised? && r.reply.error.HttpError? && r.reply.error.status == 400
    ensures "project_name" in query && "form_name" in query ==>
              r == PublishFormAsWritten(s, query["project_name"], query["form_name"], gateway)
  {
    match ValidateRequestQuery(query, PublishKeys)
    case Some(e) => Step(Raised(e), s)
    case None =>
      assert PublishKeys[0] in query && PublishKeys[1] in query;
      PublishFormAsWritten(s, query["project_name"], query["form_name"], gateway)
  }

  /** `POST /publish` as evidently intended: the same query check, then the
      draft check of the named project */
  function PublishCorrected(s: Store, query: Query, gateway: Call<()>): (r: Step)
    ensures !("project_name" in query && "form_name" in query) ==>
              && r.store == s
              && r.reply.Raised? && r.reply.error.HttpError? && r.reply.error.status == 400
    ensures "project_name" in query && "form_name" in query ==>
              r == PublishForm(s, query["project_name"], query["form_name"], gateway)
  {
    match ValidateRequestQuery(query, PublishKeys)
    case Some(e) => Step(Raised(e), s)
    case None =>
      assert PublishKeys[0] in query && PublishKeys[1] in query;
      PublishForm(s, query["project_name"], query["form_name"], gateway)
  }

  /** Every draft named `name` belongs to `project`: no other project holds
      a draft of that name */
  ghost predicate OwnDraftsOnly(forms: seq<Form>, name: string, project: string) {
    forall j :: 0 <= j < |forms| && forms[j].name == name && forms[j].draft ==> forms[j].project == project
  }

  /** While no other project holds a draft of that name, the written
      handler and the intended one answer and write alike */
  lemma AsWrittenAgreesWithoutForeignDrafts(s: Store, projectName: string, formName: string, gateway: Call<()>)
    requires FormKeysUnique(s.forms)
    requires OwnDraftsOnly(s.forms, formName, projectName)
    ensures PublishFormAsWritten(s, projectName, formName, gateway) == PublishForm(s, projectName, formName, gateway)
  {
    match DraftNamed(s.forms, formName)
    case None =>
      assert DraftIn(s.forms, formName, projectName).None?;
    case Some(k) =>
      AsWrittenAgreesOnOwnDraft(s, projectName, formName, gateway);
  }

  /** The rewrite of the form at `k` keeps its name and project, and a
      draft it leaves is in `project`: no draft of that name enters
      another project and the name-and-project keys stay unique */
  lemma RewriteKeepsOwnDrafts(fs: seq<Form>, gs: seq<Form>, k: nat, name: string, project: string)
    requires k < |fs| && |gs| == |fs|
    requires gs[k].name == fs[k].name && gs[k].project == fs[k].project
    requires gs[k].draft && gs[k].name == name ==> gs[k].project == project
    requires forall j :: 0 <= j < |fs| && j != k ==> gs[j] == fs[j]
    requires FormKeysUnique(fs) && OwnDraftsOnly(fs, name, project)
    ensures FormKeysUnique(gs) && OwnDraftsOnly(gs, name, project)
  {
    forall i, j | 0 <= i < j < |gs|
      ensures !(gs[i].name == gs[j].name && gs[i].project == gs[j].project)
    {
      assert !(fs[i].name == fs[j].name && fs[i].project == fs[j].project);
    }
  }

  /** No two forms share both name and project, as `/new` ensures for the
      forms it creates */
  ghost predicate FormKeysUnique(forms: seq<Form>) {
    forall i, j :: 0 <= i < j < |forms| ==>
      !(forms[i].name == forms[j].name && forms[i].project == forms[j].project)
  }

  /** A form that went live is no longer a draft, so publishing it again is
      refused without a write */
  lemma PublishTwiceRefused(s: Store, projectName: string, formName: string, g1: Call<()>, g2: Call<()>)
    requires FormKeysUnique(s.forms)
    requires PublishForm(s, projectName, formName, g1).reply.Sent?
    ensures var t := PublishForm(s, projectName, formName, g1).store;
            PublishForm(t, projectName, formName, g2)
            == Step(Raised(HttpError("Form does not exist in RHoMIS db", 400)), t)
  {
    var k := DraftIn(s.forms, formName, projectName).value;
    var t := PublishForm(s, projectName, formName, g1).store;
    assert WentLive(s.forms, t.forms, k);
    forall j | 0 <= j < |t.forms|
      ensures !(t.forms[j].name == formName && t.forms[j].project == projectName && t.forms[j].draft)
    {
      if j != k {
        assert t.forms[j] == s.forms[j];
        assert j < k || k < j;
      }
    }
  }

  /** As written, the same holds while no other project holds a draft of
      that name */
  lemma PublishAsWrittenTwiceRefused(s: Store, projectName: string, formName: string, g1: Call<()>, g2: Call<()>)
    requires FormKeysUnique(s.forms) && OwnDraftsOnly(s.forms, formName, projectName)
    requires PublishFormAsWritten(s, projectName, formName, g1).reply.Sent?
    ensures var t := PublishFormAsWritten(s, projectName, formName, g1).store;
            PublishFormAsWritten(t, projectName, formName, g2)
            == Step(Raised(HttpError("Form does not exist in RHoMIS db", 400)), t)
  {
    AsWrittenAgreesWithoutForeignDrafts(s, projectName, formName, g1);
    var k := DraftIn(s.forms, formName, projectName).value;
    var t := PublishForm(s, projectName, formName, g1).store;
    assert WentLive(s.forms, t.forms, k);
    RewriteKeepsOwnDrafts(s.forms, t.forms, k, formName, projectName);
    PublishTwiceRefused(s, projectName, formName, g1, g2);
    AsWrittenAgreesWithoutForeignDrafts(t, projectName, formName, g2);
  }

  /** As written, a second publish of "survey" in project "B" of
      `CrossProjectStore` is answered "Form finalized" again, because
      project "A"'s draft still passes the draft check */
  lemma PublishAsWrittenRepeats()
    ensures var t := PublishFormAsWritten(CrossProjectStore(), "B", "survey", Done(())).store;
            var w := PublishFormAsWritten(t, "B", "survey", Done(()));
            && w.reply == Sent(200, Text("Form finalized"))
            && w.store.forms[1].liveVersion == Some("2")
  {
    var s := CrossProjectStore();
    assert DraftNamed(s.forms, "survey") == Some(0);
    assert FormIn(s.forms, "survey", "B") == Some(1);
    assert ProjectNamed(s.projects, "B") == Some(1);
    var t := PublishFormAsWritten(s, "B", "survey", Done(())).store;
    assert t.forms[0] == s.forms[0];
    assert DraftNamed(t.forms, "survey") == Some(0);
    assert FormIn(t.forms, "survey", "B") == Some(1);
  }

  // ----- /new-draft -----

  /** `req.query.form_version ?? Number(form.draftVersion ?? form.liveVersion) + 1`,
      stored through `String(...)` */
  function NextVersion(f: Form, formVersion: Option<string>): string {
    match formVersion
    case Some(given) => given
    case None => NumberToString(Increment(ToNumber(f.draftVersion.OrElse(f.liveVersion))))
  }

  /** Without an explicit version, the new draft's version is one more than
      the draft version, or the live version when there is no draft */
  lemma {:induction false} NextVersionIncrements(f: Form, n: nat)
    requires f.draftVersion.OrElse(f.liveVersion) == Some(NatToString(n))
    ensures NextVersion(f, None) == NatToString(n + 1)
    ensures ToNumber(Some(NextVersion(f, None))) == Finite(n + 1)
  {
    NatToStringRoundTrip(n);
    NatToStringRoundTrip(n + 1);
  }

  /** The three cases the version rule distinguishes */
  lemma NextVersionExamples(f: Form)
    ensures f.draftVersion == Some("3") ==> NextVersion(f, None) == "4"
    ensures f.draftVersion.None? && f.liveVersion == Some("2") ==> NextVersion(f, None) == "3"
    ensures f.draftVersion.None? && f.liveVersion.None? ==> NextVersion(f, None) == "1"
    ensures NextVersion(f, Some("7")) == "7"
  {
    assert DigitsValue("3") == 3;
    assert DigitsValue("2") == 2;
  }

  /** The `$set` of `/new-draft`; it leaves the form as it was exactly when
      the form is already a draft with that version and draft token */
  function Redrafted(f: Form, version: string, draftToken: string): (g: Form)
    ensures g == f <==> f.draft && f.draftVersion == Some(version) && f.draftToken == draftToken
  {
    f.(draftVersion := Some(version), draft := true, draftToken := draftToken)
  }

  /** The form already holds the draft `/new-draft` would write */
  predicate AlreadyDrafted(f: Form, formVersion: Option<string>, draftToken: string) {
    f.draft && f.draftVersion == Some(NextVersion(f, formVersion)) && f.draftToken == draftToken
  }

  /** `nModified` of an `updateOne` whose filter matched the document `f`
      and turned it into `g`: a document the update leaves as it was does not
      count as modified */
  function Modified(f: Form, g: Form): (n: nat)
    ensures n == 1 <==> g != f
  {
    if g == f then 0 else 1
  }

  /** `gs` is `fs` with the form at `k` carrying a new draft: its draft
      version and draft token are replaced and it is a draft, while its live
      state and every other form stay as they were */
  ghost predicate DraftUploaded(fs: seq<Form>, gs: seq<Form>, k: nat, version: string, draftToken: string) {
    && k < |fs| && |gs| == |fs|
    && gs[k].draft && gs[k].draftVersion == Some(version) && gs[k].draftToken == draftToken
    && gs[k].live == fs[k].live && gs[k].liveVersion == fs[k].liveVersion
    && gs[k] == fs[k].(draft := gs[k].draft, draftVersion := gs[k].draftVersion, draftToken := gs[k].draftToken)
    && forall j :: 0 <= j < |fs| && j != k ==> gs[j] == fs[j]
  }

  /** Whether the caller may change the project: the first project of that
      name lists the caller among its users */
  predicate Member(s: Store, projectName: string, caller: UserId)
    requires ProjectNamed(s.projects, projectName).Some?
  {
    caller in s.projects[ProjectNamed(s.projects, projectName).value].users
  }

  /** The form `/new-draft` rewrites: the form of that name in the first
      project of that name, provided the caller belongs to that project */
  function DraftTarget(s: Store, caller: UserId, projectName: string, formName: string): (k: Option<nat>)
    ensures k.Some? <==>
              && ProjectNamed(s.projects, projectName).Some? && Member(s, projectName, caller)
              && FormIn(s.forms, formName, projectName).Some?
    ensures k.Some? ==> k == FormIn(s.forms, formName, projectName)
  {
    if ProjectNamed(s.projects, projectName).Some? && Member(s, projectName, caller) then
      FormIn(s.forms, formName, projectName)
    else None
  }

  /** `POST /new-draft`. `upload` is the draft upload and `details` the
      read-back of the draft, which yields its draft token. */
  function NewDraft(s: Store, caller: UserId, projectName: string, formName: string, formVersion: Option<string>,
                    upload: Call<()>, details: Call<string>): (r: Step)
    ensures ProjectNamed(s.projects, projectName).None? ==>
              r == Step(Raised(HttpError("Could not find project", 400)), s)
    ensures ProjectNamed(s.projects, projectName).Some? && !Member(s, projectName, caller) ==>
              r == Step(Raised(HttpError("Authenticated user does not have permissions to modify this project", 401)), s)
    ensures ProjectNamed(s.projects, projectName).Some? && Member(s, projectName, caller) &&
            FormIn(s.forms, formName, projectName).None? ==>
              r == Step(Raised(HttpError("Cannot find form to update", 400)), s)
    ensures DraftTarget(s, caller, projectName, formName).Some? && upload.Failed? ==>
              r == Step(Raised(GatewayError(upload.message)), s)
    ensures DraftTarget(s, caller, projectName, formName).Some? && upload.Done? && details.Failed? ==>
              r == Step(Raised(GatewayError(details.message)), s)
    ensures DraftTarget(s, caller, projectName, formName).Some? && upload.Done? && details.Done? &&
            AlreadyDrafted(s.forms[DraftTarget(s, caller, projectName, formName).value], formVersion, details.value) ==>
              r == Step(Raised(HttpError("Form is sent to ODK Central, but could not update formVersion in RHoMIS database", 500)), s)
    ensures r.store != s ==> r.reply == Sent(200, Text("Form successfully updated"))
    ensures r.reply.Sent? <==>
              && DraftTarget(s, caller, projectName, formName).Some? && upload.Done? && details.Done?
              && !AlreadyDrafted(s.forms[DraftTarget(s, caller, projectName, formName).value], formVersion, details.value)
  {
    if ProjectNamed(s.projects, projectName).None? then
      Step(Raised(HttpError("Could not find project", 400)), s)
    else if !Member(s, projectName, caller) then
      Step(Raised(HttpError("Authenticated user does not have permissions to modify this project", 401)), s)
    else match FormIn(s.forms, formName, projectName)
      case None => Step(Raised(HttpError("Cannot find form to update", 400)), s)
      case Some(k) => UploadDraft(s, k, formVersion, upload, details)
  }

  /** The part of `/new-draft` after its guards, on the form at `k`: the two
      gateway requests, then the update and its `nModified` check */
  function UploadDraft(s: Store, k: nat, formVersion: Option<string>, upload: Call<()>, details: Call<string>): (r: Step)
    requires k < |s.forms|
    ensures upload.Failed? ==> r == Step(Raised(GatewayError(upload.message)), s)
    ensures upload.Done? && details.Failed? ==> r == Step(Raised(GatewayError(details.message)), s)
    ensures upload.Done? && details.Done? && AlreadyDrafted(s.forms[k], formVersion, details.value) ==>
              r == Step(Raised(HttpError("Form is sent to ODK Central, but could not update formVersion in RHoMIS database", 500)), s)
    ensures r.reply.Sent? <==> upload.Done? && details.Done? && !AlreadyDrafted(s.forms[k], formVersion, details.value)
    ensures r.reply.Sent? ==>
              && r.reply == Sent(200, Text("Form successfully updated"))
              && r.store == s.(forms := s.forms[k := Redrafted(s.forms[k], NextVersion(s.forms[k], formVersion), details.value)])
    ensures !r.reply.Sent? ==> r.store == s
  {
    var version := NextVersion(s.forms[k], formVersion);
    if upload.Failed? then Step(Raised(GatewayError(upload.message)), s)
    else if details.Failed? then Step(Raised(GatewayError(details.message)), s)
    else
      var g := Redrafted(s.forms[k], version, details.value);
      if Modified(s.forms[k], g) != 1 then
        Step(Raised(HttpError("Form is sent to ODK Central, but could not update formVersion in RHoMIS database", 500)), s)
      else
        Step(Sent(200, Text("Form successfully updated")), s.(forms := s.forms[k := g]))
  }

  /** A successful `/new-draft` rewrites only the target form's draft fields */
  lemma NewDraftUploads(s: Store, caller: UserId, projectName: string, formName: string, formVersion: Option<string>,
                        upload: Call<()>, details: Call<string>)
    requires NewDraft(s, caller, projectName, formName, formVersion, upload, details).reply.Sent?
    ensures var r := NewDraft(s, caller, projectName, formName, formVersion, upload, details);
            var k := DraftTarget(s, caller, projectName, formName).value;
            && DraftUploaded(s.forms, r.store.forms, k, NextVersion(s.forms[k], formVersion), details.value)
            && r.store.users == s.users && r.store.projects == s.projects
  {
  }

  /** Uploading a draft that changes nothing in the stored form (the same
      explicit version, already a draft, the same draft token) is answered
      500 although the gateway took the upload */
  lemma UnchangedDraftAnswered500(s: Store, caller: UserId, projectName: string, formName: string, k: nat, v: string)
    requires ProjectNamed(s.projects, projectName).Some? && Member(s, projectName, caller)
    requires FormIn(s.forms, formName, projectName) == Some(k)
    requires s.forms[k].draft && s.forms[k].draftVersion == Some(v)
    ensures NewDraft(s, caller, projectName, formName, Some(v), Done(()), Done(s.forms[k].draftToken))
            == Step(Raised(HttpError("Form is sent to ODK Central, but could not update formVersion in RHoMIS database", 500)), s)
  {
  }

  /** A draft uploaded through `/new-draft` and then published goes live with
      the version it was uploaded with */
  lemma NewDraftThenPublish(s: Store, caller: UserId, projectName: string, formName: string,
                            formVersion: Option<string>, upload: Call<()>, details: Call<string>, gateway: Call<()>)
    requires FormKeysUnique(s.forms)
    requires NewDraft(s, caller, projectName, formName, formVersion, upload, details).reply.Sent?
    requires gateway.Done?
    ensures var k := DraftTarget(s, caller, projectName, formName).value;
            var t := NewDraft(s, caller, projectName, formName, formVersion, upload, details).store;
            var p := PublishForm(t, projectName, formName, gateway);
            && p.reply == Sent(200, Text("Form finalized"))
            && p.store.forms[k].live
            && p.store.forms[k].liveVersion == Some(NextVersion(s.forms[k], formVersion))
  {
    var k := DraftTarget(s, caller, projectName, formName).value;
    var t := NewDraft(s, caller, projectName, formName, formVersion, upload, details).store;
    NewDraftUploads(s, caller, projectName, formName, formVersion, upload, details);
    assert DraftUploaded(s.forms, t.forms, k, NextVersion(s.forms[k], formVersion), details.value);
    forall j | 0 <= j < k
      ensures !(t.forms[j].name == formName && t.forms[j].project == projectName && t.forms[j].draft)
    {
      assert t.forms[j] == s.forms[j];
    }
    assert DraftIn(t.forms, formName, projectName) == Some(k);
  }

  /** As written, the same holds while no other project holds a draft of
      that name */
  lemma NewDraftThenPublishAsWritten(s: Store, caller: UserId, projectName: string, formName: string,
                                     formVersion: Option<string>, upload: Call<()>, details: Call<string>, gateway: Call<()>)
    requires FormKeysUnique(s.forms) && OwnDraftsOnly(s.forms, formName, projectName)
    requires NewDraft(s, caller, projectName, formName, formVersion, upload, details).reply.Sent?
    requires gateway.Done?
    ensures var k := DraftTarget(s, caller, projectName, formName).value;
            var t := NewDraft(s, caller, projectName, formName, formVersion, upload, details).store;
            var p := PublishFormAsWritten(t, projectName, formName, gateway);
            && p.reply == Sent(200, Text("Form finalized"))
            && p.store.forms[k].live
            && p.store.forms[k].liveVersion == Some(NextVersion(s.forms[k], formVersion))
  {
    var k := DraftTarget(s, caller, projectName, formName).value;
    var t := NewDraft(s, caller, projectName, formName, formVersion, upload, details).store;
    NewDraftUploads(s, caller, projectName, formName, formVersion, upload, details);
    assert DraftUploaded(s.forms, t.forms, k, NextVersion(s.forms[k], formVersion), details.value);
    RewriteKeepsOwnDrafts(s.forms, t.forms, k, formName, projectName);
    AsWrittenAgreesWithoutForeignDrafts(t, projectName, formName, gateway);
    NewDraftThenPublish(s, caller, projectName, formName, formVersion, upload, details, gateway);
  }

  // ----- /new -----

  /** What `/new` reads from the gateway's app-user creation: the app user's
      id, used for its role assignment, and its access token */
  datatype AppUser = AppUser(id: string, token: string)

  /** The four gateway requests of `/new`, in the order they are made: the
      form upload (yielding the gateway's form id), the app-user creation, the
      app user's role assignment, and the read-back of the draft (yielding
      its draft token) */
  datatype Creation = Creation(upload: Call<string>, appUser: Call<AppUser>, assign: Call<()>, details: Call<string>)

  predicate AllDone(g: Creation) {
    g.upload.Done? && g.appUser.Done? && g.assign.Done? && g.details.Done?
  }

  /** The message of the first request that failed */
  function FirstFailure(g: Creation): (m: string)
    requires !AllDone(g)
    ensures g.upload.Failed? ==> m == g.upload.message
    ensures g.upload.Done? && g.appUser.Failed? ==> m == g.appUser.message
    ensures g.upload.Done? && g.appUser.Done? && g.assign.Failed? ==> m == g.assign.message
    ensures g.upload.Done? && g.appUser.Done? && g.assign.Done? ==> g.details.Failed? && m == g.details.message
  {
    if g.upload.Failed? then g.upload.message
    else if g.appUser.Failed? then g.appUser.message
    else if g.assign.Failed? then g.assign.message
    else g.details.message
  }

  /** `req.query.form_version ?? 1`, stored through `String(...)` */
  function FirstVersion(formVersion: Option<string>): string {
    formVersion.OrElse(Some("1")).value
  }

  /** The document `/new` saves */
  function NewFormRecord(projectName: string, formName: string, formVersion: Option<string>, caller: UserId, g: Creation): Form
    requires AllDone(g)
  {
    Form(formName, projectName, g.upload.value, [caller], true, Some(FirstVersion(formVersion)),
         false, None, false, g.appUser.value.token, g.details.value)
  }

  /** A form as `/new` creates it: a draft at the requested version (1 when
      none is given), neither live nor complete, with the caller among its
      users */
  ghost predicate FreshDraft(f: Form, projectName: string, formName: string, formVersion: Option<string>, caller: UserId) {
    && f.name == formName && f.project == projectName
    && f.draft && f.draftVersion == Some(FirstVersion(formVersion))
    && !f.live && f.liveVersion.None? && !f.complete
    && caller in f.users
  }

  /** The caller's `$push` of the new form's name onto its `forms`,
      `roles.dataCollector` and `roles.analyst` */
  function GivenForm(u: User, formName: string): User {
    u.(forms := u.forms + [formName],
       roles := u.roles.(dataCollector := u.roles.dataCollector + [formName],
                         analyst := u.roles.analyst + [formName]))
  }

  /** The writes `/new` makes before `updateAdmins`, on the project at `k` */
  function CreateForm(s: Store, k: nat, caller: UserId, form: Form): (r: Store)
    requires k < |s.projects|
    ensures r.forms == s.forms + [form]
    ensures |r.projects| == |s.projects|
    ensures r.projects[k] == s.projects[k].(forms := s.projects[k].forms + [form.name])
    ensures forall i :: 0 <= i < |s.projects| && i != k ==> r.projects[i] == s.projects[i]
    ensures |r.users| == |s.users|
    ensures forall i :: 0 <= i < |s.users| ==>
              r.users[i] == if UserWithId(s.users, caller) == Some(i) then GivenForm(s.users[i], form.name) else s.users[i]
    ensures AdminIds(r) == AdminIds(s)
  {
    var projects := s.projects[k := s.projects[k].(forms := s.projects[k].forms + [form.name])];
    var users := match UserWithId(s.users, caller)
                 case None => s.users
                 case Some(j) => s.users[j := GivenForm(s.users[j], form.name)];
    AdminIdsKept(s.users, users);
    Store(users, projects, s.forms + [form])
  }

  /** Every guard of `/new` passes and every gateway request succeeds */
  predicate NewFormAccepted(s: Store, caller: UserId, projectName: string, formName: string, g: Creation) {
    && ProjectNamed(s.projects, projectName).Some? && Member(s, projectName, caller)
    && FormIn(s.forms, formName, projectName).None? && AllDone(g)
  }

  /** `POST /new`. `adminEmail` and `now` are what `updateAdmins` logs. */
  function NewForm(s: Store, caller: UserId, projectName: string, formName: string, formVersion: Option<string>,
                   g: Creation, adminEmail: string, now: int): (r: Step)
    ensures ProjectNamed(s.projects, projectName).None? ==>
              r == Step(Raised(HttpError("Could not find project with this name", 400)), s)
    ensures ProjectNamed(s.projects, projectName).Some? && !Member(s, projectName, caller) ==>
              r == Step(Raised(HttpError("Authenticated user does not have permissions to modify this project", 401)), s)
    ensures ProjectNamed(s.projects, projectName).Some? && Member(s, projectName, caller) &&
            FormIn(s.forms, formName, projectName).Some? ==>
              r == Step(Raised(HttpError("There is already a form with this name in the database", 400)), s)
    ensures ProjectNamed(s.projects, projectName).Some? && Member(s, projectName, caller) &&
            FormIn(s.forms, formName, projectName).None? && !AllDone(g) ==>
              r == Step(Raised(GatewayError(FirstFailure(g))), s)
    ensures r.reply.Sent? <==> NewFormAccepted(s, caller, projectName, formName, g)
    ensures r.reply.Sent? ==> r.reply == Sent(200, Text("Form successfully created"))
    ensures r.store != s ==> r.reply.Sent?
  {
    match ProjectNamed(s.projects, projectName)
    case None => Step(Raised(HttpError("Could not find project with this name", 400)), s)
    case Some(k) =>
      if !Member(s, projectName, caller) then
        Step(Raised(HttpError("Authenticated user does not have permissions to modify this project", 401)), s)
      else if FormIn(s.forms, formName, projectName).Some? then
        Step(Raised(HttpError("There is already a form with this name in the database", 400)), s)
      else if !AllDone(g) then
        Step(Raised(GatewayError(FirstFailure(g))), s)
      else
        Step(Sent(200, Text("Form successfully created")),
             NewFormWrites(s, k, caller, NewFormRecord(projectName, formName, formVersion, caller, g), adminEmail, now))
  }

  /** Every write of a successful `/new`: those on the project at `k`, the
      caller and the new document, then `updateAdmins` */
  function NewFormWrites(s: Store, k: nat, caller: UserId, form: Form, adminEmail: string, now: int): Store
    requires k < |s.projects|
  {
    UpdateAdmins(CreateForm(s, k, caller, form), adminEmail, now)
  }

  /** The store after a successful `/new` */
  lemma NewFormStore(s: Store, caller: UserId, projectName: string, formName: string, formVersion: Option<string>,
                     g: Creation, adminEmail: string, now: int)
    requires NewFormAccepted(s, caller, projectName, formName, g)
    ensures var k := ProjectNamed(s.projects, projectName).value;
            var c := CreateForm(s, k, caller, NewFormRecord(projectName, formName, formVersion, caller, g));
            NewForm(s, caller, projectName, formName, formVersion, g, adminEmail, now).store == UpdateAdmins(c, adminEmail, now)
  {
    var k := ProjectNamed(s.projects, projectName).value;
    assert NewForm(s, caller, projectName, formName, formVersion, g, adminEmail, now).store
           == NewFormWrites(s, k, caller, NewFormRecord(projectName, formName, formVersion, caller, g), adminEmail, now);
  }

  /** Forms that only gained `ids` after `form` was appended: the appended
      form gained them too, and the others are the old forms gaining them */
  lemma AppendedFormGained(fs: seq<Form>, cs: seq<Form>, ts: seq<Form>, form: Form, ids: set<UserId>)
    requires cs == fs + [form]
    requires FormsGained(cs, ts, ids)
    ensures |ts| == |fs| + 1
    ensures FormGained(form, ts[|fs|], ids)
    ensures forall i :: 0 <= i < |fs| ==> FormGained(fs[i], ts[i], ids)
  {
    assert cs[|fs|] == form;
    assert forall i :: 0 <= i < |fs| ==> cs[i] == fs[i];
  }

  /** A successful `/new` appends a fresh draft whose users are the caller
      and every administrator, and otherwise only adds the administrators to
      existing forms */
  lemma NewFormCreatesDraft(s: Store, caller: UserId, projectName: string, formName: string, formVersion: Option<string>,
                            g: Creation, adminEmail: string, now: int)
    requires NewFormAccepted(s, caller, projectName, formName, g)
    ensures var t := NewForm(s, caller, projectName, formName, formVersion, g, adminEmail, now).store;
            && |t.forms| == |s.forms| + 1
            && FreshDraft(t.forms[|s.forms|], projectName, formName, formVersion, caller)
            && Elems(t.forms[|s.forms|].users) == {caller} + AdminIds(s)
            && forall i :: 0 <= i < |s.forms| ==> FormGained(s.forms[i], t.forms[i], AdminIds(s))
  {
    var k := ProjectNamed(s.projects, projectName).value;
    var form := NewFormRecord(projectName, formName, formVersion, caller, g);
    var c := CreateForm(s, k, caller, form);
    NewFormStore(s, caller, projectName, formName, formVersion, g, adminEmail, now);
    var t := UpdateAdmins(c, adminEmail, now);
    AppendedFormGained(s.forms, c.forms, t.forms, form, AdminIds(s));
    RecordGained(projectName, formName, formVersion, caller, g, t.forms[|s.forms|], AdminIds(s));
  }

  /** The saved document after it gained `ids` is still a fresh draft, now
      with the caller and `ids` as its users */
  lemma RecordGained(projectName: string, formName: string, formVersion: Option<string>, caller: UserId, g: Creation,
                     f: Form, ids: set<UserId>)
    requires AllDone(g)
    requires FormGained(NewFormRecord(projectName, formName, formVersion, caller, g), f, ids)
    ensures FreshDraft(f, projectName, formName, formVersion, caller)
    ensures Elems(f.users) == {caller} + ids
  {
    assert Elems([caller]) == {caller};
  }

  /** A successful `/new` pushes the form's name onto the project's `forms`,
      even when the name is already listed there; apart from that, projects
      only gain the administrators */
  lemma NewFormPushesName(s: Store, caller: UserId, projectName: string, formName: string, formVersion: Option<string>,
                          g: Creation, adminEmail: string, now: int)
    requires NewFormAccepted(s, caller, projectName, formName, g)
    ensures var k := ProjectNamed(s.projects, projectName).value;
            var t := NewForm(s, caller, projectName, formName, formVersion, g, adminEmail, now).store;
            && |t.projects| == |s.projects|
            && ProjectGained(s.projects[k].(forms := s.projects[k].forms + [formName]), t.projects[k], AdminIds(s))
            && |t.projects[k].forms| == |s.projects[k].forms| + 1
            && forall i :: 0 <= i < |s.projects| && i != k ==> ProjectGained(s.projects[i], t.projects[i], AdminIds(s))
  {
    var k := ProjectNamed(s.projects, projectName).value;
    var form := NewFormRecord(projectName, formName, formVersion, caller, g);
    var c := CreateForm(s, k, caller, form);
    NewFormStore(s, caller, projectName, formName, formVersion, g, adminEmail, now);
    var t := UpdateAdmins(c, adminEmail, now);
    assert ProjectGained(c.projects[k], t.projects[k], AdminIds(c));
  }

  /** The caller's lists through the two steps of a successful `/new`: the
      push of the form's name in `c`, then the administrator update to `t` */
  lemma CallerListsSynced(s: Store, c: Store, t: Store, j: nat, formName: string, entry: LogEntry)
    requires j < |s.users| && |c.users| == |s.users|
    requires c.users[j] == GivenForm(s.users[j], formName)
    requires forall i :: 0 <= i < |s.users| && i != j ==> c.users[i] == s.users[i]
    requires AdminsSynced(c, c.users, t.users, entry)
    requires AllProjectNames(t) == AllProjectNames(c) && AllFormNames(t) == AllFormNames(c)
    requires formName in AllFormNames(c)
    ensures |t.users| == |s.users|
    ensures !s.users[j].roles.administrator ==> t.users[j] == GivenForm(s.users[j], formName)
    ensures s.users[j].roles.administrator ==> SeesEverything(t, t.users[j]) && formName in t.users[j].forms
    ensures forall i :: 0 <= i < |s.users| && i != j && !s.users[i].roles.administrator ==> t.users[i] == s.users[i]
  {
    if s.users[j].roles.administrator {
      assert c.users[j].roles.administrator;
      assert SeesEverything(c, t.users[j]);
      assert formName in Elems(t.users[j].forms);
    }
  }

  /** `CallerListsSynced` for the administrator update `updateAdmins` runs
      on the store `c` that holds the new form */
  lemma CallerListsUpdated(s: Store, c: Store, j: nat, formName: string, adminEmail: string, now: int)
    requires j < |s.users| && |c.users| == |s.users|
    requires c.users[j] == GivenForm(s.users[j], formName)
    requires forall i :: 0 <= i < |s.users| && i != j ==> c.users[i] == s.users[i]
    requires |c.forms| > 0 && c.forms[|c.forms| - 1].name == formName
    ensures var t := UpdateAdmins(c, adminEmail, now);
            && |t.users| == |s.users|
            && (!s.users[j].roles.administrator ==> t.users[j] == GivenForm(s.users[j], formName))
            && (s.users[j].roles.administrator ==> SeesEverything(t, t.users[j]) && formName in t.users[j].forms)
            && forall i :: 0 <= i < |s.users| && i != j && !s.users[i].roles.administrator ==> t.users[i] == s.users[i]
  {
    var t := UpdateAdmins(c, adminEmail, now);
    GainedKeepsNames(c, t, AdminIds(c), AdminIds(c));
    assert formName in AllFormNames(c) by {
      assert c.forms[|c.forms| - 1] in c.forms;
    }
    CallerListsSynced(s, c, t, j, formName, AdminUpdatedEntry(adminEmail, now));
  }

  /** `CallerListsUpdated` for the store `CreateForm` leaves */
  lemma CallerListsCreated(s: Store, k: nat, caller: UserId, form: Form, j: nat, adminEmail: string, now: int)
    requires k < |s.projects| && UserWithId(s.users, caller) == Some(j)
    ensures var t := UpdateAdmins(CreateForm(s, k, caller, form), adminEmail, now);
            && |t.users| == |s.users|
            && (!s.users[j].roles.administrator ==> t.users[j] == GivenForm(s.users[j], form.name))
            && (s.users[j].roles.administrator ==> SeesEverything(t, t.users[j]) && form.name in t.users[j].forms)
            && forall i :: 0 <= i < |s.users| && i != j && !s.users[i].roles.administrator ==> t.users[i] == s.users[i]
  {
    var c := CreateForm(s, k, caller, form);
    assert c.users[j] == GivenForm(s.users[j], form.name);
    assert forall i :: 0 <= i < |s.users| && i != j ==> c.users[i] == s.users[i];
    CallerListsUpdated(s, c, j, form.name, adminEmail, now);
  }

  /** A caller who is not an administrator gets the form's name pushed onto
      its form list and both form role lists; an administrator caller ends up
      seeing every form instead, the new one included. Every other user who
      is not an administrator is untouched. */
  lemma NewFormCallerLists(s: Store, caller: UserId, projectName: string, formName: string, formVersion: Option<string>,
                           g: Creation, adminEmail: string, now: int, j: nat)
    requires NewFormAccepted(s, caller, projectName, formName, g)
    requires UserWithId(s.users, caller) == Some(j)
    ensures var t := NewForm(s, caller, projectName, formName, formVersion, g, adminEmail, now).store;
            && |t.users| == |s.users|
            && (!s.users[j].roles.administrator ==> t.users[j] == GivenForm(s.users[j], formName))
            && (s.users[j].roles.administrator ==> SeesEverything(t, t.users[j]) && formName in t.users[j].forms)
            && forall i :: 0 <= i < |s.users| && i != j && !s.users[i].roles.administrator ==> t.users[i] == s.users[i]
  {
    var k := ProjectNamed(s.projects, projectName).value;
    var form := NewFormRecord(projectName, formName, formVersion, caller, g);
    NewFormStore(s, caller, projectName, formName, formVersion, g, adminEmail, now);
    CallerListsCreated(s, k, caller, form, j, adminEmail, now);
  }

  /** Projects that only gained users (and, at `k`, a form name) keep their
      names, so the lookup by name still finds the project at `k` with the
      caller in it; a fresh draft in the forms is found by name and project */
  lemma AccessKept(s: Store, t: Store, k: nat, n: nat, caller: UserId, projectName: string, formName: string,
                   formVersion: Option<string>, ids: set<UserId>)
    requires ProjectNamed(s.projects, projectName) == Some(k) && caller in s.projects[k].users
    requires |t.projects| == |s.projects|
    requires ProjectGained(s.projects[k].(forms := s.projects[k].forms + [formName]), t.projects[k], ids)
    requires forall i :: 0 <= i < |s.projects| && i != k ==> ProjectGained(s.projects[i], t.projects[i], ids)
    requires n < |t.forms| && FreshDraft(t.forms[n], projectName, formName, formVersion, caller)
    ensures ProjectNamed(t.projects, projectName) == Some(k) && caller in t.projects[k].users
    ensures FormIn(t.forms, formName, projectName).Some?
  {
    assert forall i :: 0 <= i < |s.projects| ==> t.projects[i].name == s.projects[i].name;
    assert Elems(s.projects[k].users) <= Elems(t.projects[k].users);
  }

  /** After a successful `/new`, the project is still found under its name,
      the caller is still among its users, and the new form is found */
  lemma NewFormKeepsAccess(s: Store, caller: UserId, projectName: string, formName: string, formVersion: Option<string>,
                           g: Creation, adminEmail: string, now: int)
    requires NewFormAccepted(s, caller, projectName, formName, g)
    ensures var t := NewForm(s, caller, projectName, formName, formVersion, g, adminEmail, now).store;
            && ProjectNamed(t.projects, projectName).Some? && Member(t, projectName, caller)
            && FormIn(t.forms, formName, projectName).Some?
  {
    var k := ProjectNamed(s.projects, projectName).value;
    var t := NewForm(s, caller, projectName, formName, formVersion, g, adminEmail, now).store;
    NewFormCreatesDraft(s, caller, projectName, formName, formVersion, g, adminEmail, now);
    NewFormPushesName(s, caller, projectName, formName, formVersion, g, adminEmail, now);
    AccessKept(s, t, k, |s.forms|, caller, projectName, formName, formVersion, AdminIds(s));
  }

  /** Once `/new` has created a form, asking again for the same name in the
      same project is refused without a write */
  lemma NewFormTwiceRefused(s: Store, caller: UserId, projectName: string, formName: string, formVersion: Option<string>,
                            g: Creation, g2: Creation, adminEmail: string, now: int, later: int)
    requires NewFormAccepted(s, caller, projectName, formName, g)
    ensures var t := NewForm(s, caller, projectName, formName, formVersion, g, adminEmail, now).store;
            NewForm(t, caller, projectName, formName, formVersion, g2, adminEmail, later)
            == Step(Raised(HttpError("There is already a form with this name in the database", 400)), t)
  {
    NewFormKeepsAccess(s, caller, projectName, formName, formVersion, g, adminEmail, now);
  }
}
