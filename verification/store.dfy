/**
 The three document collections (users, projects, forms) and the lookups the
 route handlers make on them. Each collection is a sequence in document
 order, so `findOne`/`updateOne` act on the first matching document and
 `updateMany` on every matching one.
 */
module Store {
  import opened Lists

  /** A user's `_id` in its string form, as it appears in `users` arrays and
      in the `_id` claim of a token */
  type UserId = string

  datatype LogEntry = LogEntry(action: string, byEmail: string, date: int)

  datatype Roles = Roles(
    basic: bool,
    administrator: bool,
    researcher: bool,
    projectManager: seq<string>,  // project names
    dataCollector: seq<string>,   // form names
    analyst: seq<string>)         // form names

  datatype User = User(
    id: UserId,
    title: string,
    firstName: string,
    surname: string,
    email: string,
    password: string,             // a bcrypt hash
    roles: Roles,
    projects: seq<string>,
    forms: seq<string>,
    log: seq<LogEntry>)

  datatype Project = Project(
    name: string,
    centralID: string,            // the project's id on the forms gateway
    users: seq<UserId>,
    forms: seq<string>)

  /** A form. `collectionToken` and `draftToken` stand for the
      `collectionDetails` and `draftCollectionDetails` payloads, which are
      fixed text around the app-user token and the draft token. */
  datatype Form = Form(
    name: string,
    project: string,
    centralID: string,
    users: seq<UserId>,
    draft: bool,
    draftVersion: Option<string>,  // None is null
    live: bool,
    liveVersion: Option<string>,
    complete: bool,
    collectionToken: string,
    draftToken: string)

  datatype Store = Store(users: seq<User>, projects: seq<Project>, forms: seq<Form>)

  predicate IdUnused(s: Store, id: UserId) {
    forall i :: 0 <= i < |s.users| ==> s.users[i].id != id
  }

  /** No two accounts share an id, as the database's unique `_id` index
      guarantees */
  ghost predicate IdsUnique(users: seq<User>) {
    forall i, j :: 0 <= i < j < |users| ==> users[i].id != users[j].id
  }

  // ----- membership -----

  /** `q` is `p` after an `$addToSet` of `ids` into its `users`: nothing
      else about the project changes */
  ghost predicate ProjectGained(p: Project, q: Project, ids: set<UserId>) {
    q == p.(users := q.users) && SetAdded(p.users, q.users, ids)
  }

  ghost predicate ProjectsGained(ps: seq<Project>, qs: seq<Project>, ids: set<UserId>) {
    |qs| == |ps| && forall i :: 0 <= i < |ps| ==> ProjectGained(ps[i], qs[i], ids)
  }

  /** `g` is `f` after an `$addToSet` of `ids` into its `users` */
  ghost predicate FormGained(f: Form, g: Form, ids: set<UserId>) {
    g == f.(users := g.users) && SetAdded(f.users, g.users, ids)
  }

  ghost predicate FormsGained(fs: seq<Form>, gs: seq<Form>, ids: set<UserId>) {
    |gs| == |fs| && forall i :: 0 <= i < |fs| ==> FormGained(fs[i], gs[i], ids)
  }

  /** One project's `$addToSet: { users: { $each: ids } }` */
  function AddToProject(p: Project, ids: seq<UserId>): (q: Project)
    ensures ProjectGained(p, q, Elems(ids))
    ensures Elems(ids) <= Elems(p.users) ==> q == p
  {
    AddAllToSetSettled(p.users, ids);
    p.(users := AddAllToSet(p.users, ids))
  }

  /** One form's `$addToSet: { users: { $each: ids } }` */
  function AddToForm(f: Form, ids: seq<UserId>): (g: Form)
    ensures FormGained(f, g, Elems(ids))
    ensures Elems(ids) <= Elems(f.users) ==> g == f
  {
    AddAllToSetSettled(f.users, ids);
    f.(users := AddAllToSet(f.users, ids))
  }

  // ----- findOne -----

  function UserWithEmail(users: seq<User>, email: string): (r: Option<nat>)
    ensures r.Some? ==> r.value < |users| && users[r.value].email == email
    ensures r.Some? ==> forall j :: 0 <= j < r.value ==> users[j].email != email
    ensures r.None? <==> forall j :: 0 <= j < |users| ==> users[j].email != email
  {
    FirstIndex(users, (u: User) => u.email == email)
  }

  function UserWithId(users: seq<User>, id: UserId): (r: Option<nat>)
    ensures r.Some? ==> r.value < |users| && users[r.value].id == id
    ensures r.Some? ==> forall j :: 0 <= j < r.value ==> users[j].id != id
    ensures r.None? <==> forall j :: 0 <= j < |users| ==> users[j].id != id
  {
    FirstIndex(users, (u: User) => u.id == id)
  }

  /** With unique ids, looking an account up by its id finds that account */
  lemma UniqueIdFound(users: seq<User>, k: nat)
    requires IdsUnique(users) && k < |users|
    ensures UserWithId(users, users[k].id) == Some(k)
  {
  }

  /** Rewriting accounts without touching their emails leaves every email
      lookup where it was */
  lemma UserWithEmailAgrees(a: seq<User>, b: seq<User>, email: string)
    requires |a| == |b|
    requires forall i :: 0 <= i < |a| ==> a[i].email == b[i].email
    ensures UserWithEmail(a, email) == UserWithEmail(b, email)
  {
  }

  function ProjectNamed(projects: seq<Project>, name: string): (r: Option<nat>)
    ensures r.Some? ==> r.value < |projects| && projects[r.value].name == name
    ensures r.Some? ==> forall j :: 0 <= j < r.value ==> projects[j].name != name
    ensures r.None? <==> forall j :: 0 <= j < |projects| ==> projects[j].name != name
  {
    FirstIndex(projects, (p: Project) => p.name == name)
  }

  function FormNamed(forms: seq<Form>, name: string): (r: Option<nat>)
    ensures r.Some? ==> r.value < |forms| && forms[r.value].name == name
    ensures r.Some? ==> forall j :: 0 <= j < r.value ==> forms[j].name != name
    ensures r.None? <==> forall j :: 0 <= j < |forms| ==> forms[j].name != name
  {
    FirstIndex(forms, (f: Form) => f.name == name)
  }

  function FormIn(forms: seq<Form>, name: string, project: string): (r: Option<nat>)
    ensures r.Some? ==> r.value < |forms| && forms[r.value].name == name && forms[r.value].project == project
    ensures r.Some? ==> forall j :: 0 <= j < r.value ==> !(forms[j].name == name && forms[j].project == project)
    ensures r.None? <==> forall j :: 0 <= j < |forms| ==> !(forms[j].name == name && forms[j].project == project)
  {
    FirstIndex(forms, (f: Form) => f.name == name && f.project == project)
  }

  // ----- distinct -----

  function ProjectNames(projects: seq<Project>): (r: seq<string>)
    ensures |r| == |projects|
    ensures forall i :: 0 <= i < |projects| ==> r[i] == projects[i].name
  {
    if |projects| == 0 then [] else [projects[0].name] + ProjectNames(projects[1..])
  }

  function FormNames(forms: seq<Form>): (r: seq<string>)
    ensures |r| == |forms|
    ensures forall i :: 0 <= i < |forms| ==> r[i] == forms[i].name
  {
    if |forms| == 0 then [] else [forms[0].name] + FormNames(forms[1..])
  }

  /** Collections whose documents carry the same names in the same places
      give the same name lists */
  lemma ProjectNamesAgree(a: seq<Project>, b: seq<Project>)
    requires |a| == |b|
    requires forall i :: 0 <= i < |a| ==> a[i].name == b[i].name
    ensures ProjectNames(a) == ProjectNames(b)
  {
  }

  lemma FormNamesAgree(a: seq<Form>, b: seq<Form>)
    requires |a| == |b|
    requires forall i :: 0 <= i < |a| ==> a[i].name == b[i].name
    ensures FormNames(a) == FormNames(b)
  {
  }

  /** Names of the forms that belong to project `project` */
  ghost function FormNamesIn(forms: seq<Form>, project: string): set<string> {
    set f | f in forms && f.project == project :: f.name
  }

  lemma FormNamesInCons(forms: seq<Form>, project: string)
    requires |forms| > 0
    ensures FormNamesIn(forms, project) ==
            (if forms[0].project == project then {forms[0].name} else {}) + FormNamesIn(forms[1..], project)
  {
    assert forms == [forms[0]] + forms[1..];
  }

  /** `Form.find({ project }).map(form => form.name)` */
  function FormNamesOf(forms: seq<Form>, project: string): (r: seq<string>)
    ensures Elems(r) == FormNamesIn(forms, project)
  {
    if |forms| == 0 then []
    else
      var rest := FormNamesOf(forms[1..], project);
      FormNamesInCons(forms, project);
      if forms[0].project == project then [forms[0].name] + rest else rest
  }
}

/**
 What a route handler hands back to Express.
 */
module Http {
  import opened Lists
  import opened Store

  /** The claims a login token carries. `expiry` is the `expiry` claim in
      milliseconds since the epoch; `None` stands for a claim that is absent or
      does not parse as a date. */
  datatype Claims = Claims(id: UserId, email: string, expiry: Option<int>)

  datatype Body =
    | Text(text: string)
    | Token(claims: Claims)    // a token signed over `claims`
    | WriteAck                 // the driver's acknowledgement of an update
    | ErrorObject              // a caught exception sent as the body
    | NewUser(userId: UserId)  // `{ userID }` after registration
    | Removed(user: User)      // the document `findOneAndDelete` returned

  /** An exception handed to `next(err)`: an `HttpError` carries its status,
      a failed gateway call carries the gateway client's message, and a
      `Thrown` runtime error (a `TypeError`, say) carries no status */
  datatype Error = HttpError(message: string, status: nat) | GatewayError(message: string) | Thrown(message: string)

  /** The status the application's error handler answers with:
      `err.status ?? 500`. A gateway client error's status is not modelled. */
  function ErrorHandlerStatus(e: Error): (status: Option<nat>)
    ensures e.HttpError? ==> status == Some(e.status)
    ensures e.Thrown? ==> status == Some(500)
  {
    match e
    case HttpError(_, status) => Some(status)
    case Thrown(_) => Some(500)
    case GatewayError(_) => None
  }

  datatype Reply =
    | Sent(status: nat, body: Body)  // the handler wrote the response
    | Raised(error: Error)           // the handler passed an error to `next`
    | Crashed(reason: string)        // an exception escaped the handler; no response is written

  /** The outcome of one request to the forms gateway: the part of the
      response the handler reads, or the client error, which handlers rethrow */
  datatype Call<T> = Done(value: T) | Failed(message: string)

  /** A handler's response paired with the collections after it ran */
  datatype Step = Step(reply: Reply, store: Store)
}
