/**
 The account and role-grant routes of routes/auth.js. `caller` is the `_id`
 claim of the caller's verified token. Request-body validation and the
 bcrypt password check are oracles: `validationError` is the validator's
 first message, if any, and `passwordMatches(plain, hash)` is bcrypt's
 verdict. `freshId` is the id the database gives a new document and `now` is
 the clock reading in milliseconds since the epoch.
 */
module AuthRoutes {
  import opened Lists
  import opened Store
  import opened Http
  import opened Tokens

  // ----- membership and role updates -----

  /** `q` is `p` after `$addToSet: { users: id }` */
  ghost predicate ProjectJoined(p: Project, q: Project, id: UserId) {
    q == p.(users := q.users) && AddedOnce(p.users, q.users, id)
  }

  /** `g` is `f` after `$addToSet: { users: id }` */
  ghost predicate FormJoined(f: Form, g: Form, id: UserId) {
    g == f.(users := g.users) && AddedOnce(f.users, g.users, id)
  }

  /** `qs` is `ps` after `Project.updateOne({ name }, { $addToSet: { users: id } })`:
      the first project with that name gains `id` and no other project
      changes */
  ghost predicate FirstProjectJoined(ps: seq<Project>, qs: seq<Project>, name: string, id: UserId) {
    && |qs| == |ps|
    && match ProjectNamed(ps, name)
       case None => qs == ps
       case Some(j) =>
         && ProjectJoined(ps[j], qs[j], id)
         && forall i :: 0 <= i < |ps| && i != j ==> qs[i] == ps[i]
  }

  function JoinProject(p: Project, id: UserId): (q: Project)
    ensures ProjectJoined(p, q, id)
  {
    p.(users := AddToSet(p.users, id))
  }

  function JoinForm(f: Form, id: UserId): (g: Form)
    ensures FormJoined(f, g, id)
  {
    f.(users := AddToSet(f.users, id))
  }

  /** `Project.updateOne({ name }, { $addToSet: { users: id } })` */
  function JoinFirstProject(projects: seq<Project>, name: string, id: UserId): (r: seq<Project>)
    ensures FirstProjectJoined(projects, r, name, id)
  {
    match ProjectNamed(projects, name)
    case None => projects
    case Some(j) => projects[j := JoinProject(projects[j], id)]
  }

  /** `Form.updateMany({ project }, { $addToSet: { users: id } })` */
  function JoinProjectForms(forms: seq<Form>, project: string, id: UserId): (r: seq<Form>)
    ensures |r| == |forms|
    ensures forall i :: 0 <= i < |forms| && forms[i].project == project ==> FormJoined(forms[i], r[i], id)
    ensures forall i :: 0 <= i < |forms| && forms[i].project != project ==> r[i] == forms[i]
  {
    var r := seq(|forms|, i requires 0 <= i < |forms| =>
                 if forms[i].project == project then JoinForm(forms[i], id) else forms[i]);
    assert forall i :: 0 <= i < |forms| ==> r[i] == if forms[i].project == project then JoinForm(forms[i], id) else forms[i];
    r
  }

  /** The role lists a project-manager grant extends: `projectName` joins
      `roles.projectManager`, and the names `formNames` join `roles.analyst`
      and `roles.dataCollector`. Nothing else about the account changes. */
  ghost predicate ManagerRolesAdded(u: User, v: User, projectName: string, formNames: set<string>) {
    && v == u.(roles := u.roles.(projectManager := v.roles.projectManager,
                                 analyst := v.roles.analyst,
                                 dataCollector := v.roles.dataCollector))
    && AddedOnce(u.roles.projectManager, v.roles.projectManager, projectName)
    && SetAdded(u.roles.analyst, v.roles.analyst, formNames)
    && SetAdded(u.roles.dataCollector, v.roles.dataCollector, formNames)
  }

  function AddManagerRoles(u: User, projectName: string, formNames: seq<string>): (v: User)
    ensures ManagerRolesAdded(u, v, projectName, Elems(formNames))
  {
    u.(roles := u.roles.(projectManager := AddToSet(u.roles.projectManager, projectName),
                         analyst := AddAllToSet(u.roles.analyst, formNames),
                         dataCollector := AddAllToSet(u.roles.dataCollector, formNames)))
  }

  /** `User.updateOne({ _id: id }, update)`: the first account with that id is
      replaced by `update` applied to it */
  function UpdateUserWithId(users: seq<User>, id: UserId, update: User -> User): (r: seq<User>)
    ensures |r| == |users|
    ensures UserWithId(users, id).Some? ==> var j := UserWithId(users, id).value;
      r[j] == update(users[j]) && forall i :: 0 <= i < |users| && i != j ==> r[i] == users[i]
    ensures UserWithId(users, id).None? ==> r == users
  {
    match UserWithId(users, id)
    case None => users
    case Some(j) => users[j := update(users[j])]
  }

  // ----- POST /project-manager -----

  /** The writes of a project-manager grant for account id `id` */
  function ManagerWrites(s: Store, id: UserId, projectName: string): (r: Store)
    ensures FirstProjectJoined(s.projects, r.projects, projectName, id)
    ensures |r.forms| == |s.forms|
    ensures forall i :: 0 <= i < |s.forms| && s.forms[i].project == projectName ==> FormJoined(s.forms[i], r.forms[i], id)
    ensures forall i :: 0 <= i < |s.forms| && s.forms[i].project != projectName ==> r.forms[i] == s.forms[i]
    ensures |r.users| == |s.users|
    ensures UserWithId(s.users, id).Some? ==> var j := UserWithId(s.users, id).value;
      && ManagerRolesAdded(s.users[j], r.users[j], projectName, FormNamesIn(s.forms, projectName))
      && forall i :: 0 <= i < |s.users| && i != j ==> r.users[i] == s.users[i]
  {
    var forms := JoinProjectForms(s.forms, projectName, id);
    FormNamesInJoined(s.forms, forms, projectName, id);
    var formNames := FormNamesOf(forms, projectName);
    Store(UpdateUserWithId(s.users, id, u => AddManagerRoles(u, projectName, formNames)),
          JoinFirstProject(s.projects, projectName, id),
          forms)
  }

  /** Adding a member to forms does not change which forms a project has */
  lemma FormNamesInJoined(forms: seq<Form>, joined: seq<Form>, project: string, id: UserId)
    requires |joined| == |forms|
    requires forall i :: 0 <= i < |forms| ==> joined[i].name == forms[i].name && joined[i].project == forms[i].project
    ensures FormNamesIn(joined, project) == FormNamesIn(forms, project)
  {
    forall n | n in FormNamesIn(forms, project) ensures n in FormNamesIn(joined, project) {
      var f :| f in forms && f.project == project && f.name == n;
      var i :| 0 <= i < |forms| && forms[i] == f;
      assert joined[i] in joined;
    }
    forall n | n in FormNamesIn(joined, project) ensures n in FormNamesIn(forms, project) {
      var f :| f in joined && f.project == project && f.name == n;
      var i :| 0 <= i < |joined| && joined[i] == f;
      assert forms[i] in forms;
    }
  }

  /** The project-manager grant's guards all pass: the account exists, does
      not manage the project yet and is not the caller */
  predicate ProjectManagerGrantAllowed(s: Store, caller: UserId, email: string, projectName: string) {
    && UserWithEmail(s.users, email).Some?
    && var target := s.users[UserWithEmail(s.users, email).value];
       projectName !in target.roles.projectManager && target.id != caller
  }

  /** `POST /project-manager`: the account with `email` becomes a manager of
      project `projectName` */
  function GrantProjectManager(s: Store, caller: UserId, email: string, projectName: string): (r: Step)
    ensures UserWithEmail(s.users, email).None? ==> r == Step(Sent(400, Text("User does not exist")), s)
    ensures UserWithEmail(s.users, email).Some? ==>
      var target := s.users[UserWithEmail(s.users, email).value];
      && (projectName in target.roles.projectManager ==>
            r == Step(Sent(400, Text("User is already a project manager for this project")), s))
      && (projectName !in target.roles.projectManager && target.id == caller ==>
            r == Step(Sent(400, Text("Please enter the email of another user")), s))
      && (projectName !in target.roles.projectManager && target.id != caller ==>
            r == Step(Sent(200, WriteAck), ManagerWrites(s, target.id, projectName)))
    ensures r.reply == Sent(200, WriteAck) <==> ProjectManagerGrantAllowed(s, caller, email, projectName)
    ensures r.reply != Sent(200, WriteAck) ==> r.store == s
  {
    match UserWithEmail(s.users, email)
    case None => Step(Sent(400, Text("User does not exist")), s)
    case Some(k) =>
      var target := s.users[k];
      if projectName in target.roles.projectManager then
        Step(Sent(400, Text("User is already a project manager for this project")), s)
      else if target.id == caller then
        Step(Sent(400, Text("Please enter the email of another user")), s)
      else
        Step(Sent(200, WriteAck), ManagerWrites(s, target.id, projectName))
  }

  /** Once granted, the same project-manager grant is refused: with unique
      account ids the target now lists the project */
  lemma ProjectManagerGrantRepeatRefused(s: Store, caller: UserId, email: string, projectName: string)
    requires IdsUnique(s.users)
    requires ProjectManagerGrantAllowed(s, caller, email, projectName)
    ensures var t := GrantProjectManager(s, caller, email, projectName).store;
            GrantProjectManager(t, caller, email, projectName) ==
              Step(Sent(400, Text("User is already a project manager for this project")), t)
  {
    var k := UserWithEmail(s.users, email).value;
    var t := ManagerWrites(s, s.users[k].id, projectName);
    UniqueIdFound(s.users, k);
    UserWithEmailAgrees(s.users, t.users, email);
    assert ManagerRolesAdded(s.users[k], t.users[k], projectName, FormNamesIn(s.forms, projectName));
  }

  /** A user's role lists are covered by its visibility lists: every managed
      project is in `projects`, and every collected or analysed form is in
      `forms` */
  ghost predicate RolesCovered(u: User) {
    && (forall p :: p in u.roles.projectManager ==> p in u.projects)
    && (forall f :: f in u.roles.dataCollector ==> f in u.forms)
    && (forall f :: f in u.roles.analyst ==> f in u.forms)
  }

  /** A project-manager grant adds the project to the target's role lists but
      not to its `projects` list, so an account whose lists were covered is no
      longer covered afterwards */
  lemma ProjectManagerGrantUncoversRoles()
    ensures var u := User("u1", "", "", "", "a@x", "h", Roles(true, false, false, [], [], []), [], [], []);
            var s := Store([u], [Project("P", "1", [], [])], []);
            var r := GrantProjectManager(s, "u2", "a@x", "P");
            && RolesCovered(u)
            && r.reply == Sent(200, WriteAck)
            && !RolesCovered(r.store.users[0])
  {
    var u := User("u1", "", "", "", "a@x", "h", Roles(true, false, false, [], [], []), [], [], []);
    var s := Store([u], [Project("P", "1", [], [])], []);
    var r := GrantProjectManager(s, "u2", "a@x", "P");
    assert UserWithEmail(s.users, "a@x") == Some(0);
    assert UserWithId(s.users, "u1") == Some(0);
    assert "P" in r.store.users[0].roles.projectManager;
  }

  // ----- POST /data-collector and POST /analyst -----

  /** The form role a grant gives */
  datatype FormRole = DataCollector | Analyst

  function RoleForms(u: User, role: FormRole): seq<string> {
    match role
    case DataCollector => u.roles.dataCollector
    case Analyst => u.roles.analyst
  }

  function AlreadyHasRole(role: FormRole): string {
    match role
    case DataCollector => "User is already a data collector for this project"
    case Analyst => "User is already an analyst for this project"
  }

  /** `v` is `u` with `formName` added to the `role` list and nothing else
      changed */
  ghost predicate FormRoleAdded(u: User, v: User, role: FormRole, formName: string) {
    && AddedOnce(RoleForms(u, role), RoleForms(v, role), formName)
    && match role
       case DataCollector => v == u.(roles := u.roles.(dataCollector := v.roles.dataCollector))
       case Analyst => v == u.(roles := u.roles.(analyst := v.roles.analyst))
  }

  function AddFormRole(u: User, role: FormRole, formName: string): (v: User)
    ensures FormRoleAdded(u, v, role, formName)
  {
    match role
    case DataCollector => u.(roles := u.roles.(dataCollector := AddToSet(u.roles.dataCollector, formName)))
    case Analyst => u.(roles := u.roles.(analyst := AddToSet(u.roles.analyst, formName)))
  }

  /** The writes of a form-role grant for account `id` on the form at index
      `fi`: its project, the form and the account each gain the other */
  function FormRoleWrites(s: Store, id: UserId, role: FormRole, fi: nat): (r: Store)
    requires fi < |s.forms|
    ensures FirstProjectJoined(s.projects, r.projects, s.forms[fi].project, id)
    ensures |r.forms| == |s.forms| && FormJoined(s.forms[fi], r.forms[fi], id)
    ensures forall i :: 0 <= i < |s.forms| && i != fi ==> r.forms[i] == s.forms[i]
    ensures |r.users| == |s.users|
    ensures UserWithId(s.users, id).Some? ==> var j := UserWithId(s.users, id).value;
      && FormRoleAdded(s.users[j], r.users[j], role, s.forms[fi].name)
      && forall i :: 0 <= i < |s.users| && i != j ==> r.users[i] == s.users[i]
  {
    var f := s.forms[fi];
    Store(UpdateUserWithId(s.users, id, u => AddFormRole(u, role, f.name)),
          JoinFirstProject(s.projects, f.project, id),
          s.forms[fi := JoinForm(f, id)])
  }

  /** The form-role grant's guards all pass: the account exists, does not
      hold the role on the form yet, is not the caller, and the form exists */
  predicate FormRoleGrantAllowed(s: Store, caller: UserId, email: string, formName: string, role: FormRole) {
    && UserWithEmail(s.users, email).Some?
    && var target := s.users[UserWithEmail(s.users, email).value];
       && formName !in RoleForms(target, role) && target.id != caller
       && FormNamed(s.forms, formName).Some?
  }

  /** `POST /data-collector` (`role` is `DataCollector`) and `POST /analyst`
      (`role` is `Analyst`): the account with `email` gets `role` on the first
      form named `formName`. A missing form makes `form.project` throw inside
      the `try`, which answers 400 with the error before any write. */
  function GrantFormRole(s: Store, caller: UserId, email: string, formName: string, role: FormRole): (r: Step)
    ensures UserWithEmail(s.users, email).None? ==> r == Step(Sent(400, Text("User does not exist")), s)
    ensures UserWithEmail(s.users, email).Some? ==>
      var target := s.users[UserWithEmail(s.users, email).value];
      && (formName in RoleForms(target, role) ==> r == Step(Sent(400, Text(AlreadyHasRole(role))), s))
      && (formName !in RoleForms(target, role) && target.id == caller ==>
            r == Step(Sent(400, Text("Please enter the email of another user")), s))
      && (formName !in RoleForms(target, role) && target.id != caller && FormNamed(s.forms, formName).None? ==>
            r == Step(Sent(400, ErrorObject), s))
      && (formName !in RoleForms(target, role) && target.id != caller && FormNamed(s.forms, formName).Some? ==>
            r == Step(Sent(200, WriteAck), FormRoleWrites(s, target.id, role, FormNamed(s.forms, formName).value)))
    ensures r.reply == Sent(200, WriteAck) <==> FormRoleGrantAllowed(s, caller, email, formName, role)
    ensures r.reply != Sent(200, WriteAck) ==> r.store == s
  {
    match UserWithEmail(s.users, email)
    case None => Step(Sent(400, Text("User does not exist")), s)
    case Some(k) =>
      var target := s.users[k];
      if formName in RoleForms(target, role) then Step(Sent(400, Text(AlreadyHasRole(role))), s)
      else if target.id == caller then Step(Sent(400, Text("Please enter the email of another user")), s)
      else match FormNamed(s.forms, formName)
        case None => Step(Sent(400, ErrorObject), s)
        case Some(fi) => Step(Sent(200, WriteAck), FormRoleWrites(s, target.id, role, fi))
  }

  /** A form-role grant touches only the list of its own role: a data-collector
      grant leaves every analyst list alone and an analyst grant every
      data-collector list */
  lemma FormRoleGrantKeepsOtherRole(s: Store, caller: UserId, email: string, formName: string, role: FormRole)
    ensures var t := GrantFormRole(s, caller, email, formName, role).store;
            && |t.users| == |s.users|
            && forall i :: 0 <= i < |s.users| ==>
                 RoleForms(t.users[i], if role == DataCollector then Analyst else DataCollector) ==
                 RoleForms(s.users[i], if role == DataCollector then Analyst else DataCollector)
  {
  }

  /** Once granted, the same form-role grant is refused */
  lemma FormRoleGrantRepeatRefused(s: Store, caller: UserId, email: string, formName: string, role: FormRole)
    requires IdsUnique(s.users)
    requires FormRoleGrantAllowed(s, caller, email, formName, role)
    ensures var t := GrantFormRole(s, caller, email, formName, role).store;
            GrantFormRole(t, caller, email, formName, role) == Step(Sent(400, Text(AlreadyHasRole(role))), t)
  {
    var k := UserWithEmail(s.users, email).value;
    var fi := FormNamed(s.forms, formName).value;
    var t := FormRoleWrites(s, s.users[k].id, role, fi);
    UniqueIdFound(s.users, k);
    UserWithEmailAgrees(s.users, t.users, email);
    assert FormRoleAdded(s.users[k], t.users[k], role, formName);
  }

  // ----- POST /register -----

  datatype Registration = Registration(title: string, firstName: string, surname: string, email: string, password: string)

  /** The record a registration creates: an active basic account with no
      roles, no projects or forms, and a "user created" log entry */
  ghost predicate NewAccount(u: User, req: Registration, id: UserId, hash: string, now: int) {
    && u.id == id && u.email == req.email && u.password == hash
    && u.title == req.title && u.firstName == req.firstName && u.surname == req.surname
    && u.roles.basic && !u.roles.researcher && !u.roles.administrator
    && u.roles.projectManager == [] && u.roles.dataCollector == [] && u.roles.analyst == []
    && u.projects == [] && u.forms == []
    && u.log == [LogEntry("user created", req.email, now)]
  }

  /** `POST /register`. `hash` is the bcrypt hash of the password. */
  function Register(s: Store, req: Registration, validationError: Option<string>, hash: string, now: int, freshId: UserId): (r: Step)
    ensures validationError.Some? ==> r == Step(Sent(400, Text(validationError.value)), s)
    ensures validationError.None? && UserWithEmail(s.users, req.email).Some? ==>
      r == Step(Sent(400, Text("Email already exists")), s)
    ensures validationError.None? && UserWithEmail(s.users, req.email).None? ==>
      && r.reply == Sent(201, NewUser(freshId))
      && r.store.projects == s.projects && r.store.forms == s.forms
      && |r.store.users| == |s.users| + 1 && r.store.users[..|s.users|] == s.users
      && NewAccount(r.store.users[|s.users|], req, freshId, hash, now)
  {
    if validationError.Some? then Step(Sent(400, Text(validationError.value)), s)
    else if UserWithEmail(s.users, req.email).Some? then Step(Sent(400, Text("Email already exists")), s)
    else
      var u := User(freshId, req.title, req.firstName, req.surname, req.email, hash,
                    Roles(true, false, false, [], [], []), [], [],
                    [LogEntry("user created", req.email, now)]);
      Step(Sent(201, NewUser(freshId)), s.(users := s.users + [u]))
  }

  /** Registration keeps account ids unique when the database's new id is
      unused, and a second registration with the same email is refused */
  lemma RegisterTwiceRefused(s: Store, req: Registration, hash: string, now: int, freshId: UserId,
                             hash': string, later: int, freshId': UserId)
    requires IdsUnique(s.users) && IdUnused(s, freshId)
    requires Register(s, req, None, hash, now, freshId).reply.Sent?
    requires Register(s, req, None, hash, now, freshId).reply.status == 201
    ensures var t := Register(s, req, None, hash, now, freshId).store;
            && IdsUnique(t.users)
            && Register(t, req, None, hash', later, freshId') == Step(Sent(400, Text("Email already exists")), t)
  {
    var t := Register(s, req, None, hash, now, freshId).store;
    assert t.users[|s.users|].email == req.email;
  }

  // ----- POST /login -----

  /** One hour in milliseconds: `expiry.setHours(expiry.getHours() + 1)` */
  const OneHour: int := 3_600_000

  /** `POST /login`: no store change; a matching password is answered with a
      token for the account's id and email that expires one hour from `now` */
  function Login(s: Store, email: string, password: string, validationError: Option<string>,
                 passwordMatches: (string, string) -> bool, now: int): (r: Reply)
    ensures validationError.Some? ==> r == Sent(400, Text(validationError.value))
    ensures validationError.None? && UserWithEmail(s.users, email).None? ==> r == Sent(400, Text("Email not found"))
    ensures validationError.None? && UserWithEmail(s.users, email).Some? ==>
      var u := s.users[UserWithEmail(s.users, email).value];
      && (!passwordMatches(password, u.password) ==> r == Sent(400, Text("Incorrect password")))
      && (passwordMatches(password, u.password) ==> r == Sent(200, Token(Claims(u.id, u.email, Some(now + OneHour)))))
  {
    if validationError.Some? then Sent(400, Text(validationError.value))
    else match UserWithEmail(s.users, email)
      case None => Sent(400, Text("Email not found"))
      case Some(k) =>
        var u := s.users[k];
        if !passwordMatches(password, u.password) then Sent(400, Text("Incorrect password"))
        else Sent(200, Token(Claims(u.id, u.email, Some(now + OneHour))))
  }

  /** A freshly registered account can log in with its password */
  lemma RegisterThenLogin(s: Store, req: Registration, hash: string, now: int, freshId: UserId,
                          passwordMatches: (string, string) -> bool, later: int)
    requires Register(s, req, None, hash, now, freshId).reply == Sent(201, NewUser(freshId))
    requires passwordMatches(req.password, hash)
    ensures var t := Register(s, req, None, hash, now, freshId).store;
            Login(t, req.email, req.password, None, passwordMatches, later) ==
              Sent(200, Token(Claims(freshId, req.email, Some(later + OneHour))))
  {
    var t := Register(s, req, None, hash, now, freshId).store;
    assert t.users[|s.users|].email == req.email;
    assert UserWithEmail(t.users, req.email) == Some(|s.users|);
  }

  /** A token issued at login is admitted by `auth` exactly until one hour
      after issue, the last instant included */
  lemma LoginTokenLifetime(s: Store, email: string, password: string, passwordMatches: (string, string) -> bool,
                           issued: int, token: string, verify: string -> Verification, now: int)
    requires Login(s, email, password, None, passwordMatches, issued).Sent?
    requires Login(s, email, password, None, passwordMatches, issued).body.Token?
    requires token != "" && verify(token) == Verified(Login(s, email, password, None, passwordMatches, issued).body.claims)
    ensures Authenticate(Some(token), verify, now).Admit? <==> now <= issued + OneHour
  {
    var c := Login(s, email, password, None, passwordMatches, issued).body.claims;
    AdmittedUntilExpiry(token, verify, c, issued + OneHour, now);
  }

  // ----- DELETE /delete -----

  /** `users` without the entry at `k` */
  function RemoveAt(users: seq<User>, k: nat): (r: seq<User>)
    requires k < |users|
    ensures |r| == |users| - 1
    ensures forall i :: 0 <= i < k ==> r[i] == users[i]
    ensures forall i :: k <= i < |r| ==> r[i] == users[i + 1]
    ensures multiset(r) + multiset{users[k]} == multiset(users)
  {
    assert users == users[..k] + [users[k]] + users[k + 1..];
    users[..k] + users[k + 1..]
  }

  /** `DELETE /delete` as evidently intended: the caller's account is removed
      and returned; its id stays in every project and form */
  function DeleteAccount(s: Store, caller: UserId): (r: Step)
    ensures UserWithId(s.users, caller).None? ==>
      r == Step(Sent(400, Text("User does not exist in local db, cannot delete")), s)
    ensures UserWithId(s.users, caller).Some? ==> var k := UserWithId(s.users, caller).value;
      && r.reply == Sent(200, Removed(s.users[k]))
      && r.store == s.(users := RemoveAt(s.users, k))
  {
    match UserWithId(s.users, caller)
    case None => Step(Sent(400, Text("User does not exist in local db, cannot delete")), s)
    case Some(k) => Step(Sent(200, Removed(s.users[k])), s.(users := RemoveAt(s.users, k)))
  }

  /** `DELETE /delete` as written: for a caller missing from the store,
      `res.status.apply(400)` calls `status` on the number 400, which throws in
      strict mode, so the rejection escapes the handler and nothing is sent */
  function DeleteAccountAsWritten(s: Store, caller: UserId): (r: Step)
    ensures UserWithId(s.users, caller).None? ==> r.reply.Crashed? && r.store == s
    ensures UserWithId(s.users, caller).Some? ==> r == DeleteAccount(s, caller)
  {
    match UserWithId(s.users, caller)
    case None => Step(Crashed("TypeError: Cannot create property 'statusCode' on number '400'"), s)
    case Some(k) => Step(Sent(200, Removed(s.users[k])), s.(users := RemoveAt(s.users, k)))
  }

  /** A caller whose account is gone gets no answer at all from the written
      handler, where the evident intent is a 400 */
  lemma DeleteMissingCallerUnanswered(s: Store, caller: UserId)
    requires UserWithId(s.users, caller).None?
    ensures !DeleteAccountAsWritten(s, caller).reply.Sent?
    ensures DeleteAccount(s, caller).reply == Sent(400, Text("User does not exist in local db, cannot delete"))
  {
  }

  /** With unique ids, deleting removes exactly the caller's account: no
      account with the caller's id is left and every other account stays */
  lemma DeleteRemovesExactlyCaller(s: Store, caller: UserId)
    requires IdsUnique(s.users)
    requires UserWithId(s.users, caller).Some?
    ensures var t := DeleteAccount(s, caller).store;
            && UserWithId(t.users, caller).None?
            && multiset(t.users) + multiset{s.users[UserWithId(s.users, caller).value]} == multiset(s.users)
            && t.projects == s.projects && t.forms == s.forms
  {
    var k := UserWithId(s.users, caller).value;
    var t := DeleteAccount(s, caller).store;
    forall i | 0 <= i < |t.users| ensures t.users[i].id != caller {
      if i >= k { assert t.users[i] == s.users[i + 1]; }
    }
  }
}
