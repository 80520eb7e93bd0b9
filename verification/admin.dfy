/**
 Administrator synchronisation (routes/makeAdmin.js): every administrator is
 given every project and form, and every project and form is given every
 administrator. `adminEmail` is the server's configured administrator
 address; `now` and `later` are the clock readings the code takes.
 */
module Admin {
  import opened Lists
  import opened Store
  import opened Http

  /** Names of all projects in the store */
  ghost function AllProjectNames(s: Store): set<string> {
    set p | p in s.projects :: p.name
  }

  /** Names of all forms in the store */
  ghost function AllFormNames(s: Store): set<string> {
    set f | f in s.forms :: f.name
  }

  /** Ids of the users whose `roles.administrator` is true */
  ghost function AdminIdsOf(users: seq<User>): set<UserId> {
    set u | u in users && u.roles.administrator :: u.id
  }

  ghost function AdminIds(s: Store): set<UserId> {
    AdminIdsOf(s.users)
  }

  /** `v` is `u` with at most its project, form, role-list and log fields changed */
  predicate SameAccount(u: User, v: User) {
    v == u.(projects := v.projects, forms := v.forms, log := v.log,
            roles := u.roles.(projectManager := v.roles.projectManager,
                              dataCollector := v.roles.dataCollector,
                              analyst := v.roles.analyst))
  }

  /** An administrator's view of the store: all projects and all forms, each
      named once, in both the visibility lists and the role lists */
  ghost predicate SeesEverything(s: Store, u: User) {
    && Elems(u.projects) == AllProjectNames(s) && NoDup(u.projects)
    && u.roles.projectManager == u.projects
    && Elems(u.forms) == AllFormNames(s) && NoDup(u.forms)
    && u.roles.dataCollector == u.forms
    && u.roles.analyst == u.forms
  }

  function AdminUpdatedEntry(adminEmail: string, now: int): LogEntry {
    LogEntry("Admin updated", adminEmail, now)
  }

  /** `User.find({ "roles.administrator": true })`, as ids in document order */
  function AdminIdList(users: seq<User>): (r: seq<UserId>)
    ensures Elems(r) == AdminIdsOf(users)
  {
    if |users| == 0 then []
    else
      var rest := AdminIdList(users[1..]);
      AdminIdsOfCons(users);
      if users[0].roles.administrator then [users[0].id] + rest else rest
  }

  lemma AdminIdsOfCons(users: seq<User>)
    requires |users| > 0
    ensures AdminIdsOf(users) == (if users[0].roles.administrator then {users[0].id} else {}) + AdminIdsOf(users[1..])
  {
    assert users == [users[0]] + users[1..];
  }

  /** Rewriting accounts without touching their ids or administrator flags
      leaves the set of administrator ids as it was */
  lemma AdminIdsKept(us: seq<User>, vs: seq<User>)
    requires |vs| == |us|
    requires forall i :: 0 <= i < |us| ==> vs[i].id == us[i].id && vs[i].roles.administrator == us[i].roles.administrator
    ensures AdminIdsOf(vs) == AdminIdsOf(us)
  {
    forall id | id in AdminIdsOf(vs) ensures id in AdminIdsOf(us) {
      var i :| 0 <= i < |vs| && vs[i].roles.administrator && vs[i].id == id;
      assert us[i] in us;
    }
    forall id | id in AdminIdsOf(us) ensures id in AdminIdsOf(vs) {
      var i :| 0 <= i < |us| && us[i].roles.administrator && us[i].id == id;
      assert vs[i] in vs;
    }
  }

  lemma AllProjectNamesDistinct(s: Store)
    ensures Elems(Distinct(ProjectNames(s.projects))) == AllProjectNames(s)
  {
    var ns := ProjectNames(s.projects);
    forall n | n in AllProjectNames(s)
      ensures n in Elems(ns)
    {
      var p :| p in s.projects && p.name == n;
      var i :| 0 <= i < |s.projects| && s.projects[i] == p;
      assert ns[i] == n;
    }
    forall n | n in Elems(ns)
      ensures n in AllProjectNames(s)
    {
      var i :| 0 <= i < |ns| && ns[i] == n;
      assert s.projects[i] in s.projects;
    }
    assert Elems(Distinct(ns)) == Elems(ns);
  }

  lemma AllFormNamesDistinct(s: Store)
    ensures Elems(Distinct(FormNames(s.forms))) == AllFormNames(s)
  {
    var ns := FormNames(s.forms);
    forall n | n in AllFormNames(s)
      ensures n in Elems(ns)
    {
      var f :| f in s.forms && f.name == n;
      var i :| 0 <= i < |s.forms| && s.forms[i] == f;
      assert ns[i] == n;
    }
    forall n | n in Elems(ns)
      ensures n in AllFormNames(s)
    {
      var i :| 0 <= i < |ns| && ns[i] == n;
      assert s.forms[i] in s.forms;
    }
    assert Elems(Distinct(ns)) == Elems(ns);
  }

  lemma SameNamesSameSets(s: Store, t: Store)
    requires ProjectNames(s.projects) == ProjectNames(t.projects)
    requires FormNames(s.forms) == FormNames(t.forms)
    ensures AllProjectNames(s) == AllProjectNames(t)
    ensures AllFormNames(s) == AllFormNames(t)
  {
    AllProjectNamesDistinct(s);
    AllProjectNamesDistinct(t);
    AllFormNamesDistinct(s);
    AllFormNamesDistinct(t);
  }

  /** The administrator update: lists replaced with `$set`, one log entry
      appended with `$push`; other users untouched */
  function SyncUser(u: User, projectIds: seq<string>, formIds: seq<string>, entry: LogEntry): User {
    if u.roles.administrator then
      u.(projects := projectIds, forms := formIds,
         roles := u.roles.(projectManager := projectIds, dataCollector := formIds, analyst := formIds),
         log := u.log + [entry])
    else u
  }

  lemma AdminSeesEverything(s: Store, u: User, projectIds: seq<string>, formIds: seq<string>, entry: LogEntry)
    requires u.roles.administrator
    requires Elems(projectIds) == AllProjectNames(s) && NoDup(projectIds)
    requires Elems(formIds) == AllFormNames(s) && NoDup(formIds)
    ensures SameAccount(u, SyncUser(u, projectIds, formIds, entry))
    ensures SeesEverything(s, SyncUser(u, projectIds, formIds, entry))
    ensures SyncUser(u, projectIds, formIds, entry).log == u.log + [entry]
  {
  }

  /** `User.updateMany({ "roles.administrator": true }, ...)` */
  function SyncUsers(users: seq<User>, projectIds: seq<string>, formIds: seq<string>, entry: LogEntry): (r: seq<User>)
    ensures |r| == |users|
    ensures forall i :: 0 <= i < |users| ==> r[i] == SyncUser(users[i], projectIds, formIds, entry)
    ensures AdminIdsOf(r) == AdminIdsOf(users)
  {
    if |users| == 0 then []
    else
      var rest := SyncUsers(users[1..], projectIds, formIds, entry);
      var r := [SyncUser(users[0], projectIds, formIds, entry)] + rest;
      AdminIdsOfCons(users);
      AdminIdsOfCons(r);
      assert r[1..] == rest;
      r
  }

  /** `vs` is `us` after the administrator update of `updateAdmins` in store
      `s`: each administrator keeps its account, sees everything in `s` and
      has `entry` appended to its log; every other user is untouched */
  ghost predicate AdminsSynced(s: Store, us: seq<User>, vs: seq<User>, entry: LogEntry) {
    && |vs| == |us|
    && (forall i :: 0 <= i < |us| && us[i].roles.administrator ==>
          && SameAccount(us[i], vs[i])
          && SeesEverything(s, vs[i])
          && vs[i].log == us[i].log + [entry])
    && (forall i :: 0 <= i < |us| && !us[i].roles.administrator ==> vs[i] == us[i])
  }

  /** `Project.updateMany({}, { $addToSet: { users: { $each: ids } } })` */
  function AddToAllProjects(projects: seq<Project>, ids: seq<UserId>): (r: seq<Project>)
    ensures ProjectsGained(projects, r, Elems(ids))
  {
    var r := seq(|projects|, i requires 0 <= i < |projects| => AddToProject(projects[i], ids));
    assert forall i :: 0 <= i < |projects| ==> r[i] == AddToProject(projects[i], ids);
    r
  }

  /** Adding ids every project already holds changes no project */
  lemma AddToAllProjectsSettled(projects: seq<Project>, ids: seq<UserId>)
    requires forall i :: 0 <= i < |projects| ==> Elems(ids) <= Elems(projects[i].users)
    ensures AddToAllProjects(projects, ids) == projects
  {
    var r := AddToAllProjects(projects, ids);
    assert forall i :: 0 <= i < |projects| ==> r[i] == AddToProject(projects[i], ids) == projects[i];
  }

  /** `Form.updateMany({}, { $addToSet: { users: { $each: ids } } })` */
  function AddToAllForms(forms: seq<Form>, ids: seq<UserId>): (r: seq<Form>)
    ensures FormsGained(forms, r, Elems(ids))
  {
    var r := seq(|forms|, i requires 0 <= i < |forms| => AddToForm(forms[i], ids));
    assert forall i :: 0 <= i < |forms| ==> r[i] == AddToForm(forms[i], ids);
    r
  }

  /** Adding ids every form already holds changes no form */
  lemma AddToAllFormsSettled(forms: seq<Form>, ids: seq<UserId>)
    requires forall i :: 0 <= i < |forms| ==> Elems(ids) <= Elems(forms[i].users)
    ensures AddToAllForms(forms, ids) == forms
  {
    var r := AddToAllForms(forms, ids);
    assert forall i :: 0 <= i < |forms| ==> r[i] == AddToForm(forms[i], ids) == forms[i];
  }

  /** The first write of `updateAdmins`: every administrator is given all
      projects and forms and one more log entry */
  function SyncAdmins(s: Store, adminEmail: string, now: int): (r: Store)
    ensures r.projects == s.projects && r.forms == s.forms
    ensures AdminIds(r) == AdminIds(s)
    ensures AdminsSynced(s, s.users, r.users, AdminUpdatedEntry(adminEmail, now))
  {
    var projectIds := Distinct(ProjectNames(s.projects));
    var formIds := Distinct(FormNames(s.forms));
    AllProjectNamesDistinct(s);
    AllFormNamesDistinct(s);
    var entry := AdminUpdatedEntry(adminEmail, now);
    var users := SyncUsers(s.users, projectIds, formIds, entry);
    forall i | 0 <= i < |s.users| && s.users[i].roles.administrator
      ensures SameAccount(s.users[i], users[i]) && SeesEverything(s, users[i]) && users[i].log == s.users[i].log + [entry]
    {
      AdminSeesEverything(s, s.users[i], projectIds, formIds, entry);
    }
    s.(users := users)
  }

  /** The second and third writes of `updateAdmins`: every administrator's id
      is added to every project and every form */
  function AddAdminsEverywhere(s: Store): (r: Store)
    ensures r.users == s.users
    ensures ProjectsGained(s.projects, r.projects, AdminIds(s))
    ensures FormsGained(s.forms, r.forms, AdminIds(s))
  {
    var adminIds := Distinct(AdminIdList(s.users));
    s.(projects := AddToAllProjects(s.projects, adminIds), forms := AddToAllForms(s.forms, adminIds))
  }

  /** `updateAdmins`: every administrator is given every project and form and
      a log entry, and is added to every project and form; no other user and
      no other field changes */
  function UpdateAdmins(s: Store, adminEmail: string, now: int): (r: Store)
    ensures AdminIds(r) == AdminIds(s)
    ensures AdminsSynced(s, s.users, r.users, AdminUpdatedEntry(adminEmail, now))
    ensures ProjectsGained(s.projects, r.projects, AdminIds(s))
    ensures FormsGained(s.forms, r.forms, AdminIds(s))
  {
    var s1 := SyncAdmins(s, adminEmail, now);
    var r := AddAdminsEverywhere(s1);
    assert r.users == s1.users;
    r
  }

  /** An account the administrator update rewrote keeps its id and email */
  lemma AdminsSyncedKeepsAccounts(s: Store, us: seq<User>, vs: seq<User>, entry: LogEntry)
    requires AdminsSynced(s, us, vs, entry)
    ensures |vs| == |us|
    ensures forall i :: 0 <= i < |us| ==> vs[i].id == us[i].id && vs[i].email == us[i].email
  {
  }

  /** When every administrator already belongs to every project and form,
      adding them again changes nothing */
  lemma AddAdminsEverywhereSettled(s: Store)
    requires forall i :: 0 <= i < |s.projects| ==> AdminIds(s) <= Elems(s.projects[i].users)
    requires forall i :: 0 <= i < |s.forms| ==> AdminIds(s) <= Elems(s.forms[i].users)
    ensures AddAdminsEverywhere(s) == s
  {
    var adminIds := Distinct(AdminIdList(s.users));
    AddToAllProjectsSettled(s.projects, adminIds);
    AddToAllFormsSettled(s.forms, adminIds);
  }

  /** After `updateAdmins`, every administrator already belongs to every
      project and form, so a second run only rewrites users */
  lemma UpdateAdminsSettles(s: Store, adminEmail: string, t1: int, t2: int)
    ensures var a := UpdateAdmins(s, adminEmail, t1);
            UpdateAdmins(a, adminEmail, t2) == SyncAdmins(a, adminEmail, t2)
  {
    var a := UpdateAdmins(s, adminEmail, t1);
    var a1 := SyncAdmins(a, adminEmail, t2);
    forall i | 0 <= i < |a1.projects| ensures AdminIds(a1) <= Elems(a1.projects[i].users) {
      assert ProjectGained(s.projects[i], a.projects[i], AdminIds(s));
    }
    forall i | 0 <= i < |a1.forms| ensures AdminIds(a1) <= Elems(a1.forms[i].users) {
      assert FormGained(s.forms[i], a.forms[i], AdminIds(s));
    }
    AddAdminsEverywhereSettled(a1);
  }

  /** Synchronising a user twice with the same lists only adds the second
      log entry */
  lemma SyncUserTwice(u: User, projectIds: seq<string>, formIds: seq<string>, e1: LogEntry, e2: LogEntry)
    ensures var v := SyncUser(u, projectIds, formIds, e1);
            SyncUser(v, projectIds, formIds, e2) == v.(log := v.log + if u.roles.administrator then [e2] else [])
  {
  }

  /** A second administrator update writes the lists the first one wrote */
  lemma SyncAdminsAgain(s: Store, adminEmail: string, t1: int, t2: int)
    ensures var a := UpdateAdmins(s, adminEmail, t1);
            var b := SyncAdmins(a, adminEmail, t2);
            |b.users| == |a.users| &&
            forall i :: 0 <= i < |a.users| ==>
              b.users[i] == a.users[i].(log := a.users[i].log +
                              if a.users[i].roles.administrator then [AdminUpdatedEntry(adminEmail, t2)] else [])
  {
    var a := UpdateAdmins(s, adminEmail, t1);
    ProjectNamesAgree(a.projects, s.projects);
    FormNamesAgree(a.forms, s.forms);
    var projectIds := Distinct(ProjectNames(s.projects));
    var formIds := Distinct(FormNames(s.forms));
    var e1 := AdminUpdatedEntry(adminEmail, t1);
    var e2 := AdminUpdatedEntry(adminEmail, t2);
    assert a.users == SyncUsers(s.users, projectIds, formIds, e1);
    var b := SyncAdmins(a, adminEmail, t2);
    assert b.users == SyncUsers(a.users, projectIds, formIds, e2);
    forall i | 0 <= i < |a.users|
      ensures b.users[i] == a.users[i].(log := a.users[i].log + if a.users[i].roles.administrator then [e2] else [])
    {
      SyncUserTwice(s.users[i], projectIds, formIds, e1, e2);
    }
  }

  /** A second `updateAdmins` with nothing in between changes only the
      administrators' logs, each by one more entry */
  lemma {:induction false} UpdateAdminsIdempotentButForLog(s: Store, adminEmail: string, t1: int, t2: int)
    ensures var a := UpdateAdmins(s, adminEmail, t1);
            var b := UpdateAdmins(a, adminEmail, t2);
            && b.projects == a.projects
            && b.forms == a.forms
            && |b.users| == |a.users|
            && (forall i :: 0 <= i < |a.users| ==>
                  && b.users[i] == a.users[i].(log := b.users[i].log)
                  && b.users[i].log == a.users[i].log +
                       (if a.users[i].roles.administrator then [AdminUpdatedEntry(adminEmail, t2)] else []))
  {
    UpdateAdminsSettles(s, adminEmail, t1, t2);
    SyncAdminsAgain(s, adminEmail, t1, t2);
  }

  function InitEntry(adminEmail: string, now: int): LogEntry {
    LogEntry("User initialised on server startup", adminEmail, now)
  }

  /** The administrator account's record as `initAdmin` sets it */
  function AdminRecord(u: User, adminEmail: string, hash: string, projectIds: seq<string>, formIds: seq<string>): User {
    u.(email := adminEmail, password := hash,
       roles := Roles(true, true, true, projectIds, formIds, formIds),
       projects := projectIds, forms := formIds)
  }

  /** Every account of `us` other than the one at `skip` is unchanged, at
      the same index, in `vs` */
  ghost predicate UsersKeptExcept(us: seq<User>, vs: seq<User>, skip: Option<nat>) {
    |us| <= |vs| && forall i :: 0 <= i < |us| && skip != Some(i) ==> vs[i] == us[i]
  }

  /** The upsert of `initAdmin` followed by its `$addToSet` of a log entry:
      the first account with the administrator email, or a new account with
      id `freshId` when there is none, becomes an administrator with the
      given project and form lists */
  function UpsertAdminAccount(users: seq<User>, adminEmail: string, hash: string,
                              projectIds: seq<string>, formIds: seq<string>, entry: LogEntry, freshId: UserId): (r: seq<User>)
    ensures UserWithEmail(users, adminEmail).Some? ==> |r| == |users|
    ensures UserWithEmail(users, adminEmail).None? ==> |r| == |users| + 1 && r[|users|].id == freshId
    ensures forall i :: 0 <= i < |users| ==> r[i].id == users[i].id
    ensures UserWithEmail(r, adminEmail).Some?
    ensures UserWithEmail(users, adminEmail).Some? ==> UserWithEmail(r, adminEmail) == UserWithEmail(users, adminEmail)
    ensures var u := r[UserWithEmail(r, adminEmail).value];
      && u.roles == Roles(true, true, true, projectIds, formIds, formIds)
      && u.projects == projectIds && u.forms == formIds
      && u.password == hash
      && entry in u.log
    ensures UsersKeptExcept(users, r, UserWithEmail(users, adminEmail))
    ensures UserWithEmail(users, adminEmail).Some? ==> var k := UserWithEmail(users, adminEmail).value;
      && r[k].title == users[k].title && r[k].firstName == users[k].firstName && r[k].surname == users[k].surname
      && r[k].log == AddToSet(users[k].log, entry)
    ensures UserWithEmail(users, adminEmail).None? ==> r[|users|].log == [entry]
  {
    match UserWithEmail(users, adminEmail)
    case Some(k) =>
      var u := AdminRecord(users[k], adminEmail, hash, projectIds, formIds);
      var r := users[k := u.(log := AddToSet(u.log, entry))];
      UserWithEmailAgrees(users, r, adminEmail);
      r
    case None =>
      var blank := User(freshId, "", "", "", adminEmail, hash, Roles(false, false, false, [], [], []), [], [], []);
      var u := AdminRecord(blank, adminEmail, hash, projectIds, formIds);
      var r := users + [u.(log := AddToSet(u.log, entry))];
      assert r[|users|].email == adminEmail;
      assert forall j :: 0 <= j < |users| ==> r[j] == users[j];
      r
  }

  /** The id the administrator account has after the upsert: that of the
      first account with its email, or the new document's id */
  function AdminAccountId(users: seq<User>, adminEmail: string, freshId: UserId): UserId {
    match UserWithEmail(users, adminEmail)
    case Some(k) => users[k].id
    case None => freshId
  }

  /** The administrator account as `initAdmin` leaves it: an active
      administrator and researcher with the configured password hash, stamped
      with `entry` */
  ghost predicate InitialisedAdmin(u: User, hash: string, entry: LogEntry) {
    u.roles.basic && u.roles.researcher && u.roles.administrator && u.password == hash && entry in u.log
  }

  /** The writes `initAdmin` makes before it starts `updateAdmins`: the
      administrator account is upserted and stamped, and its id is added to
      every form and every project */
  function InitAdminAccount(s: Store, adminEmail: string, hash: string, now: int, freshId: UserId): (r: Store)
    ensures UserWithEmail(r.users, adminEmail).Some?
    ensures var u := r.users[UserWithEmail(r.users, adminEmail).value];
      u.id == AdminAccountId(s.users, adminEmail, freshId) && InitialisedAdmin(u, hash, InitEntry(adminEmail, now))
    ensures ProjectsGained(s.projects, r.projects, {AdminAccountId(s.users, adminEmail, freshId)})
    ensures FormsGained(s.forms, r.forms, {AdminAccountId(s.users, adminEmail, freshId)})
  {
    var users := UpsertAdminAccount(s.users, adminEmail, hash, Distinct(ProjectNames(s.projects)),
                                    Distinct(FormNames(s.forms)), InitEntry(adminEmail, now), freshId);
    var id := AdminAccountId(s.users, adminEmail, freshId);
    assert Elems([id]) == {id};
    Store(users, AddToAllProjects(s.projects, [id]), AddToAllForms(s.forms, [id]))
  }

  /** `initAdmin`'s own writes leave every account other than the one with
      the administrator email as it was */
  lemma InitAdminAccountKeepsOthers(s: Store, adminEmail: string, hash: string, now: int, freshId: UserId)
    ensures UsersKeptExcept(s.users, InitAdminAccount(s, adminEmail, hash, now, freshId).users, UserWithEmail(s.users, adminEmail))
  {
    var users := UpsertAdminAccount(s.users, adminEmail, hash, Distinct(ProjectNames(s.projects)),
                                    Distinct(FormNames(s.forms)), InitEntry(adminEmail, now), freshId);
    assert InitAdminAccount(s, adminEmail, hash, now, freshId).users == users;
  }

  /** `initAdmin` adds an account exactly when none has the administrator
      email */
  lemma InitAdminAccountCount(s: Store, adminEmail: string, hash: string, now: int, freshId: UserId)
    ensures var r := InitAdminAccount(s, adminEmail, hash, now, freshId);
            |r.users| == |s.users| + if UserWithEmail(s.users, adminEmail).Some? then 0 else 1
  {
  }

  /** Adding members to every project and form keeps their names in place */
  lemma GainedKeepsNames(s: Store, t: Store, ids: set<UserId>, ids': set<UserId>)
    requires ProjectsGained(s.projects, t.projects, ids)
    requires FormsGained(s.forms, t.forms, ids')
    ensures AllProjectNames(t) == AllProjectNames(s)
    ensures AllFormNames(t) == AllFormNames(s)
  {
    assert forall i :: 0 <= i < |s.projects| ==> ProjectGained(s.projects[i], t.projects[i], ids);
    assert forall i :: 0 <= i < |s.forms| ==> FormGained(s.forms[i], t.forms[i], ids');
    ProjectNamesAgree(s.projects, t.projects);
    FormNamesAgree(s.forms, t.forms);
    SameNamesSameSets(s, t);
  }

  /** A member added by a first `$addToSet` is still there after a second */
  lemma ProjectsGainedTwice(ps: seq<Project>, qs: seq<Project>, rs: seq<Project>, id: UserId, ids: set<UserId>)
    requires ProjectsGained(ps, qs, {id}) && ProjectsGained(qs, rs, ids)
    ensures forall i :: 0 <= i < |rs| ==> id in rs[i].users
  {
    forall i | 0 <= i < |rs| ensures id in rs[i].users {
      assert ProjectGained(ps[i], qs[i], {id});
      assert ProjectGained(qs[i], rs[i], ids);
      assert id in Elems(qs[i].users);
    }
  }

  lemma FormsGainedTwice(fs: seq<Form>, gs: seq<Form>, hs: seq<Form>, id: UserId, ids: set<UserId>)
    requires FormsGained(fs, gs, {id}) && FormsGained(gs, hs, ids)
    ensures forall i :: 0 <= i < |hs| ==> id in hs[i].users
  {
    forall i | 0 <= i < |hs| ensures id in hs[i].users {
      assert FormGained(fs[i], gs[i], {id});
      assert FormGained(gs[i], hs[i], ids);
      assert id in Elems(gs[i].users);
    }
  }

  /** The administrator update keeps an initialised administrator
      initialised and makes it see everything */
  lemma SyncedAdminStays(s: Store, us: seq<User>, vs: seq<User>, entry: LogEntry, k: nat, hash: string, stamp: LogEntry)
    requires AdminsSynced(s, us, vs, entry)
    requires k < |us| && InitialisedAdmin(us[k], hash, stamp)
    ensures k < |vs| && vs[k].id == us[k].id
    ensures InitialisedAdmin(vs[k], hash, stamp) && SeesEverything(s, vs[k])
  {
    assert SameAccount(us[k], vs[k]);
  }

  /** In `r`, the account with `adminEmail` exists, is an initialised
      administrator that sees everything in `s`, and belongs to every project
      and form */
  ghost predicate AdminInstalled(s: Store, r: Store, adminEmail: string, hash: string, stamp: LogEntry) {
    && UserWithEmail(r.users, adminEmail).Some?
    && var u := r.users[UserWithEmail(r.users, adminEmail).value];
       && InitialisedAdmin(u, hash, stamp)
       && SeesEverything(s, u)
       && (forall i :: 0 <= i < |r.projects| ==> u.id in r.projects[i].users)
       && (forall i :: 0 <= i < |r.forms| ==> u.id in r.forms[i].users)
  }

  /** The administrator update finds an initialised administrator where it
      was, keeps it initialised and makes it see everything in `s` */
  lemma SyncedAdminFound(s: Store, t: Store, vs: seq<User>, entry: LogEntry, adminEmail: string,
                         hash: string, stamp: LogEntry, id: UserId)
    requires AdminsSynced(t, t.users, vs, entry)
    requires AllProjectNames(t) == AllProjectNames(s) && AllFormNames(t) == AllFormNames(s)
    requires UserWithEmail(t.users, adminEmail).Some?
    requires var u := t.users[UserWithEmail(t.users, adminEmail).value];
             u.id == id && InitialisedAdmin(u, hash, stamp)
    ensures UserWithEmail(vs, adminEmail).Some?
    ensures var u := vs[UserWithEmail(vs, adminEmail).value];
            u.id == id && InitialisedAdmin(u, hash, stamp) && SeesEverything(s, u)
  {
    var k := UserWithEmail(t.users, adminEmail).value;
    AdminsSyncedKeepsAccounts(t, t.users, vs, entry);
    UserWithEmailAgrees(t.users, vs, adminEmail);
    SyncedAdminStays(t, t.users, vs, entry, k, hash, stamp);
  }

  /** After `initAdmin`'s own writes and `updateAdmins`, the account with the
      administrator email is the initialised administrator with id
      `AdminAccountId` and sees everything */
  lemma InitAdminAccountSynced(s: Store, adminEmail: string, hash: string, now: int, later: int, freshId: UserId)
    ensures var r := UpdateAdmins(InitAdminAccount(s, adminEmail, hash, now, freshId), adminEmail, later);
            && UserWithEmail(r.users, adminEmail).Some?
            && var u := r.users[UserWithEmail(r.users, adminEmail).value];
               && u.id == AdminAccountId(s.users, adminEmail, freshId)
               && InitialisedAdmin(u, hash, InitEntry(adminEmail, now))
               && SeesEverything(s, u)
  {
    var s1 := InitAdminAccount(s, adminEmail, hash, now, freshId);
    var id := AdminAccountId(s.users, adminEmail, freshId);
    GainedKeepsNames(s, s1, {id}, {id});
    SyncedAdminFound(s, s1, UpdateAdmins(s1, adminEmail, later).users, AdminUpdatedEntry(adminEmail, later),
                     adminEmail, hash, InitEntry(adminEmail, now), id);
  }

  /** After `initAdmin`'s own writes and `updateAdmins`, the administrator
      account's id is in every project and form */
  lemma InitAdminMemberships(s: Store, adminEmail: string, hash: string, now: int, later: int, freshId: UserId)
    ensures var r := UpdateAdmins(InitAdminAccount(s, adminEmail, hash, now, freshId), adminEmail, later);
            var id := AdminAccountId(s.users, adminEmail, freshId);
            && (forall i :: 0 <= i < |r.projects| ==> id in r.projects[i].users)
            && (forall i :: 0 <= i < |r.forms| ==> id in r.forms[i].users)
  {
    var s1 := InitAdminAccount(s, adminEmail, hash, now, freshId);
    var r := UpdateAdmins(s1, adminEmail, later);
    var id := AdminAccountId(s.users, adminEmail, freshId);
    ProjectsGainedTwice(s.projects, s1.projects, r.projects, id, AdminIds(s1));
    FormsGainedTwice(s.forms, s1.forms, r.forms, id, AdminIds(s1));
  }

  /** `initAdmin`: the configured administrator account exists afterwards, is
      an active administrator with the configured password, sees every project
      and form and belongs to every project and form. `now` and `later` are the
      clock readings of `initAdmin` and of the `updateAdmins` it starts. */
  function InitAdmin(s: Store, adminEmail: string, hash: string, now: int, later: int, freshId: UserId): (r: Store)
    ensures UserWithEmail(s.users, adminEmail).Some? ==> |r.users| == |s.users|
    ensures UserWithEmail(s.users, adminEmail).None? ==> |r.users| == |s.users| + 1
    ensures |r.projects| == |s.projects| && |r.forms| == |s.forms|
    ensures AdminInstalled(s, r, adminEmail, hash, InitEntry(adminEmail, now))
  {
    InitAdminAccountCount(s, adminEmail, hash, now, freshId);
    InitAdminAccountSynced(s, adminEmail, hash, now, later, freshId);
    InitAdminMemberships(s, adminEmail, hash, now, later, freshId);
    UpdateAdmins(InitAdminAccount(s, adminEmail, hash, now, freshId), adminEmail, later)
  }

  /** `User.updateOne({ email }, { "roles.administrator": true })` on the
      account at index `k` */
  function Promote(s: Store, k: nat): (r: Store)
    requires k < |s.users|
    ensures r.projects == s.projects && r.forms == s.forms
    ensures |r.users| == |s.users|
    ensures r.users[k] == s.users[k].(roles := s.users[k].roles.(administrator := true))
    ensures forall i :: 0 <= i < |s.users| && i != k ==> r.users[i] == s.users[i]
    ensures AdminIds(r) == AdminIds(s) + {s.users[k].id}
  {
    var target := s.users[k];
    var r := s.(users := s.users[k := target.(roles := target.roles.(administrator := true))]);
    forall id | id in AdminIds(r) ensures id in AdminIds(s) + {target.id} {
      var u :| u in r.users && u.roles.administrator && u.id == id;
      var i :| 0 <= i < |r.users| && r.users[i] == u;
      if i != k { assert s.users[i] in s.users; }
    }
    assert r.users[k] in r.users;
    forall id | id in AdminIds(s) ensures id in AdminIds(r) {
      var u :| u in s.users && u.roles.administrator && u.id == id;
      var i :| 0 <= i < |s.users| && s.users[i] == u;
      assert r.users[i] in r.users;
    }
    r
  }

  /** The writes of a granted administrator request: the account at `k`
      becomes an administrator, then `updateAdmins` runs */
  function MakeAdmin(s: Store, k: nat, adminEmail: string, now: int): (r: Store)
    requires k < |s.users|
    ensures |r.users| == |s.users|
    ensures AdminIds(r) == AdminIds(s) + {s.users[k].id}
    ensures forall i :: 0 <= i < |s.users| && (i == k || s.users[i].roles.administrator) ==> SeesEverything(s, r.users[i])
    ensures forall i :: 0 <= i < |s.users| && i != k && !s.users[i].roles.administrator ==> r.users[i] == s.users[i]
    ensures ProjectsGained(s.projects, r.projects, AdminIds(s) + {s.users[k].id})
    ensures FormsGained(s.forms, r.forms, AdminIds(s) + {s.users[k].id})
  {
    var s1 := Promote(s, k);
    var r := UpdateAdmins(s1, adminEmail, now);
    PromotedAdminsSynced(s, s1, r.users, k, AdminUpdatedEntry(adminEmail, now));
    r
  }

  /** After a promotion and the administrator update, the promoted account
      and every earlier administrator see everything, and no other account
      changed */
  lemma PromotedAdminsSynced(s: Store, s1: Store, vs: seq<User>, k: nat, entry: LogEntry)
    requires k < |s.users| && s1.projects == s.projects && s1.forms == s.forms
    requires |s1.users| == |s.users|
    requires s1.users[k] == s.users[k].(roles := s.users[k].roles.(administrator := true))
    requires forall i :: 0 <= i < |s.users| && i != k ==> s1.users[i] == s.users[i]
    requires AdminsSynced(s1, s1.users, vs, entry)
    ensures forall i :: 0 <= i < |s.users| && (i == k || s.users[i].roles.administrator) ==> SeesEverything(s, vs[i])
    ensures forall i :: 0 <= i < |s.users| && i != k && !s.users[i].roles.administrator ==> vs[i] == s.users[i]
  {
    forall i | 0 <= i < |s.users| && (i == k || s.users[i].roles.administrator) ensures SeesEverything(s, vs[i]) {
      assert s1.users[i].roles.administrator;
      assert SeesEverything(s1, vs[i]);
      assert AllProjectNames(s1) == AllProjectNames(s) && AllFormNames(s1) == AllFormNames(s);
    }
    forall i | 0 <= i < |s.users| && i != k && !s.users[i].roles.administrator ensures vs[i] == s.users[i] {
      assert !s1.users[i].roles.administrator;
    }
  }

  /** `POST /` of the admin router: makeAdmin.js lines 180-226. The caller
      `caller` asks that the account with `email` become an administrator. */
  function GrantAdmin(s: Store, caller: UserId, email: string, adminEmail: string, now: int): (r: Step)
    ensures UserWithEmail(s.users, email).None? ==>
      r == Step(Sent(400, Text("Could not find the user you wanted to add")), s)
    ensures UserWithEmail(s.users, email).Some? && UserWithId(s.users, caller).None? ==>
      r.reply.Crashed? && r.store == s
    ensures UserWithEmail(s.users, email).Some? && UserWithId(s.users, caller).Some? &&
            !s.users[UserWithId(s.users, caller).value].roles.administrator ==>
      r == Step(Sent(400, Text("Unauthorised")), s)
    ensures UserWithEmail(s.users, email).Some? && UserWithId(s.users, caller).Some? &&
            s.users[UserWithId(s.users, caller).value].roles.administrator ==>
      var k := UserWithEmail(s.users, email).value;
      && r.reply == Sent(200, Text("Success"))
      && |r.store.users| == |s.users|
      && AdminIds(r.store) == AdminIds(s) + {s.users[k].id}
      && SeesEverything(s, r.store.users[k])
      && (forall i :: 0 <= i < |s.users| && s.users[i].roles.administrator ==> SeesEverything(s, r.store.users[i]))
      && (forall i :: 0 <= i < |s.users| && i != k && !s.users[i].roles.administrator ==> r.store.users[i] == s.users[i])
      && ProjectsGained(s.projects, r.store.projects, AdminIds(s) + {s.users[k].id})
      && FormsGained(s.forms, r.store.forms, AdminIds(s) + {s.users[k].id})
  {
    match UserWithEmail(s.users, email)
    case None => Step(Sent(400, Text("Could not find the user you wanted to add")), s)
    case Some(k) =>
      match UserWithId(s.users, caller)
      case None => Step(Crashed("TypeError: Cannot read properties of null (reading 'roles')"), s)
      case Some(c) =>
        if s.users[c].roles.administrator then
          Step(Sent(200, Text("Success")), MakeAdmin(s, k, adminEmail, now))
        else
          Step(Sent(400, Text("Unauthorised")), s)
  }
}
