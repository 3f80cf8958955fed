/** Properties of `load_data_kimai.py` that relate several calls: idempotence
    of a row, how a failed call propagates, and which key each entity uses. */
module ProvisioningProperties {
  import opened Wrappers
  import opened KimaiApi
  import opened Provisioning

  lemma LastCustomerIsUnique(s: Store, name: string, a: Id, b: Id)
    requires IsLastCustomer(s, name, a) && IsLastCustomer(s, name, b)
    ensures a == b
  {
  }

  lemma LastProjectIsUnique(s: Store, name: string, customer: Option<Id>, a: Id, b: Id)
    requires IsLastProject(s, name, customer, a) && IsLastProject(s, name, customer, b)
    ensures a == b
  {
  }

  lemma LastActivityIsUnique(s: Store, name: string, a: Id, b: Id)
    requires IsLastActivity(s, name, a) && IsLastActivity(s, name, b)
    ensures a == b
  {
  }

  /** After `create_client` returned an id, the store lists that id as the
      last customer with the name, so the next lookup finds it. */
  lemma ClientFoundAfterwards(s: Store, name: string, listStatus: int, postStatus: int)
    requires CreateClient(s, name, listStatus, postStatus).id.Some?
    ensures var o := CreateClient(s, name, listStatus, postStatus);
      HasCustomer(o.store, name) && IsLastCustomer(o.store, name, o.id.value)
  {
    var o := CreateClient(s, name, listStatus, postStatus);
    if !(Accepted(listStatus) && HasCustomer(s, name)) {
      var n := |s.customers|;
      assert o.store.customers[n].name == name;
    }
  }

  lemma ProjectFoundAfterwards(s: Store, name: string, customer: Option<Id>, number: string,
                               listStatus: int, postStatus: int, patchStatus: int)
    requires CreateProject(s, name, customer, number, listStatus, postStatus, patchStatus).id.Some?
    ensures var o := CreateProject(s, name, customer, number, listStatus, postStatus, patchStatus);
      HasProject(o.store, name, customer) && IsLastProject(o.store, name, customer, o.id.value)
  {
    var o := CreateProject(s, name, customer, number, listStatus, postStatus, patchStatus);
    if !(Accepted(listStatus) && HasProject(s, name, customer)) {
      var n := |s.projects|;
      assert o.store.projects[n].name == name && o.store.projects[n].customer == customer;
    }
  }

  lemma ActivityFoundAfterwards(s: Store, name: string, project: Option<Id>,
                                listStatus: int, postStatus: int)
    requires CreateActivity(s, name, project, listStatus, postStatus).id.Some?
    ensures var o := CreateActivity(s, name, project, listStatus, postStatus);
      HasActivity(o.store, name) && IsLastActivity(o.store, name, o.id.value)
  {
    var o := CreateActivity(s, name, project, listStatus, postStatus);
    if !(Accepted(listStatus) && HasActivity(s, name)) {
      var n := |s.activities|;
      assert o.store.activities[n].name == name;
    }
  }

  /** The three listings of a row all succeed. */
  predicate ListingsAccepted(r: RowReplies) {
    Accepted(r.listCustomers) && Accepted(r.listProjects) && Accepted(r.listActivities)
  }

  /** A lookup that finds the key reuses its id and changes nothing. */
  lemma ClientReused(s: Store, name: string, listStatus: int, postStatus: int, id: Id)
    requires Accepted(listStatus) && IsLastCustomer(s, name, id)
    ensures CreateClient(s, name, listStatus, postStatus) == Outcome(Some(id), s, [ListRequest(Customers)])
  {
    var o := CreateClient(s, name, listStatus, postStatus);
    LastCustomerIsUnique(s, name, o.id.value, id);
  }

  lemma ProjectReused(s: Store, name: string, customer: Option<Id>, number: string,
                      listStatus: int, postStatus: int, patchStatus: int, id: Id)
    requires Accepted(listStatus) && IsLastProject(s, name, customer, id)
    ensures CreateProject(s, name, customer, number, listStatus, postStatus, patchStatus)
         == Outcome(Some(id), s, [ListRequest(Projects)])
  {
    var o := CreateProject(s, name, customer, number, listStatus, postStatus, patchStatus);
    LastProjectIsUnique(s, name, customer, o.id.value, id);
  }

  lemma ActivityReused(s: Store, name: string, project: Option<Id>,
                       listStatus: int, postStatus: int, id: Id)
    requires Accepted(listStatus) && IsLastActivity(s, name, id)
    ensures CreateActivity(s, name, project, listStatus, postStatus)
         == Outcome(Some(id), s, [ListRequest(Activities)])
  {
    var o := CreateActivity(s, name, project, listStatus, postStatus);
    LastActivityIsUnique(s, name, o.id.value, id);
  }

  /** After a row whose three ids are present, the store lists each id as the
      last record under the key the next lookup will use. */
  lemma RowLeavesIdsFindable(s: Store, row: Row, r: RowReplies)
    requires var o := ProcessRow(s, row, r);
      o.clientId.Some? && o.projectId.Some? && o.activityId.Some?
    ensures var o := ProcessRow(s, row, r);
      && IsLastCustomer(o.store, row.client, o.clientId.value)
      && IsLastProject(o.store, row.project, o.clientId, o.projectId.value)
      && IsLastActivity(o.store, row.activity, o.activityId.value)
  {
    var c := CreateClient(s, row.client, r.listCustomers, r.postCustomer);
    var p := CreateProject(c.store, row.project, c.id, ProjectNumber(row),
                           r.listProjects, r.postProject, r.patchProject);
    var a := CreateActivity(p.store, row.activity, p.id, r.listActivities, r.postActivity);
    ClientFoundAfterwards(s, row.client, r.listCustomers, r.postCustomer);
    ProjectFoundAfterwards(c.store, row.project, c.id, ProjectNumber(row),
                           r.listProjects, r.postProject, r.patchProject);
    ActivityFoundAfterwards(p.store, row.activity, p.id, r.listActivities, r.postActivity);
    // Later steps do not touch the tables earlier steps read.
    assert a.store.customers == c.store.customers;
    assert a.store.projects == p.store.projects;
    assert ProcessRow(s, row, r).store == a.store;
  }

  /** The three listings a row sends when every lookup finds its key. */
  const ThreeListings := [ListRequest(Customers), ListRequest(Projects), ListRequest(Activities)]

  /** A row whose three keys are each found reuses them all. */
  lemma RowReused(s: Store, row: Row, r: RowReplies, client: Id, project: Id, activity: Id)
    requires ListingsAccepted(r)
    requires IsLastCustomer(s, row.client, client)
    requires IsLastProject(s, row.project, Some(client), project)
    requires IsLastActivity(s, row.activity, activity)
    ensures ProcessRow(s, row, r)
         == RowOutcome(Some(client), Some(project), Some(activity), s, ThreeListings)
  {
    var c := CreateClient(s, row.client, r.listCustomers, r.postCustomer);
    ClientReused(s, row.client, r.listCustomers, r.postCustomer, client);
    var p := CreateProject(c.store, row.project, c.id, ProjectNumber(row),
                           r.listProjects, r.postProject, r.patchProject);
    ProjectReused(s, row.project, Some(client), ProjectNumber(row),
                  r.listProjects, r.postProject, r.patchProject, project);
    var a := CreateActivity(p.store, row.activity, p.id, r.listActivities, r.postActivity);
    ActivityReused(s, row.activity, Some(project), r.listActivities, r.postActivity, activity);
    assert c.sent + p.sent + a.sent == ThreeListings by {
      ListingsConcat();
    }
  }

  lemma ListingsConcat()
    ensures [ListRequest(Customers)] + [ListRequest(Projects)] + [ListRequest(Activities)] == ThreeListings
  {
  }

  /** Processing a row a second time, against the store a first run left
      with all three ids present, returns the same ids, changes nothing and
      sends only the three listings. */
  lemma RowIdempotent(s: Store, row: Row, first: RowReplies, second: RowReplies)
    requires var o := ProcessRow(s, row, first);
      o.clientId.Some? && o.projectId.Some? && o.activityId.Some?
    requires ListingsAccepted(second)
    ensures var o := ProcessRow(s, row, first);
      var again := ProcessRow(o.store, row, second);
      && again.clientId == o.clientId
      && again.projectId == o.projectId
      && again.activityId == o.activityId
      && again.store == o.store
      && again.sent == ThreeListings
  {
    var o := ProcessRow(s, row, first);
    RowLeavesIdsFindable(s, row, first);
    RowReused(o.store, row, second, o.clientId.value, o.projectId.value, o.activityId.value);
  }

  /** `create_client` posts neither a project nor an activity, nor a PATCH. */
  lemma ClientSendsThreaded(s: Store, name: string, listStatus: int, postStatus: int,
                            client: Option<Id>, project: Option<Id>, number: string)
    ensures Threaded(CreateClient(s, name, listStatus, postStatus).sent, client, project, number)
  {
    var sent := CreateClient(s, name, listStatus, postStatus).sent;
    assert forall i :: 0 <= i < |sent| ==> sent[i].verb != PATCH && (sent[i].payload.NoPayload? || sent[i].payload.CustomerPayload?);
  }

  /** The creation half of `create_project` patches only the id the POST
      returned, with the number it was given. */
  lemma PostProjectSendsThreaded(s: Store, name: string, customer: Option<Id>, number: string,
                                 postStatus: int, patchStatus: int)
    ensures var o := PostProject(s, name, customer, number, postStatus, patchStatus);
      Threaded(o.sent, customer, o.id, number)
  {
    var o := PostProject(s, name, customer, number, postStatus, patchStatus);
    if Accepted(postStatus) && number != "" {
      assert o.sent == [o.sent[0]] + o.sent[1..];
      assert o.sent == [Request(POST, Projects, NewProject(name, customer)),
                        Request(PATCH, ProjectById(o.id.value), NumberPayload(number))];
    }
  }

  /** `create_project` posts under its customer and patches only the id it
      returns, with the number it was given; a reused project is never patched. */
  lemma ProjectSendsThreaded(s: Store, name: string, customer: Option<Id>, number: string,
                             listStatus: int, postStatus: int, patchStatus: int)
    ensures var o := CreateProject(s, name, customer, number, listStatus, postStatus, patchStatus);
      Threaded(o.sent, customer, o.id, number)
    ensures var o := CreateProject(s, name, customer, number, listStatus, postStatus, patchStatus);
      Accepted(listStatus) && HasProject(s, name, customer) ==>
        forall i :: 0 <= i < |o.sent| ==> o.sent[i].verb != PATCH
  {
    if !(Accepted(listStatus) && HasProject(s, name, customer)) {
      var created := PostProject(s, name, customer, number, postStatus, patchStatus);
      PostProjectSendsThreaded(s, name, customer, number, postStatus, patchStatus);
      ThreadedConcat([ListRequest(Projects)], created.sent, customer, created.id, number);
    }
  }

  /** `create_activity` posts under its project and sends no PATCH. */
  lemma ActivitySendsThreaded(s: Store, name: string, project: Option<Id>, listStatus: int, postStatus: int,
                              client: Option<Id>, number: string)
    ensures Threaded(CreateActivity(s, name, project, listStatus, postStatus).sent, client, project, number)
  {
  }

  /** The ids a row threads forward: every project it posts is under the
      client id it got, every activity it posts is under the project id it
      got, and a PATCH sets the row's number on that project id. */
  lemma RowThreadsIds(s: Store, row: Row, r: RowReplies)
    ensures var o := ProcessRow(s, row, r);
      Threaded(o.sent, o.clientId, o.projectId, ProjectNumber(row))
  {
    var c := CreateClient(s, row.client, r.listCustomers, r.postCustomer);
    var p := CreateProject(c.store, row.project, c.id, ProjectNumber(row),
                           r.listProjects, r.postProject, r.patchProject);
    var a := CreateActivity(p.store, row.activity, p.id, r.listActivities, r.postActivity);
    ClientSendsThreaded(s, row.client, r.listCustomers, r.postCustomer, c.id, p.id, ProjectNumber(row));
    ProjectSendsThreaded(c.store, row.project, c.id, ProjectNumber(row),
                         r.listProjects, r.postProject, r.patchProject);
    ActivitySendsThreaded(p.store, row.activity, p.id, r.listActivities, r.postActivity, c.id, ProjectNumber(row));
    ThreadedConcat(c.sent, p.sent, c.id, p.id, ProjectNumber(row));
    ThreadedConcat(c.sent + p.sent, a.sent, c.id, p.id, ProjectNumber(row));
  }

  /** The records a row creates are linked by the ids it threads: a new
      project sits under the row's client id, and a new activity under the
      row's project id. */
  lemma RowLinksNewRecords(s: Store, row: Row, r: RowReplies)
    ensures var o := ProcessRow(s, row, r);
      |o.store.projects| > |s.projects| ==>
        && o.store.projects[|s.projects|].customer == o.clientId
        && o.projectId == Some(o.store.projects[|s.projects|].id)
        && o.store.projects[|s.projects|].name == row.project
    ensures var o := ProcessRow(s, row, r);
      |o.store.activities| > |s.activities| ==>
        && o.activityId.Some?
        && o.store.activities[|s.activities|] == Activity(o.activityId.value, row.activity, o.projectId, true)
  {
    var c := CreateClient(s, row.client, r.listCustomers, r.postCustomer);
    var p := CreateProject(c.store, row.project, c.id, ProjectNumber(row),
                           r.listProjects, r.postProject, r.patchProject);
    var a := CreateActivity(p.store, row.activity, p.id, r.listActivities, r.postActivity);
    assert c.store.projects == s.projects && p.store.activities == s.activities;
    assert a.store.projects == p.store.projects;
    if |p.store.projects| > |s.projects| {
      var created := PostProject(c.store, row.project, c.id, ProjectNumber(row), r.postProject, r.patchProject);
      assert p.store == created.store && p.id == created.id;
    }
    assert ProcessRow(s, row, r) == RowOutcome(c.id, p.id, a.id, a.store, c.sent + p.sent + a.sent);
  }

  /** A failed client creation does not stop the row: the project step still
      runs, and a project it posts carries no customer. */
  lemma FailedClientPropagates(s: Store, row: Row, r: RowReplies)
    requires ProcessRow(s, row, r).clientId == None
    ensures var o := ProcessRow(s, row, r);
      && ListRequest(Projects) in o.sent
      && ListRequest(Activities) in o.sent
      && ProjectsPostedUnder(o.sent, None)
  {
    var c := CreateClient(s, row.client, r.listCustomers, r.postCustomer);
    var p := CreateProject(c.store, row.project, c.id, ProjectNumber(row),
                           r.listProjects, r.postProject, r.patchProject);
    var a := CreateActivity(p.store, row.activity, p.id, r.listActivities, r.postActivity);
    assert c.id == None;
    ClientPostsNoProject(s, row.client, r.listCustomers, r.postCustomer);
    ActivityPostsNoProject(p.store, row.activity, p.id, r.listActivities, r.postActivity);
    ProjectsPostedUnderConcat(c.sent, p.sent, None);
    ProjectsPostedUnderConcat(c.sent + p.sent, a.sent, None);
  }

  lemma ClientPostsNoProject(s: Store, name: string, listStatus: int, postStatus: int)
    ensures forall customer :: ProjectsPostedUnder(CreateClient(s, name, listStatus, postStatus).sent, customer)
  {
    var sent := CreateClient(s, name, listStatus, postStatus).sent;
    assert forall i :: 0 <= i < |sent| ==> !sent[i].payload.ProjectPayload?;
  }

  lemma ActivityPostsNoProject(s: Store, name: string, project: Option<Id>, listStatus: int, postStatus: int)
    ensures forall customer :: ProjectsPostedUnder(CreateActivity(s, name, project, listStatus, postStatus).sent, customer)
  {
    var sent := CreateActivity(s, name, project, listStatus, postStatus).sent;
    assert forall i :: 0 <= i < |sent| ==> !sent[i].payload.ProjectPayload?;
  }

  /** A failed customer listing looks like an empty one: the client is
      posted again even when it exists, and the store then holds two
      customers of that name. */
  lemma FailedListingDuplicates(s: Store, name: string, listStatus: int, postStatus: int)
    requires !Accepted(listStatus) && Accepted(postStatus)
    requires HasCustomer(s, name)
    ensures var o := CreateClient(s, name, listStatus, postStatus);
      exists i, j :: 0 <= i < j < |o.store.customers|
        && o.store.customers[i].name == name && o.store.customers[j].name == name
  {
    var o := CreateClient(s, name, listStatus, postStatus);
    var i :| 0 <= i < |s.customers| && s.customers[i].name == name;
    assert o.store.customers[i].name == name;
    assert o.store.customers[|s.customers|].name == name;
  }

  /** Projects are keyed on (name, customer id): one of the same name under
      another customer is not reused, and a new project is posted. */
  lemma ProjectNotReusedAcrossCustomers(s: Store, name: string, customer: Option<Id>, number: string,
                                        listStatus: int, postStatus: int, patchStatus: int, k: nat)
    requires k < |s.projects| && s.projects[k].name == name && s.projects[k].customer != customer
    requires !HasProject(s, name, customer)
    requires Accepted(postStatus)
    ensures var o := CreateProject(s, name, customer, number, listStatus, postStatus, patchStatus);
      && Request(POST, Projects, NewProject(name, customer)) in o.sent
      && o.id.Some? && o.id.value != s.projects[k].id
      && o.store.projects[k] == s.projects[k]
  {
    var o := CreateProject(s, name, customer, number, listStatus, postStatus, patchStatus);
    assert o.sent[1] == Request(POST, Projects, NewProject(name, customer));
    assert ProjectIds(s.projects)[k] == s.projects[k].id as int;
  }

  /** Activities are keyed on the name alone: one of the same name is reused
      even when it belongs to another project, and its link is kept. */
  lemma ActivityReusedAcrossProjects(s: Store, name: string, project: Option<Id>,
                                     listStatus: int, postStatus: int, k: nat)
    requires Accepted(listStatus)
    requires k < |s.activities| && s.activities[k].name == name && s.activities[k].project != project
    requires forall j :: k < j < |s.activities| ==> s.activities[j].name != name
    ensures var o := CreateActivity(s, name, project, listStatus, postStatus);
      && o.id == Some(s.activities[k].id)
      && o.store == s
      && o.store.activities[k].project == s.activities[k].project
      && |o.sent| == 1
  {
    var o := CreateActivity(s, name, project, listStatus, postStatus);
    assert IsLastActivity(s, name, s.activities[k].id);
    LastActivityIsUnique(s, name, o.id.value, s.activities[k].id);
  }

  /** Ids are distinct within each table of the server. */
  ghost predicate IdsUnique(s: Store) {
    && (forall i, j :: 0 <= i < j < |s.customers| ==> s.customers[i].id != s.customers[j].id)
    && (forall i, j :: 0 <= i < j < |s.projects| ==> s.projects[i].id != s.projects[j].id)
    && (forall i, j :: 0 <= i < j < |s.activities| ==> s.activities[i].id != s.activities[j].id)
  }

  /** No two records share the key the script looks them up by. */
  ghost predicate KeysUnique(s: Store) {
    && (forall i, j :: 0 <= i < j < |s.customers| ==> s.customers[i].name != s.customers[j].name)
    && (forall i, j :: 0 <= i < j < |s.projects| ==>
          s.projects[i].name != s.projects[j].name || s.projects[i].customer != s.projects[j].customer)
    && (forall i, j :: 0 <= i < j < |s.activities| ==> s.activities[i].name != s.activities[j].name)
  }

  lemma ClientKeepsInvariants(s: Store, name: string, listStatus: int, postStatus: int)
    requires IdsUnique(s)
    ensures IdsUnique(CreateClient(s, name, listStatus, postStatus).store)
    ensures KeysUnique(s) && Accepted(listStatus) ==>
      KeysUnique(CreateClient(s, name, listStatus, postStatus).store)
  {
    var o := CreateClient(s, name, listStatus, postStatus);
    if o.store.customers != s.customers {
      var n := |s.customers|;
      forall i | 0 <= i < n ensures s.customers[i].id != o.store.customers[n].id {
        assert CustomerIds(s.customers)[i] == s.customers[i].id as int;
      }
    }
  }

  lemma ProjectKeepsInvariants(s: Store, name: string, customer: Option<Id>, number: string,
                               listStatus: int, postStatus: int, patchStatus: int)
    requires IdsUnique(s)
    ensures IdsUnique(CreateProject(s, name, customer, number, listStatus, postStatus, patchStatus).store)
    ensures KeysUnique(s) && Accepted(listStatus) ==>
      KeysUnique(CreateProject(s, name, customer, number, listStatus, postStatus, patchStatus).store)
  {
    var o := CreateProject(s, name, customer, number, listStatus, postStatus, patchStatus);
    if o.store.projects != s.projects {
      var n := |s.projects|;
      forall i | 0 <= i < n ensures s.projects[i].id != o.store.projects[n].id {
        assert ProjectIds(s.projects)[i] == s.projects[i].id as int;
      }
    }
  }

  lemma ActivityKeepsInvariants(s: Store, name: string, project: Option<Id>,
                                listStatus: int, postStatus: int)
    requires IdsUnique(s)
    ensures IdsUnique(CreateActivity(s, name, project, listStatus, postStatus).store)
    ensures KeysUnique(s) && Accepted(listStatus) ==>
      KeysUnique(CreateActivity(s, name, project, listStatus, postStatus).store)
  {
    var o := CreateActivity(s, name, project, listStatus, postStatus);
    if o.store.activities != s.activities {
      var n := |s.activities|;
      forall i | 0 <= i < n ensures s.activities[i].id != o.store.activities[n].id {
        assert ActivityIds(s.activities)[i] == s.activities[i].id as int;
      }
    }
  }

  lemma RowKeepsInvariants(s: Store, row: Row, r: RowReplies)
    requires IdsUnique(s)
    ensures IdsUnique(ProcessRow(s, row, r).store)
    ensures KeysUnique(s) && ListingsAccepted(r) ==> KeysUnique(ProcessRow(s, row, r).store)
  {
    var c := CreateClient(s, row.client, r.listCustomers, r.postCustomer);
    var p := CreateProject(c.store, row.project, c.id, ProjectNumber(row),
                           r.listProjects, r.postProject, r.patchProject);
    ClientKeepsInvariants(s, row.client, r.listCustomers, r.postCustomer);
    ProjectKeepsInvariants(c.store, row.project, c.id, ProjectNumber(row),
                           r.listProjects, r.postProject, r.patchProject);
    ActivityKeepsInvariants(p.store, row.activity, p.id, r.listActivities, r.postActivity);
  }

  ghost predicate AllListingsAccepted(replies: seq<RowReplies>) {
    forall i :: 0 <= i < |replies| ==> ListingsAccepted(replies[i])
  }

  /** Over a whole file ids stay distinct, whatever the replies. */
  lemma {:induction false} CsvKeepsIdsUnique(s: Store, rows: seq<Row>, replies: seq<RowReplies>)
    requires |replies| == |rows|
    requires IdsUnique(s)
    ensures IdsUnique(ProcessCsv(s, rows, replies).store)
    decreases |rows|
  {
    if |rows| > 0 {
      RowKeepsInvariants(s, rows[0], replies[0]);
      var o := ProcessRow(s, rows[0], replies[0]);
      CsvKeepsIdsUnique(o.store, rows[1..], replies[1..]);
      assert ProcessCsv(s, rows, replies).store == ProcessCsv(o.store, rows[1..], replies[1..]).store;
    }
  }

  /** Over a whole file, as long as every listing succeeds, no lookup key is
      ever duplicated. */
  lemma {:induction false} CsvKeepsKeysUnique(s: Store, rows: seq<Row>, replies: seq<RowReplies>)
    requires |replies| == |rows|
    requires IdsUnique(s) && KeysUnique(s)
    requires AllListingsAccepted(replies)
    ensures KeysUnique(ProcessCsv(s, rows, replies).store)
    decreases |rows|
  {
    if |rows| > 0 {
      RowKeepsInvariants(s, rows[0], replies[0]);
      var o := ProcessRow(s, rows[0], replies[0]);
      assert ListingsAccepted(replies[0]);
      assert AllListingsAccepted(replies[1..]) by {
        forall i | 0 <= i < |replies[1..]| ensures ListingsAccepted(replies[1..][i]) {
          assert replies[1..][i] == replies[i + 1];
        }
      }
      CsvKeepsKeysUnique(o.store, rows[1..], replies[1..]);
      assert ProcessCsv(s, rows, replies).store == ProcessCsv(o.store, rows[1..], replies[1..]).store;
    }
  }

  /** Every create call of the row is answered with success. */
  predicate PostsAccepted(r: RowReplies) {
    Accepted(r.postCustomer) && Accepted(r.postProject) && Accepted(r.postActivity)
  }

  ghost predicate AllPostsAccepted(replies: seq<RowReplies>) {
    forall i :: 0 <= i < |replies| ==> PostsAccepted(replies[i])
  }

  /** The row's client exists, a project of the row's name exists under that
      client, and an activity of the row's name exists. */
  ghost predicate RowPresent(s: Store, row: Row) {
    && (exists i :: 0 <= i < |s.customers| && s.customers[i].name == row.client
          && HasProject(s, row.project, Some(s.customers[i].id)))
    && HasActivity(s, row.activity)
  }

  /** The store only grew: earlier records are all still there, unchanged. */
  ghost predicate Grown(s: Store, s': Store) {
    && s.customers <= s'.customers
    && s.activities <= s'.activities
    && |s.projects| <= |s'.projects|
    && (forall i :: 0 <= i < |s.projects| ==> s'.projects[i] == s.projects[i])
  }

  lemma PresentStaysPresent(s: Store, s': Store, row: Row)
    requires Grown(s, s') && RowPresent(s, row)
    ensures RowPresent(s', row)
  {
    var i :| 0 <= i < |s.customers| && s.customers[i].name == row.client
      && HasProject(s, row.project, Some(s.customers[i].id));
    var m :| 0 <= m < |s.projects| && s.projects[m].name == row.project
      && s.projects[m].customer == Some(s.customers[i].id);
    assert s'.customers[i] == s.customers[i];
    assert s'.projects[m] == s.projects[m];
    var a :| 0 <= a < |s.activities| && s.activities[a].name == row.activity;
    assert s'.activities[a] == s.activities[a];
  }

  /** Every row of the file is present. */
  ghost predicate AllPresent(s: Store, rows: seq<Row>)
    decreases |rows|
  {
    |rows| == 0 || (RowPresent(s, rows[0]) && AllPresent(s, rows[1..]))
  }

  /** A row whose create calls all succeed returns all three ids. */
  lemma SuccessfulRowHasIds(s: Store, row: Row, r: RowReplies)
    requires PostsAccepted(r)
    ensures var o := ProcessRow(s, row, r);
      o.clientId.Some? && o.projectId.Some? && o.activityId.Some?
  {
    var c := CreateClient(s, row.client, r.listCustomers, r.postCustomer);
    var p := CreateProject(c.store, row.project, c.id, ProjectNumber(row),
                           r.listProjects, r.postProject, r.patchProject);
    var a := CreateActivity(p.store, row.activity, p.id, r.listActivities, r.postActivity);
    assert c.id.Some? && p.id.Some? && a.id.Some?;
  }

  lemma LastMeansPresent(s: Store, row: Row, client: Id, project: Id, activity: Id)
    requires IsLastCustomer(s, row.client, client)
    requires IsLastProject(s, row.project, Some(client), project)
    requires IsLastActivity(s, row.activity, activity)
    ensures RowPresent(s, row)
  {
    var i :| 0 <= i < |s.customers| && s.customers[i].name == row.client && s.customers[i].id == client;
    assert HasProject(s, row.project, Some(s.customers[i].id));
  }

  /** A row whose create calls all succeed leaves its three entities present. */
  lemma RowMakesPresent(s: Store, row: Row, r: RowReplies)
    requires PostsAccepted(r)
    ensures RowPresent(ProcessRow(s, row, r).store, row)
  {
    var o := ProcessRow(s, row, r);
    SuccessfulRowHasIds(s, row, r);
    RowLeavesIdsFindable(s, row, r);
    LastMeansPresent(o.store, row, o.clientId.value, o.projectId.value, o.activityId.value);
  }

  lemma CsvGrows(s: Store, rows: seq<Row>, replies: seq<RowReplies>)
    requires |replies| == |rows|
    ensures Grown(s, ProcessCsv(s, rows, replies).store)
  {
  }

  /** After a first run whose create calls all succeed, every row of the
      file is present in the store. */
  lemma {:induction false} FirstRunMakesAllPresent(s: Store, rows: seq<Row>, replies: seq<RowReplies>)
    requires |replies| == |rows|
    requires AllPostsAccepted(replies)
    ensures AllPresent(ProcessCsv(s, rows, replies).store, rows)
    decreases |rows|
  {
    if |rows| > 0 {
      var o := ProcessRow(s, rows[0], replies[0]);
      var final := ProcessCsv(o.store, rows[1..], replies[1..]).store;
      assert ProcessCsv(s, rows, replies).store == final;
      assert AllPostsAccepted(replies[1..]) by {
        forall i | 0 <= i < |replies[1..]| ensures PostsAccepted(replies[1..][i]) {
          assert replies[1..][i] == replies[i + 1];
        }
      }
      FirstRunMakesAllPresent(o.store, rows[1..], replies[1..]);
      assert PostsAccepted(replies[0]);
      RowMakesPresent(s, rows[0], replies[0]);
      CsvGrows(o.store, rows[1..], replies[1..]);
      PresentStaysPresent(o.store, final, rows[0]);
    }
  }

  /** The row's three lookups find these ids. */
  ghost predicate FoundAs(s: Store, row: Row, client: Id, project: Id, activity: Id) {
    && IsLastCustomer(s, row.client, client)
    && IsLastProject(s, row.project, Some(client), project)
    && IsLastActivity(s, row.activity, activity)
  }

  /** Each of the row's three lookups finds its key. */
  ghost predicate RowFound(s: Store, row: Row) {
    exists client: Id, project: Id, activity: Id :: FoundAs(s, row, client, project, activity)
  }

  ghost predicate AllFound(s: Store, rows: seq<Row>)
    decreases |rows|
  {
    |rows| == 0 || (RowFound(s, rows[0]) && AllFound(s, rows[1..]))
  }

  lemma FoundIds(s: Store, row: Row) returns (client: Id, project: Id, activity: Id)
    requires RowFound(s, row)
    ensures IsLastCustomer(s, row.client, client)
    ensures IsLastProject(s, row.project, Some(client), project)
    ensures IsLastActivity(s, row.activity, activity)
  {
    client, project, activity :| FoundAs(s, row, client, project, activity);
  }

  /** The requests only read: no create or update was sent. */
  ghost predicate OnlyListings(sent: seq<Request>) {
    forall i :: 0 <= i < |sent| ==> sent[i].verb == GET
  }

  lemma ThreeListingsOnlyRead()
    ensures OnlyListings(ThreeListings)
  {
    assert ThreeListings[0].verb == GET && ThreeListings[1].verb == GET && ThreeListings[2].verb == GET;
  }

  lemma OnlyListingsConcat(a: seq<Request>, b: seq<Request>)
    requires OnlyListings(a) && OnlyListings(b)
    ensures OnlyListings(a + b)
  {
    forall i | 0 <= i < |a + b| ensures (a + b)[i].verb == GET {
      if i >= |a| {
        assert (a + b)[i] == b[i - |a|];
      }
    }
  }

  lemma CsvUnfold(s: Store, rows: seq<Row>, replies: seq<RowReplies>)
    requires |replies| == |rows| && |rows| > 0
    ensures var o := ProcessRow(s, rows[0], replies[0]);
      var rest := ProcessCsv(o.store, rows[1..], replies[1..]);
      ProcessCsv(s, rows, replies) == Run(rest.store, o.sent + rest.sent)
  {
  }

  lemma ListingsTail(replies: seq<RowReplies>)
    requires |replies| > 0 && AllListingsAccepted(replies)
    ensures ListingsAccepted(replies[0]) && AllListingsAccepted(replies[1..])
  {
    forall i | 0 <= i < |replies[1..]| ensures ListingsAccepted(replies[1..][i]) {
      assert replies[1..][i] == replies[i + 1];
    }
  }

  /** A run over rows whose lookups all find their keys, with successful
      listings, changes nothing and sends only listings. */
  lemma {:induction false} FoundRunChangesNothing(s: Store, rows: seq<Row>, replies: seq<RowReplies>)
    requires |replies| == |rows|
    requires AllListingsAccepted(replies) && AllFound(s, rows)
    ensures ProcessCsv(s, rows, replies).store == s
    ensures OnlyListings(ProcessCsv(s, rows, replies).sent)
    decreases |rows|
  {
    if |rows| > 0 {
      ListingsTail(replies);
      var client, project, activity := FoundIds(s, rows[0]);
      RowReused(s, rows[0], replies[0], client, project, activity);
      ThreeListingsOnlyRead();
      FoundRunChangesNothing(s, rows[1..], replies[1..]);
      CsvUnfold(s, rows, replies);
      OnlyListingsConcat(ProcessRow(s, rows[0], replies[0]).sent,
                         ProcessCsv(s, rows[1..], replies[1..]).sent);
    }
  }

  /** Appending a record under another key keeps a key's last record. */
  lemma AppendKeepsLastCustomer(s: Store, t: Store, c: Customer, key: string, id: Id)
    requires t.customers == s.customers + [c] && c.name != key
    requires IsLastCustomer(s, key, id)
    ensures IsLastCustomer(t, key, id)
  {
    var i :| 0 <= i < |s.customers| && s.customers[i].name == key && s.customers[i].id == id
      && forall j :: i < j < |s.customers| ==> s.customers[j].name != key;
    assert t.customers[i] == s.customers[i];
  }

  lemma AppendKeepsLastProject(s: Store, t: Store, p: Project, key: string, customer: Option<Id>, id: Id)
    requires t.projects == s.projects + [p] && (p.name != key || p.customer != customer)
    requires IsLastProject(s, key, customer, id)
    ensures IsLastProject(t, key, customer, id)
  {
    var i :| 0 <= i < |s.projects| && s.projects[i].name == key
      && s.projects[i].customer == customer && s.projects[i].id == id
      && forall j :: i < j < |s.projects| ==>
           s.projects[j].name != key || s.projects[j].customer != customer;
    assert t.projects[i] == s.projects[i];
  }

  lemma AppendKeepsLastActivity(s: Store, t: Store, a: Activity, key: string, id: Id)
    requires t.activities == s.activities + [a] && a.name != key
    requires IsLastActivity(s, key, id)
    ensures IsLastActivity(t, key, id)
  {
    var i :| 0 <= i < |s.activities| && s.activities[i].name == key && s.activities[i].id == id
      && forall j :: i < j < |s.activities| ==> s.activities[j].name != key;
    assert t.activities[i] == s.activities[i];
  }

  /** With its listing answered, `create_client` keeps every name's last
      customer: a listed name is reused, and a new customer has a name that
      was not listed. */
  lemma ClientKeepsLast(s: Store, name: string, listStatus: int, postStatus: int, key: string, id: Id)
    requires Accepted(listStatus) && IsLastCustomer(s, key, id)
    ensures IsLastCustomer(CreateClient(s, name, listStatus, postStatus).store, key, id)
  {
    var o := CreateClient(s, name, listStatus, postStatus);
    if !HasCustomer(s, name) && Accepted(postStatus) {
      assert name != key;
      AppendKeepsLastCustomer(s, o.store, Customer(o.id.value, name, Country, Currency, Timezone, true), key, id);
    }
  }

  lemma ProjectKeepsLast(s: Store, name: string, customer: Option<Id>, number: string,
                         listStatus: int, postStatus: int, patchStatus: int,
                         key: string, keyCustomer: Option<Id>, id: Id)
    requires Accepted(listStatus) && IsLastProject(s, key, keyCustomer, id)
    ensures IsLastProject(CreateProject(s, name, customer, number, listStatus, postStatus, patchStatus).store,
                          key, keyCustomer, id)
  {
    if !HasProject(s, name, customer) && Accepted(postStatus) {
      assert name != key || customer != keyCustomer;
      var created := PostProject(s, name, customer, number, postStatus, patchStatus);
      var p := Project(created.id.value, name, customer, true, true,
                       if number != "" && Accepted(patchStatus) then Some(number) else None);
      AppendKeepsLastProject(s, created.store, p, key, keyCustomer, id);
    }
  }

  lemma ActivityKeepsLast(s: Store, name: string, project: Option<Id>,
                          listStatus: int, postStatus: int, key: string, id: Id)
    requires Accepted(listStatus) && IsLastActivity(s, key, id)
    ensures IsLastActivity(CreateActivity(s, name, project, listStatus, postStatus).store, key, id)
  {
    var o := CreateActivity(s, name, project, listStatus, postStatus);
    if !HasActivity(s, name) && Accepted(postStatus) {
      assert name != key;
      AppendKeepsLastActivity(s, o.store, Activity(o.id.value, name, project, true), key, id);
    }
  }

  /** Each table of the store a row leaves comes from the one call that
      touches it. */
  lemma RowStore(s: Store, row: Row, r: RowReplies)
    ensures var c := CreateClient(s, row.client, r.listCustomers, r.postCustomer);
      var p := CreateProject(c.store, row.project, c.id, ProjectNumber(row),
                             r.listProjects, r.postProject, r.patchProject);
      var a := CreateActivity(p.store, row.activity, p.id, r.listActivities, r.postActivity);
      && p.store.customers == c.store.customers
      && ProcessRow(s, row, r).store == Store(c.store.customers, p.store.projects, a.store.activities)
  {
  }

  /** A row whose listings are answered keeps another row's three lookups
      finding the same ids, even when names repeat in the store. */
  lemma RowKeepsFound(s: Store, row: Row, r: RowReplies, other: Row, client: Id, project: Id, activity: Id)
    requires ListingsAccepted(r) && FoundAs(s, other, client, project, activity)
    ensures FoundAs(ProcessRow(s, row, r).store, other, client, project, activity)
  {
    var c := CreateClient(s, row.client, r.listCustomers, r.postCustomer);
    var p := CreateProject(c.store, row.project, c.id, ProjectNumber(row),
                           r.listProjects, r.postProject, r.patchProject);
    RowStore(s, row, r);
    ClientKeepsLast(s, row.client, r.listCustomers, r.postCustomer, other.client, client);
    ProjectKeepsLast(c.store, row.project, c.id, ProjectNumber(row),
                     r.listProjects, r.postProject, r.patchProject, other.project, Some(client), project);
    ActivityKeepsLast(p.store, row.activity, p.id, r.listActivities, r.postActivity, other.activity, activity);
  }

  /** A run whose listings are all answered keeps a row found under the same ids. */
  lemma {:induction false} CsvKeepsFound(s: Store, rows: seq<Row>, replies: seq<RowReplies>,
                                         other: Row, client: Id, project: Id, activity: Id)
    requires |replies| == |rows|
    requires AllListingsAccepted(replies) && FoundAs(s, other, client, project, activity)
    ensures FoundAs(ProcessCsv(s, rows, replies).store, other, client, project, activity)
    decreases |rows|
  {
    if |rows| > 0 {
      ListingsTail(replies);
      RowKeepsFound(s, rows[0], replies[0], other, client, project, activity);
      var o := ProcessRow(s, rows[0], replies[0]);
      CsvKeepsFound(o.store, rows[1..], replies[1..], other, client, project, activity);
      CsvUnfold(s, rows, replies);
    }
  }

  /** After a first run whose listings and create calls all succeed, every
      row's three lookups find their keys, whatever the store started with. */
  lemma {:induction false} FirstRunMakesAllFound(s: Store, rows: seq<Row>, replies: seq<RowReplies>)
    requires |replies| == |rows|
    requires AllListingsAccepted(replies) && AllPostsAccepted(replies)
    ensures AllFound(ProcessCsv(s, rows, replies).store, rows)
    decreases |rows|
  {
    if |rows| > 0 {
      ListingsTail(replies);
      PostsTail(replies);
      var o := ProcessRow(s, rows[0], replies[0]);
      SuccessfulRowHasIds(s, rows[0], replies[0]);
      RowLeavesIdsFindable(s, rows[0], replies[0]);
      CsvKeepsFound(o.store, rows[1..], replies[1..], rows[0], o.clientId.value, o.projectId.value, o.activityId.value);
      FirstRunMakesAllFound(o.store, rows[1..], replies[1..]);
      CsvUnfold(s, rows, replies);
    }
  }

  lemma PostsTail(replies: seq<RowReplies>)
    requires |replies| > 0 && AllPostsAccepted(replies)
    ensures PostsAccepted(replies[0]) && AllPostsAccepted(replies[1..])
  {
    forall i | 0 <= i < |replies[1..]| ensures PostsAccepted(replies[1..][i]) {
      assert replies[1..][i] == replies[i + 1];
    }
  }

  /** Running the whole file a second time, after a first run whose listings
      and create calls all succeeded, creates nothing, changes nothing and
      only lists, provided the second run's listings succeed too. */
  lemma CsvIdempotent(s: Store, rows: seq<Row>, first: seq<RowReplies>, second: seq<RowReplies>)
    requires |first| == |rows| && |second| == |rows|
    requires AllListingsAccepted(first) && AllPostsAccepted(first)
    requires AllListingsAccepted(second)
    ensures var s1 := ProcessCsv(s, rows, first).store;
      && ProcessCsv(s1, rows, second).store == s1
      && OnlyListings(ProcessCsv(s1, rows, second).sent)
  {
    var s1 := ProcessCsv(s, rows, first).store;
    FirstRunMakesAllFound(s, rows, first);
    FoundRunChangesNothing(s1, rows, second);
  }
}
