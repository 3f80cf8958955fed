/** `load_data_kimai.py`: for each input row, find or create the client, then
    the project under that client, then the activity, threading ids forward.
    Every operation is a pure function from the server's store (and the
    status code of each reply) to the id it returns, the new store and the
    requests it sent. */
module Provisioning {
  import opened Wrappers
  import opened KimaiApi
  import Strings

  /** What a create-or-reuse call returns: the id (absent on failure), the
      server's store afterwards, and the requests sent in order. */
  datatype Outcome = Outcome(id: Option<Id>, store: Store, sent: seq<Request>)

  const Country := "FR"
  const Currency := "EUR"
  const Timezone := "Europe/Paris"

  function ListRequest(e: Endpoint): Request {
    Request(GET, e, NoPayload)
  }

  /** The payload `create_client` posts: fixed country, currency, timezone. */
  function NewCustomer(name: string): Payload {
    CustomerPayload(name, Country, Currency, Timezone, true)
  }

  /** The payload `create_project` posts: visible, with global activities. */
  function NewProject(name: string, customer: Option<Id>): Payload {
    ProjectPayload(name, customer, true, true)
  }

  function NewActivity(name: string, project: Option<Id>): Payload {
    ActivityPayload(name, project, true)
  }

  ghost predicate HasCustomer(s: Store, name: string) {
    exists i :: 0 <= i < |s.customers| && s.customers[i].name == name
  }

  /** `id` belongs to the last customer named `name` in the server's listing. */
  ghost predicate IsLastCustomer(s: Store, name: string, id: Id) {
    exists i :: 0 <= i < |s.customers| && s.customers[i].name == name && s.customers[i].id == id
      && forall j :: i < j < |s.customers| ==> s.customers[j].name != name
  }

  ghost predicate HasProject(s: Store, name: string, customer: Option<Id>) {
    exists i :: 0 <= i < |s.projects| && s.projects[i].name == name && s.projects[i].customer == customer
  }

  ghost predicate IsLastProject(s: Store, name: string, customer: Option<Id>, id: Id) {
    exists i :: 0 <= i < |s.projects| && s.projects[i].name == name
      && s.projects[i].customer == customer && s.projects[i].id == id
      && forall j :: i < j < |s.projects| ==>
           s.projects[j].name != name || s.projects[j].customer != customer
  }

  ghost predicate HasActivity(s: Store, name: string) {
    exists i :: 0 <= i < |s.activities| && s.activities[i].name == name
  }

  ghost predicate IsLastActivity(s: Store, name: string, id: Id) {
    exists i :: 0 <= i < |s.activities| && s.activities[i].name == name && s.activities[i].id == id
      && forall j :: i < j < |s.activities| ==> s.activities[j].name != name
  }

  /** Reading the name index of a listing: `name` is a key exactly when some
      listed record has that name, and it maps to the last such record. */
  lemma CustomerLookup(s: Store, name: string)
    ensures var m := ExistingObjects(CustomerList(s.customers));
      && (name in m <==> HasCustomer(s, name))
      && (name in m ==> IsLastCustomer(s, name, m[name]))
  {
    var es := NameIds(CustomerList(s.customers));
    assert |es| == |s.customers|;
    assert forall j :: 0 <= j < |es| ==> es[j] == (s.customers[j].name, s.customers[j].id);
    if HasCustomer(s, name) {
      var i := IndexLookup(es, name);
      assert s.customers[i].name == name;
    } else {
      IndexMiss(es, name);
    }
  }

  lemma ActivityLookup(s: Store, name: string)
    ensures var m := ExistingObjects(ActivityList(s.activities));
      && (name in m <==> HasActivity(s, name))
      && (name in m ==> IsLastActivity(s, name, m[name]))
  {
    var es := NameIds(ActivityList(s.activities));
    assert |es| == |s.activities|;
    assert forall j :: 0 <= j < |es| ==> es[j] == (s.activities[j].name, s.activities[j].id);
    if HasActivity(s, name) {
      var i := IndexLookup(es, name);
      assert s.activities[i].name == name;
    } else {
      IndexMiss(es, name);
    }
  }

  lemma ProjectLookup(s: Store, name: string, customer: Option<Id>)
    ensures var m := ExistingProjects(ProjectList(s.projects));
      && ((name, customer) in m <==> HasProject(s, name, customer))
      && ((name, customer) in m ==> IsLastProject(s, name, customer, m[(name, customer)]))
  {
    var es := ProjectKeyIds(s.projects);
    assert |es| == |s.projects|;
    assert forall j :: 0 <= j < |es| ==> es[j] == ((s.projects[j].name, s.projects[j].customer), s.projects[j].id);
    if HasProject(s, name, customer) {
      var i := IndexLookup(es, (name, customer));
      assert s.projects[i].name == name && s.projects[i].customer == customer;
    } else {
      IndexMiss(es, (name, customer));
    }
  }

  /** A failed listing reads as no records at all; listing changes nothing. */
  lemma ListedCustomers(s: Store, status: int)
    ensures var list := ApiRequest(s, ListRequest(Customers), status);
      && list.store == s
      && ExistingObjects(list.body)
         == if Accepted(status) then ExistingObjects(CustomerList(s.customers)) else map[]
  {
    if !Accepted(status) {
      assert NameIds(Empty) == [];
    }
  }

  lemma ListedProjects(s: Store, status: int)
    ensures var list := ApiRequest(s, ListRequest(Projects), status);
      && list.store == s
      && ExistingProjects(list.body)
         == if Accepted(status) then ExistingProjects(ProjectList(s.projects)) else map[]
  {
  }

  /** The creation half of `create_client`: one POST with the fixed defaults. */
  function PostCustomer(s: Store, name: string, status: int): (o: Outcome)
    ensures o.sent == [Request(POST, Customers, NewCustomer(name))]
    ensures o.store.projects == s.projects && o.store.activities == s.activities
    ensures Accepted(status) ==>
      && o.id.Some? && o.id.value as int !in CustomerIds(s.customers)
      && o.store.customers == s.customers + [Customer(o.id.value, name, Country, Currency, Timezone, true)]
    ensures !Accepted(status) ==> o.id == None && o.store == s
  {
    var post := Request(POST, Customers, NewCustomer(name));
    var created := ApiRequest(s, post, status);
    Outcome(IdOf(created.body), created.store, [post])
  }

  /** `create_client`: reuse the customer the listing names, otherwise post a
      new one with the fixed defaults. */
  function CreateClient(s: Store, name: string, listStatus: int, postStatus: int): (o: Outcome)
    ensures 1 <= |o.sent| <= 2 && o.sent[0] == ListRequest(Customers)
    ensures s.customers <= o.store.customers && |o.store.customers| <= |s.customers| + 1
    ensures o.store.projects == s.projects && o.store.activities == s.activities
    ensures Accepted(listStatus) && HasCustomer(s, name) ==>
      && o.store == s
      && o.sent == [ListRequest(Customers)]
      && o.id.Some? && IsLastCustomer(s, name, o.id.value)
    ensures !(Accepted(listStatus) && HasCustomer(s, name)) ==>
      && o.sent == [ListRequest(Customers), Request(POST, Customers, NewCustomer(name))]
      && (Accepted(postStatus) ==>
            && o.id.Some? && o.id.value as int !in CustomerIds(s.customers)
            && o.store.customers == s.customers
                 + [Customer(o.id.value, name, Country, Currency, Timezone, true)])
      && (!Accepted(postStatus) ==> o.id == None && o.store == s)
  {
    var list := ApiRequest(s, ListRequest(Customers), listStatus);
    var existing := ExistingObjects(list.body);
    ListedCustomers(s, listStatus);
    CustomerLookup(s, name);
    if name in existing then
      Outcome(Some(existing[name]), list.store, [ListRequest(Customers)])
    else
      var created := PostCustomer(list.store, name, postStatus);
      Outcome(created.id, created.store, [ListRequest(Customers)] + created.sent)
  }

  /** `update_project_number`: one PATCH; its reply is only printed. */
  function UpdateProjectNumber(s: Store, id: Id, number: string, status: int): (o: Outcome)
    ensures o.sent == [Request(PATCH, ProjectById(id), NumberPayload(number))]
    ensures o.store.customers == s.customers && o.store.activities == s.activities
    ensures |o.store.projects| == |s.projects|
    ensures forall i :: 0 <= i < |s.projects| ==>
      o.store.projects[i] ==
        if Accepted(status) && s.projects[i].id == id then s.projects[i].(number := Some(number))
        else s.projects[i]
  {
    var patch := Request(PATCH, ProjectById(id), NumberPayload(number));
    var reply := ApiRequest(s, patch, status);
    Outcome(IdOf(reply.body), reply.store, [patch])
  }

  /** The PATCH on a freshly created project touches that project alone. */
  lemma SetNumberOnLast(ps: seq<Project>, p: Project, number: string)
    requires p.id as int !in ProjectIds(ps)
    ensures SetNumber(ps + [p], p.id, number) == ps + [p.(number := Some(number))]
  {
    var r := SetNumber(ps + [p], p.id, number);
    forall i | 0 <= i < |ps|
      ensures r[i] == ps[i]
    {
      assert ProjectIds(ps)[i] == ps[i].id as int;
    }
  }

  /** Every project the requests post is under the given customer. */
  ghost predicate ProjectsPostedUnder(sent: seq<Request>, customer: Option<Id>) {
    forall i :: 0 <= i < |sent| && sent[i].payload.ProjectPayload? ==>
      sent[i].payload.customer == customer
  }

  lemma ProjectsPostedUnderConcat(a: seq<Request>, b: seq<Request>, customer: Option<Id>)
    requires ProjectsPostedUnder(a, customer) && ProjectsPostedUnder(b, customer)
    ensures ProjectsPostedUnder(a + b, customer)
  {
    forall i | 0 <= i < |a + b| && (a + b)[i].payload.ProjectPayload?
      ensures (a + b)[i].payload.customer == customer
    {
      if i >= |a| {
        assert (a + b)[i] == b[i - |a|];
      }
    }
  }

  /** The creation half of `create_project`: post the project, then PATCH
      its number when the post returned an id and the number is non-empty. */
  function PostProject(s: Store, name: string, customer: Option<Id>, number: string,
                       postStatus: int, patchStatus: int): (o: Outcome)
    ensures o.store.customers == s.customers && o.store.activities == s.activities
    ensures 1 <= |o.sent| <= 2 && o.sent[0] == Request(POST, Projects, NewProject(name, customer))
    ensures ProjectsPostedUnder(o.sent, customer)
    ensures Accepted(postStatus) ==>
      && o.id.Some? && o.id.value as int !in ProjectIds(s.projects)
      && o.store.projects == s.projects
           + [Project(o.id.value, name, customer, true, true,
                      if number != "" && Accepted(patchStatus) then Some(number) else None)]
      && o.sent[1..] == if number != "" then [Request(PATCH, ProjectById(o.id.value), NumberPayload(number))] else []
    ensures !Accepted(postStatus) ==> o.id == None && o.store == s && |o.sent| == 1
  {
    var post := Request(POST, Projects, NewProject(name, customer));
    var created := ApiRequest(s, post, postStatus);
    match IdOf(created.body)
    case None => Outcome(None, created.store, [post])
    case Some(id) =>
      if number != "" then
        var p := Project(id, name, customer, true, true, None);
        SetNumberOnLast(s.projects, p, number);
        var patched := UpdateProjectNumber(created.store, id, number, patchStatus);
        Outcome(Some(id), patched.store, [post] + patched.sent)
      else
        Outcome(Some(id), created.store, [post])
  }

  /** `create_project`: keyed on (name, customer id). A new project gets its
      number by a follow-up PATCH when the number is non-empty. */
  function CreateProject(s: Store, name: string, customer: Option<Id>, number: string,
                         listStatus: int, postStatus: int, patchStatus: int): (o: Outcome)
    ensures 1 <= |o.sent| <= 3 && o.sent[0] == ListRequest(Projects)
    ensures |s.projects| <= |o.store.projects| <= |s.projects| + 1
    ensures forall i :: 0 <= i < |s.projects| ==> o.store.projects[i] == s.projects[i]
    ensures ProjectsPostedUnder(o.sent, customer)
    ensures o.store.customers == s.customers && o.store.activities == s.activities
    ensures Accepted(listStatus) && HasProject(s, name, customer) ==>
      && o.store == s
      && o.sent == [ListRequest(Projects)]
      && o.id.Some? && IsLastProject(s, name, customer, o.id.value)
    ensures !(Accepted(listStatus) && HasProject(s, name, customer)) ==>
      var created := PostProject(s, name, customer, number, postStatus, patchStatus);
      o == Outcome(created.id, created.store, [ListRequest(Projects)] + created.sent)
  {
    var list := ApiRequest(s, ListRequest(Projects), listStatus);
    var existing := ExistingProjects(list.body);
    ListedProjects(s, listStatus);
    ProjectLookup(s, name, customer);
    if (name, customer) in existing then
      Outcome(Some(existing[(name, customer)]), list.store, [ListRequest(Projects)])
    else
      var created := PostProject(list.store, name, customer, number, postStatus, patchStatus);
      ProjectsPostedUnderConcat([ListRequest(Projects)], created.sent, customer);
      Outcome(created.id, created.store, [ListRequest(Projects)] + created.sent)
  }

  lemma ListedActivities(s: Store, status: int)
    ensures var list := ApiRequest(s, ListRequest(Activities), status);
      && list.store == s
      && ExistingObjects(list.body)
         == if Accepted(status) then ExistingObjects(ActivityList(s.activities)) else map[]
  {
    if !Accepted(status) {
      assert NameIds(Empty) == [];
    }
  }

  /** The creation half of `create_activity`: one POST, visible. */
  function PostActivity(s: Store, name: string, project: Option<Id>, status: int): (o: Outcome)
    ensures o.sent == [Request(POST, Activities, NewActivity(name, project))]
    ensures o.store.customers == s.customers && o.store.projects == s.projects
    ensures Accepted(status) ==>
      && o.id.Some? && o.id.value as int !in ActivityIds(s.activities)
      && o.store.activities == s.activities + [Activity(o.id.value, name, project, true)]
    ensures !Accepted(status) ==> o.id == None && o.store == s
  {
    var post := Request(POST, Activities, NewActivity(name, project));
    var created := ApiRequest(s, post, status);
    Outcome(IdOf(created.body), created.store, [post])
  }

  /** `create_activity`: keyed on the name alone. */
  function CreateActivity(s: Store, name: string, project: Option<Id>,
                          listStatus: int, postStatus: int): (o: Outcome)
    ensures 1 <= |o.sent| <= 2 && o.sent[0] == ListRequest(Activities)
    ensures s.activities <= o.store.activities && |o.store.activities| <= |s.activities| + 1
    ensures o.store.customers == s.customers && o.store.projects == s.projects
    ensures Accepted(listStatus) && HasActivity(s, name) ==>
      && o.store == s
      && o.sent == [ListRequest(Activities)]
      && o.id.Some? && IsLastActivity(s, name, o.id.value)
    ensures !(Accepted(listStatus) && HasActivity(s, name)) ==>
      && o.sent == [ListRequest(Activities), Request(POST, Activities, NewActivity(name, project))]
      && (Accepted(postStatus) ==>
            && o.id.Some? && o.id.value as int !in ActivityIds(s.activities)
            && o.store.activities == s.activities + [Activity(o.id.value, name, project, true)])
      && (!Accepted(postStatus) ==> o.id == None && o.store == s)
  {
    var list := ApiRequest(s, ListRequest(Activities), listStatus);
    var existing := ExistingObjects(list.body);
    ListedActivities(s, listStatus);
    ActivityLookup(s, name);
    if name in existing then
      Outcome(Some(existing[name]), list.store, [ListRequest(Activities)])
    else
      var created := PostActivity(list.store, name, project, postStatus);
      Outcome(created.id, created.store, [ListRequest(Activities)] + created.sent)
  }

  /** One line of the input file, by column. An absent PROJET_NUMBER is "". */
  datatype Row = Row(client: string, project: string, projectNumber: string, activity: string)

  /** The status code of each reply while a row is processed, in call order. */
  datatype RowReplies = RowReplies(listCustomers: int, postCustomer: int,
                                   listProjects: int, postProject: int, patchProject: int,
                                   listActivities: int, postActivity: int)

  datatype RowOutcome = RowOutcome(clientId: Option<Id>, projectId: Option<Id>,
                                   activityId: Option<Id>, store: Store, sent: seq<Request>)

  /** The row's project number: the PROJET_NUMBER column when non-empty,
      otherwise "PN-" + first three of the project + "-" + first three of the client. */
  function ProjectNumber(row: Row): (n: string)
    ensures n != ""
    ensures row.projectNumber != "" ==> n == row.projectNumber
    ensures row.projectNumber == "" ==>
      && Strings.StartsWith(n, "PN-")
      && 4 <= |n| <= 10
      && n == "PN-" + Strings.Take(row.project, 3) + "-" + Strings.Take(row.client, 3)
  {
    if row.projectNumber != "" then row.projectNumber
    else "PN-" + Strings.Take(row.project, 3) + "-" + Strings.Take(row.client, 3)
  }

  /** The body of `process_csv`'s loop: client, then project, then activity. */
  function ProcessRow(s: Store, row: Row, r: RowReplies): (o: RowOutcome)
    ensures 3 <= |o.sent| <= 7
    ensures o.sent[0] == ListRequest(Customers)
    ensures ListRequest(Projects) in o.sent && ListRequest(Activities) in o.sent
    ensures s.customers <= o.store.customers && |o.store.customers| <= |s.customers| + 1
    ensures s.activities <= o.store.activities && |o.store.activities| <= |s.activities| + 1
    ensures |s.projects| <= |o.store.projects| <= |s.projects| + 1
    ensures forall i :: 0 <= i < |s.projects| ==> o.store.projects[i] == s.projects[i]
  {
    var c := CreateClient(s, row.client, r.listCustomers, r.postCustomer);
    var p := CreateProject(c.store, row.project, c.id, ProjectNumber(row),
                           r.listProjects, r.postProject, r.patchProject);
    var a := CreateActivity(p.store, row.activity, p.id, r.listActivities, r.postActivity);
    assert (c.sent + p.sent + a.sent)[|c.sent|] == ListRequest(Projects);
    assert (c.sent + p.sent + a.sent)[|c.sent| + |p.sent|] == ListRequest(Activities);
    RowOutcome(c.id, p.id, a.id, a.store, c.sent + p.sent + a.sent)
  }

  /** A request carries the ids a row threads forward: a project is posted
      under `client`, an activity under `project`, and a PATCH sets `number`
      on `project`. */
  predicate ThreadedRequest(r: Request, client: Option<Id>, project: Option<Id>, number: string) {
    && (r.payload.ProjectPayload? ==> r.payload.customer == client)
    && (r.payload.ActivityPayload? ==> r.payload.project == project)
    && (r.verb == PATCH ==>
          project.Some? && r.endpoint == ProjectById(project.value) && r.payload == NumberPayload(number))
  }

  ghost predicate Threaded(sent: seq<Request>, client: Option<Id>, project: Option<Id>, number: string) {
    forall i :: 0 <= i < |sent| ==> ThreadedRequest(sent[i], client, project, number)
  }

  lemma ThreadedConcat(a: seq<Request>, b: seq<Request>, client: Option<Id>, project: Option<Id>, number: string)
    requires Threaded(a, client, project, number) && Threaded(b, client, project, number)
    ensures Threaded(a + b, client, project, number)
  {
    forall i | 0 <= i < |a + b| ensures ThreadedRequest((a + b)[i], client, project, number) {
      if i >= |a| {
        assert (a + b)[i] == b[i - |a|];
      }
    }
  }

  datatype Run = Run(store: Store, sent: seq<Request>)

  /** `process_csv`: the rows in file order, each against the store the
      previous one left. `replies[i]` holds the status codes of row i. */
  function ProcessCsv(s: Store, rows: seq<Row>, replies: seq<RowReplies>): (run: Run)
    requires |replies| == |rows|
    ensures 3 * |rows| <= |run.sent| <= 7 * |rows|
    ensures s.customers <= run.store.customers && |run.store.customers| <= |s.customers| + |rows|
    ensures s.activities <= run.store.activities && |run.store.activities| <= |s.activities| + |rows|
    ensures |s.projects| <= |run.store.projects| <= |s.projects| + |rows|
    ensures forall i :: 0 <= i < |s.projects| ==> run.store.projects[i] == s.projects[i]
    decreases |rows|
  {
    if |rows| == 0 then Run(s, [])
    else
      var o := ProcessRow(s, rows[0], replies[0]);
      var rest := ProcessCsv(o.store, rows[1..], replies[1..]);
      Run(rest.store, o.sent + rest.sent)
  }
}
