/** The remote Kimai server as seen by `load_data_kimai.py`: three tables of
    records, the requests the script sends, and `api_request`'s reading of a
    reply. HTTP transport, headers and configuration are not modelled; the
    status code of every reply is a parameter. */
module KimaiApi {
  import opened Wrappers

  /** Kimai numbers its records from 1, so a present id is always truthy in
      Python and `if client_id:` tests presence. */
  type Id = i: int | i > 0 witness 1

  datatype Customer = Customer(id: Id, name: string, country: string, currency: string,
                               timezone: string, visible: bool)
  datatype Project = Project(id: Id, name: string, customer: Option<Id>, visible: bool,
                             globalActivities: bool, number: Option<string>)
  datatype Activity = Activity(id: Id, name: string, project: Option<Id>, visible: bool)

  /** The server's tables, in the order its list endpoints return them. */
  datatype Store = Store(customers: seq<Customer>, projects: seq<Project>, activities: seq<Activity>)

  datatype Verb = GET | POST | PATCH
  datatype Endpoint = Customers | Projects | ProjectById(id: Id) | Activities
  datatype Payload =
    | NoPayload
    | CustomerPayload(name: string, country: string, currency: string, timezone: string, visible: bool)
    | ProjectPayload(name: string, customer: Option<Id>, visible: bool, globalActivities: bool)
    | NumberPayload(number: string)
    | ActivityPayload(name: string, project: Option<Id>, visible: bool)
  datatype Request = Request(verb: Verb, endpoint: Endpoint, payload: Payload)

  /** A decoded reply body. `Empty` is the `{}` that `api_request` returns on
      failure; `Object` is a created or updated record, of which only the id
      is ever read. */
  datatype Body =
    | Empty
    | CustomerList(customers: seq<Customer>)
    | ProjectList(projects: seq<Project>)
    | ActivityList(activities: seq<Activity>)
    | Object(id: Id)

  datatype Response = Response(body: Body, store: Store)

  /** `api_request`'s success test: only 200 and 201 count as success. */
  predicate Accepted(status: int) {
    status == 200 || status == 201
  }

  /** The requests `load_data_kimai.py` sends: list, create, or set a number. */
  predicate WellFormed(r: Request) {
    match r.verb
    case GET => r.payload.NoPayload? && !r.endpoint.ProjectById?
    case POST =>
      || (r.endpoint.Customers? && r.payload.CustomerPayload?)
      || (r.endpoint.Projects? && r.payload.ProjectPayload?)
      || (r.endpoint.Activities? && r.payload.ActivityPayload?)
    case PATCH => r.endpoint.ProjectById? && r.payload.NumberPayload?
  }

  function CustomerIds(cs: seq<Customer>): seq<int> {
    seq(|cs|, i requires 0 <= i < |cs| => cs[i].id as int)
  }
  function ProjectIds(ps: seq<Project>): seq<int> {
    seq(|ps|, i requires 0 <= i < |ps| => ps[i].id as int)
  }
  function ActivityIds(as_: seq<Activity>): seq<int> {
    seq(|as_|, i requires 0 <= i < |as_| => as_[i].id as int)
  }

  /** The id the server gives a new record: one past every id in its table. */
  function FreshId(ids: seq<int>): (r: Id)
    ensures forall i :: 0 <= i < |ids| ==> ids[i] < r
  {
    if |ids| == 0 then 1
    else
      var rest := FreshId(ids[..|ids| - 1]);
      var last := ids[|ids| - 1];
      if last < rest then rest else last + 1
  }

  /** PATCH `projects/{id}` with a number: that project's number is set. */
  function SetNumber(ps: seq<Project>, id: Id, number: string): (r: seq<Project>)
    ensures |r| == |ps|
    ensures forall i :: 0 <= i < |ps| ==>
      r[i] == if ps[i].id == id then ps[i].(number := Some(number)) else ps[i]
  {
    seq(|ps|, i requires 0 <= i < |ps| =>
      if ps[i].id == id then ps[i].(number := Some(number)) else ps[i])
  }

  /** What the server does with a request it accepts. */
  function Serve(s: Store, r: Request): Response {
    match (r.verb, r.endpoint, r.payload)
    case (GET, Customers, _) => Response(CustomerList(s.customers), s)
    case (GET, Projects, _) => Response(ProjectList(s.projects), s)
    case (GET, Activities, _) => Response(ActivityList(s.activities), s)
    case (POST, Customers, CustomerPayload(name, country, currency, timezone, visible)) =>
      var id := FreshId(CustomerIds(s.customers));
      Response(Object(id),
        s.(customers := s.customers + [Customer(id, name, country, currency, timezone, visible)]))
    case (POST, Projects, ProjectPayload(name, customer, visible, global)) =>
      var id := FreshId(ProjectIds(s.projects));
      Response(Object(id),
        s.(projects := s.projects + [Project(id, name, customer, visible, global, None)]))
    case (POST, Activities, ActivityPayload(name, project, visible)) =>
      var id := FreshId(ActivityIds(s.activities));
      Response(Object(id),
        s.(activities := s.activities + [Activity(id, name, project, visible)]))
    case (PATCH, ProjectById(id), NumberPayload(number)) =>
      Response(Object(id), s.(projects := SetNumber(s.projects, id, number)))
    case _ => Response(Empty, s)
  }

  /** `api_request`: the reply body on status 200 or 201, otherwise `{}`.
      A rejected request is taken to leave the server unchanged. */
  function ApiRequest(s: Store, r: Request, status: int): (resp: Response)
    ensures !Accepted(status) ==> resp == Response(Empty, s)
    ensures WellFormed(r) ==> (resp.body.Empty? <==> !Accepted(status))
    ensures Accepted(status) && r.verb == GET ==> resp.store == s
  {
    if Accepted(status) then Serve(s, r) else Response(Empty, s)
  }

  /** `.get("id")` on a reply body: present only for a created or updated object. */
  function IdOf(b: Body): Option<Id> {
    match b
    case Object(id) => Some(id)
    case _ => None
  }

  lemma FailedCallHasNoId(s: Store, r: Request, status: int)
    requires !Accepted(status)
    ensures IdOf(ApiRequest(s, r, status).body) == None
  {
  }

  /** Python's `{k: v for (k, v) in entries}`: a later entry overwrites an
      earlier one with the same key. */
  function Index<K>(entries: seq<(K, Id)>): (m: map<K, Id>)
    ensures m.Keys == set i | 0 <= i < |entries| :: entries[i].0
    ensures forall i :: 0 <= i < |entries| && LastWith(entries, i) ==> m[entries[i].0] == entries[i].1
  {
    if |entries| == 0 then map[]
    else
      var init := entries[..|entries| - 1];
      var last := entries[|entries| - 1];
      var m := Index(init);
      assert forall i :: 0 <= i < |init| ==> init[i] == entries[i];
      assert forall i :: 0 <= i < |entries| - 1 && LastWith(entries, i) ==> LastWith(init, i);
      m[last.0 := last.1]
  }

  /** No entry after position `i` has the same key. */
  ghost predicate LastWith<K>(entries: seq<(K, Id)>, i: int)
    requires 0 <= i < |entries|
  {
    forall j :: i < j < |entries| ==> entries[j].0 != entries[i].0
  }

  /** Every key of a listing has a last occurrence. */
  lemma {:induction false} LastOccurrence<K>(entries: seq<(K, Id)>, k: K) returns (i: int)
    requires exists j :: 0 <= j < |entries| && entries[j].0 == k
    ensures 0 <= i < |entries| && entries[i].0 == k && LastWith(entries, i)
  {
    var n := |entries| - 1;
    if entries[n].0 == k {
      i := n;
    } else {
      var init := entries[..n];
      assert forall j :: 0 <= j < n ==> init[j] == entries[j];
      var w :| 0 <= w < |entries| && entries[w].0 == k;
      assert init[w].0 == k;
      i := LastOccurrence(init, k);
    }
  }

  /** Reading an index: a key is present exactly when some entry carries it,
      and it maps to the id of its last entry. */
  lemma IndexLookup<K>(entries: seq<(K, Id)>, k: K) returns (i: int)
    requires exists j :: 0 <= j < |entries| && entries[j].0 == k
    ensures 0 <= i < |entries| && entries[i].0 == k && LastWith(entries, i)
    ensures k in Index(entries) && Index(entries)[k] == entries[i].1
  {
    i := LastOccurrence(entries, k);
  }

  lemma IndexMiss<K>(entries: seq<(K, Id)>, k: K)
    requires forall j :: 0 <= j < |entries| ==> entries[j].0 != k
    ensures k !in Index(entries)
  {
  }

  function NameIds(b: Body): seq<(string, Id)> {
    match b
    case CustomerList(cs) => seq(|cs|, i requires 0 <= i < |cs| => (cs[i].name, cs[i].id))
    case ActivityList(as_) => seq(|as_|, i requires 0 <= i < |as_| => (as_[i].name, as_[i].id))
    case _ => []
  }

  /** `get_existing_objects`: name to id over a listing; `{}` gives nothing. */
  function ExistingObjects(b: Body): map<string, Id> {
    Index(NameIds(b))
  }

  function ProjectKeyIds(ps: seq<Project>): seq<((string, Option<Id>), Id)> {
    seq(|ps|, i requires 0 <= i < |ps| => ((ps[i].name, ps[i].customer), ps[i].id))
  }

  /** `get_existing_projects`: (name, customer id) to id; `{}` gives nothing. */
  function ExistingProjects(b: Body): map<(string, Option<Id>), Id> {
    match b
    case ProjectList(ps) => Index(ProjectKeyIds(ps))
    case _ => map[]
  }
}
