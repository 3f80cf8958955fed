/** `test_list_activity.py`: fetch the timesheet entries, group them by day
    and customer, and sum their durations. Durations are whole seconds here,
    so totals are exact; the script's float hours are not modelled. */
module Timesheets {
  import opened Wrappers
  import Strings

  type ProjectId = int

  /** One timesheet entry: `begin` is an ISO date-time, `duration` seconds. */
  datatype Entry = Entry(begin: string, project: ProjectId, duration: int)

  /** The reply to `GET projects/{id}`: its status and the `parentTitle`
      field of its body, if any. */
  datatype DetailReply = DetailReply(status: int, parentTitle: Option<string>)

  /** What `get_project_details` returns: a customer name, or the empty
      object `{}` that `.get("parentTitle", {})` yields when the field is missing. */
  datatype Customer = Named(name: string) | EmptyObject

  /** The customer key a failed project lookup produces. */
  const UnknownClient := "Client inconnu"

  /** `get_timesheets`: the entries on status 200, otherwise none. */
  function GetTimesheets(status: int, body: seq<Entry>): seq<Entry> {
    if status == 200 then body else []
  }

  /** `get_project_details`. */
  function ProjectDetails(reply: DetailReply): Customer {
    if reply.status != 200 then Named(UnknownClient)
    else match reply.parentTitle
      case Some(title) => Named(title)
      case None => EmptyObject
  }

  /** The customer of a project, as the (deterministic) server reports it. */
  function CustomerOf(details: ProjectId -> DetailReply, p: ProjectId): Customer {
    ProjectDetails(details(p))
  }

  /** The day of an entry: `begin.split("T")[0]`. */
  function DateKey(begin: string): string {
    Strings.Before(begin, 'T')
  }

  /** One cell of the nested `data[date][customer]` table. Buckets are kept
      in the order their (date, customer) key was first added. */
  datatype Bucket = Bucket(date: string, customer: string, seconds: int)

  /** The aggregation state: the buckets, the project cache, and the
      project ids whose details were fetched, in fetch order. */
  datatype Tally = Tally(buckets: seq<Bucket>, cache: map<ProjectId, Customer>, fetched: seq<ProjectId>)

  /** `data[date][customer] += d` on a default-zero table. A `{}` customer
      cannot be a dictionary key: Python raises `TypeError` there. */
  datatype Crash = Unhashable(project: ProjectId)

  /** Adds `d` seconds to the bucket of (date, customer), appending a new
      bucket when the key is new. */
  function AddTo(bs: seq<Bucket>, date: string, customer: string, d: int): seq<Bucket> {
    if |bs| == 0 then [Bucket(date, customer, d)]
    else if bs[0].date == date && bs[0].customer == customer then
      [bs[0].(seconds := bs[0].seconds + d)] + bs[1..]
    else [bs[0]] + AddTo(bs[1..], date, customer, d)
  }

  /** One iteration of `process_data`'s loop. */
  function Step(t: Tally, e: Entry, details: ProjectId -> DetailReply): Result<Tally, Crash> {
    var date := DateKey(e.begin);
    var cache := if e.project in t.cache then t.cache
                 else t.cache[e.project := CustomerOf(details, e.project)];
    var fetched := if e.project in t.cache then t.fetched else t.fetched + [e.project];
    match cache[e.project]
    case EmptyObject => Failure(Unhashable(e.project))
    case Named(customer) => Success(Tally(AddTo(t.buckets, date, customer, e.duration), cache, fetched))
  }

  /** `process_data`: the entries in order, starting from an empty table. */
  function ProcessData(es: seq<Entry>, details: ProjectId -> DetailReply): Result<Tally, Crash>
    decreases |es|
  {
    if |es| == 0 then Success(Tally([], map[], []))
    else match ProcessData(es[..|es| - 1], details)
      case Failure(c) => Failure(c)
      case Success(t) => Step(t, es[|es| - 1], details)
  }

  // ---- Reference definitions the aggregation is proved against ----

  /** Total seconds of the buckets with key (date, customer). */
  function Amount(bs: seq<Bucket>, date: string, customer: string): int {
    if |bs| == 0 then 0
    else (if bs[0].date == date && bs[0].customer == customer then bs[0].seconds else 0)
         + Amount(bs[1..], date, customer)
  }

  function SumSeconds(bs: seq<Bucket>): int {
    if |bs| == 0 then 0 else bs[0].seconds + SumSeconds(bs[1..])
  }

  /** Total duration of the entries of that day whose project belongs to the customer. */
  function Total(es: seq<Entry>, details: ProjectId -> DetailReply, date: string, customer: string): int
    decreases |es|
  {
    if |es| == 0 then 0
    else
      var e := es[|es| - 1];
      Total(es[..|es| - 1], details, date, customer)
      + (if DateKey(e.begin) == date && CustomerOf(details, e.project) == Named(customer)
         then e.duration else 0)
  }

  function SumDurations(es: seq<Entry>): int
    decreases |es|
  {
    if |es| == 0 then 0 else SumDurations(es[..|es| - 1]) + es[|es| - 1].duration
  }

  function BucketKeys(bs: seq<Bucket>): set<(string, string)> {
    set i | 0 <= i < |bs| :: (bs[i].date, bs[i].customer)
  }

  /** The (day, customer) pairs the entries give rise to. */
  function EntryKeys(es: seq<Entry>, details: ProjectId -> DetailReply): set<(string, string)> {
    set i | 0 <= i < |es| && CustomerOf(details, es[i].project).Named?
      :: (DateKey(es[i].begin), CustomerOf(details, es[i].project).name)
  }

  function Projects(es: seq<Entry>): set<ProjectId> {
    set i | 0 <= i < |es| :: es[i].project
  }

  ghost predicate KeysDistinct(bs: seq<Bucket>) {
    forall i, j :: 0 <= i < j < |bs| ==>
      bs[i].date != bs[j].date || bs[i].customer != bs[j].customer
  }

  /** The cache and fetch log `process_data` maintains after processing `es`. */
  ghost predicate CacheValid(t: Tally, es: seq<Entry>, details: ProjectId -> DetailReply) {
    && (forall p :: p in t.cache ==> t.cache[p] == CustomerOf(details, p))
    && t.cache.Keys == Projects(es)
    && Strings.Distinct(t.fetched)
    && (forall i :: 0 <= i < |t.fetched| ==> t.fetched[i] in t.cache)
    && (forall p :: p in t.cache ==> p in t.fetched)
  }

  /** The buckets `process_data` maintains after processing `es`. */
  ghost predicate BucketsValid(bs: seq<Bucket>, es: seq<Entry>, details: ProjectId -> DetailReply) {
    && KeysDistinct(bs)
    && (forall d, c :: Amount(bs, d, c) == Total(es, details, d, c))
    && BucketKeys(bs) == EntryKeys(es, details)
    && SumSeconds(bs) == SumDurations(es)
  }

  ghost predicate Valid(t: Tally, es: seq<Entry>, details: ProjectId -> DetailReply) {
    CacheValid(t, es, details) && BucketsValid(t.buckets, es, details)
  }
}
