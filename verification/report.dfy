/** The reporting half of `test_list_activity.py`: `display_data`'s ordering
    and the main path that skips everything when no entries came back.
    Console formatting (hours with two decimals) is not modelled; a line
    carries the customer and its total seconds. */
module Report {
  import opened Wrappers
  import Strings
  import opened Timesheets
  import TimesheetProperties

  /** One printed day: its date and, per customer, the total seconds. */
  datatype DateGroup = DateGroup(date: string, lines: seq<(string, int)>)

  /** What the script shows, and which projects it looked up to get there. */
  datatype Output = Output(groups: seq<DateGroup>, fetched: seq<ProjectId>)

  /** The outer dictionary's keys: the days, in first-insertion order. */
  function Dates(bs: seq<Bucket>): (ds: seq<string>)
    ensures Strings.Distinct(ds)
    ensures forall d :: d in ds <==> exists i :: 0 <= i < |bs| && bs[i].date == d
  {
    if |bs| == 0 then []
    else
      var init := bs[..|bs| - 1];
      assert forall i :: 0 <= i < |init| ==> init[i] == bs[i];
      var ds := Dates(init);
      var d := bs[|bs| - 1].date;
      if d in ds then ds else ds + [d]
  }

  /** One day's inner dictionary: its customers and seconds, in insertion order. */
  function LinesOn(bs: seq<Bucket>, date: string): seq<(string, int)> {
    if |bs| == 0 then []
    else (if bs[0].date == date then [(bs[0].customer, bs[0].seconds)] else [])
         + LinesOn(bs[1..], date)
  }

  /** `display_data`: `sorted(data.items())`, then each day's customers. */
  function DisplayData(bs: seq<Bucket>): seq<DateGroup> {
    var ds := Strings.Sort(Dates(bs));
    seq(|ds|, i requires 0 <= i < |ds| => DateGroup(ds[i], LinesOn(bs, ds[i])))
  }

  /** The `__main__` path: nothing is processed when no entries came back. */
  function ListActivity(status: int, body: seq<Entry>, details: ProjectId -> DetailReply): Result<Output, Crash> {
    var sheets := GetTimesheets(status, body);
    if |sheets| == 0 then Success(Output([], []))
    else match ProcessData(sheets, details)
      case Failure(c) => Failure(c)
      case Success(t) => Success(Output(DisplayData(t.buckets), t.fetched))
  }

  lemma {:induction false} LinesOnContents(bs: seq<Bucket>, date: string, line: (string, int))
    ensures line in LinesOn(bs, date)
        <==> exists i :: 0 <= i < |bs| && bs[i].date == date && (bs[i].customer, bs[i].seconds) == line
  {
    if |bs| > 0 {
      LinesOnContents(bs[1..], date, line);
      assert forall i :: 0 < i < |bs| ==> bs[i] == bs[1..][i - 1];
      if exists i :: 0 <= i < |bs[1..]| && bs[1..][i].date == date && (bs[1..][i].customer, bs[1..][i].seconds) == line {
        var i :| 0 <= i < |bs[1..]| && bs[1..][i].date == date && (bs[1..][i].customer, bs[1..][i].seconds) == line;
        assert bs[i + 1] == bs[1..][i];
      }
    }
  }

  lemma DisplayShape(bs: seq<Bucket>)
    ensures var ds := Strings.Sort(Dates(bs));
      && |DisplayData(bs)| == |ds|
      && forall i :: 0 <= i < |ds| ==> DisplayData(bs)[i] == DateGroup(ds[i], LinesOn(bs, ds[i]))
  {
  }

  /** Days are shown in strictly ascending order, hence each day once. */
  lemma DisplayAscending(bs: seq<Bucket>)
    ensures var gs := DisplayData(bs);
      forall i, j :: 0 <= i < j < |gs| ==> Strings.Less(gs[i].date, gs[j].date)
  {
    DisplayShape(bs);
  }

  /** A shown day has buckets. */
  lemma ShownDayHasBuckets(bs: seq<Bucket>, i: int) returns (k: int)
    requires 0 <= i < |DisplayData(bs)|
    ensures 0 <= k < |bs| && bs[k].date == DisplayData(bs)[i].date
  {
    var ds := Strings.Sort(Dates(bs));
    DisplayShape(bs);
    assert ds[i] in Dates(bs);
    k :| 0 <= k < |bs| && bs[k].date == ds[i];
  }

  /** A bucket is shown under its own day. */
  lemma BucketIsShown(bs: seq<Bucket>, k: int) returns (i: int)
    requires 0 <= k < |bs|
    ensures 0 <= i < |DisplayData(bs)| && DisplayData(bs)[i].date == bs[k].date
    ensures (bs[k].customer, bs[k].seconds) in DisplayData(bs)[i].lines
  {
    var ds := Strings.Sort(Dates(bs));
    DisplayShape(bs);
    assert bs[k].date in Dates(bs);
    i :| 0 <= i < |ds| && ds[i] == bs[k].date;
    LinesOnContents(bs, ds[i], (bs[k].customer, bs[k].seconds));
  }

  /** Only days that have buckets are shown. */
  lemma DisplayDaysHaveBuckets(bs: seq<Bucket>)
    ensures var gs := DisplayData(bs);
      forall i :: 0 <= i < |gs| ==> exists k :: 0 <= k < |bs| && bs[k].date == gs[i].date
  {
    var gs := DisplayData(bs);
    forall i | 0 <= i < |gs| ensures exists k :: 0 <= k < |bs| && bs[k].date == gs[i].date {
      var k := ShownDayHasBuckets(bs, i);
    }
  }

  /** Every bucket is shown under its own day. */
  lemma DisplayShowsEveryBucket(bs: seq<Bucket>)
    ensures var gs := DisplayData(bs);
      forall k :: 0 <= k < |bs| ==>
        exists i :: (0 <= i < |gs| && gs[i].date == bs[k].date && (bs[k].customer, bs[k].seconds) in gs[i].lines)
  {
    var gs := DisplayData(bs);
    forall k | 0 <= k < |bs|
      ensures exists i :: (0 <= i < |gs| && gs[i].date == bs[k].date && (bs[k].customer, bs[k].seconds) in gs[i].lines)
    {
      var i := BucketIsShown(bs, k);
    }
  }

  /** Every line shown comes from a bucket of that day. */
  lemma DisplayLinesFromBuckets(bs: seq<Bucket>)
    ensures var gs := DisplayData(bs);
      forall i, line :: 0 <= i < |gs| && line in gs[i].lines ==>
        exists k :: 0 <= k < |bs| && bs[k].date == gs[i].date && (bs[k].customer, bs[k].seconds) == line
  {
    var gs := DisplayData(bs);
    var ds := Strings.Sort(Dates(bs));
    DisplayShape(bs);
    forall i, line | 0 <= i < |gs| && line in gs[i].lines
      ensures exists k :: 0 <= k < |bs| && bs[k].date == gs[i].date && (bs[k].customer, bs[k].seconds) == line
    {
      LinesOnContents(bs, ds[i], line);
    }
  }

  /** When the timesheet request fails, nothing is looked up or shown. */
  lemma FailedFetchShowsNothing(status: int, body: seq<Entry>, details: ProjectId -> DetailReply)
    requires status != 200
    ensures ListActivity(status, body, details) == Success(Output([], []))
  {
  }

  /** With entries to show, the script succeeds exactly when every project's
      customer is hashable; it then looks each project up once and shows
      each day's totals in ascending day order. */
  lemma ListActivityOutcome(status: int, body: seq<Entry>, details: ProjectId -> DetailReply)
    requires status == 200 && |body| > 0
    ensures ListActivity(status, body, details).Success?
        <==> forall i :: 0 <= i < |body| ==> CustomerOf(details, body[i].project).Named?
    ensures ListActivity(status, body, details).Success? ==>
      var out := ListActivity(status, body, details).value;
      && Strings.Distinct(out.fetched)
      && (forall i :: 0 <= i < |out.fetched| ==> out.fetched[i] in Projects(body))
      && (forall i :: 0 <= i < |body| ==> body[i].project in out.fetched)
      && (forall i, j :: 0 <= i < j < |out.groups| ==> Strings.Less(out.groups[i].date, out.groups[j].date))
  {
    TimesheetProperties.ProcessDataFailsIff(body, details);
    if ProcessData(body, details).Success? {
      TimesheetProperties.ProcessDataFetchesOnce(body, details);
      DisplayAscending(ProcessData(body, details).value.buckets);
    }
  }
}
