/** What `process_data` computes: every entry's duration lands in exactly
    one (day, customer) bucket, buckets exist only for pairs the entries
    give rise to, and each project's details are fetched once. */
module TimesheetProperties {
  import opened Wrappers
  import Strings
  import opened Timesheets

  lemma {:induction false} AddToAmount(bs: seq<Bucket>, date: string, customer: string, x: int,
                                       d: string, c: string)
    ensures Amount(AddTo(bs, date, customer, x), d, c)
         == Amount(bs, d, c) + (if d == date && c == customer then x else 0)
  {
    if |bs| > 0 && !(bs[0].date == date && bs[0].customer == customer) {
      AddToAmount(bs[1..], date, customer, x, d, c);
      assert AddTo(bs, date, customer, x)[1..] == AddTo(bs[1..], date, customer, x);
    } else if |bs| > 0 {
      assert AddTo(bs, date, customer, x)[1..] == bs[1..];
    }
  }

  lemma {:induction false} AddToSum(bs: seq<Bucket>, date: string, customer: string, x: int)
    ensures SumSeconds(AddTo(bs, date, customer, x)) == SumSeconds(bs) + x
  {
    if |bs| > 0 && !(bs[0].date == date && bs[0].customer == customer) {
      AddToSum(bs[1..], date, customer, x);
      assert AddTo(bs, date, customer, x)[1..] == AddTo(bs[1..], date, customer, x);
    } else if |bs| > 0 {
      assert AddTo(bs, date, customer, x)[1..] == bs[1..];
    }
  }

  /** AddTo keeps every bucket's key and position, and appends at most one. */
  lemma {:induction false} AddToShape(bs: seq<Bucket>, date: string, customer: string, x: int)
    ensures var r := AddTo(bs, date, customer, x);
      && |bs| <= |r| <= |bs| + 1
      && (forall i :: 0 <= i < |bs| ==> r[i].date == bs[i].date && r[i].customer == bs[i].customer)
      && (|r| == |bs| + 1 <==> (date, customer) !in BucketKeys(bs))
      && (|r| == |bs| + 1 ==> r[|bs|] == Bucket(date, customer, x))
  {
    var r := AddTo(bs, date, customer, x);
    if |bs| > 0 && !(bs[0].date == date && bs[0].customer == customer) {
      AddToShape(bs[1..], date, customer, x);
      assert r[1..] == AddTo(bs[1..], date, customer, x);
      assert forall i :: 0 < i < |bs| ==> bs[i] == bs[1..][i - 1];
      assert BucketKeys(bs) == BucketKeys(bs[1..]) + {(bs[0].date, bs[0].customer)} by {
        forall k | k in BucketKeys(bs) ensures k in BucketKeys(bs[1..]) + {(bs[0].date, bs[0].customer)} {
          var i :| 0 <= i < |bs| && k == (bs[i].date, bs[i].customer);
          if i > 0 {
            assert k == (bs[1..][i - 1].date, bs[1..][i - 1].customer);
          }
        }
        forall k | k in BucketKeys(bs[1..]) ensures k in BucketKeys(bs) {
          var i :| 0 <= i < |bs[1..]| && k == (bs[1..][i].date, bs[1..][i].customer);
          assert k == (bs[i + 1].date, bs[i + 1].customer);
        }
      }
    } else if |bs| > 0 {
      assert (bs[0].date, bs[0].customer) in BucketKeys(bs);
    }
  }

  lemma AddToKeys(bs: seq<Bucket>, date: string, customer: string, x: int)
    ensures BucketKeys(AddTo(bs, date, customer, x)) == BucketKeys(bs) + {(date, customer)}
    ensures KeysDistinct(bs) ==> KeysDistinct(AddTo(bs, date, customer, x))
  {
    var r := AddTo(bs, date, customer, x);
    AddToShape(bs, date, customer, x);
    forall k | k in BucketKeys(r) ensures k in BucketKeys(bs) + {(date, customer)} {
      var i :| 0 <= i < |r| && k == (r[i].date, r[i].customer);
      if i < |bs| {
        assert k == (bs[i].date, bs[i].customer);
      }
    }
    forall k | k in BucketKeys(bs) + {(date, customer)} ensures k in BucketKeys(r) {
      if k in BucketKeys(bs) {
        var i :| 0 <= i < |bs| && k == (bs[i].date, bs[i].customer);
        assert k == (r[i].date, r[i].customer);
      } else {
        assert k == (r[|bs|].date, r[|bs|].customer);
      }
    }
    if KeysDistinct(bs) && |r| == |bs| + 1 {
      forall i | 0 <= i < |bs|
        ensures r[i].date != r[|bs|].date || r[i].customer != r[|bs|].customer
      {
        assert (bs[i].date, bs[i].customer) in BucketKeys(bs);
      }
    }
  }

  /** With distinct keys, a bucket's seconds are the whole amount of its key. */
  lemma {:induction false} AmountOfDistinct(bs: seq<Bucket>, i: int)
    requires KeysDistinct(bs) && 0 <= i < |bs|
    ensures Amount(bs, bs[i].date, bs[i].customer) == bs[i].seconds
  {
    if i == 0 {
      AmountAbsent(bs[1..], bs[0].date, bs[0].customer);
    } else {
      assert bs[1..][i - 1] == bs[i];
      AmountOfDistinct(bs[1..], i - 1);
    }
  }

  lemma {:induction false} AmountAbsent(bs: seq<Bucket>, d: string, c: string)
    requires forall j :: 0 <= j < |bs| ==> bs[j].date != d || bs[j].customer != c
    ensures Amount(bs, d, c) == 0
  {
    if |bs| > 0 {
      assert forall j :: 0 <= j < |bs[1..]| ==> bs[1..][j] == bs[j + 1];
      AmountAbsent(bs[1..], d, c);
    }
  }

  lemma EntryKeysSnoc(es: seq<Entry>, e: Entry, details: ProjectId -> DetailReply)
    requires CustomerOf(details, e.project).Named?
    ensures EntryKeys(es + [e], details)
         == EntryKeys(es, details) + {(DateKey(e.begin), CustomerOf(details, e.project).name)}
    ensures Projects(es + [e]) == Projects(es) + {e.project}
  {
    var es' := es + [e];
    assert forall i :: 0 <= i < |es| ==> es'[i] == es[i];
    assert es'[|es|] == e;
    var lhs := EntryKeys(es', details);
    var rhs := EntryKeys(es, details) + {(DateKey(e.begin), CustomerOf(details, e.project).name)};
    forall k | k in lhs ensures k in rhs {
      var i :| 0 <= i < |es'| && CustomerOf(details, es'[i].project).Named?
        && k == (DateKey(es'[i].begin), CustomerOf(details, es'[i].project).name);
      if i < |es| {
        assert k in EntryKeys(es, details);
      }
    }
    forall k | k in rhs ensures k in lhs {
      if k in EntryKeys(es, details) {
        var i :| 0 <= i < |es| && CustomerOf(details, es[i].project).Named?
          && k == (DateKey(es[i].begin), CustomerOf(details, es[i].project).name);
        assert es'[i] == es[i];
      } else {
        assert k == (DateKey(es'[|es|].begin), CustomerOf(details, es'[|es|].project).name);
      }
    }
    ProjectsSnoc(es, e);
  }

  lemma ProjectsSnoc(es: seq<Entry>, e: Entry)
    ensures Projects(es + [e]) == Projects(es) + {e.project}
  {
    var es' := es + [e];
    forall p | p in Projects(es') ensures p in Projects(es) + {e.project} {
      var i :| 0 <= i < |es'| && p == es'[i].project;
      if i < |es| {
        assert p == es[i].project;
      }
    }
    forall p | p in Projects(es) ensures p in Projects(es') {
      var i :| 0 <= i < |es| && p == es[i].project;
      assert p == es'[i].project;
    }
    assert e.project == es'[|es|].project;
  }

  /** Adding an entry's duration to its bucket keeps the bucket invariant. */
  lemma AddKeepsBuckets(bs: seq<Bucket>, es: seq<Entry>, e: Entry, details: ProjectId -> DetailReply)
    requires BucketsValid(bs, es, details)
    requires CustomerOf(details, e.project).Named?
    ensures BucketsValid(AddTo(bs, DateKey(e.begin), CustomerOf(details, e.project).name, e.duration),
                         es + [e], details)
  {
    var es' := es + [e];
    assert es'[..|es|] == es;
    var date := DateKey(e.begin);
    var customer := CustomerOf(details, e.project).name;
    var bs' := AddTo(bs, date, customer, e.duration);
    EntryKeysSnoc(es, e, details);
    AddToKeys(bs, date, customer, e.duration);
    AddToSum(bs, date, customer, e.duration);
    forall d, c ensures Amount(bs', d, c) == Total(es', details, d, c) {
      AddToAmount(bs, date, customer, e.duration, d, c);
    }
  }

  /** Looking an entry's project up keeps the cache invariant. */
  lemma StepKeepsCache(t: Tally, es: seq<Entry>, e: Entry, details: ProjectId -> DetailReply)
    requires CacheValid(t, es, details)
    requires Step(t, e, details).Success?
    ensures CacheValid(Step(t, e, details).value, es + [e], details)
    ensures Step(t, e, details).value.buckets
         == AddTo(t.buckets, DateKey(e.begin), CustomerOf(details, e.project).name, e.duration)
  {
    var t' := Step(t, e, details).value;
    assert Projects(es + [e]) == Projects(es) + {e.project} by {
      ProjectsSnoc(es, e);
    }
    if e.project !in t.cache {
      assert e.project !in t.fetched;
      assert t'.fetched == t.fetched + [e.project];
    }
  }

  /** One step keeps the invariant, one entry further along. */
  lemma StepValid(t: Tally, es: seq<Entry>, e: Entry, details: ProjectId -> DetailReply)
    requires Valid(t, es, details)
    requires Step(t, e, details).Success?
    ensures Valid(Step(t, e, details).value, es + [e], details)
  {
    StepKeepsCache(t, es, e, details);
    assert CustomerOf(details, e.project).Named?;
    AddKeepsBuckets(t.buckets, es, e, details);
  }

  /** `process_data` keeps its invariant over the whole input. */
  lemma {:induction false} ProcessDataValid(es: seq<Entry>, details: ProjectId -> DetailReply)
    requires ProcessData(es, details).Success?
    ensures Valid(ProcessData(es, details).value, es, details)
    decreases |es|
  {
    if |es| == 0 {
      assert BucketKeys([]) == {};
      assert EntryKeys([], details) == {};
      assert Projects([]) == {};
    } else {
      var init := es[..|es| - 1];
      assert es == init + [es[|es| - 1]];
      ProcessDataValid(init, details);
      StepValid(ProcessData(init, details).value, init, es[|es| - 1], details);
    }
  }

  /** The aggregation fails exactly when some entry's project details come
      back with status 200 but no `parentTitle`. */
  lemma ProcessDataFailsIff(es: seq<Entry>, details: ProjectId -> DetailReply)
    ensures ProcessData(es, details).Success?
        <==> forall i :: 0 <= i < |es| ==> CustomerOf(details, es[i].project).Named?
  {
    SucceedsIffAllNamed(es, details);
    AllNamedMeansEvery(es, details);
  }

  /** Every entry's project has a customer name, checked from the last entry back. */
  ghost predicate AllNamed(es: seq<Entry>, details: ProjectId -> DetailReply)
    decreases |es|
  {
    |es| == 0
    || (AllNamed(es[..|es| - 1], details) && CustomerOf(details, es[|es| - 1].project).Named?)
  }

  lemma {:induction false} SucceedsIffAllNamed(es: seq<Entry>, details: ProjectId -> DetailReply)
    ensures ProcessData(es, details).Success? <==> AllNamed(es, details)
    decreases |es|
  {
    if |es| > 0 {
      var init := es[..|es| - 1];
      SucceedsIffAllNamed(init, details);
      if ProcessData(init, details).Success? {
        ProcessDataValid(init, details);
        StepSucceedsIff(ProcessData(init, details).value, init, es[|es| - 1], details);
      }
    }
  }

  lemma {:induction false} AllNamedMeansEvery(es: seq<Entry>, details: ProjectId -> DetailReply)
    ensures AllNamed(es, details)
        <==> forall i :: 0 <= i < |es| ==> CustomerOf(details, es[i].project).Named?
    decreases |es|
  {
    if |es| > 0 {
      var init := es[..|es| - 1];
      assert forall i :: 0 <= i < |init| ==> init[i] == es[i];
      AllNamedMeansEvery(init, details);
    }
  }

  /** A step fails exactly when its entry's project has no customer. */
  lemma StepSucceedsIff(t: Tally, es: seq<Entry>, e: Entry, details: ProjectId -> DetailReply)
    requires CacheValid(t, es, details)
    ensures Step(t, e, details).Success? <==> CustomerOf(details, e.project).Named?
  {
    if e.project in t.cache {
      assert t.cache[e.project] == CustomerOf(details, e.project);
    }
  }

  /** Each bucket holds exactly the summed durations of the entries of its
      day and customer, no two buckets share a key, buckets exist only for
      pairs the entries give rise to, and no seconds are lost or invented. */
  lemma ProcessDataTotals(es: seq<Entry>, details: ProjectId -> DetailReply)
    requires ProcessData(es, details).Success?
    ensures var bs := ProcessData(es, details).value.buckets;
      && KeysDistinct(bs)
      && (forall i :: 0 <= i < |bs| ==> bs[i].seconds == Total(es, details, bs[i].date, bs[i].customer))
      && BucketKeys(bs) == EntryKeys(es, details)
      && SumSeconds(bs) == SumDurations(es)
  {
    var bs := ProcessData(es, details).value.buckets;
    ProcessDataValid(es, details);
    forall i | 0 <= i < |bs| ensures bs[i].seconds == Total(es, details, bs[i].date, bs[i].customer) {
      AmountOfDistinct(bs, i);
    }
  }

  /** Project details are fetched once per distinct project id, and every
      entry uses the customer its project's details give. */
  lemma ProcessDataFetchesOnce(es: seq<Entry>, details: ProjectId -> DetailReply)
    requires ProcessData(es, details).Success?
    ensures var t := ProcessData(es, details).value;
      && Strings.Distinct(t.fetched)
      && (forall i :: 0 <= i < |t.fetched| ==> t.fetched[i] in Projects(es))
      && (forall i :: 0 <= i < |es| ==> es[i].project in t.fetched)
      && (forall i :: 0 <= i < |es| ==>
            es[i].project in t.cache && t.cache[es[i].project] == CustomerOf(details, es[i].project))
  {
    ProcessDataValid(es, details);
    var t := ProcessData(es, details).value;
    forall i | 0 <= i < |es| ensures es[i].project in t.cache {
      assert es[i].project in Projects(es);
    }
  }

  /** A failed project lookup files the entry under "Client inconnu". */
  lemma FailedLookupIsUnknownClient(details: ProjectId -> DetailReply, p: ProjectId)
    requires details(p).status != 200
    ensures CustomerOf(details, p) == Named(UnknownClient)
  {
  }
}
