/** The bar chart of event types (components/dashboard/BarChart.tsx): a
    `forEach` loop counts the logs under their type, the entries of the
    count record are sorted by descending count and the first ten become
    the bars. */
module BarChart {
  import opened Common
  import opened Logs
  import opened Sorting

  /** `l.log_type || 'unknown'`: the key a log is counted under. */
  function TypeKey(l: AnomalyLog): (k: string)
    ensures k != ""
    ensures l.logType != "" ==> k == l.logType
  {
    if l.logType == "" then "unknown" else l.logType
  }

  function TypeKeys(logs: seq<AnomalyLog>): (r: seq<string>)
    ensures |r| == |logs| && forall i :: 0 <= i < |logs| ==> r[i] == TypeKey(logs[i])
  {
    if logs == [] then [] else TypeKeys(logs[..|logs| - 1]) + [TypeKey(logs[|logs| - 1])]
  }

  /** The number of logs counted under `k`. */
  function Count(logs: seq<AnomalyLog>, k: string): nat
  {
    multiset(TypeKeys(logs))[k]
  }

  /** A bar: a key and its count (an entry `[type, cnt]` of the record). */
  datatype Bar = Bar(name: string, count: int)

  /** `Object.entries(counts)`: each key once, in the order it was first
      counted, with its count. */
  function Entries(logs: seq<AnomalyLog>): seq<Bar>
  {
    EntriesOver(logs, Uniq(TypeKeys(logs)))
  }

  /** The keys `u`, each with its count. */
  function EntriesOver(logs: seq<AnomalyLog>, u: seq<string>): seq<Bar>
  {
    seq(|u|, i requires 0 <= i < |u| => Bar(u[i], Count(logs, u[i])))
  }

  /** The `counts` record: its keys in insertion order (the order
      `Object.entries` lists them in) and the count under each. */
  datatype Record = Record(keys: seq<string>, counts: map<string, int>)

  /** `counts[key] = (counts[key] || 0) + 1`: the count under `key` goes up
      by one, starting from nothing; a new key is inserted last. */
  function Add(r: Record, key: string): Record
  {
    Record(if key in r.counts then r.keys else r.keys + [key],
           r.counts[key := (if key in r.counts then r.counts[key] else 0) + 1])
  }

  /** The record after counting `logs` in order. */
  function RecordOf(logs: seq<AnomalyLog>): Record
  {
    if logs == [] then Record([], map[])
    else Add(RecordOf(logs[..|logs| - 1]), TypeKey(logs[|logs| - 1]))
  }

  lemma RecordOfSnoc(done: seq<AnomalyLog>, l: AnomalyLog)
    ensures RecordOf(done + [l]) == Add(RecordOf(done), TypeKey(l))
  {
    assert (done + [l])[..|done|] == done;
  }

  /** The record lists each key of the logs once, in the order of first
      appearance, has an entry exactly for those keys, and holds under each
      the number of logs counted under it. */
  lemma {:induction false} RecordOfSpec(logs: seq<AnomalyLog>)
    ensures RecordOf(logs).keys == Uniq(TypeKeys(logs))
    ensures forall k :: k in RecordOf(logs).counts <==> k in TypeKeys(logs)
    ensures forall k :: k in RecordOf(logs).counts ==> RecordOf(logs).counts[k] == Count(logs, k)
  {
    if logs != [] {
      var init, l := logs[..|logs| - 1], logs[|logs| - 1];
      RecordOfSpec(init);
      assert logs == init + [l];
      assert TypeKeys(logs) == TypeKeys(init) + [TypeKey(l)];
      UniqSnoc(TypeKeys(init), TypeKey(l));
    }
  }

  /** The loop at lines 26-30, the key order kept beside the counts. */
  method Tally(logs: seq<AnomalyLog>) returns (keys: seq<string>, counts: map<string, int>)
    ensures Record(keys, counts) == RecordOf(logs)
  {
    keys, counts := [], map[];
    ghost var done: seq<AnomalyLog> := [];
    var i := 0;
    while i < |logs|
      invariant 0 <= i <= |logs| && done == logs[..i]
      invariant Record(keys, counts) == RecordOf(done)
    {
      var key := TypeKey(logs[i]);
      RecordOfSnoc(done, logs[i]);
      if key !in counts {
        keys := keys + [key];
      }
      counts := counts[key := (if key in counts then counts[key] else 0) + 1];
      assert logs[..i + 1] == done + [logs[i]];
      done := done + [logs[i]];
      i := i + 1;
    }
    assert done == logs;
  }

  /** The comparator `(a, b) => b[1] - a[1]` as a key: larger counts first. */
  function NegCount(b: Bar): int
  {
    -b.count
  }

  /** The entries sorted by descending count (ties in record order). */
  function Ranked(logs: seq<AnomalyLog>): seq<Bar>
  {
    SortBy(Entries(logs), NegCount)
  }

  /** `.slice(0, 10)` of the ranking. */
  function TopBars(logs: seq<AnomalyLog>): seq<Bar>
  {
    JsSlice(Ranked(logs), 0, 10)
  }

  function Labels(bars: seq<Bar>): (r: seq<string>)
    ensures |r| == |bars| && forall i :: 0 <= i < |bars| ==> r[i] == bars[i].name
  {
    if bars == [] then [] else [bars[0].name] + Labels(bars[1..])
  }

  function Counts(bars: seq<Bar>): (r: seq<int>)
    ensures |r| == |bars| && forall i :: 0 <= i < |bars| ==> r[i] == bars[i].count
  {
    if bars == [] then [] else [bars[0].count] + Counts(bars[1..])
  }

  /** Sum of the counts of `bars`. */
  function Total(bars: seq<Bar>): int
  {
    if bars == [] then 0 else Total(bars[..|bars| - 1]) + bars[|bars| - 1].count
  }

  // ---------------------------------------------------------------------
  // The entries

  /** One entry per key, each a key of some log with its count. */
  lemma EntriesSpec(logs: seq<AnomalyLog>)
    ensures |Entries(logs)| == |Uniq(TypeKeys(logs))|
    ensures forall i :: 0 <= i < |Entries(logs)| ==>
      Entries(logs)[i].name in TypeKeys(logs) && Entries(logs)[i].count == Count(logs, Entries(logs)[i].name)
    ensures Distinct(Labels(Entries(logs)))
  {
    var u := Uniq(TypeKeys(logs));
    var e := Entries(logs);
    assert Labels(e) == u;
    assert forall i :: 0 <= i < |u| ==> u[i] in TypeKeys(logs) by {
      UniqMembers(TypeKeys(logs));
    }
    assert Distinct(u) by {
      UniqMembers(TypeKeys(logs));
    }
  }


  /** Every key of the logs has its entry. */
  lemma EntriesComplete(logs: seq<AnomalyLog>, k: string)
    requires k in TypeKeys(logs)
    ensures Bar(k, Count(logs, k)) in Entries(logs)
  {
    var u := Uniq(TypeKeys(logs));
    UniqMembers(TypeKeys(logs));
    var i :| 0 <= i < |u| && u[i] == k;
    assert Entries(logs)[i] == Bar(k, Count(logs, k));
  }

  /** Sum over the keys `u` of their multiplicities in `m`. */
  function KeyTotal(m: multiset<string>, u: seq<string>): int
  {
    if u == [] then 0 else KeyTotal(m, u[..|u| - 1]) + m[u[|u| - 1]]
  }

  lemma {:induction false} EntriesOverTotal(logs: seq<AnomalyLog>, u: seq<string>)
    ensures Total(EntriesOver(logs, u)) == KeyTotal(multiset(TypeKeys(logs)), u)
  {
    if u != [] {
      EntriesOverTotal(logs, u[..|u| - 1]);
      assert EntriesOver(logs, u)[..|u| - 1] == EntriesOver(logs, u[..|u| - 1]);
    }
  }

  /** One more occurrence of `x` adds one to the total over distinct keys
      that include `x`, and nothing otherwise. */
  lemma {:induction false} KeyTotalAdd(m: multiset<string>, x: string, u: seq<string>)
    requires Distinct(u)
    ensures KeyTotal(m + multiset{x}, u) == KeyTotal(m, u) + (if x in u then 1 else 0)
  {
    if u != [] {
      var init := u[..|u| - 1];
      assert Distinct(init);
      KeyTotalAdd(m, x, init);
      assert u == init + [u[|u| - 1]];
    }
  }

  /** Summed over the distinct keys, the multiplicities of a key list add
      up to its length. */
  lemma {:induction false} UniqTotal(ks: seq<string>)
    ensures KeyTotal(multiset(ks), Uniq(ks)) == |ks|
  {
    if ks != [] {
      var init, x := ks[..|ks| - 1], ks[|ks| - 1];
      var u := Uniq(init);
      UniqTotal(init);
      assert ks == init + [x];
      assert multiset(ks) == multiset(init) + multiset{x};
      UniqSnoc(init, x);
      assert Distinct(u) by {
        UniqMembers(init);
      }
      KeyTotalAdd(multiset(init), x, u);
      if x !in init {
        assert (u + [x])[..|u|] == u;
        assert multiset(init)[x] == 0;
      }
    }
  }

  /** Before the ranking, the counts sum to the number of logs. */
  lemma EntriesTotal(logs: seq<AnomalyLog>)
    ensures Total(Entries(logs)) == |logs|
  {
    EntriesOverTotal(logs, Uniq(TypeKeys(logs)));
    UniqTotal(TypeKeys(logs));
  }

  // ---------------------------------------------------------------------
  // The ranking

  lemma {:induction false} DistinctCount<T>(s: seq<T>, x: T)
    requires Distinct(s)
    ensures multiset(s)[x] <= 1
  {
    if s != [] {
      var init := s[..|s| - 1];
      DistinctCount(init, x);
      assert s == init + [s[|s| - 1]];
      if x == s[|s| - 1] {
        assert x !in init;
      }
    }
  }

  /** A permutation of a sequence without repetitions has none either. */
  lemma DistinctPermutation<T>(a: seq<T>, b: seq<T>)
    requires multiset(a) == multiset(b) && Distinct(a)
    ensures Distinct(b)
  {
    forall i, j | 0 <= i < j < |b| ensures b[i] != b[j] {
      if b[i] == b[j] {
        assert b == b[..j] + [b[j]] + b[j + 1..];
        assert b[i] in b[..j];
        DistinctCount(a, b[i]);
        assert false;
      }
    }
  }

  /** The descending sort puts the bars in non-increasing order of count. */
  lemma SortedDescending(e: seq<Bar>)
    ensures var s := SortBy(e, NegCount);
      |s| == |e| && forall i, j :: 0 <= i < j < |s| ==> s[j].count <= s[i].count
  {
    var s := SortBy(e, NegCount);
    SortByCorrect(e, NegCount);
    forall i, j | 0 <= i < j < |s| ensures s[j].count <= s[i].count {
      assert NegCount(s[i]) <= NegCount(s[j]);
    }
  }

  /** The sort keeps exactly the bars it was given. */
  lemma SortedSameBars(e: seq<Bar>)
    ensures var s := SortBy(e, NegCount);
      (forall i :: 0 <= i < |s| ==> s[i] in e) && (forall b :: b in e ==> b in s)
  {
    var s := SortBy(e, NegCount);
    SortByCorrect(e, NegCount);
    forall i | 0 <= i < |s| ensures s[i] in e {
      assert s[i] in multiset(s);
    }
    forall b | b in e ensures b in s {
      assert b in multiset(e);
    }
  }

  /** Bars with distinct names keep distinct names once sorted. */
  lemma SortedDistinctNames(e: seq<Bar>)
    requires Distinct(Labels(e))
    ensures Distinct(Labels(SortBy(e, NegCount)))
  {
    var s := SortBy(e, NegCount);
    assert Distinct(e) by {
      forall i, j | 0 <= i < j < |e| ensures e[i] != e[j] {
        assert Labels(e)[i] != Labels(e)[j];
      }
    }
    assert Distinct(s) by {
      SortByCorrect(e, NegCount);
      DistinctPermutation(e, s);
    }
    SortedSameBars(e);
    forall i, j | 0 <= i < j < |s| ensures Labels(s)[i] != Labels(s)[j] {
      assert s[i] in e && s[j] in e;
      var p :| 0 <= p < |e| && e[p] == s[i];
      var q :| 0 <= q < |e| && e[q] == s[j];
      assert s[i] != s[j];
      if p < q {
        assert Labels(e)[p] != Labels(e)[q];
      } else {
        assert Labels(e)[q] != Labels(e)[p];
      }
    }
  }

  /** The first ten of the sorted bars: at most ten, by non-increasing
      count, each one of the given bars. */
  lemma TopTenShape(e: seq<Bar>)
    ensures var t := JsSlice(SortBy(e, NegCount), 0, 10);
      && |t| == (if |e| < 10 then |e| else 10)
      && (forall i, j :: 0 <= i < j < |t| ==> t[j].count <= t[i].count)
      && (forall i :: 0 <= i < |t| ==> t[i] in e)
  {
    var s := SortBy(e, NegCount);
    var t := JsSlice(s, 0, 10);
    SortedDescending(e);
    SortedSameBars(e);
    assert t == s[..|t|];
    forall i | 0 <= i < |t| ensures t[i] in e {
      assert t[i] == s[i];
    }
  }

  /** No name is shown twice. */
  lemma TopTenDistinct(e: seq<Bar>)
    requires Distinct(Labels(e))
    ensures Distinct(Labels(JsSlice(SortBy(e, NegCount), 0, 10)))
  {
    var s := SortBy(e, NegCount);
    var t := JsSlice(s, 0, 10);
    SortedDistinctNames(e);
    assert t == s[..|t|];
    forall i, j | 0 <= i < j < |t| ensures Labels(t)[i] != Labels(t)[j] {
      assert Labels(s)[i] != Labels(s)[j];
    }
  }

  /** A bar left out counts no more than the last one shown, and one is
      left out only when there are more than ten. */
  lemma TopTenOmitted(e: seq<Bar>, b: Bar)
    requires b in e && b.name !in Labels(JsSlice(SortBy(e, NegCount), 0, 10))
    ensures var t := JsSlice(SortBy(e, NegCount), 0, 10);
      10 == |t| < |e| && b.count <= t[9].count
  {
    var s := SortBy(e, NegCount);
    var t := JsSlice(s, 0, 10);
    SortedDescending(e);
    SortedSameBars(e);
    assert t == s[..|t|];
    assert b in s;
    forall i | 0 <= i < |t| ensures s[i] != b {
      assert Labels(t)[i] == s[i].name;
    }
    var p :| 0 <= p < |s| && s[p] == b;
  }

  /** At most ten bars, with non-increasing counts, each a key of the logs
      with its count, no key twice; a key left out has a count no larger
      than the smallest shown, and one is left out only when there are more
      than ten keys. */
  lemma TopBarsSpec(logs: seq<AnomalyLog>)
    ensures var t := TopBars(logs); var n := |Uniq(TypeKeys(logs))|;
      && |t| == (if n < 10 then n else 10)
      && (forall i, j :: 0 <= i < j < |t| ==> t[j].count <= t[i].count)
      && (forall i :: 0 <= i < |t| ==> t[i].name in TypeKeys(logs) && t[i].count == Count(logs, t[i].name))
      && Distinct(Labels(t))
      && (forall k :: k in TypeKeys(logs) && k !in Labels(t) ==> 10 == |t| < n && Count(logs, k) <= t[9].count)
  {
    var e, t := Entries(logs), TopBars(logs);
    EntriesSpec(logs);
    TopTenShape(e);
    TopTenDistinct(e);
    forall i | 0 <= i < |t| ensures t[i].name in TypeKeys(logs) && t[i].count == Count(logs, t[i].name) {
      assert t[i] in e;
    }
    forall k | k in TypeKeys(logs) && k !in Labels(t)
      ensures 10 == |t| < |e| && Count(logs, k) <= t[9].count
    {
      EntriesComplete(logs, k);
      TopTenOmitted(e, Bar(k, Count(logs, k)));
    }
  }

  // ---------------------------------------------------------------------
  // Rendering

  /** `labels` and `data` are a ranking of the logs' keys: at most ten
      distinct keys paired with their counts, by non-increasing count, and
      any key left out counts no more than the last one shown, which only
      happens when ten are shown. */
  predicate Ranking(logs: seq<AnomalyLog>, labels: seq<string>, data: seq<int>)
  {
    && |labels| == |data| <= 10
    && Distinct(labels)
    && (forall i :: 0 <= i < |labels| ==> labels[i] in TypeKeys(logs) && data[i] == Count(logs, labels[i]))
    && (forall i, j :: 0 <= i < j < |data| ==> data[j] <= data[i])
    && (forall k :: k in TypeKeys(logs) && k !in labels ==> |data| == 10 && Count(logs, k) <= data[9])
  }

  lemma TopBarsRanking(logs: seq<AnomalyLog>)
    ensures Ranking(logs, Labels(TopBars(logs)), Counts(TopBars(logs)))
  {
    var t := TopBars(logs);
    var labels, data := Labels(t), Counts(t);
    TopBarsSpec(logs);
    forall i | 0 <= i < |labels| ensures labels[i] in TypeKeys(logs) && data[i] == Count(logs, labels[i]) {
      assert labels[i] == t[i].name && data[i] == t[i].count;
    }
    forall i, j | 0 <= i < j < |data| ensures data[j] <= data[i] {
      assert data[i] == t[i].count && data[j] == t[j].count;
    }
    forall k | k in TypeKeys(logs) && k !in labels ensures |data| == 10 && Count(logs, k) <= data[9] {
      assert |t| == 10 && data[9] == t[9].count;
    }
  }

  /** `Object.entries(counts)` in the record's key order. */
  function EntriesOf(keys: seq<string>, counts: map<string, int>): (e: seq<Bar>)
    ensures |e| == |keys|
  {
    seq(|keys|, i requires 0 <= i < |keys| => Bar(keys[i], if keys[i] in counts then counts[keys[i]] else 0))
  }

  /** The record the loop builds has the entries of the logs. */
  lemma TallyEntries(logs: seq<AnomalyLog>)
    ensures EntriesOf(RecordOf(logs).keys, RecordOf(logs).counts) == Entries(logs)
  {
    RecordOfSpec(logs);
    UniqMembers(TypeKeys(logs));
  }

  datatype BarView = NoData | Chart(labels: seq<string>, data: seq<int>)

  /** The component: the placeholder for an empty list, otherwise the top
      ten bars with `labels[i]` paired with `data[i]`. */
  method Render(logs: seq<AnomalyLog>) returns (v: BarView)
    ensures v.NoData? <==> logs == []
    ensures v.Chart? ==> v.labels == Labels(TopBars(logs)) && v.data == Counts(TopBars(logs))
    ensures v.Chart? ==> Ranking(logs, v.labels, v.data)
  {
    var keys, counts := Tally(logs);
    TallyEntries(logs);
    var top := JsSlice(SortBy(EntriesOf(keys, counts), NegCount), 0, 10);
    var labels := Labels(top);
    var data := Counts(top);
    TopBarsRanking(logs);
    if |logs| == 0 {
      v := NoData;
    } else {
      v := Chart(labels, data);
    }
  }
}
