// apis/v1alpha1/zz_generated.deepcopy.go for what a MetricAlarm spec is made of: structs,
// slices, maps and scalars behind pointers, all of them objects here. A tree lists the scalars
// of a struct by type, in the order of the fields.
//
// XIs(p, t, r) says that a reader who starts at p sees the tree t and stays within the
// objects r. A copy shows the same tree, nil pointers and slices included, within new
// objects only.

module DeepCopy {
  import opened Wrappers
  import A = AlarmTypes

  // A pointer to a scalar.
  class Ptr<T> {
    var value: T

    constructor (value: T)
      ensures this.value == value
    {
      this.value := value;
    }
  }

  datatype Tree =
    | Nil
    | Node(texts: seq<Option<string>>, numbers: seq<Option<A.int64>>, flags: seq<Option<bool>>,
           floats: seq<Option<A.Float64>>, parts: seq<Tree>)
    | Table(entries: map<string, Option<string>>)

  ghost predicate PtrIs<T>(p: Ptr?<T>, v: Option<T>, r: set<object>)
    reads r
  {
    if p == null then v == None else p in r && v == Some(p.value)
  }

  ghost predicate PtrsAre<T>(ps: seq<Ptr?<T>>, vs: seq<Option<T>>, r: set<object>)
    reads r
  {
    |ps| == |vs| && forall i | 0 <= i < |ps| :: PtrIs(ps[i], vs[i], r)
  }

  method CopyPtrs<T>(ps: seq<Ptr?<T>>, ghost vs: seq<Option<T>>, ghost r: set<object>)
    returns (qs: seq<Ptr?<T>>, ghost s: set<object>)
    requires PtrsAre(ps, vs, r)
    ensures fresh(s) && PtrsAre(qs, vs, s) && |qs| == |ps|
  {
    qs, s := [], {};
    for i := 0 to |ps|
      invariant fresh(s) && PtrsAre(qs, vs[..i], s) && |qs| == i
    {
      if ps[i] == null {
        qs := qs + [null];
      } else {
        var q := new Ptr(ps[i].value);
        qs, s := qs + [q], s + {q};
      }
    }
    assert vs[..|ps|] == vs;
  }

  lemma PtrsGrow<T>(ps: seq<Ptr?<T>>, vs: seq<Option<T>>, r: set<object>, s: set<object>)
    requires PtrsAre(ps, vs, r) && r <= s
    ensures PtrsAre(ps, vs, s)
  {
  }

  /******* []*string *******/

  ghost predicate TextsAre(a: array?<Ptr?<string>>, t: Tree, r: set<object>)
    reads r
  {
    if a == null then t == Nil else a in r && t.Node? && PtrsAre(a[..], t.texts, r)
  }

  method CopyTexts(a: array?<Ptr?<string>>, ghost t: Tree, ghost r: set<object>)
    returns (b: array?<Ptr?<string>>, ghost s: set<object>)
    requires TextsAre(a, t, r)
    ensures fresh(s) && TextsAre(b, t, s)
  {
    if a == null { return null, {}; }
    b := new Ptr?<string>[a.Length](_ => null);
    s := {b};
    for i := 0 to a.Length
      invariant b.Length == a.Length && b in s && fresh(s)
      invariant forall j | 0 <= j < i :: PtrIs(b[j], t.texts[j], s)
      invariant forall j | i <= j < b.Length :: b[j] == null
    {
      assert PtrIs(a[..][i], t.texts[i], r);
      if a[i] != null {
        b[i] := new Ptr(a[i].value);
        s := s + {b[i]};
      }
    }
  }

  lemma TextsGrow(a: array?<Ptr?<string>>, t: Tree, r: set<object>, s: set<object>)
    requires TextsAre(a, t, r) && r <= s
    ensures TextsAre(a, t, s)
  {
  }

  /******* Dimension and Tag, two string pointers each, and slices of them *******/

  class Pair {
    var first: Ptr?<string>    // Name or Key
    var second: Ptr?<string>   // Value

    constructor (texts: seq<Ptr?<string>>)
      requires |texts| == 2
      ensures Texts() == texts
    {
      first, second := texts[0], texts[1];
    }

    function Texts(): (s: seq<Ptr?<string>>)
      reads this
      ensures |s| == 2
    {
      [first, second]
    }
  }

  ghost predicate PairIs(p: Pair?, t: Tree, r: set<object>)
    reads r
  {
    if p == null then t == Nil else p in r && t.Node? && PtrsAre(p.Texts(), t.texts, r)
  }

  method CopyPair(p: Pair?, ghost t: Tree, ghost r: set<object>) returns (q: Pair?, ghost s: set<object>)
    requires PairIs(p, t, r)
    ensures fresh(s) && PairIs(q, t, s)
  {
    if p == null { return null, {}; }
    var texts, within := CopyPtrs(p.Texts(), t.texts, r);
    q := new Pair(texts);
    s := {q} + within;
    PtrsGrow(texts, t.texts, within, s);
  }

  lemma PairGrows(p: Pair?, t: Tree, r: set<object>, s: set<object>)
    requires PairIs(p, t, r) && r <= s
    ensures PairIs(p, t, s)
  {
  }

  ghost predicate PairsAre(a: array?<Pair?>, t: Tree, r: set<object>)
    reads r
  {
    if a == null then t == Nil
    else a in r && t.Node? && |t.parts| == a.Length && forall i | 0 <= i < a.Length :: PairIs(a[i], t.parts[i], r)
  }

  method CopyPairs(a: array?<Pair?>, ghost t: Tree, ghost r: set<object>)
    returns (b: array?<Pair?>, ghost s: set<object>)
    requires PairsAre(a, t, r)
    ensures fresh(s) && PairsAre(b, t, s)
  {
    hide PairIs;
    if a == null { return null, {}; }
    b := new Pair?[a.Length](_ => null);
    ghost var within: set<object> := {};
    for i := 0 to a.Length
      invariant b.Length == a.Length && b !in within && fresh(within)
      invariant forall j | 0 <= j < i :: PairIs(b[j], t.parts[j], within)
    {
      var q, more := CopyPair(a[i], t.parts[i], r);
      forall j | 0 <= j < i ensures PairIs(b[j], t.parts[j], within + more) {
        PairGrows(b[j], t.parts[j], within, within + more);
      }
      PairGrows(q, t.parts[i], more, within + more);
      b[i] := q;
      within := within + more;
    }
    s := within + {b};
    forall j | 0 <= j < a.Length ensures PairIs(b[j], t.parts[j], s) {
      PairGrows(b[j], t.parts[j], within, s);
    }
  }

  lemma PairsGrow(a: array?<Pair?>, t: Tree, r: set<object>, s: set<object>)
    requires PairsAre(a, t, r) && r <= s
    ensures PairsAre(a, t, s)
  {
  }

  /******* Metric, MetricStat, MetricDataQuery *******/

  class Metric {
    var dimensions: array?<Pair?>
    var metricName: Ptr?<string>
    var namespace: Ptr?<string>

    constructor (dimensions: array?<Pair?>, texts: seq<Ptr?<string>>)
      requires |texts| == 2
      ensures this.dimensions == dimensions && Texts() == texts
    {
      this.dimensions := dimensions;
      metricName, namespace := texts[0], texts[1];
    }

    function Texts(): (s: seq<Ptr?<string>>)
      reads this
      ensures |s| == 2
    {
      [metricName, namespace]
    }
  }

  ghost predicate MetricIs(m: Metric?, t: Tree, r: set<object>)
    reads r
  {
    if m == null then t == Nil
    else m in r && t.Node? && PtrsAre(m.Texts(), t.texts, r) && |t.parts| == 1 && PairsAre(m.dimensions, t.parts[0], r)
  }

  method CopyMetric(m: Metric?, ghost t: Tree, ghost r: set<object>) returns (c: Metric?, ghost s: set<object>)
    requires MetricIs(m, t, r)
    ensures fresh(s) && MetricIs(c, t, s)
  {
    hide PairsAre, PtrsAre;
    if m == null { return null, {}; }
    var dimensions, s0 := CopyPairs(m.dimensions, t.parts[0], r);
    var texts, s1 := CopyPtrs(m.Texts(), t.texts, r);
    c := new Metric(dimensions, texts);
    s := {c} + s0 + s1;
    PairsGrow(dimensions, t.parts[0], s0, s);
    PtrsGrow(texts, t.texts, s1, s);
  }

  lemma MetricGrows(m: Metric?, t: Tree, r: set<object>, s: set<object>)
    requires MetricIs(m, t, r) && r <= s
    ensures MetricIs(m, t, s)
  {
    if m != null {
      PairsGrow(m.dimensions, t.parts[0], r, s);
    }
  }

  class MetricStat {
    var metric: Metric?
    var period: Ptr?<A.int64>
    var stat: Ptr?<string>
    var unit: Ptr?<string>

    constructor (metric: Metric?, numbers: seq<Ptr?<A.int64>>, texts: seq<Ptr?<string>>)
      requires |numbers| == 1 && |texts| == 2
      ensures this.metric == metric && Numbers() == numbers && Texts() == texts
    {
      this.metric := metric;
      period := numbers[0];
      stat, unit := texts[0], texts[1];
    }

    function Numbers(): (s: seq<Ptr?<A.int64>>)
      reads this
      ensures |s| == 1
    {
      [period]
    }

    function Texts(): (s: seq<Ptr?<string>>)
      reads this
      ensures |s| == 2
    {
      [stat, unit]
    }
  }

  ghost predicate MetricStatIs(m: MetricStat?, t: Tree, r: set<object>)
    reads r
  {
    if m == null then t == Nil
    else m in r && t.Node? && PtrsAre(m.Texts(), t.texts, r) && PtrsAre(m.Numbers(), t.numbers, r)
         && |t.parts| == 1 && MetricIs(m.metric, t.parts[0], r)
  }

  method CopyMetricStat(m: MetricStat?, ghost t: Tree, ghost r: set<object>)
    returns (c: MetricStat?, ghost s: set<object>)
    requires MetricStatIs(m, t, r)
    ensures fresh(s) && MetricStatIs(c, t, s)
  {
    hide MetricIs, PtrsAre;
    if m == null { return null, {}; }
    var metric, s0 := CopyMetric(m.metric, t.parts[0], r);
    var numbers, s1 := CopyPtrs(m.Numbers(), t.numbers, r);
    var texts, s2 := CopyPtrs(m.Texts(), t.texts, r);
    c := new MetricStat(metric, numbers, texts);
    s := {c} + s0 + s1 + s2;
    MetricGrows(metric, t.parts[0], s0, s);
    PtrsGrow(numbers, t.numbers, s1, s);
    PtrsGrow(texts, t.texts, s2, s);
  }

  lemma MetricStatGrows(m: MetricStat?, t: Tree, r: set<object>, s: set<object>)
    requires MetricStatIs(m, t, r) && r <= s
    ensures MetricStatIs(m, t, s)
  {
    if m != null {
      MetricGrows(m.metric, t.parts[0], r, s);
    }
  }

  class MetricDataQuery {
    var accountID: Ptr?<string>
    var expression: Ptr?<string>
    var id: Ptr?<string>
    var label_: Ptr?<string>
    var metricStat: MetricStat?
    var period: Ptr?<A.int64>
    var returnData: Ptr?<bool>

    constructor (texts: seq<Ptr?<string>>, metricStat: MetricStat?, numbers: seq<Ptr?<A.int64>>, flags: seq<Ptr?<bool>>)
      requires |texts| == 4 && |numbers| == 1 && |flags| == 1
      ensures Texts() == texts && this.metricStat == metricStat && Numbers() == numbers && Flags() == flags
    {
      this.metricStat := metricStat;
      accountID, expression, id, label_ := texts[0], texts[1], texts[2], texts[3];
      period := numbers[0];
      returnData := flags[0];
    }

    function Texts(): (s: seq<Ptr?<string>>)
      reads this
      ensures |s| == 4
    {
      [accountID, expression, id, label_]
    }

    function Numbers(): (s: seq<Ptr?<A.int64>>)
      reads this
      ensures |s| == 1
    {
      [period]
    }

    function Flags(): (s: seq<Ptr?<bool>>)
      reads this
      ensures |s| == 1
    {
      [returnData]
    }
  }

  ghost predicate QueryIs(q: MetricDataQuery?, t: Tree, r: set<object>)
    reads r
  {
    if q == null then t == Nil
    else q in r && t.Node? && PtrsAre(q.Texts(), t.texts, r) && PtrsAre(q.Numbers(), t.numbers, r)
         && PtrsAre(q.Flags(), t.flags, r) && |t.parts| == 1 && MetricStatIs(q.metricStat, t.parts[0], r)
  }

  method CopyQuery(q: MetricDataQuery?, ghost t: Tree, ghost r: set<object>)
    returns (c: MetricDataQuery?, ghost s: set<object>)
    requires QueryIs(q, t, r)
    ensures fresh(s) && QueryIs(c, t, s)
  {
    hide MetricStatIs, PtrsAre;
    if q == null { return null, {}; }
    var texts, s0 := CopyPtrs(q.Texts(), t.texts, r);
    var metricStat, s1 := CopyMetricStat(q.metricStat, t.parts[0], r);
    var numbers, s2 := CopyPtrs(q.Numbers(), t.numbers, r);
    var flags, s3 := CopyPtrs(q.Flags(), t.flags, r);
    c := new MetricDataQuery(texts, metricStat, numbers, flags);
    s := {c} + s0 + s1 + s2 + s3;
    PtrsGrow(texts, t.texts, s0, s);
    MetricStatGrows(metricStat, t.parts[0], s1, s);
    PtrsGrow(numbers, t.numbers, s2, s);
    PtrsGrow(flags, t.flags, s3, s);
  }

  lemma QueryGrows(q: MetricDataQuery?, t: Tree, r: set<object>, s: set<object>)
    requires QueryIs(q, t, r) && r <= s
    ensures QueryIs(q, t, s)
  {
    if q != null {
      MetricStatGrows(q.metricStat, t.parts[0], r, s);
    }
  }

  ghost predicate QueriesAre(a: array?<MetricDataQuery?>, t: Tree, r: set<object>)
    reads r
  {
    if a == null then t == Nil
    else a in r && t.Node? && |t.parts| == a.Length && forall i | 0 <= i < a.Length :: QueryIs(a[i], t.parts[i], r)
  }

  method CopyQueries(a: array?<MetricDataQuery?>, ghost t: Tree, ghost r: set<object>)
    returns (b: array?<MetricDataQuery?>, ghost s: set<object>)
    requires QueriesAre(a, t, r)
    ensures fresh(s) && QueriesAre(b, t, s)
  {
    hide QueryIs;
    if a == null { return null, {}; }
    b := new MetricDataQuery?[a.Length](_ => null);
    ghost var within: set<object> := {};
    for i := 0 to a.Length
      invariant b.Length == a.Length && b !in within && fresh(within)
      invariant forall j | 0 <= j < i :: QueryIs(b[j], t.parts[j], within)
    {
      var q, more := CopyQuery(a[i], t.parts[i], r);
      forall j | 0 <= j < i ensures QueryIs(b[j], t.parts[j], within + more) {
        QueryGrows(b[j], t.parts[j], within, within + more);
      }
      QueryGrows(q, t.parts[i], more, within + more);
      b[i] := q;
      within := within + more;
    }
    s := within + {b};
    forall j | 0 <= j < a.Length ensures QueryIs(b[j], t.parts[j], s) {
      QueryGrows(b[j], t.parts[j], within, s);
    }
  }

  /******* EvaluationCriteria and EvaluationWindow *******/

  class PromQLCriteria {
    var pendingPeriod: Ptr?<A.int64>
    var recoveryPeriod: Ptr?<A.int64>
    var query: Ptr?<string>

    constructor (numbers: seq<Ptr?<A.int64>>, texts: seq<Ptr?<string>>)
      requires |numbers| == 2 && |texts| == 1
      ensures Numbers() == numbers && Texts() == texts
    {
      pendingPeriod, recoveryPeriod := numbers[0], numbers[1];
      query := texts[0];
    }

    function Numbers(): (s: seq<Ptr?<A.int64>>)
      reads this
      ensures |s| == 2
    {
      [pendingPeriod, recoveryPeriod]
    }

    function Texts(): (s: seq<Ptr?<string>>)
      reads this
      ensures |s| == 1
    {
      [query]
    }
  }

  class EvaluationCriteria {
    var promQL: PromQLCriteria?

    constructor (promQL: PromQLCriteria?)
      ensures this.promQL == promQL
    {
      this.promQL := promQL;
    }
  }

  ghost predicate PromQLIs(p: PromQLCriteria?, t: Tree, r: set<object>)
    reads r
  {
    if p == null then t == Nil
    else p in r && t.Node? && PtrsAre(p.Numbers(), t.numbers, r) && PtrsAre(p.Texts(), t.texts, r)
  }

  ghost predicate CriteriaIs(c: EvaluationCriteria?, t: Tree, r: set<object>)
    reads r
  {
    if c == null then t == Nil else c in r && t.Node? && |t.parts| == 1 && PromQLIs(c.promQL, t.parts[0], r)
  }

  method CopyPromQL(p: PromQLCriteria?, ghost t: Tree, ghost r: set<object>)
    returns (q: PromQLCriteria?, ghost s: set<object>)
    requires PromQLIs(p, t, r)
    ensures fresh(s) && PromQLIs(q, t, s)
  {
    hide PtrsAre;
    if p == null { return null, {}; }
    var numbers, s0 := CopyPtrs(p.Numbers(), t.numbers, r);
    var texts, s1 := CopyPtrs(p.Texts(), t.texts, r);
    q := new PromQLCriteria(numbers, texts);
    s := {q} + s0 + s1;
    PtrsGrow(numbers, t.numbers, s0, s);
    PtrsGrow(texts, t.texts, s1, s);
  }

  method CopyCriteria(c: EvaluationCriteria?, ghost t: Tree, ghost r: set<object>)
    returns (d: EvaluationCriteria?, ghost s: set<object>)
    requires CriteriaIs(c, t, r)
    ensures fresh(s) && CriteriaIs(d, t, s)
  {
    if c == null { return null, {}; }
    var promQL, within := CopyPromQL(c.promQL, t.parts[0], r);
    d := new EvaluationCriteria(promQL);
    s := {d} + within;
  }

  lemma CriteriaGrow(c: EvaluationCriteria?, t: Tree, r: set<object>, s: set<object>)
    requires CriteriaIs(c, t, r) && r <= s
    ensures CriteriaIs(c, t, s)
  {
  }

  // map[string]*string
  class TextMap {
    var m: map<string, Ptr?<string>>

    constructor (m: map<string, Ptr?<string>>)
      ensures this.m == m
    {
      this.m := m;
    }
  }

  class WallClockWindow {
    var timezone: Ptr?<string>

    constructor (texts: seq<Ptr?<string>>)
      requires |texts| == 1
      ensures Texts() == texts
    {
      timezone := texts[0];
    }

    function Texts(): (s: seq<Ptr?<string>>)
      reads this
      ensures |s| == 1
    {
      [timezone]
    }
  }

  class EvaluationWindow {
    var slidingWindow: TextMap?
    var wallClockWindow: WallClockWindow?

    constructor (slidingWindow: TextMap?, wallClockWindow: WallClockWindow?)
      ensures this.slidingWindow == slidingWindow && this.wallClockWindow == wallClockWindow
    {
      this.slidingWindow, this.wallClockWindow := slidingWindow, wallClockWindow;
    }
  }

  ghost predicate TableIs(m: TextMap?, t: Tree, r: set<object>)
    reads r
  {
    if m == null then t == Nil
    else m in r && t.Table? && m.m.Keys == t.entries.Keys && forall k | k in m.m :: PtrIs(m.m[k], t.entries[k], r)
  }

  ghost predicate WallClockIs(w: WallClockWindow?, t: Tree, r: set<object>)
    reads r
  {
    if w == null then t == Nil else w in r && t.Node? && PtrsAre(w.Texts(), t.texts, r)
  }

  ghost predicate WindowIs(w: EvaluationWindow?, t: Tree, r: set<object>)
    reads r
  {
    if w == null then t == Nil
    else w in r && t.Node? && |t.parts| == 2 && TableIs(w.slidingWindow, t.parts[0], r)
         && WallClockIs(w.wallClockWindow, t.parts[1], r)
  }

  // The keys of a Go map come in any order.
  method CopyTable(m: TextMap?, ghost t: Tree, ghost r: set<object>) returns (c: TextMap?, ghost s: set<object>)
    requires TableIs(m, t, r)
    ensures fresh(s) && TableIs(c, t, s)
  {
    if m == null { return null, {}; }
    var out: map<string, Ptr?<string>> := map[];
    ghost var within: set<object> := {};
    var pending := m.m.Keys;
    while pending != {}
      invariant pending <= m.m.Keys && fresh(within)
      invariant out.Keys == m.m.Keys - pending
      invariant forall k | k in out :: PtrIs(out[k], t.entries[k], within)
      decreases pending
    {
      var k :| k in pending;
      if m.m[k] == null {
        out := out[k := null];
      } else {
        var q := new Ptr(m.m[k].value);
        out, within := out[k := q], within + {q};
      }
      pending := pending - {k};
    }
    c := new TextMap(out);
    s := {c} + within;
  }

  method CopyWallClock(w: WallClockWindow?, ghost t: Tree, ghost r: set<object>)
    returns (c: WallClockWindow?, ghost s: set<object>)
    requires WallClockIs(w, t, r)
    ensures fresh(s) && WallClockIs(c, t, s)
  {
    hide PtrsAre;
    if w == null { return null, {}; }
    var texts, within := CopyPtrs(w.Texts(), t.texts, r);
    c := new WallClockWindow(texts);
    s := {c} + within;
    PtrsGrow(texts, t.texts, within, s);
  }

  method CopyWindow(w: EvaluationWindow?, ghost t: Tree, ghost r: set<object>)
    returns (c: EvaluationWindow?, ghost s: set<object>)
    requires WindowIs(w, t, r)
    ensures fresh(s) && WindowIs(c, t, s)
  {
    hide TableIs, WallClockIs;
    if w == null { return null, {}; }
    var slidingWindow, s0 := CopyTable(w.slidingWindow, t.parts[0], r);
    var wallClockWindow, s1 := CopyWallClock(w.wallClockWindow, t.parts[1], r);
    c := new EvaluationWindow(slidingWindow, wallClockWindow);
    s := {c} + s0 + s1;
    TableGrows(slidingWindow, t.parts[0], s0, s);
    WallClockGrows(wallClockWindow, t.parts[1], s1, s);
  }

  lemma TableGrows(m: TextMap?, t: Tree, r: set<object>, s: set<object>)
    requires TableIs(m, t, r) && r <= s
    ensures TableIs(m, t, s)
  {
  }

  lemma WallClockGrows(w: WallClockWindow?, t: Tree, r: set<object>, s: set<object>)
    requires WallClockIs(w, t, r) && r <= s
    ensures WallClockIs(w, t, s)
  {
  }

  lemma WindowGrows(w: EvaluationWindow?, t: Tree, r: set<object>, s: set<object>)
    requires WindowIs(w, t, r) && r <= s
    ensures WindowIs(w, t, s)
  {
    if w != null {
      TableGrows(w.slidingWindow, t.parts[0], r, s);
      WallClockGrows(w.wallClockWindow, t.parts[1], r, s);
    }
  }

  /******* The spec *******/

  class MetricAlarmSpec {
    var alarmDescription: Ptr?<string>
    var comparisonOperator: Ptr?<string>
    var evaluateLowSampleCountPercentile: Ptr?<string>
    var extendedStatistic: Ptr?<string>
    var metricName: Ptr?<string>
    var name: Ptr?<string>
    var namespace: Ptr?<string>
    var statistic: Ptr?<string>
    var thresholdMetricID: Ptr?<string>
    var treatMissingData: Ptr?<string>
    var unit: Ptr?<string>
    var datapointsToAlarm: Ptr?<A.int64>
    var evaluationInterval: Ptr?<A.int64>
    var evaluationPeriods: Ptr?<A.int64>
    var period: Ptr?<A.int64>
    var actionsEnabled: Ptr?<bool>
    var threshold: Ptr?<A.Float64>
    var alarmActions: array?<Ptr?<string>>
    var dimensions: array?<Pair?>
    var evaluationCriteria: EvaluationCriteria?
    var evaluationWindow: EvaluationWindow?
    var insufficientDataActions: array?<Ptr?<string>>
    var metrics: array?<MetricDataQuery?>
    var okActions: array?<Ptr?<string>>
    var tags: array?<Pair?>

    constructor (
      texts: seq<Ptr?<string>>, numbers: seq<Ptr?<A.int64>>, flags: seq<Ptr?<bool>>, floats: seq<Ptr?<A.Float64>>,
      alarmActions: array?<Ptr?<string>>, insufficientDataActions: array?<Ptr?<string>>,
      okActions: array?<Ptr?<string>>, dimensions: array?<Pair?>, evaluationCriteria: EvaluationCriteria?,
      evaluationWindow: EvaluationWindow?, metrics: array?<MetricDataQuery?>, tags: array?<Pair?>)
      requires |texts| == 11 && |numbers| == 4 && |flags| == 1 && |floats| == 1
      ensures Texts() == texts && Numbers() == numbers && Flags() == flags && Floats() == floats
      ensures this.alarmActions == alarmActions && this.insufficientDataActions == insufficientDataActions
      ensures this.okActions == okActions && this.dimensions == dimensions && this.metrics == metrics
      ensures this.evaluationCriteria == evaluationCriteria && this.evaluationWindow == evaluationWindow
      ensures this.tags == tags
    {
      this.alarmActions, this.insufficientDataActions := alarmActions, insufficientDataActions;
      this.okActions, this.dimensions, this.metrics, this.tags := okActions, dimensions, metrics, tags;
      this.evaluationCriteria, this.evaluationWindow := evaluationCriteria, evaluationWindow;
      alarmDescription, comparisonOperator := texts[0], texts[1];
      evaluateLowSampleCountPercentile, extendedStatistic := texts[2], texts[3];
      metricName, name, namespace, statistic := texts[4], texts[5], texts[6], texts[7];
      thresholdMetricID, treatMissingData, unit := texts[8], texts[9], texts[10];
      datapointsToAlarm, evaluationInterval := numbers[0], numbers[1];
      evaluationPeriods, period := numbers[2], numbers[3];
      actionsEnabled := flags[0];
      threshold := floats[0];
    }

    function Texts(): (s: seq<Ptr?<string>>)
      reads this
      ensures |s| == 11
    {
      [alarmDescription, comparisonOperator, evaluateLowSampleCountPercentile, extendedStatistic, metricName, name,
       namespace, statistic, thresholdMetricID, treatMissingData, unit]
    }

    function Numbers(): (s: seq<Ptr?<A.int64>>)
      reads this
      ensures |s| == 4
    {
      [datapointsToAlarm, evaluationInterval, evaluationPeriods, period]
    }

    function Flags(): (s: seq<Ptr?<bool>>)
      reads this
      ensures |s| == 1
    {
      [actionsEnabled]
    }

    function Floats(): (s: seq<Ptr?<A.Float64>>)
      reads this
      ensures |s| == 1
    {
      [threshold]
    }
  }

  ghost predicate ScalarsAre(
    texts: seq<Ptr?<string>>, numbers: seq<Ptr?<A.int64>>, flags: seq<Ptr?<bool>>, floats: seq<Ptr?<A.Float64>>,
    t: Tree, r: set<object>)
    reads r
  {
    && t.Node? && PtrsAre(texts, t.texts, r) && PtrsAre(numbers, t.numbers, r)
    && PtrsAre(flags, t.flags, r) && PtrsAre(floats, t.floats, r)
  }

  ghost predicate ActionsAre(
    alarm: array?<Ptr?<string>>, insufficientData: array?<Ptr?<string>>, ok: array?<Ptr?<string>>,
    t: Tree, r: set<object>)
    reads r
  {
    && t.Node? && |t.parts| == 8 && TextsAre(alarm, t.parts[0], r) && TextsAre(insufficientData, t.parts[4], r)
    && TextsAre(ok, t.parts[6], r)
  }

  ghost predicate StructsAre(
    dimensions: array?<Pair?>, criteria: EvaluationCriteria?, window: EvaluationWindow?,
    metrics: array?<MetricDataQuery?>, tags: array?<Pair?>, t: Tree, r: set<object>)
    reads r
  {
    && t.Node? && |t.parts| == 8 && PairsAre(dimensions, t.parts[1], r) && CriteriaIs(criteria, t.parts[2], r)
    && WindowIs(window, t.parts[3], r) && QueriesAre(metrics, t.parts[5], r) && PairsAre(tags, t.parts[7], r)
  }

  ghost predicate SpecIs(p: MetricAlarmSpec, t: Tree, r: set<object>)
    reads r
  {
    && p in r && ScalarsAre(p.Texts(), p.Numbers(), p.Flags(), p.Floats(), t, r)
    && ActionsAre(p.alarmActions, p.insufficientDataActions, p.okActions, t, r)
    && StructsAre(p.dimensions, p.evaluationCriteria, p.evaluationWindow, p.metrics, p.tags, t, r)
  }

  method CopyScalars(p: MetricAlarmSpec, ghost t: Tree, ghost r: set<object>)
    returns (texts: seq<Ptr?<string>>, numbers: seq<Ptr?<A.int64>>, flags: seq<Ptr?<bool>>,
             floats: seq<Ptr?<A.Float64>>, ghost s: set<object>)
    requires ScalarsAre(p.Texts(), p.Numbers(), p.Flags(), p.Floats(), t, r)
    ensures fresh(s) && ScalarsAre(texts, numbers, flags, floats, t, s)
    ensures |texts| == 11 && |numbers| == 4 && |flags| == 1 && |floats| == 1
  {
    hide PtrsAre;
    ghost var s0, s1, s2, s3;
    texts, s0 := CopyPtrs(p.Texts(), t.texts, r);
    numbers, s1 := CopyPtrs(p.Numbers(), t.numbers, r);
    flags, s2 := CopyPtrs(p.Flags(), t.flags, r);
    floats, s3 := CopyPtrs(p.Floats(), t.floats, r);
    s := s0 + s1 + s2 + s3;
    PtrsGrow(texts, t.texts, s0, s);
    PtrsGrow(numbers, t.numbers, s1, s);
    PtrsGrow(flags, t.flags, s2, s);
    PtrsGrow(floats, t.floats, s3, s);
  }

  method CopyActions(p: MetricAlarmSpec, ghost t: Tree, ghost r: set<object>)
    returns (alarm: array?<Ptr?<string>>, insufficientData: array?<Ptr?<string>>, ok: array?<Ptr?<string>>,
             ghost s: set<object>)
    requires ActionsAre(p.alarmActions, p.insufficientDataActions, p.okActions, t, r)
    ensures fresh(s) && ActionsAre(alarm, insufficientData, ok, t, s)
  {
    hide TextsAre;
    ghost var s0, s1, s2;
    alarm, s0 := CopyTexts(p.alarmActions, t.parts[0], r);
    insufficientData, s1 := CopyTexts(p.insufficientDataActions, t.parts[4], r);
    ok, s2 := CopyTexts(p.okActions, t.parts[6], r);
    s := s0 + s1 + s2;
    TextsGrow(alarm, t.parts[0], s0, s);
    TextsGrow(insufficientData, t.parts[4], s1, s);
    TextsGrow(ok, t.parts[6], s2, s);
  }

  method CopyStructs(p: MetricAlarmSpec, ghost t: Tree, ghost r: set<object>)
    returns (dimensions: array?<Pair?>, criteria: EvaluationCriteria?, window: EvaluationWindow?,
             metrics: array?<MetricDataQuery?>, tags: array?<Pair?>, ghost s: set<object>)
    requires StructsAre(p.dimensions, p.evaluationCriteria, p.evaluationWindow, p.metrics, p.tags, t, r)
    ensures fresh(s) && StructsAre(dimensions, criteria, window, metrics, tags, t, s)
  {
    hide PairsAre, CriteriaIs, WindowIs, QueriesAre;
    ghost var s0, s1, s2, s3, s4;
    dimensions, s0 := CopyPairs(p.dimensions, t.parts[1], r);
    criteria, s1 := CopyCriteria(p.evaluationCriteria, t.parts[2], r);
    window, s2 := CopyWindow(p.evaluationWindow, t.parts[3], r);
    metrics, s3 := CopyQueries(p.metrics, t.parts[5], r);
    tags, s4 := CopyPairs(p.tags, t.parts[7], r);
    s := s0 + s1 + s2 + s3 + s4;
    PairsGrow(dimensions, t.parts[1], s0, s);
    CriteriaGrow(criteria, t.parts[2], s1, s);
    WindowGrows(window, t.parts[3], s2, s);
    QueriesGrow(metrics, t.parts[5], s3, s);
    PairsGrow(tags, t.parts[7], s4, s);
  }

  lemma QueriesGrow(a: array?<MetricDataQuery?>, t: Tree, r: set<object>, s: set<object>)
    requires QueriesAre(a, t, r) && r <= s
    ensures QueriesAre(a, t, s)
  {
    if a != null {
      forall i | 0 <= i < a.Length ensures QueryIs(a[i], t.parts[i], s) {
        QueryGrows(a[i], t.parts[i], r, s);
      }
    }
  }

  // DeepCopyInto of a MetricAlarmSpec: the same tree, and none of the objects of the original.
  method CopySpec(p: MetricAlarmSpec, ghost t: Tree, ghost r: set<object>)
    returns (c: MetricAlarmSpec, ghost s: set<object>)
    requires SpecIs(p, t, r)
    ensures fresh(s) && s !! r && SpecIs(c, t, s)
  {
    hide ScalarsAre, ActionsAre, StructsAre;
    var texts, numbers, flags, floats, s0 := CopyScalars(p, t, r);
    var alarm, insufficientData, ok, s1 := CopyActions(p, t, r);
    var dimensions, criteria, window, metrics, tags, s2 := CopyStructs(p, t, r);
    c := new MetricAlarmSpec(
      texts, numbers, flags, floats, alarm, insufficientData, ok, dimensions, criteria, window, metrics, tags);
    s := {c} + s0 + s1 + s2;
    ScalarsGrow(texts, numbers, flags, floats, t, s0, s);
    ActionsGrow(alarm, insufficientData, ok, t, s1, s);
    StructsGrow(dimensions, criteria, window, metrics, tags, t, s2, s);
  }

  lemma ScalarsGrow(
    texts: seq<Ptr?<string>>, numbers: seq<Ptr?<A.int64>>, flags: seq<Ptr?<bool>>, floats: seq<Ptr?<A.Float64>>,
    t: Tree, r: set<object>, s: set<object>)
    requires ScalarsAre(texts, numbers, flags, floats, t, r) && r <= s
    ensures ScalarsAre(texts, numbers, flags, floats, t, s)
  {
  }

  lemma ActionsGrow(
    alarm: array?<Ptr?<string>>, insufficientData: array?<Ptr?<string>>, ok: array?<Ptr?<string>>,
    t: Tree, r: set<object>, s: set<object>)
    requires ActionsAre(alarm, insufficientData, ok, t, r) && r <= s
    ensures ActionsAre(alarm, insufficientData, ok, t, s)
  {
  }

  lemma StructsGrow(
    dimensions: array?<Pair?>, criteria: EvaluationCriteria?, window: EvaluationWindow?,
    metrics: array?<MetricDataQuery?>, tags: array?<Pair?>, t: Tree, r: set<object>, s: set<object>)
    requires StructsAre(dimensions, criteria, window, metrics, tags, t, r) && r <= s
    ensures StructsAre(dimensions, criteria, window, metrics, tags, t, s)
  {
    PairsGrow(dimensions, t.parts[1], r, s);
    CriteriaGrow(criteria, t.parts[2], r, s);
    WindowGrows(window, t.parts[3], r, s);
    QueriesGrow(metrics, t.parts[5], r, s);
    PairsGrow(tags, t.parts[7], r, s);
  }

  /******* Every spec shows some tree *******/

  lemma PtrsShow<T>(ps: seq<Ptr?<T>>) returns (vs: seq<Option<T>>, r: set<object>)
    ensures PtrsAre(ps, vs, r)
  {
    vs, r := [], {};
    for i := 0 to |ps|
      invariant PtrsAre(ps[..i], vs, r)
    {
      if ps[i] == null {
        vs := vs + [None];
      } else {
        vs, r := vs + [Some(ps[i].value)], r + {ps[i]};
      }
    }
    assert ps[..|ps|] == ps;
  }

  lemma TextsShow(a: array?<Ptr?<string>>) returns (t: Tree, r: set<object>)
    ensures TextsAre(a, t, r)
  {
    if a == null { return Nil, {}; }
    var vs;
    vs, r := PtrsShow(a[..]);
    t, r := Node(vs, [], [], [], []), r + {a};
  }

  lemma PairShows(p: Pair?) returns (t: Tree, r: set<object>)
    ensures PairIs(p, t, r)
  {
    if p == null { return Nil, {}; }
    var vs;
    vs, r := PtrsShow(p.Texts());
    t, r := Node(vs, [], [], [], []), r + {p};
  }

  lemma PairsShow(a: array?<Pair?>) returns (t: Tree, r: set<object>)
    ensures PairsAre(a, t, r)
  {
    if a == null { return Nil, {}; }
    var ts;
    ts, r := [], {a};
    for i := 0 to a.Length
      invariant |ts| == i && a in r && forall j | 0 <= j < i :: PairIs(a[j], ts[j], r)
    {
      var u, more := PairShows(a[i]);
      ts, r := ts + [u], r + more;
    }
    t := Node([], [], [], [], ts);
  }

  lemma QueryShows(q: MetricDataQuery?) returns (t: Tree, r: set<object>)
    ensures QueryIs(q, t, r)
  {
    if q == null { return Nil, {}; }
    var texts, r0 := PtrsShow(q.Texts());
    var numbers, r1 := PtrsShow(q.Numbers());
    var flags, r2 := PtrsShow(q.Flags());
    var stat, r3 := MetricStatShows(q.metricStat);
    t, r := Node(texts, numbers, flags, [], [stat]), {q} + r0 + r1 + r2 + r3;
    MetricStatGrows(q.metricStat, stat, r3, r);
  }

  lemma MetricStatShows(m: MetricStat?) returns (t: Tree, r: set<object>)
    ensures MetricStatIs(m, t, r)
  {
    if m == null { return Nil, {}; }
    var texts, r0 := PtrsShow(m.Texts());
    var numbers, r1 := PtrsShow(m.Numbers());
    var metric, r2 := MetricShows(m.metric);
    t, r := Node(texts, numbers, [], [], [metric]), {m} + r0 + r1 + r2;
    MetricGrows(m.metric, metric, r2, r);
  }

  lemma MetricShows(m: Metric?) returns (t: Tree, r: set<object>)
    ensures MetricIs(m, t, r)
  {
    if m == null { return Nil, {}; }
    var texts, r0 := PtrsShow(m.Texts());
    var dimensions, r1 := PairsShow(m.dimensions);
    t, r := Node(texts, [], [], [], [dimensions]), {m} + r0 + r1;
    PairsGrow(m.dimensions, dimensions, r1, r);
  }

  lemma QueriesShow(a: array?<MetricDataQuery?>) returns (t: Tree, r: set<object>)
    ensures QueriesAre(a, t, r)
  {
    hide QueryIs;
    if a == null { return Nil, {}; }
    var ts;
    ts, r := [], {a};
    for i := 0 to a.Length
      invariant |ts| == i && a in r && forall j | 0 <= j < i :: QueryIs(a[j], ts[j], r)
    {
      var u, more := QueryShows(a[i]);
      forall j | 0 <= j < i ensures QueryIs(a[j], ts[j], r + more) {
        QueryGrows(a[j], ts[j], r, r + more);
      }
      QueryGrows(a[i], u, more, r + more);
      ts, r := ts + [u], r + more;
    }
    t := Node([], [], [], [], ts);
  }

  lemma CriteriaShow(c: EvaluationCriteria?) returns (t: Tree, r: set<object>)
    ensures CriteriaIs(c, t, r)
  {
    if c == null { return Nil, {}; }
    if c.promQL == null { return Node([], [], [], [], [Nil]), {c}; }
    var numbers, r0 := PtrsShow(c.promQL.Numbers());
    var texts, r1 := PtrsShow(c.promQL.Texts());
    t, r := Node([], [], [], [], [Node(texts, numbers, [], [], [])]), {c, c.promQL} + r0 + r1;
  }

  lemma TableShows(m: TextMap?) returns (t: Tree, r: set<object>)
    ensures TableIs(m, t, r)
  {
    if m == null { return Nil, {}; }
    t := Table(map k | k in m.m :: if m.m[k] == null then None else Some(m.m[k].value));
    r := {m} + set k | k in m.m && m.m[k] != null :: m.m[k] as object;
  }

  lemma WindowShows(w: EvaluationWindow?) returns (t: Tree, r: set<object>)
    ensures WindowIs(w, t, r)
  {
    if w == null { return Nil, {}; }
    var table, r0 := TableShows(w.slidingWindow);
    var clock, r1 := Nil, {};
    if w.wallClockWindow != null {
      var texts;
      texts, r1 := PtrsShow(w.wallClockWindow.Texts());
      clock, r1 := Node(texts, [], [], [], []), r1 + {w.wallClockWindow};
    }
    t, r := Node([], [], [], [], [table, clock]), {w} + r0 + r1;
    TableGrows(w.slidingWindow, table, r0, r);
    WallClockGrows(w.wallClockWindow, clock, r1, r);
  }

  lemma SpecShows(p: MetricAlarmSpec) returns (t: Tree, r: set<object>)
    ensures SpecIs(p, t, r)
  {
    hide PtrsAre, TextsAre, PairsAre, CriteriaIs, WindowIs, QueriesAre;
    var texts, r0 := PtrsShow(p.Texts());
    var numbers, r1 := PtrsShow(p.Numbers());
    var flags, r2 := PtrsShow(p.Flags());
    var floats, r3 := PtrsShow(p.Floats());
    var alarm, r4 := TextsShow(p.alarmActions);
    var dimensions, r5 := PairsShow(p.dimensions);
    var criteria, r6 := CriteriaShow(p.evaluationCriteria);
    var window, r7 := WindowShows(p.evaluationWindow);
    var insufficientData, r8 := TextsShow(p.insufficientDataActions);
    var metrics, r9 := QueriesShow(p.metrics);
    var ok, r10 := TextsShow(p.okActions);
    var tags, r11 := PairsShow(p.tags);
    t := Node(texts, numbers, flags, floats,
              [alarm, dimensions, criteria, window, insufficientData, metrics, ok, tags]);
    r := {p} + r0 + r1 + r2 + r3 + r4 + r5 + r6 + r7 + r8 + r9 + r10 + r11;
    PtrsGrow(p.Texts(), texts, r0, r);
    PtrsGrow(p.Numbers(), numbers, r1, r);
    PtrsGrow(p.Flags(), flags, r2, r);
    PtrsGrow(p.Floats(), floats, r3, r);
    TextsGrow(p.alarmActions, alarm, r4, r);
    PairsGrow(p.dimensions, dimensions, r5, r);
    CriteriaGrow(p.evaluationCriteria, criteria, r6, r);
    WindowGrows(p.evaluationWindow, window, r7, r);
    TextsGrow(p.insufficientDataActions, insufficientData, r8, r);
    QueriesGrow(p.metrics, metrics, r9, r);
    TextsGrow(p.okActions, ok, r10, r);
    PairsGrow(p.tags, tags, r11, r);
  }

  /******* What a tree tells *******/

  function Shown<T>(p: Ptr?<T>): Option<T>
    reads p
  {
    if p == null then None else Some(p.value)
  }

  lemma ShownTells<T>(p: Ptr?<T>, q: Ptr?<T>)
    requires Shown(p) == Shown(q)
    ensures p == null <==> q == null
    ensures p != null ==> p.value == q.value
  {
  }

  lemma PtrsTell<T>(ps: seq<Ptr?<T>>, qs: seq<Ptr?<T>>, vs: seq<Option<T>>, r: set<object>, s: set<object>)
    requires PtrsAre(ps, vs, r) && PtrsAre(qs, vs, s)
    ensures |ps| == |qs| && forall i | 0 <= i < |ps| :: Shown(ps[i]) == Shown(qs[i])
  {
    forall i | 0 <= i < |ps| ensures Shown(ps[i]) == Shown(qs[i]) {
      assert PtrIs(ps[i], vs[i], r) && PtrIs(qs[i], vs[i], s);
    }
  }

  // Slices with one tree are nil alike, of equal length and with equal elements.
  lemma TextsTell(a: array?<Ptr?<string>>, b: array?<Ptr?<string>>, t: Tree, r: set<object>, s: set<object>)
    requires TextsAre(a, t, r) && TextsAre(b, t, s)
    ensures a == null <==> b == null
    ensures a != null ==> a.Length == b.Length && forall i | 0 <= i < a.Length :: Shown(a[i]) == Shown(b[i])
  {
    if a != null {
      PtrsTell(a[..], b[..], t.texts, r, s);
      forall i | 0 <= i < a.Length ensures Shown(a[i]) == Shown(b[i]) {
        assert a[..][i] == a[i] && b[..][i] == b[i];
      }
    }
  }

  lemma PairTells(p: Pair?, q: Pair?, t: Tree, r: set<object>, s: set<object>)
    requires PairIs(p, t, r) && PairIs(q, t, s)
    ensures p == null <==> q == null
    ensures p != null ==> Shown(p.first) == Shown(q.first) && Shown(p.second) == Shown(q.second)
  {
    if p != null {
      PtrsTell(p.Texts(), q.Texts(), t.texts, r, s);
      assert p.Texts()[0] == p.first && p.Texts()[1] == p.second;
      assert q.Texts()[0] == q.first && q.Texts()[1] == q.second;
    }
  }

  lemma PairsTell(a: array?<Pair?>, b: array?<Pair?>, t: Tree, r: set<object>, s: set<object>)
    requires PairsAre(a, t, r) && PairsAre(b, t, s)
    ensures a == null <==> b == null
    ensures a != null ==>
              && a.Length == b.Length
              && (forall i | 0 <= i < a.Length :: a[i] == null <==> b[i] == null)
              && (forall i | 0 <= i < a.Length && a[i] != null ::
                    Shown(a[i].first) == Shown(b[i].first) && Shown(a[i].second) == Shown(b[i].second))
  {
    hide PairIs;
    if a != null {
      forall i | 0 <= i < a.Length
        ensures a[i] == null <==> b[i] == null
        ensures a[i] != null ==>
                  Shown(a[i].first) == Shown(b[i].first) && Shown(a[i].second) == Shown(b[i].second)
      {
        PairTells(a[i], b[i], t.parts[i], r, s);
      }
    }
  }

  // Structs with one tree are nil alike and have equal scalars, and below them they have one
  // tree again.
  lemma MetricTells(m: Metric?, n: Metric?, t: Tree, r: set<object>, s: set<object>)
    requires MetricIs(m, t, r) && MetricIs(n, t, s)
    ensures m == null <==> n == null
    ensures m != null ==> Shown(m.metricName) == Shown(n.metricName) && Shown(m.namespace) == Shown(n.namespace)
    ensures m != null ==> exists u :: PairsAre(m.dimensions, u, r) && PairsAre(n.dimensions, u, s)
  {
    hide PairsAre;
    if m != null {
      PtrsTell(m.Texts(), n.Texts(), t.texts, r, s);
      assert m.Texts()[0] == m.metricName && m.Texts()[1] == m.namespace;
      assert n.Texts()[0] == n.metricName && n.Texts()[1] == n.namespace;
      assert PairsAre(m.dimensions, t.parts[0], r) && PairsAre(n.dimensions, t.parts[0], s);
    }
  }

  lemma MetricStatTells(m: MetricStat?, n: MetricStat?, t: Tree, r: set<object>, s: set<object>)
    requires MetricStatIs(m, t, r) && MetricStatIs(n, t, s)
    ensures m == null <==> n == null
    ensures m != null ==>
              Shown(m.period) == Shown(n.period) && Shown(m.stat) == Shown(n.stat) && Shown(m.unit) == Shown(n.unit)
    ensures m != null ==> exists u :: MetricIs(m.metric, u, r) && MetricIs(n.metric, u, s)
  {
    hide MetricIs;
    if m != null {
      PtrsTell(m.Texts(), n.Texts(), t.texts, r, s);
      PtrsTell(m.Numbers(), n.Numbers(), t.numbers, r, s);
      assert m.Texts()[0] == m.stat && m.Texts()[1] == m.unit && m.Numbers()[0] == m.period;
      assert n.Texts()[0] == n.stat && n.Texts()[1] == n.unit && n.Numbers()[0] == n.period;
      assert MetricIs(m.metric, t.parts[0], r) && MetricIs(n.metric, t.parts[0], s);
    }
  }

  lemma QueryTells(p: MetricDataQuery?, q: MetricDataQuery?, t: Tree, r: set<object>, s: set<object>)
    requires QueryIs(p, t, r) && QueryIs(q, t, s)
    ensures p == null <==> q == null
    ensures p != null ==>
              && Shown(p.accountID) == Shown(q.accountID) && Shown(p.expression) == Shown(q.expression)
              && Shown(p.id) == Shown(q.id) && Shown(p.label_) == Shown(q.label_)
              && Shown(p.period) == Shown(q.period) && Shown(p.returnData) == Shown(q.returnData)
    ensures p != null ==> exists u :: MetricStatIs(p.metricStat, u, r) && MetricStatIs(q.metricStat, u, s)
  {
    hide MetricStatIs, PtrsAre;
    if p != null {
      PtrsTell(p.Texts(), q.Texts(), t.texts, r, s);
      PtrsTell(p.Numbers(), q.Numbers(), t.numbers, r, s);
      PtrsTell(p.Flags(), q.Flags(), t.flags, r, s);
      assert p.Texts()[0] == p.accountID && p.Texts()[1] == p.expression && p.Texts()[2] == p.id;
      assert q.Texts()[0] == q.accountID && q.Texts()[1] == q.expression && q.Texts()[2] == q.id;
      assert p.Texts()[3] == p.label_ && p.Numbers()[0] == p.period && p.Flags()[0] == p.returnData;
      assert q.Texts()[3] == q.label_ && q.Numbers()[0] == q.period && q.Flags()[0] == q.returnData;
      assert MetricStatIs(p.metricStat, t.parts[0], r) && MetricStatIs(q.metricStat, t.parts[0], s);
    }
  }

  lemma QueriesTell(a: array?<MetricDataQuery?>, b: array?<MetricDataQuery?>, t: Tree, r: set<object>, s: set<object>)
    requires QueriesAre(a, t, r) && QueriesAre(b, t, s)
    ensures a == null <==> b == null
    ensures a != null ==> a.Length == b.Length
  {
  }

  lemma QueryAtTells(
    a: array<MetricDataQuery?>, b: array<MetricDataQuery?>, t: Tree, r: set<object>, s: set<object>, i: nat)
    requires QueriesAre(a, t, r) && QueriesAre(b, t, s)
    requires i < a.Length && i < b.Length
    ensures exists u :: QueryIs(a[i], u, r) && QueryIs(b[i], u, s)
  {
    hide QueryIs;
    assert QueryIs(a[i], t.parts[i], r) && QueryIs(b[i], t.parts[i], s);
  }

  lemma CriteriaTell(c: EvaluationCriteria?, d: EvaluationCriteria?, t: Tree, r: set<object>, s: set<object>)
    requires CriteriaIs(c, t, r) && CriteriaIs(d, t, s)
    ensures c == null <==> d == null
    ensures c != null ==> (c.promQL == null <==> d.promQL == null)
    ensures c != null && c.promQL != null ==>
              && Shown(c.promQL.pendingPeriod) == Shown(d.promQL.pendingPeriod)
              && Shown(c.promQL.recoveryPeriod) == Shown(d.promQL.recoveryPeriod)
              && Shown(c.promQL.query) == Shown(d.promQL.query)
  {
    if c != null && c.promQL != null {
      var p, q := c.promQL, d.promQL;
      PtrsTell(p.Numbers(), q.Numbers(), t.parts[0].numbers, r, s);
      PtrsTell(p.Texts(), q.Texts(), t.parts[0].texts, r, s);
      assert p.Numbers()[0] == p.pendingPeriod && p.Numbers()[1] == p.recoveryPeriod && p.Texts()[0] == p.query;
      assert q.Numbers()[0] == q.pendingPeriod && q.Numbers()[1] == q.recoveryPeriod && q.Texts()[0] == q.query;
    }
  }

  // The map of a sliding window: nil alike, the same keys and at every key the same value.
  lemma WindowTells(v: EvaluationWindow?, w: EvaluationWindow?, t: Tree, r: set<object>, s: set<object>)
    requires WindowIs(v, t, r) && WindowIs(w, t, s)
    ensures v == null <==> w == null
    ensures v != null ==> (v.slidingWindow == null <==> w.slidingWindow == null)
    ensures v != null && v.slidingWindow != null ==>
              && v.slidingWindow.m.Keys == w.slidingWindow.m.Keys
              && forall k | k in v.slidingWindow.m :: Shown(v.slidingWindow.m[k]) == Shown(w.slidingWindow.m[k])
    ensures v != null ==> (v.wallClockWindow == null <==> w.wallClockWindow == null)
    ensures v != null && v.wallClockWindow != null ==>
              Shown(v.wallClockWindow.timezone) == Shown(w.wallClockWindow.timezone)
  {
    if v != null && v.wallClockWindow != null {
      var x, y := v.wallClockWindow, w.wallClockWindow;
      PtrsTell(x.Texts(), y.Texts(), t.parts[1].texts, r, s);
      assert x.Texts()[0] == x.timezone && y.Texts()[0] == y.timezone;
    }
  }

  // Two specs with one tree have equal scalars, nil or not,
  lemma SpecTellsScalars(p: MetricAlarmSpec, q: MetricAlarmSpec, t: Tree, r: set<object>, s: set<object>)
    requires SpecIs(p, t, r) && SpecIs(q, t, s)
    ensures Shown(p.alarmDescription) == Shown(q.alarmDescription)
    ensures Shown(p.comparisonOperator) == Shown(q.comparisonOperator)
    ensures Shown(p.evaluateLowSampleCountPercentile) == Shown(q.evaluateLowSampleCountPercentile)
    ensures Shown(p.extendedStatistic) == Shown(q.extendedStatistic)
    ensures Shown(p.metricName) == Shown(q.metricName) && Shown(p.name) == Shown(q.name)
    ensures Shown(p.namespace) == Shown(q.namespace) && Shown(p.statistic) == Shown(q.statistic)
    ensures Shown(p.thresholdMetricID) == Shown(q.thresholdMetricID)
    ensures Shown(p.treatMissingData) == Shown(q.treatMissingData) && Shown(p.unit) == Shown(q.unit)
    ensures Shown(p.datapointsToAlarm) == Shown(q.datapointsToAlarm)
    ensures Shown(p.evaluationInterval) == Shown(q.evaluationInterval)
    ensures Shown(p.evaluationPeriods) == Shown(q.evaluationPeriods) && Shown(p.period) == Shown(q.period)
    ensures Shown(p.actionsEnabled) == Shown(q.actionsEnabled) && Shown(p.threshold) == Shown(q.threshold)
  {
    hide ActionsAre, StructsAre, PtrsAre, Shown;
    PtrsTell(p.Texts(), q.Texts(), t.texts, r, s);
    PtrsTell(p.Numbers(), q.Numbers(), t.numbers, r, s);
    PtrsTell(p.Flags(), q.Flags(), t.flags, r, s);
    PtrsTell(p.Floats(), q.Floats(), t.floats, r, s);
    var x, y := p.Texts(), q.Texts();
    assert forall i | 0 <= i < 11 :: Shown(x[i]) == Shown(y[i]);
    assert Shown(x[0]) == Shown(y[0]) && Shown(x[1]) == Shown(y[1]) && Shown(x[2]) == Shown(y[2]);
    assert Shown(x[3]) == Shown(y[3]) && Shown(x[4]) == Shown(y[4]) && Shown(x[5]) == Shown(y[5]);
    assert Shown(x[6]) == Shown(y[6]) && Shown(x[7]) == Shown(y[7]) && Shown(x[8]) == Shown(y[8]);
    assert Shown(x[9]) == Shown(y[9]) && Shown(x[10]) == Shown(y[10]);
    var n, m := p.Numbers(), q.Numbers();
    assert Shown(n[0]) == Shown(m[0]) && Shown(n[1]) == Shown(m[1]);
    assert Shown(n[2]) == Shown(m[2]) && Shown(n[3]) == Shown(m[3]);
    assert Shown(p.Flags()[0]) == Shown(q.Flags()[0]) && Shown(p.Floats()[0]) == Shown(q.Floats()[0]);
  }

  // and in each of the other fields one tree again.
  lemma SpecTellsStructs(p: MetricAlarmSpec, q: MetricAlarmSpec, t: Tree, r: set<object>, s: set<object>)
    requires SpecIs(p, t, r) && SpecIs(q, t, s)
    ensures exists u :: TextsAre(p.alarmActions, u, r) && TextsAre(q.alarmActions, u, s)
    ensures exists u :: PairsAre(p.dimensions, u, r) && PairsAre(q.dimensions, u, s)
    ensures exists u :: CriteriaIs(p.evaluationCriteria, u, r) && CriteriaIs(q.evaluationCriteria, u, s)
    ensures exists u :: WindowIs(p.evaluationWindow, u, r) && WindowIs(q.evaluationWindow, u, s)
    ensures exists u :: TextsAre(p.insufficientDataActions, u, r) && TextsAre(q.insufficientDataActions, u, s)
    ensures exists u :: QueriesAre(p.metrics, u, r) && QueriesAre(q.metrics, u, s)
    ensures exists u :: TextsAre(p.okActions, u, r) && TextsAre(q.okActions, u, s)
    ensures exists u :: PairsAre(p.tags, u, r) && PairsAre(q.tags, u, s)
  {
    hide ScalarsAre, TextsAre, PairsAre, CriteriaIs, WindowIs, QueriesAre;
    assert TextsAre(p.alarmActions, t.parts[0], r) && TextsAre(q.alarmActions, t.parts[0], s);
    assert PairsAre(p.dimensions, t.parts[1], r) && PairsAre(q.dimensions, t.parts[1], s);
    assert CriteriaIs(p.evaluationCriteria, t.parts[2], r) && CriteriaIs(q.evaluationCriteria, t.parts[2], s);
    assert WindowIs(p.evaluationWindow, t.parts[3], r) && WindowIs(q.evaluationWindow, t.parts[3], s);
    assert TextsAre(p.insufficientDataActions, t.parts[4], r) && TextsAre(q.insufficientDataActions, t.parts[4], s);
    assert QueriesAre(p.metrics, t.parts[5], r) && QueriesAre(q.metrics, t.parts[5], s);
    assert TextsAre(p.okActions, t.parts[6], r) && TextsAre(q.okActions, t.parts[6], s);
    assert PairsAre(p.tags, t.parts[7], r) && PairsAre(q.tags, t.parts[7], s);
  }

  // DeepCopy of any MetricAlarmSpec, nil included.
  method DeepCopySpec(p: MetricAlarmSpec?)
    returns (c: MetricAlarmSpec?, ghost t: Tree, ghost r: set<object>, ghost s: set<object>)
    ensures (c == null) == (p == null)
    ensures p != null ==> SpecIs(p, t, r) && SpecIs(c, t, s) && fresh(s) && s !! r
  {
    t, r, s := Nil, {}, {};
    if p == null { return null, t, r, s; }
    t, r := SpecShows(p);
    c, s := CopySpec(p, t, r);
  }
}
