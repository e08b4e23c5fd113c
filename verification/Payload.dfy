// pkg/resource/metric_alarm/sdk.go: building the PutMetricAlarm request. The create
// and the update builder have the same text, so one method stands for both.

module Payload {
  import opened Wrappers
  import opened Tags
  import opened AlarmTypes

  /******* Specification: what is sent, and what is wrong with a spec *******/

  function MapOption<T, U>(f: T -> U, o: Option<T>): Option<U> {
    if o.Some? then Some(f(o.value)) else None
  }

  function MapSeq<T, U>(f: T -> U, s: seq<T>): seq<U> {
    seq(|s|, i requires 0 <= i < |s| => f(s[i]))
  }

  predicate FitsInt32(x: int64) {
    -0x8000_0000 <= x < 0x8000_0000
  }

  // Go's int32(x): keep the low 32 bits.
  function ToInt32(x: int64): int32 {
    (x + 0x8000_0000) % 0x1_0000_0000 - 0x8000_0000
  }

  // aws.ToStringSlice: a nil element becomes the empty string.
  function PlainString(s: Option<string>): string {
    s.GetOr("")
  }

  function EncodeDimension(d: Dimension): SdkDimension {
    SdkDimension(d.name, d.value)
  }

  function EncodeDimensions(ds: Option<seq<Dimension>>): Option<seq<SdkDimension>> {
    if ds.Some? then Some(MapSeq(EncodeDimension, ds.value)) else None
  }

  function EncodeMetric(m: Metric): SdkMetric {
    SdkMetric(
      EncodeDimensions(m.dimensions), m.metricName, m.namespace)
  }

  function EncodeMetricStat(s: MetricStat): SdkMetricStat {
    SdkMetricStat(MapOption(EncodeMetric, s.metric), MapOption(ToInt32, s.period), s.stat, PlainString(s.unit))
  }

  function EncodeQuery(q: MetricDataQuery): SdkMetricDataQuery {
    SdkMetricDataQuery(q.accountID, q.expression, q.id, q.label_,
                       MapOption(EncodeMetricStat, q.metricStat), MapOption(ToInt32, q.period), q.returnData)
  }

  function EncodeQueries(qs: Option<seq<MetricDataQuery>>): Option<seq<SdkMetricDataQuery>> {
    if qs.Some? then Some(MapSeq(EncodeQuery, qs.value)) else None
  }

  // A union without a member is the nil interface.
  function EncodeCriteria(c: Option<EvaluationCriteria>): Option<SdkCriteria> {
    if c.None? || c.value.promQL.None? then None else
      var p := c.value.promQL.value;
      Some(PromQLMember(MapOption(ToInt32, p.pendingPeriod), p.query, MapOption(ToInt32, p.recoveryPeriod)))
  }

  function EncodeWindow(w: Option<EvaluationWindow>): Option<SdkWindow> {
    if w.None? then None
    else if w.value.wallClockWindow.Some? then Some(WallClockWindowMember(w.value.wallClockWindow.value.timezone))
    else if w.value.slidingWindow.Some? then Some(SlidingWindowMember)
    else None
  }

  function EncodeStrings(s: Option<seq<Option<string>>>): Option<seq<string>> {
    if s.Some? then Some(MapSeq(PlainString, s.value)) else None
  }

  // The request a spec stands for when nothing is wrong with it.
  function Encode(s: MetricAlarmSpec): SdkAlarm {
    SdkAlarm(
      s.actionsEnabled,
      EncodeStrings(s.alarmActions),
      s.alarmDescription,
      s.name,
      PlainString(s.comparisonOperator),
      MapOption(ToInt32, s.datapointsToAlarm),
      EncodeDimensions(s.dimensions),
      s.evaluateLowSampleCountPercentile,
      EncodeCriteria(s.evaluationCriteria),
      MapOption(ToInt32, s.evaluationInterval),
      MapOption(ToInt32, s.evaluationPeriods),
      EncodeWindow(s.evaluationWindow),
      s.extendedStatistic,
      EncodeStrings(s.insufficientDataActions),
      s.metricName,
      EncodeQueries(s.metrics),
      s.namespace,
      EncodeStrings(s.okActions),
      MapOption(ToInt32, s.period),
      PlainString(s.statistic),
      s.threshold,
      s.thresholdMetricID,
      s.treatMissingData,
      PlainString(s.unit))
  }

  function NotInt32Error(field: string): Error {
    Error(NotInt32(field), "field is of type int32", None)
  }

  const TWO_MEMBERS :=
    Error(TerminalError, "can only set one of the members for WallClockWindow", None)

  function Overflow(field: string, x: Option<int64>): seq<Error> {
    if x.Some? && !FitsInt32(x.value) then [NotInt32Error(field)] else []
  }

  function QueryOffences(q: MetricDataQuery): seq<Error> {
    (if q.metricStat.Some? then Overflow("Period", q.metricStat.value.period) else []) + Overflow("Period", q.period)
  }

  // What is wrong with the first n queries.
  function FirstQueriesOffences(qs: seq<MetricDataQuery>, n: nat): seq<Error>
    requires n <= |qs|
  {
    if n == 0 then [] else FirstQueriesOffences(qs, n - 1) + QueryOffences(qs[n - 1])
  }

  function QueriesOffences(qs: Option<seq<MetricDataQuery>>): seq<Error> {
    if qs.Some? then FirstQueriesOffences(qs.value, |qs.value|) else []
  }

  function CriteriaOffences(c: Option<EvaluationCriteria>): seq<Error> {
    if c.Some? && c.value.promQL.Some? then
      Overflow("PendingPeriod", c.value.promQL.value.pendingPeriod)
      + Overflow("RecoveryPeriod", c.value.promQL.value.recoveryPeriod)
    else
      []
  }

  function WindowOffences(w: Option<EvaluationWindow>): seq<Error> {
    if w.Some? && w.value.slidingWindow.Some? && w.value.wallClockWindow.Some? then [TWO_MEMBERS] else []
  }

  function FirstOffences(s: MetricAlarmSpec): seq<Error> {
    Overflow("DatapointsToAlarm", s.datapointsToAlarm) + CriteriaOffences(s.evaluationCriteria)
  }

  function SecondOffences(s: MetricAlarmSpec): seq<Error> {
    Overflow("EvaluationInterval", s.evaluationInterval) + Overflow("EvaluationPeriods", s.evaluationPeriods)
    + WindowOffences(s.evaluationWindow)
  }

  function ThirdOffences(s: MetricAlarmSpec): seq<Error> {
    QueriesOffences(s.metrics) + Overflow("Period", s.period)
  }

  // Everything wrong with a spec, in field order.
  function Offences(s: MetricAlarmSpec): seq<Error> {
    FirstOffences(s) + SecondOffences(s) + ThirdOffences(s)
  }

  function BuildResult(s: MetricAlarmSpec): Result<PutMetricAlarmInput, Error> {
    if Offences(s) == [] then Ok(PutMetricAlarmInput(Encode(s), s.tags)) else Err(Offences(s)[0])
  }

  /******* The builder *******/

  method BuildDimensions(ds: Option<seq<Dimension>>) returns (r: Option<seq<SdkDimension>>)
    ensures r == EncodeDimensions(ds)
  {
    if ds.None? { return None; }
    var l, out := ds.value, [];
    for i := 0 to |l|
      invariant out == MapSeq(EncodeDimension, l[..i])
    {
      var elem := SdkDimension(None, None);
      if l[i].name.Some? { elem := elem.(name := l[i].name); }
      if l[i].value.Some? { elem := elem.(value := l[i].value); }
      assert elem == EncodeDimension(l[i]);
      out := out + [elem];
    }
    assert l[..|l|] == l;
    return Some(out);
  }

  method Narrow(field: string, x: Option<int64>) returns (r: Result<Option<int32>, Error>)
    ensures r == if Overflow(field, x) == [] then Ok(MapOption(ToInt32, x)) else Err(Overflow(field, x)[0])
  {
    if x.None? { return Ok(None); }
    if x.value > 0x7fff_ffff || x.value < -0x8000_0000 { return Err(NotInt32Error(field)); }
    return Ok(Some(ToInt32(x.value)));
  }

  method BuildMetricStat(s: MetricStat) returns (r: Result<SdkMetricStat, Error>)
    ensures Overflow("Period", s.period) == [] ==> r == Ok(EncodeMetricStat(s))
    ensures Overflow("Period", s.period) != [] ==> r == Err(Overflow("Period", s.period)[0])
  {
    var elem := SdkMetricStat(None, None, None, "");
    if s.metric.Some? {
      var m := SdkMetric(None, None, None);
      var ds := BuildDimensions(s.metric.value.dimensions);
      m := m.(dimensions := ds);
      if s.metric.value.metricName.Some? { m := m.(metricName := s.metric.value.metricName); }
      if s.metric.value.namespace.Some? { m := m.(namespace := s.metric.value.namespace); }
      elem := elem.(metric := Some(m));
    }
    var period := Narrow("Period", s.period);
    if period.Err? { return Err(period.error); }
    elem := elem.(period := period.value);
    if s.stat.Some? { elem := elem.(stat := s.stat); }
    if s.unit.Some? { elem := elem.(unit := s.unit.value); }
    return Ok(elem);
  }

  method BuildQuery(q: MetricDataQuery) returns (r: Result<SdkMetricDataQuery, Error>)
    ensures QueryOffences(q) == [] ==> r == Ok(EncodeQuery(q))
    ensures QueryOffences(q) != [] ==> r == Err(QueryOffences(q)[0])
  {
    var elem := SdkMetricDataQuery(None, None, None, None, None, None, None);
    if q.accountID.Some? { elem := elem.(accountId := q.accountID); }
    if q.expression.Some? { elem := elem.(expression := q.expression); }
    if q.id.Some? { elem := elem.(id := q.id); }
    if q.label_.Some? { elem := elem.(label_ := q.label_); }
    if q.metricStat.Some? {
      var stat := BuildMetricStat(q.metricStat.value);
      if stat.Err? { return Err(stat.error); }
      elem := elem.(metricStat := Some(stat.value));
    }
    var period := Narrow("Period", q.period);
    if period.Err? { return Err(period.error); }
    elem := elem.(period := period.value);
    if q.returnData.Some? { elem := elem.(returnData := q.returnData); }
    return Ok(elem);
  }

  lemma {:induction false} EarlierOffences(qs: seq<MetricDataQuery>, i: nat, n: nat)
    requires i <= n <= |qs|
    ensures FirstQueriesOffences(qs, i) <= FirstQueriesOffences(qs, n)
  {
    if i == n {
    } else {
      EarlierOffences(qs, i, n - 1);
    }
  }

  method BuildQueries(qs: Option<seq<MetricDataQuery>>) returns (r: Result<Option<seq<SdkMetricDataQuery>>, Error>)
    ensures r == if QueriesOffences(qs) == [] then Ok(EncodeQueries(qs)) else Err(QueriesOffences(qs)[0])
  {
    if qs.None? { return Ok(None); }
    var l, out := qs.value, [];
    for i := 0 to |l|
      invariant FirstQueriesOffences(l, i) == []
      invariant out == MapSeq(EncodeQuery, l[..i])
    {
      EarlierOffences(l, i + 1, |l|);
      var elem := BuildQuery(l[i]);
      if elem.Err? { return Err(elem.error); }
      out := out + [elem.value];
    }
    assert l[..|l|] == l;
    return Ok(Some(out));
  }

  method BuildStringList(ss: Option<seq<Option<string>>>) returns (r: Option<seq<string>>)
    ensures r == EncodeStrings(ss)
  {
    if ss.None? { return None; }
    var l, out := ss.value, [];
    for i := 0 to |l|
      invariant out == MapSeq(PlainString, l[..i])
    {
      var elem := if l[i].Some? then l[i].value else "";
      assert elem == PlainString(l[i]);
      out := out + [elem];
    }
    assert l[..|l|] == l;
    return Some(out);
  }

  method BuildCriteria(c: Option<EvaluationCriteria>) returns (r: Result<Option<SdkCriteria>, Error>)
    ensures r == if CriteriaOffences(c) == [] then Ok(EncodeCriteria(c)) else Err(CriteriaOffences(c)[0])
  {
    if c.None? || c.value.promQL.None? { return Ok(None); }
    var p, v := c.value.promQL.value, PromQLMember(None, None, None);
    var pending := Narrow("PendingPeriod", p.pendingPeriod);
    if pending.Err? { return Err(pending.error); }
    v := v.(pendingPeriod := pending.value);
    if p.query.Some? { v := v.(query := p.query); }
    var recovery := Narrow("RecoveryPeriod", p.recoveryPeriod);
    if recovery.Err? { return Err(recovery.error); }
    v := v.(recoveryPeriod := recovery.value);
    return Ok(Some(v));
  }

  method BuildWindow(w: Option<EvaluationWindow>) returns (r: Result<Option<SdkWindow>, Error>)
    ensures r == if WindowOffences(w) == [] then Ok(EncodeWindow(w)) else Err(WindowOffences(w)[0])
  {
    if w.None? { return Ok(None); }
    var f, isInterfaceSet := None, false;
    if w.value.slidingWindow.Some? {
      f, isInterfaceSet := Some(SlidingWindowMember), true;
    }
    if w.value.wallClockWindow.Some? {
      if isInterfaceSet { return Err(TWO_MEMBERS); }
      f := Some(WallClockWindowMember(w.value.wallClockWindow.value.timezone));
    }
    return Ok(f);
  }

  method BuildTags(ts: seq<Tag>) returns (out: seq<Tag>)
    ensures out == ts
  {
    out := [];
    for i := 0 to |ts|
      invariant out == ts[..i]
    {
      var elem := Tag(None, None);
      if ts[i].key.Some? { elem := elem.(key := ts[i].key); }
      if ts[i].value.Some? { elem := elem.(value := ts[i].value); }
      out := out + [elem];
    }
    assert out == ts;
  }

  // newCreateRequestPayload and newUpdateRequestPayload. Each field of the request under
  // construction is a local variable; it starts out nil, so that "copy the field unless it
  // is nil" is an assignment.
  method NewRequestPayload(s: MetricAlarmSpec) returns (r: Result<PutMetricAlarmInput, Error>)
    ensures r == BuildResult(s)
  {
    var alarmActions := BuildStringList(s.alarmActions);
    var comparisonOperator := if s.comparisonOperator.Some? then s.comparisonOperator.value else "";
    var datapointsToAlarm := Narrow("DatapointsToAlarm", s.datapointsToAlarm);
    if datapointsToAlarm.Err? { return Err(datapointsToAlarm.error); }
    var dimensions := BuildDimensions(s.dimensions);
    var evaluationCriteria := BuildCriteria(s.evaluationCriteria);
    if evaluationCriteria.Err? { return Err(evaluationCriteria.error); }
    assert FirstOffences(s) == [];
    var evaluationInterval := Narrow("EvaluationInterval", s.evaluationInterval);
    if evaluationInterval.Err? { return Err(evaluationInterval.error); }
    var evaluationPeriods := Narrow("EvaluationPeriods", s.evaluationPeriods);
    if evaluationPeriods.Err? { return Err(evaluationPeriods.error); }
    var evaluationWindow := BuildWindow(s.evaluationWindow);
    if evaluationWindow.Err? { return Err(evaluationWindow.error); }
    assert SecondOffences(s) == [];
    var insufficientDataActions := BuildStringList(s.insufficientDataActions);
    var metrics := BuildQueries(s.metrics);
    if metrics.Err? { return Err(metrics.error); }
    var okActions := BuildStringList(s.okActions);
    var period := Narrow("Period", s.period);
    if period.Err? { return Err(period.error); }
    assert ThirdOffences(s) == [];
    var statistic := if s.statistic.Some? then s.statistic.value else "";
    var tags := BuildTags(s.tags);
    var unit := if s.unit.Some? then s.unit.value else "";
    return Ok(PutMetricAlarmInput(SdkAlarm(
      s.actionsEnabled, alarmActions, s.alarmDescription, s.name, comparisonOperator,
      datapointsToAlarm.value, dimensions, s.evaluateLowSampleCountPercentile, evaluationCriteria.value,
      evaluationInterval.value, evaluationPeriods.value, evaluationWindow.value, s.extendedStatistic,
      insufficientDataActions, s.metricName, metrics.value, s.namespace, okActions, period.value,
      statistic, s.threshold, s.thresholdMetricID, s.treatMissingData, unit), tags));
  }

  /******* What is sent *******/

  // A number of the request at the width of the spec.
  function Wide(x: Option<int32>): Option<int64> {
    if x.Some? then Some(x.value) else None
  }

  lemma StringsSent(l: Option<seq<Option<string>>>)
    ensures EncodeStrings(l).Some? <==> l.Some?
    ensures l.Some? ==> |EncodeStrings(l).value| == |l.value|
    ensures l.Some? ==> forall i | 0 <= i < |l.value| ::
              EncodeStrings(l).value[i] == if l.value[i].Some? then l.value[i].value else ""
  {
    if l.Some? {
      assert forall i | 0 <= i < |l.value| :: EncodeStrings(l).value[i] == PlainString(l.value[i]);
    }
  }

  lemma DimensionsSent(l: Option<seq<Dimension>>)
    ensures EncodeDimensions(l).Some? <==> l.Some?
    ensures l.Some? ==> |EncodeDimensions(l).value| == |l.value|
    ensures l.Some? ==> forall i | 0 <= i < |l.value| ::
              var d := EncodeDimensions(l).value[i];
              d.name == l.value[i].name && d.value == l.value[i].value
  {
    if l.Some? {
      assert forall i | 0 <= i < |l.value| :: EncodeDimensions(l).value[i] == EncodeDimension(l.value[i]);
    }
  }

  lemma QuerySent(q: MetricDataQuery)
    requires QueryFits(q)
    ensures var r := EncodeQuery(q);
            && r.accountId == q.accountID && r.expression == q.expression && r.id == q.id && r.label_ == q.label_
            && Wide(r.period) == q.period && r.returnData == q.returnData
            && (r.metricStat.Some? <==> q.metricStat.Some?)
            && (q.metricStat.Some? ==>
                  var x, y := q.metricStat.value, r.metricStat.value;
                  && Wide(y.period) == x.period && y.stat == x.stat
                  && y.unit == (if x.unit.Some? then x.unit.value else "")
                  && (y.metric.Some? <==> x.metric.Some?)
                  && (x.metric.Some? ==>
                        && y.metric.value.metricName == x.metric.value.metricName
                        && y.metric.value.namespace == x.metric.value.namespace
                        && y.metric.value.dimensions == EncodeDimensions(x.metric.value.dimensions)))
  {
  }

  lemma QueriesSent(l: Option<seq<MetricDataQuery>>)
    ensures EncodeQueries(l).Some? <==> l.Some?
    ensures l.Some? ==> |EncodeQueries(l).value| == |l.value|
    ensures l.Some? ==> forall i | 0 <= i < |l.value| :: EncodeQueries(l).value[i] == EncodeQuery(l.value[i])
  {
  }

  lemma UnionsSent(s: MetricAlarmSpec)
    requires NumbersFit(s) && AtMostOneMember(s.evaluationWindow)
    ensures match s.evaluationCriteria
            case Some(EvaluationCriteria(Some(p))) =>
              var c := Encode(s).evaluationCriteria;
              && c.Some? && c.value.PromQLMember? && c.value.query == p.query
              && Wide(c.value.pendingPeriod) == p.pendingPeriod && Wide(c.value.recoveryPeriod) == p.recoveryPeriod
            case _ => Encode(s).evaluationCriteria == None
    ensures match s.evaluationWindow
            case Some(EvaluationWindow(None, Some(w))) =>
              Encode(s).evaluationWindow == Some(WallClockWindowMember(w.timezone))
            case Some(EvaluationWindow(Some(_), None)) => Encode(s).evaluationWindow == Some(SlidingWindowMember)
            case _ => Encode(s).evaluationWindow == None
  {
  }

  // Field by field, a request that is built carries the spec, every number unchanged.
  lemma RequestCarries(s: MetricAlarmSpec)
    requires BuildResult(s).Ok?
    ensures BuildResult(s).value.tags == s.tags && BuildResult(s).value.alarm == Encode(s)
    ensures var a := BuildResult(s).value.alarm;
            && a.alarmName == s.name && a.alarmDescription == s.alarmDescription && a.actionsEnabled == s.actionsEnabled
            && a.metricName == s.metricName && a.namespace == s.namespace
            && a.extendedStatistic == s.extendedStatistic && a.threshold == s.threshold
            && a.thresholdMetricId == s.thresholdMetricID && a.treatMissingData == s.treatMissingData
            && a.evaluateLowSampleCountPercentile == s.evaluateLowSampleCountPercentile
            && a.comparisonOperator == (if s.comparisonOperator.Some? then s.comparisonOperator.value else "")
            && a.statistic == (if s.statistic.Some? then s.statistic.value else "")
            && a.unit == (if s.unit.Some? then s.unit.value else "")
            && Wide(a.datapointsToAlarm) == s.datapointsToAlarm && Wide(a.period) == s.period
            && Wide(a.evaluationInterval) == s.evaluationInterval && Wide(a.evaluationPeriods) == s.evaluationPeriods
            && a.alarmActions == EncodeStrings(s.alarmActions) && a.okActions == EncodeStrings(s.okActions)
            && a.insufficientDataActions == EncodeStrings(s.insufficientDataActions)
            && a.dimensions == EncodeDimensions(s.dimensions) && a.metrics == EncodeQueries(s.metrics)
  {
    BuildsExactly(s);
  }

  /******* What the outcome means *******/

  predicate FitsOption(x: Option<int64>) {
    x.Some? ==> FitsInt32(x.value)
  }

  ghost predicate QueryFits(q: MetricDataQuery) {
    FitsOption(q.period) && (q.metricStat.Some? ==> FitsOption(q.metricStat.value.period))
  }

  // The numbers that are looked at before the evaluation window.
  ghost predicate EarlyNumbersFit(s: MetricAlarmSpec) {
    && FitsOption(s.datapointsToAlarm) && FitsOption(s.evaluationInterval) && FitsOption(s.evaluationPeriods)
    && (s.evaluationCriteria.Some? && s.evaluationCriteria.value.promQL.Some? ==>
          FitsOption(s.evaluationCriteria.value.promQL.value.pendingPeriod)
          && FitsOption(s.evaluationCriteria.value.promQL.value.recoveryPeriod))
  }

  ghost predicate NumbersFit(s: MetricAlarmSpec) {
    && EarlyNumbersFit(s) && FitsOption(s.period)
    && (s.metrics.Some? ==> forall i | 0 <= i < |s.metrics.value| :: QueryFits(s.metrics.value[i]))
  }

  predicate AtMostOneMember(w: Option<EvaluationWindow>) {
    w.Some? ==> w.value.slidingWindow.None? || w.value.wallClockWindow.None?
  }

  // The range is the one of int32, for each of the two periods of a query.
  lemma QueryFitsExactly(q: MetricDataQuery)
    ensures QueryFits(q) <==>
              && (q.period.Some? ==> -0x8000_0000 <= q.period.value <= 0x7fff_ffff)
              && (q.metricStat.Some? && q.metricStat.value.period.Some? ==>
                    -0x8000_0000 <= q.metricStat.value.period.value <= 0x7fff_ffff)
  {
  }

  lemma QueryFit(q: MetricDataQuery)
    ensures QueryOffences(q) == [] <==> QueryFits(q)
    ensures forall i | 0 <= i < |QueryOffences(q)| :: QueryOffences(q)[i] == NotInt32Error("Period")
  {
  }

  lemma {:induction false} QueriesFit(qs: seq<MetricDataQuery>, n: nat)
    requires n <= |qs|
    ensures FirstQueriesOffences(qs, n) == [] <==> forall i | 0 <= i < n :: QueryFits(qs[i])
    ensures forall i | 0 <= i < |FirstQueriesOffences(qs, n)| ::
              FirstQueriesOffences(qs, n)[i] == NotInt32Error("Period")
  {
    if n == 0 {
    } else {
      QueriesFit(qs, n - 1);
      QueryFit(qs[n - 1]);
    }
  }

  lemma AllQueriesFit(qs: Option<seq<MetricDataQuery>>)
    ensures QueriesOffences(qs) == [] <==> (qs.Some? ==> forall i | 0 <= i < |qs.value| :: QueryFits(qs.value[i]))
    ensures forall i | 0 <= i < |QueriesOffences(qs)| :: QueriesOffences(qs)[i].kind.NotInt32?
  {
    if qs.Some? {
      QueriesFit(qs.value, |qs.value|);
    }
  }

  // The offences that are looked for before the evaluation window.
  function EarlyOffences(s: MetricAlarmSpec): seq<Error> {
    FirstOffences(s) + Overflow("EvaluationInterval", s.evaluationInterval)
    + Overflow("EvaluationPeriods", s.evaluationPeriods)
  }

  lemma EarlyFit(s: MetricAlarmSpec)
    ensures EarlyOffences(s) == [] <==> EarlyNumbersFit(s)
    ensures forall i | 0 <= i < |EarlyOffences(s)| :: EarlyOffences(s)[i].kind.NotInt32?
  {
  }

  lemma LateFit(s: MetricAlarmSpec)
    ensures EarlyNumbersFit(s) ==> (ThirdOffences(s) == [] <==> NumbersFit(s))
    ensures forall i | 0 <= i < |ThirdOffences(s)| :: ThirdOffences(s)[i].kind.NotInt32?
  {
    AllQueriesFit(s.metrics);
  }

  // A request is built exactly when all numbers fit and the window has at most one member.
  lemma BuildsExactly(s: MetricAlarmSpec)
    ensures BuildResult(s).Ok? <==> NumbersFit(s) && AtMostOneMember(s.evaluationWindow)
    ensures AtMostOneMember(s.evaluationWindow) <==>
              !(s.evaluationWindow.Some? && s.evaluationWindow.value.slidingWindow.Some?
                && s.evaluationWindow.value.wallClockWindow.Some?)
  {
    EarlyFit(s);
    LateFit(s);
    assert Offences(s) == EarlyOffences(s) + WindowOffences(s.evaluationWindow) + ThirdOffences(s);
  }

  // A build fails for good exactly when the two window members are reached, that is when
  // no number before them overflows; every other failure is an overflow.
  lemma FailsForGoodExactly(s: MetricAlarmSpec)
    requires BuildResult(s).Err?
    ensures BuildResult(s).error.kind.TerminalError? <==> EarlyNumbersFit(s) && !AtMostOneMember(s.evaluationWindow)
    ensures BuildResult(s).error.kind.TerminalError? || BuildResult(s).error.kind.NotInt32?
  {
    EarlyFit(s);
    LateFit(s);
    var early, window := EarlyOffences(s), WindowOffences(s.evaluationWindow);
    assert Offences(s) == early + window + ThirdOffences(s);
    assert Offences(s)[0] == if early != [] then early[0] else if window != [] then window[0] else ThirdOffences(s)[0];
  }

  // Which error comes out: that of the first number that does not fit, in this order, or the
  // terminal one if two window members are reached first.
  lemma FirstOffenceExactly(s: MetricAlarmSpec)
    requires BuildResult(s).Err?
    ensures var p := if s.evaluationCriteria.Some? then s.evaluationCriteria.value.promQL else None;
            var w := s.evaluationWindow;
            BuildResult(s).error.kind ==
              if !FitsOption(s.datapointsToAlarm) then NotInt32("DatapointsToAlarm")
              else if p.Some? && !FitsOption(p.value.pendingPeriod) then NotInt32("PendingPeriod")
              else if p.Some? && !FitsOption(p.value.recoveryPeriod) then NotInt32("RecoveryPeriod")
              else if !FitsOption(s.evaluationInterval) then NotInt32("EvaluationInterval")
              else if !FitsOption(s.evaluationPeriods) then NotInt32("EvaluationPeriods")
              else if w.Some? && w.value.slidingWindow.Some? && w.value.wallClockWindow.Some? then TerminalError
              else NotInt32("Period")
  {
    EarlyFit(s);
    AllQueriesArePeriods(s.metrics);
    var early, window := EarlyOffences(s), WindowOffences(s.evaluationWindow);
    assert Offences(s) == early + window + ThirdOffences(s);
    assert Offences(s)[0] == if early != [] then early[0] else if window != [] then window[0] else ThirdOffences(s)[0];
  }

  lemma AllQueriesArePeriods(qs: Option<seq<MetricDataQuery>>)
    ensures forall i | 0 <= i < |QueriesOffences(qs)| :: QueriesOffences(qs)[i] == NotInt32Error("Period")
  {
    if qs.Some? {
      QueriesFit(qs.value, |qs.value|);
    }
  }

  // The range check is what makes the narrowing conversion harmless.
  lemma NarrowExact(x: int64)
    ensures ToInt32(x) == x <==> FitsInt32(x)
  {
    assert !FitsInt32(x) ==> ToInt32(x) != x;
  }
}
