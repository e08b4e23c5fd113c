// pkg/resource/metric_alarm/sdk.go, sdkFind: the observed spec that a DescribeAlarms
// element is turned into.

module Observe {
  import opened Wrappers
  import opened AlarmTypes
  import opened Payload

  /******* Specification *******/

  function EnumPointer(e: string): Option<string> {
    if e == "" then None else Some(e)
  }

  function Pointer<T>(x: T): Option<T> {
    Some(x)
  }

  function ToInt64(x: int32): int64 {
    x
  }

  function DecodeDimension(d: SdkDimension): Dimension {
    Dimension(d.name, d.value)
  }

  function DecodeMetric(m: SdkMetric): Metric {
    Metric(
      if m.dimensions.Some? then Some(MapSeq(DecodeDimension, m.dimensions.value)) else None,
      m.metricName, m.namespace)
  }

  function DecodeMetricStat(s: SdkMetricStat): MetricStat {
    MetricStat(MapOption(DecodeMetric, s.metric), MapOption(ToInt64, s.period), s.stat, EnumPointer(s.unit))
  }

  function DecodeQuery(q: SdkMetricDataQuery): MetricDataQuery {
    MetricDataQuery(q.accountId, q.expression, q.id, q.label_,
                    MapOption(DecodeMetricStat, q.metricStat), MapOption(ToInt64, q.period), q.returnData)
  }

  function DecodeCriteria(c: SdkCriteria): EvaluationCriteria {
    match c
    case PromQLMember(pending, query, recovery) =>
      EvaluationCriteria(Some(PromQLCriteria(MapOption(ToInt64, pending), query, MapOption(ToInt64, recovery))))
    case UnknownCriteria => EvaluationCriteria(None)
  }

  // The contents of a sliding window do not exist on the SDK side.
  function DecodeWindow(w: SdkWindow): EvaluationWindow {
    match w
    case SlidingWindowMember => EvaluationWindow(Some(map[]), None)
    case WallClockWindowMember(timezone) => EvaluationWindow(None, Some(WallClockWindow(timezone)))
    case UnknownWindow => EvaluationWindow(None, None)
  }

  function DecodeStrings(s: Option<seq<string>>): Option<seq<Option<string>>> {
    if s.Some? then Some(MapSeq(Pointer<string>, s.value)) else None
  }

  // ko is the copy of the desired spec that sdkFind overwrites: its name and tags stay.
  function Decode(ko: MetricAlarmSpec, a: SdkAlarm): MetricAlarmSpec {
    MetricAlarmSpec(
      a.actionsEnabled,
      DecodeStrings(a.alarmActions),
      a.alarmDescription,
      EnumPointer(a.comparisonOperator),
      MapOption(ToInt64, a.datapointsToAlarm),
      if a.dimensions.Some? then Some(MapSeq(DecodeDimension, a.dimensions.value)) else None,
      a.evaluateLowSampleCountPercentile,
      MapOption(DecodeCriteria, a.evaluationCriteria),
      MapOption(ToInt64, a.evaluationInterval),
      MapOption(ToInt64, a.evaluationPeriods),
      MapOption(DecodeWindow, a.evaluationWindow),
      a.extendedStatistic,
      DecodeStrings(a.insufficientDataActions),
      a.metricName,
      if a.metrics.Some? then Some(MapSeq(DecodeQuery, a.metrics.value)) else None,
      ko.name,
      a.namespace,
      DecodeStrings(a.okActions),
      MapOption(ToInt64, a.period),
      EnumPointer(a.statistic),
      ko.tags,
      a.threshold,
      a.thresholdMetricId,
      a.treatMissingData,
      EnumPointer(a.unit))
  }

  /******* The loops of sdkFind *******/

  method ReadDimensions(ds: seq<SdkDimension>) returns (out: seq<Dimension>)
    ensures out == MapSeq(DecodeDimension, ds)
  {
    out := [];
    for i := 0 to |ds|
      invariant out == MapSeq(DecodeDimension, ds[..i])
    {
      var elem := Dimension(None, None);
      if ds[i].name.Some? { elem := elem.(name := ds[i].name); }
      if ds[i].value.Some? { elem := elem.(value := ds[i].value); }
      assert elem == DecodeDimension(ds[i]);
      out := out + [elem];
    }
    assert ds[..|ds|] == ds;
  }

  method ReadStringList(ss: Option<seq<string>>) returns (r: Option<seq<Option<string>>>)
    ensures r == DecodeStrings(ss)
  {
    if ss.None? { return None; }
    var l, out := ss.value, [];
    for i := 0 to |l|
      invariant out == MapSeq(Pointer<string>, l[..i])
    {
      assert Pointer(l[i]) == Some(l[i]);
      out := out + [Some(l[i])];
    }
    assert l[..|l|] == l;
    return Some(out);
  }

  method ReadMetricStat(s: SdkMetricStat) returns (out: MetricStat)
    ensures out == DecodeMetricStat(s)
  {
    out := MetricStat(None, None, None, None);
    if s.metric.Some? {
      var m := Metric(None, None, None);
      if s.metric.value.dimensions.Some? {
        var ds := ReadDimensions(s.metric.value.dimensions.value);
        m := m.(dimensions := Some(ds));
      }
      if s.metric.value.metricName.Some? { m := m.(metricName := s.metric.value.metricName); }
      if s.metric.value.namespace.Some? { m := m.(namespace := s.metric.value.namespace); }
      out := out.(metric := Some(m));
    }
    if s.period.Some? { out := out.(period := Some(s.period.value)); }
    if s.stat.Some? { out := out.(stat := s.stat); }
    if s.unit != "" { out := out.(unit := Some(s.unit)); }
  }

  method ReadQueries(qs: seq<SdkMetricDataQuery>) returns (out: seq<MetricDataQuery>)
    ensures out == MapSeq(DecodeQuery, qs)
  {
    out := [];
    for i := 0 to |qs|
      invariant out == MapSeq(DecodeQuery, qs[..i])
    {
      var q, elem := qs[i], MetricDataQuery(None, None, None, None, None, None, None);
      if q.accountId.Some? { elem := elem.(accountID := q.accountId); }
      if q.expression.Some? { elem := elem.(expression := q.expression); }
      if q.id.Some? { elem := elem.(id := q.id); }
      if q.label_.Some? { elem := elem.(label_ := q.label_); }
      if q.metricStat.Some? {
        var stat := ReadMetricStat(q.metricStat.value);
        elem := elem.(metricStat := Some(stat));
      }
      if q.period.Some? { elem := elem.(period := Some(q.period.value)); }
      if q.returnData.Some? { elem := elem.(returnData := q.returnData); }
      assert elem == DecodeQuery(q);
      out := out + [elem];
    }
    assert qs[..|qs|] == qs;
  }

  method ReadCriteria(elem: SdkCriteria) returns (out: EvaluationCriteria)
    ensures out == DecodeCriteria(elem)
  {
    out := EvaluationCriteria(None);
    if elem.PromQLMember? {
      var p := PromQLCriteria(None, None, None);
      if elem.pendingPeriod.Some? { p := p.(pendingPeriod := Some(elem.pendingPeriod.value)); }
      if elem.query.Some? { p := p.(query := elem.query); }
      if elem.recoveryPeriod.Some? { p := p.(recoveryPeriod := Some(elem.recoveryPeriod.value)); }
      out := EvaluationCriteria(Some(p));
    }
  }

  method ReadWindow(elem: SdkWindow) returns (out: EvaluationWindow)
    ensures out == DecodeWindow(elem)
  {
    out := EvaluationWindow(None, None);
    match elem {
      case SlidingWindowMember => out := out.(slidingWindow := Some(map[]));
      case WallClockWindowMember(timezone) => out := out.(wallClockWindow := Some(WallClockWindow(timezone)));
      case UnknownWindow =>
    }
  }

  // One element of the response overwrites the fields of ko, nil fields included.
  method ReadAlarm(ko: MetricAlarmSpec, elem: SdkAlarm) returns (out: MetricAlarmSpec)
    ensures out == Decode(ko, elem)
  {
    var alarmActions := ReadStringList(elem.alarmActions);
    var dimensions := None;
    if elem.dimensions.Some? {
      var l := ReadDimensions(elem.dimensions.value);
      dimensions := Some(l);
    }
    var evaluationCriteria := None;
    if elem.evaluationCriteria.Some? {
      var c := ReadCriteria(elem.evaluationCriteria.value);
      evaluationCriteria := Some(c);
    }
    var evaluationWindow := None;
    if elem.evaluationWindow.Some? {
      var w := ReadWindow(elem.evaluationWindow.value);
      evaluationWindow := Some(w);
    }
    var insufficientDataActions := ReadStringList(elem.insufficientDataActions);
    var metrics := None;
    if elem.metrics.Some? {
      var l := ReadQueries(elem.metrics.value);
      metrics := Some(l);
    }
    var okActions := ReadStringList(elem.okActions);
    out := ko.(
      actionsEnabled := elem.actionsEnabled,
      alarmActions := alarmActions,
      alarmDescription := elem.alarmDescription,
      comparisonOperator := EnumPointer(elem.comparisonOperator),
      datapointsToAlarm := MapOption(ToInt64, elem.datapointsToAlarm),
      dimensions := dimensions,
      evaluateLowSampleCountPercentile := elem.evaluateLowSampleCountPercentile,
      evaluationCriteria := evaluationCriteria,
      evaluationInterval := MapOption(ToInt64, elem.evaluationInterval),
      evaluationPeriods := MapOption(ToInt64, elem.evaluationPeriods),
      evaluationWindow := evaluationWindow,
      extendedStatistic := elem.extendedStatistic,
      insufficientDataActions := insufficientDataActions,
      metricName := elem.metricName,
      metrics := metrics,
      namespace := elem.namespace,
      okActions := okActions,
      period := MapOption(ToInt64, elem.period),
      statistic := EnumPointer(elem.statistic),
      threshold := elem.threshold,
      thresholdMetricID := elem.thresholdMetricId,
      treatMissingData := elem.treatMissingData,
      unit := EnumPointer(elem.unit));
  }

  /******* What is observed *******/

  lemma StringsRead(l: Option<seq<string>>)
    ensures DecodeStrings(l).Some? <==> l.Some?
    ensures l.Some? ==> |DecodeStrings(l).value| == |l.value|
    ensures l.Some? ==> forall i | 0 <= i < |l.value| :: DecodeStrings(l).value[i] == Some(l.value[i])
  {
    if l.Some? {
      assert forall i | 0 <= i < |l.value| :: DecodeStrings(l).value[i] == Pointer(l.value[i]);
    }
  }

  lemma QueryRead(q: SdkMetricDataQuery)
    ensures var r := DecodeQuery(q);
            && r.accountID == q.accountId && r.expression == q.expression && r.id == q.id && r.label_ == q.label_
            && r.period == Wide(q.period) && r.returnData == q.returnData
            && (r.metricStat.Some? <==> q.metricStat.Some?)
            && (q.metricStat.Some? ==>
                  var x, y := q.metricStat.value, r.metricStat.value;
                  && y.period == Wide(x.period) && y.stat == x.stat
                  && y.unit == (if x.unit == "" then None else Some(x.unit))
                  && (y.metric.Some? <==> x.metric.Some?)
                  && (x.metric.Some? ==>
                        && y.metric.value.metricName == x.metric.value.metricName
                        && y.metric.value.namespace == x.metric.value.namespace
                        && (y.metric.value.dimensions.Some? <==> x.metric.value.dimensions.Some?)
                        && (x.metric.value.dimensions.Some? ==>
                              y.metric.value.dimensions.value
                              == MapSeq(DecodeDimension, x.metric.value.dimensions.value))))
  {
  }

  // Field by field, what a response element leaves in the copy ko.
  lemma ObservedCarries(ko: MetricAlarmSpec, a: SdkAlarm)
    ensures var s := Decode(ko, a);
            && s.name == ko.name && s.tags == ko.tags
            && s.alarmDescription == a.alarmDescription && s.actionsEnabled == a.actionsEnabled
            && s.metricName == a.metricName && s.namespace == a.namespace
            && s.extendedStatistic == a.extendedStatistic && s.threshold == a.threshold
            && s.thresholdMetricID == a.thresholdMetricId && s.treatMissingData == a.treatMissingData
            && s.evaluateLowSampleCountPercentile == a.evaluateLowSampleCountPercentile
            && s.comparisonOperator == (if a.comparisonOperator == "" then None else Some(a.comparisonOperator))
            && s.statistic == (if a.statistic == "" then None else Some(a.statistic))
            && s.unit == (if a.unit == "" then None else Some(a.unit))
            && s.datapointsToAlarm == Wide(a.datapointsToAlarm) && s.period == Wide(a.period)
            && s.evaluationInterval == Wide(a.evaluationInterval) && s.evaluationPeriods == Wide(a.evaluationPeriods)
            && s.alarmActions == DecodeStrings(a.alarmActions) && s.okActions == DecodeStrings(a.okActions)
            && s.insufficientDataActions == DecodeStrings(a.insufficientDataActions)
  {
  }

  lemma NestedCarries(ko: MetricAlarmSpec, a: SdkAlarm)
    ensures Decode(ko, a).dimensions.Some? <==> a.dimensions.Some?
    ensures a.dimensions.Some? ==> |Decode(ko, a).dimensions.value| == |a.dimensions.value|
    ensures a.dimensions.Some? ==> forall i | 0 <= i < |a.dimensions.value| ::
              var d := Decode(ko, a).dimensions.value[i];
              d.name == a.dimensions.value[i].name && d.value == a.dimensions.value[i].value
    ensures Decode(ko, a).metrics.Some? <==> a.metrics.Some?
    ensures a.metrics.Some? ==> |Decode(ko, a).metrics.value| == |a.metrics.value|
    ensures a.metrics.Some? ==> forall i | 0 <= i < |a.metrics.value| ::
              Decode(ko, a).metrics.value[i] == DecodeQuery(a.metrics.value[i])
    ensures match a.evaluationCriteria
            case None => Decode(ko, a).evaluationCriteria == None
            case Some(UnknownCriteria) => Decode(ko, a).evaluationCriteria == Some(EvaluationCriteria(None))
            case Some(PromQLMember(pending, query, recovery)) =>
              Decode(ko, a).evaluationCriteria
              == Some(EvaluationCriteria(Some(PromQLCriteria(Wide(pending), query, Wide(recovery)))))
    ensures match a.evaluationWindow
            case None => Decode(ko, a).evaluationWindow == None
            case Some(UnknownWindow) => Decode(ko, a).evaluationWindow == Some(EvaluationWindow(None, None))
            case Some(SlidingWindowMember) =>
              Decode(ko, a).evaluationWindow == Some(EvaluationWindow(Some(map[]), None))
            case Some(WallClockWindowMember(timezone)) =>
              Decode(ko, a).evaluationWindow == Some(EvaluationWindow(None, Some(WallClockWindow(timezone))))
  {
    if a.dimensions.Some? {
      assert forall i | 0 <= i < |a.dimensions.value| ::
          Decode(ko, a).dimensions.value[i] == DecodeDimension(a.dimensions.value[i]);
    }
  }
}
