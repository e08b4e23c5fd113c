// pkg/resource/metric_alarm/delta.go: which fields of two specs disagree.

module Delta {
  import opened Wrappers
  import opened Tags
  import opened AlarmTypes
  import TagPipeline

  // The places newResourceDelta can report, grouped by the way they are compared.
  datatype Field =
    | Text(text: TextField)
    | Number(number: NumberField)
    | Actions(actions: ActionsField)
    | Criteria(criteria: CriteriaField)
    | Window(window: WindowField)
    | ActionsEnabled | Dimensions | Metrics | TagList | Threshold

  datatype TextField =
    | AlarmDescription | ComparisonOperator | LowSamplePercentile | ExtendedStatistic | MetricName | Name
    | Namespace | Statistic | ThresholdMetricID | TreatMissingData | Unit

  datatype NumberField = DatapointsToAlarm | EvaluationInterval | EvaluationPeriods | Period

  datatype ActionsField = AlarmActions | InsufficientDataActions | OKActions

  datatype CriteriaField = WholeCriteria | PromQL | PendingPeriod | Query | RecoveryPeriod

  datatype WindowField = WholeWindow | SlidingWindow | WallClock | Timezone

  function TextOf(s: MetricAlarmSpec, f: TextField): Option<string> {
    match f
    case AlarmDescription => s.alarmDescription
    case ComparisonOperator => s.comparisonOperator
    case LowSamplePercentile => s.evaluateLowSampleCountPercentile
    case ExtendedStatistic => s.extendedStatistic
    case MetricName => s.metricName
    case Name => s.name
    case Namespace => s.namespace
    case Statistic => s.statistic
    case ThresholdMetricID => s.thresholdMetricID
    case TreatMissingData => s.treatMissingData
    case Unit => s.unit
  }

  function NumberOf(s: MetricAlarmSpec, f: NumberField): Option<int64> {
    match f
    case DatapointsToAlarm => s.datapointsToAlarm
    case EvaluationInterval => s.evaluationInterval
    case EvaluationPeriods => s.evaluationPeriods
    case Period => s.period
  }

  function ActionsOf(s: MetricAlarmSpec, f: ActionsField): Option<seq<Option<string>>> {
    match f
    case AlarmActions => s.alarmActions
    case InsufficientDataActions => s.insufficientDataActions
    case OKActions => s.okActions
  }

  // ackcompare.SliceStringPEqual and equality.Semantic.DeepEqual on the two kinds of list.
  datatype LeafEq = LeafEq(
    strings: (seq<Option<string>>, seq<Option<string>>) -> bool,
    dimensions: (seq<Dimension>, seq<Dimension>) -> bool,
    metrics: (seq<MetricDataQuery>, seq<MetricDataQuery>) -> bool)

  ghost predicate Equivalence<T(!new)>(eq: (T, T) -> bool) {
    && (forall x :: eq(x, x))
    && (forall x, y :: eq(x, y) ==> eq(y, x))
    && (forall x, y, z :: eq(x, y) && eq(y, z) ==> eq(x, z))
  }

  ghost predicate LeafEquivalences(eq: LeafEq) {
    Equivalence(eq.strings) && Equivalence(eq.dimensions) && Equivalence(eq.metrics)
  }

  // Go's == on float64.
  predicate FloatEq(x: Float64, y: Float64) {
    !x.NaN? && x == y
  }

  /******* Specification *******/

  function Items<T>(s: Option<seq<T>>): seq<T> {
    s.GetOr([])
  }

  // Two lists disagree unless both are empty (nil or not) or they are equal as lists.
  predicate ListsDisagree<T>(eq: (seq<T>, seq<T>) -> bool, x: Option<seq<T>>, y: Option<seq<T>>) {
    |Items(x)| != |Items(y)| || (Items(x) != [] && !eq(Items(x), Items(y)))
  }

  predicate PresenceDiffers<T, U>(x: Option<T>, y: Option<U>) {
    x.Some? != y.Some?
  }

  // Fields below a union or a struct count only when both sides have that struct.
  predicate CriteriaDisagree(x: Option<EvaluationCriteria>, y: Option<EvaluationCriteria>, f: CriteriaField) {
    if f.WholeCriteria? then
      PresenceDiffers(x, y)
    else if x.None? || y.None? then
      false
    else if f.PromQL? then
      PresenceDiffers(x.value.promQL, y.value.promQL)
    else if x.value.promQL.None? || y.value.promQL.None? then
      false
    else
      var p, q := x.value.promQL.value, y.value.promQL.value;
      if f.PendingPeriod? then p.pendingPeriod != q.pendingPeriod
      else if f.Query? then p.query != q.query
      else p.recoveryPeriod != q.recoveryPeriod
  }

  predicate WindowsDisagree(x: Option<EvaluationWindow>, y: Option<EvaluationWindow>, f: WindowField) {
    if f.WholeWindow? then
      PresenceDiffers(x, y)
    else if x.None? || y.None? then
      false
    else if f.SlidingWindow? then
      PresenceDiffers(x.value.slidingWindow, y.value.slidingWindow)
    else if f.WallClock? then
      PresenceDiffers(x.value.wallClockWindow, y.value.wallClockWindow)
    else
      && x.value.wallClockWindow.Some? && y.value.wallClockWindow.Some?
      && x.value.wallClockWindow.value.timezone != y.value.wallClockWindow.value.timezone
  }

  predicate ThresholdsDisagree(x: Option<Float64>, y: Option<Float64>) {
    PresenceDiffers(x, y) || (x.Some? && !FloatEq(x.value, y.value))
  }

  predicate Disagrees(eq: LeafEq, a: MetricAlarmSpec, b: MetricAlarmSpec, f: Field) {
    match f
    case Text(t) => TextOf(a, t) != TextOf(b, t)
    case Number(n) => NumberOf(a, n) != NumberOf(b, n)
    case Actions(l) => ListsDisagree(eq.strings, ActionsOf(a, l), ActionsOf(b, l))
    case Criteria(c) => CriteriaDisagree(a.evaluationCriteria, b.evaluationCriteria, c)
    case Window(w) => WindowsDisagree(a.evaluationWindow, b.evaluationWindow, w)
    case ActionsEnabled => a.actionsEnabled != b.actionsEnabled
    case Dimensions => ListsDisagree(eq.dimensions, a.dimensions, b.dimensions)
    case Metrics => ListsDisagree(eq.metrics, a.metrics, b.metrics)
    case TagList => MapOf(a.tags) != MapOf(b.tags)
    case Threshold => ThresholdsDisagree(a.threshold, b.threshold)
  }

  function TextName(f: TextField): string {
    match f
    case AlarmDescription => "AlarmDescription"
    case ComparisonOperator => "ComparisonOperator"
    case LowSamplePercentile => "EvaluateLowSampleCountPercentile"
    case ExtendedStatistic => "ExtendedStatistic"
    case MetricName => "MetricName"
    case Name => "Name"
    case Namespace => "Namespace"
    case Statistic => "Statistic"
    case ThresholdMetricID => "ThresholdMetricID"
    case TreatMissingData => "TreatMissingData"
    case Unit => "Unit"
  }

  function NumberName(f: NumberField): string {
    match f
    case DatapointsToAlarm => "DatapointsToAlarm"
    case EvaluationInterval => "EvaluationInterval"
    case EvaluationPeriods => "EvaluationPeriods"
    case Period => "Period"
  }

  function ActionsName(f: ActionsField): string {
    match f
    case AlarmActions => "AlarmActions"
    case InsufficientDataActions => "InsufficientDataActions"
    case OKActions => "OKActions"
  }

  function PathBelowCriteria(f: CriteriaField): seq<string> {
    match f
    case WholeCriteria => []
    case PromQL => ["PromQLCriteria"]
    case PendingPeriod => ["PromQLCriteria", "PendingPeriod"]
    case Query => ["PromQLCriteria", "Query"]
    case RecoveryPeriod => ["PromQLCriteria", "RecoveryPeriod"]
  }

  function PathBelowWindow(f: WindowField): seq<string> {
    match f
    case WholeWindow => []
    case SlidingWindow => ["SlidingWindow"]
    case WallClock => ["WallClockWindow"]
    case Timezone => ["WallClockWindow", "Timezone"]
  }

  function PathOf(f: Field): seq<string> {
    match f
    case Text(t) => ["Spec", TextName(t)]
    case Number(n) => ["Spec", NumberName(n)]
    case Actions(l) => ["Spec", ActionsName(l)]
    case Criteria(c) => ["Spec", "EvaluationCriteria"] + PathBelowCriteria(c)
    case Window(w) => ["Spec", "EvaluationWindow"] + PathBelowWindow(w)
    case ActionsEnabled => ["Spec", "ActionsEnabled"]
    case Dimensions => ["Spec", "Dimensions"]
    case Metrics => ["Spec", "Metrics"]
    case TagList => TAGS_PATH
    case Threshold => ["Spec", "Threshold"]
  }

  // ackcompare.Delta.DifferentAt and DifferentExcept test path prefixes.
  predicate DifferentAt(delta: set<Field>, path: seq<string>) {
    exists f | f in delta :: path <= PathOf(f)
  }

  predicate DifferentExcept(delta: set<Field>, path: seq<string>) {
    exists f | f in delta :: !(path <= PathOf(f))
  }

  const TAGS_PATH := ["Spec", "Tags"]

  ghost predicate DiffersBeyondTags(eq: LeafEq, a: MetricAlarmSpec, b: MetricAlarmSpec) {
    exists f :: f != TagList && Disagrees(eq, a, b, f)
  }

  lemma TagsPathIsUnique(f: Field)
    ensures TAGS_PATH <= PathOf(f) <==> f == TagList
  {
    assert TAGS_PATH[1] == "Tags" && PathOf(f)[1] != [];
    match f {
      case Text(t) => assert |TextName(t)| != 4 || t.Name? || t.Unit?;
      case Number(n) => assert |NumberName(n)| != 4;
      case Actions(l) => assert |ActionsName(l)| != 4;
      case _ =>
    }
  }

  // The two questions sdkUpdate asks of a delta, answered from the specs.
  lemma UpdateQuestions(eq: LeafEq, a: MetricAlarmSpec, b: MetricAlarmSpec, delta: set<Field>)
    requires forall f :: f in delta <==> Disagrees(eq, a, b, f)
    ensures DifferentAt(delta, TAGS_PATH) <==> MapOf(a.tags) != MapOf(b.tags)
    ensures DifferentExcept(delta, TAGS_PATH) <==> DiffersBeyondTags(eq, a, b)
  {
    forall f ensures TAGS_PATH <= PathOf(f) <==> f == TagList {
      TagsPathIsUnique(f);
    }
    assert TagList in delta <==> MapOf(a.tags) != MapOf(b.tags);
  }

  /******* The comparison *******/

  // HasNilDifference, and the values when neither side is nil.
  method PointersDiffer<T(==)>(x: Option<T>, y: Option<T>) returns (d: bool)
    ensures d <==> x != y
  {
    if (x.None? && y.Some?) || (x.Some? && y.None?) {
      d := true;
    } else if x.Some? && y.Some? {
      d := x.value != y.value;
    } else {
      d := false;
    }
  }

  method ListsDiffer<T>(eq: (seq<T>, seq<T>) -> bool, x: Option<seq<T>>, y: Option<seq<T>>) returns (d: bool)
    ensures d <==> ListsDisagree(eq, x, y)
  {
    var lx, ly := x.GetOr([]), y.GetOr([]);
    if |lx| != |ly| {
      d := true;
    } else if |lx| > 0 {
      d := !eq(lx, ly);
    } else {
      d := false;
    }
  }

  // The runs of fields that the methods below compare.
  function RunOf(f: Field): nat {
    match f
    case Text(t) =>
      if t.AlarmDescription? || t.ComparisonOperator? then 0
      else if t.LowSamplePercentile? then 1
      else if t.ExtendedStatistic? || t.MetricName? then 5
      else if t.Name? || t.Namespace? then 6
      else if t.Statistic? then 7
      else 8
    case Number(n) => if n.DatapointsToAlarm? then 1 else if n.Period? then 6 else 3
    case Actions(l) => if l.AlarmActions? then 0 else if l.InsufficientDataActions? then 5 else 6
    case Criteria(_) => 2
    case Window(_) => 4
    case ActionsEnabled => 0
    case Dimensions => 1
    case Metrics => 5
    case TagList => 7
    case Threshold => 7
  }

  // delta is start and then the disagreeing fields of one run.
  ghost predicate Extends(
    eq: LeafEq, a: MetricAlarmSpec, b: MetricAlarmSpec, start: set<Field>, delta: set<Field>, run: nat)
  {
    forall f :: f in delta <==> f in start || (RunOf(f) == run && Disagrees(eq, a, b, f))
  }

  // delta.Add, when the comparison of a field says so.
  function Add(delta: set<Field>, f: Field, differs: bool): set<Field> {
    if differs then delta + {f} else delta
  }

  method ThresholdsDiffer(x: Option<Float64>, y: Option<Float64>) returns (d: bool)
    ensures d <==> ThresholdsDisagree(x, y)
  {
    if PresenceDiffers(x, y) {
      d := true;
    } else if x.Some? && y.Some? {
      d := !FloatEq(x.value, y.value);
    } else {
      d := false;
    }
  }

  method CompareActions(eq: LeafEq, a: MetricAlarmSpec, b: MetricAlarmSpec, start: set<Field>)
    returns (delta: set<Field>)
    ensures Extends(eq, a, b, start, delta, 0)
  {
    var d := PointersDiffer(a.actionsEnabled, b.actionsEnabled);
    delta := Add(start, ActionsEnabled, d);
    d := ListsDiffer(eq.strings, a.alarmActions, b.alarmActions);
    delta := Add(delta, Actions(AlarmActions), d);
    d := PointersDiffer(a.alarmDescription, b.alarmDescription);
    delta := Add(delta, Text(AlarmDescription), d);
    d := PointersDiffer(a.comparisonOperator, b.comparisonOperator);
    delta := Add(delta, Text(ComparisonOperator), d);
  }

  method CompareDatapoints(eq: LeafEq, a: MetricAlarmSpec, b: MetricAlarmSpec, start: set<Field>)
    returns (delta: set<Field>)
    ensures Extends(eq, a, b, start, delta, 1)
  {
    var d := PointersDiffer(a.datapointsToAlarm, b.datapointsToAlarm);
    delta := Add(start, Number(DatapointsToAlarm), d);
    d := ListsDiffer(eq.dimensions, a.dimensions, b.dimensions);
    delta := Add(delta, Dimensions, d);
    d := PointersDiffer(a.evaluateLowSampleCountPercentile, b.evaluateLowSampleCountPercentile);
    delta := Add(delta, Text(LowSamplePercentile), d);
  }

  method CompareCriteria(eq: LeafEq, a: MetricAlarmSpec, b: MetricAlarmSpec, start: set<Field>)
    returns (delta: set<Field>)
    ensures Extends(eq, a, b, start, delta, 2)
  {
    var x, y := a.evaluationCriteria, b.evaluationCriteria;
    delta := Add(start, Criteria(WholeCriteria), PresenceDiffers(x, y));
    var both := x.Some? && y.Some?;
    delta := Add(delta, Criteria(PromQL), both && PresenceDiffers(x.value.promQL, y.value.promQL));
    both := both && x.value.promQL.Some? && y.value.promQL.Some?;
    var pending, query, recovery := false, false, false;
    if both {
      pending := PointersDiffer(x.value.promQL.value.pendingPeriod, y.value.promQL.value.pendingPeriod);
      query := PointersDiffer(x.value.promQL.value.query, y.value.promQL.value.query);
      recovery := PointersDiffer(x.value.promQL.value.recoveryPeriod, y.value.promQL.value.recoveryPeriod);
    }
    delta := Add(delta, Criteria(PendingPeriod), pending);
    delta := Add(delta, Criteria(Query), query);
    delta := Add(delta, Criteria(RecoveryPeriod), recovery);
  }

  method CompareSchedule(eq: LeafEq, a: MetricAlarmSpec, b: MetricAlarmSpec, start: set<Field>)
    returns (delta: set<Field>)
    ensures Extends(eq, a, b, start, delta, 3)
  {
    var d := PointersDiffer(a.evaluationInterval, b.evaluationInterval);
    delta := Add(start, Number(EvaluationInterval), d);
    d := PointersDiffer(a.evaluationPeriods, b.evaluationPeriods);
    delta := Add(delta, Number(EvaluationPeriods), d);
  }

  method CompareWindow(eq: LeafEq, a: MetricAlarmSpec, b: MetricAlarmSpec, start: set<Field>)
    returns (delta: set<Field>)
    ensures Extends(eq, a, b, start, delta, 4)
  {
    var x, y := a.evaluationWindow, b.evaluationWindow;
    delta := Add(start, Window(WholeWindow), PresenceDiffers(x, y));
    var both := x.Some? && y.Some?;
    delta := Add(delta, Window(SlidingWindow),
                    both && PresenceDiffers(x.value.slidingWindow, y.value.slidingWindow));
    delta := Add(delta, Window(WallClock),
                    both && PresenceDiffers(x.value.wallClockWindow, y.value.wallClockWindow));
    var timezone := false;
    if both && x.value.wallClockWindow.Some? && y.value.wallClockWindow.Some? {
      timezone := PointersDiffer(x.value.wallClockWindow.value.timezone, y.value.wallClockWindow.value.timezone);
    }
    delta := Add(delta, Window(Timezone), timezone);
  }

  method CompareMetrics(eq: LeafEq, a: MetricAlarmSpec, b: MetricAlarmSpec, start: set<Field>)
    returns (delta: set<Field>)
    ensures Extends(eq, a, b, start, delta, 5)
  {
    var d := PointersDiffer(a.extendedStatistic, b.extendedStatistic);
    delta := Add(start, Text(ExtendedStatistic), d);
    d := ListsDiffer(eq.strings, a.insufficientDataActions, b.insufficientDataActions);
    delta := Add(delta, Actions(InsufficientDataActions), d);
    d := PointersDiffer(a.metricName, b.metricName);
    delta := Add(delta, Text(MetricName), d);
    d := ListsDiffer(eq.metrics, a.metrics, b.metrics);
    delta := Add(delta, Metrics, d);
  }

  method CompareNames(eq: LeafEq, a: MetricAlarmSpec, b: MetricAlarmSpec, start: set<Field>)
    returns (delta: set<Field>)
    ensures Extends(eq, a, b, start, delta, 6)
  {
    var d := PointersDiffer(a.name, b.name);
    delta := Add(start, Text(Name), d);
    d := PointersDiffer(a.namespace, b.namespace);
    delta := Add(delta, Text(Namespace), d);
    d := ListsDiffer(eq.strings, a.okActions, b.okActions);
    delta := Add(delta, Actions(OKActions), d);
    d := PointersDiffer(a.period, b.period);
    delta := Add(delta, Number(Period), d);
  }

  // The two lists are turned into maps by the conversion of the tag pipeline.
  method TagsDiffer(a: seq<Tag>, b: seq<Tag>) returns (d: bool)
    ensures d <==> MapOf(a) != MapOf(b)
  {
    var desiredAckTags, _ := TagPipeline.ConvertToOrderedAckTags(a);
    var latestAckTags, _ := TagPipeline.ConvertToOrderedAckTags(b);
    d := desiredAckTags.m != latestAckTags.m;
  }

  method CompareThreshold(eq: LeafEq, a: MetricAlarmSpec, b: MetricAlarmSpec, start: set<Field>)
    returns (delta: set<Field>)
    ensures Extends(eq, a, b, start, delta, 7)
  {
    var d := PointersDiffer(a.statistic, b.statistic);
    delta := Add(start, Text(Statistic), d);
    d := TagsDiffer(a.tags, b.tags);
    delta := Add(delta, TagList, d);
    d := ThresholdsDiffer(a.threshold, b.threshold);
    delta := Add(delta, Threshold, d);
  }

  method CompareRest(eq: LeafEq, a: MetricAlarmSpec, b: MetricAlarmSpec, start: set<Field>)
    returns (delta: set<Field>)
    ensures Extends(eq, a, b, start, delta, 8)
  {
    var d := PointersDiffer(a.thresholdMetricID, b.thresholdMetricID);
    delta := Add(start, Text(ThresholdMetricID), d);
    d := PointersDiffer(a.treatMissingData, b.treatMissingData);
    delta := Add(delta, Text(TreatMissingData), d);
    d := PointersDiffer(a.unit, b.unit);
    delta := Add(delta, Text(Unit), d);
  }

  // newResourceDelta on two resources that are not nil
  method NewResourceDelta(eq: LeafEq, a: MetricAlarmSpec, b: MetricAlarmSpec) returns (delta: set<Field>)
    ensures forall f :: f in delta <==> Disagrees(eq, a, b, f)
  {
    delta := {};
    delta := CompareActions(eq, a, b, delta);
    delta := CompareDatapoints(eq, a, b, delta);
    delta := CompareCriteria(eq, a, b, delta);
    delta := CompareSchedule(eq, a, b, delta);
    delta := CompareWindow(eq, a, b, delta);
    delta := CompareMetrics(eq, a, b, delta);
    delta := CompareNames(eq, a, b, delta);
    delta := CompareThreshold(eq, a, b, delta);
    delta := CompareRest(eq, a, b, delta);
    forall f ensures RunOf(f) <= 8 {
    }
  }

  ghost predicate NoDifference(eq: LeafEq, a: MetricAlarmSpec, b: MetricAlarmSpec) {
    forall f :: !Disagrees(eq, a, b, f)
  }

  /******* What is reported where *******/

  lemma TextFieldsMean(eq: LeafEq, a: MetricAlarmSpec, b: MetricAlarmSpec)
    ensures PathOf(Text(AlarmDescription)) == ["Spec", "AlarmDescription"]
    ensures Disagrees(eq, a, b, Text(AlarmDescription)) <==> a.alarmDescription != b.alarmDescription
    ensures PathOf(Text(ComparisonOperator)) == ["Spec", "ComparisonOperator"]
    ensures Disagrees(eq, a, b, Text(ComparisonOperator)) <==> a.comparisonOperator != b.comparisonOperator
    ensures PathOf(Text(LowSamplePercentile)) == ["Spec", "EvaluateLowSampleCountPercentile"]
    ensures Disagrees(eq, a, b, Text(LowSamplePercentile)) <==>
              a.evaluateLowSampleCountPercentile != b.evaluateLowSampleCountPercentile
    ensures PathOf(Text(ExtendedStatistic)) == ["Spec", "ExtendedStatistic"]
    ensures Disagrees(eq, a, b, Text(ExtendedStatistic)) <==> a.extendedStatistic != b.extendedStatistic
    ensures PathOf(Text(MetricName)) == ["Spec", "MetricName"]
    ensures Disagrees(eq, a, b, Text(MetricName)) <==> a.metricName != b.metricName
    ensures PathOf(Text(Name)) == ["Spec", "Name"] && (Disagrees(eq, a, b, Text(Name)) <==> a.name != b.name)
    ensures PathOf(Text(Namespace)) == ["Spec", "Namespace"]
    ensures Disagrees(eq, a, b, Text(Namespace)) <==> a.namespace != b.namespace
    ensures PathOf(Text(Statistic)) == ["Spec", "Statistic"]
    ensures Disagrees(eq, a, b, Text(Statistic)) <==> a.statistic != b.statistic
    ensures PathOf(Text(ThresholdMetricID)) == ["Spec", "ThresholdMetricID"]
    ensures Disagrees(eq, a, b, Text(ThresholdMetricID)) <==> a.thresholdMetricID != b.thresholdMetricID
    ensures PathOf(Text(TreatMissingData)) == ["Spec", "TreatMissingData"]
    ensures Disagrees(eq, a, b, Text(TreatMissingData)) <==> a.treatMissingData != b.treatMissingData
    ensures PathOf(Text(Unit)) == ["Spec", "Unit"] && (Disagrees(eq, a, b, Text(Unit)) <==> a.unit != b.unit)
  {
  }

  lemma NumberFieldsMean(eq: LeafEq, a: MetricAlarmSpec, b: MetricAlarmSpec)
    ensures PathOf(Number(DatapointsToAlarm)) == ["Spec", "DatapointsToAlarm"]
    ensures Disagrees(eq, a, b, Number(DatapointsToAlarm)) <==> a.datapointsToAlarm != b.datapointsToAlarm
    ensures PathOf(Number(EvaluationInterval)) == ["Spec", "EvaluationInterval"]
    ensures Disagrees(eq, a, b, Number(EvaluationInterval)) <==> a.evaluationInterval != b.evaluationInterval
    ensures PathOf(Number(EvaluationPeriods)) == ["Spec", "EvaluationPeriods"]
    ensures Disagrees(eq, a, b, Number(EvaluationPeriods)) <==> a.evaluationPeriods != b.evaluationPeriods
    ensures PathOf(Number(Period)) == ["Spec", "Period"]
    ensures Disagrees(eq, a, b, Number(Period)) <==> a.period != b.period
    ensures PathOf(ActionsEnabled) == ["Spec", "ActionsEnabled"]
    ensures Disagrees(eq, a, b, ActionsEnabled) <==> a.actionsEnabled != b.actionsEnabled
    ensures PathOf(Threshold) == ["Spec", "Threshold"]
    ensures Disagrees(eq, a, b, Threshold) <==> a.threshold != b.threshold || a.threshold == Some(NaN)
  {
  }

  // Lists agree if both are empty, nil or not, or if they have one length and are equal leaves.
  lemma ListsMean<T>(eq: (seq<T>, seq<T>) -> bool, x: Option<seq<T>>, y: Option<seq<T>>)
    ensures !ListsDisagree(eq, x, y) <==>
              || ((x == None || x == Some([])) && (y == None || y == Some([])))
              || (x.Some? && y.Some? && |x.value| == |y.value| > 0 && eq(x.value, y.value))
  {
  }

  lemma ListFieldsMean(eq: LeafEq, a: MetricAlarmSpec, b: MetricAlarmSpec)
    ensures PathOf(Actions(AlarmActions)) == ["Spec", "AlarmActions"]
    ensures Disagrees(eq, a, b, Actions(AlarmActions)) <==> ListsDisagree(eq.strings, a.alarmActions, b.alarmActions)
    ensures PathOf(Actions(InsufficientDataActions)) == ["Spec", "InsufficientDataActions"]
    ensures Disagrees(eq, a, b, Actions(InsufficientDataActions)) <==>
              ListsDisagree(eq.strings, a.insufficientDataActions, b.insufficientDataActions)
    ensures PathOf(Actions(OKActions)) == ["Spec", "OKActions"]
    ensures Disagrees(eq, a, b, Actions(OKActions)) <==> ListsDisagree(eq.strings, a.okActions, b.okActions)
    ensures PathOf(Dimensions) == ["Spec", "Dimensions"]
    ensures Disagrees(eq, a, b, Dimensions) <==> ListsDisagree(eq.dimensions, a.dimensions, b.dimensions)
    ensures PathOf(Metrics) == ["Spec", "Metrics"]
    ensures Disagrees(eq, a, b, Metrics) <==> ListsDisagree(eq.metrics, a.metrics, b.metrics)
    ensures PathOf(TagList) == ["Spec", "Tags"] && (Disagrees(eq, a, b, TagList) <==> MapOf(a.tags) != MapOf(b.tags))
  {
  }

  // Below a struct that only one side has nothing is reported.
  lemma CriteriaFieldsMean(eq: LeafEq, a: MetricAlarmSpec, b: MetricAlarmSpec)
    ensures PathOf(Criteria(WholeCriteria)) == ["Spec", "EvaluationCriteria"]
    ensures PathOf(Criteria(PromQL)) == ["Spec", "EvaluationCriteria", "PromQLCriteria"]
    ensures PathOf(Criteria(PendingPeriod)) == ["Spec", "EvaluationCriteria", "PromQLCriteria", "PendingPeriod"]
    ensures PathOf(Criteria(Query)) == ["Spec", "EvaluationCriteria", "PromQLCriteria", "Query"]
    ensures PathOf(Criteria(RecoveryPeriod)) == ["Spec", "EvaluationCriteria", "PromQLCriteria", "RecoveryPeriod"]
    ensures match (a.evaluationCriteria, b.evaluationCriteria)
            case (Some(EvaluationCriteria(Some(p))), Some(EvaluationCriteria(Some(q)))) =>
              forall c: CriteriaField ::
                Disagrees(eq, a, b, Criteria(c)) <==>
                  || (c == PendingPeriod && p.pendingPeriod != q.pendingPeriod)
                  || (c == Query && p.query != q.query)
                  || (c == RecoveryPeriod && p.recoveryPeriod != q.recoveryPeriod)
            case (Some(x), Some(y)) =>
              forall c: CriteriaField ::
                Disagrees(eq, a, b, Criteria(c)) <==> c == PromQL && x.promQL.Some? != y.promQL.Some?
            case (x, y) =>
              forall c: CriteriaField :: Disagrees(eq, a, b, Criteria(c)) <==> c == WholeCriteria && x != y
  {
  }

  lemma WindowFieldsMean(eq: LeafEq, a: MetricAlarmSpec, b: MetricAlarmSpec)
    ensures PathOf(Window(WholeWindow)) == ["Spec", "EvaluationWindow"]
    ensures PathOf(Window(SlidingWindow)) == ["Spec", "EvaluationWindow", "SlidingWindow"]
    ensures PathOf(Window(WallClock)) == ["Spec", "EvaluationWindow", "WallClockWindow"]
    ensures PathOf(Window(Timezone)) == ["Spec", "EvaluationWindow", "WallClockWindow", "Timezone"]
    ensures match (a.evaluationWindow, b.evaluationWindow)
            case (Some(x), Some(y)) =>
              forall w: WindowField ::
                Disagrees(eq, a, b, Window(w)) <==>
                  || (w == SlidingWindow && x.slidingWindow.Some? != y.slidingWindow.Some?)
                  || (w == WallClock && x.wallClockWindow.Some? != y.wallClockWindow.Some?)
                  || (w == Timezone && x.wallClockWindow.Some? && y.wallClockWindow.Some?
                      && x.wallClockWindow.value.timezone != y.wallClockWindow.value.timezone)
            case (x, y) => forall w: WindowField :: Disagrees(eq, a, b, Window(w)) <==> w == WholeWindow && x != y
  {
  }

  // The fields that are compared by plain equality of everything below them.
  lemma PlainFieldsAgree(eq: LeafEq, a: MetricAlarmSpec, b: MetricAlarmSpec)
    requires !DiffersBeyondTags(eq, a, b)
    ensures b == a.(
              alarmActions := b.alarmActions, dimensions := b.dimensions,
              insufficientDataActions := b.insufficientDataActions, metrics := b.metrics, okActions := b.okActions,
              evaluationWindow := b.evaluationWindow, tags := b.tags)
    ensures a.threshold != Some(NaN)
  {
    TextFieldsMean(eq, a, b);
    NumberFieldsMean(eq, a, b);
    CriteriaFieldsMean(eq, a, b);
    assert !Disagrees(eq, a, b, Criteria(WholeCriteria)) && !Disagrees(eq, a, b, Criteria(PromQL));
    assert !Disagrees(eq, a, b, Criteria(PendingPeriod)) && !Disagrees(eq, a, b, Criteria(Query));
    assert !Disagrees(eq, a, b, Criteria(RecoveryPeriod));
  }

  // No field but the tags is reported exactly if the two specs are one record, the threshold
  // is a number, the lists agree as lists and the windows have the same members, where the
  // contents of a sliding window do not count.
  lemma AgreeExactly(eq: LeafEq, a: MetricAlarmSpec, b: MetricAlarmSpec)
    ensures !DiffersBeyondTags(eq, a, b) <==>
              && b == a.(
                   alarmActions := b.alarmActions, dimensions := b.dimensions,
                   insufficientDataActions := b.insufficientDataActions, metrics := b.metrics,
                   okActions := b.okActions, evaluationWindow := b.evaluationWindow, tags := b.tags)
              && a.threshold != Some(NaN)
              && !ListsDisagree(eq.strings, a.alarmActions, b.alarmActions)
              && !ListsDisagree(eq.strings, a.insufficientDataActions, b.insufficientDataActions)
              && !ListsDisagree(eq.strings, a.okActions, b.okActions)
              && !ListsDisagree(eq.dimensions, a.dimensions, b.dimensions)
              && !ListsDisagree(eq.metrics, a.metrics, b.metrics)
              && (a.evaluationWindow.Some? <==> b.evaluationWindow.Some?)
              && (a.evaluationWindow.Some? ==>
                    && (a.evaluationWindow.value.slidingWindow.Some? <==> b.evaluationWindow.value.slidingWindow.Some?)
                    && a.evaluationWindow.value.wallClockWindow == b.evaluationWindow.value.wallClockWindow)
    ensures NoDifference(eq, a, b) <==> !DiffersBeyondTags(eq, a, b) && MapOf(a.tags) == MapOf(b.tags)
  {
    if !DiffersBeyondTags(eq, a, b) {
      PlainFieldsAgree(eq, a, b);
      ListFieldsMean(eq, a, b);
      WindowFieldsMean(eq, a, b);
      assert !Disagrees(eq, a, b, Window(WholeWindow)) && !Disagrees(eq, a, b, Window(SlidingWindow));
      assert !Disagrees(eq, a, b, Window(WallClock)) && !Disagrees(eq, a, b, Window(Timezone));
    }
    assert Disagrees(eq, a, b, TagList) <==> MapOf(a.tags) != MapOf(b.tags);
  }

  /******* It is an equivalence, except on NaN *******/

  // A spec differs from itself exactly when its threshold is NaN.
  lemma ReflexiveExactly(eq: LeafEq, a: MetricAlarmSpec)
    requires LeafEquivalences(eq)
    ensures NoDifference(eq, a, a) <==> a.threshold != Some(NaN)
    ensures forall f | f != Threshold :: !Disagrees(eq, a, a, f)
  {
    assert a.threshold == Some(NaN) ==> Disagrees(eq, a, a, Threshold);
  }

  // Swapping the sides reports the same fields.
  lemma Symmetric(eq: LeafEq, a: MetricAlarmSpec, b: MetricAlarmSpec, f: Field)
    requires LeafEquivalences(eq)
    ensures Disagrees(eq, a, b, f) <==> Disagrees(eq, b, a, f)
  {
    match f {
      case Actions(l) => ListsSymmetric(eq.strings, ActionsOf(a, l), ActionsOf(b, l));
      case Dimensions => ListsSymmetric(eq.dimensions, a.dimensions, b.dimensions);
      case Metrics => ListsSymmetric(eq.metrics, a.metrics, b.metrics);
      case _ =>
    }
  }

  lemma ListsSymmetric<T(!new)>(eq: (seq<T>, seq<T>) -> bool, x: Option<seq<T>>, y: Option<seq<T>>)
    requires Equivalence(eq)
    ensures ListsDisagree(eq, x, y) <==> ListsDisagree(eq, y, x)
  {
    assert eq(Items(x), Items(y)) <==> eq(Items(y), Items(x));
  }

  lemma ListsTransitive<T(!new)>(
    eq: (seq<T>, seq<T>) -> bool, x: Option<seq<T>>, y: Option<seq<T>>, z: Option<seq<T>>)
    requires Equivalence(eq)
    requires !ListsDisagree(eq, x, y) && !ListsDisagree(eq, y, z)
    ensures !ListsDisagree(eq, x, z)
  {
  }

  lemma Transitive(eq: LeafEq, a: MetricAlarmSpec, b: MetricAlarmSpec, c: MetricAlarmSpec)
    requires LeafEquivalences(eq)
    requires NoDifference(eq, a, b) && NoDifference(eq, b, c)
    ensures NoDifference(eq, a, c)
  {
    forall f ensures !Disagrees(eq, a, c, f) {
      assert !Disagrees(eq, a, b, f) && !Disagrees(eq, b, c, f);
      match f {
        case Actions(l) => ListsTransitive(eq.strings, ActionsOf(a, l), ActionsOf(b, l), ActionsOf(c, l));
        case Dimensions => ListsTransitive(eq.dimensions, a.dimensions, b.dimensions, c.dimensions);
        case Metrics => ListsTransitive(eq.metrics, a.metrics, b.metrics, c.metrics);
        // Below a struct, the tests for the enclosing structs are needed as well.
        case Criteria(_) =>
          assert !Disagrees(eq, a, b, Criteria(WholeCriteria)) && !Disagrees(eq, b, c, Criteria(WholeCriteria));
          assert !Disagrees(eq, a, b, Criteria(PromQL)) && !Disagrees(eq, b, c, Criteria(PromQL));
        case Window(_) =>
          assert !Disagrees(eq, a, b, Window(WholeWindow)) && !Disagrees(eq, b, c, Window(WholeWindow));
          assert !Disagrees(eq, a, b, Window(WallClock)) && !Disagrees(eq, b, c, Window(WallClock));
        case _ =>
      }
    }
  }
}
