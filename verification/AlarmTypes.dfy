// The custom resource's spec (apis/v1alpha1) and the shapes of the CloudWatch SDK.
// Pointers to scalars are Options and slices are Options of sequences, so that a
// nil slice and an empty one differ. Only the tag list is a plain sequence: every
// reader of it asks for its length or ranges over it.

module AlarmTypes {
  import opened Wrappers
  import opened Tags

  type int64 = x: int | -0x8000_0000_0000_0000 <= x < 0x8000_0000_0000_0000
  type int32 = x: int | -0x8000_0000 <= x < 0x8000_0000

  datatype Float64 = NaN | Infinite(negative: bool) | Finite(r: real)

  /******* Kubernetes side *******/

  datatype Dimension = Dimension(name: Option<string>, value: Option<string>)

  datatype Metric = Metric(
    dimensions: Option<seq<Dimension>>, metricName: Option<string>, namespace: Option<string>)

  datatype MetricStat = MetricStat(
    metric: Option<Metric>, period: Option<int64>, stat: Option<string>, unit: Option<string>)

  datatype MetricDataQuery = MetricDataQuery(
    accountID: Option<string>, expression: Option<string>, id: Option<string>, label_: Option<string>,
    metricStat: Option<MetricStat>, period: Option<int64>, returnData: Option<bool>)

  datatype PromQLCriteria = PromQLCriteria(
    pendingPeriod: Option<int64>, query: Option<string>, recoveryPeriod: Option<int64>)

  datatype EvaluationCriteria = EvaluationCriteria(promQL: Option<PromQLCriteria>)

  datatype WallClockWindow = WallClockWindow(timezone: Option<string>)

  datatype EvaluationWindow = EvaluationWindow(
    slidingWindow: Option<map<string, Option<string>>>, wallClockWindow: Option<WallClockWindow>)

  datatype MetricAlarmSpec = MetricAlarmSpec(
    actionsEnabled: Option<bool>,
    alarmActions: Option<seq<Option<string>>>,
    alarmDescription: Option<string>,
    comparisonOperator: Option<string>,
    datapointsToAlarm: Option<int64>,
    dimensions: Option<seq<Dimension>>,
    evaluateLowSampleCountPercentile: Option<string>,
    evaluationCriteria: Option<EvaluationCriteria>,
    evaluationInterval: Option<int64>,
    evaluationPeriods: Option<int64>,
    evaluationWindow: Option<EvaluationWindow>,
    extendedStatistic: Option<string>,
    insufficientDataActions: Option<seq<Option<string>>>,
    metricName: Option<string>,
    metrics: Option<seq<MetricDataQuery>>,
    name: Option<string>,
    namespace: Option<string>,
    okActions: Option<seq<Option<string>>>,
    period: Option<int64>,
    statistic: Option<string>,
    tags: seq<Tag>,
    threshold: Option<Float64>,
    thresholdMetricID: Option<string>,
    treatMissingData: Option<string>,
    unit: Option<string>)

  /******* SDK side: enums are strings whose empty value means unset *******/

  datatype SdkDimension = SdkDimension(name: Option<string>, value: Option<string>)

  datatype SdkMetric = SdkMetric(
    dimensions: Option<seq<SdkDimension>>, metricName: Option<string>, namespace: Option<string>)

  datatype SdkMetricStat = SdkMetricStat(
    metric: Option<SdkMetric>, period: Option<int32>, stat: Option<string>, unit: string)

  datatype SdkMetricDataQuery = SdkMetricDataQuery(
    accountId: Option<string>, expression: Option<string>, id: Option<string>, label_: Option<string>,
    metricStat: Option<SdkMetricStat>, period: Option<int32>, returnData: Option<bool>)

  // Union interfaces; a member this client does not know can only come back from the API.
  datatype SdkCriteria =
    | PromQLMember(pendingPeriod: Option<int32>, query: Option<string>, recoveryPeriod: Option<int32>)
    | UnknownCriteria

  datatype SdkWindow =
    | SlidingWindowMember
    | WallClockWindowMember(timezone: Option<string>)
    | UnknownWindow

  // What PutMetricAlarm is sent, apart from the tags, and DescribeAlarms returns, apart from the ARN.
  datatype SdkAlarm = SdkAlarm(
    actionsEnabled: Option<bool>,
    alarmActions: Option<seq<string>>,
    alarmDescription: Option<string>,
    alarmName: Option<string>,
    comparisonOperator: string,
    datapointsToAlarm: Option<int32>,
    dimensions: Option<seq<SdkDimension>>,
    evaluateLowSampleCountPercentile: Option<string>,
    evaluationCriteria: Option<SdkCriteria>,
    evaluationInterval: Option<int32>,
    evaluationPeriods: Option<int32>,
    evaluationWindow: Option<SdkWindow>,
    extendedStatistic: Option<string>,
    insufficientDataActions: Option<seq<string>>,
    metricName: Option<string>,
    metrics: Option<seq<SdkMetricDataQuery>>,
    namespace: Option<string>,
    okActions: Option<seq<string>>,
    period: Option<int32>,
    statistic: string,
    threshold: Option<Float64>,
    thresholdMetricId: Option<string>,
    treatMissingData: Option<string>,
    unit: string)

  datatype PutMetricAlarmInput = PutMetricAlarmInput(alarm: SdkAlarm, tags: seq<Tag>)
}
