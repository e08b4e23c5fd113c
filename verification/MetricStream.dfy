// pkg/resource/metric_stream: the spec, the PutMetricStream request, the spec that
// GetMetricStream is turned into, and the comparison of the two. Tags are not read back.

module MetricStream {
  import opened Wrappers
  import opened Tags
  import opened Payload
  import opened Observe
  import opened Delta
  import opened RoundTrip
  import opened TagPipeline

  datatype Filter = Filter(metricNames: Option<seq<Option<string>>>, namespace: Option<string>)

  datatype StatisticsMetric = StatisticsMetric(metricName: Option<string>, namespace: Option<string>)

  datatype StatisticsConfiguration = StatisticsConfiguration(
    additionalStatistics: Option<seq<Option<string>>>, includeMetrics: Option<seq<StatisticsMetric>>)

  // AWSResourceReferenceWrapper: the name and namespace of another custom resource.
  datatype RefFrom = RefFrom(name: Option<string>, namespace: Option<string>)
  datatype Reference = Reference(from: Option<RefFrom>)

  datatype MetricStreamSpec = MetricStreamSpec(
    excludeFilters: Option<seq<Filter>>,
    firehoseARN: Option<string>,
    firehoseRef: Option<Reference>,
    includeFilters: Option<seq<Filter>>,
    includeLinkedAccountsMetrics: Option<bool>,
    name: Option<string>,
    outputFormat: Option<string>,
    roleARN: Option<string>,
    roleRef: Option<Reference>,
    statisticsConfigurations: Option<seq<StatisticsConfiguration>>,
    tags: seq<Tag>)

  datatype SdkFilter = SdkFilter(metricNames: Option<seq<string>>, namespace: Option<string>)

  datatype SdkStatisticsMetric = SdkStatisticsMetric(metricName: Option<string>, namespace: Option<string>)

  datatype SdkStatisticsConfiguration = SdkStatisticsConfiguration(
    additionalStatistics: Option<seq<string>>, includeMetrics: Option<seq<SdkStatisticsMetric>>)

  datatype SdkStream = SdkStream(
    excludeFilters: Option<seq<SdkFilter>>,
    firehoseArn: Option<string>,
    includeFilters: Option<seq<SdkFilter>>,
    includeLinkedAccountsMetrics: Option<bool>,
    name: Option<string>,
    outputFormat: string,
    roleArn: Option<string>,
    statisticsConfigurations: Option<seq<SdkStatisticsConfiguration>>)

  datatype PutMetricStreamInput = PutMetricStreamInput(stream: SdkStream, tags: seq<Tag>)

  /******* The request *******/

  function MapList<T, U>(f: T -> U, l: Option<seq<T>>): Option<seq<U>> {
    if l.Some? then Some(MapSeq(f, l.value)) else None
  }

  function EncodeFilter(f: Filter): SdkFilter {
    SdkFilter(EncodeStrings(f.metricNames), f.namespace)
  }

  function EncodeStatisticsMetric(m: StatisticsMetric): SdkStatisticsMetric {
    SdkStatisticsMetric(m.metricName, m.namespace)
  }

  function EncodeConfiguration(c: StatisticsConfiguration): SdkStatisticsConfiguration {
    SdkStatisticsConfiguration(EncodeStrings(c.additionalStatistics), MapList(EncodeStatisticsMetric, c.includeMetrics))
  }

  function EncodeStream(s: MetricStreamSpec): SdkStream {
    SdkStream(
      MapList(EncodeFilter, s.excludeFilters), s.firehoseARN, MapList(EncodeFilter, s.includeFilters),
      s.includeLinkedAccountsMetrics, s.name, PlainString(s.outputFormat), s.roleARN,
      MapList(EncodeConfiguration, s.statisticsConfigurations))
  }

  method BuildFilters(fs: Option<seq<Filter>>) returns (r: Option<seq<SdkFilter>>)
    ensures r == MapList(EncodeFilter, fs)
  {
    if fs.None? { return None; }
    var l, out := fs.value, [];
    for i := 0 to |l|
      invariant out == MapSeq(EncodeFilter, l[..i])
    {
      var names := BuildStringList(l[i].metricNames);
      assert SdkFilter(names, l[i].namespace) == EncodeFilter(l[i]);
      out := out + [SdkFilter(names, l[i].namespace)];
    }
    assert l[..|l|] == l;
    return Some(out);
  }

  method BuildIncludeMetrics(ms: Option<seq<StatisticsMetric>>) returns (r: Option<seq<SdkStatisticsMetric>>)
    ensures r == MapList(EncodeStatisticsMetric, ms)
  {
    if ms.None? { return None; }
    var l, out := ms.value, [];
    for i := 0 to |l|
      invariant out == MapSeq(EncodeStatisticsMetric, l[..i])
    {
      assert SdkStatisticsMetric(l[i].metricName, l[i].namespace) == EncodeStatisticsMetric(l[i]);
      out := out + [SdkStatisticsMetric(l[i].metricName, l[i].namespace)];
    }
    assert l[..|l|] == l;
    return Some(out);
  }

  method BuildConfigurations(cs: Option<seq<StatisticsConfiguration>>)
    returns (r: Option<seq<SdkStatisticsConfiguration>>)
    ensures r == MapList(EncodeConfiguration, cs)
  {
    if cs.None? { return None; }
    var l, out := cs.value, [];
    for i := 0 to |l|
      invariant out == MapSeq(EncodeConfiguration, l[..i])
    {
      var statistics := BuildStringList(l[i].additionalStatistics);
      var metrics := BuildIncludeMetrics(l[i].includeMetrics);
      assert SdkStatisticsConfiguration(statistics, metrics) == EncodeConfiguration(l[i]);
      out := out + [SdkStatisticsConfiguration(statistics, metrics)];
    }
    assert l[..|l|] == l;
    return Some(out);
  }

  // newCreateRequestPayload and newUpdateRequestPayload, which have the same text
  method NewStreamPayload(s: MetricStreamSpec) returns (r: PutMetricStreamInput)
    ensures r == PutMetricStreamInput(EncodeStream(s), s.tags)
  {
    var exclude := BuildFilters(s.excludeFilters);
    var include_ := BuildFilters(s.includeFilters);
    var outputFormat := if s.outputFormat.Some? then s.outputFormat.value else "";
    var configurations := BuildConfigurations(s.statisticsConfigurations);
    var tags := BuildTags(s.tags);
    r := PutMetricStreamInput(
      SdkStream(exclude, s.firehoseARN, include_, s.includeLinkedAccountsMetrics, s.name, outputFormat, s.roleARN,
                configurations),
      tags);
  }

  // The request field by field,
  lemma StreamRequestCarries(s: MetricStreamSpec)
    ensures var a := EncodeStream(s);
            && a.name == s.name && a.firehoseArn == s.firehoseARN && a.roleArn == s.roleARN
            && a.includeLinkedAccountsMetrics == s.includeLinkedAccountsMetrics
            && a.outputFormat == (if s.outputFormat.Some? then s.outputFormat.value else "")
            && a.excludeFilters == MapList(EncodeFilter, s.excludeFilters)
            && a.includeFilters == MapList(EncodeFilter, s.includeFilters)
            && a.statisticsConfigurations == MapList(EncodeConfiguration, s.statisticsConfigurations)
  {
  }

  // and its lists element by element.
  lemma FiltersSent(fs: Option<seq<Filter>>)
    ensures MapList(EncodeFilter, fs).Some? <==> fs.Some?
    ensures fs.Some? ==> |MapList(EncodeFilter, fs).value| == |fs.value|
    ensures fs.Some? ==> forall i | 0 <= i < |fs.value| ::
              && MapList(EncodeFilter, fs).value[i].namespace == fs.value[i].namespace
              && MapList(EncodeFilter, fs).value[i].metricNames == EncodeStrings(fs.value[i].metricNames)
  {
    if fs.Some? {
      assert forall i | 0 <= i < |fs.value| :: MapList(EncodeFilter, fs).value[i] == EncodeFilter(fs.value[i]);
    }
  }

  lemma IncludeMetricsSent(ms: Option<seq<StatisticsMetric>>)
    ensures MapList(EncodeStatisticsMetric, ms).Some? <==> ms.Some?
    ensures ms.Some? ==> |MapList(EncodeStatisticsMetric, ms).value| == |ms.value|
    ensures ms.Some? ==> forall i | 0 <= i < |ms.value| ::
              && MapList(EncodeStatisticsMetric, ms).value[i].metricName == ms.value[i].metricName
              && MapList(EncodeStatisticsMetric, ms).value[i].namespace == ms.value[i].namespace
  {
    if ms.Some? {
      assert forall i | 0 <= i < |ms.value| ::
          MapList(EncodeStatisticsMetric, ms).value[i] == EncodeStatisticsMetric(ms.value[i]);
    }
  }

  lemma ConfigurationsSent(cs: Option<seq<StatisticsConfiguration>>)
    ensures MapList(EncodeConfiguration, cs).Some? <==> cs.Some?
    ensures cs.Some? ==> |MapList(EncodeConfiguration, cs).value| == |cs.value|
    ensures cs.Some? ==> forall i | 0 <= i < |cs.value| ::
              var c := MapList(EncodeConfiguration, cs).value[i];
              && c.additionalStatistics == EncodeStrings(cs.value[i].additionalStatistics)
              && c.includeMetrics == MapList(EncodeStatisticsMetric, cs.value[i].includeMetrics)
  {
    if cs.Some? {
      assert forall i | 0 <= i < |cs.value| ::
          MapList(EncodeConfiguration, cs).value[i] == EncodeConfiguration(cs.value[i]);
    }
  }

  /******* What is read back *******/

  function DecodeFilter(f: SdkFilter): Filter {
    Filter(DecodeStrings(f.metricNames), f.namespace)
  }

  function DecodeStatisticsMetric(m: SdkStatisticsMetric): StatisticsMetric {
    StatisticsMetric(m.metricName, m.namespace)
  }

  function DecodeConfiguration(c: SdkStatisticsConfiguration): StatisticsConfiguration {
    StatisticsConfiguration(DecodeStrings(c.additionalStatistics), MapList(DecodeStatisticsMetric, c.includeMetrics))
  }

  // ko is the copy of the desired spec: its references and its tags stay.
  function DecodeStream(ko: MetricStreamSpec, a: SdkStream): MetricStreamSpec {
    MetricStreamSpec(
      MapList(DecodeFilter, a.excludeFilters), a.firehoseArn, ko.firehoseRef, MapList(DecodeFilter, a.includeFilters),
      a.includeLinkedAccountsMetrics, a.name, EnumPointer(a.outputFormat), a.roleArn, ko.roleRef,
      MapList(DecodeConfiguration, a.statisticsConfigurations), ko.tags)
  }

  method ReadFilters(fs: Option<seq<SdkFilter>>) returns (r: Option<seq<Filter>>)
    ensures r == MapList(DecodeFilter, fs)
  {
    if fs.None? { return None; }
    var l, out := fs.value, [];
    for i := 0 to |l|
      invariant out == MapSeq(DecodeFilter, l[..i])
    {
      var names := ReadStringList(l[i].metricNames);
      assert Filter(names, l[i].namespace) == DecodeFilter(l[i]);
      out := out + [Filter(names, l[i].namespace)];
    }
    assert l[..|l|] == l;
    return Some(out);
  }

  method ReadIncludeMetrics(ms: Option<seq<SdkStatisticsMetric>>) returns (r: Option<seq<StatisticsMetric>>)
    ensures r == MapList(DecodeStatisticsMetric, ms)
  {
    if ms.None? { return None; }
    var l, out := ms.value, [];
    for i := 0 to |l|
      invariant out == MapSeq(DecodeStatisticsMetric, l[..i])
    {
      assert StatisticsMetric(l[i].metricName, l[i].namespace) == DecodeStatisticsMetric(l[i]);
      out := out + [StatisticsMetric(l[i].metricName, l[i].namespace)];
    }
    assert l[..|l|] == l;
    return Some(out);
  }

  method ReadConfigurations(cs: Option<seq<SdkStatisticsConfiguration>>)
    returns (r: Option<seq<StatisticsConfiguration>>)
    ensures r == MapList(DecodeConfiguration, cs)
  {
    if cs.None? { return None; }
    var l, out := cs.value, [];
    for i := 0 to |l|
      invariant out == MapSeq(DecodeConfiguration, l[..i])
    {
      var statistics := ReadStringList(l[i].additionalStatistics);
      var metrics := ReadIncludeMetrics(l[i].includeMetrics);
      assert StatisticsConfiguration(statistics, metrics) == DecodeConfiguration(l[i]);
      out := out + [StatisticsConfiguration(statistics, metrics)];
    }
    assert l[..|l|] == l;
    return Some(out);
  }

  // The response overwrites the fields of ko, nil fields included.
  method ReadStream(ko: MetricStreamSpec, resp: SdkStream) returns (out: MetricStreamSpec)
    ensures out == DecodeStream(ko, resp)
  {
    var exclude := ReadFilters(resp.excludeFilters);
    var include_ := ReadFilters(resp.includeFilters);
    var configurations := ReadConfigurations(resp.statisticsConfigurations);
    out := ko.(
      excludeFilters := exclude, firehoseARN := resp.firehoseArn, includeFilters := include_,
      includeLinkedAccountsMetrics := resp.includeLinkedAccountsMetrics, name := resp.name,
      outputFormat := EnumPointer(resp.outputFormat), roleARN := resp.roleArn,
      statisticsConfigurations := configurations);
  }

  // The spec read back, field by field,
  lemma StreamObservedCarries(ko: MetricStreamSpec, a: SdkStream)
    ensures var s := DecodeStream(ko, a);
            && s.name == a.name && s.firehoseARN == a.firehoseArn && s.roleARN == a.roleArn
            && s.firehoseRef == ko.firehoseRef && s.roleRef == ko.roleRef && s.tags == ko.tags
            && s.includeLinkedAccountsMetrics == a.includeLinkedAccountsMetrics
            && s.outputFormat == (if a.outputFormat == "" then None else Some(a.outputFormat))
            && s.excludeFilters == MapList(DecodeFilter, a.excludeFilters)
            && s.includeFilters == MapList(DecodeFilter, a.includeFilters)
            && s.statisticsConfigurations == MapList(DecodeConfiguration, a.statisticsConfigurations)
  {
  }

  // and its lists element by element.
  lemma FiltersRead(fs: Option<seq<SdkFilter>>)
    ensures MapList(DecodeFilter, fs).Some? <==> fs.Some?
    ensures fs.Some? ==> |MapList(DecodeFilter, fs).value| == |fs.value|
    ensures fs.Some? ==> forall i | 0 <= i < |fs.value| ::
              && MapList(DecodeFilter, fs).value[i].namespace == fs.value[i].namespace
              && MapList(DecodeFilter, fs).value[i].metricNames == DecodeStrings(fs.value[i].metricNames)
  {
    if fs.Some? {
      assert forall i | 0 <= i < |fs.value| :: MapList(DecodeFilter, fs).value[i] == DecodeFilter(fs.value[i]);
    }
  }

  lemma IncludeMetricsRead(ms: Option<seq<SdkStatisticsMetric>>)
    ensures MapList(DecodeStatisticsMetric, ms).Some? <==> ms.Some?
    ensures ms.Some? ==> |MapList(DecodeStatisticsMetric, ms).value| == |ms.value|
    ensures ms.Some? ==> forall i | 0 <= i < |ms.value| ::
              && MapList(DecodeStatisticsMetric, ms).value[i].metricName == ms.value[i].metricName
              && MapList(DecodeStatisticsMetric, ms).value[i].namespace == ms.value[i].namespace
  {
    if ms.Some? {
      assert forall i | 0 <= i < |ms.value| ::
          MapList(DecodeStatisticsMetric, ms).value[i] == DecodeStatisticsMetric(ms.value[i]);
    }
  }

  lemma ConfigurationsRead(cs: Option<seq<SdkStatisticsConfiguration>>)
    ensures MapList(DecodeConfiguration, cs).Some? <==> cs.Some?
    ensures cs.Some? ==> |MapList(DecodeConfiguration, cs).value| == |cs.value|
    ensures cs.Some? ==> forall i | 0 <= i < |cs.value| ::
              var c := MapList(DecodeConfiguration, cs).value[i];
              && c.additionalStatistics == DecodeStrings(cs.value[i].additionalStatistics)
              && c.includeMetrics == MapList(DecodeStatisticsMetric, cs.value[i].includeMetrics)
  {
    if cs.Some? {
      assert forall i | 0 <= i < |cs.value| ::
          MapList(DecodeConfiguration, cs).value[i] == DecodeConfiguration(cs.value[i]);
    }
  }

  /******* The comparison *******/

  datatype StreamField =
    | ExcludeFilters | FirehoseARN | FirehoseRef | IncludeFilters | IncludeLinkedAccountsMetrics | StreamName
    | OutputFormat | RoleARN | RoleRef | StatisticsConfigurations | StreamTags

  // Semantic DeepEqual at the types it is used on.
  datatype StreamEq = StreamEq(
    filters: (seq<Filter>, seq<Filter>) -> bool,
    configurations: (seq<StatisticsConfiguration>, seq<StatisticsConfiguration>) -> bool,
    references: (Option<Reference>, Option<Reference>) -> bool)

  ghost predicate StreamEquivalences(eq: StreamEq) {
    Equivalence(eq.filters) && Equivalence(eq.configurations) && Equivalence(eq.references)
  }

  predicate StreamsDisagree(eq: StreamEq, a: MetricStreamSpec, b: MetricStreamSpec, f: StreamField) {
    match f
    case ExcludeFilters => ListsDisagree(eq.filters, a.excludeFilters, b.excludeFilters)
    case FirehoseARN => a.firehoseARN != b.firehoseARN
    case FirehoseRef => !eq.references(a.firehoseRef, b.firehoseRef)
    case IncludeFilters => ListsDisagree(eq.filters, a.includeFilters, b.includeFilters)
    case IncludeLinkedAccountsMetrics => a.includeLinkedAccountsMetrics != b.includeLinkedAccountsMetrics
    case StreamName => a.name != b.name
    case OutputFormat => a.outputFormat != b.outputFormat
    case RoleARN => a.roleARN != b.roleARN
    case RoleRef => !eq.references(a.roleRef, b.roleRef)
    case StatisticsConfigurations =>
      ListsDisagree(eq.configurations, a.statisticsConfigurations, b.statisticsConfigurations)
    case StreamTags => MapOf(a.tags) != MapOf(b.tags)
  }

  predicate InSecondHalf(f: StreamField) {
    f.OutputFormat? || f.RoleARN? || f.RoleRef? || f.StatisticsConfigurations? || f.StreamTags?
  }

  function AddField(delta: set<StreamField>, f: StreamField, differs: bool): set<StreamField> {
    if differs then delta + {f} else delta
  }

  method CompareFirstHalf(eq: StreamEq, a: MetricStreamSpec, b: MetricStreamSpec) returns (delta: set<StreamField>)
    ensures forall f :: f in delta <==> !InSecondHalf(f) && StreamsDisagree(eq, a, b, f)
  {
    var d := ListsDiffer(eq.filters, a.excludeFilters, b.excludeFilters);
    delta := AddField({}, ExcludeFilters, d);
    d := PointersDiffer(a.firehoseARN, b.firehoseARN);
    delta := AddField(delta, FirehoseARN, d);
    delta := AddField(delta, FirehoseRef, !eq.references(a.firehoseRef, b.firehoseRef));
    d := ListsDiffer(eq.filters, a.includeFilters, b.includeFilters);
    delta := AddField(delta, IncludeFilters, d);
    d := PointersDiffer(a.includeLinkedAccountsMetrics, b.includeLinkedAccountsMetrics);
    delta := AddField(delta, IncludeLinkedAccountsMetrics, d);
    d := PointersDiffer(a.name, b.name);
    delta := AddField(delta, StreamName, d);
  }

  // newResourceDelta on two resources that are not nil
  method NewStreamDelta(eq: StreamEq, a: MetricStreamSpec, b: MetricStreamSpec) returns (delta: set<StreamField>)
    ensures forall f :: f in delta <==> StreamsDisagree(eq, a, b, f)
  {
    delta := CompareFirstHalf(eq, a, b);
    var d := PointersDiffer(a.outputFormat, b.outputFormat);
    delta := AddField(delta, OutputFormat, d);
    d := PointersDiffer(a.roleARN, b.roleARN);
    delta := AddField(delta, RoleARN, d);
    delta := AddField(delta, RoleRef, !eq.references(a.roleRef, b.roleRef));
    d := ListsDiffer(eq.configurations, a.statisticsConfigurations, b.statisticsConfigurations);
    delta := AddField(delta, StatisticsConfigurations, d);
    d := TagsDiffer(a.tags, b.tags);
    delta := AddField(delta, StreamTags, d);
  }

  // What each field of the delta stands for,
  lemma StreamFieldsMean(eq: StreamEq, a: MetricStreamSpec, b: MetricStreamSpec)
    ensures StreamsDisagree(eq, a, b, ExcludeFilters)
            <==> ListsDisagree(eq.filters, a.excludeFilters, b.excludeFilters)
    ensures StreamsDisagree(eq, a, b, FirehoseARN) <==> a.firehoseARN != b.firehoseARN
    ensures StreamsDisagree(eq, a, b, FirehoseRef) <==> !eq.references(a.firehoseRef, b.firehoseRef)
    ensures StreamsDisagree(eq, a, b, IncludeFilters)
            <==> ListsDisagree(eq.filters, a.includeFilters, b.includeFilters)
    ensures StreamsDisagree(eq, a, b, IncludeLinkedAccountsMetrics)
            <==> a.includeLinkedAccountsMetrics != b.includeLinkedAccountsMetrics
    ensures StreamsDisagree(eq, a, b, StreamName) <==> a.name != b.name
    ensures StreamsDisagree(eq, a, b, OutputFormat) <==> a.outputFormat != b.outputFormat
    ensures StreamsDisagree(eq, a, b, RoleARN) <==> a.roleARN != b.roleARN
    ensures StreamsDisagree(eq, a, b, RoleRef) <==> !eq.references(a.roleRef, b.roleRef)
    ensures StreamsDisagree(eq, a, b, StatisticsConfigurations)
            <==> ListsDisagree(eq.configurations, a.statisticsConfigurations, b.statisticsConfigurations)
    ensures StreamsDisagree(eq, a, b, StreamTags) <==> MapOf(a.tags) != MapOf(b.tags)
  {
  }

  // and what an empty one says: one record, up to lists, references and tags that agree.
  lemma StreamsAgreeExactly(eq: StreamEq, a: MetricStreamSpec, b: MetricStreamSpec)
    ensures (forall f :: !StreamsDisagree(eq, a, b, f)) <==>
              && b == a.(
                   excludeFilters := b.excludeFilters, firehoseRef := b.firehoseRef, includeFilters := b.includeFilters,
                   roleRef := b.roleRef, statisticsConfigurations := b.statisticsConfigurations, tags := b.tags)
              && eq.references(a.firehoseRef, b.firehoseRef) && eq.references(a.roleRef, b.roleRef)
              && !ListsDisagree(eq.filters, a.excludeFilters, b.excludeFilters)
              && !ListsDisagree(eq.filters, a.includeFilters, b.includeFilters)
              && !ListsDisagree(eq.configurations, a.statisticsConfigurations, b.statisticsConfigurations)
              && MapOf(a.tags) == MapOf(b.tags)
  {
    StreamFieldsMean(eq, a, b);
  }

  /******* Round trip *******/

  function DenilList(l: Option<seq<Option<string>>>): Option<seq<Option<string>>> {
    MapList(Denil, l)
  }

  // What filters and configurations come back as: nil strings in their lists are empty now.
  function DenilFilter(f: Filter): Filter {
    f.(metricNames := DenilList(f.metricNames))
  }

  function DenilConfiguration(c: StatisticsConfiguration): StatisticsConfiguration {
    c.(additionalStatistics := DenilList(c.additionalStatistics))
  }

  predicate ListSurvives<T>(eq: (seq<T>, seq<T>) -> bool, back: T -> T, l: Option<seq<T>>) {
    Items(l) != [] ==> eq(Items(l), MapSeq(back, Items(l)))
  }

  predicate StreamNormalForm(eq: StreamEq, s: MetricStreamSpec) {
    && s.outputFormat != Some("")
    && ListSurvives(eq.filters, DenilFilter, s.excludeFilters)
    && ListSurvives(eq.filters, DenilFilter, s.includeFilters)
    && ListSurvives(eq.configurations, DenilConfiguration, s.statisticsConfigurations)
  }

  lemma StringsComeBack(l: Option<seq<Option<string>>>)
    ensures DecodeStrings(EncodeStrings(l)) == DenilList(l)
  {
    if l.Some? {
      forall i | 0 <= i < |l.value| ensures DecodeStrings(EncodeStrings(l)).value[i] == Denil(l.value[i]) {
        assert Pointer(PlainString(l.value[i])) == Denil(l.value[i]);
      }
      assert DecodeStrings(EncodeStrings(l)).value == DenilList(l).value;
    }
  }

  lemma MetricsComeBack(l: Option<seq<StatisticsMetric>>)
    ensures MapList(DecodeStatisticsMetric, MapList(EncodeStatisticsMetric, l)) == l
  {
    if l.Some? {
      forall i | 0 <= i < |l.value|
        ensures MapSeq(DecodeStatisticsMetric, MapSeq(EncodeStatisticsMetric, l.value))[i] == l.value[i]
      {
        assert DecodeStatisticsMetric(EncodeStatisticsMetric(l.value[i])) == l.value[i];
      }
      assert MapSeq(DecodeStatisticsMetric, MapSeq(EncodeStatisticsMetric, l.value)) == l.value;
    }
  }

  // A list sent element by element and read element by element.
  lemma ListComesBack<T, U>(encode: T -> U, decode: U -> T, back: T -> T, l: Option<seq<T>>)
    requires forall x: T :: decode(encode(x)) == back(x)
    ensures MapList(decode, MapList(encode, l)) == MapList(back, l)
  {
    if l.Some? {
      forall i | 0 <= i < |l.value| ensures MapSeq(decode, MapSeq(encode, l.value))[i] == MapSeq(back, l.value)[i] {
        assert decode(encode(l.value[i])) == back(l.value[i]);
      }
      assert MapSeq(decode, MapSeq(encode, l.value)) == MapSeq(back, l.value);
    }
  }

  lemma ListDisagreesExactly<T(!new)>(eq: (seq<T>, seq<T>) -> bool, back: T -> T, l: Option<seq<T>>)
    requires Equivalence(eq)
    ensures ListsDisagree(eq, l, MapList(back, l)) <==> !ListSurvives(eq, back, l)
  {
  }

  lemma StreamComesBack(s: MetricStreamSpec)
    ensures var t := DecodeStream(s, EncodeStream(s));
            t == s.(excludeFilters := MapList(DenilFilter, s.excludeFilters),
                    includeFilters := MapList(DenilFilter, s.includeFilters),
                    statisticsConfigurations := MapList(DenilConfiguration, s.statisticsConfigurations),
                    outputFormat := if s.outputFormat == Some("") then None else s.outputFormat)
  {
    forall f: Filter ensures DecodeFilter(EncodeFilter(f)) == DenilFilter(f) {
      StringsComeBack(f.metricNames);
    }
    forall c: StatisticsConfiguration ensures DecodeConfiguration(EncodeConfiguration(c)) == DenilConfiguration(c) {
      StringsComeBack(c.additionalStatistics);
      MetricsComeBack(c.includeMetrics);
    }
    ListComesBack(EncodeFilter, DecodeFilter, DenilFilter, s.excludeFilters);
    ListComesBack(EncodeFilter, DecodeFilter, DenilFilter, s.includeFilters);
    ListComesBack(EncodeConfiguration, DecodeConfiguration, DenilConfiguration, s.statisticsConfigurations);
  }

  // A stream that is sent and read back compares equal exactly for normal forms.
  lemma StreamRoundTripExact(eq: StreamEq, s: MetricStreamSpec)
    requires StreamEquivalences(eq)
    ensures (forall f :: !StreamsDisagree(eq, s, DecodeStream(s, EncodeStream(s)), f)) <==> StreamNormalForm(eq, s)
  {
    var t := DecodeStream(s, EncodeStream(s));
    StreamComesBack(s);
    ListDisagreesExactly(eq.filters, DenilFilter, s.excludeFilters);
    ListDisagreesExactly(eq.filters, DenilFilter, s.includeFilters);
    ListDisagreesExactly(eq.configurations, DenilConfiguration, s.statisticsConfigurations);
    assert StreamsDisagree(eq, s, t, ExcludeFilters) <==> !ListSurvives(eq.filters, DenilFilter, s.excludeFilters);
    assert StreamsDisagree(eq, s, t, IncludeFilters) <==> !ListSurvives(eq.filters, DenilFilter, s.includeFilters);
    assert StreamsDisagree(eq, s, t, StatisticsConfigurations)
           <==> !ListSurvives(eq.configurations, DenilConfiguration, s.statisticsConfigurations);
    assert StreamsDisagree(eq, s, t, OutputFormat) <==> s.outputFormat == Some("");
  }

  /******* Tags *******/

  // A stream as it is stored: its tags are not in the answer of GetMetricStream.
  datatype StoredStream = StoredStream(stream: SdkStream, tags: TagMap)

  method GetMetricStream(stored: StoredStream) returns (resp: SdkStream)
    ensures resp == stored.stream
  {
    resp := stored.stream;
  }

  // sdkFind and the mirroring of AWS tags in ReadOne: what is then compared.
  method ReadStreamAndMirror(d: MetricStreamSpec, stored: StoredStream)
    returns (mirrored: MetricStreamSpec, observed: MetricStreamSpec)
    ensures observed == DecodeStream(d, stored.stream)
    ensures mirrored == d.(tags := mirrored.tags) && Mirrored(d.tags, MapOf(observed.tags), mirrored.tags)
  {
    var resp := GetMetricStream(stored);
    observed := ReadStream(d, resp);
    var desiredTags, keyOrder := ConvertToOrderedAckTags(d.tags);
    var latestTags, _ := ConvertToOrderedAckTags(observed.tags);
    SyncAwsTags(desiredTags, latestTags);
    var tags := FromAckTags(desiredTags, keyOrder);
    mirrored := d.(tags := tags);
  }

  // Two stored streams that differ in nothing but their tags give the same delta, in which
  // the tags are never named, in whatever order the mirrored tags were written: what was read
  // of the tags is a copy of what was desired.
  lemma TagDriftIsNeverSeen(
    eq: StreamEq, d: MetricStreamSpec, stored: StoredStream, tags: TagMap,
    mirrored: MetricStreamSpec, mirrored': MetricStreamSpec, f: StreamField)
    requires var observed := DecodeStream(d, stored.stream);
             && mirrored == d.(tags := mirrored.tags) && Mirrored(d.tags, MapOf(observed.tags), mirrored.tags)
             && mirrored' == d.(tags := mirrored'.tags) && Mirrored(d.tags, MapOf(observed.tags), mirrored'.tags)
    ensures StreamsDisagree(eq, mirrored, DecodeStream(d, stored.stream), f)
            <==> StreamsDisagree(eq, mirrored', DecodeStream(d, stored.(tags := tags).stream), f)
    ensures !StreamsDisagree(eq, mirrored, DecodeStream(d, stored.stream), StreamTags)
  {
    assert MapOf(d.tags) + AwsPart(MapOf(d.tags)) == MapOf(d.tags);
    match f {
      case StreamTags =>
      case _ =>
    }
  }
}
