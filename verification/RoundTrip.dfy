// A spec is sent (Payload), stored, read back (Observe) and compared (Delta). When does
// the comparison come out empty?

module RoundTrip {
  import opened Wrappers
  import opened AlarmTypes
  import opened Payload
  import opened Observe
  import opened Delta

  // What a list of actions comes back as: nil elements have become empty strings.
  function Denil(x: Option<string>): Option<string> {
    Some(x.GetOr(""))
  }

  predicate ActionsSurvive(eq: LeafEq, l: Option<seq<Option<string>>>) {
    Items(l) != [] ==> eq.strings(Items(l), MapSeq(Denil, Items(l)))
  }

  // What a metric query comes back as: an empty unit has become nil.
  function BlankUnit(q: MetricDataQuery): MetricDataQuery {
    if q.metricStat.Some? && q.metricStat.value.unit == Some("") then
      q.(metricStat := Some(q.metricStat.value.(unit := None)))
    else
      q
  }

  predicate QueriesSurvive(eq: LeafEq, qs: Option<seq<MetricDataQuery>>) {
    Items(qs) != [] ==> eq.metrics(Items(qs), MapSeq(BlankUnit, Items(qs)))
  }

  // Can be read off a spec before anything is sent.
  predicate NormalForm(eq: LeafEq, s: MetricAlarmSpec) {
    && s.comparisonOperator != Some("") && s.statistic != Some("") && s.unit != Some("")
    && s.threshold != Some(NaN)
    && (s.evaluationCriteria.Some? ==> s.evaluationCriteria.value.promQL.Some?)
    && (s.evaluationWindow.Some? ==>
          s.evaluationWindow.value.slidingWindow.Some? || s.evaluationWindow.value.wallClockWindow.Some?)
    && ActionsSurvive(eq, s.alarmActions)
    && ActionsSurvive(eq, s.insufficientDataActions)
    && ActionsSurvive(eq, s.okActions)
    && QueriesSurvive(eq, s.metrics)
  }

  // The fields that come back as they were sent.
  predicate Survives(eq: LeafEq, s: MetricAlarmSpec, f: Field) {
    match f
    case Text(t) => t.ComparisonOperator? || t.Statistic? || t.Unit? ==> TextOf(s, t) != Some("")
    case Actions(l) => ActionsSurvive(eq, ActionsOf(s, l))
    case Criteria(c) => c.WholeCriteria? ==> s.evaluationCriteria != Some(EvaluationCriteria(None))
    case Window(w) => w.WholeWindow? ==> s.evaluationWindow != Some(EvaluationWindow(None, None))
    case Metrics => QueriesSurvive(eq, s.metrics)
    case Threshold => s.threshold != Some(NaN)
    case _ => true
  }

  lemma NumberRoundTrip(x: Option<int64>)
    requires FitsOption(x)
    ensures MapOption(ToInt64, MapOption(ToInt32, x)) == x
  {
  }

  lemma DimensionsRoundTrip(ds: seq<Dimension>)
    ensures MapSeq(DecodeDimension, MapSeq(EncodeDimension, ds)) == ds
  {
    forall i | 0 <= i < |ds| ensures MapSeq(DecodeDimension, MapSeq(EncodeDimension, ds))[i] == ds[i] {
      assert DecodeDimension(EncodeDimension(ds[i])) == ds[i];
    }
  }

  lemma QueryRoundTrip(q: MetricDataQuery)
    requires QueryFits(q)
    ensures DecodeQuery(EncodeQuery(q)) == BlankUnit(q)
  {
    NumberRoundTrip(q.period);
    if q.metricStat.Some? {
      NumberRoundTrip(q.metricStat.value.period);
      if q.metricStat.value.metric.Some? && q.metricStat.value.metric.value.dimensions.Some? {
        DimensionsRoundTrip(q.metricStat.value.metric.value.dimensions.value);
      }
    }
  }

  lemma QueriesRoundTrip(qs: seq<MetricDataQuery>)
    requires forall i | 0 <= i < |qs| :: QueryFits(qs[i])
    ensures MapSeq(DecodeQuery, MapSeq(EncodeQuery, qs)) == MapSeq(BlankUnit, qs)
  {
    forall i | 0 <= i < |qs| ensures DecodeQuery(EncodeQuery(qs[i])) == BlankUnit(qs[i]) {
      QueryRoundTrip(qs[i]);
    }
  }

  lemma ActionsRoundTrip(eq: LeafEq, l: Option<seq<Option<string>>>)
    requires LeafEquivalences(eq)
    ensures !ListsDisagree(eq.strings, l, DecodeStrings(EncodeStrings(l))) <==> ActionsSurvive(eq, l)
  {
    assert MapSeq(Pointer<string>, MapSeq(PlainString, Items(l))) == MapSeq(Denil, Items(l)) by {
      forall i | 0 <= i < |Items(l)|
        ensures MapSeq(Pointer<string>, MapSeq(PlainString, Items(l)))[i] == MapSeq(Denil, Items(l))[i]
      {
        assert Pointer(PlainString(Items(l)[i])) == Denil(Items(l)[i]);
      }
    }
  }

  // Which fields of a spec come back different when its request is read through sdkFind.
  lemma FieldRoundTrip(eq: LeafEq, ko: MetricAlarmSpec, s: MetricAlarmSpec, f: Field)
    requires LeafEquivalences(eq)
    requires BuildResult(s).Ok? && ko.name == s.name && f != TagList
    ensures Disagrees(eq, s, Decode(ko, Encode(s)), f) <==> !Survives(eq, s, f)
  {
    BuildsExactly(s);
    match f {
      case Text(t) => TextRoundTrip(ko, s, t);
      case Number(n) => NumberFieldRoundTrip(ko, s, n);
      case Actions(l) => ActionsFieldRoundTrip(ko, s, l); ActionsRoundTrip(eq, ActionsOf(s, l));
      case Criteria(c) => CriteriaRoundTrip(s, c);
      case Window(w) => WindowRoundTrip(s.evaluationWindow, w);
      case _ => RestRoundTrip(eq, ko, s, f);
    }
  }

  lemma TextRoundTrip(ko: MetricAlarmSpec, s: MetricAlarmSpec, t: TextField)
    requires ko.name == s.name
    ensures TextOf(Decode(ko, Encode(s)), t) != TextOf(s, t) <==>
              (t.ComparisonOperator? || t.Statistic? || t.Unit?) && TextOf(s, t) == Some("")
  {
  }

  lemma NumberFieldRoundTrip(ko: MetricAlarmSpec, s: MetricAlarmSpec, n: NumberField)
    requires NumbersFit(s)
    ensures NumberOf(Decode(ko, Encode(s)), n) == NumberOf(s, n)
  {
    NumberRoundTrip(NumberOf(s, n));
  }

  lemma ActionsFieldRoundTrip(ko: MetricAlarmSpec, s: MetricAlarmSpec, l: ActionsField)
    ensures ActionsOf(Decode(ko, Encode(s)), l) == DecodeStrings(EncodeStrings(ActionsOf(s, l)))
  {
  }

  lemma RestRoundTrip(eq: LeafEq, ko: MetricAlarmSpec, s: MetricAlarmSpec, f: Field)
    requires LeafEquivalences(eq) && NumbersFit(s)
    requires f.ActionsEnabled? || f.Dimensions? || f.Metrics? || f.Threshold?
    ensures Disagrees(eq, s, Decode(ko, Encode(s)), f) <==> !Survives(eq, s, f)
  {
    if f.Metrics? && s.metrics.Some? {
      QueriesRoundTrip(s.metrics.value);
    } else if f.Dimensions? && s.dimensions.Some? {
      DimensionsRoundTrip(s.dimensions.value);
    }
  }

  lemma CriteriaRoundTrip(s: MetricAlarmSpec, f: CriteriaField)
    requires NumbersFit(s)
    ensures CriteriaDisagree(
              s.evaluationCriteria,
              MapOption(DecodeCriteria, EncodeCriteria(s.evaluationCriteria)),
              f)
            <==> f.WholeCriteria? && s.evaluationCriteria == Some(EvaluationCriteria(None))
  {
    if s.evaluationCriteria.Some? && s.evaluationCriteria.value.promQL.Some? {
      NumberRoundTrip(s.evaluationCriteria.value.promQL.value.pendingPeriod);
      NumberRoundTrip(s.evaluationCriteria.value.promQL.value.recoveryPeriod);
    }
  }

  lemma WindowRoundTrip(w: Option<EvaluationWindow>, f: WindowField)
    requires AtMostOneMember(w)
    ensures WindowsDisagree(w, MapOption(DecodeWindow, EncodeWindow(w)), f)
            <==> f.WholeWindow? && w == Some(EvaluationWindow(None, None))
  {
  }

  // The comparison of a spec with what comes back of it is empty exactly for normal forms.
  lemma RoundTripExact(eq: LeafEq, ko: MetricAlarmSpec, s: MetricAlarmSpec)
    requires LeafEquivalences(eq)
    requires BuildResult(s).Ok? && ko.name == s.name
    ensures DiffersBeyondTags(eq, s, Decode(ko, Encode(s))) <==> !NormalForm(eq, s)
  {
    forall f | f != TagList
      ensures Disagrees(eq, s, Decode(ko, Encode(s)), f) <==> !Survives(eq, s, f)
    {
      FieldRoundTrip(eq, ko, s, f);
    }
    SurvivalIsNormalForm(eq, s);
  }

  lemma SurvivalIsNormalForm(eq: LeafEq, s: MetricAlarmSpec)
    ensures NormalForm(eq, s) <==> forall f :: Survives(eq, s, f)
  {
    if forall f :: Survives(eq, s, f) {
      assert Survives(eq, s, Text(ComparisonOperator)) && Survives(eq, s, Text(Statistic));
      assert Survives(eq, s, Text(Unit));
      assert Survives(eq, s, Criteria(WholeCriteria)) && Survives(eq, s, Window(WholeWindow));
      assert Survives(eq, s, Actions(AlarmActions)) && Survives(eq, s, Actions(OKActions));
      assert Survives(eq, s, Actions(InsufficientDataActions));
      assert Survives(eq, s, Metrics) && Survives(eq, s, Threshold);
    }
  }

  lemma NonNilActions(l: Option<seq<Option<string>>>)
    requires forall a | a in Items(l) :: a.Some?
    ensures MapSeq(Denil, Items(l)) == Items(l)
  {
    forall i | 0 <= i < |Items(l)| ensures MapSeq(Denil, Items(l))[i] == Items(l)[i] {
      assert Items(l)[i] in Items(l);
      assert Denil(Items(l)[i]) == Items(l)[i];
    }
  }

  // The plain sufficient condition: enum strings filled in, no nil actions, one union member.
  lemma PlainSpecsAreNormal(eq: LeafEq, s: MetricAlarmSpec)
    requires LeafEquivalences(eq)
    requires s.comparisonOperator != Some("") && s.statistic != Some("") && s.unit != Some("")
    requires s.threshold != Some(NaN)
    requires s.evaluationCriteria.Some? ==> s.evaluationCriteria.value.promQL.Some?
    requires s.evaluationWindow.Some? ==>
               s.evaluationWindow.value.slidingWindow.Some? || s.evaluationWindow.value.wallClockWindow.Some?
    requires forall a |
               a in Items(s.alarmActions) || a in Items(s.okActions) || a in Items(s.insufficientDataActions) ::
               a.Some?
    requires forall q | q in Items(s.metrics) :: q.metricStat.Some? ==> q.metricStat.value.unit != Some("")
    ensures NormalForm(eq, s)
  {
    NonNilActions(s.alarmActions);
    NonNilActions(s.okActions);
    NonNilActions(s.insufficientDataActions);
    var qs := Items(s.metrics);
    forall i | 0 <= i < |qs| ensures MapSeq(BlankUnit, qs)[i] == qs[i] {
      assert qs[i] in qs;
      assert BlankUnit(qs[i]) == qs[i];
    }
    assert MapSeq(BlankUnit, qs) == qs;
  }

  /******* Nil and empty lists in a response *******/

  predicate SameItems<T(==)>(x: Option<seq<T>>, y: Option<seq<T>>) {
    Items(x) == Items(y)
  }

  // The API may return an empty top-level list where nil was stored, and the other way round.
  predicate SameUpToEmptyLists(a: SdkAlarm, b: SdkAlarm) {
    && SameItems(a.alarmActions, b.alarmActions) && SameItems(a.dimensions, b.dimensions)
    && SameItems(a.insufficientDataActions, b.insufficientDataActions)
    && SameItems(a.metrics, b.metrics) && SameItems(a.okActions, b.okActions)
    && b == a.(alarmActions := b.alarmActions, dimensions := b.dimensions,
               insufficientDataActions := b.insufficientDataActions, metrics := b.metrics,
               okActions := b.okActions)
  }

  lemma EmptyListsDoNotMatter(
    eq: LeafEq, s: MetricAlarmSpec, ko: MetricAlarmSpec, ko': MetricAlarmSpec, a: SdkAlarm, b: SdkAlarm, f: Field)
    requires SameUpToEmptyLists(a, b) && ko.name == ko'.name && f != TagList
    ensures Disagrees(eq, s, Decode(ko, a), f) <==> Disagrees(eq, s, Decode(ko', b), f)
  {
    match f {
      case Text(t) => TextUpToEmptyLists(ko, ko', a, b, t);
      case Number(n) => NumberUpToEmptyLists(ko, ko', a, b, n);
      case Actions(l) => ActionsUpToEmptyLists(ko, ko', a, b, l);
      case _ => RestUpToEmptyLists(eq, s, ko, ko', a, b, f);
    }
  }

  lemma TextUpToEmptyLists(ko: MetricAlarmSpec, ko': MetricAlarmSpec, a: SdkAlarm, b: SdkAlarm, t: TextField)
    requires SameUpToEmptyLists(a, b) && ko.name == ko'.name
    ensures TextOf(Decode(ko, a), t) == TextOf(Decode(ko', b), t)
  {
  }

  lemma NumberUpToEmptyLists(ko: MetricAlarmSpec, ko': MetricAlarmSpec, a: SdkAlarm, b: SdkAlarm, n: NumberField)
    requires SameUpToEmptyLists(a, b)
    ensures NumberOf(Decode(ko, a), n) == NumberOf(Decode(ko', b), n)
  {
  }

  lemma ActionsUpToEmptyLists(ko: MetricAlarmSpec, ko': MetricAlarmSpec, a: SdkAlarm, b: SdkAlarm, l: ActionsField)
    requires SameUpToEmptyLists(a, b)
    ensures Items(ActionsOf(Decode(ko, a), l)) == Items(ActionsOf(Decode(ko', b), l))
  {
  }

  lemma RestUpToEmptyLists(
    eq: LeafEq, s: MetricAlarmSpec, ko: MetricAlarmSpec, ko': MetricAlarmSpec, a: SdkAlarm, b: SdkAlarm, f: Field)
    requires SameUpToEmptyLists(a, b) && f != TagList && !f.Text? && !f.Number? && !f.Actions?
    ensures Disagrees(eq, s, Decode(ko, a), f) <==> Disagrees(eq, s, Decode(ko', b), f)
  {
    var x, y := Decode(ko, a), Decode(ko', b);
    assert Items(x.dimensions) == Items(y.dimensions);
    assert Items(x.metrics) == Items(y.metrics);
  }
}
