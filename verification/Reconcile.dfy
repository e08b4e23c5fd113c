// The MetricAlarm controller as it runs: sdkFind, syncTags, sdkCreate and sdkUpdate, and
// ReadOne, Create and Update on top of them, against a remote alarm whose calls may fail.
// One attempt of the runtime is proved to be one step of Protocol.

module Reconcile {
  import opened Wrappers
  import opened Tags
  import opened AlarmTypes
  import opened Payload
  import opened Observe
  import opened Delta
  import opened RoundTrip
  import opened Conditions
  import opened Resources
  import opened TagPipeline
  import opened Protocol

  // An element of a DescribeAlarms response.
  datatype Described = Described(attrs: SdkAlarm, arn: Option<string>)

  const UNKNOWN := "UNKNOWN"
  const NOT_FOUND := Error(NotFound, "resource not found", None)
  const ARN_MISSING := Error(Other, "cannot sync tags: MetricAlarm ARN is not yet available in status", None)

  // An error of the AWS client: some text, perhaps an API error code.
  predicate FromClient(e: Error) {
    e.kind.Other?
  }

  predicate HasCode(e: Error, code: string) {
    e.aws.Some? && e.aws.value.code == code
  }

  method ClientError() returns (e: Error)
    ensures FromClient(e) && !HasCode(e, UNKNOWN)
  {
    var text: string := *;
    var aws: Option<AwsError> := *;
    if aws.Some? && aws.value.code == UNKNOWN { aws := None; }
    e := Error(Other, text, aws);
  }

  function KeySet(keys: seq<string>): set<string> {
    set k | k in keys
  }

  // CloudWatch, as far as it holds the alarm of one name: a put under another name goes
  // elsewhere, and a description of other names does not find it. An outcome decides whether
  // a call takes effect and whether its reply arrives.
  class RemoteAlarm {
    const name: string
    var alarm: Option<Alarm>
    var acks: Acks

    constructor (name: string, r: Remote)
      ensures this.name == name && State() == r
    {
      this.name, alarm, acks := name, r.alarm, r.acks;
    }

    function State(): Remote
      reads this
    {
      Remote(alarm, acks)
    }

    predicate Holds(arn: string)
      reads this
    {
      alarm.Some? && alarm.value.arn == arn
    }

    method TagResource(arn: string, tags: seq<Tag>, o: CallOutcome) returns (err: Option<Error>)
      modifies this
      ensures State() == if old(Holds(arn)) then AfterTag(old(State()), MapOf(tags), o) else old(State())
      ensures err.None? <==> old(Holds(arn)) && o.Acked?
      ensures err.Some? ==> FromClient(err.value)
    {
      if Holds(arn) && !o.LostRequest? {
        alarm := Some(alarm.value.(tags := alarm.value.tags + MapOf(tags)));
      }
      if Holds(arn) && o.Acked? {
        acks := acks.(tag := acks.tag + 1);
        return None;
      }
      var e := ClientError();
      err := Some(e);
    }

    method UntagResource(arn: string, keys: seq<string>, o: CallOutcome) returns (err: Option<Error>)
      modifies this
      ensures State() == if old(Holds(arn)) then AfterUntag(old(State()), KeySet(keys), o) else old(State())
      ensures err.None? <==> old(Holds(arn)) && o.Acked?
      ensures err.Some? ==> FromClient(err.value)
    {
      if Holds(arn) && !o.LostRequest? {
        alarm := Some(alarm.value.(tags := alarm.value.tags - KeySet(keys)));
      }
      if Holds(arn) && o.Acked? {
        acks := acks.(untag := acks.untag + 1);
        return None;
      }
      var e := ClientError();
      err := Some(e);
    }

    // On an alarm that exists, the tags in the request are ignored without an error.
    method PutMetricAlarm(input: PutMetricAlarmInput, o: CallOutcome, arn: string) returns (err: Option<Error>)
      modifies this
      ensures State() ==
                if input.alarm.alarmName == Some(name) then AfterPut(old(State()), input, o, arn) else old(State())
      ensures err.None? <==> o.Acked?
      ensures err.Some? ==> FromClient(err.value)
    {
      var here := input.alarm.alarmName == Some(name);
      if here && !o.LostRequest? {
        if alarm.None? {
          alarm := Some(Alarm(input.alarm, MapOf(input.tags), arn));
        } else {
          alarm := Some(alarm.value.(attrs := input.alarm));
        }
      }
      if o.Acked? {
        if here { acks := acks.(put := acks.put + 1); }
        return None;
      }
      var e := ClientError();
      err := Some(e);
    }

    method DescribeAlarms(names: seq<string>, o: DescribeOutcome) returns (resp: Result<seq<Described>, Error>)
      ensures resp.Ok? <==> o.Answered?
      ensures resp.Ok? ==> |resp.value| == if alarm.Some? && name in names then 1 else 0
      ensures resp.Ok? && alarm.Some? && name in names ==>
                resp.value[0].arn == Some(alarm.value.arn) && SameUpToEmptyLists(alarm.value.attrs, resp.value[0].attrs)
      ensures resp.Err? ==> FromClient(resp.error) && (HasCode(resp.error, "UNKNOWN") <==> o.FailedUnknown?)
    {
      match o {
        case Answered =>
          if alarm.None? || name !in names { return Ok([]); }
          var attrs := SwapEmptyLists(alarm.value.attrs);
          return Ok([Described(attrs, Some(alarm.value.arn))]);
        case Failed =>
          var e := ClientError();
          return Err(e);
        case FailedUnknown =>
          var text: string := *;
          return Err(Error(Other, text, Some(AwsError(UNKNOWN, text))));
      }
    }

    method ListTagsForResource(arn: string, answered: bool) returns (resp: Result<seq<Tag>, Error>)
      ensures resp.Ok? <==> answered && Holds(arn)
      ensures resp.Ok? ==> MapOf(resp.value) == alarm.value.tags
      ensures resp.Err? ==> FromClient(resp.error)
    {
      if !answered || !Holds(arn) {
        var e := ClientError();
        return Err(e);
      }
      var tags := alarm.value.tags;
      var list, pending := [], tags.Keys;
      while pending != {}
        invariant pending <= tags.Keys
        invariant MapOf(list) == map k | k in tags && k !in pending :: tags[k]
        decreases pending
      {
        var k :| k in pending;
        assert (list + [Tag(Some(k), Some(tags[k]))])[..|list|] == list;
        list := list + [Tag(Some(k), Some(tags[k]))];
        pending := pending - {k};
      }
      return Ok(list);
    }
  }

  // A nil list may come back empty, an empty one nil.
  method SwapEmptyList<T>(l: Option<seq<T>>) returns (r: Option<seq<T>>)
    ensures Items(r) == Items(l)
  {
    r := l;
    if Items(l) == [] {
      if * { r := None; } else { r := Some([]); }
    }
  }

  method SwapEmptyLists(a: SdkAlarm) returns (b: SdkAlarm)
    ensures SameUpToEmptyLists(a, b)
  {
    var alarmActions := SwapEmptyList(a.alarmActions);
    var dimensions := SwapEmptyList(a.dimensions);
    var insufficientDataActions := SwapEmptyList(a.insufficientDataActions);
    var metrics := SwapEmptyList(a.metrics);
    var okActions := SwapEmptyList(a.okActions);
    b := a.(alarmActions := alarmActions, dimensions := dimensions,
            insufficientDataActions := insufficientDataActions, metrics := metrics, okActions := okActions);
  }

  /******* syncTags *******/

  method LookupMap(tags: seq<Tag>) returns (m: TagMap)
    ensures m == MapOf(tags)
  {
    m := map[];
    for i := 0 to |tags|
      invariant m == MapOf(tags[..i])
    {
      assert tags[..i + 1][..i] == tags[..i];
      if tags[i].key.Some? {
        m := m[tags[i].key.value := tags[i].value.GetOr("")];
      }
    }
    assert tags[..|tags|] == tags;
  }

  // The additions or updates and the removals, each key once, in whatever order the maps are walked.
  method DiffTags(desiredMap: TagMap, latestMap: TagMap) returns (addTags: seq<Tag>, removeTags: seq<string>)
    ensures Canonical(addTags) && MapOf(addTags) == Adds(desiredMap, latestMap)
    ensures KeySet(removeTags) == Removes(desiredMap, latestMap)
    ensures forall k :: k in removeTags <==> k in latestMap && k !in desiredMap
    ensures forall i, j | 0 <= i < j < |removeTags| :: removeTags[i] != removeTags[j]
    ensures |addTags| == |Adds(desiredMap, latestMap)|
    ensures addTags == [] <==> Adds(desiredMap, latestMap) == map[]
    ensures removeTags == [] <==> Removes(desiredMap, latestMap) == {}
  {
    addTags := [];
    ghost var keys := [];
    var pending := desiredMap.Keys;
    while pending != {}
      invariant pending <= desiredMap.Keys
      invariant NoDup(keys) && forall k :: k in keys <==> k in Adds(desiredMap, latestMap) && k !in pending
      invariant addTags == ListAt(desiredMap, keys)
      decreases pending
    {
      var k :| k in pending;
      if !(k in latestMap && latestMap[k] == desiredMap[k]) {
        addTags := addTags + [Tag(Some(k), Some(desiredMap[k]))];
        keys := keys + [k];
      }
      pending := pending - {k};
    }
    ListAtMeaning(desiredMap, keys);
    assert MapOf(addTags) == Adds(desiredMap, latestMap);
    CanonicalSize(addTags);
    removeTags := [];
    pending := latestMap.Keys;
    while pending != {}
      invariant pending <= latestMap.Keys
      invariant NoDup(removeTags)
      invariant forall k :: k in removeTags <==> k in Removes(desiredMap, latestMap) && k !in pending
      decreases pending
    {
      var k :| k in pending;
      if k !in desiredMap {
        removeTags := removeTags + [k];
      }
      pending := pending - {k};
    }
    assert removeTags != [] ==> removeTags[0] in removeTags;
  }

  // With the ARN of the remote alarm at hand, or nothing to send, syncTags sends the diff of
  // the two lists; without an ARN it sends nothing and fails.
  method SyncTags(desired: Resource, latest: Resource, remote: RemoteAlarm, env: Env) returns (err: Option<Error>)
    requires latest.Arn().Some? ==> remote.Holds(latest.Arn().value)
    modifies remote
    ensures var d, l := MapOf(desired.spec.tags), MapOf(latest.spec.tags);
            if d == l then
              remote.State() == old(remote.State()) && err.None?
            else if latest.Arn().None? then
              remote.State() == old(remote.State()) && err == Some(ARN_MISSING)
            else
              (remote.State(), err.None?) == SendTags(Adds(d, l), Removes(d, l), old(remote.State()), env)
    ensures err.Some? ==> FromClient(err.value)
  {
    var latestMap := LookupMap(latest.spec.tags);
    var desiredMap := LookupMap(desired.spec.tags);
    var addTags, removeTags := DiffTags(desiredMap, latestMap);
    NothingToSend(desiredMap, latestMap);
    if |addTags| == 0 && |removeTags| == 0 {
      return None;
    }
    if latest.metadata == null || latest.metadata.arn.None? {
      return Some(ARN_MISSING);
    }
    var arn := latest.metadata.arn.value;
    if |addTags| > 0 {
      err := remote.TagResource(arn, addTags, env.tag);
      if err.Some? { return; }
    }
    if |removeTags| > 0 {
      err := remote.UntagResource(arn, removeTags, env.untag);
      if err.Some? { return; }
    }
    return None;
  }

  // The delta names the tags exactly when syncTags on the same lists has something to send,
  // whatever duplicates, nil keys and nil values they hold.
  lemma DeltaAgreesWithSync(eq: LeafEq, a: MetricAlarmSpec, b: MetricAlarmSpec, delta: set<Field>)
    requires forall f :: f in delta <==> Disagrees(eq, a, b, f)
    ensures DifferentAt(delta, TAGS_PATH) <==>
              Adds(MapOf(a.tags), MapOf(b.tags)) != map[] || Removes(MapOf(a.tags), MapOf(b.tags)) != {}
  {
    UpdateQuestions(eq, a, b, delta);
    NothingToSend(MapOf(a.tags), MapOf(b.tags));
  }

  /******* sdkFind and ReadOne *******/

  // spec is what sdkFind makes of the copy ko when it finds the alarm.
  ghost predicate Observes(ko: MetricAlarmSpec, alarm: Alarm, spec: MetricAlarmSpec) {
    && MapOf(spec.tags) == alarm.tags
    && exists b | SameUpToEmptyLists(alarm.attrs, b) :: spec == Decode(ko, b).(tags := spec.tags)
  }

  predicate Readable(r: Remote, env: Env) {
    env.describe.Answered? && r.alarm.Some? && env.list
  }

  // The element found is written into the copy ko, and the status gets its ARN and defaults.
  method TakeElement(ko: Resource, elem: Described, id: Identity)
    modifies ko, ko.metadata
    ensures ko.spec == Decode(old(ko.spec), elem.attrs)
    ensures ko.metadata != null && (ko.metadata == old(ko.metadata) || fresh(ko.metadata))
    ensures ko.Arn() == if elem.arn.Some? then elem.arn else old(ko.Arn())
    ensures ko.MetadataOf() == Some(DefaultMetadata(old(ko.MetadataOf()), id).(arn := ko.Arn()))
    ensures ko.conditions.Some?
    ensures ko.ConditionList() == old(ko.ConditionList()) && ko.ConditionViews() == old(ko.ConditionViews())
  {
    hide Decode;
    ko.spec := ReadAlarm(ko.spec, elem.attrs);
    if elem.arn.Some? {
      if ko.metadata == null {
        ko.metadata := new Metadata(MetadataView(None, None, None, None));
      }
      ko.metadata.arn := elem.arn;
    }
    ko.SetStatusDefaults(id);
  }

  method SdkFind(r: Resource, remote: RemoteAlarm, env: Env, id: Identity)
    returns (latest: Resource?, err: Option<Error>)
    requires r.spec.name == Some(remote.name)
    ensures latest != null <==> err.None?
    ensures err.None? <==> Readable(remote.State(), env)
    ensures err.Some? ==> (err == Some(NOT_FOUND) <==> Missing(remote.State(), env))
    ensures err.Some? && err != Some(NOT_FOUND) ==> FromClient(err.value)
    ensures latest != null ==>
              && fresh(latest) && latest.Arn() == Some(remote.alarm.value.arn)
              && Observes(r.spec, remote.alarm.value, latest.spec)
              && latest.MetadataOf() == Some(DefaultMetadata(r.MetadataOf(), id).(arn := latest.Arn()))
              && latest.conditions.Some? && latest.ConditionViews() == r.ConditionViews()
  {
    hide Decode, MapOf, SameUpToEmptyLists;
    latest := null;
    var resp := remote.DescribeAlarms([r.spec.name.value], env.describe);
    if resp.Err? {
      if resp.error.aws.Some? && resp.error.aws.value.code == UNKNOWN {
        return null, Some(NOT_FOUND);
      }
      return null, Some(resp.error);
    }
    var ko := r.DeepCopy();
    if resp.value == [] {
      return null, Some(NOT_FOUND);
    }
    TakeElement(ko, resp.value[0], id);
    if ko.metadata.arn.Some? {
      var tagsResp := remote.ListTagsForResource(ko.metadata.arn.value, env.list);
      if tagsResp.Err? {
        return null, Some(tagsResp.error);
      }
      ko.spec := ko.spec.(tags := tagsResp.value);
    }
    latest, err := ko, None;
  }

  // ReadOne leaves the AWS tags it saw in the resource it was given.
  method ReadOne(r: Resource, remote: RemoteAlarm, env: Env, id: Identity)
    returns (res: Resource, err: Option<Error>, ghost o: Outcome)
    requires r.spec.name == Some(remote.name)
    modifies r`spec
    ensures fresh(res) && res.ConditionViews() == Updated(old(r.ConditionViews()), o, METRIC_ALARM_CODES)
    ensures (o.None? <==> err.None?) && !IsTerminal(o, METRIC_ALARM_CODES)
    ensures Missing(remote.State(), env) ==> o == Some(NOT_FOUND)
    ensures err.None? <==> Readable(remote.State(), env)
    ensures err == Some(NOT_FOUND) <==> Missing(remote.State(), env) && !Stale(old(r.ConditionViews()))
    ensures err.None? ==>
              && res.Arn() == Some(remote.alarm.value.arn)
              && res.MetadataOf() == Some(DefaultMetadata(r.MetadataOf(), id).(arn := res.Arn()))
              && Observes(old(r.spec), remote.alarm.value, res.spec)
              && r.spec == old(r.spec).(tags := r.spec.tags)
              && Mirrored(old(r.spec.tags), remote.alarm.value.tags, r.spec.tags)
    ensures err.Some? ==>
              && r.spec == old(r.spec) && res.spec == old(r.spec)
              && res.MetadataOf() == Some(DefaultMetadata(r.MetadataOf(), id))
  {
    hide Mirrored, Updated, Stale, MapOf, Decode, SameUpToEmptyLists;
    var observed, e := SdkFind(r, remote, env, id);
    o := e;
    if observed != null {
      MirrorAwsTags(r, observed);
    }
    if e.Some? {
      OnlyStaleIsTerminal(r.ConditionViews(), e.value);
      var failure: Error;
      res, failure := OnError(r, id, e.value, METRIC_ALARM_CODES);
      err := Some(failure);
    } else {
      res := OnSuccess(observed, id);
      err := None;
    }
  }

  // An error that is not terminal is passed on unchanged, exactly unless a stale duplicate is about.
  lemma OnlyStaleIsTerminal(cs: seq<ConditionView>, e: Error)
    requires !IsTerminal(Some(e), METRIC_ALARM_CODES)
    ensures ShowsTrue(Updated(cs, Some(e), METRIC_ALARM_CODES), Terminal) <==> Stale(cs)
  {
    var after := Updated(cs, Some(e), METRIC_ALARM_CODES);
    assert [Some(e)][..0] == [];
    assert History(cs, [Some(e)], METRIC_ALARM_CODES) == after;
    AnyTerminalExactly(cs, [Some(e)], METRIC_ALARM_CODES);
  }

  // With the stale list "not found" comes out of onError as "terminal".
  lemma StaleHidesMissing()
    ensures Stale(STALE_EXAMPLE)
    ensures ShowsTrue(Updated(STALE_EXAMPLE, Some(NOT_FOUND), METRIC_ALARM_CODES), Terminal)
  {
    StaleExampleStays([], METRIC_ALARM_CODES);
    OnlyStaleIsTerminal(STALE_EXAMPLE, NOT_FOUND);
  }

  /******* Create and Update *******/

  // The request of either builder, sent.
  method BuildAndPut(spec: MetricAlarmSpec, remote: RemoteAlarm, env: Env) returns (err: Option<Error>)
    requires spec.name == Some(remote.name)
    modifies remote
    ensures (remote.State(), err.None?) == PutStep(spec, old(remote.State()), env)
    ensures BuildResult(spec).Err? ==> err == Some(BuildResult(spec).error)
    ensures BuildResult(spec).Ok? && err.Some? ==> FromClient(err.value)
  {
    var input := NewRequestPayload(spec);
    if input.Err? { return Some(input.error); }
    RequestCarries(spec);
    err := remote.PutMetricAlarm(input.value, env.put, env.arn);
  }

  method SdkCreate(desired: Resource, remote: RemoteAlarm, env: Env, id: Identity)
    returns (created: Resource?, err: Option<Error>)
    requires desired.spec.name == Some(remote.name)
    modifies remote
    ensures (remote.State(), err.None?) == PutStep(desired.spec, old(remote.State()), env)
    ensures created != null <==> err.None?
    ensures created != null ==>
              && fresh(created) && created.spec == desired.spec && created.ConditionViews() == desired.ConditionViews()
              && created.MetadataOf() == Some(DefaultMetadata(desired.MetadataOf(), id))
    ensures BuildResult(desired.spec).Err? ==> err == Some(BuildResult(desired.spec).error)
    ensures BuildResult(desired.spec).Ok? && err.Some? ==> FromClient(err.value)
  {
    err := BuildAndPut(desired.spec, remote, env);
    if err.Some? { return null, err; }
    var ko := CopyWithDefaults(desired, id);
    return ko, None;
  }

  // The conditions are those of the outcome o: success, what is wrong with the spec, or the
  // error of the call.
  method Create(r: Resource, remote: RemoteAlarm, env: Env, id: Identity)
    returns (res: Resource, err: Option<Error>, ghost o: Outcome)
    requires r.spec.name == Some(remote.name)
    modifies remote
    ensures (remote.State(), err.None?) == PutStep(r.spec, old(remote.State()), env)
    ensures fresh(res) && res.spec == r.spec
    ensures res.MetadataOf() == Some(DefaultMetadata(r.MetadataOf(), id))
    ensures res.ConditionViews() == Updated(r.ConditionViews(), o, METRIC_ALARM_CODES)
    ensures o.None? <==> err.None?
    ensures o.Some? ==> if BuildResult(r.spec).Err? then o.value == BuildResult(r.spec).error else FromClient(o.value)
  {
    hide Updated, PutStep, BuildResult;
    var created, e := SdkCreate(r, remote, env, id);
    o := e;
    if e.Some? {
      var failure: Error;
      res, failure := OnError(r, id, e.value, METRIC_ALARM_CODES);
      err := Some(failure);
    } else {
      res := OnSuccess(created, id);
      err := None;
    }
  }

  // What is read after one failure.
  lemma OneFailure(cs: seq<ConditionView>, e: Error)
    ensures var after := Updated(cs, Some(e), METRIC_ALARM_CODES);
            && (ReadsTrue(after, Terminal) <==> HoldsTerminalError(e))
            && (HoldsTerminalError(e) ==> Reading(after, Terminal) == Some((True, Some(e.text))))
            && (!HoldsTerminalError(e) ==> Reading(after, Recoverable) == Some((True, Some(RecoverableText(e)))))
  {
    assert [Some(e)][..0] == [];
    assert History(cs, [Some(e)], METRIC_ALARM_CODES) == Updated(cs, Some(e), METRIC_ALARM_CODES);
    TerminalFollowsLastOutcome(cs, [Some(e)], METRIC_ALARM_CODES);
    RecoverableFollowsLastNonTerminal(cs, [Some(e)], METRIC_ALARM_CODES);
  }

  // A spec that cannot be sent ends in a True Terminal condition exactly when two window
  // members are set and no number before them overflows; an overflow is recoverable.
  lemma OnlyTwoMembersAreTerminal(s: MetricAlarmSpec, cs: seq<ConditionView>)
    requires BuildResult(s).Err?
    ensures var after := Updated(cs, Some(BuildResult(s).error), METRIC_ALARM_CODES);
            var forGood := EarlyNumbersFit(s) && !AtMostOneMember(s.evaluationWindow);
            && (ReadsTrue(after, Terminal) <==> forGood)
            && (!forGood ==> ReadsTrue(after, Recoverable))
  {
    FailsForGoodExactly(s);
    OneFailure(cs, BuildResult(s).error);
  }

  lemma BuildFailure(s: MetricAlarmSpec)
    requires BuildResult(s).Err?
    ensures HoldsTerminalError(BuildResult(s).error) <==> FailsForGood(s)
  {
    hide EarlyNumbersFit;
    FailsForGoodExactly(s);
  }

  // The tags, if the delta names them; the put, if it names anything else.
  function Applied(
    sync: bool, put: bool, d: MetricAlarmSpec, latest: TagMap, r: Remote, env: Env): (Remote, bool)
    requires r.alarm.Some?
  {
    var (r1, synced) :=
      if sync then SendTags(Adds(MapOf(d.tags), latest), Removes(MapOf(d.tags), latest), r, env) else (r, true);
    if !synced || !put then (r1, synced) else PutStep(d, r1, env)
  }

  // Whether it gets to the put.
  predicate AppliedPuts(sync: bool, put: bool, d: MetricAlarmSpec, latest: TagMap, r: Remote, env: Env)
    requires r.alarm.Some?
  {
    put && (sync ==> SendTags(Adds(MapOf(d.tags), latest), Removes(MapOf(d.tags), latest), r, env).1)
  }

  // The delta is the real one of the two specs, and latest has the ARN of the remote alarm.
  method SdkUpdate(
      eq: LeafEq, desired: Resource, latest: Resource, delta: set<Field>, remote: RemoteAlarm, env: Env, id: Identity)
    returns (updated: Resource?, err: Option<Error>)
    requires forall f :: f in delta <==> Disagrees(eq, desired.spec, latest.spec, f)
    requires desired.spec.name == Some(remote.name)
    requires latest.Arn().Some? && remote.Holds(latest.Arn().value)
    modifies remote
    ensures (remote.State(), err.None?)
            == Applied(MapOf(desired.spec.tags) != MapOf(latest.spec.tags),
                       DiffersBeyondTags(eq, desired.spec, latest.spec),
                       desired.spec, MapOf(latest.spec.tags), old(remote.State()), env)
    ensures updated != null <==> err.None?
    ensures updated != null ==>
              && updated.spec == desired.spec && updated.ConditionViews() == desired.ConditionViews()
              && (if DiffersBeyondTags(eq, desired.spec, latest.spec)
                  then fresh(updated) && updated.MetadataOf() == Some(DefaultMetadata(desired.MetadataOf(), id))
                  else updated == desired)
    ensures err.Some? ==>
              if BuildResult(desired.spec).Err?
                 && AppliedPuts(MapOf(desired.spec.tags) != MapOf(latest.spec.tags),
                                DiffersBeyondTags(eq, desired.spec, latest.spec),
                                desired.spec, MapOf(latest.spec.tags), old(remote.State()), env)
              then err.value == BuildResult(desired.spec).error
              else FromClient(err.value)
  {
    UpdateQuestions(eq, desired.spec, latest.spec, delta);
    if DifferentAt(delta, TAGS_PATH) {
      err := SyncTags(desired, latest, remote, env);
      if err.Some? { return null, err; }
    }
    if !DifferentExcept(delta, TAGS_PATH) {
      return desired, None;
    }
    err := BuildAndPut(desired.spec, remote, env);
    if err.Some? { return null, err; }
    var ko := CopyWithDefaults(desired, id);
    return ko, None;
  }

  // After a failure the conditions are those of latest with the error worked in.
  method Update(
      eq: LeafEq, desired: Resource, latest: Resource, delta: set<Field>, remote: RemoteAlarm, env: Env, id: Identity)
    returns (res: Resource, err: Option<Error>, ghost o: Outcome)
    requires forall f :: f in delta <==> Disagrees(eq, desired.spec, latest.spec, f)
    requires desired.spec.name == Some(remote.name)
    requires latest.Arn().Some? && remote.Holds(latest.Arn().value)
    modifies remote
    ensures (remote.State(), err.None?)
            == Applied(MapOf(desired.spec.tags) != MapOf(latest.spec.tags),
                       DiffersBeyondTags(eq, desired.spec, latest.spec),
                       desired.spec, MapOf(latest.spec.tags), old(remote.State()), env)
    ensures err.None? ==> res.spec == desired.spec
    ensures err.None? ==>
              || res.MetadataOf() == Some(DefaultMetadata(desired.MetadataOf(), id))
              || (res == desired && !DiffersBeyondTags(eq, desired.spec, latest.spec))
    ensures err.Some? ==>
              res.spec == latest.spec && res.MetadataOf() == Some(DefaultMetadata(latest.MetadataOf(), id))
    ensures res.ConditionViews()
            == Updated(if o.None? then desired.ConditionViews() else latest.ConditionViews(), o, METRIC_ALARM_CODES)
    ensures o.None? <==> err.None?
    ensures o.Some? ==>
              if BuildResult(desired.spec).Err?
                 && AppliedPuts(MapOf(desired.spec.tags) != MapOf(latest.spec.tags),
                                DiffersBeyondTags(eq, desired.spec, latest.spec),
                                desired.spec, MapOf(latest.spec.tags), old(remote.State()), env)
              then o.value == BuildResult(desired.spec).error
              else FromClient(o.value)
  {
    hide Applied, AppliedPuts, DiffersBeyondTags, BuildResult, MapOf, Updated;
    var updated, e := SdkUpdate(eq, desired, latest, delta, remote, env, id);
    o := e;
    if e.Some? {
      var failure: Error;
      res, failure := OnError(latest, id, e.value, METRIC_ALARM_CODES);
      err := Some(failure);
    } else {
      res := OnSuccess(updated, id);
      err := None;
    }
  }

  /******* One attempt, and any number of them *******/

  // Neither the request nor the comparison of other fields looks at the tags.
  lemma TagsDoNotMatter(s: MetricAlarmSpec, tags: seq<Tag>)
    ensures var t := s.(tags := tags);
            && BuildResult(t).Ok? == BuildResult(s).Ok?
            && (BuildResult(s).Ok? ==> BuildResult(t).value.alarm == BuildResult(s).value.alarm)
            && (BuildResult(s).Err? ==> BuildResult(t).error == BuildResult(s).error)
  {
    assert FirstOffences(s.(tags := tags)) == FirstOffences(s);
    assert SecondOffences(s.(tags := tags)) == SecondOffences(s);
    assert ThirdOffences(s.(tags := tags)) == ThirdOffences(s);
  }

  lemma FieldIgnoresTags(eq: LeafEq, a: MetricAlarmSpec, b: MetricAlarmSpec, x: seq<Tag>, y: seq<Tag>, f: Field)
    requires f != TagList
    ensures Disagrees(eq, a.(tags := x), b.(tags := y), f) <==> Disagrees(eq, a, b, f)
  {
    match f {
      case Text(t) => assert TextOf(a.(tags := x), t) == TextOf(a, t) && TextOf(b.(tags := y), t) == TextOf(b, t);
      case Number(n) =>
        assert NumberOf(a.(tags := x), n) == NumberOf(a, n) && NumberOf(b.(tags := y), n) == NumberOf(b, n);
      case Actions(l) =>
        assert ActionsOf(a.(tags := x), l) == ActionsOf(a, l) && ActionsOf(b.(tags := y), l) == ActionsOf(b, l);
      case _ =>
    }
  }

  // What the mirrored spec is compared with differs as the stored attributes do.
  lemma ObservedDiffers(eq: LeafEq, d: MetricAlarmSpec, alarm: Alarm, mirrored: seq<Tag>, observed: MetricAlarmSpec)
    requires Observes(d, alarm, observed)
    ensures DiffersBeyondTags(eq, d.(tags := mirrored), observed) <==> AttributesDiffer(eq, d, alarm)
  {
    var b :| SameUpToEmptyLists(alarm.attrs, b) && observed == Decode(d, b).(tags := observed.tags);
    forall f | f != TagList
      ensures Disagrees(eq, d.(tags := mirrored), observed, f) <==> Disagrees(eq, d, Decode(d, alarm.attrs), f)
    {
      FieldIgnoresTags(eq, d, Decode(d, b), mirrored, observed.tags, f);
      EmptyListsDoNotMatter(eq, d, d, d, alarm.attrs, b, f);
    }
  }

  lemma AppliedIsUpdateStep(
    eq: LeafEq, d: MetricAlarmSpec, r: Remote, env: Env, mirrored: seq<Tag>, observed: MetricAlarmSpec)
    requires r.alarm.Some? && Observes(d, r.alarm.value, observed)
    requires Mirrored(d.tags, r.alarm.value.tags, mirrored)
    ensures MapOf(mirrored) == Target(d, r.alarm.value.tags)
    ensures var d' := d.(tags := mirrored);
            Applied(MapOf(mirrored) != MapOf(observed.tags), DiffersBeyondTags(eq, d', observed),
                    d', MapOf(observed.tags), r, env)
            == UpdateStep(eq, d, r, env)
    ensures var d' := d.(tags := mirrored);
            AppliedPuts(MapOf(mirrored) != MapOf(observed.tags), DiffersBeyondTags(eq, d', observed),
                        d', MapOf(observed.tags), r, env)
            <==> Synced(d, r, env).1 && AttributesDiffer(eq, d, r.alarm.value)
    ensures FailsForGood(d.(tags := mirrored)) == FailsForGood(d)
  {
    hide Encode, Offences, BuildResult, Decode, Disagrees, SameUpToEmptyLists, DiffersBeyondTags;
    ObservedDiffers(eq, d, r.alarm.value, mirrored, observed);
    TagsDoNotMatter(d, mirrored);
  }

  // Settled, as the protocol has it, is what the real delta after ReadOne calls empty.
  lemma SettledMeansEmptyDelta(
    eq: LeafEq, d: MetricAlarmSpec, r: Remote, mirrored: seq<Tag>, observed: MetricAlarmSpec, delta: set<Field>)
    requires r.alarm.Some? && Observes(d, r.alarm.value, observed)
    requires Mirrored(d.tags, r.alarm.value.tags, mirrored)
    requires forall f :: f in delta <==> Disagrees(eq, d.(tags := mirrored), observed, f)
    ensures delta == {} <==> Settled(eq, d, r)
  {
    ObservedDiffers(eq, d, r.alarm.value, mirrored, observed);
    var d' := d.(tags := mirrored);
    assert Disagrees(eq, d', observed, TagList) <==> MapOf(mirrored) != r.alarm.value.tags;
    if delta == {} {
      assert TagList !in delta;
    } else {
      var f :| f in delta;
      assert f == TagList || DiffersBeyondTags(eq, d', observed);
    }
  }

  // What the conditions show after an attempt on an alarm in state r. A stale condition that
  // hides that the alarm is missing makes it a failure like any other.
  ghost predicate Shows(
    eq: LeafEq, d: MetricAlarmSpec, r: Remote, env: Env, stale: bool, cs: seq<ConditionView>)
  {
    var forGood := !(stale && Missing(r, env)) && ReachesPut(eq, d, r, env) && FailsForGood(d);
    && (ReadsTrue(cs, Terminal) <==> forGood)
    && (!forGood ==> (ReadsTrue(cs, Recoverable) <==> !StepFrom(eq, d, r, env, stale).1))
  }

  lemma ShowsMeans(
    eq: LeafEq, d: MetricAlarmSpec, r: Remote, env: Env, stale: bool, cs: seq<ConditionView>)
    requires Shows(eq, d, r, env, stale, cs)
    ensures var forGood := !(stale && Missing(r, env)) && ReachesPut(eq, d, r, env) && FailsForGood(d);
            && (ReadsTrue(cs, Terminal) <==> forGood)
            && (!forGood ==> (ReadsTrue(cs, Recoverable) <==> !StepFrom(eq, d, r, env, stale).1))
  {
  }

  lemma OutcomesShow(
    eq: LeafEq, d: MetricAlarmSpec, r: Remote, env: Env, stale: bool, os: seq<Outcome>, cs: seq<ConditionView>)
    requires os != [] && (os[|os| - 1].None? <==> StepFrom(eq, d, r, env, stale).1)
    requires IsTerminal(os[|os| - 1], METRIC_ALARM_CODES)
             <==> !(stale && Missing(r, env)) && ReachesPut(eq, d, r, env) && FailsForGood(d)
    ensures Shows(eq, d, r, env, stale, History(cs, os, METRIC_ALARM_CODES))
  {
    hide StepFrom, ReachesPut, FailsForGood;
    TerminalFollowsLastOutcome(cs, os, METRIC_ALARM_CODES);
    RecoverableFollowsLastNonTerminal(cs, os, METRIC_ALARM_CODES);
  }

  // Without a difference there is nothing to apply.
  lemma EmptyDelta(
    eq: LeafEq, a: MetricAlarmSpec, b: MetricAlarmSpec, delta: set<Field>, r: Remote, env: Env)
    requires forall f :: f in delta <==> Disagrees(eq, a, b, f)
    requires delta == {} && r.alarm.Some?
    ensures !DiffersBeyondTags(eq, a, b)
    ensures Applied(MapOf(a.tags) != MapOf(b.tags), false, a, MapOf(b.tags), r, env) == (r, true)
  {
    UpdateQuestions(eq, a, b, delta);
  }

  // The delta of the two resources, and an update unless it is empty. After a failure the
  // conditions are those of latest with the failure worked in.
  method UpdateIfDifferent(
      eq: LeafEq, desired: Resource, latest: Resource, remote: RemoteAlarm, env: Env, id: Identity)
    returns (res: Resource, ok: bool, ghost failure: Option<Error>)
    requires desired.spec.name == Some(remote.name)
    requires latest.Arn().Some? && remote.Holds(latest.Arn().value)
    modifies remote
    ensures (remote.State(), ok)
            == Applied(MapOf(desired.spec.tags) != MapOf(latest.spec.tags),
                       DiffersBeyondTags(eq, desired.spec, latest.spec),
                       desired.spec, MapOf(latest.spec.tags), old(remote.State()), env)
    ensures ok <==> failure.None?
    ensures if ok then
              || res.ConditionViews() == latest.ConditionViews()
              || res.ConditionViews() == Updated(desired.ConditionViews(), None, METRIC_ALARM_CODES)
            else
              res.ConditionViews() == Updated(latest.ConditionViews(), failure, METRIC_ALARM_CODES)
    ensures failure.Some? ==>
              if BuildResult(desired.spec).Err?
                 && AppliedPuts(MapOf(desired.spec.tags) != MapOf(latest.spec.tags),
                                DiffersBeyondTags(eq, desired.spec, latest.spec),
                                desired.spec, MapOf(latest.spec.tags), old(remote.State()), env)
              then failure.value == BuildResult(desired.spec).error
              else FromClient(failure.value)
  {
    hide Applied, AppliedPuts, DiffersBeyondTags, BuildResult, MapOf, Updated, Disagrees;
    var delta := NewResourceDelta(eq, desired.spec, latest.spec);
    if delta == {} {
      EmptyDelta(eq, desired.spec, latest.spec, delta, remote.State(), env);
      return latest, true, None;
    }
    var err;
    res, err, failure := Update(eq, desired, latest, delta, remote, env, id);
    ok := err.None?;
  }

  // What the runtime does with one resource: read it; if it is not there create it; if the
  // delta is not empty update it. A stale Terminal condition hides that it is not there.
  method Attempt(eq: LeafEq, desired: Resource, remote: RemoteAlarm, env: Env, id: Identity)
    returns (res: Resource, ok: bool, ghost os: seq<Outcome>)
    requires desired.spec.name == Some(remote.name)
    modifies desired`spec, remote
    ensures res.ConditionViews() == History(old(desired.ConditionViews()), os, METRIC_ALARM_CODES)
    ensures var stale := Stale(old(desired.ConditionViews()));
            && (remote.State(), ok) == StepFrom(eq, old(desired.spec), old(remote.State()), env, stale)
            && os != [] && (os[|os| - 1].None? <==> ok)
            && (IsTerminal(os[|os| - 1], METRIC_ALARM_CODES) <==>
                  && !(stale && Missing(old(remote.State()), env))
                  && ReachesPut(eq, old(desired.spec), old(remote.State()), env) && FailsForGood(old(desired.spec)))
            && (stale && Missing(old(remote.State()), env) ==> os == [Some(NOT_FOUND)])
  {
    hide Step, UpdateStep, PutStep, Synced, AttributesDiffer, ReachesPut, Updated, History, Stale, Observes;
    hide Mirrored, Applied, AppliedPuts, DiffersBeyondTags, BuildResult, Disagrees, MapOf;
    ghost var d, r, cs := desired.spec, remote.State(), desired.ConditionViews();
    var err;
    ghost var o;
    res, err, o := ReadOne(desired, remote, env, id);
    os := [o];
    OneOutcome(cs, o, METRIC_ALARM_CODES);
    StepByReading(eq, d, r, env);
    if err == Some(NOT_FOUND) {
      res, err, o := Create(desired, remote, env, id);
      os := [o];
      OneOutcome(cs, o, METRIC_ALARM_CODES);
      if BuildResult(d).Err? {
        BuildFailure(d);
      }
      return res, err.None?, os;
    }
    if err.Some? {
      return res, false, os;
    }
    AppliedIsUpdateStep(eq, d, r, env, desired.spec.tags, res.spec);
    ghost var failure: Option<Error>;
    res, ok, failure := UpdateIfDifferent(eq, desired, res, remote, env, id);
    if !ok {
      os := [None, failure];
      TwoOutcomes(cs, None, failure, METRIC_ALARM_CODES);
      if BuildResult(desired.spec).Err? {
        BuildFailure(desired.spec);
      }
    }
  }

  // A step is decided by what ReadOne finds.
  lemma StepByReading(eq: LeafEq, d: MetricAlarmSpec, r: Remote, env: Env)
    ensures Step(eq, d, r, env)
            == if Missing(r, env) then PutStep(d, r, env)
               else if Readable(r, env) then UpdateStep(eq, d, r, env)
               else (r, false)
    ensures ReachesPut(eq, d, r, env)
            <==> || Missing(r, env)
                 || (Readable(r, env) && Synced(d, r, env).1 && AttributesDiffer(eq, d, r.alarm.value))
    ensures ReachesPut(eq, d, r, env) && FailsForGood(d) ==> !Step(eq, d, r, env).1
  {
  }

  // Between two attempts the runtime writes the status to the cluster and may do anything to
  // it: here it makes no condition stale, and here it neither makes nor mends one.
  ghost predicate KeepsUnstale(between: (nat, StatusView) -> StatusView) {
    forall i, s: StatusView | !Stale(s.List()) :: !Stale(between(i, s).List())
  }

  ghost predicate KeepsStaleness(between: (nat, StatusView) -> StatusView) {
    forall i, s: StatusView :: Stale(between(i, s).List()) <==> Stale(s.List())
  }

  // One attempt, from the cluster and back to it.
  method AttemptFrom(
      eq: LeafEq, spec: MetricAlarmSpec, status: StatusView, remote: RemoteAlarm, env: Env, id: Identity)
    returns (last: StatusView, ghost os: seq<Outcome>)
    requires spec.name == Some(remote.name)
    modifies remote
    ensures remote.State() == StepFrom(eq, spec, old(remote.State()), env, Stale(status.List())).0
    ensures Shows(eq, spec, old(remote.State()), env, Stale(status.List()), last.List())
    ensures last.List() == History(status.List(), os, METRIC_ALARM_CODES) && os != []
    ensures Stale(last.List()) == Stale(status.List())
  {
    hide Stale, Shows, History, StepFrom, ReachesPut, FailsForGood, IsTerminal;
    ghost var before := remote.State();
    var desired := ReadBack(spec, status);
    var res, ok;
    res, ok, os := Attempt(eq, desired, remote, env, id);
    OutcomesShow(eq, spec, before, env, Stale(status.List()), os, status.List());
    StaleForEver(status.List(), os, METRIC_ALARM_CODES);
    last := WriteStatus(res);
  }

  // Every attempt starts from the spec in the cluster, to which the mirrored tags are not
  // written, and from the status the attempt before and the runtime left there; stale tells
  // which of these have a stale condition. The last status shows how the last attempt went;
  // if the runtime adds nothing, its conditions are those of the whole history of outcomes.
  method Attempts(
      eq: LeafEq, spec: MetricAlarmSpec, status: StatusView, between: (nat, StatusView) -> StatusView,
      remote: RemoteAlarm, envs: seq<Env>, id: Identity)
    returns (last: StatusView, ghost os: seq<Outcome>, ghost stale: seq<bool>)
    requires spec.name == Some(remote.name)
    modifies remote
    ensures |stale| == |envs| && remote.State() == RunFrom(eq, spec, old(remote.State()), envs, stale)
    ensures envs != [] ==>
              var n := |envs| - 1;
              var before := RunFrom(eq, spec, old(remote.State()), envs[..n], stale[..n]);
              var forGood :=
                !(stale[n] && Missing(before, envs[n])) && ReachesPut(eq, spec, before, envs[n]) && FailsForGood(spec);
              && (ReadsTrue(last.List(), Terminal) <==> forGood)
              && (!forGood ==>
                    (ReadsTrue(last.List(), Recoverable) <==> !StepFrom(eq, spec, before, envs[n], stale[n]).1))
              && stale[0] == Stale(status.List()) && stale[n] == Stale(last.List())
    ensures !Stale(status.List()) && KeepsUnstale(between) ==>
              && (forall t | 0 <= t < |stale| :: !stale[t])
              && remote.State() == Run(eq, spec, old(remote.State()), envs)
    ensures KeepsStaleness(between) ==> forall t | 0 <= t < |stale| :: stale[t] == Stale(status.List())
    ensures (forall i, s :: between(i, s) == s) ==>
              last.List() == History(status.List(), os, METRIC_ALARM_CODES) && |envs| <= |os|
  {
    hide Stale, Shows, History, StepFrom, ReachesPut, FailsForGood, ReadsTrue, Missing;
    ghost var start, before := remote.State(), remote.State();
    last, os, stale := status, [], [];
    var next := status;
    NoOutcome(status.List(), METRIC_ALARM_CODES);
    for i := 0 to |envs|
      invariant |stale| == i && remote.State() == RunFrom(eq, spec, start, envs[..i], stale)
      invariant i == 0 ==> next == last == status
      invariant i > 0 ==>
                  && before == RunFrom(eq, spec, start, envs[..i - 1], stale[..i - 1])
                  && Shows(eq, spec, before, envs[i - 1], stale[i - 1], last.List())
                  && stale[0] == Stale(status.List()) && stale[i - 1] == Stale(last.List())
                  && next == between(i - 1, last)
      invariant !Stale(status.List()) && KeepsUnstale(between) ==>
                  !Stale(next.List()) && forall t | 0 <= t < i :: !stale[t]
      invariant KeepsStaleness(between) ==>
                  && Stale(next.List()) == Stale(status.List())
                  && forall t | 0 <= t < i :: stale[t] == Stale(status.List())
      invariant (forall i, s :: between(i, s) == s) ==>
                  next == last && last.List() == History(status.List(), os, METRIC_ALARM_CODES) && i <= |os|
    {
      ghost var was, more := stale, [];
      before := remote.State();
      stale := stale + [Stale(next.List())];
      assert envs[..i + 1][..i] == envs[..i] && stale[..i] == was;
      last, more := AttemptFrom(eq, spec, next, remote, envs[i], id);
      HistoryAppend(status.List(), os, more, METRIC_ALARM_CODES);
      os := os + more;
      next := between(i, last);
    }
    assert envs[..|envs|] == envs && stale[..|envs|] == stale;
    RunFromIsRun(eq, spec, start, envs, stale);
    if envs != [] {
      ShowsMeans(eq, spec, before, envs[|envs| - 1], stale[|envs| - 1], last.List());
    }
  }
}
