// The reconcile protocol of a MetricAlarm as a state machine on the remote alarm: one
// attempt is read, mirror, compare, sync tags, put; the environment decides which calls
// get through. Reconcile proves that the controller's methods take exactly these steps.

module Protocol {
  import opened Wrappers
  import opened Tags
  import opened AlarmTypes
  import opened Payload
  import opened Observe
  import opened Delta
  import opened RoundTrip

  datatype Alarm = Alarm(attrs: SdkAlarm, tags: TagMap, arn: string)

  // Calls that were acknowledged to the controller.
  datatype Acks = Acks(tag: nat, untag: nat, put: nat)

  datatype Remote = Remote(alarm: Option<Alarm>, acks: Acks)

  // A writing call is acknowledged, or lost before it took effect, or its reply is lost.
  datatype CallOutcome = Acked | LostRequest | LostReply

  // DescribeAlarms answers, fails, or fails with the code that sdkFind takes for "not found".
  datatype DescribeOutcome = Answered | Failed | FailedUnknown

  // What the environment does to one attempt; arn is given to an alarm that is created.
  datatype Env = Env(
    describe: DescribeOutcome, list: bool, tag: CallOutcome, untag: CallOutcome, put: CallOutcome, arn: string)

  /******* Effects of the API calls *******/

  function AfterTag(r: Remote, adds: TagMap, o: CallOutcome): Remote
    requires r.alarm.Some?
  {
    var a := r.alarm.value;
    Remote(Some(if o.LostRequest? then a else a.(tags := a.tags + adds)),
           if o.Acked? then r.acks.(tag := r.acks.tag + 1) else r.acks)
  }

  function AfterUntag(r: Remote, keys: set<string>, o: CallOutcome): Remote
    requires r.alarm.Some?
  {
    var a := r.alarm.value;
    Remote(Some(if o.LostRequest? then a else a.(tags := a.tags - keys)),
           if o.Acked? then r.acks.(untag := r.acks.untag + 1) else r.acks)
  }

  // On an alarm that exists, the tags of the request are silently ignored.
  function AfterPut(r: Remote, input: PutMetricAlarmInput, o: CallOutcome, arn: string): Remote {
    Remote(
      if o.LostRequest? then r.alarm
      else if r.alarm.None? then Some(Alarm(input.alarm, MapOf(input.tags), arn))
      else Some(r.alarm.value.(attrs := input.alarm)),
      if o.Acked? then r.acks.(put := r.acks.put + 1) else r.acks)
  }

  /******* Tag synchronisation *******/

  function Adds(desired: TagMap, latest: TagMap): TagMap {
    map k | k in desired && (k !in latest || latest[k] != desired[k]) :: desired[k]
  }

  function Removes(desired: TagMap, latest: TagMap): set<string> {
    latest.Keys - desired.Keys
  }

  // The tags an attempt aims for: the user's, overlaid with the AWS tags that were read.
  function Target(d: MetricAlarmSpec, latest: TagMap): TagMap {
    MapOf(d.tags) + AwsPart(latest)
  }

  // What syncTags sends, and in which order: a failed TagResource ends it.
  function SendTags(adds: TagMap, removes: set<string>, r: Remote, env: Env): (Remote, bool)
    requires r.alarm.Some?
  {
    var r1 := if adds == map[] then r else AfterTag(r, adds, env.tag);
    if adds != map[] && !env.tag.Acked? then (r1, false)
    else if removes == {} then (r1, true)
    else (AfterUntag(r1, removes, env.untag), env.untag.Acked?)
  }

  function SyncStep(desired: TagMap, r: Remote, env: Env): (Remote, bool)
    requires r.alarm.Some?
  {
    var latest := r.alarm.value.tags;
    SendTags(Adds(desired, latest), Removes(desired, latest), r, env)
  }

  // User keys come from the spec, AWS keys from what was read, or from the spec if it was not.
  lemma TargetMeans(d: MetricAlarmSpec, latest: TagMap, k: string)
    ensures k in Target(d, latest) <==> k in MapOf(d.tags) || (k in latest && "aws:" <= k)
    ensures k in latest && "aws:" <= k ==> Target(d, latest)[k] == latest[k]
    ensures k in MapOf(d.tags) && !(k in latest && "aws:" <= k) ==> Target(d, latest)[k] == MapOf(d.tags)[k]
  {
  }

  // An attempt's sync: it is asked for only when the delta names the tags.
  function Synced(d: MetricAlarmSpec, r: Remote, env: Env): (Remote, bool)
    requires r.alarm.Some?
  {
    var latest := r.alarm.value.tags;
    if Target(d, latest) == latest then (r, true) else SyncStep(Target(d, latest), r, env)
  }

  /******* One attempt: the new remote state, and whether the attempt succeeded *******/

  function PutStep(d: MetricAlarmSpec, r: Remote, env: Env): (Remote, bool) {
    match BuildResult(d)
    case Err(_) => (r, false)
    case Ok(input) => (AfterPut(r, input, env.put, env.arn), env.put.Acked?)
  }

  ghost predicate AttributesDiffer(eq: LeafEq, d: MetricAlarmSpec, a: Alarm) {
    DiffersBeyondTags(eq, d, Decode(d, a.attrs))
  }

  ghost function UpdateStep(eq: LeafEq, d: MetricAlarmSpec, r: Remote, env: Env): (Remote, bool)
    requires r.alarm.Some?
  {
    var (r1, synced) := Synced(d, r, env);
    if !synced || !AttributesDiffer(eq, d, r.alarm.value) then (r1, synced) else PutStep(d, r1, env)
  }

  ghost function Step(eq: LeafEq, d: MetricAlarmSpec, r: Remote, env: Env): (Remote, bool) {
    if env.describe.Failed? then (r, false)
    else if env.describe.FailedUnknown? || r.alarm.None? then PutStep(d, r, env)
    else if !env.list then (r, false)
    else UpdateStep(eq, d, r, env)
  }

  // Whether an attempt gets as far as building a request.
  ghost predicate ReachesPut(eq: LeafEq, d: MetricAlarmSpec, r: Remote, env: Env) {
    || env.describe.FailedUnknown?
    || (env.describe.Answered? && r.alarm.None?)
    || (env.describe.Answered? && env.list && Synced(d, r, env).1 && AttributesDiffer(eq, d, r.alarm.value))
  }

  // The request cannot be built, and not because of an overflow.
  predicate FailsForGood(d: MetricAlarmSpec) {
    BuildResult(d).Err? && BuildResult(d).error.kind.TerminalError?
  }

  ghost function Run(eq: LeafEq, d: MetricAlarmSpec, r: Remote, envs: seq<Env>): Remote {
    if envs == [] then r else Step(eq, d, Run(eq, d, r, envs[..|envs| - 1]), envs[|envs| - 1]).0
  }

  /******* Attempts on a resource with a stale Terminal condition *******/

  predicate Missing(r: Remote, env: Env) {
    env.describe.FailedUnknown? || (env.describe.Answered? && r.alarm.None?)
  }

  // A stale condition turns "not found" into another failure, and the attempt ends there.
  ghost function StepFrom(eq: LeafEq, d: MetricAlarmSpec, r: Remote, env: Env, stale: bool): (Remote, bool) {
    if stale && Missing(r, env) then (r, false) else Step(eq, d, r, env)
  }

  // stale[t] tells whether attempt t starts from a status with a stale condition.
  ghost function RunFrom(eq: LeafEq, d: MetricAlarmSpec, r: Remote, envs: seq<Env>, stale: seq<bool>): Remote
    requires |stale| == |envs|
  {
    if envs == [] then r else
      var n := |envs| - 1;
      StepFrom(eq, d, RunFrom(eq, d, r, envs[..n], stale[..n]), envs[n], stale[n]).0
  }

  /******* The tag diff *******/

  // Nothing to send exactly when the maps agree, which is what the delta asks.
  lemma NothingToSend(desired: TagMap, latest: TagMap)
    ensures Adds(desired, latest) == map[] && Removes(desired, latest) == {} <==> desired == latest
  {
    if Adds(desired, latest) == map[] && Removes(desired, latest) == {} {
      forall k | k in desired ensures k in latest && latest[k] == desired[k] {
        assert k !in Adds(desired, latest);
      }
      forall k | k in latest ensures k in desired {
        assert k !in Removes(desired, latest);
      }
    }
  }

  // The two calls turn latest into desired. In between every key has its latest or its
  // desired value, and no key that both have is ever missing.
  lemma SyncExact(desired: TagMap, latest: TagMap)
    ensures Adds(desired, latest).Keys !! Removes(desired, latest)
    ensures latest + Adds(desired, latest) - Removes(desired, latest) == desired
    ensures var mid := latest + Adds(desired, latest);
            && mid.Keys == latest.Keys + desired.Keys
            && forall k | k in mid ::
                 (k in desired && mid[k] == desired[k]) || (k !in desired && mid[k] == latest[k])
  {
  }

  // Whatever pair of calls does that sends at least as much.
  lemma SyncMinimal(desired: TagMap, latest: TagMap, adds: TagMap, removes: set<string>)
    requires latest + adds - removes == desired
    ensures forall k | k in Adds(desired, latest) :: k in adds && adds[k] == desired[k]
    ensures Removes(desired, latest) <= removes
  {
    forall k | k in Adds(desired, latest) ensures k in adds && adds[k] == desired[k] {
      assert k in latest + adds - removes;
    }
    forall k | k in Removes(desired, latest) ensures k in removes {
      assert k !in latest + adds - removes;
    }
  }

  // The target does not move while an attempt works towards it.
  lemma TargetIsStable(d: MetricAlarmSpec, latest: TagMap)
    ensures var target := Target(d, latest);
            var mid := latest + Adds(target, latest);
            && Target(d, mid) == target
            && Target(d, target) == target
            && Adds(target, mid) == map[]
            && Removes(target, mid) == Removes(target, latest)
            && mid - Removes(target, latest) == target
  {
    var target := Target(d, latest);
    var mid := latest + Adds(target, latest);
    SyncExact(target, latest);
    assert AwsPart(target) == AwsPart(mid);
    SameAwsPart(d, latest, mid);
    SameAwsPart(d, latest, target);
  }

  // Adding the AWS tags of the user's own spec to those that were read changes no target.
  lemma SameAwsPart(d: MetricAlarmSpec, latest: TagMap, later: TagMap)
    requires AwsPart(later) == AwsPart(Target(d, latest))
    ensures Target(d, later) == Target(d, latest)
  {
    assert AwsPart(Target(d, latest)) == AwsPart(MapOf(d.tags)) + AwsPart(latest);
  }

  /******* One attempt, call by call *******/

  // The additions go first, the removals only once they are acknowledged, and either call only
  // if there is something to send.
  lemma SyncedExactly(d: MetricAlarmSpec, r: Remote, env: Env)
    requires r.alarm.Some?
    ensures var (r', ok) := Synced(d, r, env);
            var latest := r.alarm.value.tags;
            var target := Target(d, latest);
            var adds, removes := Adds(target, latest) != map[], Removes(target, latest) != {};
            var tagged := adds ==> env.tag.Acked?;
            && (ok <==> tagged && (removes ==> env.untag.Acked?))
            && r'.alarm == Some(r.alarm.value.(
                 tags := if adds && env.tag.LostRequest? then latest
                         else if tagged && !(removes && env.untag.LostRequest?) then target
                         else latest + target))
            && r'.acks == r.acks.(tag := r.acks.tag + if adds && env.tag.Acked? then 1 else 0,
                                  untag := r.acks.untag + if tagged && removes && env.untag.Acked? then 1 else 0)
  {
    var latest := r.alarm.value.tags;
    var target := Target(d, latest);
    hide Target;
    SyncExact(target, latest);
    NothingToSend(target, latest);
    assert latest + Adds(target, latest) == latest + target;
    assert Adds(target, latest) == map[] ==> latest + target == latest;
    assert Removes(target, latest) == {} ==> latest + target == target;
  }

  // With the alarm read and found the put comes last: only after both calls got through, and
  // only if anything but the tags differs.
  lemma UpdateExactly(eq: LeafEq, d: MetricAlarmSpec, r: Remote, env: Env)
    requires env.describe.Answered? && env.list && r.alarm.Some?
    ensures var (r1, synced) := Synced(d, r, env);
            var (r', ok) := Step(eq, d, r, env);
            var puts := synced && AttributesDiffer(eq, d, r.alarm.value) && BuildResult(d).Ok?;
            && (ok <==> synced && (AttributesDiffer(eq, d, r.alarm.value) ==> BuildResult(d).Ok? && env.put.Acked?))
            && r'.alarm == (if puts && !env.put.LostRequest? && r1.alarm.Some?
                            then Some(r1.alarm.value.(attrs := BuildResult(d).value.alarm)) else r1.alarm)
            && r'.acks == r1.acks.(put := r1.acks.put + if puts && env.put.Acked? then 1 else 0)
  {
    hide BuildResult, AttributesDiffer, Synced;
    SyncedEnds(d, r, env);
  }

  // Not found, or said to be unknown: one put, which gives a new alarm the tags of the spec
  // and leaves those of an old one alone. Not read: nothing.
  lemma CreateExactly(eq: LeafEq, d: MetricAlarmSpec, r: Remote, env: Env)
    requires env.describe.Failed? || env.describe.FailedUnknown? || r.alarm.None? || !env.list
    ensures var (r', ok) := Step(eq, d, r, env);
            if env.describe.FailedUnknown? || (env.describe.Answered? && r.alarm.None?) then
              && (ok <==> BuildResult(d).Ok? && env.put.Acked?)
              && r'.acks == r.acks.(put := r.acks.put + if ok then 1 else 0)
              && (BuildResult(d).Err? || env.put.LostRequest? ==> r'.alarm == r.alarm)
              && (BuildResult(d).Ok? && !env.put.LostRequest? ==>
                    r'.alarm == Some(
                      if r.alarm.None? then Alarm(BuildResult(d).value.alarm, MapOf(d.tags), env.arn)
                      else Alarm(BuildResult(d).value.alarm, r.alarm.value.tags, r.alarm.value.arn)))
            else
              r' == r && !ok
  {
    if BuildResult(d).Ok? {
      RequestCarries(d);
    }
  }

  /******* What is still to be done *******/

  predicate NeedsTag(d: MetricAlarmSpec, r: Remote) {
    r.alarm.Some? && Adds(Target(d, r.alarm.value.tags), r.alarm.value.tags) != map[]
  }

  predicate NeedsUntag(d: MetricAlarmSpec, r: Remote) {
    r.alarm.Some? && Removes(Target(d, r.alarm.value.tags), r.alarm.value.tags) != {}
  }

  ghost predicate NeedsPut(eq: LeafEq, d: MetricAlarmSpec, r: Remote) {
    r.alarm.Some? ==> AttributesDiffer(eq, d, r.alarm.value)
  }

  function One(b: bool): nat {
    if b then 1 else 0
  }

  // The spec, sent, comes back equal to itself, or cannot be sent at all.
  ghost predicate Tame(eq: LeafEq, d: MetricAlarmSpec) {
    NormalForm(eq, d) || BuildResult(d).Err?
  }

  // A put leaves the tags of an alarm alone and gives a new one its target; afterwards
  // another put is wanted exactly when the spec is not in normal form.
  lemma PutStepNeeds(eq: LeafEq, d: MetricAlarmSpec, r: Remote, env: Env)
    requires LeafEquivalences(eq)
    ensures var (r', ok) := PutStep(d, r, env);
            && r'.acks == r.acks.(put := r'.acks.put) && r'.acks.put == r.acks.put + One(ok)
            && (ok ==> BuildResult(d).Ok?)
            && (r'.alarm == r.alarm ||
                  (&& BuildResult(d).Ok? && r'.alarm.Some?
                   && r'.alarm.value.tags == (if r.alarm.Some? then r.alarm.value.tags else MapOf(d.tags))
                   && (r.alarm.Some? ==> r'.alarm.value.arn == r.alarm.value.arn)
                   && (NeedsPut(eq, d, r') <==> !NormalForm(eq, d))))
            && (ok || (BuildResult(d).Ok? && !env.put.LostRequest?) ==>
                  r'.alarm.Some? && (NeedsPut(eq, d, r') <==> !NormalForm(eq, d)))
  {
    if BuildResult(d).Ok? {
      RoundTripExact(eq, d, d);
    }
  }

  // A new alarm has the tags it was created with, and they are their own target.
  lemma NewTagsAreTarget(d: MetricAlarmSpec)
    ensures Target(d, MapOf(d.tags)) == MapOf(d.tags)
    ensures Adds(MapOf(d.tags), MapOf(d.tags)) == map[] && Removes(MapOf(d.tags), MapOf(d.tags)) == {}
  {
    NothingToSend(MapOf(d.tags), MapOf(d.tags));
  }

  // The tag maps an attempt can leave behind: those it read, those between its two calls,
  // and the target.
  ghost predicate OnTheWay(d: MetricAlarmSpec, latest: TagMap, later: TagMap) {
    || later == latest
    || later == latest + Adds(Target(d, latest), latest)
    || later == Target(d, latest)
  }

  lemma OnTheWayShrinks(d: MetricAlarmSpec, latest: TagMap, later: TagMap)
    requires OnTheWay(d, latest, later)
    ensures Target(d, later) == Target(d, latest)
    ensures Adds(Target(d, later), later).Keys <= Adds(Target(d, latest), latest).Keys
    ensures Removes(Target(d, later), later) <= Removes(Target(d, latest), latest)
    ensures later != latest ==> Adds(Target(d, later), later) == map[]
    ensures later == Target(d, latest) ==> Removes(Target(d, later), later) == {}
  {
    TargetIsStable(d, latest);
    NothingToSend(Target(d, latest), Target(d, latest));
  }

  // Where the two calls can leave the tags, whatever happens to them.
  lemma SendTagsEnds(adds: TagMap, removes: set<string>, r: Remote, env: Env)
    requires r.alarm.Some?
    ensures var (r', ok) := SendTags(adds, removes, r, env);
            && r'.alarm.Some? && r'.alarm.value == r.alarm.value.(tags := r'.alarm.value.tags)
            && r'.acks.put == r.acks.put
            && r'.acks.tag <= r.acks.tag + 1 && r'.acks.untag <= r.acks.untag + 1
            && var before, after := r.alarm.value.tags, r'.alarm.value.tags;
               && (after == before || after == before + adds || after == before + adds - removes)
               && (ok ==> after == before + adds - removes)
               && (r'.acks.tag > r.acks.tag ==>
                     adds != map[] && (after == before + adds || after == before + adds - removes))
               && (r'.acks.untag > r.acks.untag ==> removes != {} && after == before + adds - removes)
  {
    var before := r.alarm.value.tags;
    assert adds == map[] ==> before + adds == before;
    assert removes == {} ==> before + adds - removes == before + adds;
  }

  lemma SyncedEnds(d: MetricAlarmSpec, r: Remote, env: Env)
    requires r.alarm.Some?
    ensures var latest := r.alarm.value.tags;
            var (r', ok) := Synced(d, r, env);
            && r'.alarm.Some? && r'.alarm.value == r.alarm.value.(tags := r'.alarm.value.tags)
            && OnTheWay(d, latest, r'.alarm.value.tags)
            && (ok ==> r'.alarm.value.tags == Target(d, latest))
            && r'.acks.put == r.acks.put
            && r'.acks.tag <= r.acks.tag + 1 && r'.acks.untag <= r.acks.untag + 1
            && (r'.acks.tag > r.acks.tag ==>
                  Adds(Target(d, latest), latest) != map[]
                  && (r'.alarm.value.tags == latest + Adds(Target(d, latest), latest)
                      || r'.alarm.value.tags == Target(d, latest)))
            && (r'.acks.untag > r.acks.untag ==>
                  Removes(Target(d, latest), latest) != {} && r'.alarm.value.tags == Target(d, latest))
  {
    var latest := r.alarm.value.tags;
    var target := Target(d, latest);
    SyncExact(target, latest);
    SendTagsEnds(Adds(target, latest), Removes(target, latest), r, env);
  }

  lemma SyncedNeeds(d: MetricAlarmSpec, r: Remote, env: Env)
    requires r.alarm.Some?
    ensures var (r', ok) := Synced(d, r, env);
            && r'.alarm.Some? && r'.acks.put == r.acks.put
            && r'.alarm.value == r.alarm.value.(tags := r'.alarm.value.tags)
            && r'.acks.tag + One(NeedsTag(d, r')) <= r.acks.tag + One(NeedsTag(d, r))
            && r'.acks.untag + One(NeedsUntag(d, r')) <= r.acks.untag + One(NeedsUntag(d, r))
            && Target(d, r'.alarm.value.tags) == Target(d, r.alarm.value.tags)
            && (ok ==> r'.alarm.value.tags == Target(d, r.alarm.value.tags))
  {
    var latest := r.alarm.value.tags;
    SyncedEnds(d, r, env);
    var later := Synced(d, r, env).0.alarm.value.tags;
    OnTheWayShrinks(d, latest, later);
    TargetIsStable(d, latest);
  }

  // No attempt spends more calls of a kind than it removes the need for.
  lemma StepBudget(eq: LeafEq, d: MetricAlarmSpec, r: Remote, env: Env)
    requires LeafEquivalences(eq)
    ensures var r' := Step(eq, d, r, env).0;
            && r'.acks.tag + One(NeedsTag(d, r')) <= r.acks.tag + One(NeedsTag(d, r))
            && r'.acks.untag + One(NeedsUntag(d, r')) <= r.acks.untag + One(NeedsUntag(d, r))
            && (Tame(eq, d) ==>
                  r'.acks.put + One(NeedsPut(eq, d, r'))
                  <= r.acks.put + One(NeedsPut(eq, d, r)) + One(env.describe.FailedUnknown?))
  {
    if env.describe.FailedUnknown? || r.alarm.None? {
      PutStepBudget(eq, d, r, env);
    } else if env.describe.Answered? && env.list {
      UpdateBudget(eq, d, r, env);
    }
  }

  lemma UpdateBudget(eq: LeafEq, d: MetricAlarmSpec, r: Remote, env: Env)
    requires LeafEquivalences(eq) && r.alarm.Some?
    ensures var r' := UpdateStep(eq, d, r, env).0;
            && r'.acks.tag + One(NeedsTag(d, r')) <= r.acks.tag + One(NeedsTag(d, r))
            && r'.acks.untag + One(NeedsUntag(d, r')) <= r.acks.untag + One(NeedsUntag(d, r))
            && (Tame(eq, d) ==> r'.acks.put + One(NeedsPut(eq, d, r')) <= r.acks.put + One(NeedsPut(eq, d, r)))
  {
    var r1 := Synced(d, r, env).0;
    SyncedNeeds(d, r, env);
    assert NeedsPut(eq, d, r1) == NeedsPut(eq, d, r) == AttributesDiffer(eq, d, r.alarm.value);
    PutStepBudget(eq, d, r1, env);
  }

  lemma PutStepBudget(eq: LeafEq, d: MetricAlarmSpec, r: Remote, env: Env)
    requires LeafEquivalences(eq)
    ensures var r' := PutStep(d, r, env).0;
            && r'.acks == r.acks.(put := r'.acks.put)
            && (NeedsTag(d, r') ==> NeedsTag(d, r))
            && (NeedsUntag(d, r') ==> NeedsUntag(d, r))
            && r'.acks.put <= r.acks.put + 1
            && (Tame(eq, d) && r'.acks.put > r.acks.put ==> !NeedsPut(eq, d, r'))
            && (Tame(eq, d) && !NeedsPut(eq, d, r) ==> !NeedsPut(eq, d, r'))
  {
    PutStepNeeds(eq, d, r, env);
    NewTagsAreTarget(d);
  }

  /******* Bounded work over any run *******/

  function CountUnknown(envs: seq<Env>): nat {
    if envs == [] then 0 else CountUnknown(envs[..|envs| - 1]) + One(envs[|envs| - 1].describe.FailedUnknown?)
  }

  lemma {:induction false} RunBudget(eq: LeafEq, d: MetricAlarmSpec, r: Remote, envs: seq<Env>)
    requires LeafEquivalences(eq)
    ensures var r' := Run(eq, d, r, envs);
            && r'.acks.tag + One(NeedsTag(d, r')) <= r.acks.tag + One(NeedsTag(d, r))
            && r'.acks.untag + One(NeedsUntag(d, r')) <= r.acks.untag + One(NeedsUntag(d, r))
            && (Tame(eq, d) ==>
                  r'.acks.put + One(NeedsPut(eq, d, r'))
                  <= r.acks.put + One(NeedsPut(eq, d, r)) + CountUnknown(envs))
  {
    if envs == [] {
    } else {
      RunBudget(eq, d, r, envs[..|envs| - 1]);
      StepBudget(eq, d, Run(eq, d, r, envs[..|envs| - 1]), envs[|envs| - 1]);
    }
  }

  // Whatever calls are lost and however often the controller starts again: at most one
  // TagResource and one UntagResource are ever acknowledged, and for a tame spec at most one
  // PutMetricAlarm more than DescribeAlarms has claimed an UNKNOWN alarm.
  lemma BoundedWork(eq: LeafEq, d: MetricAlarmSpec, r: Remote, envs: seq<Env>)
    requires LeafEquivalences(eq)
    ensures Run(eq, d, r, envs).acks.tag <= r.acks.tag + 1
    ensures Run(eq, d, r, envs).acks.untag <= r.acks.untag + 1
    ensures Tame(eq, d) ==> Run(eq, d, r, envs).acks.put <= r.acks.put + 1 + CountUnknown(envs)
  {
    RunBudget(eq, d, r, envs);
  }

  // An attempt on which every call gets through.
  function GoodEnv(arn: string): Env {
    Env(Answered, true, Acked, Acked, Acked, arn)
  }

  function GoodEnvs(n: nat, arn: string): seq<Env> {
    seq(n, _ => GoodEnv(arn))
  }

  const ABSENT := Remote(None, Acks(0, 0, 0))

  // A spec that can be sent but does not come back equal is put again on every attempt.
  lemma {:induction false} PutsForever(eq: LeafEq, d: MetricAlarmSpec, n: nat, arn: string)
    requires LeafEquivalences(eq) && !Tame(eq, d)
    ensures Run(eq, d, ABSENT, GoodEnvs(n, arn)).acks.put == n
    ensures NeedsPut(eq, d, Run(eq, d, ABSENT, GoodEnvs(n, arn)))
  {
    if n == 0 {
    } else {
      PutsForever(eq, d, n - 1, arn);
      assert GoodEnvs(n, arn)[..n - 1] == GoodEnvs(n - 1, arn);
      PutAgain(eq, d, Run(eq, d, ABSENT, GoodEnvs(n - 1, arn)), arn);
    }
  }

  lemma PutAgain(eq: LeafEq, d: MetricAlarmSpec, r: Remote, arn: string)
    requires LeafEquivalences(eq) && !Tame(eq, d) && NeedsPut(eq, d, r)
    ensures Step(eq, d, r, GoodEnv(arn)).0.acks.put == r.acks.put + 1
    ensures NeedsPut(eq, d, Step(eq, d, r, GoodEnv(arn)).0)
  {
    var r1 := r;
    if r.alarm.Some? {
      SyncedEnds(d, r, GoodEnv(arn));
      r1 := Synced(d, r, GoodEnv(arn)).0;
    }
    assert Step(eq, d, r, GoodEnv(arn)) == PutStep(d, r1, GoodEnv(arn));
    PutStepNeeds(eq, d, r1, GoodEnv(arn));
  }

  // Attempts on which DescribeAlarms says UNKNOWN and the put gets through.
  function UnknownEnvs(n: nat, arn: string): seq<Env> {
    seq(n, _ => Env(FailedUnknown, true, Acked, Acked, Acked, arn))
  }

  // Every such answer costs a put, whatever is stored already.
  lemma {:induction false} UnknownCostsPuts(
    eq: LeafEq, d: MetricAlarmSpec, r: Remote, before: seq<Env>, n: nat, arn: string)
    requires BuildResult(d).Ok?
    ensures CountUnknown(before + UnknownEnvs(n, arn)) == CountUnknown(before) + n
    ensures Run(eq, d, r, before + UnknownEnvs(n, arn)).acks.put == Run(eq, d, r, before).acks.put + n
  {
    if n == 0 {
      assert before + UnknownEnvs(0, arn) == before;
    } else {
      UnknownCostsPuts(eq, d, r, before, n - 1, arn);
      var envs := before + UnknownEnvs(n, arn);
      assert envs[..|envs| - 1] == before + UnknownEnvs(n - 1, arn);
    }
  }

  // The bound is reached: one attempt that creates the alarm, then n UNKNOWN answers.
  lemma BoundIsReached(eq: LeafEq, d: MetricAlarmSpec, n: nat, arn: string)
    requires BuildResult(d).Ok?
    ensures CountUnknown([GoodEnv(arn)] + UnknownEnvs(n, arn)) == n
    ensures Run(eq, d, ABSENT, [GoodEnv(arn)] + UnknownEnvs(n, arn)).acks.put == n + 1
  {
    assert [GoodEnv(arn)][..0] == [];
    assert Run(eq, d, ABSENT, [GoodEnv(arn)]) == Step(eq, d, ABSENT, GoodEnv(arn)).0;
    UnknownCostsPuts(eq, d, ABSENT, [GoodEnv(arn)], n, arn);
  }

  lemma {:induction false} NeverPut(eq: LeafEq, d: MetricAlarmSpec, r: Remote, envs: seq<Env>)
    requires BuildResult(d).Err?
    ensures Run(eq, d, r, envs).acks.put == r.acks.put
  {
    if envs == [] {
    } else {
      var n := |envs| - 1;
      NeverPut(eq, d, r, envs[..n]);
      var s := Run(eq, d, r, envs[..n]);
      if s.alarm.Some? {
        SyncedEnds(d, s, envs[n]);
      }
    }
  }

  // No run sees more than n UNKNOWN answers and makes more than b puts, from anywhere: that
  // holds exactly when the spec cannot be sent, or comes back equal and n is smaller than b.
  // With b == 1: at most one put is certain exactly if DescribeAlarms never answers UNKNOWN.
  lemma PutsBoundedExactly(eq: LeafEq, d: MetricAlarmSpec, n: nat, b: nat)
    requires LeafEquivalences(eq)
    ensures (forall r, envs | CountUnknown(envs) <= n :: Run(eq, d, r, envs).acks.put <= r.acks.put + b)
            <==> BuildResult(d).Err? || (NormalForm(eq, d) && n < b)
  {
    if BuildResult(d).Err? {
      forall r, envs ensures Run(eq, d, r, envs).acks.put == r.acks.put {
        NeverPut(eq, d, r, envs);
      }
    } else if !NormalForm(eq, d) {
      PutsForever(eq, d, b + 1, "");
      GoodEnvsKnow(b + 1, "");
      assert Run(eq, d, ABSENT, GoodEnvs(b + 1, "")).acks.put > ABSENT.acks.put + b;
    } else if n < b {
      forall r, envs | CountUnknown(envs) <= n ensures Run(eq, d, r, envs).acks.put <= r.acks.put + b {
        BoundedWork(eq, d, r, envs);
      }
    } else {
      BoundIsReached(eq, d, n, "");
      assert Run(eq, d, ABSENT, [GoodEnv("")] + UnknownEnvs(n, "")).acks.put > ABSENT.acks.put + b;
    }
  }

  // A spec with an empty enum string, and nothing else but a name.
  const EMPTY_STATISTIC := MetricAlarmSpec(
    None, None, None, None, None, None, None, None, None, None, None, None, None, None, None,
    Some("alarm"), None, None, None, Some(""), [], None, None, None, None)

  // It is put on every attempt, whatever the list equalities are.
  lemma EmptyStatisticIsPutForever(eq: LeafEq, n: nat, arn: string)
    requires LeafEquivalences(eq)
    ensures BuildResult(EMPTY_STATISTIC).Ok? && !NormalForm(eq, EMPTY_STATISTIC)
    ensures Run(eq, EMPTY_STATISTIC, ABSENT, GoodEnvs(n, arn)).acks.put == n
  {
    BuildsExactly(EMPTY_STATISTIC);
    PutsForever(eq, EMPTY_STATISTIC, n, arn);
  }

  // Puts are bounded over all runs, from everywhere, exactly for tame specs.
  lemma BoundedExactly(eq: LeafEq, d: MetricAlarmSpec)
    requires LeafEquivalences(eq)
    ensures Tame(eq, d) <==>
              forall r, envs :: Run(eq, d, r, envs).acks.put <= r.acks.put + 1 + CountUnknown(envs)
  {
    if Tame(eq, d) {
      forall r, envs ensures Run(eq, d, r, envs).acks.put <= r.acks.put + 1 + CountUnknown(envs) {
        BoundedWork(eq, d, r, envs);
      }
    } else {
      PutsForever(eq, d, 2, "");
      GoodEnvsKnow(2, "");
      assert Run(eq, d, ABSENT, GoodEnvs(2, "")).acks.put > ABSENT.acks.put + 1 + CountUnknown(GoodEnvs(2, ""));
    }
  }

  lemma {:induction false} GoodEnvsKnow(n: nat, arn: string)
    ensures CountUnknown(GoodEnvs(n, arn)) == 0
  {
    if n == 0 {
    } else {
      GoodEnvsKnow(n - 1, arn);
      assert GoodEnvs(n, arn)[..n - 1] == GoodEnvs(n - 1, arn);
    }
  }

  /******* Runs with stale conditions *******/

  // What such an attempt makes of its environment: a failed read.
  function Seen(r: Remote, env: Env, stale: bool): Env {
    if stale && Missing(r, env) then env.(describe := Failed) else env
  }

  ghost function AllSeen(eq: LeafEq, d: MetricAlarmSpec, r: Remote, envs: seq<Env>, stale: seq<bool>): seq<Env>
    requires |stale| == |envs|
  {
    if envs == [] then [] else
      var n := |envs| - 1;
      AllSeen(eq, d, r, envs[..n], stale[..n]) + [Seen(RunFrom(eq, d, r, envs[..n], stale[..n]), envs[n], stale[n])]
  }

  // Every run with stale conditions is a run without, in an environment that fails more
  // often; so all that holds of all runs holds of it.
  lemma {:induction false} RunFromIsRun(eq: LeafEq, d: MetricAlarmSpec, r: Remote, envs: seq<Env>, stale: seq<bool>)
    requires |stale| == |envs|
    ensures var seen := AllSeen(eq, d, r, envs, stale);
            && RunFrom(eq, d, r, envs, stale) == Run(eq, d, r, seen)
            && |seen| == |envs| && CountUnknown(seen) <= CountUnknown(envs)
            && ((forall t | 0 <= t < |stale| :: stale[t]) ==> CountUnknown(seen) == 0)
            && ((forall t | 0 <= t < |stale| :: !stale[t]) ==> seen == envs)
  {
    hide Step;
    if envs == [] {
    } else {
      var n := |envs| - 1;
      var before := AllSeen(eq, d, r, envs[..n], stale[..n]);
      var seen := AllSeen(eq, d, r, envs, stale);
      RunFromIsRun(eq, d, r, envs[..n], stale[..n]);
      assert seen[..n] == before;
      SeenStep(eq, d, RunFrom(eq, d, r, envs[..n], stale[..n]), envs[n], stale[n]);
      assert envs == envs[..n] + [envs[n]];
    }
  }

  lemma SeenStep(eq: LeafEq, d: MetricAlarmSpec, r: Remote, env: Env, stale: bool)
    ensures StepFrom(eq, d, r, env, stale) == Step(eq, d, r, Seen(r, env, stale))
  {
  }

  // The bounds hold with stale conditions as well; and if every status is stale, at most one
  // put is acknowledged whatever DescribeAlarms says.
  lemma BoundedWorkFrom(eq: LeafEq, d: MetricAlarmSpec, r: Remote, envs: seq<Env>, stale: seq<bool>)
    requires LeafEquivalences(eq) && |stale| == |envs|
    ensures var r' := RunFrom(eq, d, r, envs, stale);
            && r'.acks.tag <= r.acks.tag + 1 && r'.acks.untag <= r.acks.untag + 1
            && (Tame(eq, d) ==> r'.acks.put <= r.acks.put + 1 + CountUnknown(envs))
            && (Tame(eq, d) && (forall t | 0 <= t < |stale| :: stale[t]) ==> r'.acks.put <= r.acks.put + 1)
  {
    RunFromIsRun(eq, d, r, envs, stale);
    BoundedWork(eq, d, r, AllSeen(eq, d, r, envs, stale));
  }

  // Attempt t creates an alarm that is not there yet.
  predicate Creates(d: MetricAlarmSpec, env: Env, stale: bool) {
    !stale && !env.describe.Failed? && !env.put.LostRequest? && BuildResult(d).Ok?
  }

  // An alarm that is missing is there after a run exactly if some attempt from a status that
  // is not stale was told so and its put took effect.
  lemma {:induction false} CreatedExactly(eq: LeafEq, d: MetricAlarmSpec, r: Remote, envs: seq<Env>, stale: seq<bool>)
    requires |stale| == |envs| && r.alarm.None?
    ensures RunFrom(eq, d, r, envs, stale).alarm.Some? <==>
              exists t :: 0 <= t < |envs| && Creates(d, envs[t], stale[t])
  {
    if envs == [] {
    } else {
      hide RunFrom, Creates;
      var n := |envs| - 1;
      var before := RunFrom(eq, d, r, envs[..n], stale[..n]);
      CreatedExactly(eq, d, r, envs[..n], stale[..n]);
      RunFromLast(eq, d, r, envs, stale);
      CreatesStep(eq, d, before, envs[n], stale[n]);
      assert forall t | 0 <= t < n :: envs[..n][t] == envs[t] && stale[..n][t] == stale[t];
    }
  }

  lemma RunFromLast(eq: LeafEq, d: MetricAlarmSpec, r: Remote, envs: seq<Env>, stale: seq<bool>)
    requires |stale| == |envs| && envs != []
    ensures var n := |envs| - 1;
            RunFrom(eq, d, r, envs, stale)
            == StepFrom(eq, d, RunFrom(eq, d, r, envs[..n], stale[..n]), envs[n], stale[n]).0
  {
  }

  lemma CreatesStep(eq: LeafEq, d: MetricAlarmSpec, r: Remote, env: Env, stale: bool)
    ensures StepFrom(eq, d, r, env, stale).0.alarm.Some? <==> r.alarm.Some? || Creates(d, env, stale)
  {
    hide Encode, Offences;
    if r.alarm.Some? {
      SyncedEnds(d, r, env);
    }
  }

  // From statuses that are all stale no run, of any length, creates the alarm or does
  // anything else.
  lemma {:induction false} StaleNeverCreates(
    eq: LeafEq, d: MetricAlarmSpec, r: Remote, envs: seq<Env>, stale: seq<bool>)
    requires |stale| == |envs| && r.alarm.None? && forall t | 0 <= t < |stale| :: stale[t]
    ensures RunFrom(eq, d, r, envs, stale) == r
  {
    if envs == [] {
    } else {
      StaleNeverCreates(eq, d, r, envs[..|envs| - 1], stale[..|envs| - 1]);
    }
  }

  /******* Convergence *******/

  // Comparing the spec with what is read back would give an empty delta.
  ghost predicate Settled(eq: LeafEq, d: MetricAlarmSpec, r: Remote) {
    && r.alarm.Some?
    && Target(d, r.alarm.value.tags) == r.alarm.value.tags
    && !AttributesDiffer(eq, d, r.alarm.value)
  }

  // The tags of an alarm are the target exactly if they have the user's tags with their
  // values, no other user keys, and the AWS keys of the spec.
  lemma TagsSettledExactly(d: MetricAlarmSpec, tags: TagMap)
    ensures Target(d, tags) == tags <==>
              && (forall k | k in MapOf(d.tags) :: k in tags && ("aws:" <= k || tags[k] == MapOf(d.tags)[k]))
              && (forall k | k in tags :: "aws:" <= k || k in MapOf(d.tags))
  {
    forall k {
      TargetMeans(d, tags, k);
    }
  }

  // For a spec that can be sent and comes back equal, the attributes of an alarm do not differ
  // exactly if they are those of its request: the same but for the name, which is not read
  // back, and for lists that compare equal.
  lemma StoredExactly(eq: LeafEq, d: MetricAlarmSpec, a: Alarm)
    requires LeafEquivalences(eq) && NormalForm(eq, d) && BuildResult(d).Ok?
    ensures !AttributesDiffer(eq, d, a) <==>
              var sent, stored := BuildResult(d).value.alarm, a.attrs;
              && stored == sent.(
                   alarmName := stored.alarmName, alarmActions := stored.alarmActions, okActions := stored.okActions,
                   insufficientDataActions := stored.insufficientDataActions, dimensions := stored.dimensions,
                   metrics := stored.metrics)
              && !ListsDisagree(eq.strings, d.alarmActions, DecodeStrings(stored.alarmActions))
              && !ListsDisagree(eq.strings, d.okActions, DecodeStrings(stored.okActions))
              && !ListsDisagree(eq.strings, d.insufficientDataActions, DecodeStrings(stored.insufficientDataActions))
              && !ListsDisagree(eq.dimensions, d.dimensions, Decode(d, stored).dimensions)
              && !ListsDisagree(eq.metrics, d.metrics, Decode(d, stored).metrics)
  {
    var sent, stored, s := BuildResult(d).value.alarm, a.attrs, Decode(d, a.attrs);
    BuildsExactly(d);
    RequestCarries(d);
    UnionsSent(d);
    AgreeExactly(eq, d, s);
    ObservedCarries(d, stored);
    NestedCarries(d, stored);
    SameNumber(sent.period, stored.period);
    SameNumber(sent.datapointsToAlarm, stored.datapointsToAlarm);
    SameNumber(sent.evaluationInterval, stored.evaluationInterval);
    SameNumber(sent.evaluationPeriods, stored.evaluationPeriods);
    StoredUnions(eq, d, stored);
  }

  lemma SameNumber(x: Option<int32>, y: Option<int32>)
    ensures Wide(x) == Wide(y) <==> x == y
  {
  }

  lemma StoredUnions(eq: LeafEq, d: MetricAlarmSpec, stored: SdkAlarm)
    requires NormalForm(eq, d) && BuildResult(d).Ok?
    ensures Decode(d, stored).evaluationCriteria == d.evaluationCriteria
            <==> stored.evaluationCriteria == Encode(d).evaluationCriteria
    ensures (forall w: WindowField :: !WindowsDisagree(d.evaluationWindow, Decode(d, stored).evaluationWindow, w))
            <==> stored.evaluationWindow == Encode(d).evaluationWindow
  {
    hide Encode, Decode;
    BuildsExactly(d);
    UnionsSent(d);
    NestedCarries(d, stored);
    var t := Decode(d, stored).evaluationWindow;
    assert (forall w: WindowField :: !WindowsDisagree(d.evaluationWindow, t, w)) <==>
             && !WindowsDisagree(d.evaluationWindow, t, WholeWindow)
             && !WindowsDisagree(d.evaluationWindow, t, SlidingWindow)
             && !WindowsDisagree(d.evaluationWindow, t, WallClock) && !WindowsDisagree(d.evaluationWindow, t, Timezone);
  }

  // The tags are those the attempt aims for.
  predicate TagsSettled(d: MetricAlarmSpec, r: Remote) {
    r.alarm.Some? ==> Target(d, r.alarm.value.tags) == r.alarm.value.tags
  }

  // After one successful attempt the next delta is empty, exactly if the spec is in normal
  // form or the attempt had nothing to put; and, when the alarm was put on the word UNKNOWN,
  // exactly if the spec is in normal form and an alarm that was there had its tags already.
  lemma SuccessSettlesExactly(eq: LeafEq, d: MetricAlarmSpec, r: Remote, env: Env)
    requires LeafEquivalences(eq) && Step(eq, d, r, env).1
    ensures Settled(eq, d, Step(eq, d, r, env).0) <==>
              if env.describe.FailedUnknown? then NormalForm(eq, d) && TagsSettled(d, r)
              else NormalForm(eq, d) || !NeedsPut(eq, d, r)
  {
    NewTagsAreTarget(d);
    if env.describe.FailedUnknown? || r.alarm.None? {
      PutStepNeeds(eq, d, r, env);
    } else {
      var r1 := Synced(d, r, env).0;
      SyncedNeeds(d, r, env);
      assert NeedsPut(eq, d, r1) == NeedsPut(eq, d, r);
      PutStepNeeds(eq, d, r1, env);
    }
  }

  // A spec with nothing but a name, and an alarm that has its attributes and one tag too many.
  const ONLY_A_NAME := EMPTY_STATISTIC.(statistic := None)

  function WithExtraTag(arn: string): Remote {
    Remote(Some(Alarm(Encode(ONLY_A_NAME), map["extra" := ""], arn)), Acks(0, 0, 0))
  }

  // On the word UNKNOWN the attempt puts it, succeeds, and leaves it unsettled; told of the
  // alarm, the same attempt settles it.
  lemma UnknownNeedNotSettle(eq: LeafEq, arn: string)
    requires LeafEquivalences(eq)
    ensures NormalForm(eq, ONLY_A_NAME)
    ensures var env := GoodEnv(arn).(describe := FailedUnknown);
            && Step(eq, ONLY_A_NAME, WithExtraTag(arn), env).1
            && !Settled(eq, ONLY_A_NAME, Step(eq, ONLY_A_NAME, WithExtraTag(arn), env).0)
    ensures Settled(eq, ONLY_A_NAME, Step(eq, ONLY_A_NAME, WithExtraTag(arn), GoodEnv(arn)).0)
  {
    var d, r := ONLY_A_NAME, WithExtraTag(arn);
    BuildsExactly(d);
    assert AWS_PREFIX[0] == 'a' && "extra"[0] == 'e';
    assert "extra" in r.alarm.value.tags && "extra" !in Target(d, r.alarm.value.tags);
    SuccessSettlesExactly(eq, d, r, GoodEnv(arn).(describe := FailedUnknown));
    GoodAttempt(eq, d, r, arn);
    SuccessSettlesExactly(eq, d, r, GoodEnv(arn));
  }

  // If no call is lost the attempt succeeds, unless the spec cannot be sent and has to be.
  lemma GoodAttempt(eq: LeafEq, d: MetricAlarmSpec, r: Remote, arn: string)
    ensures Step(eq, d, r, GoodEnv(arn)).1 <==> BuildResult(d).Ok? || !NeedsPut(eq, d, r)
  {
  }

  // A settled alarm is left alone by every attempt that is not told UNKNOWN. In any case it
  // stays settled, exactly unless a spec that does not come back equal is put on that word.
  lemma SettledIsFinal(eq: LeafEq, d: MetricAlarmSpec, r: Remote, env: Env)
    requires LeafEquivalences(eq) && Settled(eq, d, r)
    ensures !env.describe.FailedUnknown? ==> Step(eq, d, r, env).0 == r
    ensures Settled(eq, d, Step(eq, d, r, env).0)
            <==> Tame(eq, d) || !env.describe.FailedUnknown? || env.put.LostRequest?
  {
    PutStepNeeds(eq, d, r, env);
  }

  lemma {:induction false} SettledThroughout(eq: LeafEq, d: MetricAlarmSpec, r: Remote, envs: seq<Env>, i: nat)
    requires LeafEquivalences(eq) && Tame(eq, d)
    requires i <= |envs| && Settled(eq, d, Run(eq, d, r, envs[..i]))
    ensures Settled(eq, d, Run(eq, d, r, envs))
  {
    if i == |envs| {
      assert envs[..i] == envs;
    } else {
      var n := |envs| - 1;
      assert envs[..n][..i] == envs[..i];
      SettledThroughout(eq, d, r, envs[..n], i);
      SettledIsFinal(eq, d, Run(eq, d, r, envs[..n]), envs[n]);
    }
  }

  // One successful attempt anywhere in a run is enough, exactly unless it put an alarm on the
  // word UNKNOWN whose tags were not settled: from then on the remote alarm has the user's
  // tags next to its own AWS tags, and attributes that compare equal to the spec.
  lemma Convergence(eq: LeafEq, d: MetricAlarmSpec, r: Remote, envs: seq<Env>, i: nat)
    requires LeafEquivalences(eq) && NormalForm(eq, d)
    requires i < |envs| && Step(eq, d, Run(eq, d, r, envs[..i]), envs[i]).1
    ensures Settled(eq, d, Run(eq, d, r, envs[..i + 1]))
            <==> !envs[i].describe.FailedUnknown? || TagsSettled(d, Run(eq, d, r, envs[..i]))
    ensures Settled(eq, d, Run(eq, d, r, envs[..i + 1])) ==> Settled(eq, d, Run(eq, d, r, envs))
  {
    assert envs[..i + 1][..i] == envs[..i];
    SuccessSettlesExactly(eq, d, Run(eq, d, r, envs[..i]), envs[i]);
    assert Run(eq, d, r, envs[..i + 1]) == Step(eq, d, Run(eq, d, r, envs[..i]), envs[i]).0;
    if Settled(eq, d, Run(eq, d, r, envs[..i + 1])) {
      SettledThroughout(eq, d, r, envs, i + 1);
    }
  }

  /******* The disagreement never grows *******/

  function TagsOf(r: Remote): TagMap {
    if r.alarm.Some? then r.alarm.value.tags else map[]
  }

  // Keys on which target and remote disagree, plus one for attributes that differ.
  ghost function Disagreement(eq: LeafEq, d: MetricAlarmSpec, r: Remote): nat {
    var target := Target(d, TagsOf(r));
    |Adds(target, TagsOf(r)).Keys| + |Removes(target, TagsOf(r))| + One(NeedsPut(eq, d, r))
  }

  lemma FewerKeys(d: MetricAlarmSpec, r: Remote, r': Remote)
    requires Adds(Target(d, TagsOf(r')), TagsOf(r')).Keys <= Adds(Target(d, TagsOf(r)), TagsOf(r)).Keys
    requires Removes(Target(d, TagsOf(r')), TagsOf(r')) <= Removes(Target(d, TagsOf(r)), TagsOf(r))
    ensures |Adds(Target(d, TagsOf(r')), TagsOf(r')).Keys| <= |Adds(Target(d, TagsOf(r)), TagsOf(r)).Keys|
    ensures |Removes(Target(d, TagsOf(r')), TagsOf(r'))| <= |Removes(Target(d, TagsOf(r)), TagsOf(r))|
  {
    Smaller(Adds(Target(d, TagsOf(r')), TagsOf(r')).Keys, Adds(Target(d, TagsOf(r)), TagsOf(r)).Keys);
    Smaller(Removes(Target(d, TagsOf(r')), TagsOf(r')), Removes(Target(d, TagsOf(r)), TagsOf(r)));
  }

  lemma Smaller<T>(a: set<T>, b: set<T>)
    requires a <= b
    ensures |a| <= |b|
  {
    assert b == a + (b - a);
  }

  // An attempt raises the disagreement exactly when, on the word UNKNOWN, it puts a spec that
  // does not come back equal over attributes that did compare equal.
  lemma DisagreementRisesExactly(eq: LeafEq, d: MetricAlarmSpec, r: Remote, env: Env)
    requires LeafEquivalences(eq)
    ensures Disagreement(eq, d, Step(eq, d, r, env).0) > Disagreement(eq, d, r)
            <==> env.describe.FailedUnknown? && !env.put.LostRequest? && !Tame(eq, d) && !NeedsPut(eq, d, r)
  {
    if env.describe.FailedUnknown? || r.alarm.None? {
      PutRisesExactly(eq, d, r, env);
    } else if env.describe.Answered? && env.list {
      var r1 := Synced(d, r, env).0;
      SyncedShrinks(eq, d, r, env);
      PutRisesExactly(eq, d, r1, env);
    }
  }

  lemma SyncedShrinks(eq: LeafEq, d: MetricAlarmSpec, r: Remote, env: Env)
    requires r.alarm.Some?
    ensures Disagreement(eq, d, Synced(d, r, env).0) <= Disagreement(eq, d, r)
    ensures Synced(d, r, env).0.alarm.Some? && NeedsPut(eq, d, Synced(d, r, env).0) == NeedsPut(eq, d, r)
  {
    var r1 := Synced(d, r, env).0;
    SyncedEnds(d, r, env);
    OnTheWayShrinks(d, TagsOf(r), TagsOf(r1));
    FewerKeys(d, r, r1);
    assert NeedsPut(eq, d, r1) == NeedsPut(eq, d, r);
  }

  lemma PutRisesExactly(eq: LeafEq, d: MetricAlarmSpec, r: Remote, env: Env)
    requires LeafEquivalences(eq)
    ensures Disagreement(eq, d, PutStep(d, r, env).0) > Disagreement(eq, d, r)
            <==> !env.put.LostRequest? && !Tame(eq, d) && !NeedsPut(eq, d, r)
  {
    PutStepNeeds(eq, d, r, env);
    NewTagsAreTarget(d);
    FewerKeys(d, r, PutStep(d, r, env).0);
  }

  /******* AWS tags *******/

  // An attempt sends an AWS key exactly when the user's spec names one the alarm does not
  // have; it never asks for the removal of one.
  lemma AwsKeysSentExactly(d: MetricAlarmSpec, latest: TagMap)
    ensures (exists k :: k in Adds(Target(d, latest), latest) && "aws:" <= k)
            <==> (exists k :: k in MapOf(d.tags) && "aws:" <= k && k !in latest)
    ensures forall k | k in Removes(Target(d, latest), latest) :: !("aws:" <= k)
  {
    if k :| k in Adds(Target(d, latest), latest) && IsAws(k) {
      assert k in MapOf(d.tags) && k !in latest;
    }
    if k :| k in MapOf(d.tags) && IsAws(k) && k !in latest {
      assert k in Adds(Target(d, latest), latest);
    }
  }

  // The spec names no AWS key that the remote alarm does not have.
  ghost predicate NamesNoNewAwsKey(d: MetricAlarmSpec, latest: TagMap) {
    forall k | k in MapOf(d.tags) && IsAws(k) :: k in latest
  }

  lemma OnTheWayKeepsAws(d: MetricAlarmSpec, latest: TagMap, later: TagMap)
    requires NamesNoNewAwsKey(d, latest) && OnTheWay(d, latest, later)
    ensures AwsPart(later) == AwsPart(latest)
  {
    AwsKeysSentExactly(d, latest);
  }

  // Nothing is there yet and nothing can be put there.
  ghost predicate NeverCreated(d: MetricAlarmSpec, r: Remote) {
    r.alarm.None? && BuildResult(d).Err?
  }

  ghost predicate AwsSafe(d: MetricAlarmSpec, r: Remote) {
    NamesNoNewAwsKey(d, TagsOf(r)) || NeverCreated(d, r)
  }

  lemma AwsTagsSafeStep(eq: LeafEq, d: MetricAlarmSpec, r: Remote, env: Env)
    requires AwsSafe(d, r)
    ensures AwsPart(TagsOf(Step(eq, d, r, env).0)) == AwsPart(TagsOf(r))
    ensures AwsSafe(d, Step(eq, d, r, env).0)
    ensures r.alarm.Some? ==>
              Step(eq, d, r, env).0.alarm.Some? && Step(eq, d, r, env).0.alarm.value.arn == r.alarm.value.arn
  {
    hide Encode, Offences, UpdateStep;
    if env.describe.FailedUnknown? || r.alarm.None? {
      assert NamesNoNewAwsKey(d, map[]) ==> AwsPart(MapOf(d.tags)) == map[];
    } else if env.describe.Answered? && env.list {
      AwsTagsSafeUpdate(eq, d, r, env);
    }
  }

  lemma AwsTagsSafeUpdate(eq: LeafEq, d: MetricAlarmSpec, r: Remote, env: Env)
    requires r.alarm.Some? && NamesNoNewAwsKey(d, r.alarm.value.tags)
    ensures var r' := UpdateStep(eq, d, r, env).0;
            && r'.alarm.Some? && r'.alarm.value.arn == r.alarm.value.arn
            && AwsPart(r'.alarm.value.tags) == AwsPart(r.alarm.value.tags)
            && NamesNoNewAwsKey(d, r'.alarm.value.tags)
  {
    hide BuildResult, AttributesDiffer, Synced;
    var latest, r1 := r.alarm.value.tags, Synced(d, r, env).0;
    SyncedEnds(d, r, env);
    OnTheWayKeepsAws(d, latest, r1.alarm.value.tags);
    forall k | k in MapOf(d.tags) && IsAws(k) ensures k in r1.alarm.value.tags {
      assert k in AwsPart(latest);
    }
  }

  // Over a whole run, whatever the environment does, no AWS tag is added, changed or removed.
  lemma {:induction false} AwsTagsSafe(eq: LeafEq, d: MetricAlarmSpec, r: Remote, envs: seq<Env>)
    requires AwsSafe(d, r)
    ensures AwsPart(TagsOf(Run(eq, d, r, envs))) == AwsPart(TagsOf(r))
    ensures forall k: string | "aws:" <= k ::
              var before, after := TagsOf(r), TagsOf(Run(eq, d, r, envs));
              (k in after <==> k in before) && (k in before ==> after[k] == before[k])
    ensures AwsSafe(d, Run(eq, d, r, envs))
  {
    if envs == [] {
    } else {
      AwsTagsSafe(eq, d, r, envs[..|envs| - 1]);
      AwsTagsSafeStep(eq, d, Run(eq, d, r, envs[..|envs| - 1]), envs[|envs| - 1]);
    }
  }

  // No run touches an AWS tag, exactly if the spec names no AWS key that the alarm does not
  // have, or there is no alarm and the spec cannot create one.
  lemma AwsTagsSafeExactly(eq: LeafEq, d: MetricAlarmSpec, r: Remote)
    ensures (forall envs :: AwsPart(TagsOf(Run(eq, d, r, envs))) == AwsPart(TagsOf(r))) <==> AwsSafe(d, r)
  {
    if AwsSafe(d, r) {
      forall envs ensures AwsPart(TagsOf(Run(eq, d, r, envs))) == AwsPart(TagsOf(r)) {
        AwsTagsSafe(eq, d, r, envs);
      }
    } else {
      var k :| k in MapOf(d.tags) && IsAws(k) && k !in TagsOf(r);
      NewKeyIsSent(eq, d, r, k);
      assert k in AwsPart(TagsOf(Run(eq, d, r, [GoodEnv("")]))) && k !in AwsPart(TagsOf(r));
    }
  }

  lemma NewKeyIsSent(eq: LeafEq, d: MetricAlarmSpec, r: Remote, k: string)
    requires k in MapOf(d.tags) && (r.alarm.Some? || BuildResult(d).Ok?)
    ensures k in TagsOf(Run(eq, d, r, [GoodEnv("")]))
  {
    hide Encode, Offences;
    var env := GoodEnv("");
    assert [env][..0] == [];
    assert Run(eq, d, r, [env]) == Step(eq, d, r, env).0;
    if r.alarm.Some? {
      SyncedEnds(d, r, env);
      assert k in Target(d, r.alarm.value.tags);
    }
  }
}
