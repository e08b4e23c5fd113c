# Verified model of the CloudWatch controller's reconcile core

This project models the parts of the AWS CloudWatch controller for Kubernetes that decide
what is sent to AWS and what is written back to a custom resource, and proves what they
promise. `dafny verify dfyconfig.toml` checks all of it.

## What is modelled

- **Reconciling a MetricAlarm** (`Reconcile`, `Protocol`). `Reconcile` holds the code:
  `sdkFind`, `ReadOne`, `Create`, `sdkUpdate`, `Update` and `syncTags`, as methods on heap
  objects, against a remote alarm whose every call may be acknowledged, lost, or take effect
  with its reply lost. `Protocol` is the same thing as a state machine on the remote alarm.
  `Reconcile.Attempts` proves that any number of attempts of the code is a run of the state
  machine; `Protocol` proves what holds over all runs: a bound on acknowledged calls,
  convergence, safety of `aws:` tags.
- **Building, reading and comparing specs** (`AlarmTypes`, `Payload`, `Observe`, `Delta`,
  `RoundTrip`). The request a spec is turned into, with its int32 checks and unions; the spec
  a response is turned into; the comparison of two specs; and for which specs the three fit
  together.
- **The tag pipeline** (`Tags`, `TagPipeline`). Lists of tags with nil keys, nil values and
  duplicates, maps that are deleted from, and iteration in any order.
- **Conditions** (`Conditions`, `Resources`). `updateConditions`, `onError` and `onSuccess` on
  objects reached through pointers, and what any history of outcomes leaves behind. The
  metric_alarm and the dashboard version have the same text up to the set of AWS error codes
  that are terminal, which is a parameter here.
- **References of a MetricStream** (`References`) and its request and read-back
  (`MetricStream`).
- **The manager cache** (`ManagerCache`): the method, and its steps under every interleaving.
- **Deep copy** (`DeepCopy`): the spec as a graph of objects.

## Findings

- *Specs that are put for ever.* A spec that can be sent but does not come back equal is put
  again on every attempt. `RoundTrip.RoundTripExact` says exactly which specs those are: an
  empty string for an enum (comparison operator, statistic, unit), an evaluation criteria or
  window without a member, nil action strings or empty units in a metric query where list
  equality tells them apart, and a NaN threshold, which a resource read from JSON cannot hold.
  `Protocol.EMPTY_STATISTIC` is such a spec (`Protocol.EmptyStatisticIsPutForever`), and
  `Protocol.BoundedExactly` shows that for all others, and only those, the number of puts is
  bounded.
- *UNKNOWN.* `sdkFind` takes the error code `UNKNOWN` of DescribeAlarms for "not found", so a
  spec that can be sent is put again, whether the alarm exists or not
  (`Protocol.UnknownCostsPuts`). A run with n such answers can make n + 1 puts and, if the spec
  comes back equal, no more (`Protocol.BoundIsReached`, `Protocol.BoundedWork`), and at most one
  put is certain exactly if there are none (`Protocol.PutsBoundedExactly`). Such a put leaves
  the tags of an alarm that exists as they are, so it need not settle the alarm
  (`Protocol.SuccessSettlesExactly`, with an instance in `Protocol.UnknownNeedNotSettle`).
- *A stale Terminal condition hides that an alarm is missing.* `updateConditions` rewrites only
  the last condition of a kind, `onError` looks at all of them. With a True Terminal condition
  in front of another one, "not found" becomes "terminal" and the alarm is not created
  (`Reconcile.Attempt`, with `Conditions.STALE_EXAMPLE` in `Reconcile.StaleHidesMissing`). No
  outcome makes a condition stale or mends it (`Conditions.StaleForEver`), so unless something
  else does, no run ever creates the alarm (`Protocol.StaleNeverCreates`,
  `Protocol.CreatedExactly`, `Reconcile.Attempts`).
- *More than one manager per key.* The factory looks up under one lock and stores under another
  without a second look, so calls for one key can race
  (`ManagerCache.RacingMissesBothCreate`). `ManagerCache.OneManagerExactly` says for which calls
  they cannot, `ManagerCache.MakesExactly` which call of a run makes a manager.
- *`ResolveReferences` does not return a copy.* Its comment says it does; the code writes the
  ARNs into the object it is given and returns that object. The model follows the code;
  `References.ChangesExactly` says when the argument changes. It also notices an invalid spec
  first but reports it last, after the ARNs have been written
  (`References.RefusedAfterWriting`).
- *A reference without a `from`* passes validation and resolving, and leaves its ARN nil
  (`References.ResolvedExactly`, with an instance in `References.NamesNothingPasses`).
- *Tag drift of a MetricStream is never seen*, because its tags are not read back
  (`MetricStream.TagDriftIsNeverSeen`).
- *Slashes.* The cache key joins account, region and role with slashes; account and region do
  not contain any, and that is what makes the key unambiguous (`ManagerCache.ReturnsExactly`,
  `ManagerCache.SlashesCollide`).

## Assumptions

- The runtime's loop is not in this repository. One attempt is: ReadOne; if the error is
  NotFound, Create; otherwise compare desired and latest, and Update if the delta is not
  empty. Every attempt starts from the spec in the cluster and from the status the attempt
  before left there, to which the runtime may do anything.
  The object compared and passed to Update is the one ReadOne mirrored the AWS tags into.
- The remote alarm stores the request as sent and adds no defaults; a response may swap nil and
  empty top-level lists. It answers for the name it was put under and for no other. Only the
  controller writes to it.
- `HasNilDifference` means that exactly one side is nil; `MapStringStringEqual` is equality of
  maps; `DifferentAt` and `DifferentExcept` test path prefixes; `Merge` lets its first argument
  win. `SliceStringPEqual` and semantic `DeepEqual` are arbitrary equivalence relations.
- List elements are not nil pointers (`DeepCopy` allows them), resources are not nil, and the
  name of an alarm, which the source dereferences, is set.
- `sync.RWMutex` lets no call in once a writer has announced itself. After Unlock the model
  lets waiting readers and the next writer in in either order, which covers what Go does.
- Go 1.22 or later: a loop variable is a new variable in every iteration.
- Tag lists are read by length and by range only, so nil and empty ones are not told apart
  outside `DeepCopy`.
- Message texts stand for themselves or are left out; what counts is the kind of an error and
  its AWS code.

## Model

| member | source | states |
|---|---|---|
| Reconcile.Attempts | pkg/resource/metric_alarm/manager.go:97-167 | Any number of attempts from any status, each from what the one before and the runtime left and with calls failing before or after they take effect, moves the remote alarm as a run of the state machine with the stale statuses marked; without them that is the plain run. The last status shows Terminal True exactly when the last attempt reached the build and both window members stopped it, and otherwise Recoverable True exactly when it failed; with nothing added in between its conditions are those of the whole history |
| Reconcile.Attempt | pkg/resource/metric_alarm/manager.go:97-167 | One read, then create or update, changes the remote alarm and succeeds or fails exactly as one protocol step from a status that is or is not stale, and its outcomes are worked into the conditions; from a stale one a missing alarm is left missing |
| Reconcile.ReadOne | pkg/resource/metric_alarm/manager.go:97-115 | The result observes the stored alarm and its tags in any order and has the conditions of the outcome, the given resource keeps everything but gains the AWS tags, and NotFound comes out exactly for a missing alarm and no stale Terminal condition |
| Reconcile.SdkFind | pkg/resource/metric_alarm/sdk.go:58-360 | Asks for the name of the spec and finds the alarm exactly when both calls answer; the result has its ARN, the default metadata, its attributes read back and its tags; UNKNOWN and an empty answer are NotFound; nothing is modified |
| Reconcile.Create | pkg/resource/metric_alarm/manager.go:120-137 | One put of the spec, or none when it cannot be sent; the returned resource has the conditions of the outcome: success, the fault of the spec, or the error of the call |
| Reconcile.SdkUpdate | pkg/resource/metric_alarm/sdk.go:683-721 | Syncs the tags exactly when they differ as maps, puts exactly when anything else differs and the sync got through, returns desired itself after a tag-only change and a copy of it after a put; fails with the fault of the spec exactly when it gets to building and that fails |
| Reconcile.SyncTags | pkg/resource/metric_alarm/hooks.go:29-98 | Sends the diff of the two lists in two ordered calls, nothing when they denote the same map, and fails without a call when the ARN is missing |
| Reconcile.DiffTags | pkg/resource/metric_alarm/hooks.go:51-63 | For every iteration order the additions are one tag per key that is new or changed and the removals are the other keys, each once |
| Reconcile.DeltaAgreesWithSync | pkg/resource/metric_alarm/delta.go:219-223 | The delta names the tags exactly when syncTags on the same lists has something to send, for lists with duplicates, nil keys and nil values |
| Reconcile.AppliedIsUpdateStep | pkg/resource/metric_alarm/manager.go:147-167 | Updating the mirrored spec against what was observed is the protocol's update of the user's spec against what is stored |
| Reconcile.SettledMeansEmptyDelta | pkg/resource/metric_alarm/delta.go:34-254 | The real delta after a read is empty exactly when the stored alarm is settled |
| Reconcile.OnlyTwoMembersAreTerminal | pkg/resource/metric_alarm/sdk.go:1058-1101 | A spec that cannot be sent leaves a True Terminal condition exactly for the union conflict, and a True Recoverable one otherwise |
| Reconcile.OnlyStaleIsTerminal | pkg/resource/metric_alarm/manager.go:386-406 | After an error that is not terminal onError answers "terminal" exactly if a stale condition is there |
| Reconcile.StaleHidesMissing | pkg/resource/metric_alarm/manager.go:394-404 | A True Terminal condition followed by a False one turns "not found" into "terminal" |
| Protocol.BoundedWork | pkg/resource/metric_alarm/sdk.go:683-721 | Over any run with any losses at most one TagResource and one UntagResource are acknowledged, and, for a spec that comes back equal or cannot be sent, at most one put more than there were UNKNOWN answers |
| Protocol.RunFromIsRun | pkg/resource/metric_alarm/manager.go:386-406 | A run through stale statuses is a plain run in an environment whose reads fail more often, so every result on runs holds of it |
| Protocol.BoundedWorkFrom | pkg/resource/metric_alarm/manager.go:386-406 | The bounds on acknowledged calls hold through stale statuses, and if all are stale at most one put of a spec that comes back equal or cannot be sent is acknowledged |
| Protocol.CreatedExactly | pkg/resource/metric_alarm/manager.go:394-404 | A missing alarm is there after a run exactly if in some attempt from a status that is not stale a put of a spec that can be sent took effect |
| Protocol.StaleNeverCreates | pkg/resource/metric_alarm/manager.go:394-404 | From stale statuses no run of any length creates a missing alarm or sends anything |
| Protocol.BoundedExactly | pkg/resource/metric_alarm/sdk.go:694-720 | The bound on puts holds over all runs from all states exactly for specs that come back equal or cannot be sent |
| Protocol.PutsForever | pkg/resource/metric_alarm/sdk.go:699-720 | Every other spec is put once per attempt, for ever, with no call failing |
| Protocol.EmptyStatisticIsPutForever | pkg/resource/metric_alarm/sdk.go:309-313 | A spec with an empty statistic and a name is such a spec, whatever the list equalities are |
| Protocol.UnknownCostsPuts | pkg/resource/metric_alarm/sdk.go:83-87 | For a spec that can be sent, after any run each of n UNKNOWN answers costs one more put, of an alarm that exists as of one that does not |
| Protocol.BoundIsReached | pkg/resource/metric_alarm/sdk.go:83-87 | For a spec that can be sent one creating attempt and n UNKNOWN answers make n + 1 puts |
| Protocol.PutsBoundedExactly | pkg/resource/metric_alarm/sdk.go:683-721 | No run with at most n UNKNOWN answers makes more than b puts, from anywhere, exactly if the spec cannot be sent, or comes back equal and n < b |
| Protocol.Convergence | pkg/resource/metric_alarm/sdk.go:683-721 | For a spec in normal form one successful attempt anywhere in a run settles the alarm, exactly unless it put an alarm with unsettled tags on the word UNKNOWN; a settled alarm stays settled to the end of the run |
| Protocol.SuccessSettlesExactly | pkg/resource/metric_alarm/sdk.go:694-720 | After any successful attempt the next delta is empty exactly if the spec is in normal form or nothing had to be put; after one on the word UNKNOWN exactly if the spec is in normal form and an existing alarm had its tags already |
| Protocol.UnknownNeedNotSettle | pkg/resource/metric_alarm/sdk.go:83-87 | A spec with nothing but a name and an alarm with one tag too many: the put on the word UNKNOWN succeeds and leaves the alarm unsettled |
| Protocol.GoodAttempt | pkg/resource/metric_alarm/sdk.go:683-721 | With no call lost an attempt succeeds exactly when the spec can be sent or does not have to be |
| Protocol.SettledIsFinal | pkg/resource/metric_alarm/sdk.go:683-721 | A settled alarm is left as it is by every attempt that is not told UNKNOWN, and stays settled exactly unless, on that word, a spec that does not come back equal is put |
| Protocol.DisagreementRisesExactly | pkg/resource/metric_alarm/hooks.go:29-98 | Disagreeing tag keys plus a pending attribute difference increase exactly when, on the word UNKNOWN, a spec that does not come back equal is put over attributes that did; never for a spec that does |
| Protocol.AwsTagsSafe | pkg/resource/metric_alarm/manager.go:345-357 | If the user's spec names no `aws:` key that the alarm does not have, no run adds, changes or removes a remote `aws:` tag |
| Protocol.AwsTagsSafeExactly | pkg/resource/metric_alarm/manager.go:345-357 | All runs leave the `aws:` tags alone exactly then, or if there is no alarm and the spec cannot create one |
| Protocol.AwsKeysSentExactly | pkg/resource/metric_alarm/hooks.go:51-63 | An `aws:` key is sent exactly when the user's spec names one the alarm does not have, and never in a removal |
| Protocol.SyncExact | pkg/resource/metric_alarm/hooks.go:51-95 | Additions and removals are disjoint and turn latest into desired; between the calls every key has its latest or its desired value and no shared key is missing |
| Protocol.SyncMinimal | pkg/resource/metric_alarm/hooks.go:51-63 | Any pair of calls with that effect sends at least these additions and removals |
| Protocol.NothingToSend | pkg/resource/metric_alarm/hooks.go:65-67 | Nothing is sent exactly when the two maps are equal |
| Protocol.TargetIsStable | pkg/resource/metric_alarm/manager.go:345-357 | After a half-finished sync the next attempt has the same target, no additions and the same removals |
| Protocol.TargetMeans | pkg/resource/metric_alarm/manager.go:345-357 | The target of an attempt has the keys of the spec and the `aws:` keys that were read, the latter with the values read |
| Protocol.SyncedExactly | pkg/resource/metric_alarm/hooks.go:65-95 | Tags and acknowledged calls after a sync, for every fate of the two calls: the additions go first, the removals only once they are acknowledged, each only if it is needed |
| Protocol.UpdateExactly | pkg/resource/metric_alarm/sdk.go:694-720 | Attributes, tags, calls and success of an update: the put comes last, only after the sync got through and only if anything but the tags differs, and changes nothing but the attributes |
| Protocol.CreateExactly | pkg/resource/metric_alarm/manager.go:97-137 | A missing alarm is put with the tags of the spec, an existing one said to be UNKNOWN keeps its tags and ARN, and without a complete read nothing happens |
| Protocol.TagsSettledExactly | pkg/resource/metric_alarm/manager.go:345-357 | The tags of an alarm need nothing exactly if they hold the tags of the spec, `aws:` values aside, and no other key that does not start with `aws:` |
| Protocol.StoredExactly | pkg/resource/metric_alarm/delta.go:34-254 | For a spec that comes back equal, the attributes stored do not differ exactly if they are those of its request as one record, up to the name and to lists that compare equal |
| Payload.NewRequestPayload | pkg/resource/metric_alarm/sdk.go:428-679 | The loops and early returns of the create payload build exactly the request the spec stands for, or fail with the first offence in field order |
| Payload.BuildsExactly | pkg/resource/metric_alarm/sdk.go:725-977 | A request is built exactly when every number, the two periods of each query included, fits int32 and the window has at most one member |
| Payload.FailsForGoodExactly | pkg/resource/metric_alarm/sdk.go:449-550 | The error is terminal exactly when no number before the window overflows and both window members are set; every other error is an overflow |
| Payload.NarrowExact | pkg/resource/metric_alarm/sdk.go:449-455 | The narrowing conversion keeps a number exactly when the range check lets it through |
| Payload.RequestCarries | pkg/resource/metric_alarm/sdk.go:428-679 | A request that is built carries the spec field by field, name included: texts as they are, enums with nil as empty, numbers unchanged, lists and tags |
| Payload.UnionsSent | pkg/resource/metric_alarm/sdk.go:474-550 | Which member of each union is sent and what it holds, and when none is |
| Payload.StringsSent | pkg/resource/metric_alarm/sdk.go:437-439 | A list of strings is sent element by element, nil elements as empty strings and a nil list as nil |
| Payload.DimensionsSent | pkg/resource/metric_alarm/sdk.go:457-470 | Dimensions are sent element by element, names and values as they are |
| Payload.QuerySent | pkg/resource/metric_alarm/sdk.go:561-633 | A metric query is sent field by field down to the dimensions of its metric |
| Payload.FirstOffenceExactly | pkg/resource/metric_alarm/sdk.go:449-647 | Which error comes out of a spec that cannot be sent: the first number that does not fit in a fixed order of fields, or the union conflict in its place |
| Observe.ReadAlarm | pkg/resource/metric_alarm/sdk.go:96-336 | A response element overwrites every field of the copy but name and tags, nil fields included |
| Observe.ObservedCarries | pkg/resource/metric_alarm/sdk.go:96-336 | The spec read back field by field: name and tags of the copy, everything else from the response, empty enums as nil |
| Observe.NestedCarries | pkg/resource/metric_alarm/sdk.go:130-292 | Dimensions and queries are read element by element; each union member gives its struct, an unknown one an empty struct |
| Observe.QueryRead | pkg/resource/metric_alarm/sdk.go:226-292 | A metric query is read field by field down to the dimensions of its metric |
| Delta.NewResourceDelta | pkg/resource/metric_alarm/delta.go:34-254 | A field is reported exactly when it disagrees |
| Delta.AgreeExactly | pkg/resource/metric_alarm/delta.go:34-254 | The delta names nothing but tags exactly if the two specs are one record, the threshold is not NaN, the lists agree as lists and the windows have the same members; it is empty exactly if the tag maps are equal as well |
| Delta.TextFieldsMean | pkg/resource/metric_alarm/delta.go:59-250 | Each text field is reported under its own path exactly if the two pointers are not nil alike and equal |
| Delta.NumberFieldsMean | pkg/resource/metric_alarm/delta.go:45-230 | The same for each number, for ActionsEnabled and, up to NaN, for the threshold |
| Delta.ListsMean | pkg/resource/metric_alarm/delta.go:52-58 | Lists agree exactly if both are nil or empty, or of equal length and equal under the given comparison |
| Delta.ListFieldsMean | pkg/resource/metric_alarm/delta.go:52-223 | Each list field is reported under its own path exactly if the lists do not agree, the tags exactly if their maps differ |
| Delta.CriteriaFieldsMean | pkg/resource/metric_alarm/delta.go:94-122 | Each path below the evaluation criteria is reported exactly if both sides have its parent and differ there |
| Delta.WindowFieldsMean | pkg/resource/metric_alarm/delta.go:137-155 | The same below the evaluation window; the contents of a sliding window are not compared |
| Delta.UpdateQuestions | pkg/resource/metric_alarm/sdk.go:694-701 | The two path questions sdkUpdate asks are: do the tag maps differ, does any other field disagree |
| Delta.ReflexiveExactly | pkg/resource/metric_alarm/delta.go:34-254 | A spec differs from itself exactly when its threshold is NaN, and then only there |
| Delta.Symmetric | pkg/resource/metric_alarm/delta.go:34-254 | Both directions report the same fields |
| Delta.Transitive | pkg/resource/metric_alarm/delta.go:34-254 | No difference twice is no difference, although fields below a nil struct are not compared |
| RoundTrip.RoundTripExact | pkg/resource/metric_alarm/delta.go:34-254 | What is sent and read back compares equal exactly for specs in normal form |
| RoundTrip.FieldRoundTrip | pkg/resource/metric_alarm/sdk.go:96-336 | Field by field, what is sent and read back disagrees exactly where the spec's field does not survive; contents of a sliding window do not count |
| RoundTrip.PlainSpecsAreNormal | pkg/resource/metric_alarm/sdk.go:428-679 | Filled-in enums, action strings that are not nil and one member per union are enough for normal form |
| RoundTrip.EmptyListsDoNotMatter | pkg/resource/metric_alarm/delta.go:52-58 | A response that swaps nil and empty lists is compared the same |
| TagPipeline.ConvertToOrderedAckTags | pkg/resource/metric_alarm/tags.go:36-55 | Returns the map the list denotes, last value winning, and its keys in list order |
| TagPipeline.FromAckTags | pkg/resource/metric_alarm/tags.go:61-78 | One tag per map entry, ordered keys first by first occurrence, for any order, repetitions and unknown keys; the map keeps exactly the keys outside the order |
| TagPipeline.IgnoreSystemTags | pkg/resource/metric_alarm/tags.go:85-92 | Deletes exactly the system keys while the map is walked in any order |
| TagPipeline.SyncAwsTags | pkg/resource/metric_alarm/tags.go:113-119 | Writes exactly the `aws:` entries of the second map into the first |
| TagPipeline.ThereAndBack | pkg/resource/metric_alarm/tags.go:36-78 | The two conversions, one after the other, make of a list its normal form, in every iteration order |
| TagPipeline.Normalises | pkg/resource/metric_alarm/tags.go:36-78 | That normal form keeps the map, gives each key once in first-occurrence order, and differs from the list exactly when that is not canonical |
| TagPipeline.NormalisesInOrder | pkg/resource/metric_alarm/tags.go:36-78 | Its keys come in the order in which the list names them first |
| TagPipeline.EnsureTags | pkg/resource/metric_alarm/manager.go:284-301 | Only the tags change; they hold the defaults overlaid by the existing tags, the existing keys first and in order |
| TagPipeline.EnsureKeepsExisting | pkg/resource/metric_alarm/manager.go:277-283 | Existing tags stay as a prefix with their values, and exactly the missing defaults are added |
| TagPipeline.EnsureTwice | pkg/resource/metric_alarm/manager.go:284-301 | A second time with the same defaults changes nothing, in any iteration order |
| TagPipeline.FilterSystemTags | pkg/resource/metric_alarm/manager.go:322-332 | Only the tags change, to one determined list in every iteration order |
| TagPipeline.FilterMeaning | pkg/resource/metric_alarm/manager.go:303-332 | That list has exactly the keys that neither start with `aws:` nor are configured as system tags, with their values, each once, and filtering is idempotent |
| TagPipeline.FilterInOrder | pkg/resource/metric_alarm/manager.go:303-332 | Those tags come in the order in which the list names their keys first |
| TagPipeline.MirrorAwsTags | pkg/resource/metric_alarm/manager.go:345-357 | Only the tags of the first resource change, to its own overlaid with the `aws:` tags of the second |
| TagPipeline.MirrorMeaning | pkg/resource/metric_alarm/manager.go:345-357 | The new list has the old keys in front and the other resource's keys that start with `aws:`, the latter with the other resource's values |
| TagPipeline.MirrorThenFilter | pkg/resource/metric_alarm/manager.go:322-357 | Mirroring from any resource first makes no difference to filtering |
| Tags.MapOfMeaning | pkg/resource/metric_alarm/tags.go:36-55 | A key is in the map exactly if some tag has it, and its value is that of the last such tag |
| Conditions.TerminalFollowsLastOutcome | pkg/resource/metric_alarm/sdk.go:1058-1080 | After any history Terminal is True with its text exactly if the last outcome was terminal, otherwise False, or absent exactly if it never was there and never raised |
| Conditions.RecoverableFollowsLastNonTerminal | pkg/resource/metric_alarm/sdk.go:1081-1101 | Recoverable reports the last outcome that was not terminal: True with its text after a failure, after a success False or, if it never was there and never raised, absent; terminal outcomes leave it alone |
| Conditions.HistoryGrows | pkg/resource/dashboard/sdk.go:343-416 | Over a whole history only status and message of the last Terminal and the last Recoverable are rewritten, everything else and the order stay, and at most one of each is added |
| Conditions.HistoryKeeps | pkg/resource/metric_alarm/sdk.go:1040-1101 | Condition by condition: place, kind, reason and transition time stay, only the last Terminal and the last Recoverable change, and what is appended is one of these two kinds, new to the list |
| Conditions.NoDuplicates | pkg/resource/dashboard/sdk.go:343-416 | No history adds a second condition of a kind |
| Conditions.AnyTerminalExactly | pkg/resource/metric_alarm/manager.go:386-406 | onError finds a True Terminal condition exactly if the last outcome was terminal or a stale duplicate was there from the start |
| Conditions.PresentExactly | pkg/resource/metric_alarm/sdk.go:1058-1101 | A condition of a kind is there exactly if it was there before or an outcome raised it |
| Conditions.StaleForEver | pkg/resource/metric_alarm/sdk.go:1040-1057 | A history leaves a stale Terminal condition exactly if there was one |
| Conditions.InvalidParameterByResource | pkg/resource/dashboard/sdk.go:421-437 | The same AWS error ends every history of a dashboard in a True Terminal condition and of a metric alarm in a True Recoverable one |
| Conditions.TerminalExactly | pkg/resource/dashboard/sdk.go:370-437 | Which errors are terminal: the three kinds of the runtime for both resources, two AWS codes for a dashboard, none for a metric alarm |
| Conditions.MessageExactly | pkg/resource/metric_alarm/sdk.go:1059-1098 | After any history that ends in a failure, which condition carries it and whether the error or the AWS error in it gives the message |
| Conditions.TrackedExactly | pkg/resource/metric_alarm/sdk.go:1043-1053 | An update is reported for a list with a Terminal, Recoverable or ResourceSynced condition |
| Resources.UpdateConditions | pkg/resource/metric_alarm/sdk.go:1035-1108 | Works the outcome into a new resource that shares no condition and no metadata object with the given one, which is not changed; reports an update exactly if it holds a tracked condition |
| Resources.OnError | pkg/resource/metric_alarm/manager.go:386-406 | Returns the updated copy and the terminal error exactly when a Terminal condition is True in it |
| Resources.OnSuccess | pkg/resource/metric_alarm/manager.go:410-421 | Returns the resource itself exactly when it has no tracked condition, a copy with the outcome worked in otherwise |
| Resources.Resource.DeepCopy | apis/v1alpha1/zz_generated.deepcopy.go:1110-1130 | The status copy has the same structure, nil-ness kept, and no object of the original |
| Resources.Resource.SetStatusDefaults | pkg/resource/metric_alarm/sdk.go:1013-1031 | Fills in exactly the missing metadata fields and a missing condition list |
| References.ResolveReferences | pkg/resource/metric_stream/references.go:67-89 | Writes into the object it is given and returns it; spec and error are those of the resolution, and the flag tells whether some reference names a resource |
| References.GetReferencedResourceState | pkg/resource/metric_stream/references.go:149-197 | Answers the resource exactly if it can be read, shows no True Terminal condition, shows Synced and has an ARN, otherwise the first of these that fails |
| References.FetchFailsExactly | pkg/resource/metric_stream/references.go:149-197 | Each failure exactly: not read; read with a True Terminal condition, whatever else it shows; else without a True Synced one; else without an ARN |
| References.TargetFailsExactly | pkg/resource/metric_stream/references.go:115-143 | Each failure of a reference exactly: no name or an empty one, a refused namespace, or that of the resource named; otherwise its ARN |
| References.FlagExactly | pkg/resource/metric_stream/references.go:67-89 | The flag gathered from the two fields is true exactly if some reference names a resource, on success and on every failure |
| References.ResolvedExactly | pkg/resource/metric_stream/references.go:115-143 | On success only ARNs of references that name a resource have changed, each taken from a synced, non-terminal resource; an ARN is missing exactly if its reference names nothing |
| References.SucceedsExactly | pkg/resource/metric_stream/references.go:67-109 | Resolving succeeds exactly when the spec is sound and every named resource is usable |
| References.ErrorExactly | pkg/resource/metric_stream/references.go:67-89 | Which error comes out: of the firehose reference, else of the role reference, else the fault of the spec |
| References.FaultExactly | pkg/resource/metric_stream/references.go:93-109 | Each fault exactly: a field in both forms or in none, the firehose first |
| References.WritesExactly | pkg/resource/metric_stream/references.go:67-89 | On success and on every failure exactly the ARNs of references that name a usable resource are written, the role's only if the firehose did not fail first |
| References.ChangesExactly | pkg/resource/metric_stream/references.go:67-89 | The argument is changed exactly if a written ARN is new; after a success exactly if some reference names a resource |
| References.NamesNothingPasses | pkg/resource/metric_stream/references.go:93-143 | A firehose reference without a from, next to a role ARN, passes in every cluster and its ARN stays nil |
| References.RefusedAfterWriting | pkg/resource/metric_stream/references.go:75-88 | A field with both forms is refused, after its ARN was overwritten |
| References.ClearResolvedReferences | pkg/resource/metric_stream/references.go:46-58 | Returns a new object without the ARNs that have a reference and leaves its argument alone |
| References.ClearUndoesResolve | pkg/resource/metric_stream/references.go:46-109 | Clearing restores the spec after any outcome, also a half-finished one, exactly if no field came in both forms |
| References.ResolveAgain | pkg/resource/metric_stream/references.go:67-89 | Resolving what was cleared gives the same outcome again |
| References.ClearIsNeeded | pkg/resource/metric_stream/references.go:93-109 | Without clearing, a resolved spec is refused the next time |
| MetricStream.NewStreamPayload | pkg/resource/metric_stream/sdk.go:268-358 | The nested loops build exactly the request the spec stands for; the update payload has the same text |
| MetricStream.StreamRequestCarries | pkg/resource/metric_stream/sdk.go:268-358 | The request carries the spec field by field, a nil output format as empty |
| MetricStream.ConfigurationsSent | pkg/resource/metric_stream/sdk.go:317-341 | Statistics configurations are sent element by element, nil lists as nil |
| MetricStream.FiltersSent | pkg/resource/metric_stream/sdk.go:274-304 | The same for filters |
| MetricStream.ReadStream | pkg/resource/metric_stream/sdk.go:89-186 | A response overwrites every field of the copy but references and tags |
| MetricStream.StreamObservedCarries | pkg/resource/metric_stream/sdk.go:89-186 | The spec read back field by field: references and tags of the copy, everything else from the response |
| MetricStream.ConfigurationsRead | pkg/resource/metric_stream/sdk.go:157-186 | Statistics configurations are read element by element, nil lists as nil |
| MetricStream.FiltersRead | pkg/resource/metric_stream/sdk.go:100-136 | The same for filters |
| MetricStream.NewStreamDelta | pkg/resource/metric_stream/delta.go:34-114 | A field is reported exactly when it disagrees, the tags as maps built by the tag conversion |
| MetricStream.StreamFieldsMean | pkg/resource/metric_stream/delta.go:43-112 | What each of the eleven fields compares |
| MetricStream.StreamsAgreeExactly | pkg/resource/metric_stream/delta.go:43-112 | The delta is empty exactly if the two specs are one record up to lists and references that agree and tags with equal maps |
| MetricStream.StreamRoundTripExact | pkg/resource/metric_stream/delta.go:34-114 | What is sent and read back compares equal exactly for specs in normal form |
| MetricStream.ReadStreamAndMirror | pkg/resource/metric_stream/manager.go:97-115 | What ReadOne compares: the answer written over a copy, and the desired tags overlaid with the AWS tags of that copy |
| MetricStream.TagDriftIsNeverSeen | pkg/resource/metric_stream/sdk.go:89-186 | Two stored streams that differ in nothing but their tags give the same delta, and it never names the tags |
| ManagerCache.ManagerFactory.ManagerFor | pkg/resource/metric_alarm/manager_factory.go:48-79 | Alone, returns the cached manager and changes nothing, or makes one for account and region and stores it under the key |
| ManagerCache.ManagerForIsAlone | pkg/resource/metric_alarm/manager_factory.go:48-79 | The method on the heap cache does what the value-level call does on the state that stands for it |
| ManagerCache.EightTurns | pkg/resource/metric_alarm/manager_factory.go:48-79 | The interleaved steps, undisturbed, are that value-level call |
| ManagerCache.Invariants | pkg/resource/metric_alarm/manager_factory.go:62-78 | In every interleaving nobody is inside the lock with a writer, and every manager in the cache or in a caller's hand was made for a request with that key |
| ManagerCache.NobodyBesideTheWriter | pkg/resource/metric_alarm/manager_factory.go:62-78 | In every interleaving, while one call is between Lock and Unlock, no other call is, and none is between RLock and RUnlock |
| ManagerCache.ReturnsExactly | pkg/resource/metric_alarm/manager_factory.go:48-79 | All calls in all interleavings get a manager for their own account and region exactly if no two different pairs share a key |
| ManagerCache.SlashFreeCallsAreRight | pkg/resource/metric_alarm/manager_factory.go:58-61 | So they do whenever accounts and regions contain no slash |
| ManagerCache.KeyInjective | pkg/resource/metric_alarm/manager_factory.go:61 | Without slashes in account and region the key determines account, region and role |
| ManagerCache.SlashesCollide | pkg/resource/metric_alarm/manager_factory.go:61 | Two requests with slashes that share a key, one of which gets the other's manager |
| ManagerCache.KeysNeverLost | pkg/resource/metric_alarm/manager_factory.go:77 | No step removes a key from the cache |
| ManagerCache.FoundAfterStore | pkg/resource/metric_alarm/manager_factory.go:62-68 | A call that looks up after its key was stored never makes a manager |
| ManagerCache.RacingMissesBothCreate | pkg/resource/metric_alarm/manager_factory.go:62-78 | Among any calls, any two for one key can both miss, both make a manager and return different ones, the later store replacing the earlier |
| ManagerCache.OneManagerExactly | pkg/resource/metric_alarm/manager_factory.go:58-61 | Calls for one key hold the same manager in all interleavings exactly if no two calls share a key |
| ManagerCache.MakesExactly | pkg/resource/metric_alarm/manager_factory.go:62-78 | A call that has returned made its manager exactly if no call had stored one for the key when it looked up; otherwise it returns the one that was in the cache |
| ManagerCache.NoDeadlock | pkg/resource/metric_alarm/manager_factory.go:62-71 | In every interleaving, while a call has not returned, some call is not blocked |
| ManagerCache.EffectiveTurns | pkg/resource/metric_alarm/manager_factory.go:62-78 | No interleaving of n calls has more than 8n turns that change anything |
| ManagerCache.EveryCallReturns | pkg/resource/metric_alarm/manager_factory.go:48-79 | After 8n rounds in which each of n calls gets a turn, in any order, every call has returned |
| DeepCopy.DeepCopySpec | apis/v1alpha1/zz_generated.deepcopy.go:1100-1107 | Any spec, nil included, is copied to one that shows the same tree, nil pointers and slices included, and shares no object with it at any depth |
| DeepCopy.SpecTellsScalars | apis/v1alpha1/zz_generated.deepcopy.go:934-1097 | Two specs that show one tree, as spec and copy do, have the seventeen scalar pointers nil alike and of equal value |
| DeepCopy.SpecTellsStructs | apis/v1alpha1/zz_generated.deepcopy.go:934-1097 | and show one tree again in each of the eight slices and structs |
| DeepCopy.TextsTell | apis/v1alpha1/zz_generated.deepcopy.go:941-951 | Slices of string pointers with one tree are nil alike, of equal length and with equal elements |
| DeepCopy.PairsTell | apis/v1alpha1/zz_generated.deepcopy.go:1066-1076 | The same for slices of tags and of dimensions, keys and values included |
| DeepCopy.QueryTells | apis/v1alpha1/zz_generated.deepcopy.go:1343-1380 | Metric queries with one tree are nil alike, with equal scalars and one tree below |
| DeepCopy.QueryAtTells | apis/v1alpha1/zz_generated.deepcopy.go:1024-1034 | Slices of metric queries with one tree have one tree at every index |
| DeepCopy.MetricStatTells | apis/v1alpha1/zz_generated.deepcopy.go:1484-1515 | The same for a metric stat |
| DeepCopy.MetricTells | apis/v1alpha1/zz_generated.deepcopy.go:839-870 | The same for a metric, down to its dimensions |
| DeepCopy.CriteriaTell | apis/v1alpha1/zz_generated.deepcopy.go:554-560 | Evaluation criteria with one tree have equal members and scalars |
| DeepCopy.WindowTells | apis/v1alpha1/zz_generated.deepcopy.go:574-597 | Evaluation windows with one tree have equal members, and sliding windows with equal keys and values |
| DeepCopy.CopySpec | apis/v1alpha1/zz_generated.deepcopy.go:934-1097 | The tree seen from the original is seen from the copy, within new objects only |
| DeepCopy.SpecShows | apis/v1alpha1/zz_generated.deepcopy.go:934-1097 | From every spec some tree is seen within some set of objects, so copying is always possible |
| DeepCopy.CopyQueries | apis/v1alpha1/zz_generated.deepcopy.go:1343-1380 | The same for a slice of metric queries, nil elements included, down to the dimensions |
| DeepCopy.CopyWindow | apis/v1alpha1/zz_generated.deepcopy.go:574-597 | The same for an evaluation window with its map of string pointers, for any iteration order |

## Left out

- AWS calls, HTTP, logging, tracing, metrics, start-up: input and output; each call is a step of the remote alarm whose outcome the environment picks.
- Delete, LateInitialize, IsSynced, ARNFromName, identifiers and descriptors: one call, constant answers or getters.
- Dashboard requests and delta: two strings and a JSON comparison that is not in this repository; its updateConditions is covered.
- The post-create error wrapping of sdkCreate: nothing after it can fail.
- The metric_stream copies of tags.go, manager.go and manager_factory.go and the other copies of updateConditions: same text, modelled once.
- Outside writers and server-side defaults of the remote alarm: the convergence and work bounds do not hold with them.
- CloudWatch's own validation (50 tags, period values): no code of the controller enforces it.
- Deep copies of kinds the controller does not reconcile; conditions and metadata are copied field by field, as their DeepCopyInto is library code.
- DeepCopy.CopySpec: the scalar pointers of a struct are copied by one loop over its fields, where the source has a block per field; Dimension and Tag are one class of two string pointers; each DeepCopyInto is merged with the allocation of its target.
- Resources: the spec inside a Resource is a value, since no modelled function writes below it; sharing below the spec is the subject of DeepCopy only.
- Protocol.BoundedWork: counts acknowledged calls; lost calls are not bounded, since the environment can lose any number.
