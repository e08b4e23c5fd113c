// pkg/resource/metric_stream/references.go: the ARNs of a MetricStream may be given as
// references to other custom resources. Resolving writes the ARNs into the resource it is
// given; clearing takes them out of a copy.

module References {
  import opened Wrappers
  import opened Conditions
  import opened Resources
  import opened MetricStream

  datatype RefKind = DeliveryStream | Role

  // The status of a referenced resource.
  datatype Referenced = Referenced(conditions: seq<ConditionView>, metadata: Option<MetadataView>)

  datatype RefError =
    | ReferenceAndIdNotSupported(kind: RefKind)
    | ReferenceOrIdRequired(kind: RefKind)
    | EmptyReference(kind: RefKind)
    | NamespaceRefused(error: Error)
    | NotRead(error: Error)
    | ReferenceTerminal(kind: RefKind, namespace: string, name: string)
    | ReferenceNotSynced(kind: RefKind, namespace: string, name: string)
    | MissingTargetField(kind: RefKind, namespace: string, name: string)

  // Library code and the cluster: ValidateCrossNamespaceReference with the manager's setting
  // (own namespace, namespace and name of the reference), and the API reader's Get.
  datatype World = World(
    namespaceOf: (string, Option<string>, string) -> Result<string, Error>,
    read: (RefKind, string, string) -> Result<Referenced, Error>)

  class Stream {
    var spec: MetricStreamSpec
    const namespace: string

    constructor (spec: MetricStreamSpec, namespace: string)
      ensures this.spec == spec && this.namespace == namespace
    {
      this.spec, this.namespace := spec, namespace;
    }
  }

  /******* Specification *******/

  function ArnOf(o: Referenced): Option<string> {
    if o.metadata.Some? then o.metadata.value.arn else None
  }

  // Why a referenced resource cannot be used yet.
  ghost function Unusable(o: Referenced, kind: RefKind, namespace: string, name: string): Option<RefError> {
    if ShowsTrue(o.conditions, Terminal) then Some(ReferenceTerminal(kind, namespace, name))
    else if !ShowsTrue(o.conditions, ResourceSynced) then Some(ReferenceNotSynced(kind, namespace, name))
    else if ArnOf(o).None? then Some(MissingTargetField(kind, namespace, name))
    else None
  }

  ghost function Fetch(w: World, kind: RefKind, namespace: string, name: string): Result<Referenced, RefError> {
    var o := w.read(kind, namespace, name);
    if o.Err? then Err(NotRead(o.error))
    else if Unusable(o.value, kind, namespace, name).Some? then Err(Unusable(o.value, kind, namespace, name).value)
    else Ok(o.value)
  }

  predicate HasFrom(r: Option<Reference>) {
    r.Some? && r.value.from.Some?
  }

  // The ARN a reference stands for.
  ghost function Target(w: World, own: string, kind: RefKind, from: RefFrom): Result<string, RefError> {
    if from.name.GetOr("") == "" then Err(EmptyReference(kind)) else
      var namespace := w.namespaceOf(own, from.namespace, from.name.value);
      if namespace.Err? then Err(NamespaceRefused(namespace.error)) else
        var o := Fetch(w, kind, namespace.value, from.name.value);
        if o.Err? then Err(o.error) else Ok(ArnOf(o.value).value)
  }

  function ArnField(s: MetricStreamSpec, kind: RefKind): Option<string> {
    match kind
    case DeliveryStream => s.firehoseARN
    case Role => s.roleARN
  }

  function RefField(s: MetricStreamSpec, kind: RefKind): Option<Reference> {
    match kind
    case DeliveryStream => s.firehoseRef
    case Role => s.roleRef
  }

  function WithArn(s: MetricStreamSpec, kind: RefKind, arn: Option<string>): MetricStreamSpec {
    match kind
    case DeliveryStream => s.(firehoseARN := arn)
    case Role => s.(roleARN := arn)
  }

  // One field resolved: the new spec, whether it names a resource, and the error.
  ghost function FieldResolved(w: World, own: string, s: MetricStreamSpec, kind: RefKind)
    : (MetricStreamSpec, bool, Option<RefError>)
  {
    if !HasFrom(RefField(s, kind)) then (s, false, None) else
      var t := Target(w, own, kind, RefField(s, kind).value.from.value);
      if t.Err? then (s, true, Some(t.error)) else (WithArn(s, kind, Some(t.value)), true, None)
  }

  function FieldFault(s: MetricStreamSpec, kind: RefKind): Option<RefError> {
    if RefField(s, kind).Some? && ArnField(s, kind).Some? then Some(ReferenceAndIdNotSupported(kind))
    else if RefField(s, kind).None? && ArnField(s, kind).None? then Some(ReferenceOrIdRequired(kind))
    else None
  }

  function Fault(s: MetricStreamSpec): Option<RefError> {
    if FieldFault(s, DeliveryStream).Some? then FieldFault(s, DeliveryStream) else FieldFault(s, Role)
  }

  // The outcome of ResolveReferences: a fault of the spec is noticed first and reported last.
  ghost function Resolution(w: World, own: string, s: MetricStreamSpec): (MetricStreamSpec, bool, Option<RefError>) {
    var (s1, has1, e1) := FieldResolved(w, own, s, DeliveryStream);
    if e1.Some? then (s1, has1, e1) else
      var (s2, has2, e2) := FieldResolved(w, own, s1, Role);
      (s2, has1 || has2, if e2.Some? then e2 else Fault(s))
  }

  function Cleared(s: MetricStreamSpec): MetricStreamSpec {
    s.(firehoseARN := if s.firehoseRef.Some? then None else s.firehoseARN,
       roleARN := if s.roleRef.Some? then None else s.roleARN)
  }

  /******* The code *******/

  method ValidateReferenceFields(s: MetricStreamSpec) returns (err: Option<RefError>)
    ensures err == Fault(s)
  {
    if s.firehoseRef.Some? && s.firehoseARN.Some? { return Some(ReferenceAndIdNotSupported(DeliveryStream)); }
    if s.firehoseRef.None? && s.firehoseARN.None? { return Some(ReferenceOrIdRequired(DeliveryStream)); }
    if s.roleRef.Some? && s.roleARN.Some? { return Some(ReferenceAndIdNotSupported(Role)); }
    if s.roleRef.None? && s.roleARN.None? { return Some(ReferenceOrIdRequired(Role)); }
    return None;
  }

  // getReferencedResourceState_DeliveryStream and _Role
  method GetReferencedResourceState(w: World, kind: RefKind, namespace: string, name: string)
    returns (r: Result<Referenced, RefError>)
    ensures r == Fetch(w, kind, namespace, name)
  {
    var o := w.read(kind, namespace, name);
    if o.Err? { return Err(NotRead(o.error)); }
    var cs := o.value.conditions;
    for i := 0 to |cs|
      invariant forall j | 0 <= j < i :: !(cs[j].kind == Terminal && cs[j].status == True)
    {
      if cs[i].kind == Terminal && cs[i].status == True {
        return Err(ReferenceTerminal(kind, namespace, name));
      }
    }
    var synced := false;
    for i := 0 to |cs|
      invariant synced <==> exists j :: 0 <= j < i && cs[j].kind == ResourceSynced && cs[j].status == True
    {
      if cs[i].kind == ResourceSynced && cs[i].status == True {
        synced := true;
      }
    }
    if !synced { return Err(ReferenceNotSynced(kind, namespace, name)); }
    if o.value.metadata.None? || o.value.metadata.value.arn.None? {
      return Err(MissingTargetField(kind, namespace, name));
    }
    return Ok(o.value);
  }

  // resolveReferenceForFirehoseARN and resolveReferenceForRoleARN
  method ResolveField(w: World, ko: Stream, kind: RefKind) returns (hasReferences: bool, err: Option<RefError>)
    modifies ko`spec
    ensures (ko.spec, hasReferences, err) == FieldResolved(w, ko.namespace, old(ko.spec), kind)
  {
    var ref := RefField(ko.spec, kind);
    if ref.None? || ref.value.from.None? { return false, None; }
    var arr := ref.value.from.value;
    if arr.name.None? || arr.name.value == "" { return true, Some(EmptyReference(kind)); }
    var namespace := w.namespaceOf(ko.namespace, arr.namespace, arr.name.value);
    if namespace.Err? { return true, Some(NamespaceRefused(namespace.error)); }
    var obj := GetReferencedResourceState(w, kind, namespace.value, arr.name.value);
    if obj.Err? { return true, Some(obj.error); }
    ko.spec := WithArn(ko.spec, kind, obj.value.metadata.value.arn);
    return true, None;
  }

  // What is returned is the object that was passed in, written to in place.
  method ResolveReferences(w: World, ko: Stream) returns (res: Stream, hasReferences: bool, err: Option<RefError>)
    modifies ko`spec
    ensures res == ko
    ensures (res.spec, hasReferences, err) == Resolution(w, ko.namespace, old(ko.spec))
    ensures hasReferences <==> HasFrom(old(ko.spec.firehoseRef)) || HasFrom(old(ko.spec.roleRef))
  {
    FlagExactly(w, ko.namespace, ko.spec);
    res, hasReferences := ko, false;
    err := ValidateReferenceFields(ko.spec);
    var has, e := ResolveField(w, ko, DeliveryStream);
    hasReferences := hasReferences || has;
    if e.Some? { return ko, hasReferences, e; }
    has, e := ResolveField(w, ko, Role);
    hasReferences := hasReferences || has;
    if e.Some? { return ko, hasReferences, e; }
  }

  method ClearResolvedReferences(res: Stream) returns (ko: Stream)
    ensures fresh(ko) && ko.spec == Cleared(res.spec) && ko.namespace == res.namespace
  {
    ko := new Stream(res.spec, res.namespace);
    if ko.spec.firehoseRef.Some? {
      ko.spec := ko.spec.(firehoseARN := None);
    }
    if ko.spec.roleRef.Some? {
      ko.spec := ko.spec.(roleARN := None);
    }
  }

  /******* What resolving means *******/

  // The flag tells whether some reference names a resource, on every path.
  lemma FlagExactly(w: World, own: string, s: MetricStreamSpec)
    ensures Resolution(w, own, s).1 <==> HasFrom(s.firehoseRef) || HasFrom(s.roleRef)
  {
    var (s1, has1, e1) := FieldResolved(w, own, s, DeliveryStream);
    assert RefField(s1, Role) == RefField(s, Role);
  }

  // An ARN that was taken from a usable resource the reference names.
  ghost predicate TakenFrom(w: World, own: string, kind: RefKind, from: RefFrom, arn: Option<string>) {
    && from.name.Some? && from.name.value != ""
    && var namespace := w.namespaceOf(own, from.namespace, from.name.value);
       && namespace.Ok?
       && var o := w.read(kind, namespace.value, from.name.value);
          && o.Ok? && !ShowsTrue(o.value.conditions, Terminal) && ShowsTrue(o.value.conditions, ResourceSynced)
          && arn.Some? && ArnOf(o.value) == arn
  }

  lemma FieldSucceeds(w: World, own: string, s: MetricStreamSpec, kind: RefKind)
    requires FieldResolved(w, own, s, kind).2.None?
    ensures var s1 := FieldResolved(w, own, s, kind).0;
            && s1 == WithArn(s, kind, ArnField(s1, kind))
            && (if HasFrom(RefField(s, kind))
                then TakenFrom(w, own, kind, RefField(s, kind).value.from.value, ArnField(s1, kind))
                else s1 == s)
  {
  }

  // On success only the ARNs of references that name a resource have changed, each taken from
  // a synced resource without a True Terminal condition. An ARN is still missing exactly when
  // its reference is there but names nothing.
  lemma ResolvedExactly(w: World, own: string, s: MetricStreamSpec)
    requires Resolution(w, own, s).2.None?
    ensures var t := Resolution(w, own, s).0;
            && t == s.(firehoseARN := t.firehoseARN, roleARN := t.roleARN)
            && forall kind: RefKind ::
                 && (if HasFrom(RefField(s, kind))
                     then TakenFrom(w, own, kind, RefField(s, kind).value.from.value, ArnField(t, kind))
                     else ArnField(t, kind) == ArnField(s, kind))
                 && (ArnField(t, kind).None? <==> RefField(s, kind) == Some(Reference(None)))
  {
    var s1 := FieldResolved(w, own, s, DeliveryStream).0;
    FieldSucceeds(w, own, s, DeliveryStream);
    FieldSucceeds(w, own, s1, Role);
    var t := Resolution(w, own, s).0;
    forall kind: RefKind
      ensures if HasFrom(RefField(s, kind))
              then TakenFrom(w, own, kind, RefField(s, kind).value.from.value, ArnField(t, kind))
              else ArnField(t, kind) == ArnField(s, kind)
      ensures ArnField(t, kind).None? <==> RefField(s, kind) == Some(Reference(None))
    {
      assert FieldFault(s, DeliveryStream).None? && FieldFault(s, Role).None?;
      match kind {
        case DeliveryStream =>
        case Role =>
      }
    }
  }

  // Which failure a referenced resource gives: not read; read with a True Terminal condition,
  // whatever else it shows; otherwise without a True Synced one; otherwise without an ARN.
  lemma FetchFailsExactly(w: World, kind: RefKind, namespace: string, name: string)
    ensures var o, r := w.read(kind, namespace, name), Fetch(w, kind, namespace, name);
            && (forall e :: r == Err(NotRead(e)) <==> o == Err(e))
            && (r == Err(ReferenceTerminal(kind, namespace, name)) <==>
                && o.Ok?
                && exists i :: 0 <= i < |o.value.conditions|
                               && o.value.conditions[i].kind == Terminal && o.value.conditions[i].status == True)
            && (r == Err(ReferenceNotSynced(kind, namespace, name)) <==>
                && o.Ok?
                && (forall i | 0 <= i < |o.value.conditions| ::
                      !(o.value.conditions[i].kind == Terminal && o.value.conditions[i].status == True))
                && (forall i | 0 <= i < |o.value.conditions| ::
                      !(o.value.conditions[i].kind == ResourceSynced && o.value.conditions[i].status == True)))
            && (r == Err(MissingTargetField(kind, namespace, name)) <==>
                && o.Ok?
                && (forall i | 0 <= i < |o.value.conditions| ::
                      !(o.value.conditions[i].kind == Terminal && o.value.conditions[i].status == True))
                && (exists i :: 0 <= i < |o.value.conditions|
                                && o.value.conditions[i].kind == ResourceSynced && o.value.conditions[i].status == True)
                && (o.value.metadata.None? || o.value.metadata.value.arn.None?))
            && (r.Ok? ==> r == Ok(o.value) && o.value.metadata.Some? && o.value.metadata.value.arn.Some?)
  {
  }

  // Which failure a reference gives before anything is read, and where it leads otherwise.
  lemma TargetFailsExactly(w: World, own: string, kind: RefKind, from: RefFrom)
    ensures var t := Target(w, own, kind, from);
            && (t == Err(EmptyReference(kind)) <==> from.name.None? || from.name == Some(""))
            && (forall e :: t == Err(NamespaceRefused(e)) <==>
                              && from.name.Some? && from.name != Some("")
                              && w.namespaceOf(own, from.namespace, from.name.value) == Err(e))
            && (from.name.Some? && from.name != Some("")
                && w.namespaceOf(own, from.namespace, from.name.value).Ok? ==>
                  var o := Fetch(w, kind, w.namespaceOf(own, from.namespace, from.name.value).value, from.name.value);
                  if o.Err? then t == Err(o.error)
                  else o.value.metadata.Some? && t.Ok? && o.value.metadata.value.arn == Some(t.value))
  {
    if from.name.Some? {
      var namespace := w.namespaceOf(own, from.namespace, from.name.value);
      if namespace.Ok? {
        FetchFailsExactly(w, kind, namespace.value, from.name.value);
      }
    }
  }

  // A field is at fault exactly if it is given in both forms or in none; the firehose goes first.
  lemma FaultExactly(s: MetricStreamSpec)
    ensures Fault(s) == Some(ReferenceAndIdNotSupported(DeliveryStream))
            <==> s.firehoseRef.Some? && s.firehoseARN.Some?
    ensures Fault(s) == Some(ReferenceOrIdRequired(DeliveryStream))
            <==> s.firehoseRef.None? && s.firehoseARN.None?
    ensures Fault(s) == Some(ReferenceAndIdNotSupported(Role))
            <==> s.firehoseRef.Some? != s.firehoseARN.Some? && s.roleRef.Some? && s.roleARN.Some?
    ensures Fault(s) == Some(ReferenceOrIdRequired(Role))
            <==> s.firehoseRef.Some? != s.firehoseARN.Some? && s.roleRef.None? && s.roleARN.None?
    ensures Fault(s).None? <==> s.firehoseRef.Some? != s.firehoseARN.Some? && s.roleRef.Some? != s.roleARN.Some?
  {
  }

  // The error that comes out: of the firehose reference, then of the role reference, then the
  // fault of the spec.
  lemma ErrorExactly(w: World, own: string, s: MetricStreamSpec)
    ensures var e := Resolution(w, own, s).2;
            var firehoseFails := s.firehoseRef.Some? && s.firehoseRef.value.from.Some?
                                 && Target(w, own, DeliveryStream, s.firehoseRef.value.from.value).Err?;
            var roleFails := s.roleRef.Some? && s.roleRef.value.from.Some?
                             && Target(w, own, Role, s.roleRef.value.from.value).Err?;
            && (firehoseFails ==> e == Some(Target(w, own, DeliveryStream, s.firehoseRef.value.from.value).error))
            && (!firehoseFails && roleFails ==> e == Some(Target(w, own, Role, s.roleRef.value.from.value).error))
            && (!firehoseFails && !roleFails ==> e == Fault(s))
  {
    var (s1, has1, e1) := FieldResolved(w, own, s, DeliveryStream);
    assert RefField(s1, Role) == RefField(s, Role);
  }

  // Resolving succeeds exactly when the spec is sound and every reference that names a
  // resource names a usable one.
  lemma SucceedsExactly(w: World, own: string, s: MetricStreamSpec)
    ensures Resolution(w, own, s).2.None? <==>
              && Fault(s).None?
              && forall kind: RefKind ::
                   HasFrom(RefField(s, kind)) ==> Target(w, own, kind, RefField(s, kind).value.from.value).Ok?
  {
    var (s1, has1, e1) := FieldResolved(w, own, s, DeliveryStream);
    assert RefField(s1, Role) == RefField(s, Role);
    if Resolution(w, own, s).2.None? {
      forall kind: RefKind | HasFrom(RefField(s, kind))
        ensures Target(w, own, kind, RefField(s, kind).value.from.value).Ok?
      {
        match kind {
          case DeliveryStream =>
          case Role =>
        }
      }
    }
  }

  // Whether the ARN of a field gets written: its reference names a usable resource, and for
  // the role the firehose did not fail first.
  ghost predicate Writes(w: World, own: string, s: MetricStreamSpec, kind: RefKind) {
    && HasFrom(RefField(s, kind)) && Target(w, own, kind, RefField(s, kind).value.from.value).Ok?
    && (kind.Role? && HasFrom(s.firehoseRef) ==> Target(w, own, DeliveryStream, s.firehoseRef.value.from.value).Ok?)
  }

  // What is written, on success and on every failure: these ARNs and nothing else.
  lemma WritesExactly(w: World, own: string, s: MetricStreamSpec)
    ensures var t := Resolution(w, own, s).0;
            && t == s.(firehoseARN := t.firehoseARN, roleARN := t.roleARN)
            && forall kind: RefKind ::
                 ArnField(t, kind) ==
                   if Writes(w, own, s, kind) then
                     Some(Target(w, own, kind, RefField(s, kind).value.from.value).value)
                   else
                     ArnField(s, kind)
  {
    var (s1, has1, e1) := FieldResolved(w, own, s, DeliveryStream);
    assert RefField(s1, Role) == RefField(s, Role) && ArnField(s1, Role) == ArnField(s, Role);
    assert Writes(w, own, s, DeliveryStream) <==> has1 && e1.None?;
  }

  // The argument comes back changed exactly if some written ARN is new; after a success that
  // is exactly if some reference names a resource.
  lemma ChangesExactly(w: World, own: string, s: MetricStreamSpec)
    ensures Resolution(w, own, s).0 != s <==>
              exists kind: RefKind ::
                && Writes(w, own, s, kind)
                && ArnField(s, kind) != Some(Target(w, own, kind, RefField(s, kind).value.from.value).value)
    ensures Resolution(w, own, s).2.None? ==>
              (Resolution(w, own, s).0 != s <==> HasFrom(s.firehoseRef) || HasFrom(s.roleRef))
  {
    var t := Resolution(w, own, s).0;
    WritesExactly(w, own, s);
    assert t == s <==> ArnField(t, DeliveryStream) == ArnField(s, DeliveryStream)
                       && ArnField(t, Role) == ArnField(s, Role);
    if Resolution(w, own, s).2.None? {
      ResolvedExactly(w, own, s);
      assert FieldFault(s, DeliveryStream).None? && FieldFault(s, Role).None?;
      assert HasFrom(RefField(s, DeliveryStream)) ==> ArnField(s, DeliveryStream).None?;
      assert HasFrom(RefField(s, Role)) ==> ArnField(s, Role).None?;
      assert HasFrom(RefField(s, DeliveryStream)) ==> ArnField(t, DeliveryStream).Some?;
      assert HasFrom(RefField(s, Role)) ==> ArnField(t, Role).Some?;
    }
  }

  // A reference that is there and names nothing.
  const NAMES_NOTHING := MetricStreamSpec(
    None, None, Some(Reference(None)), None, None, Some("stream"), None, Some("role"), None, None, [])

  // It passes, in every cluster, and its ARN stays nil.
  lemma NamesNothingPasses(w: World, own: string)
    ensures Resolution(w, own, NAMES_NOTHING) == (NAMES_NOTHING, false, None)
    ensures NAMES_NOTHING.firehoseARN.None?
  {
  }

  // A spec with both forms of a field is refused, but not before its ARN was overwritten.
  lemma RefusedAfterWriting(w: World, own: string, s: MetricStreamSpec, kind: RefKind)
    requires BothGiven(s, kind) && Writes(w, own, s, kind)
    ensures Resolution(w, own, s).2.Some?
    ensures ArnField(Resolution(w, own, s).0, kind)
            == Some(Target(w, own, kind, RefField(s, kind).value.from.value).value)
  {
    WritesExactly(w, own, s);
    assert FieldFault(s, kind).Some?;
  }

  /******* Clearing undoes resolving *******/

  predicate BothGiven(s: MetricStreamSpec, kind: RefKind) {
    RefField(s, kind).Some? && ArnField(s, kind).Some?
  }

  lemma ClearedAnyway(w: World, own: string, s: MetricStreamSpec)
    ensures Cleared(Resolution(w, own, s).0) == Cleared(s)
  {
    var (s1, has1, e1) := FieldResolved(w, own, s, DeliveryStream);
    assert Cleared(s1) == Cleared(s);
    assert Cleared(FieldResolved(w, own, s1, Role).0) == Cleared(s1);
  }

  // Whatever became of resolving, also when the first reference was resolved and the second
  // was not, clearing gives back the spec, exactly if no field came with both forms.
  lemma ClearUndoesResolve(w: World, own: string, s: MetricStreamSpec)
    ensures Cleared(Resolution(w, own, s).0) == s <==> forall kind: RefKind :: !BothGiven(s, kind)
    ensures Fault(s).None? ==> Cleared(Resolution(w, own, s).0) == s
  {
    ClearedAnyway(w, own, s);
    assert BothGiven(s, DeliveryStream) <==> s.firehoseRef.Some? && s.firehoseARN.Some?;
    assert BothGiven(s, Role) <==> s.roleRef.Some? && s.roleARN.Some?;
  }

  // Resolving what was cleared, in the same cluster, gives the same outcome again, also when
  // the first attempt had failed half-way.
  lemma ResolveAgain(w: World, own: string, s: MetricStreamSpec)
    requires forall kind: RefKind :: !BothGiven(s, kind)
    ensures Resolution(w, own, Cleared(Resolution(w, own, s).0)) == Resolution(w, own, s)
  {
    ClearUndoesResolve(w, own, s);
  }

  // Without clearing, a resolved spec is refused the next time.
  lemma ClearIsNeeded(w: World, own: string, s: MetricStreamSpec)
    requires Resolution(w, own, s).2.None?
    requires HasFrom(s.firehoseRef) || HasFrom(s.roleRef)
    ensures exists kind :: Resolution(w, own, Resolution(w, own, s).0).2 == Some(ReferenceAndIdNotSupported(kind))
  {
    ResolvedExactly(w, own, s);
    var t := Resolution(w, own, s).0;
    assert ArnField(t, DeliveryStream).Some? || !HasFrom(s.firehoseRef);
    assert ArnField(t, Role).Some? || !HasFrom(s.roleRef);
  }
}
