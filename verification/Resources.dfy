// The custom resource as an object: its conditions and metadata are objects of their own,
// reached through pointers and written in place. Deep copy of the status, updateConditions,
// onError and onSuccess (pkg/resource/metric_alarm/sdk.go and manager.go).

module Resources {
  import opened Wrappers
  import opened AlarmTypes
  import opened Conditions

  class Condition {
    var kind: Kind
    var status: Status
    var message: Option<string>
    var reason: Option<string>
    var transition: Option<int>

    constructor (v: ConditionView)
      ensures View() == v && kind == v.kind && status == v.status
      ensures message == v.message && reason == v.reason && transition == v.transition
    {
      kind, status, message, reason, transition := v.kind, v.status, v.message, v.reason, v.transition;
    }

    function View(): ConditionView
      reads this
    {
      ConditionView(kind, status, message, reason, transition)
    }
  }

  datatype MetadataView = MetadataView(
    arn: Option<string>, region: Option<string>, partition: Option<string>, owner: Option<string>)

  class Metadata {
    var arn: Option<string>
    var region: Option<string>
    var partition: Option<string>
    var owner: Option<string>

    constructor (v: MetadataView)
      ensures View() == v && arn == v.arn && region == v.region && partition == v.partition && owner == v.owner
    {
      arn, region, partition, owner := v.arn, v.region, v.partition, v.owner;
    }

    function View(): MetadataView
      reads this
    {
      MetadataView(arn, region, partition, owner)
    }
  }

  // What the cluster stores of a resource beside its spec.
  datatype StatusView = StatusView(metadata: Option<MetadataView>, conditions: Option<seq<ConditionView>>) {
    function List(): seq<ConditionView> {
      conditions.GetOr([])
    }
  }

  // The identity a resource manager stamps on status metadata.
  datatype Identity = Identity(region: string, partition: string, account: string)

  ghost function Views(cs: seq<Condition>): (vs: seq<ConditionView>)
    reads cs
    ensures |vs| == |cs|
  {
    seq(|cs|, i requires 0 <= i < |cs| reads cs => cs[i].View())
  }

  function DefaultMetadata(m: Option<MetadataView>, id: Identity): MetadataView {
    var v := m.GetOr(MetadataView(None, None, None, None));
    MetadataView(v.arn, Some(v.region.GetOr(id.region)), Some(v.partition.GetOr(id.partition)),
                 Some(v.owner.GetOr(id.account)))
  }

  class Resource {
    var spec: MetricAlarmSpec
    var metadata: Metadata?
    var conditions: Option<seq<Condition>>

    constructor (spec: MetricAlarmSpec, metadata: Metadata?, conditions: Option<seq<Condition>>)
      ensures this.spec == spec && this.metadata == metadata && this.conditions == conditions
    {
      this.spec, this.metadata, this.conditions := spec, metadata, conditions;
    }

    function ConditionList(): seq<Condition>
      reads this
    {
      conditions.GetOr([])
    }

    ghost function ConditionViews(): seq<ConditionView>
      reads this, ConditionList()
    {
      Views(ConditionList())
    }

    function MetadataOf(): Option<MetadataView>
      reads this, metadata
    {
      if metadata == null then None else Some(metadata.View())
    }

    ghost function StatusOf(): StatusView
      reads this, metadata, ConditionList()
    {
      StatusView(MetadataOf(), if conditions.Some? then Some(ConditionViews()) else None)
    }

    // The ARN in the status, if it is there.
    function Arn(): Option<string>
      reads this, metadata
    {
      if metadata == null then None else metadata.arn
    }

    // No condition object is listed twice.
    ghost predicate Separate()
      reads this
    {
      var cs := ConditionList();
      forall i, j | 0 <= i < j < |cs| :: cs[i] != cs[j]
    }

    // ko.DeepCopy(): equal structure, nothing shared. The spec is a value here; its heap
    // form and copy are in DeepCopy.
    method DeepCopy() returns (out: Resource)
      ensures fresh(out) && out.Separate()
      ensures out.metadata != null ==> fresh(out.metadata)
      ensures fresh(out.ConditionList())
      ensures out.spec == spec && out.MetadataOf() == MetadataOf()
      ensures out.conditions.Some? == conditions.Some? && out.ConditionViews() == ConditionViews()
    {
      var m: Metadata? := null;
      if metadata != null {
        m := new Metadata(metadata.View());
      }
      var cs: seq<Condition> := [];
      var src := ConditionList();
      for i := 0 to |src|
        invariant |cs| == i
        invariant forall j | 0 <= j < i :: fresh(cs[j]) && cs[j].View() == src[j].View()
        invariant forall j, k | 0 <= j < k < i :: cs[j] != cs[k]
        invariant m != null ==> fresh(m)
        invariant (metadata == null) == (m == null)
        invariant m != null ==> m.View() == metadata.View()
      {
        var c := new Condition(src[i].View());
        cs := cs + [c];
      }
      out := new Resource(spec, m, if conditions.Some? then Some(cs) else None);
    }

    // setStatusDefaults
    method SetStatusDefaults(id: Identity)
      modifies this, metadata
      ensures spec == old(spec)
      ensures metadata != null && (old(metadata) == null ==> fresh(metadata))
      ensures old(metadata) != null ==> metadata == old(metadata)
      ensures metadata.View() == DefaultMetadata(old(MetadataOf()), id)
      ensures if old(metadata) != null && old(metadata.region).Some?
              then metadata.region == old(metadata.region) else metadata.region == Some(id.region)
      ensures if old(metadata) != null && old(metadata.partition).Some?
              then metadata.partition == old(metadata.partition) else metadata.partition == Some(id.partition)
      ensures if old(metadata) != null && old(metadata.owner).Some?
              then metadata.owner == old(metadata.owner) else metadata.owner == Some(id.account)
      ensures metadata.arn == if old(metadata) != null then old(metadata.arn) else None
      ensures conditions == Some(old(ConditionList()))
      ensures ConditionViews() == old(ConditionViews())
    {
      if metadata == null {
        metadata := new Metadata(MetadataView(None, None, None, None));
      }
      if metadata.region.None? { metadata.region := Some(id.region); }
      if metadata.partition.None? { metadata.partition := Some(id.partition); }
      if metadata.owner.None? { metadata.owner := Some(id.account); }
      if conditions.None? { conditions := Some([]); }
    }
  }

  // A resource written to the cluster and read from it again.
  method WriteStatus(r: Resource) returns (s: StatusView)
    ensures s == r.StatusOf()
  {
    var m := r.MetadataOf();
    if r.conditions.None? { return StatusView(m, None); }
    var cs, vs := r.conditions.value, [];
    for i := 0 to |cs|
      invariant |vs| == i && forall j | 0 <= j < i :: vs[j] == cs[j].View()
    {
      vs := vs + [cs[i].View()];
    }
    assert vs == r.ConditionViews();
    return StatusView(m, Some(vs));
  }

  method ReadBack(spec: MetricAlarmSpec, s: StatusView) returns (r: Resource)
    ensures fresh(r) && r.spec == spec && r.ConditionViews() == s.List() && r.MetadataOf() == s.metadata
  {
    var m: Metadata? := null;
    if s.metadata.Some? {
      m := new Metadata(s.metadata.value);
    }
    var cs: seq<Condition> := [];
    var vs := s.List();
    for i := 0 to |vs|
      invariant |cs| == i && forall j | 0 <= j < i :: cs[j].View() == vs[j]
      invariant (m == null) == s.metadata.None? && (m != null ==> fresh(m) && m.View() == s.metadata.value)
    {
      var c := new Condition(vs[i]);
      cs := cs + [c];
    }
    r := new Resource(spec, m, if s.conditions.Some? then Some(cs) else None);
  }

  // found is the last condition of kind k in r's list, or nil.
  ghost predicate Finds(r: Resource, found: Condition?, k: Kind)
    reads r, r.ConditionList()
  {
    var i := LastOf(r.ConditionViews(), k);
    found == if i < 0 then null else r.ConditionList()[i]
  }

  method FindConditions(r: Resource) returns (terminal: Condition?, recoverable: Condition?, synced: Condition?)
    ensures Finds(r, terminal, Terminal) && Finds(r, recoverable, Recoverable) && Finds(r, synced, ResourceSynced)
  {
    terminal, recoverable, synced := null, null, null;
    var cs := r.ConditionList();
    ghost var vs := r.ConditionViews();
    for i := 0 to |cs|
      invariant terminal == if LastOf(vs[..i], Terminal) < 0 then null else cs[LastOf(vs[..i], Terminal)]
      invariant recoverable == if LastOf(vs[..i], Recoverable) < 0 then null else cs[LastOf(vs[..i], Recoverable)]
      invariant synced == if LastOf(vs[..i], ResourceSynced) < 0 then null else cs[LastOf(vs[..i], ResourceSynced)]
    {
      assert vs[..i + 1][..i] == vs[..i];
      assert vs[i] == cs[i].View();
      if cs[i].kind == Terminal { terminal := cs[i]; }
      if cs[i].kind == Recoverable { recoverable := cs[i]; }
      if cs[i].kind == ResourceSynced { synced := cs[i]; }
    }
    assert vs[..|cs|] == vs;
  }

  // Append a condition if none was found, then raise it.
  method RaiseCondition(r: Resource, found: Condition?, k: Kind, text: string) returns (c: Condition)
    requires r.Separate() && Finds(r, found, k)
    modifies r`conditions, found
    ensures r.ConditionViews() == Mark(old(r.ConditionViews()), k, text)
    ensures r.conditions.Some? && r.Separate()
    ensures if found == null then fresh(c) && r.ConditionList() == old(r.ConditionList()) + [c]
            else r.conditions == old(r.conditions)
  {
    ghost var before := r.ConditionViews();
    if found == null {
      c := new Condition(ConditionView(k, Unset, None, None, None));
      r.conditions := Some(r.ConditionList() + [c]);
    } else {
      c := found;
    }
    c.status, c.message := True, Some(text);
    ghost var i := LastOf(before, k);
    assert forall j | 0 <= j < |before| && j != i :: r.ConditionList()[j].View() == before[j];
  }

  method LowerCondition(r: Resource, found: Condition?, ghost k: Kind)
    requires r.Separate() && Finds(r, found, k)
    modifies found
    ensures r.ConditionViews() == Clear(old(r.ConditionViews()), k)
  {
    ghost var before := r.ConditionViews();
    if found != null {
      found.status, found.message := False, None;
    }
    ghost var i := LastOf(before, k);
    assert forall j | 0 <= j < |before| && j != i :: r.ConditionList()[j].View() == before[j];
  }

  // The branch for outcomes that are not terminal.
  method ApplyRecoverable(ko: Resource, terminal: Condition?, found: Condition?, o: Outcome)
    returns (recoverable: Condition?)
    requires ko.Separate() && ko.conditions.Some?
    requires Finds(ko, terminal, Terminal) && Finds(ko, found, Recoverable)
    modifies ko`conditions, terminal, found
    ensures ko.Separate() && ko.conditions.Some?
    ensures ko.ConditionViews() ==
              var cleared := Clear(old(ko.ConditionViews()), Terminal);
              if o.Some? then Mark(cleared, Recoverable, RecoverableText(o.value)) else Clear(cleared, Recoverable)
    ensures recoverable != null <==> o.Some? || found != null
    ensures ko.ConditionList() == old(ko.ConditionList())
            || (recoverable != null && fresh(recoverable)
                && ko.ConditionList() == old(ko.ConditionList()) + [recoverable])
  {
    ClearReads(ko.ConditionViews(), Terminal, Recoverable);
    LowerCondition(ko, terminal, Terminal);
    if o.Some? {
      recoverable := RaiseCondition(ko, found, Recoverable, RecoverableText(o.value));
    } else {
      LowerCondition(ko, found, Recoverable);
      recoverable := found;
    }
  }

  // The outcome is worked into the conditions of ko in place.
  method ApplyOutcome(ko: Resource, o: Outcome, codes: set<string>) returns (updated: bool)
    requires ko.Separate() && ko.conditions.Some?
    modifies ko`conditions, ko.ConditionList()
    ensures ko.Separate() && ko.conditions.Some?
    ensures forall i | 0 <= i < |ko.ConditionList()| ::
              ko.ConditionList()[i] in old(ko.ConditionList()) || fresh(ko.ConditionList()[i])
    ensures ko.ConditionViews() == Updated(old(ko.ConditionViews()), o, codes)
    ensures updated <==> o.Some? || Tracked(old(ko.ConditionViews()))
  {
    var terminal, recoverable, synced := FindConditions(ko);
    if IsTerminal(o, codes) {
      terminal := RaiseCondition(ko, terminal, Terminal, TerminalText(o.value));
    } else {
      recoverable := ApplyRecoverable(ko, terminal, recoverable, o);
    }
    updated := terminal != null || recoverable != null || synced != null;
  }

  // ko.DeepCopy() and setStatusDefaults, as updateConditions, sdkCreate and sdkUpdate begin or end.
  method CopyWithDefaults(r: Resource, id: Identity) returns (ko: Resource)
    ensures fresh(ko) && ko.metadata != null && fresh(ko.metadata) && fresh(ko.ConditionList())
    ensures ko.Separate() && ko.conditions.Some?
    ensures ko.spec == r.spec && ko.MetadataOf() == Some(DefaultMetadata(r.MetadataOf(), id))
    ensures ko.ConditionViews() == r.ConditionViews()
  {
    ko := r.DeepCopy();
    ko.SetStatusDefaults(id);
  }

  // updateConditions: works on a deep copy, so the resource it is given never changes.
  method UpdateConditions(r: Resource, id: Identity, o: Outcome, codes: set<string>)
    returns (ko: Resource, updated: bool)
    ensures fresh(ko) && ko.metadata != null && fresh(ko.metadata) && fresh(ko.ConditionList()) && ko.Separate()
    ensures ko.spec == r.spec && ko.MetadataOf() == Some(DefaultMetadata(r.MetadataOf(), id))
    ensures ko.conditions.Some? && ko.ConditionViews() == Updated(r.ConditionViews(), o, codes)
    ensures updated <==> o.Some? || Tracked(r.ConditionViews())
  {
    ko := CopyWithDefaults(r, id);
    ghost var metadata := ko.MetadataOf();
    updated := ApplyOutcome(ko, o, codes);
    assert ko.MetadataOf() == metadata;
  }

  // ackerr.Terminal
  const TERMINAL_STATE := Error(TerminalState, "", None)

  // onError: the error becomes "terminal" when some Terminal condition ends up True.
  method OnError(r: Resource, id: Identity, err: Error, codes: set<string>) returns (r1: Resource, e: Error)
    ensures fresh(r1) && r1.metadata != null && fresh(r1.metadata) && fresh(r1.ConditionList()) && r1.spec == r.spec
    ensures r1.MetadataOf() == Some(DefaultMetadata(r.MetadataOf(), id))
    ensures r1.ConditionViews() == Updated(r.ConditionViews(), Some(err), codes)
    ensures e == if ShowsTrue(r1.ConditionViews(), Terminal) then TERMINAL_STATE else err
  {
    var updated: bool;
    r1, updated := UpdateConditions(r, id, Some(err), codes);
    var cs := r1.ConditionList();
    for i := 0 to |cs|
      invariant forall j | 0 <= j < i :: !(cs[j].kind == Terminal && cs[j].status == True)
    {
      if cs[i].kind == Terminal && cs[i].status == True {
        assert r1.ConditionViews()[i] == cs[i].View();
        return r1, TERMINAL_STATE;
      }
    }
    e := err;
  }

  // onSuccess: without a tracked condition the resource itself is returned.
  method OnSuccess(r: Resource, id: Identity) returns (r1: Resource)
    ensures r1 == r || (fresh(r1) && r1.metadata != null && fresh(r1.metadata) && fresh(r1.ConditionList()))
    ensures r1 == r <==> !Tracked(r.ConditionViews())
    ensures r1.spec == r.spec && r1.Arn() == r.Arn()
    ensures r1 == r || r1.MetadataOf() == Some(DefaultMetadata(r.MetadataOf(), id))
    ensures r1.ConditionViews() == Updated(r.ConditionViews(), None, {})
  {
    var ko, updated := UpdateConditions(r, id, None, {});
    if updated {
      r1 := ko;
    } else {
      UntrackedSuccess(r.ConditionViews());
      r1 := r;
    }
  }
}
