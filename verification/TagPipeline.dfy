// The loops of pkg/resource/metric_alarm/tags.go, and EnsureTags, FilterSystemTags and
// mirrorAWSTags of manager.go on top of them. A Go map is an object that callees delete
// from; the order in which it is ranged over is arbitrary.

module TagPipeline {
  import opened Wrappers
  import opened Tags
  import opened Resources

  class AckTags {
    var m: TagMap

    constructor (m: TagMap)
      ensures this.m == m
    {
      this.m := m;
    }
  }

  method ConvertToOrderedAckTags(tags: seq<Tag>) returns (result: AckTags, keyOrder: seq<string>)
    ensures fresh(result) && result.m == MapOf(tags) && keyOrder == KeyOrder(tags)
  {
    result := new AckTags(map[]);
    keyOrder := [];
    for i := 0 to |tags|
      invariant fresh(result)
      invariant result.m == MapOf(tags[..i]) && keyOrder == KeyOrder(tags[..i])
    {
      assert tags[..i + 1][..i] == tags[..i];
      if tags[i].key.Some? {
        keyOrder := keyOrder + [tags[i].key.value];
        if tags[i].value.Some? {
          result.m := result.m[tags[i].key.value := tags[i].value.value];
        } else {
          result.m := result.m[tags[i].key.value := ""];
        }
      }
    }
    assert tags[..|tags|] == tags;
  }

  // fromACKTags: the ordered keys are deleted from tags on the way, the others stay.
  method FromAckTags(tags: AckTags, keyOrder: seq<string>) returns (result: seq<Tag>)
    modifies tags
    ensures tags.m == map k | k in old(tags.m) && k !in keyOrder :: old(tags.m)[k]
    ensures ListsInOrder(old(tags.m), keyOrder, result)
    ensures |result| == |old(tags.m)|
  {
    ghost var m := tags.m;
    ghost var keys: seq<string> := [];
    result := [];
    for i := 0 to |keyOrder|
      invariant keys == Pick(keyOrder[..i], m.Keys)
      invariant forall k | k in keys :: k in m
      invariant result == ListAt(m, keys)
      invariant tags.m == map k | k in m && k !in keyOrder[..i] :: m[k]
    {
      var k := keyOrder[i];
      assert keyOrder[..i + 1][..i] == keyOrder[..i];
      PickMeaning(keyOrder[..i], m.Keys);
      if k in tags.m {
        result := result + [Tag(Some(k), Some(tags.m[k]))];
        tags.m := tags.m - {k};
        keys := keys + [k];
      }
    }
    assert keyOrder[..|keyOrder|] == keyOrder;
    PickMeaning(keyOrder, m.Keys);
    ghost var picked := keys;
    var rest := tags.m.Keys;
    while rest != {}
      invariant tags.m == map k | k in m && k !in keyOrder :: m[k]
      invariant rest <= tags.m.Keys
      invariant picked <= keys && NoDup(keys)
      invariant forall k :: k in keys <==> k in m && k !in rest
      invariant result == ListAt(m, keys)
      decreases rest
    {
      var k :| k in rest;
      result := result + [Tag(Some(k), Some(tags.m[k]))];
      rest := rest - {k};
      keys := keys + [k];
    }
    ListAtMeaning(m, keys);
    CanonicalSize(result);
    assert MapOf(result) == m;
  }

  method IgnoreSystemTags(tags: AckTags, systemTags: seq<string>)
    modifies tags
    ensures tags.m == WithoutSystem(old(tags.m), systemTags)
  {
    var pending := tags.m.Keys;
    while pending != {}
      invariant pending <= tags.m.Keys
      invariant tags.m == map k | k in old(tags.m) && (k in pending || !IsSystem(k, systemTags)) :: old(tags.m)[k]
      decreases pending
    {
      var k :| k in pending;
      if IsSystem(k, systemTags) {
        tags.m := tags.m - {k};
      }
      pending := pending - {k};
    }
  }

  method SyncAwsTags(a: AckTags, b: AckTags)
    requires a != b
    modifies a
    ensures a.m == old(a.m) + AwsPart(b.m)
  {
    var pending := b.m.Keys;
    while pending != {}
      invariant pending <= b.m.Keys
      invariant a.m == old(a.m) + map k | k in b.m && k !in pending && IsAws(k) :: b.m[k]
      decreases pending
    {
      var k :| k in pending;
      if IsAws(k) {
        a.m := a.m[k := b.m[k]];
      }
      pending := pending - {k};
    }
    assert AwsPart(b.m) == map k | k in b.m && k !in pending && IsAws(k) :: b.m[k];
  }

  // acktags.Merge: the first argument wins.
  method Merge(a: AckTags, b: TagMap) returns (c: AckTags)
    ensures fresh(c) && c.m == b + a.m
  {
    c := new AckTags(b + a.m);
  }

  /******* The three operations on a resource *******/

  // The list after tags are added, kept or dropped: existing keys first, in their order.
  ghost predicate Ensured(before: seq<Tag>, defaults: TagMap, after: seq<Tag>) {
    ListsInOrder(defaults + MapOf(before), KeyOrder(before), after)
  }

  ghost predicate Mirrored(before: seq<Tag>, latest: TagMap, after: seq<Tag>) {
    ListsInOrder(MapOf(before) + AwsPart(latest), KeyOrder(before), after)
  }

  // The list with one tag per key, keys in order of first occurrence and without system keys.
  ghost function Filtered(tags: seq<Tag>, systemTags: seq<string>): seq<Tag> {
    var m := WithoutSystem(MapOf(tags), systemTags);
    PickMeaning(KeyOrder(tags), m.Keys);
    ListAt(m, Pick(KeyOrder(tags), m.Keys))
  }

  method EnsureTags(r: Resource, defaultTags: TagMap)
    modifies r`spec
    ensures r.spec == old(r.spec).(tags := r.spec.tags)
    ensures Ensured(old(r.spec.tags), defaultTags, r.spec.tags)
  {
    var resourceTags, keyOrder := ConvertToOrderedAckTags(r.spec.tags);
    var tags := Merge(resourceTags, defaultTags);
    var result := FromAckTags(tags, keyOrder);
    r.spec := r.spec.(tags := result);
  }

  method FilterSystemTags(r: Resource, systemTags: seq<string>)
    modifies r`spec
    ensures r.spec == old(r.spec).(tags := Filtered(old(r.spec.tags), systemTags))
  {
    var resourceTags, keyOrder := ConvertToOrderedAckTags(r.spec.tags);
    IgnoreSystemTags(resourceTags, systemTags);
    ghost var m := resourceTags.m;
    var result := FromAckTags(resourceTags, keyOrder);
    KeysInOrder(r.spec.tags);
    OnlyOneOrder(m, keyOrder, result);
    r.spec := r.spec.(tags := result);
  }

  // mirrorAWSTags(a, b) on resources that are both there
  method MirrorAwsTags(a: Resource, b: Resource)
    modifies a`spec
    ensures a.spec == old(a.spec).(tags := a.spec.tags)
    ensures Mirrored(old(a.spec.tags), MapOf(old(b.spec.tags)), a.spec.tags)
  {
    var desiredTags, keyOrder := ConvertToOrderedAckTags(a.spec.tags);
    var latestTags, _ := ConvertToOrderedAckTags(b.spec.tags);
    SyncAwsTags(desiredTags, latestTags);
    var result := FromAckTags(desiredTags, keyOrder);
    a.spec := a.spec.(tags := result);
  }

  /******* What the operations promise together *******/

  // When the order names every key, there is only one list in that order.
  lemma OnlyOneOrder(m: TagMap, order: seq<string>, tags: seq<Tag>)
    requires ListsInOrder(m, order, tags)
    requires forall k | k in m :: k in order
    ensures forall k | k in Pick(order, m.Keys) :: k in m
    ensures tags == ListAt(m, Pick(order, m.Keys))
  {
    PickMeaning(order, m.Keys);
    CanonicalList(tags);
    PrefixWithAll(Pick(order, m.Keys), KeyOrder(tags));
  }

  lemma PrefixWithAll(p: seq<string>, s: seq<string>)
    requires p <= s && NoDup(s)
    requires forall k | k in s :: k in p
    ensures p == s
  {
    if s != [] {
      assert s[|s| - 1] in s;
      var j :| 0 <= j < |p| && p[j] == s[|s| - 1];
      assert s[j] == s[|s| - 1];
    }
  }

  // Converting a list to a map and back.
  ghost function Normal(tags: seq<Tag>): seq<Tag> {
    KeysInOrder(tags);
    PickMeaning(KeyOrder(tags), MapOf(tags).Keys);
    ListAt(MapOf(tags), Pick(KeyOrder(tags), MapOf(tags).Keys))
  }

  // It is what the two conversions make of a list, whatever order the map is walked in.
  method ThereAndBack(tags: seq<Tag>) returns (r: seq<Tag>)
    ensures r == Normal(tags)
  {
    var m, keyOrder := ConvertToOrderedAckTags(tags);
    KeysInOrder(tags);
    r := FromAckTags(m, keyOrder);
    OnlyOneOrder(MapOf(tags), keyOrder, r);
  }

  // Normalising keeps the map, gives each key once, and changes exactly the lists that are
  // not canonical already.
  lemma Normalises(tags: seq<Tag>)
    ensures MapOf(Normal(tags)) == MapOf(tags)
    ensures Canonical(Normal(tags)) && |Normal(tags)| == |MapOf(tags)|
    ensures Normal(tags) == tags <==> Canonical(tags)
    ensures Normal(Normal(tags)) == Normal(tags)
  {
    var ks := Pick(KeyOrder(tags), MapOf(tags).Keys);
    KeysInOrder(tags);
    PickMeaning(KeyOrder(tags), MapOf(tags).Keys);
    ListAtMeaning(MapOf(tags), ks);
    assert MapOf(Normal(tags)) == MapOf(tags);
    CanonicalSize(Normal(tags));
    CanonicalIsNormal(Normal(tags));
    if Canonical(tags) {
      CanonicalIsNormal(tags);
    }
  }

  // Its keys come in the order in which the list names them first.
  lemma NormalisesInOrder(tags: seq<Tag>, i: nat, j: nat)
    requires i < j < |Normal(tags)|
    ensures exists p :: 0 <= p < |tags| && tags[p].key == Normal(tags)[i].key
                        && forall q | 0 <= q <= p :: tags[q].key != Normal(tags)[j].key
  {
    hide Pick, KeyOrder, MapOf;
    KeysInOrder(tags);
    PickMeaning(KeyOrder(tags), MapOf(tags).Keys);
    PickOrder(tags, MapOf(tags).Keys, i, j);
  }

  lemma CanonicalIsNormal(tags: seq<Tag>)
    requires Canonical(tags)
    ensures Normal(tags) == tags
  {
    CanonicalList(tags);
    PickAll(KeyOrder(tags), MapOf(tags).Keys);
  }

  // EnsureTags keeps every existing tag, in front and unchanged, and adds exactly the
  // missing defaults.
  lemma EnsureKeepsExisting(before: seq<Tag>, defaults: TagMap, after: seq<Tag>)
    requires Ensured(before, defaults, after)
    ensures Normal(before) <= after
    ensures MapOf(after).Keys == MapOf(before).Keys + defaults.Keys
    ensures forall k | k in MapOf(before) :: MapOf(after)[k] == MapOf(before)[k]
    ensures forall k | k in defaults && k !in MapOf(before) :: MapOf(after)[k] == defaults[k]
  {
    ExistingLead(before, MapOf(after), after);
  }

  lemma ExistingLead(before: seq<Tag>, m: TagMap, after: seq<Tag>)
    requires ListsInOrder(m, KeyOrder(before), after)
    requires forall k | k in MapOf(before) :: k in m && m[k] == MapOf(before)[k]
    ensures Normal(before) <= after
  {
    var ks := Pick(KeyOrder(before), MapOf(before).Keys);
    KeysInOrder(before);
    PickMeaning(KeyOrder(before), MapOf(before).Keys);
    SamePick(KeyOrder(before), m.Keys, MapOf(before).Keys);
    CanonicalList(after);
    ListPrefix(MapOf(before), m, ks, KeyOrder(after));
  }

  lemma ListPrefix(m: TagMap, m': TagMap, ks: seq<string>, ks': seq<string>)
    requires ks <= ks' && (forall k | k in ks :: k in m) && (forall k | k in ks' :: k in m')
    requires forall k | k in ks :: m'[k] == m[k]
    ensures ListAt(m, ks) <= ListAt(m', ks')
  {
  }

  // A second time, in whatever order the maps are walked, EnsureTags changes nothing.
  lemma EnsureTwice(before: seq<Tag>, defaults: TagMap, once: seq<Tag>, twice: seq<Tag>)
    requires Ensured(before, defaults, once) && Ensured(once, defaults, twice)
    ensures twice == once
  {
    assert defaults + MapOf(once) == MapOf(once);
    KeysInOrder(once);
    OnlyOneOrder(MapOf(once), KeyOrder(once), twice);
    CanonicalIsNormal(once);
  }

  lemma {:induction false} SamePick(order: seq<string>, keys: set<string>, keys': set<string>)
    requires forall k | k in order :: k in keys <==> k in keys'
    ensures Pick(order, keys) == Pick(order, keys')
  {
    if order == [] {
    } else {
      assert forall k | k in order[..|order| - 1] :: k in order;
      SamePick(order[..|order| - 1], keys, keys');
    }
  }

  // Filtering keeps exactly the keys that do not start with "aws:" and are not listed, each once,
  // and is idempotent.
  lemma FilterMeaning(tags: seq<Tag>, systemTags: seq<string>)
    ensures Canonical(Filtered(tags, systemTags))
    ensures var f := Filtered(tags, systemTags);
            && (forall k :: k in MapOf(f) <==> k in MapOf(tags) && !("aws:" <= k) && k !in systemTags)
            && (forall k | k in MapOf(f) :: MapOf(f)[k] == MapOf(tags)[k])
    ensures Filtered(Filtered(tags, systemTags), systemTags) == Filtered(tags, systemTags)
  {
    var m := WithoutSystem(MapOf(tags), systemTags);
    var ks := Pick(KeyOrder(tags), m.Keys);
    KeysInOrder(tags);
    PickMeaning(KeyOrder(tags), m.Keys);
    ListAtMeaning(m, ks);
    var f := Filtered(tags, systemTags);
    assert MapOf(f) == m;
    assert WithoutSystem(m, systemTags) == m;
    PickAll(ks, m.Keys);
  }

  // They come in the order in which the list names them first.
  lemma FilterInOrder(tags: seq<Tag>, systemTags: seq<string>, i: nat, j: nat)
    requires i < j < |Filtered(tags, systemTags)|
    ensures var f := Filtered(tags, systemTags);
            exists p :: 0 <= p < |tags| && tags[p].key == f[i].key && forall q | 0 <= q <= p :: tags[q].key != f[j].key
  {
    hide Pick, KeyOrder, MapOf;
    var m := WithoutSystem(MapOf(tags), systemTags);
    PickMeaning(KeyOrder(tags), m.Keys);
    PickOrder(tags, m.Keys, i, j);
  }

  // Mirroring adds or overwrites exactly the keys of the other resource that start with "aws:",
  // and the existing keys stay in front.
  lemma MirrorMeaning(before: seq<Tag>, latest: TagMap, after: seq<Tag>)
    requires Mirrored(before, latest, after)
    ensures forall k :: k in MapOf(after) <==> k in MapOf(before) || (k in latest && "aws:" <= k)
    ensures forall k | k in MapOf(after) ::
              MapOf(after)[k] == if k in latest && "aws:" <= k then latest[k] else MapOf(before)[k]
    ensures Canonical(after) && |Normal(before)| <= |after|
    ensures forall i | 0 <= i < |Normal(before)| :: after[i].key == Normal(before)[i].key
  {
    hide MapOf, KeyOrder, Pick;
    var ks := Pick(KeyOrder(before), MapOf(before).Keys);
    KeysInOrder(before);
    PickMeaning(KeyOrder(before), MapOf(before).Keys);
    SamePick(KeyOrder(before), MapOf(after).Keys, MapOf(before).Keys);
    CanonicalList(after);
    forall i | 0 <= i < |ks| ensures after[i].key == Normal(before)[i].key {
      assert KeyOrder(after)[i] == ks[i];
    }
  }

  // Mirroring the AWS tags of any other resource first makes no difference to filtering,
  // whatever order the mirrored tags were appended in.
  lemma MirrorThenFilter(before: seq<Tag>, latest: TagMap, after: seq<Tag>, systemTags: seq<string>)
    requires Mirrored(before, latest, after)
    ensures Filtered(after, systemTags) == Filtered(before, systemTags)
  {
    var all := MapOf(before) + AwsPart(latest);
    var m := WithoutSystem(MapOf(before), systemTags);
    assert WithoutSystem(all, systemTags) == m;
    var picked := Pick(KeyOrder(before), all.Keys);
    PickPick(KeyOrder(before), all.Keys, m.Keys);
    PickWithMore(before, latest, after, m.Keys);
  }

  // The appended keys are AWS keys, so they are not among the picked ones.
  lemma PickWithMore(before: seq<Tag>, latest: TagMap, after: seq<Tag>, keys: set<string>)
    requires Mirrored(before, latest, after)
    requires forall k | k in keys :: k in MapOf(before)
    ensures Pick(KeyOrder(after), keys) == Pick(Pick(KeyOrder(before), (MapOf(before) + AwsPart(latest)).Keys), keys)
  {
    var all := MapOf(before) + AwsPart(latest);
    var picked := Pick(KeyOrder(before), all.Keys);
    var more := KeyOrder(after)[|picked|..];
    assert KeyOrder(after) == picked + more;
    KeysInOrder(before);
    PickMeaning(KeyOrder(before), all.Keys);
    PickIgnores(picked, more, keys);
  }
}
