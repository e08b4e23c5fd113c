// pkg/resource/metric_alarm/tags.go: lists of tags, the maps they denote and the
// conversions between the two. Go ranges over a map in any order, so every loop
// over a map picks its next key nondeterministically.

module Tags {
  import opened Wrappers

  type TagMap = map<string, string>

  datatype Tag = Tag(key: Option<string>, value: Option<string>)

  const AWS_PREFIX := "aws:"

  predicate IsAws(k: string) {
    AWS_PREFIX <= k
  }

  predicate IsSystem(k: string, systemTags: seq<string>) {
    IsAws(k) || k in systemTags
  }

  function ValueOf(t: Tag): string {
    t.value.GetOr("")
  }

  // The map a list denotes.
  function MapOf(tags: seq<Tag>): TagMap {
    if tags == [] then
      map[]
    else
      var rest, t := MapOf(tags[..|tags| - 1]), tags[|tags| - 1];
      if t.key.Some? then rest[t.key.value := ValueOf(t)] else rest
  }

  // The keys of a list in list order, repetitions included.
  function KeyOrder(tags: seq<Tag>): seq<string> {
    if tags == [] then
      []
    else
      var rest, t := KeyOrder(tags[..|tags| - 1]), tags[|tags| - 1];
      if t.key.Some? then rest + [t.key.value] else rest
  }

  // The members of keys that occur in order, each once, by first occurrence.
  function Pick(order: seq<string>, keys: set<string>): seq<string> {
    if order == [] then
      []
    else
      var rest, k := Pick(order[..|order| - 1], keys), order[|order| - 1];
      if k in keys && k !in rest then rest + [k] else rest
  }

  function ListAt(m: TagMap, ks: seq<string>): seq<Tag>
    requires forall k | k in ks :: k in m
  {
    seq(|ks|, i requires 0 <= i < |ks| => Tag(Some(ks[i]), Some(m[ks[i]])))
  }

  ghost predicate NoDup<T>(s: seq<T>) {
    forall i, j | 0 <= i < j < |s| :: s[i] != s[j]
  }

  // Every tag has a key and a value, and no key occurs twice.
  ghost predicate Canonical(tags: seq<Tag>) {
    && (forall t | t in tags :: t.key.Some? && t.value.Some?)
    && (forall i, j | 0 <= i < j < |tags| :: tags[i].key != tags[j].key)
  }

  // tags holds every entry of m once, those named by order first and in that order.
  ghost predicate ListsInOrder(m: TagMap, order: seq<string>, tags: seq<Tag>) {
    && Canonical(tags)
    && MapOf(tags) == m
    && Pick(order, m.Keys) <= KeyOrder(tags)
  }

  function AwsPart(m: TagMap): TagMap {
    map k | k in m && IsAws(k) :: m[k]
  }

  function WithoutSystem(m: TagMap, systemTags: seq<string>): TagMap {
    map k | k in m && !IsSystem(k, systemTags) :: m[k]
  }

  /******* What the two list functions mean *******/

  lemma {:induction false} MapOfMeaning(tags: seq<Tag>, k: string)
    ensures k in MapOf(tags) <==> exists i :: 0 <= i < |tags| && tags[i].key == Some(k)
    ensures k in MapOf(tags) ==>
              exists i :: 0 <= i < |tags| && tags[i].key == Some(k)
                          && MapOf(tags)[k] == (if tags[i].value.Some? then tags[i].value.value else "")
                          && forall j | i < j < |tags| :: tags[j].key != Some(k)
  {
    if tags == [] {
    } else {
      var n := |tags| - 1;
      MapOfMeaning(tags[..n], k);
      if tags[n].key == Some(k) {
        assert 0 <= n < |tags| && tags[n].key == Some(k);
      } else if k in MapOf(tags[..n]) {
        var i :| 0 <= i < n && tags[..n][i].key == Some(k) && MapOf(tags[..n])[k] == ValueOf(tags[..n][i])
                 && forall j | i < j < n :: tags[..n][j].key != Some(k);
        assert tags[i].key == Some(k);
        assert forall j | i < j < |tags| :: tags[j].key != Some(k) by {
          forall j | i < j < n ensures tags[j].key != Some(k) {
            assert tags[..n][j] == tags[j];
          }
        }
      } else {
        forall i | 0 <= i < |tags| ensures tags[i].key != Some(k) {
          if i < n { assert tags[..n][i] == tags[i]; }
        }
      }
    }
  }

  lemma {:induction false} KeysInOrder(tags: seq<Tag>)
    ensures forall k :: k in KeyOrder(tags) <==> k in MapOf(tags)
  {
    if tags == [] {
    } else {
      KeysInOrder(tags[..|tags| - 1]);
    }
  }

  lemma {:induction false} PickMeaning(order: seq<string>, keys: set<string>)
    ensures NoDup(Pick(order, keys))
    ensures forall k :: k in Pick(order, keys) <==> k in order && k in keys
  {
    if order == [] {
    } else {
      var n := |order| - 1;
      PickMeaning(order[..n], keys);
      assert order == order[..n] + [order[n]];
    }
  }

  // The picked keys are in the order in which the list names them first.
  lemma {:induction false} PickOrder(tags: seq<Tag>, keys: set<string>, i: nat, j: nat)
    requires i < j < |Pick(KeyOrder(tags), keys)|
    ensures var ks := Pick(KeyOrder(tags), keys);
            exists p :: 0 <= p < |tags| && tags[p].key == Some(ks[i])
                        && forall q | 0 <= q <= p :: tags[q].key != Some(ks[j])
  {
    var n := |tags| - 1;
    var order, ks := KeyOrder(tags[..n]), Pick(KeyOrder(tags), keys);
    var front := Pick(order, keys);
    KeysInOrder(tags[..n]);
    PickMeaning(order, keys);
    assert tags[n].key.Some? ==> (order + [tags[n].key.value])[..|order|] == order;
    assert ks == front || (tags[n].key.Some? && ks == front + [tags[n].key.value]);
    if j < |front| {
      PickOrder(tags[..n], keys, i, j);
      var p :| 0 <= p < n && tags[..n][p].key == Some(ks[i])
               && forall q | 0 <= q <= p :: tags[..n][q].key != Some(ks[j]);
      assert tags[p].key == Some(ks[i]) && forall q | 0 <= q <= p :: tags[q] == tags[..n][q];
    } else {
      MapOfMeaning(tags[..n], ks[i]);
      MapOfMeaning(tags[..n], ks[j]);
      assert ks[i] in front;
      var p :| 0 <= p < n && tags[..n][p].key == Some(ks[i]);
      assert tags[p].key == Some(ks[i]);
      forall q | 0 <= q <= p ensures tags[q].key != Some(ks[j]) {
        assert tags[q] == tags[..n][q];
      }
    }
  }

  // Picking twice is picking once from the smaller set.
  lemma {:induction false} PickPick(order: seq<string>, keys: set<string>, fewer: set<string>)
    requires fewer <= keys
    ensures Pick(Pick(order, keys), fewer) == Pick(order, fewer)
  {
    if order == [] {
    } else {
      var n := |order| - 1;
      PickPick(order[..n], keys, fewer);
      var p := Pick(order[..n], keys);
      PickMeaning(order[..n], keys);
      PickMeaning(p, fewer);
      PickMeaning(order[..n], fewer);
      assert (p + [order[n]])[..|p|] == p;
    }
  }

  // Names that are not wanted, or already seen, may be dropped from the end of the order.
  lemma {:induction false} PickIgnores(order: seq<string>, more: seq<string>, keys: set<string>)
    requires forall k | k in more && k in keys :: k in order
    ensures Pick(order + more, keys) == Pick(order, keys)
  {
    if more == [] {
      assert order + more == order;
    } else {
      var n := |more| - 1;
      assert (order + more)[..|order + more| - 1] == order + more[..n];
      PickIgnores(order, more[..n], keys);
      PickMeaning(order + more[..n], keys);
    }
  }

  lemma {:induction false} PickAll(order: seq<string>, keys: set<string>)
    requires NoDup(order) && forall k | k in order :: k in keys
    ensures Pick(order, keys) == order
  {
    if order == [] {
    } else {
      var n := |order| - 1;
      PickAll(order[..n], keys);
      assert order == order[..n] + [order[n]];
    }
  }

  lemma {:induction false} KeysOfFullList(tags: seq<Tag>)
    requires forall i | 0 <= i < |tags| :: tags[i].key.Some?
    ensures |KeyOrder(tags)| == |tags|
    ensures forall i | 0 <= i < |tags| :: KeyOrder(tags)[i] == tags[i].key.value
  {
    if tags == [] {
    } else {
      var n := |tags| - 1;
      KeysOfFullList(tags[..n]);
    }
  }

  // A canonical list is determined by its map and its key order.
  lemma CanonicalList(tags: seq<Tag>)
    requires Canonical(tags)
    ensures |KeyOrder(tags)| == |tags| && NoDup(KeyOrder(tags))
    ensures forall k :: k in KeyOrder(tags) <==> k in MapOf(tags)
    ensures forall k | k in KeyOrder(tags) :: k in MapOf(tags)
    ensures tags == ListAt(MapOf(tags), KeyOrder(tags))
  {
    KeysOfFullList(tags);
    KeysInOrder(tags);
    forall i | 0 <= i < |tags|
      ensures tags[i] == Tag(Some(KeyOrder(tags)[i]), Some(MapOf(tags)[KeyOrder(tags)[i]]))
    {
      MapOfMeaning(tags, KeyOrder(tags)[i]);
    }
  }

  // One tag for each entry of the map.
  lemma {:induction false} CanonicalSize(tags: seq<Tag>)
    requires Canonical(tags)
    ensures |tags| == |MapOf(tags)|
  {
    if tags == [] {
    } else {
      var n := |tags| - 1;
      assert forall t | t in tags[..n] :: t in tags;
      CanonicalSize(tags[..n]);
      MapOfMeaning(tags[..n], tags[n].key.value);
    }
  }

  lemma ListAtMeaning(m: TagMap, ks: seq<string>)
    requires NoDup(ks) && forall k | k in ks :: k in m
    ensures Canonical(ListAt(m, ks))
    ensures KeyOrder(ListAt(m, ks)) == ks
    ensures MapOf(ListAt(m, ks)) == map k | k in ks :: m[k]
  {
    var l := ListAt(m, ks);
    KeysOfFullList(l);
    assert KeyOrder(l) == ks;
    KeysInOrder(l);
    forall k | k in ks ensures MapOf(l)[k] == m[k] {
      MapOfMeaning(l, k);
    }
  }
}
