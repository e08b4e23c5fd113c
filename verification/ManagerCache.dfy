// ManagerFor of pkg/resource/metric_alarm/manager_factory.go: a cache of resource managers
// under a read/write lock. The method comes first, run alone; then its steps, interleaved
// in any order by any number of callers.

module ManagerCache {
  import opened Wrappers

  datatype Request = Request(account: string, region: string, role: string)

  function Key(q: Request): string {
    q.account + "/" + q.region + "/" + q.role
  }

  class ResourceManager {
    const account: string
    const region: string

    constructor (account: string, region: string)
      ensures this.account == account && this.region == region
    {
      this.account, this.region := account, region;
    }
  }

  class ManagerFactory {
    var rmCache: map<string, ResourceManager>
    ghost var made: seq<ResourceManager>   // in the order in which they were made

    constructor ()
      ensures rmCache == map[] && made == []
    {
      rmCache, made := map[], [];
    }

    method ManagerFor(q: Request) returns (rm: ResourceManager)
      modifies this
      ensures if Key(q) in old(rmCache) then rm == old(rmCache)[Key(q)] && rmCache == old(rmCache)
              else fresh(rm) && rm.account == q.account && rm.region == q.region
                   && rmCache == old(rmCache)[Key(q) := rm]
      ensures made == if Key(q) in old(rmCache) then old(made) else old(made) + [rm]
    {
      var rmId := Key(q);
      if rmId in rmCache {
        return rmCache[rmId];
      }
      rm := new ResourceManager(q.account, q.region);
      rmCache, made := rmCache[rmId := rm], made + [rm];
    }
  }

  /******* The steps of concurrent calls *******/

  // serial tells one manager object from another.
  datatype Manager = Manager(serial: nat, account: string, region: string)

  // Where a call is: before RLock, inside the read lock before and after the lookup, between
  // the locks, waiting in Lock for the readers to leave, inside the write lock before and
  // after each of its two steps, returned.
  datatype Pc =
    | Start | Reading | Looked(found: Option<Manager>)
    | Missed | Waiting | Locked | Created(created: Manager) | Stored(stored: Manager)
    | Done(result: Manager)

  // writer is the call that has announced itself in Lock: from then on no call gets into
  // either lock, and the writer gets in when the last reader has left, as in sync.RWMutex.
  datatype State = State(
    pcs: seq<Pc>, cache: map<string, Manager>, readers: set<nat>, writer: Option<nat>, made: nat)

  function Initial(n: nat): State {
    State(seq(n, _ => Start), map[], {}, None, 0)
  }

  function At(s: State, i: nat, pc: Pc): State
    requires i < |s.pcs|
  {
    s.(pcs := s.pcs[i := pc])
  }

  // The next step of call i; a call that has to wait for a lock, or is done, stays as it is.
  function Step(qs: seq<Request>, s: State, i: nat): State
    requires |s.pcs| == |qs| && i < |qs|
  {
    match s.pcs[i]
    case Start => if s.writer.Some? then s else At(s, i, Reading).(readers := s.readers + {i})
    case Reading =>
      At(s, i, Looked(if Key(qs[i]) in s.cache then Some(s.cache[Key(qs[i])]) else None))
    case Looked(found) =>
      At(s, i, if found.Some? then Done(found.value) else Missed).(readers := s.readers - {i})
    case Missed => if s.writer.Some? then s else At(s, i, Waiting).(writer := Some(i))
    case Waiting => if s.readers != {} then s else At(s, i, Locked)
    case Locked => At(s, i, Created(Manager(s.made, qs[i].account, qs[i].region))).(made := s.made + 1)
    case Created(m) => At(s, i, Stored(m)).(cache := s.cache[Key(qs[i]) := m])
    case Stored(m) => At(s, i, Done(m)).(writer := None)
    case Done(_) => s
  }

  // A schedule says whose turn it is; every interleaving is one.
  ghost predicate Schedule(qs: seq<Request>, schedule: seq<nat>) {
    forall t | 0 <= t < |schedule| :: schedule[t] < |qs|
  }

  ghost function Run(qs: seq<Request>, s: State, schedule: seq<nat>): (r: State)
    requires |s.pcs| == |qs| && Schedule(qs, schedule)
    ensures |r.pcs| == |qs|
  {
    if schedule == [] then s else Step(qs, Run(qs, s, schedule[..|schedule| - 1]), schedule[|schedule| - 1])
  }

  /******* The invariant *******/

  predicate HoldsRead(pc: Pc) {
    pc.Reading? || pc.Looked?
  }

  predicate HoldsWrite(pc: Pc) {
    pc.Locked? || pc.Created? || pc.Stored?
  }

  // The lock is a read/write lock: nobody else is inside while a call holds it for writing.
  // Of the calls in Lock or beyond, at most one has announced itself.
  ghost predicate LockInvariant(s: State) {
    && (forall i | 0 <= i < |s.pcs| :: HoldsRead(s.pcs[i]) <==> i in s.readers)
    && (forall i | 0 <= i < |s.pcs| :: HoldsWrite(s.pcs[i]) || s.pcs[i].Waiting? <==> s.writer == Some(i))
    && (forall i | i in s.readers :: i < |s.pcs|)
    && (s.writer.Some? ==> s.writer.value < |s.pcs|)
    && (forall i | 0 <= i < |s.pcs| && HoldsWrite(s.pcs[i]) :: s.readers == {})
  }

  predicate MadeFor(m: Manager, q: Request) {
    m.account == q.account && m.region == q.region
  }

  // m was made by a call with key k.
  ghost predicate Origin(qs: seq<Request>, k: string, m: Manager) {
    exists i :: 0 <= i < |qs| && Key(qs[i]) == k && MadeFor(m, qs[i])
  }

  function ManagerAt(pc: Pc): Option<Manager> {
    match pc
    case Looked(found) => found
    case Created(m) => Some(m)
    case Stored(m) => Some(m)
    case Done(m) => Some(m)
    case _ => None
  }

  ghost predicate CacheInvariant(qs: seq<Request>, s: State)
    requires |s.pcs| == |qs|
  {
    && (forall k | k in s.cache :: Origin(qs, k, s.cache[k]))
    && (forall i | 0 <= i < |qs| :: ManagerAt(s.pcs[i]).Some? ==> Origin(qs, Key(qs[i]), ManagerAt(s.pcs[i]).value))
  }

  lemma StepKeepsLock(qs: seq<Request>, s: State, i: nat)
    requires |s.pcs| == |qs| && i < |qs| && LockInvariant(s)
    ensures LockInvariant(Step(qs, s, i))
  {
  }

  lemma StepKeepsCache(qs: seq<Request>, s: State, i: nat)
    requires |s.pcs| == |qs| && i < |qs| && CacheInvariant(qs, s)
    ensures CacheInvariant(qs, Step(qs, s, i))
  {
    assert s.pcs[i].Locked? ==> MadeFor(Manager(s.made, qs[i].account, qs[i].region), qs[i]);
  }

  lemma {:induction false} Invariants(qs: seq<Request>, schedule: seq<nat>)
    requires Schedule(qs, schedule)
    ensures var s := Run(qs, Initial(|qs|), schedule);
            LockInvariant(s) && CacheInvariant(qs, s)
  {
    if schedule == [] {
    } else {
      var n := |schedule| - 1;
      Invariants(qs, schedule[..n]);
      StepKeepsLock(qs, Run(qs, Initial(|qs|), schedule[..n]), schedule[n]);
      StepKeepsCache(qs, Run(qs, Initial(|qs|), schedule[..n]), schedule[n]);
    }
  }

  // In every interleaving, while a call is between Lock and Unlock, no other is, and none is
  // between RLock and RUnlock.
  lemma NobodyBesideTheWriter(qs: seq<Request>, schedule: seq<nat>, i: nat, j: nat)
    requires Schedule(qs, schedule) && i < |qs| && j < |qs| && i != j
    ensures var pcs := Run(qs, Initial(|qs|), schedule).pcs;
            pcs[i].Locked? || pcs[i].Created? || pcs[i].Stored? ==>
              !(pcs[j].Reading? || pcs[j].Looked? || pcs[j].Locked? || pcs[j].Created? || pcs[j].Stored?)
  {
    hide CacheInvariant, Run, Step;
    Invariants(qs, schedule);
    var s := Run(qs, Initial(|qs|), schedule);
    assert HoldsRead(s.pcs[j]) <==> j in s.readers;
    assert HoldsWrite(s.pcs[j]) ==> s.writer == Some(j);
    assert HoldsWrite(s.pcs[i]) ==> s.writer == Some(i) && s.readers == {};
  }

  /******* Keys *******/

  predicate SlashFree(t: string) {
    '/' !in t
  }

  lemma NoEarlierSlash(a: string, rest: string, b: string, rest': string)
    requires SlashFree(b) && a + "/" + rest == b + "/" + rest'
    ensures |b| <= |a|
  {
    assert (a + "/" + rest)[|a|] == '/';
    assert forall i | 0 <= i < |b| :: (b + "/" + rest')[i] == b[i];
  }

  lemma FirstSlash(a: string, rest: string, b: string, rest': string)
    requires SlashFree(a) && SlashFree(b)
    requires a + "/" + rest == b + "/" + rest'
    ensures a == b && rest == rest'
  {
    NoEarlierSlash(a, rest, b, rest');
    NoEarlierSlash(b, rest', a, rest);
    var w := a + "/" + rest;
    assert w == b + "/" + rest';
    assert w[..|a|] == a && w[..|b|] == b;
    assert w[|a| + 1..] == rest && w[|b| + 1..] == rest';
  }

  // Without slashes in account and region a key determines the request.
  lemma KeyInjective(p: Request, q: Request)
    requires SlashFree(p.account) && SlashFree(p.region) && SlashFree(q.account) && SlashFree(q.region)
    requires Key(p) == Key(q)
    ensures p == q
  {
    assert Key(p) == p.account + "/" + (p.region + "/" + p.role);
    assert Key(q) == q.account + "/" + (q.region + "/" + q.role);
    FirstSlash(p.account, p.region + "/" + p.role, q.account, q.region + "/" + q.role);
    FirstSlash(p.region, p.role, q.region, q.role);
  }

  // Calls whose account and region differ never share a key.
  ghost predicate KeysTellApart(qs: seq<Request>) {
    forall i, j | 0 <= i < |qs| && 0 <= j < |qs| && Key(qs[i]) == Key(qs[j]) ::
      qs[i].account == qs[j].account && qs[i].region == qs[j].region
  }

  lemma SlashFreeKeysTellApart(qs: seq<Request>)
    requires forall i | 0 <= i < |qs| :: SlashFree(qs[i].account) && SlashFree(qs[i].region)
    ensures KeysTellApart(qs)
  {
    forall i, j | 0 <= i < |qs| && 0 <= j < |qs| && Key(qs[i]) == Key(qs[j])
      ensures qs[i] == qs[j]
    {
      KeyInjective(qs[i], qs[j]);
    }
  }

  /******* What calls return *******/

  ghost predicate Returns(qs: seq<Request>, schedule: seq<nat>, i: nat, m: Manager)
    requires Schedule(qs, schedule) && i < |qs|
  {
    Run(qs, Initial(|qs|), schedule).pcs[i] == Done(m)
  }

  ghost predicate AlwaysRight(qs: seq<Request>) {
    forall schedule, i, m | Schedule(qs, schedule) && 0 <= i < |qs| && Returns(qs, schedule, i, m) :: MadeFor(m, qs[i])
  }

  // In every interleaving every call returns a manager for its own account and region,
  // exactly if the keys tell the calls apart.
  lemma ReturnsExactly(qs: seq<Request>)
    ensures AlwaysRight(qs) <==> KeysTellApart(qs)
  {
    if KeysTellApart(qs) {
      forall schedule, i: nat, m | Schedule(qs, schedule) && i < |qs| && Returns(qs, schedule, i, m)
        ensures MadeFor(m, qs[i])
      {
        Invariants(qs, schedule);
        assert ManagerAt(Run(qs, Initial(|qs|), schedule).pcs[i]) == Some(m);
      }
    } else {
      var i, j :| 0 <= i < |qs| && 0 <= j < |qs| && Key(qs[i]) == Key(qs[j])
                  && !(qs[i].account == qs[j].account && qs[i].region == qs[j].region);
      MixUp(qs, i, j);
    }
  }

  // Accounts and regions have no slashes, so this is the case that occurs.
  lemma SlashFreeCallsAreRight(qs: seq<Request>)
    requires forall i | 0 <= i < |qs| :: SlashFree(qs[i].account) && SlashFree(qs[i].region)
    ensures AlwaysRight(qs)
  {
    SlashFreeKeysTellApart(qs);
    ReturnsExactly(qs);
  }

  /******* One call at a time *******/

  ghost predicate Idle(s: State) {
    s.readers == {} && s.writer.None?
  }

  // What ManagerFor does alone, on managers as values.
  function Alone(qs: seq<Request>, s: State, i: nat): State
    requires |s.pcs| == |qs| && i < |qs|
  {
    var k := Key(qs[i]);
    if k in s.cache then
      At(s, i, Done(s.cache[k]))
    else
      var m := Manager(s.made, qs[i].account, qs[i].region);
      At(s, i, Done(m)).(cache := s.cache[k := m], made := s.made + 1)
  }

  // m stands for the object rm: it is the one made at its serial number.
  ghost predicate StandsFor(f: ManagerFactory, m: Manager, rm: ResourceManager)
    reads f
  {
    m.serial < |f.made| && f.made[m.serial] == rm && m.account == rm.account && m.region == rm.region
  }

  // The cache of s is the cache of the factory.
  ghost predicate Abstracts(s: State, f: ManagerFactory)
    reads f
  {
    && s.made == |f.made| && s.cache.Keys == f.rmCache.Keys
    && forall k | k in s.cache :: StandsFor(f, s.cache[k], f.rmCache[k])
  }

  // The method on the factory is Alone on the state that abstracts it.
  method ManagerForIsAlone(f: ManagerFactory, ghost qs: seq<Request>, ghost s: State, ghost i: nat, q: Request)
    returns (rm: ResourceManager)
    requires |s.pcs| == |qs| && i < |qs| && qs[i] == q && Abstracts(s, f)
    modifies f
    ensures Abstracts(Alone(qs, s, i), f)
    ensures Alone(qs, s, i).pcs[i].Done? && StandsFor(f, Alone(qs, s, i).pcs[i].result, rm)
  {
    rm := f.ManagerFor(q);
  }

  ghost function Turns(i: nat, n: nat): seq<nat> {
    seq(n, _ => i)
  }

  lemma OneMore(qs: seq<Request>, s: State, schedule: seq<nat>, i: nat)
    requires |s.pcs| == |qs| && Schedule(qs, schedule) && i < |qs|
    ensures Schedule(qs, schedule + [i])
    ensures Run(qs, s, schedule + [i]) == Step(qs, Run(qs, s, schedule), i)
  {
    assert (schedule + [i])[..|schedule|] == schedule;
  }

  lemma {:induction false} RunInParts(qs: seq<Request>, s: State, first: seq<nat>, second: seq<nat>)
    requires |s.pcs| == |qs| && Schedule(qs, first) && Schedule(qs, second)
    ensures Schedule(qs, first + second)
    ensures Run(qs, s, first + second) == Run(qs, Run(qs, s, first), second)
  {
    if second == [] {
      assert first + second == first;
    } else {
      var n := |second| - 1;
      RunInParts(qs, s, first, second[..n]);
      assert first + second == (first + second[..n]) + [second[n]];
      OneMore(qs, s, first + second[..n], second[n]);
    }
  }

  ghost function Turn(qs: seq<Request>, s: State, i: nat, n: nat): (r: State)
    requires |s.pcs| == |qs| && i < |qs|
    ensures |r.pcs| == |qs|
  {
    if n == 0 then s else Step(qs, Turn(qs, s, i, n - 1), i)
  }

  lemma {:induction false} TurnIsRun(qs: seq<Request>, s: State, i: nat, n: nat)
    requires |s.pcs| == |qs| && i < |qs|
    ensures Schedule(qs, Turns(i, n))
    ensures Run(qs, s, Turns(i, n)) == Turn(qs, s, i, n)
  {
    if n == 0 {
    } else {
      TurnIsRun(qs, s, i, n - 1);
      assert Turns(i, n) == Turns(i, n - 1) + [i];
      OneMore(qs, s, Turns(i, n - 1), i);
    }
  }

  lemma {:induction false} TurnInParts(qs: seq<Request>, s: State, i: nat, n: nat, m: nat)
    requires |s.pcs| == |qs| && i < |qs|
    ensures Turn(qs, s, i, n + m) == Turn(qs, Turn(qs, s, i, n), i, m)
  {
    hide Step;
    if m == 0 {
    } else {
      TurnInParts(qs, s, i, n, m - 1);
    }
  }

  // Three undisturbed turns settle the lookup.
  lemma ThreeTurns(qs: seq<Request>, s: State, i: nat)
    requires |s.pcs| == |qs| && i < |qs| && Idle(s) && s.pcs[i].Start?
    ensures Turn(qs, s, i, 3) == if Key(qs[i]) in s.cache then At(s, i, Done(s.cache[Key(qs[i])])) else At(s, i, Missed)
  {
    assert Turn(qs, s, i, 1) == Step(qs, s, i);
    assert Turn(qs, s, i, 2) == Step(qs, Turn(qs, s, i, 1), i);
    assert Turn(qs, s, i, 2).readers - {i} == {};
  }

  // Five more make a manager and store it, whatever is in the cache by then.
  lemma FiveTurns(qs: seq<Request>, s: State, i: nat)
    requires |s.pcs| == |qs| && i < |qs| && Idle(s) && s.pcs[i].Missed?
    ensures var m := Manager(s.made, qs[i].account, qs[i].region);
            Turn(qs, s, i, 5) == At(s, i, Done(m)).(cache := s.cache[Key(qs[i]) := m], made := s.made + 1)
  {
    var m := Manager(s.made, qs[i].account, qs[i].region);
    assert Turn(qs, s, i, 1) == At(s, i, Waiting).(writer := Some(i));
    assert Turn(qs, s, i, 2) == At(s, i, Locked).(writer := Some(i));
    assert Turn(qs, s, i, 3) == At(s, i, Created(m)).(writer := Some(i), made := s.made + 1);
    assert Turn(qs, s, i, 4)
           == At(s, i, Stored(m)).(writer := Some(i), made := s.made + 1, cache := s.cache[Key(qs[i]) := m]);
  }

  // Eight undisturbed turns are the method run alone.
  lemma EightTurns(qs: seq<Request>, s: State, i: nat)
    requires |s.pcs| == |qs| && i < |qs| && Idle(s) && s.pcs[i].Start?
    ensures Turn(qs, s, i, 8) == Alone(qs, s, i)
  {
    ThreeTurns(qs, s, i);
    TurnInParts(qs, s, i, 3, 5);
    if Key(qs[i]) in s.cache {
      DoneStays(qs, At(s, i, Done(s.cache[Key(qs[i])])), i, 5);
    } else {
      FiveTurns(qs, At(s, i, Missed), i);
    }
  }

  lemma {:induction false} DoneStays(qs: seq<Request>, s: State, i: nat, n: nat)
    requires |s.pcs| == |qs| && i < |qs| && s.pcs[i].Done?
    ensures Turn(qs, s, i, n) == s
  {
    if n == 0 {
    } else {
      DoneStays(qs, s, i, n - 1);
    }
  }

  // Two calls that share a key but not account and region: the second gets the manager of the first.
  lemma MixUp(qs: seq<Request>, i: nat, j: nat)
    requires i < |qs| && j < |qs| && Key(qs[i]) == Key(qs[j])
    requires !(qs[i].account == qs[j].account && qs[i].region == qs[j].region)
    ensures !AlwaysRight(qs)
  {
    var s := Initial(|qs|);
    var s1 := Alone(qs, s, i);
    var m := s1.cache[Key(qs[i])];
    EightTurns(qs, s, i);
    TurnIsRun(qs, s, i, 8);
    EightTurns(qs, s1, j);
    TurnIsRun(qs, s1, j, 8);
    RunInParts(qs, s, Turns(i, 8), Turns(j, 8));
    assert Returns(qs, Turns(i, 8) + Turns(j, 8), j, m);
  }

  // Such calls exist once slashes are allowed.
  lemma SlashesCollide()
    ensures Key(Request("a/b", "c", "r")) == Key(Request("a", "b/c", "r"))
    ensures !AlwaysRight([Request("a/b", "c", "r"), Request("a", "b/c", "r")])
  {
    var p, q := Request("a/b", "c", "r"), Request("a", "b/c", "r");
    assert Key(p) == "a/b/c/r" == Key(q);
    MixUp([p, q], 0, 1);
  }

  /******* Keys stay, and stored managers are found *******/

  lemma {:induction false} KeysNeverLost(qs: seq<Request>, s: State, schedule: seq<nat>)
    requires |s.pcs| == |qs| && Schedule(qs, schedule)
    ensures s.cache.Keys <= Run(qs, s, schedule).cache.Keys
  {
    if schedule == [] {
    } else {
      KeysNeverLost(qs, s, schedule[..|schedule| - 1]);
    }
  }

  // Where a call can be that has found, or will find, its key.
  predicate MakesNothing(pc: Pc) {
    pc.Start? || pc.Reading? || (pc.Looked? && pc.found.Some?) || pc.Done?
  }

  // A call that has not looked yet when its key is in the cache never makes a manager.
  lemma {:induction false} FoundAfterStore(qs: seq<Request>, s: State, schedule: seq<nat>, i: nat)
    requires |s.pcs| == |qs| && Schedule(qs, schedule) && i < |qs|
    requires Key(qs[i]) in s.cache && (s.pcs[i].Start? || s.pcs[i].Reading?)
    ensures MakesNothing(Run(qs, s, schedule).pcs[i])
  {
    if schedule == [] {
    } else {
      var n := |schedule| - 1;
      FoundAfterStore(qs, s, schedule[..n], i);
      KeysNeverLost(qs, s, schedule[..n]);
    }
  }

  /******* Who makes a manager *******/

  // At turn t of a schedule call i looks its key up.
  ghost predicate LooksAt(qs: seq<Request>, schedule: seq<nat>, t: nat, i: nat)
    requires Schedule(qs, schedule) && i < |qs|
  {
    t < |schedule| && schedule[t] == i && Run(qs, Initial(|qs|), schedule[..t]).pcs[i].Reading?
  }

  // Some turn before t stores a manager under k.
  ghost predicate StoredBefore(qs: seq<Request>, schedule: seq<nat>, t: nat, k: string)
    requires Schedule(qs, schedule) && t <= |schedule|
  {
    exists u | 0 <= u < t ::
      Run(qs, Initial(|qs|), schedule[..u]).pcs[schedule[u]].Created? && Key(qs[schedule[u]]) == k
  }

  lemma StoredLast(qs: seq<Request>, schedule: seq<nat>, t: nat, k: string)
    requires Schedule(qs, schedule) && t < |schedule|
    ensures StoredBefore(qs, schedule, t + 1, k) <==>
              || StoredBefore(qs, schedule, t, k)
              || (Run(qs, Initial(|qs|), schedule[..t]).pcs[schedule[t]].Created? && Key(qs[schedule[t]]) == k)
  {
    hide Run, Key;
  }

  lemma StepStores(qs: seq<Request>, s: State, i: nat, k: string)
    requires |s.pcs| == |qs| && i < |qs|
    ensures k in Step(qs, s, i).cache <==> k in s.cache || (s.pcs[i].Created? && Key(qs[i]) == k)
  {
  }

  lemma RunLast(qs: seq<Request>, s: State, schedule: seq<nat>, t: nat)
    requires |s.pcs| == |qs| && Schedule(qs, schedule) && t < |schedule|
    ensures Run(qs, s, schedule[..t + 1]) == Step(qs, Run(qs, s, schedule[..t]), schedule[t])
  {
    assert schedule[..t + 1][..t] == schedule[..t];
  }

  lemma {:induction false} CachedExactly(qs: seq<Request>, schedule: seq<nat>, t: nat, k: string)
    requires Schedule(qs, schedule) && t <= |schedule|
    ensures k in Run(qs, Initial(|qs|), schedule[..t]).cache <==> StoredBefore(qs, schedule, t, k)
  {
    if t == 0 {
    } else {
      hide Run, Step, StoredBefore;
      CachedExactly(qs, schedule, t - 1, k);
      RunLast(qs, Initial(|qs|), schedule, t - 1);
      StepStores(qs, Run(qs, Initial(|qs|), schedule[..t - 1]), schedule[t - 1], k);
      StoredLast(qs, schedule, t - 1, k);
    }
  }

  // Where a call is after a lookup in a state with made managers that gave found.
  predicate Follows(pc: Pc, found: Option<Manager>, made: nat, q: Request) {
    match pc
    case Start => false
    case Reading => false
    case Looked(f) => f == found
    case Done(m) => if found.Some? then m == found.value else m.serial >= made && MadeFor(m, q)
    case Created(m) => found.None? && m.serial >= made && MadeFor(m, q)
    case Stored(m) => found.None? && m.serial >= made && MadeFor(m, q)
    case _ => found.None?
  }

  lemma FollowsOn(qs: seq<Request>, s: State, j: nat, i: nat, found: Option<Manager>, made: nat)
    requires |s.pcs| == |qs| && i < |qs| && j < |qs|
    requires s.made >= made && Follows(s.pcs[i], found, made, qs[i])
    ensures Step(qs, s, j).made >= made && Follows(Step(qs, s, j).pcs[i], found, made, qs[i])
  {
  }

  lemma {:induction false} AfterLookup(
    qs: seq<Request>, schedule: seq<nat>, t: nat, n: nat, i: nat, found: Option<Manager>)
    requires Schedule(qs, schedule) && i < |qs| && LooksAt(qs, schedule, t, i) && t < n <= |schedule|
    requires var s := Run(qs, Initial(|qs|), schedule[..t]);
             found == if Key(qs[i]) in s.cache then Some(s.cache[Key(qs[i])]) else None
    ensures var s, r := Run(qs, Initial(|qs|), schedule[..t]), Run(qs, Initial(|qs|), schedule[..n]);
            r.made >= s.made && Follows(r.pcs[i], found, s.made, qs[i])
  {
    hide Run, Follows;
    var made := Run(qs, Initial(|qs|), schedule[..t]).made;
    RunLast(qs, Initial(|qs|), schedule, n - 1);
    if n == t + 1 {
      LookupFollows(found, made, qs[i]);
    } else {
      hide Step;
      AfterLookup(qs, schedule, t, n - 1, i, found);
      FollowsOn(qs, Run(qs, Initial(|qs|), schedule[..n - 1]), schedule[n - 1], i, found, made);
    }
  }

  lemma LookupFollows(found: Option<Manager>, made: nat, q: Request)
    ensures Follows(Looked(found), found, made, q)
  {
  }

  // Every manager in the cache or in a caller's hand is among those made so far.
  ghost predicate MadeSoFar(s: State) {
    && (forall k | k in s.cache :: s.cache[k].serial < s.made)
    && (forall i | 0 <= i < |s.pcs| :: ManagerAt(s.pcs[i]).Some? ==> ManagerAt(s.pcs[i]).value.serial < s.made)
  }

  lemma StepKeepsSerials(qs: seq<Request>, s: State, i: nat)
    requires |s.pcs| == |qs| && i < |qs| && MadeSoFar(s)
    ensures MadeSoFar(Step(qs, s, i))
  {
  }

  lemma {:induction false} SerialsInCache(qs: seq<Request>, schedule: seq<nat>)
    requires Schedule(qs, schedule)
    ensures MadeSoFar(Run(qs, Initial(|qs|), schedule))
  {
    if schedule == [] {
    } else {
      var n := |schedule| - 1;
      SerialsInCache(qs, schedule[..n]);
      StepKeepsSerials(qs, Run(qs, Initial(|qs|), schedule[..n]), schedule[n]);
    }
  }

  lemma {:induction false} EveryCallLooks(qs: seq<Request>, schedule: seq<nat>, n: nat, i: nat)
    requires Schedule(qs, schedule) && i < |qs| && n <= |schedule|
    requires var pc := Run(qs, Initial(|qs|), schedule[..n]).pcs[i]; !pc.Start? && !pc.Reading?
    ensures exists t :: 0 <= t < n && LooksAt(qs, schedule, t, i)
  {
    if n == 0 {
    } else {
      assert schedule[..n][..n - 1] == schedule[..n - 1];
      var before := Run(qs, Initial(|qs|), schedule[..n - 1]).pcs[i];
      if before.Reading? {
        assert LooksAt(qs, schedule, n - 1, i);
      } else if !before.Start? {
        EveryCallLooks(qs, schedule, n - 1, i);
      }
    }
  }

  // Call i, which returned m, looked its key up at turn t. It returned a manager that did not
  // exist then exactly if no call had stored one for the key, otherwise the one in the cache.
  ghost predicate DecidedAt(qs: seq<Request>, schedule: seq<nat>, t: nat, i: nat, m: Manager)
    requires Schedule(qs, schedule) && t <= |schedule| && i < |qs|
  {
    var s, k := Run(qs, Initial(|qs|), schedule[..t]), Key(qs[i]);
    && (m.serial >= s.made <==> !StoredBefore(qs, schedule, t, k))
    && (StoredBefore(qs, schedule, t, k) ==> k in s.cache && m == s.cache[k])
  }

  lemma {:induction false} DecidedByLookup(qs: seq<Request>, schedule: seq<nat>, t: nat, i: nat, m: Manager)
    requires Schedule(qs, schedule) && i < |qs| && Returns(qs, schedule, i, m)
    requires t < |schedule| && LooksAt(qs, schedule, t, i)
    ensures DecidedAt(qs, schedule, t, i, m)
  {
    hide Run, StoredBefore, LooksAt;
    var s, k := Run(qs, Initial(|qs|), schedule[..t]), Key(qs[i]);
    assert schedule[..|schedule|] == schedule;
    CachedExactly(qs, schedule, t, k);
    SerialsInCache(qs, schedule[..t]);
    AfterLookup(qs, schedule, t, |schedule|, i, if k in s.cache then Some(s.cache[k]) else None);
  }

  // Every call that has returned has looked its key up, and that decided whether it made a manager.
  lemma {:induction false} MakesExactly(qs: seq<Request>, schedule: seq<nat>, i: nat, m: Manager)
    requires Schedule(qs, schedule) && i < |qs| && Returns(qs, schedule, i, m)
    ensures exists t :: 0 <= t < |schedule| && LooksAt(qs, schedule, t, i) && DecidedAt(qs, schedule, t, i, m)
    ensures forall t | 0 <= t < |schedule| && LooksAt(qs, schedule, t, i) :: DecidedAt(qs, schedule, t, i, m)
  {
    assert schedule[..|schedule|] == schedule;
    EveryCallLooks(qs, schedule, |schedule|, i);
    forall t | 0 <= t < |schedule| && LooksAt(qs, schedule, t, i) ensures DecidedAt(qs, schedule, t, i, m) {
      DecidedByLookup(qs, schedule, t, i, m);
    }
  }

  // Any two calls for the same key can both miss; then both make a manager, and the second
  // store replaces the first: callers of one key can hold different managers.
  lemma {:induction false} RacingMissesBothCreate(qs: seq<Request>, i: nat, j: nat)
    requires i < |qs| && j < |qs| && i != j && Key(qs[i]) == Key(qs[j])
    ensures exists schedule, m: Manager, m': Manager ::
              && Schedule(qs, schedule) && m.serial != m'.serial
              && Returns(qs, schedule, i, m) && Returns(qs, schedule, j, m')
              && Run(qs, Initial(|qs|), schedule).cache == map[Key(qs[j]) := m']
  {
    var s0 := Initial(|qs|);
    var m, m' := Manager(0, qs[i].account, qs[i].region), Manager(1, qs[j].account, qs[j].region);
    // both miss
    var s1 := At(s0, i, Missed);
    var s2 := At(s1, j, Missed);
    ThreeTurns(qs, s0, i);
    ThreeTurns(qs, s1, j);
    // then each of them creates
    var s3 := At(s2, i, Done(m)).(cache := s2.cache[Key(qs[i]) := m], made := 1);
    var s4 := At(s3, j, Done(m')).(cache := s3.cache[Key(qs[j]) := m'], made := 2);
    FiveTurns(qs, s2, i);
    FiveTurns(qs, s3, j);
    assert s4.cache == map[Key(qs[j]) := m'];
    FourParts(qs, i, j, s1, s2, s3, s4);
    var schedule := Turns(i, 3) + Turns(j, 3) + Turns(i, 5) + Turns(j, 5);
    assert Returns(qs, schedule, i, m) && Returns(qs, schedule, j, m');
  }

  lemma {:induction false} FourParts(qs: seq<Request>, i: nat, j: nat, s1: State, s2: State, s3: State, s4: State)
    requires i < |qs| && j < |qs| && |s1.pcs| == |s2.pcs| == |s3.pcs| == |qs|
    requires Turn(qs, Initial(|qs|), i, 3) == s1 && Turn(qs, s1, j, 3) == s2
    requires Turn(qs, s2, i, 5) == s3 && Turn(qs, s3, j, 5) == s4
    ensures var schedule := Turns(i, 3) + Turns(j, 3) + Turns(i, 5) + Turns(j, 5);
            Schedule(qs, schedule) && Run(qs, Initial(|qs|), schedule) == s4
  {
    hide Turn, Run, Schedule;
    TurnIsRun(qs, Initial(|qs|), i, 3);
    ThenTurns(qs, Turns(i, 3), j, 3);
    ThenTurns(qs, Turns(i, 3) + Turns(j, 3), i, 5);
    ThenTurns(qs, Turns(i, 3) + Turns(j, 3) + Turns(i, 5), j, 5);
  }

  lemma {:induction false} ThenTurns(qs: seq<Request>, first: seq<nat>, i: nat, n: nat)
    requires Schedule(qs, first) && i < |qs|
    ensures Schedule(qs, first + Turns(i, n))
    ensures Run(qs, Initial(|qs|), first + Turns(i, n)) == Turn(qs, Run(qs, Initial(|qs|), first), i, n)
  {
    hide Turn, Run, Schedule;
    TurnIsRun(qs, Run(qs, Initial(|qs|), first), i, n);
    RunInParts(qs, Initial(|qs|), first, Turns(i, n));
  }

  // Calls for one key always hold the same manager.
  ghost predicate OneManagerPerKey(qs: seq<Request>) {
    forall schedule, i, j, m, m' |
      && Schedule(qs, schedule) && 0 <= i < |qs| && 0 <= j < |qs| && Key(qs[i]) == Key(qs[j])
      && Returns(qs, schedule, i, m) && Returns(qs, schedule, j, m') :: m == m'
  }

  // The cache keeps to one manager per key in all interleavings exactly if no two calls share one.
  lemma OneManagerExactly(qs: seq<Request>)
    ensures OneManagerPerKey(qs) <==> forall i, j | 0 <= i < j < |qs| :: Key(qs[i]) != Key(qs[j])
  {
    if i, j :| 0 <= i < j < |qs| && Key(qs[i]) == Key(qs[j]) {
      RacingMissesBothCreate(qs, i, j);
      var schedule, m: Manager, m': Manager :|
        && Schedule(qs, schedule) && m.serial != m'.serial
        && Returns(qs, schedule, i, m) && Returns(qs, schedule, j, m')
        && Run(qs, Initial(|qs|), schedule).cache == map[Key(qs[j]) := m'];
      assert !OneManagerPerKey(qs);
    }
  }

  /******* Every call returns *******/

  // Steps a call still has to take.
  function Left(pc: Pc): nat {
    match pc
    case Start => 8
    case Reading => 7
    case Looked(_) => 6
    case Missed => 5
    case Waiting => 4
    case Locked => 3
    case Created(_) => 2
    case Stored(_) => 1
    case Done(_) => 0
  }

  function LeftInAll(pcs: seq<Pc>): nat {
    if pcs == [] then 0 else LeftInAll(pcs[..|pcs| - 1]) + Left(pcs[|pcs| - 1])
  }

  lemma {:induction false} LeftFalls(pcs: seq<Pc>, i: nat, pc: Pc)
    requires i < |pcs| && Left(pc) < Left(pcs[i])
    ensures LeftInAll(pcs[i := pc]) < LeftInAll(pcs)
  {
    var n := |pcs| - 1;
    if i < n {
      LeftFalls(pcs[..n], i, pc);
      assert pcs[i := pc][..n] == pcs[..n][i := pc];
    } else {
      assert pcs[i := pc][..n] == pcs[..n];
    }
  }

  lemma {:induction false} LeftAtFirst(pcs: seq<Pc>)
    ensures LeftInAll(pcs) <= 8 * |pcs|
    ensures LeftInAll(pcs) == 0 ==> forall i | 0 <= i < |pcs| :: pcs[i].Done?
  {
    if pcs == [] {
    } else {
      LeftAtFirst(pcs[..|pcs| - 1]);
    }
  }

  // A call that cannot take a step now.
  predicate Blocked(s: State, i: nat)
    requires i < |s.pcs|
  {
    || s.pcs[i].Done?
    || ((s.pcs[i].Start? || s.pcs[i].Missed?) && s.writer.Some?)
    || (s.pcs[i].Waiting? && s.readers != {})
  }

  // A turn leaves everything as it is, exactly for a blocked call, or brings the end nearer.
  lemma EveryTurn(qs: seq<Request>, s: State, i: nat)
    requires |s.pcs| == |qs| && i < |qs|
    ensures Step(qs, s, i) == s <==> Blocked(s, i)
    ensures Step(qs, s, i) != s ==> LeftInAll(Step(qs, s, i).pcs) < LeftInAll(s.pcs)
  {
    if !Blocked(s, i) {
      var pc := Step(qs, s, i).pcs[i];
      assert Left(pc) < Left(s.pcs[i]);
      assert Step(qs, s, i).pcs == s.pcs[i := pc];
      LeftFalls(s.pcs, i, pc);
    }
  }

  ghost predicate AllDone(s: State) {
    forall i | 0 <= i < |s.pcs| :: s.pcs[i].Done?
  }

  // The two locks cannot block each other.
  lemma SomeoneMoves(qs: seq<Request>, s: State)
    requires |s.pcs| == |qs| && LockInvariant(s) && !AllDone(s)
    ensures exists i :: 0 <= i < |qs| && !Blocked(s, i)
  {
    if s.readers != {} {
      var i :| i in s.readers;
      assert !Blocked(s, i);
    } else if s.writer.Some? {
      assert !Blocked(s, s.writer.value);
    } else {
      var i :| 0 <= i < |s.pcs| && !s.pcs[i].Done?;
      assert !Blocked(s, i);
    }
  }

  // In every interleaving, as long as some call has not returned, some call can take a step.
  lemma NoDeadlock(qs: seq<Request>, schedule: seq<nat>)
    requires Schedule(qs, schedule) && !AllDone(Run(qs, Initial(|qs|), schedule))
    ensures exists i :: 0 <= i < |qs| && !Blocked(Run(qs, Initial(|qs|), schedule), i)
  {
    Invariants(qs, schedule);
    SomeoneMoves(qs, Run(qs, Initial(|qs|), schedule));
  }

  // The turns of a schedule that changed something.
  ghost function Effective(qs: seq<Request>, s: State, schedule: seq<nat>): nat
    requires |s.pcs| == |qs| && Schedule(qs, schedule)
  {
    if schedule == [] then 0 else
      var before, i := schedule[..|schedule| - 1], schedule[|schedule| - 1];
      Effective(qs, s, before) + if Blocked(Run(qs, s, before), i) then 0 else 1
  }

  // No interleaving of n calls has more than 8n turns that change something.
  lemma {:induction false} EffectiveTurns(qs: seq<Request>, s: State, schedule: seq<nat>)
    requires |s.pcs| == |qs| && Schedule(qs, schedule)
    ensures Effective(qs, s, schedule) + LeftInAll(Run(qs, s, schedule).pcs) <= LeftInAll(s.pcs) <= 8 * |qs|
  {
    if schedule == [] {
      LeftAtFirst(s.pcs);
    } else {
      var n := |schedule| - 1;
      EffectiveTurns(qs, s, schedule[..n]);
      EveryTurn(qs, Run(qs, s, schedule[..n]), schedule[n]);
    }
  }

  // A round gives every call at least one turn.
  ghost predicate Round(qs: seq<Request>, round: seq<nat>) {
    Schedule(qs, round) && forall i | 0 <= i < |qs| :: i in round
  }

  lemma {:induction false} NothingHappens(qs: seq<Request>, s: State, schedule: seq<nat>, i: nat)
    requires |s.pcs| == |qs| && Schedule(qs, schedule) && i in schedule && i < |qs|
    requires LeftInAll(Run(qs, s, schedule).pcs) >= LeftInAll(s.pcs)
    ensures Blocked(s, i)
  {
    var n := |schedule| - 1;
    var before := Run(qs, s, schedule[..n]);
    EffectiveTurns(qs, s, schedule[..n]);
    EveryTurn(qs, before, schedule[n]);
    QuietRun(qs, s, schedule[..n]);
    if i != schedule[n] {
      assert i in schedule[..n];
      NothingHappens(qs, s, schedule[..n], i);
    }
  }

  lemma {:induction false} QuietRun(qs: seq<Request>, s: State, schedule: seq<nat>)
    requires |s.pcs| == |qs| && Schedule(qs, schedule)
    ensures LeftInAll(Run(qs, s, schedule).pcs) <= LeftInAll(s.pcs)
    ensures LeftInAll(Run(qs, s, schedule).pcs) == LeftInAll(s.pcs) ==> Run(qs, s, schedule) == s
  {
    if schedule == [] {
    } else {
      var n := |schedule| - 1;
      QuietRun(qs, s, schedule[..n]);
      EveryTurn(qs, Run(qs, s, schedule[..n]), schedule[n]);
    }
  }

  lemma RoundAdvances(qs: seq<Request>, s: State, round: seq<nat>)
    requires |s.pcs| == |qs| && LockInvariant(s) && Round(qs, round) && !AllDone(s)
    ensures LeftInAll(Run(qs, s, round).pcs) < LeftInAll(s.pcs)
  {
    SomeoneMoves(qs, s);
    var i :| 0 <= i < |qs| && !Blocked(s, i);
    if LeftInAll(Run(qs, s, round).pcs) >= LeftInAll(s.pcs) {
      NothingHappens(qs, s, round, i);
    }
  }

  ghost function Joined(rounds: seq<seq<nat>>): seq<nat> {
    if rounds == [] then [] else Joined(rounds[..|rounds| - 1]) + rounds[|rounds| - 1]
  }

  lemma {:induction false} RoundsAdvance(qs: seq<Request>, rounds: seq<seq<nat>>)
    requires forall t | 0 <= t < |rounds| :: Round(qs, rounds[t])
    ensures Schedule(qs, Joined(rounds))
    ensures var s := Run(qs, Initial(|qs|), Joined(rounds));
            AllDone(s) || LeftInAll(s.pcs) + |rounds| <= 8 * |qs|
  {
    if rounds == [] {
      LeftAtFirst(Initial(|qs|).pcs);
    } else {
      hide Run, AllDone, LeftInAll, LockInvariant, CacheInvariant;
      var n := |rounds| - 1;
      RoundsAdvance(qs, rounds[..n]);
      var before := Run(qs, Initial(|qs|), Joined(rounds[..n]));
      RunInParts(qs, Initial(|qs|), Joined(rounds[..n]), rounds[n]);
      Invariants(qs, Joined(rounds[..n]));
      if AllDone(before) {
        StaysDone(qs, before, rounds[n]);
      } else {
        RoundAdvances(qs, before, rounds[n]);
      }
    }
  }

  lemma {:induction false} StaysDone(qs: seq<Request>, s: State, schedule: seq<nat>)
    requires |s.pcs| == |qs| && Schedule(qs, schedule) && AllDone(s)
    ensures Run(qs, s, schedule) == s
  {
    if schedule == [] {
    } else {
      StaysDone(qs, s, schedule[..|schedule| - 1]);
    }
  }

  // Every call returns: after 8n rounds in which each of the n calls gets a turn, in whatever
  // order and however often, all of them have.
  lemma EveryCallReturns(qs: seq<Request>, rounds: seq<seq<nat>>)
    requires |rounds| >= 8 * |qs| && forall t | 0 <= t < |rounds| :: Round(qs, rounds[t])
    ensures Schedule(qs, Joined(rounds)) && AllDone(Run(qs, Initial(|qs|), Joined(rounds)))
  {
    RoundsAdvance(qs, rounds);
    LeftAtFirst(Run(qs, Initial(|qs|), Joined(rounds)).pcs);
  }
}
