/** The API server as the reconcilers see it: one versioned store of objects per
    kind, read through an informer cache that lags but never goes backwards, and
    written by calls that may fail, with or without having taken effect. */
module Cluster {

  datatype Option<+T> = None | Some(value: T)

  datatype Error = NotFound | AlreadyExists | Conflict | Invalid | Other

  datatype Result<+T> = Ok(value: T) | Err(error: Error)

  /** Cluster-scoped objects have the empty namespace. */
  datatype Key = Key(namespace: string, name: string)

  datatype RoleRef = RoleRef(apiGroup: string, kind: string, name: string)

  datatype Subject = Subject(apiGroup: string, kind: string, name: string)

  /** What the controller writes besides labels. A quota's limits are opaque. */
  datatype Content = Grant(ref: RoleRef, subjects: seq<Subject>) | Quota(limits: string)

  datatype Object = Object(
    uid: nat,
    version: nat,
    labels: map<string, string>,
    finalizers: set<string>,
    terminating: bool,
    content: Content)

  type Objects = map<Key, Object>

  datatype Item = Item(key: Key, state: Object)

  datatype Kind = NAMESPACES | QUOTAS | BINDINGS | ROLES

  datatype Verb = GET | LIST | CREATE | UPDATE | DELETE

  /** One call as it was answered; `states` is how many states its kind had gone through
      by then, as far as the caller's own objects are concerned. */
  datatype Call = Call(kind: Kind, verb: Verb, key: Key, states: nat, error: Option<Error>)

  /** What becomes of a call: how many writes of others come first, where the cache moves on
      to (`None`: as far as there is), whether the call reaches the server, whether its
      answer comes back, and what is said if it does not arrive. */
  datatype Fate = Fate(others: nat, to: Option<nat>, reached: bool, answered: bool, refusal: Error)

  const MANAGED_BY := "k8s-controller"
  const LABEL_MANAGED_BY := "app.kubernetes.io/managed-by"
  const LABEL_OWNER_NAME := "k8s.pliu.dev/owner-name"

  function OwnerLabels(owner: string): map<string, string> {
    map[LABEL_MANAGED_BY := MANAGED_BY, LABEL_OWNER_NAME := owner]
  }

  predicate Labelled(labels: map<string, string>, owner: string) {
    && LABEL_MANAGED_BY in labels && labels[LABEL_MANAGED_BY] == MANAGED_BY
    && LABEL_OWNER_NAME in labels && labels[LABEL_OWNER_NAME] == owner
  }

  /** The list selector: a namespace and both owner labels. */
  predicate Selected(k: Key, o: Object, ns: string, owner: string) {
    k.namespace == ns && Labelled(o.labels, owner)
  }

  /** The object wears both labels of the owner, and is in its namespace. */
  predicate Wears(k: Key, o: Object, ns: string, owner: string) {
    && k.namespace == ns
    && "app.kubernetes.io/managed-by" in o.labels && o.labels["app.kubernetes.io/managed-by"] == "k8s-controller"
    && "k8s.pliu.dev/owner-name" in o.labels && o.labels["k8s.pliu.dev/owner-name"] == owner
  }

  /** A list selects exactly the objects that wear both labels, and those stamped by the
      controller do, with no other label. */
  lemma SelectedWears(k: Key, o: Object, ns: string, owner: string)
    ensures Selected(k, o, ns, owner) <==> Wears(k, o, ns, owner)
    ensures OwnerLabels(owner)
      == map["app.kubernetes.io/managed-by" := "k8s-controller", "k8s.pliu.dev/owner-name" := owner]
  {
  }

  lemma OwnerLabelsSelect(owner: string)
    ensures Labelled(OwnerLabels(owner), owner)
    ensures forall other :: Labelled(OwnerLabels(owner), other) ==> other == owner
  {
    assert |LABEL_MANAGED_BY| != |LABEL_OWNER_NAME|;
  }

  /** A roleRef is immutable; nothing else the controller writes is. */
  predicate SameRef(a: Content, b: Content) {
    match (a, b)
    case (Grant(r, _), Grant(q, _)) => r == q
    case (Quota(_), Quota(_)) => true
    case _ => false
  }

  /** Two bindings agree exactly if API group, kind and name of the role do. */
  lemma SameRefExactly(a: RoleRef, b: RoleRef, subjects: seq<Subject>, others: seq<Subject>, limits: string)
    ensures SameRef(Grant(a, subjects), Grant(b, others)) <==>
      a.apiGroup == b.apiGroup && a.kind == b.kind && a.name == b.name
    ensures !SameRef(Grant(a, subjects), Quota(limits)) && !SameRef(Quota(limits), Grant(a, subjects))
  {
  }

  ghost predicate SameAt(k: Key, a: Objects, b: Objects) {
    (k in a <==> k in b) && (k in a ==> a[k] == b[k])
  }

  ghost predicate SameElsewhere(k: Key, a: Objects, b: Objects) {
    forall j :: j != k ==> SameAt(j, a, b)
  }

  /** The server's delete: an object with finalizers of its own only starts terminating. */
  function Deleted(s: Objects, k: Key, version: nat): Objects {
    if k !in s then s
    else if s[k].finalizers == {} then s - {k}
    else if s[k].terminating then s
    else s[k := s[k].(terminating := true, version := version)]
  }

  function Created(s: Objects, k: Key, labels: map<string, string>, content: Content, version: nat): Objects {
    s[k := Object(version, version, labels, {}, false, content)]
  }

  function Updated(s: Objects, k: Key, labels: map<string, string>, content: Content, version: nat): Objects
    requires k in s
  {
    s[k := s[k].(labels := labels, content := content, version := version)]
  }

  /** What the server's writes do, field by field. A delete of an object with finalizers only
      marks it; a created object is a new one; an update keeps what the object is, and what
      keeps it; and no other object is touched. */
  lemma WritesMean(s: Objects, k: Key, labels: map<string, string>, content: Content, version: nat, j: Key)
    ensures j != k ==> SameAt(j, s, Deleted(s, k, version)) && SameAt(j, s, Created(s, k, labels, content, version))
    ensures k !in s || s[k].finalizers == {} ==> k !in Deleted(s, k, version)
    ensures k in s && s[k].finalizers != {} ==>
      var d := Deleted(s, k, version);
      && k in d && d[k].terminating && d[k].uid == s[k].uid && d[k].labels == s[k].labels
      && d[k].content == s[k].content && d[k].finalizers == s[k].finalizers
    ensures
      var c := Created(s, k, labels, content, version);
      && k in c && c[k].uid == version && !c[k].terminating && c[k].finalizers == {}
      && c[k].labels == labels && c[k].content == content
    ensures k in s ==>
      var u := Updated(s, k, labels, content, version);
      && (j != k ==> SameAt(j, s, u)) && k in u && u[k].uid == s[k].uid && u[k].terminating == s[k].terminating
      && u[k].finalizers == s[k].finalizers && u[k].labels == labels && u[k].content == content
  {
  }

  /** The items a list call returns: exactly the selected objects of one state. */
  ghost predicate Lists(items: seq<Item>, s: Objects, ns: string, owner: string) {
    && (forall i :: 0 <= i < |items| ==>
      var k := items[i].key;
      k in s && s[k] == items[i].state && Selected(k, s[k], ns, owner))
    && (forall k :: k in s && Selected(k, s[k], ns, owner) ==> exists i :: 0 <= i < |items| && items[i].key == k)
  }

  /** A resource version names one state of one object, and only an object with
      finalizers of its own can be terminating. */
  ghost predicate Versioned(log: seq<Objects>, clock: nat) {
    && (forall i :: 0 <= i < |log| ==> Deletable(log[i]))
    && (forall i, k :: 0 <= i < |log| && k in log[i] ==> log[i][k].version <= clock)
    && (forall i, j, k | 0 <= i < |log| && 0 <= j < |log| && k in log[i] && k in log[j] ::
      log[i][k].version == log[j][k].version ==> log[i][k] == log[j][k])
  }

  ghost predicate Deletable(s: Objects) {
    forall k :: k in s && s[k].terminating ==> s[k].finalizers != {}
  }

  lemma VersionedIsDeletable(log: seq<Objects>, clock: nat)
    requires |log| > 0 && Versioned(log, clock)
    ensures Deletable(log[|log| - 1])
  {
  }

  lemma VersionedExtend(log: seq<Objects>, clock: nat, k: Key, s: Objects)
    requires |log| > 0 && Versioned(log, clock)
    requires SameElsewhere(k, log[|log| - 1], s)
    requires k in s ==> s[k].version == clock + 1 && (s[k].terminating ==> s[k].finalizers != {})
    ensures Versioned(log + [s], clock + 1)
  {
    var l: seq<Objects> := log + [s];
    assert Deletable(log[|log| - 1]);
    assert forall j :: j in s && j != k ==> SameAt(j, log[|log| - 1], s);
    forall i, j, q: Key | 0 <= i < |l| && 0 <= j < |l| && q in l[i] && q in l[j] && l[i][q].version == l[j][q].version
      ensures l[i][q] == l[j][q]
    {
      var a := if i < |log| then i else |log| - 1;
      var b := if j < |log| then j else |log| - 1;
      if q != k {
        assert q in log[a] && q in log[b];
      }
    }
  }

  /** The connection to the API server: what becomes of each call, and every call made,
      whatever it was about, in order. */
  class Wire {
    const fates: seq<Fate>
    var tick: nat
    ghost var calls: seq<Call>

    /** The fates of the first calls are given; whatever happens to the others. */
    constructor (fates: seq<Fate>)
      ensures this.fates == fates && tick == 0 && calls == []
    {
      this.fates, tick, calls := fates, 0, [];
    }

    method Next() returns (f: Fate)
      modifies this`tick
      ensures tick == old(tick) + 1 && (old(tick) < |fates| ==> f == fates[old(tick)])
    {
      if tick < |fates| {
        f := fates[tick];
      } else {
        f := *;
      }
      tick := tick + 1;
    }
  }

  /** Nothing but reads was called. */
  ghost predicate OnlyReads(calls: seq<Call>, from: nat) {
    forall i :: from <= i < |calls| ==> calls[i].verb in {GET, LIST}
  }

  /** What others may make of `live`: they leave the objects that are `mine` alone, and
      label none of theirs for the owner. */
  function Foreign(mine: set<Key>, ns: string, owner: string, live: Objects, theirs: Objects): (s: Objects)
    ensures forall k :: k in mine ==> SameAt(k, live, s)
    ensures forall k :: k !in mine && k in s ==> !Selected(k, s[k], ns, owner)
  {
    map k | k in live.Keys + theirs.Keys
      && if k in mine then k in live else k in theirs && !Selected(k, theirs[k], ns, owner)
      :: if k in mine then live[k] else theirs[k]
  }

  /** Nothing but calls about one kind of object was made. */
  ghost predicate CallsOf(kind: Kind, calls: seq<Call>, from: nat) {
    forall i :: from <= i < |calls| ==> calls[i].kind == kind
  }

  /** `log` is `world` as the owner of the objects that are `mine` sees it: state `i` of
      the world is state `turns[i]` of the log there, and all that the owner's lists
      select is there. */
  ghost predicate Mirrors(log: seq<Objects>, world: seq<Objects>, turns: seq<nat>, mine: set<Key>, ns: string, owner: string) {
    && |turns| == |world| > 0 && turns[|turns| - 1] + 1 == |log|
    && (forall i, j :: 0 <= i <= j < |turns| ==> turns[i] <= turns[j])
    && (forall i, k :: 0 <= i < |world| && k in mine ==> SameAt(k, log[turns[i]], world[i]))
    && (forall i, k :: 0 <= i < |world| && k !in mine && k in world[i] ==> !Selected(k, world[i][k], ns, owner))
    && (forall i, k :: 0 <= i < |log| && k !in mine ==> SameAt(k, log[0], log[i]))
    && (forall k :: k !in mine && k in log[0] ==> !Selected(k, log[0][k], ns, owner))
  }

  /** A step of the owner: it touches the owner's objects only, and labels none for others. */
  ghost predicate OwnStep(mine: set<Key>, owner: string, s: Objects, t: Objects) {
    && (forall k :: k !in mine ==> SameAt(k, s, t))
    && (forall k :: k in t ==> t[k].labels == OwnerLabels(owner) || (k in s && t[k].labels == s[k].labels))
  }

  /** State `i` of the world is the owner's doing, or the next of what others wrote. */
  ghost predicate AccountedAt(world: seq<Objects>, turns: seq<nat>, mine: set<Key>, ns: string, owner: string,
    theirs: seq<Objects>, i: nat)
    requires 0 < i < |world| == |turns|
  {
    || (turns[i] == turns[i - 1] + 1 && OwnStep(mine, owner, world[i - 1], world[i]))
    || (turns[i] == turns[i - 1] && turns[i - 1] < i && i - 1 - turns[i - 1] < |theirs|
      && world[i] == Foreign(mine, ns, owner, world[i - 1], theirs[i - 1 - turns[i - 1]]))
  }

  /** Since it had gone through `since` states, every step of the world was the owner's or
      one of `theirs`, each in its order. */
  ghost predicate Accounted(world: seq<Objects>, turns: seq<nat>, mine: set<Key>, ns: string, owner: string,
    theirs: seq<Objects>, since: nat)
  {
    && 0 < since <= |world| == |turns| && turns[since - 1] == since - 1
    && turns[|turns| - 1] < |turns|
    && (forall i :: since <= i < |world| ==> AccountedAt(world, turns, mine, ns, owner, theirs, i))
  }

  lemma AccountedNext(world: seq<Objects>, turns: seq<nat>, mine: set<Key>, ns: string, owner: string,
    theirs: seq<Objects>, since: nat, t: Objects, turn: nat)
    requires Accounted(world, turns, mine, ns, owner, theirs, since)
    requires AccountedAt(world + [t], turns + [turn], mine, ns, owner, theirs, |world|)
    ensures Accounted(world + [t], turns + [turn], mine, ns, owner, theirs, since)
  {
    hide OwnStep, Foreign;
    var (w, n) := (world + [t], turns + [turn]);
    forall i | since <= i < |w|
      ensures AccountedAt(w, n, mine, ns, owner, theirs, i)
    {
      assert i < |world| ==> AccountedAt(world, turns, mine, ns, owner, theirs, i);
    }
  }

  ghost predicate KeepsLabels(k: Key, owner: string, s: Objects, t: Objects) {
    k in t ==> t[k].labels == OwnerLabels(owner) || (k in s && t[k].labels == s[k].labels)
  }

  lemma AccountedOwn(world: seq<Objects>, turns: seq<nat>, mine: set<Key>, ns: string, owner: string,
    theirs: seq<Objects>, since: nat, t: Objects)
    requires Accounted(world, turns, mine, ns, owner, theirs, since) && OwnStep(mine, owner, world[|world| - 1], t)
    ensures Accounted(world + [t], turns + [turns[|turns| - 1] + 1], mine, ns, owner, theirs, since)
  {
    hide OwnStep, Foreign;
    AccountedNext(world, turns, mine, ns, owner, theirs, since, t, turns[|turns| - 1] + 1);
  }

  lemma StepIsOwn(mine: set<Key>, owner: string, k: Key, s: Objects, t: Objects)
    requires SameElsewhere(k, s, t) && k in mine
    requires KeepsLabels(k, owner, s, t)
    ensures OwnStep(mine, owner, s, t)
  {
    forall j | j != k
      ensures (j in s <==> j in t) && (j in s ==> s[j] == t[j])
    {
      assert SameAt(j, s, t);
    }
  }

  /** To another owner, with objects of its own, an owner's step is a write of others. */
  lemma OwnStepIsForeign(mine: set<Key>, owner: string, s: Objects, t: Objects, other: set<Key>, ns: string, name: string)
    requires OwnStep(mine, owner, s, t) && mine !! other && owner != name
    requires forall k :: k !in other && k in s ==> !Selected(k, s[k], ns, name)
    ensures t == Foreign(other, ns, name, s, t)
  {
    OwnerLabelsSelect(owner);
    forall k | k !in other && k in t
      ensures !Selected(k, t[k], ns, name)
    {
    }
    forall k | k in other
      ensures SameAt(k, s, t)
    {
    }
    var f := Foreign(other, ns, name, s, t);
    forall k
      ensures k in t <==> k in f
      ensures k in t ==> t[k] == f[k]
    {
      assert k in other ==> SameAt(k, s, t);
    }
  }

  /** Someone else's step is no step of the log. */
  lemma MirrorsOthers(log: seq<Objects>, world: seq<Objects>, turns: seq<nat>, mine: set<Key>, ns: string,
    owner: string, theirs: Objects)
    requires Mirrors(log, world, turns, mine, ns, owner)
    ensures Mirrors(log, world + [Foreign(mine, ns, owner, world[|world| - 1], theirs)], turns + [|log| - 1], mine, ns, owner)
  {
    var (w, t) := (world + [Foreign(mine, ns, owner, world[|world| - 1], theirs)], turns + [|log| - 1]);
    forall i, k | 0 <= i < |w| && k in mine
      ensures SameAt(k, log[t[i]], w[i])
    {
      assert SameAt(k, log[turns[|world| - 1]], world[|world| - 1]);
    }
  }

  /** The owner's own step, at a key that is `mine`, is one of both. */
  lemma MirrorsStep(log: seq<Objects>, world: seq<Objects>, turns: seq<nat>, mine: set<Key>, ns: string,
    owner: string, k: Key, s: Objects, t: Objects)
    requires Mirrors(log, world, turns, mine, ns, owner) && k in mine && SameAt(k, s, t)
    requires SameElsewhere(k, log[|log| - 1], s) && SameElsewhere(k, world[|world| - 1], t)
    ensures Mirrors(log + [s], world + [t], turns + [|log|], mine, ns, owner)
  {
    var (l, w, n) := (log + [s], world + [t], turns + [|log|]);
    forall i, j | 0 <= i < |w| && j in mine
      ensures SameAt(j, l[n[i]], w[i])
    {
      assert SameAt(j, log[turns[|world| - 1]], world[|world| - 1]);
      if i < |world| {
        assert SameAt(j, log[turns[i]], world[i]) && turns[i] <= turns[|turns| - 1];
      } else if j != k {
        assert SameAt(j, log[|log| - 1], s) && SameAt(j, world[|world| - 1], t);
      }
    }
    forall i, j | 0 <= i < |w| && j !in mine && j in w[i]
      ensures !Selected(j, w[i][j], ns, owner)
    {
      assert j != k && SameAt(j, world[|world| - 1], t);
    }
    forall i, j | 0 <= i < |l| && j !in mine
      ensures SameAt(j, l[0], l[i])
    {
      assert SameAt(j, log[0], log[|log| - 1]) && SameAt(j, log[|log| - 1], s);
    }
  }

  /** All that a store keeps, across a step of the owner. */
  lemma OwnStepNext(log: seq<Objects>, clock: nat, world: seq<Objects>, turns: seq<nat>, mine: set<Key>, ns: string,
    owner: string, theirs: seq<Objects>, since: nat, k: Key, s: Objects, t: Objects)
    requires Versioned(log, clock) && Mirrors(log, world, turns, mine, ns, owner)
    requires Accounted(world, turns, mine, ns, owner, theirs, since)
    requires k in mine && SameAt(k, s, t) && KeepsLabels(k, owner, world[|world| - 1], t)
    requires SameElsewhere(k, log[|log| - 1], s) && SameElsewhere(k, world[|world| - 1], t)
    requires k in s ==> s[k].version == clock + 1 && (s[k].terminating ==> s[k].finalizers != {})
    ensures turns[|turns| - 1] + 1 == |log| && |turns| == |world|
    ensures Versioned(log + [s], clock + 1) && Mirrors(log + [s], world + [t], turns + [|log|], mine, ns, owner)
    ensures Accounted(world + [t], turns + [|log|], mine, ns, owner, theirs, since)
  {
    MirrorsShape(log, world, turns, mine, ns, owner);
    StepIsOwn(mine, owner, k, world[|world| - 1], t);
    hide Versioned, Mirrors, SameAt, SameElsewhere, Accounted, OwnStep, KeepsLabels;
    VersionedExtend(log, clock, k, s);
    MirrorsStep(log, world, turns, mine, ns, owner, k, s, t);
    AccountedOwn(world, turns, mine, ns, owner, theirs, since, t);
  }

  /** A later history of the same world. */
  ghost predicate Extends(world: seq<Objects>, turns: seq<nat>, later: seq<Objects>, laterTurns: seq<nat>) {
    world <= later && turns <= laterTurns
  }

  lemma ExtendsSelf(world: seq<Objects>, turns: seq<nat>)
    ensures Extends(world, turns, world, turns)
  {
  }

  lemma ExtendsTrans(w0: seq<Objects>, t0: seq<nat>, w1: seq<Objects>, t1: seq<nat>, w2: seq<Objects>, t2: seq<nat>)
    requires Extends(w0, t0, w1, t1) && Extends(w1, t1, w2, t2)
    ensures Extends(w0, t0, w2, t2)
  {
  }

  /** One kind's objects. `world` holds every state they have been in, oldest first, and
      the cache shows state `at` of it. Others make the writes `theirs`, to objects that are
      not `mine`, whenever they like; `log` and `seen` are what is left of `world` and `at`
      when their steps are not counted. */
  class Store {
    const wire: Wire
    const kind: Kind
    const mine: set<Key>
    const ns: string
    const owner: string
    const theirs: seq<Objects>
    ghost const since: nat
    var world: seq<Objects>
    var at: nat
    var clock: nat
    var made: nat
    ghost var turns: seq<nat>
    ghost var log: seq<Objects>
    ghost var seen: nat

    ghost predicate Valid()
      reads this
    {
      && Versioned(log, clock) && Mirrors(log, world, turns, mine, ns, owner)
      && Accounted(world, turns, mine, ns, owner, theirs, since)
      && |turns| == |world| && at < |world| && seen == turns[at] < |log|
      && made + |log| == |world| && made <= |theirs|
    }

    /** The present state, as far as the owner is concerned. */
    ghost function Live(): Objects
      requires 0 < |log|
      reads this
    {
      log[|log| - 1]
    }

    /** A store that has gone through `past`, with a cache that shows state `at` of it. */
    constructor (wire: Wire, kind: Kind, mine: set<Key>, ns: string, owner: string, theirs: seq<Objects>,
      past: seq<Objects>, at: nat, clock: nat)
      requires at < |past| && Versioned(past, clock)
      requires forall i, k :: 0 <= i < |past| && k !in mine ==> SameAt(k, past[0], past[i])
      requires forall k :: k !in mine && k in past[0] ==> !Selected(k, past[0][k], ns, owner)
      ensures Valid() && log == world == past && seen == this.at == at && this.clock == clock
      ensures turns == seq(|past|, i => i) && since == |past|
      ensures this.wire == wire && this.kind == kind && this.mine == mine && this.ns == ns && this.owner == owner
      ensures this.theirs == theirs
    {
      this.wire, this.kind, this.mine, this.ns, this.owner, this.theirs := wire, kind, mine, ns, owner, theirs;
      world, this.at, this.clock, made := past, at, clock, 0;
      since, turns, log, seen := |past|, seq(|past|, i => i), past, at;
      new;
      forall i, k | 0 <= i < |past| && k !in mine && k in past[i]
        ensures !Selected(k, past[i][k], ns, owner)
      {
        assert SameAt(k, past[0], past[i]);
      }
    }

    /** The next `n` writes of others, or all that are left. */
    method Others(n: nat)
      requires Valid()
      modifies this`world, this`turns, this`made
      ensures Valid() && Extends(old(world), old(turns), world, turns)
    {
      hide Versioned, Mirrors, Foreign, Accounted, OwnStep;
      MirrorsShape(log, world, turns, mine, ns, owner);
      for i := 0 to n
        invariant Valid() && Extends(old(world), old(turns), world, turns)
      {
        if made < |theirs| {
          ghost var (w, t) := (world, turns);
          MirrorsShape(log, world, turns, mine, ns, owner);
          MirrorsOthers(log, world, turns, mine, ns, owner, theirs[made]);
          world := world + [Foreign(mine, ns, owner, world[|world| - 1], theirs[made])];
          turns := turns + [|log| - 1];
          AccountedNext(w, t, mine, ns, owner, theirs, since, world[|world| - 1], |log| - 1);
          made := made + 1;
        }
      }
    }

    /** The cache may catch up at any read, by any number of states. */
    method Refresh(to: Option<nat>)
      requires Valid()
      modifies this`at, this`seen
      ensures Valid() && old(seen) <= seen && old(at) <= at
      ensures to.Some? ==> at == if old(at) <= to.value < |world| then to.value else old(at)
      ensures to.None? ==> seen == |log| - 1
    {
      if to.None? {
        CatchUp();
      } else if at <= to.value < |world| {
        at, seen := to.value, turns[to.value];
      }
    }

    /** The cache catches up completely. */
    method CatchUp()
      requires Valid()
      modifies this`at, this`seen
      ensures Valid() && seen == |log| - 1 && old(seen) <= seen && old(at) <= at
    {
      at, seen := |world| - 1, turns[|world| - 1];
    }

    method Get(k: Key) returns (r: Result<Object>)
      requires Valid() && k in mine
      modifies this`world, this`turns, this`made, this`at, this`seen, wire
      ensures Valid() && old(seen) <= seen && Extends(old(world), old(turns), world, turns)
      ensures r.Ok? ==> k in log[seen] && r.value == log[seen][k]
      ensures r == Err(NotFound) ==> k !in log[seen]
      ensures Shows(wire.fates, old(wire.tick), old(at), old(turns)) ==>
        seen == old(turns)[wire.fates[old(wire.tick)].to.value] && r == if k in log[seen] then Ok(log[seen][k]) else Err(NotFound)
      ensures Prompt(wire.fates, old(wire.tick)) ==> seen == |log| - 1 && (r.Ok? || r == Err(NotFound))
      ensures wire.calls == old(wire.calls) + [Call(kind, GET, k, |log|, ErrorOf(r))] && wire.tick == old(wire.tick) + 1
    {
      hide Versioned, Selected, Accounted, OwnStep;
      var f := wire.Next();
      Others(f.others);
      Refresh(f.to);
      assert SameAt(k, log[turns[at]], world[at]);
      r := if !f.reached || !f.answered then Err(Other)
        else if k in world[at] then Ok(world[at][k]) else Err(NotFound);
      wire.calls := wire.calls + [Call(kind, GET, k, |log|, ErrorOf(r))];
    }

    /** Lists the selected objects of `s`, in no particular order. */
    method Select(s: Objects) returns (items: seq<Item>)
      ensures Lists(items, s, ns, owner)
    {
      var rest := set k | k in s && Selected(k, s[k], ns, owner);
      items := [];
      while rest != {}
        invariant forall k :: k in rest ==> k in s && Selected(k, s[k], ns, owner)
        invariant forall i :: 0 <= i < |items| ==>
          var k := items[i].key;
          k in s && s[k] == items[i].state && Selected(k, s[k], ns, owner)
        invariant forall k :: k in s && Selected(k, s[k], ns, owner) ==>
          k in rest || exists i :: 0 <= i < |items| && items[i].key == k
        decreases |rest|
      {
        var k :| k in rest;
        ghost var before := items;
        items := items + [Item(k, s[k])];
        assert items[|before|].key == k;
        assert forall i :: 0 <= i < |before| ==> items[i] == before[i];
        rest := rest - {k};
      }
    }

    method List() returns (r: Result<seq<Item>>)
      requires Valid()
      modifies this`world, this`turns, this`made, this`at, this`seen, wire
      ensures Valid() && old(seen) <= seen && Extends(old(world), old(turns), world, turns)
      ensures r.Ok? || r == Err(Other)
      ensures r.Ok? ==> Lists(r.value, log[seen], ns, owner) && forall i :: 0 <= i < |r.value| ==> r.value[i].key in mine
      ensures Answers(wire.fates, old(wire.tick)) ==> r.Ok?
      ensures wire.calls == old(wire.calls) + [Call(kind, LIST, Key(ns, ""), |log|, ErrorOf(r))]
      ensures wire.tick == old(wire.tick) + 1
    {
      hide Versioned, Selected, Mirrors, Lists, Accounted;
      var f := wire.Next();
      Others(f.others);
      Refresh(f.to);
      if !f.reached || !f.answered {
        r := Err(Other);
      } else {
        var items := Select(world[at]);
        MirrorsLists(log, world, turns, mine, ns, owner, at, items);
        r := Ok(items);
      }
      wire.calls := wire.calls + [Call(kind, LIST, Key(ns, ""), |log|, ErrorOf(r))];
    }

    /** A list that bypasses the cache. */
    method ListLive() returns (r: Result<seq<Item>>)
      requires Valid()
      modifies this`world, this`turns, this`made, wire
      ensures Valid() && Extends(old(world), old(turns), world, turns)
      ensures r.Ok? || r == Err(Other)
      ensures r.Ok? ==> Lists(r.value, Live(), ns, owner) && forall i :: 0 <= i < |r.value| ==> r.value[i].key in mine
      ensures Answers(wire.fates, old(wire.tick)) ==> r.Ok?
      ensures wire.calls == old(wire.calls) + [Call(kind, LIST, Key(ns, ""), |log|, ErrorOf(r))]
      ensures wire.tick == old(wire.tick) + 1
    {
      hide Versioned, Selected, Lists, Accounted;
      var f := wire.Next();
      Others(f.others);
      if !f.reached || !f.answered {
        r := Err(Other);
      } else {
        var items := Select(world[|world| - 1]);
        MirrorsLists(log, world, turns, mine, ns, owner, |world| - 1, items);
        r := Ok(items);
      }
      wire.calls := wire.calls + [Call(kind, LIST, Key(ns, ""), |log|, ErrorOf(r))];
    }

    /** Makes `t`, which differs from the live state at `k` only, the live state. */
    method Commit(k: Key, t: Objects, ghost s: Objects)
      requires Valid() && k in mine && SameAt(k, s, t)
      requires SameElsewhere(k, Live(), s) && SameElsewhere(k, world[|world| - 1], t)
      requires k in s ==> s[k].version == clock + 1 && (s[k].terminating ==> s[k].finalizers != {})
      requires KeepsLabels(k, owner, world[|world| - 1], t)
      modifies this`world, this`turns, this`log, this`clock
      ensures Valid() && log == old(log) + [s] && clock == old(clock) + 1
      ensures world == old(world) + [t] && turns == old(turns) + [|old(log)|]
    {
      OwnStepNext(log, clock, world, turns, mine, ns, owner, theirs, since, k, s, t);
      hide Versioned, Mirrors, SameAt, SameElsewhere, Accounted, KeepsLabels;
      turns := turns + [|log|];
      world, clock := world + [t], clock + 1;
      log := log + [s];
    }

    /** Deletes by name, with no precondition on the version. */
    method Delete(k: Key) returns (e: Option<Error>)
      requires Valid() && k in mine
      modifies this`world, this`turns, this`made, this`log, this`clock, wire
      ensures Valid() && Extends(old(world), old(turns), world, turns)
      ensures log == old(log) || log == old(log) + [Deleted(old(Live()), k, old(clock) + 1)]
      ensures e.None? || Reaches(wire.fates, old(wire.tick)) ==> Live() == Deleted(old(Live()), k, old(clock) + 1)
      ensures e == Some(NotFound) ==> log == old(log) && k !in Live()
      ensures Answers(wire.fates, old(wire.tick)) ==> e == if k in old(Live()) then None else Some(NotFound)
      ensures wire.calls == old(wire.calls) + [Call(kind, DELETE, k, |log|, e)] && wire.tick == old(wire.tick) + 1
    {
      hide Versioned, Selected, Accounted, OwnStep;
      var f := wire.Next();
      Others(f.others);
      assert SameAt(k, Live(), world[|world| - 1]);
      if !f.reached {
        e := Some(if f.refusal.NotFound? then Other else f.refusal);
      } else if k !in world[|world| - 1] {
        e := if f.answered then Some(NotFound) else Some(Other);
      } else {
        var t := Deleted(world[|world| - 1], k, clock + 1);
        if t != world[|world| - 1] {
          Commit(k, t, Deleted(Live(), k, clock + 1));
        }
        e := if f.answered then None else Some(Other);
      }
      wire.calls := wire.calls + [Call(kind, DELETE, k, |log|, e)];
    }

    method Create(k: Key, labels: map<string, string>, content: Content) returns (e: Option<Error>)
      requires Valid() && k in mine && labels == OwnerLabels(owner)
      modifies this`world, this`turns, this`made, this`log, this`clock, wire
      ensures Valid() && Extends(old(world), old(turns), world, turns)
      ensures log == old(log)
        || (k !in old(Live()) && log == old(log) + [Created(old(Live()), k, labels, content, old(clock) + 1)])
      ensures e.None? ==> log != old(log)
      ensures Answers(wire.fates, old(wire.tick)) ==> e == if k in old(Live()) then Some(AlreadyExists) else None
      ensures wire.calls == old(wire.calls) + [Call(kind, CREATE, k, |log|, e)] && wire.tick == old(wire.tick) + 1
    {
      hide Versioned, Selected, Accounted, OwnStep;
      var f := wire.Next();
      Others(f.others);
      assert SameAt(k, Live(), world[|world| - 1]);
      if !f.reached {
        e := Some(f.refusal);
      } else if k in world[|world| - 1] {
        e := Some(AlreadyExists);
      } else {
        Commit(k, Created(world[|world| - 1], k, labels, content, clock + 1), Created(Live(), k, labels, content, clock + 1));
        e := if f.answered then None else Some(Other);
      }
      wire.calls := wire.calls + [Call(kind, CREATE, k, |log|, e)];
    }

    /** Replaces labels and content of the version the caller read, and of no other. */
    method Update(k: Key, o: Object, labels: map<string, string>, content: Content) returns (e: Option<Error>)
      requires Valid() && k in mine && labels == OwnerLabels(owner)
      modifies this`world, this`turns, this`made, this`log, this`clock, wire
      ensures Valid() && Extends(old(world), old(turns), world, turns)
      ensures log == old(log)
        || (k in old(Live()) && old(Live())[k].version == o.version && SameRef(old(Live())[k].content, content)
          && log == old(log) + [Updated(old(Live()), k, labels, content, old(clock) + 1)])
      ensures e.None? ==> log != old(log)
      ensures (Answers(wire.fates, old(wire.tick)) && k in old(Live()) && old(Live())[k].version == o.version
        && SameRef(old(Live())[k].content, content)) ==> e.None?
      ensures wire.calls == old(wire.calls) + [Call(kind, UPDATE, k, |log|, e)] && wire.tick == old(wire.tick) + 1
    {
      hide Versioned, Selected, Accounted, OwnStep;
      var f := wire.Next();
      Others(f.others);
      assert SameAt(k, Live(), world[|world| - 1]);
      var live := world[|world| - 1];
      if !f.reached {
        e := Some(f.refusal);
      } else if k !in live {
        e := Some(NotFound);
      } else if live[k].version != o.version {
        e := Some(Conflict);
      } else if !SameRef(live[k].content, content) {
        e := Some(Invalid);
      } else {
        VersionedIsDeletable(log, clock);
        Commit(k, Updated(live, k, labels, content, clock + 1), Updated(Live(), k, labels, content, clock + 1));
        e := if f.answered then None else Some(Other);
      }
      wire.calls := wire.calls + [Call(kind, UPDATE, k, |log|, e)];
    }
  }

  function ErrorOf<T>(r: Result<T>): Option<Error> {
    if r.Err? then Some(r.error) else None
  }

  /** Call number `n`, a read, is answered, from a state of the world the cache may show. */
  predicate Shows(fates: seq<Fate>, n: nat, at: nat, turns: seq<nat>) {
    Answers(fates, n) && fates[n].to.Some? && at <= fates[n].to.value < |turns|
  }

  /** Call number `n`, a read, gets no answer. */
  predicate Fails(fates: seq<Fate>, n: nat) {
    n < |fates| && !(fates[n].reached && fates[n].answered)
  }

  /** Call number `n`, a read, is answered. */
  predicate Answers(fates: seq<Fate>, n: nat) {
    n < |fates| && fates[n].reached && fates[n].answered
  }

  /** Call number `n` is answered, over a cache that has caught up. */
  predicate Prompt(fates: seq<Fate>, n: nat) {
    Answers(fates, n) && fates[n].to.None?
  }

  /** So is every call from number `from` to before number `to`. */
  ghost predicate AllPrompt(fates: seq<Fate>, from: nat, to: nat) {
    from <= to && forall n :: from <= n < to ==> Prompt(fates, n)
  }

  lemma AllPromptSplits(fates: seq<Fate>, from: nat, mid: nat, to: nat)
    requires from <= mid <= to
    ensures AllPrompt(fates, from, to) <==> AllPrompt(fates, from, mid) && AllPrompt(fates, mid, to)
  {
  }

  predicate Reaches(fates: seq<Fate>, n: nat) {
    n < |fates| && fates[n].reached
  }

  lemma MirrorsShape(log: seq<Objects>, world: seq<Objects>, turns: seq<nat>, mine: set<Key>, ns: string, owner: string)
    requires Mirrors(log, world, turns, mine, ns, owner)
    ensures |turns| == |world| > 0 && turns[|turns| - 1] + 1 == |log|
  {
  }

  /** A list of the world is one of the log. */
  lemma MirrorsLists(log: seq<Objects>, world: seq<Objects>, turns: seq<nat>, mine: set<Key>, ns: string,
    owner: string, at: nat, items: seq<Item>)
    requires Mirrors(log, world, turns, mine, ns, owner) && at < |world| && turns[at] < |log|
    requires Lists(items, world[at], ns, owner)
    ensures Lists(items, log[turns[at]], ns, owner) && forall i :: 0 <= i < |items| ==> items[i].key in mine
  {
    hide Selected;
    var (s, t) := (log[turns[at]], world[at]);
    forall k | (k in s && Selected(k, s[k], ns, owner)) || (k in t && Selected(k, t[k], ns, owner))
      ensures k in mine && SameAt(k, s, t)
    {
      assert k in mine || SameAt(k, log[0], s);
    }
  }
}
