/** From access mappings to bindings: the references a spec makes, what they ask
    for, and the loop that grants them. */
module Access {
  import opened Cluster
  import opened Naming
  import opened Upkeep

  /** One ClusterRole named by one mapping. */
  datatype Reference = Reference(mapping: Mapping, role: string)

  datatype InvalidReference = InvalidReference(clusterRole: string, reason: string)

  /** The references of a mapping; one without subjects makes none. */
  function References(m: Mapping): seq<Reference> {
    if Subjects(m) == [] then []
    else seq(|m.clusterRoles|, i requires 0 <= i < |m.clusterRoles| => Reference(m, m.clusterRoles[i]))
  }

  function AllReferences(ms: seq<Mapping>): seq<Reference> {
    if ms == [] then [] else AllReferences(ms[..|ms| - 1]) + References(ms[|ms| - 1])
  }

  function RefKey(hash: HashFunction, ns: string, owner: string, r: Reference): Key {
    Key(ns, BindingName(hash, owner, SubjectKey(hash, r.mapping), r.role))
  }

  lemma InNamespace(hash: HashFunction, ns: string, owner: string, r: Reference)
    ensures RefKey(hash, ns, owner, r).namespace == ns
  {
  }

  function RefContent(r: Reference): Content {
    Grant(RoleRef(RBAC_GROUP, "ClusterRole", r.role), Subjects(r.mapping))
  }

  function KeysOf(hash: HashFunction, ns: string, owner: string, refs: seq<Reference>): set<Key> {
    set r | r in refs :: RefKey(hash, ns, owner, r)
  }

  function Resolved(refs: seq<Reference>, roles: set<string>): seq<Reference> {
    if refs == [] then []
    else
      var r := refs[|refs| - 1];
      Resolved(refs[..|refs| - 1], roles) + if r.role in roles then [r] else []
  }

  /** The references to missing ClusterRoles, in spec order. */
  function Unresolved(refs: seq<Reference>, roles: set<string>): seq<InvalidReference> {
    if refs == [] then []
    else
      var r := refs[|refs| - 1];
      Unresolved(refs[..|refs| - 1], roles)
      + if r.role in roles then [] else [InvalidReference(r.role, "ClusterRole not found")]
  }

  function GoalOf(hash: HashFunction, ns: string, owner: string, refs: seq<Reference>, roles: set<string>): (g: Goal)
    ensures g.ns == ns && g.owner == owner
  {
    Goal(ns, owner, set r | r in Resolved(refs, roles) :: Want(RefKey(hash, ns, owner, r), RefContent(r)))
  }

  lemma {:induction false} ResolvedIn(refs: seq<Reference>, roles: set<string>, r: Reference)
    ensures r in Resolved(refs, roles) <==> r in refs && r.role in roles
  {
    if refs != [] {
      ResolvedIn(refs[..|refs| - 1], roles, r);
      assert refs == refs[..|refs| - 1] + [refs[|refs| - 1]];
    }
  }

  /** The list of invalid references names the references to missing ClusterRoles, each once,
      in spec order, and all for the same reason. */
  lemma {:induction false} UnresolvedInOrder(refs: seq<Reference>, roles: set<string>) returns (at: seq<nat>)
    ensures Missing(refs, roles, at) && Listed(refs, at, Unresolved(refs, roles))
  {
    if refs == [] {
      at := [];
    } else {
      var last := |refs| - 1;
      var earlier := UnresolvedInOrder(refs[..last], roles);
      hide Missing, Listed;
      MissingNext(refs, roles, earlier);
      ListedNext(refs, earlier, Unresolved(refs[..last], roles));
      at := if refs[last].role in roles then earlier else earlier + [last];
    }
  }

  /** The entries are those for the references at the numbers `at`. */
  ghost predicate Listed(refs: seq<Reference>, at: seq<nat>, entries: seq<InvalidReference>) {
    && |at| == |entries| && (forall i :: 0 <= i < |at| ==> at[i] < |refs|)
    && (forall i :: 0 <= i < |at| ==> entries[i] == InvalidReference(refs[at[i]].role, "ClusterRole not found"))
  }

  lemma ListedNext(refs: seq<Reference>, at: seq<nat>, entries: seq<InvalidReference>)
    requires refs != [] && Listed(refs[..|refs| - 1], at, entries)
    ensures Listed(refs, at, entries)
    ensures Listed(refs, at + [|refs| - 1], entries + [InvalidReference(refs[|refs| - 1].role, "ClusterRole not found")])
  {
    forall i | 0 <= i < |at|
      ensures at[i] < |refs| && refs[..|refs| - 1][at[i]] == refs[at[i]]
    {
    }
  }

  lemma MissingNext(refs: seq<Reference>, roles: set<string>, earlier: seq<nat>)
    requires refs != [] && Missing(refs[..|refs| - 1], roles, earlier)
    ensures Missing(refs, roles, if refs[|refs| - 1].role in roles then earlier else earlier + [|refs| - 1])
  {
    var last := |refs| - 1;
    var at := if refs[last].role in roles then earlier else earlier + [last];
    forall n: nat | n < |refs| && refs[n].role !in roles
      ensures n in at
    {
      if n < last {
        assert refs[..last][n] == refs[n] && n in earlier;
      } else {
        assert at[|at| - 1] == n;
      }
    }
    forall i | 0 <= i < |at|
      ensures at[i] < |refs| && refs[at[i]].role !in roles
    {
      assert i < |earlier| ==> refs[..last][earlier[i]] == refs[earlier[i]];
    }
  }

  /** `at` lists, in order, where the references to missing ClusterRoles are. */
  ghost predicate Missing(refs: seq<Reference>, roles: set<string>, at: seq<nat>) {
    && (forall i, j :: 0 <= i < j < |at| ==> at[i] < at[j])
    && (forall i :: 0 <= i < |at| ==> at[i] < |refs| && refs[at[i]].role !in roles)
    && (forall n: nat :: n < |refs| && refs[n].role !in roles ==> n in at)
  }

  lemma GoalWants(hash: HashFunction, ns: string, owner: string, refs: seq<Reference>, roles: set<string>, k: Key)
    ensures
      var g := GoalOf(hash, ns, owner, refs, roles);
      Wanted(g, k) <==> exists r :: r in refs && r.role in roles && RefKey(hash, ns, owner, r) == k
    ensures
      var g := GoalOf(hash, ns, owner, refs, roles);
      Wanted(g, k) <==> k in KeysOf(hash, ns, owner, Resolved(refs, roles))
  {
    forall r: Reference {
      ResolvedIn(refs, roles, r);
    }
    var g := GoalOf(hash, ns, owner, refs, roles);
    forall r | r in Resolved(refs, roles)
      ensures Want(RefKey(hash, ns, owner, r), RefContent(r)) in g.wants
    {
    }
  }

  /** Every name in `want` is done and past replacement, and no other wanted name has
      been touched. */
  ghost predicate Progress(g: Goal, want: set<Key>, log: seq<Objects>, start: nat, seen: nat) {
    && start < |log| && seen < |log|
    && (forall k :: k in want ==> Done(g, k, log[|log| - 1]) && Correctable(g, k, log[seen]))
    && (forall k :: Wanted(g, k) ==> Calm(g, k, log, start))
    && (forall k :: Wanted(g, k) && k !in want ==> Fresh(k, log, start))
  }

  ghost predicate Steady(g: Goal, s: Objects) {
    forall k :: Wanted(g, k) ==> Done(g, k, s)
  }

  lemma ProgressStep(c: Course, want: set<Key>, k: Key, l0: seq<Objects>, l1: seq<Objects>, seen: nat, now: nat)
    requires c.Caught() && Functional(c.goal) && OnCourse(c, l1, now) && c.start <= seen <= now < |l1|
    requires Progress(c.goal, want, l0, c.start, seen) && Confined(k, l0, l1)
    requires Done(c.goal, k, l1[|l1| - 1]) && Calm(c.goal, k, l1, c.start) && Correctable(c.goal, k, l1[now])
    ensures Progress(c.goal, want + {k}, l1, c.start, now)
  {
    hide Correctable, Calm, Fresh, Reached, Shrunk, Modest, SafeRetained, StaysInReach;
    var g, last, end := c.goal, l0[|l0| - 1], l1[|l1| - 1];
    assert |l0| < |l1| ==> SameElsewhere(k, last, end);
    assert Mended(g, l1[seen], l1[now]) && l1[seen] == l0[seen];
    forall j | j in want && j != k
      ensures Done(g, j, end) && Correctable(g, j, l1[now])
    {
      assert Done(g, j, last) && Want(j, last[j].content) in g.wants;
      assert |l0| < |l1| ==> SameAt(j, last, end);
    }
    forall j | Wanted(g, j) && j != k
      ensures Calm(g, j, l1, c.start) && (Fresh(j, l0, c.start) ==> Fresh(j, l1, c.start))
    {
      CalmElsewhere(g, k, j, l0, l1, c.start);
    }
  }

  lemma CalmElsewhere(g: Goal, k: Key, j: Key, l0: seq<Objects>, l1: seq<Objects>, start: nat)
    requires start < |l0| && Confined(k, l0, l1) && j != k && Calm(g, j, l0, start)
    ensures Calm(g, j, l1, start) && (Fresh(j, l0, start) ==> Fresh(j, l1, start))
  {
    var last := l0[|l0| - 1];
    forall i | |l0| <= i < |l1|
      ensures SameAt(j, last, l1[i])
    {
      assert SameElsewhere(k, last, l1[i]);
    }
    forall i | start <= i < |l1|
      ensures i < |l0| ==> l1[i] == l0[i]
    {
    }
  }

  /** The ClusterRoles the cache shows; they are not managed here. */
  class ClusterRoles {
    const wire: Wire
    const names: set<string>

    constructor (wire: Wire, names: set<string>)
      ensures this.wire == wire && this.names == names
    {
      this.wire, this.names := wire, names;
    }

    method Get(role: string) returns (r: Result<string>)
      modifies wire
      ensures r.Ok? ==> role in names
      ensures r == Err(NotFound) ==> role !in names
      ensures Fails(wire.fates, old(wire.tick)) ==> r == Err(Other)
      ensures Answers(wire.fates, old(wire.tick)) ==> r == if role in names then Ok(role) else Err(NotFound)
      ensures wire.tick == old(wire.tick) + 1
      ensures wire.calls == old(wire.calls) + [Call(ROLES, GET, Key("", role), 0, ErrorOf(r))]
    {
      var f := wire.Next();
      r := if !f.reached || !f.answered then Err(Other) else if role in names then Ok(role) else Err(NotFound);
      wire.calls := wire.calls + [Call(ROLES, GET, Key("", role), 0, ErrorOf(r))];
    }
  }

  /** The new states of `l1` agree with the last one of `l0` on every name not wanted. */
  ghost predicate OnlyWanted(g: Goal, l0: seq<Objects>, l1: seq<Objects>)
    requires |l0| > 0
  {
    && l0 <= l1
    && (forall i, k :: |l0| <= i < |l1| && !Wanted(g, k) ==> SameAt(k, l0[|l0| - 1], l1[i]))
  }

  /** What granting has done and called by the time the log is `l1`: only wanted names
      were touched, no list was called, and no deletion but of a wanted name that is not
      safe. */
  ghost predicate GrantsOnly(c: Course, kind: Kind, l0: seq<Objects>, l1: seq<Objects>, calls: seq<Call>, from: nat) {
    && |l0| > 0 && OnlyWanted(c.goal, l0, l1) && from <= |calls|
    && (forall i :: from <= i < |calls| && calls[i].kind == kind ==>
      calls[i].verb != LIST && (calls[i].verb == DELETE ==> Wanted(c.goal, calls[i].key)))
    && (forall i :: from <= i < |calls| ==> calls[i].kind in {kind, ROLES})
    && SparesSafe(c, kind, calls, from)
  }

  lemma GrantsNothing(c: Course, kind: Kind, log: seq<Objects>, calls: seq<Call>, from: nat)
    requires |log| > 0 && from <= |calls| && forall i :: from <= i < |calls| ==> calls[i].kind == ROLES
    requires kind != ROLES
    ensures GrantsOnly(c, kind, log, log, calls, from)
  {
  }

  lemma GrantsOne(c: Course, kind: Kind, l0: seq<Objects>, l1: seq<Objects>, calls: seq<Call>, from: nat, k: Key)
    requires |l0| > 0 && Confined(k, l0, l1) && Wanted(c.goal, k) && from <= |calls|
    requires CallsAbout(kind, k, calls, from) && SparesSafe(c, kind, calls, from)
    ensures GrantsOnly(c, kind, l0, l1, calls, from) && l0 <= l1
  {
    forall i, j | |l0| <= i < |l1| && !Wanted(c.goal, j)
      ensures SameAt(j, l0[|l0| - 1], l1[i])
    {
      assert SameElsewhere(k, l0[|l0| - 1], l1[i]);
    }
  }

  lemma GrantsTrans(c: Course, kind: Kind, l0: seq<Objects>, l1: seq<Objects>, l2: seq<Objects>, mid: seq<Call>,
    calls: seq<Call>, from: nat)
    requires GrantsOnly(c, kind, l0, l1, mid, from) && GrantsOnly(c, kind, l1, l2, calls, |mid|) && mid <= calls
    ensures GrantsOnly(c, kind, l0, l2, calls, from) && l0 <= l2
  {
    forall i, k | |l0| <= i < |l2| && !Wanted(c.goal, k)
      ensures SameAt(k, l0[|l0| - 1], l2[i])
    {
      assert |l0| < |l1| ==> SameAt(k, l0[|l0| - 1], l1[|l1| - 1]);
      if i < |l1| {
        assert SameAt(k, l0[|l0| - 1], l1[i]);
      } else {
        assert SameAt(k, l1[|l1| - 1], l2[i]);
      }
    }
    forall i | from <= i < |calls|
      ensures i < |mid| ==> calls[i] == mid[i]
    {
    }
  }

  /** From one moment of granting to a later one: the logs, the worlds and the calls. */
  ghost predicate GrantStage(c: Course, kind: Kind, l0: seq<Objects>, l1: seq<Objects>, w0: seq<Objects>, t0: seq<nat>,
    w1: seq<Objects>, t1: seq<nat>, before: seq<Call>, calls: seq<Call>)
  {
    && l0 <= l1 && before <= calls && Extends(w0, t0, w1, t1)
    && GrantsOnly(c, kind, l0, l1, calls, |before|)
    && (OnlyReads(calls, |before|) ==> l1 == l0)
  }

  lemma StageGives(c: Course, kind: Kind, l0: seq<Objects>, l1: seq<Objects>, w0: seq<Objects>, t0: seq<nat>,
    w1: seq<Objects>, t1: seq<nat>, before: seq<Call>, calls: seq<Call>)
    requires GrantStage(c, kind, l0, l1, w0, t0, w1, t1, before, calls)
    ensures l0 <= l1 && before <= calls && Extends(w0, t0, w1, t1)
    ensures GrantsOnly(c, kind, l0, l1, calls, |before|) && (OnlyReads(calls, |before|) ==> l1 == l0)
  {
    hide GrantsOnly, Extends, OnlyReads;
  }

  lemma StageStart(c: Course, kind: Kind, log: seq<Objects>, world: seq<Objects>, turns: seq<nat>, calls: seq<Call>)
    requires |log| > 0 && kind != ROLES
    ensures GrantStage(c, kind, log, log, world, turns, world, turns, calls, calls) && OnlyReads(calls, |calls|)
  {
    GrantsNothing(c, kind, log, calls, |calls|);
  }

  lemma StageTrans(c: Course, kind: Kind, l0: seq<Objects>, l1: seq<Objects>, l2: seq<Objects>, w0: seq<Objects>,
    t0: seq<nat>, w1: seq<Objects>, t1: seq<nat>, w2: seq<Objects>, t2: seq<nat>, c0: seq<Call>, c1: seq<Call>, c2: seq<Call>)
    requires GrantStage(c, kind, l0, l1, w0, t0, w1, t1, c0, c1)
    requires GrantStage(c, kind, l1, l2, w1, t1, w2, t2, c1, c2)
    ensures GrantStage(c, kind, l0, l2, w0, t0, w2, t2, c0, c2)
    ensures OnlyReads(c2, |c0|) <==> OnlyReads(c1, |c0|) && OnlyReads(c2, |c1|)
    ensures l0 <= l1 <= l2 && c0 <= c1 <= c2
  {
    hide GrantsOnly, Extends, OnlyReads;
    GrantsTrans(c, kind, l0, l1, l2, c1, c2, |c0|);
    ExtendsTrans(w0, t0, w1, t1, w2, t2);
    ReadThen(c1, c2, |c0|);
  }

  lemma GrantsSpareSafe(c: Course, kind: Kind, l0: seq<Objects>, l1: seq<Objects>, calls: seq<Call>, from: nat)
    requires GrantsOnly(c, kind, l0, l1, calls, from)
    ensures SparesSafe(c, kind, calls, from) && from <= |calls|
    ensures forall i :: from <= i < |calls| ==> calls[i].kind in {kind, ROLES}
  {
  }

  lemma PruningGives(c: Course, kind: Kind, keep: set<Key>, l0: seq<Objects>, l1: seq<Objects>, calls: seq<Call>, from: nat)
    requires Pruning(c, kind, keep, l0, l1, calls, from)
    ensures l0 <= l1 && Spares(c.goal, l0, l1) && SparesSafe(c, kind, calls, from)
    ensures ListThenDeletes(kind, keep, calls, from) && from < |calls| && calls[|calls| - 1].states == |l1|
  {
  }

  lemma SparesSafeTrans(c: Course, kind: Kind, mid: seq<Call>, calls: seq<Call>, from: nat)
    requires SparesSafe(c, kind, mid, from) && SparesSafe(c, kind, calls, |mid|) && mid <= calls
    ensures SparesSafe(c, kind, calls, from)
  {
    forall i | from <= i < |mid|
      ensures calls[i] == mid[i]
    {
    }
  }

  /** The first `n` references have been handled: those that resolve are in `want`, the
      others in `invalid`, and in a calm pass the wanted ones are done. */
  ghost predicate Granting(hash: HashFunction, refs: seq<Reference>, roles: set<string>, n: nat,
    want: set<Key>, invalid: seq<InvalidReference>, c: Course, log: seq<Objects>, seen: nat)
  {
    && n <= |refs| && c.goal == GoalOf(hash, c.goal.ns, c.goal.owner, refs, roles)
    && want == KeysOf(hash, c.goal.ns, c.goal.owner, Resolved(refs[..n], roles))
    && invalid == Unresolved(refs[..n], roles)
    && (c.Caught() && Functional(c.goal) ==> c.start <= seen && Progress(c.goal, want, log, c.start, seen))
  }

  /** The next reference is to a missing ClusterRole. */
  lemma MissingStep(hash: HashFunction, refs: seq<Reference>, roles: set<string>, n: nat,
    want: set<Key>, invalid: seq<InvalidReference>, c: Course, log: seq<Objects>, seen: nat)
    requires Granting(hash, refs, roles, n, want, invalid, c, log, seen)
    requires n < |refs| && refs[n].role !in roles
    ensures Granting(hash, refs, roles, n + 1, want,
      invalid + [InvalidReference(refs[n].role, "ClusterRole not found")], c, log, seen)
  {
    assert refs[..n + 1][..n] == refs[..n];
  }

  /** The next reference resolves; what the binding for it looks like. */
  lemma ResolvedRef(hash: HashFunction, refs: seq<Reference>, roles: set<string>, n: nat,
    want: set<Key>, invalid: seq<InvalidReference>, c: Course, log: seq<Objects>, seen: nat)
    requires Granting(hash, refs, roles, n, want, invalid, c, log, seen) && OnCourse(c, log, seen)
    requires n < |refs| && refs[n].role in roles
    ensures
      var (g, r) := (c.goal, refs[n]);
      var k := RefKey(hash, g.ns, g.owner, r);
      && k == Key(g.ns, BindingName(hash, g.owner, SubjectKey(hash, r.mapping), r.role))
      && Want(k, Grant(RoleRef(RBAC_GROUP, "ClusterRole", r.role), Subjects(r.mapping))) in g.wants
      && (c.Caught() && Functional(g) ==> seen < |log| && EnsurableCalmly(c, k, log, seen))
      && (Steady(g, log[|log| - 1]) ==> Done(g, k, log[|log| - 1]))
  {
    hide Reached, Shrunk, Mended, Done, Calm, Fresh, Correctable, Modest, SafeRetained, StaysInReach;
    var r := refs[n];
    ResolvedIn(refs, roles, r);
    assert Want(RefKey(hash, c.goal.ns, c.goal.owner, r), RefContent(r)) in c.goal.wants;
  }

  lemma ResolvedStep(hash: HashFunction, refs: seq<Reference>, roles: set<string>, n: nat, k: Key,
    want: set<Key>, invalid: seq<InvalidReference>, c: Course, l0: seq<Objects>, l1: seq<Objects>, seen: nat, now: nat)
    requires Granting(hash, refs, roles, n, want, invalid, c, l0, seen)
    requires n < |refs| && refs[n].role in roles
    requires k == RefKey(hash, c.goal.ns, c.goal.owner, refs[n])
    requires OnCourse(c, l1, now) && seen <= now < |l1| && |l0| > 0 && Confined(k, l0, l1)
    requires c.Caught() && Functional(c.goal) ==>
      Done(c.goal, k, l1[|l1| - 1]) && Calm(c.goal, k, l1, c.start) && Correctable(c.goal, k, l1[now])
    ensures Granting(hash, refs, roles, n + 1, want + {k}, invalid, c, l1, now)
  {
    hide Calm, Fresh, Correctable, RefKey, RefContent, SameElsewhere, Done, Pass, Modest;
    assert refs[..n + 1][..n] == refs[..n];
    if c.Caught() && Functional(c.goal) {
      ProgressStep(c, want, k, l0, l1, seen, now);
    }
  }

  /** The references of `m` are those of `refs` from `n` on. */
  ghost predicate Covers(refs: seq<Reference>, n: nat, m: Mapping) {
    n + |References(m)| <= |refs| && refs[n..n + |References(m)|] == References(m)
  }

  lemma CoveredCount(refs: seq<Reference>, n: nat, m: Mapping)
    requires Covers(refs, n, m)
    ensures |References(m)| == (if Subjects(m) == [] then 0 else |m.clusterRoles|) && n + |References(m)| <= |refs|
  {
  }

  lemma CoveredAt(refs: seq<Reference>, n: nat, m: Mapping, i: nat)
    requires Covers(refs, n, m) && i < |References(m)|
    ensures n + i < |refs| && i < |m.clusterRoles| && refs[n + i] == Reference(m, m.clusterRoles[i]) == References(m)[i]
  {
    assert refs[n..n + |References(m)|][i] == References(m)[i];
  }

  /** The next calls look up the ClusterRole of `r`, which exists, and then read its
      binding, and the state shown misleads. */
  ghost predicate LookedUpAndMisled(api: Store, names: set<string>, hash: HashFunction, r: Reference)
    reads api, api.wire
  {
    && r.role in names && Answers(api.wire.fates, api.wire.tick)
    && Misled(api, api.wire.tick + 1, RefKey(hash, api.ns, api.owner, r), RefContent(r))
  }

  /** Nothing holds the binding, and its deletion, the call after, will arrive. */
  ghost predicate WillGo(api: Store, k: Key)
    reads api, api.wire
  {
    |api.log| > 0 && Unheld(k, api.Live()) && Reaches(api.wire.fates, api.wire.tick + 2)
  }

  /** `k` was asked to go, and if it was to go it was lost. */
  ghost predicate AskedAndGone(kind: Kind, k: Key, calls: seq<Call>, from: nat, l0: seq<Objects>, l1: seq<Objects>, gone: bool) {
    DeleteCalled(kind, k, calls, from) && (gone ==> |l0| < |l1| && k !in l1[|l0|])
  }

  lemma StillGone(kind: Kind, k: Key, calls: seq<Call>, more: seq<Call>, from: nat, l0: seq<Objects>, l1: seq<Objects>,
    l2: seq<Objects>, gone: bool)
    requires AskedAndGone(kind, k, calls, from, l0, l1, gone) && calls <= more && l1 <= l2
    ensures AskedAndGone(kind, k, more, from, l0, l2, gone)
  {
    var i :| from <= i < |calls| && calls[i].kind == kind && calls[i].verb == DELETE && calls[i].key == k;
    assert more[i] == calls[i];
  }

  /** The cache shows that every want is in place. */
  ghost predicate Resting(c: Course, log: seq<Objects>, seen: nat) {
    |log| > 0 && seen == |log| - 1 && Steady(c.goal, log[seen]) && Functional(c.goal)
  }

  lemma RestingStays(c: Course, log: seq<Objects>, seen: nat, later: nat)
    requires seen <= later < |log|
    ensures Resting(c, log, seen) ==> Resting(c, log, later)
  {
  }

  /** Looks one ClusterRole up, and ensures its binding or records that it is missing. */
  method GrantReference(api: Store, roles: ClusterRoles, hash: HashFunction, ns: string, owner: string,
    key: string, subjects: seq<Subject>, role: string, want: set<Key>, invalid: seq<InvalidReference>,
    ghost refs: seq<Reference>, ghost n: nat, ghost c: Course)
    returns (e: Option<Error>, want': set<Key>, invalid': seq<InvalidReference>)
    requires ns == c.goal.ns && owner == c.goal.owner && n < |refs| && role == refs[n].role
    requires key == SubjectKey(hash, refs[n].mapping) && subjects == Subjects(refs[n].mapping)
    requires api.Valid() && Serves(api, c.goal) && roles.wire == api.wire && api.kind != ROLES
    requires OnCourse(c, api.log, api.seen) && Granting(hash, refs, roles.names, n, want, invalid, c, api.log, api.seen)
    modifies api, api.wire
    ensures api.Valid() && OnCourse(c, api.log, api.seen) && old(api.seen) <= api.seen
    ensures old(api.log) <= api.log && old(api.wire.calls) <= api.wire.calls
    ensures GrantStage(c, api.kind, old(api.log), api.log, old(api.world), old(api.turns), api.world, api.turns,
      old(api.wire.calls), api.wire.calls)
    ensures e.None? ==> Granting(hash, refs, roles.names, n + 1, want', invalid', c, api.log, api.seen)
    ensures old(Resting(c, api.log, api.seen)) ==>
      OnlyReads(api.wire.calls, |old(api.wire.calls)|)
    ensures old(api.wire.tick) < api.wire.tick
    ensures AllPrompt(api.wire.fates, old(api.wire.tick), api.wire.tick) && old(Smooth(c, api.log)) ==> e.None?
    ensures Fails(api.wire.fates, old(api.wire.tick)) ==> e == Some(Other)
    ensures old(LookedUpAndMisled(api, roles.names, hash, refs[n])) ==>
      var k := RefKey(hash, ns, owner, refs[n]);
      AskedAndGone(api.kind, k, api.wire.calls, |old(api.wire.calls)|, old(api.log), api.log, old(WillGo(api, k)))
  {
    hide OnCourse, Versioned, Mirrors, Accounted, Done, Calm, EnsurableCalmly, Correctable, Functional, Granting, Confined, Steady;
    hide BindingName, SubjectKey, RefKey, Subjects, GrantsOnly, CallsAbout, SparesSafe, Misled, Unheld, DeleteCalled, OnlyReads;
    hide Extends, AllPrompt, Smooth;
    e, want', invalid' := None, want, invalid;
    ghost var log, seen, from, tick := api.log, api.seen, |api.wire.calls|, api.wire.tick;
    ExtendsSelf(api.world, api.turns);
    var cr := roles.Get(role);
    ghost var looked := api.wire.calls;
    LookupIsRead(looked, from);
    PromptFirst(api.wire.fates, tick, tick + 1);
    GrantsNothing(c, api.kind, log, looked, from);
    if cr.Err? {
      if cr.error != NotFound {
        return Some(cr.error), want, invalid;
      }
      MissingStep(hash, refs, roles.names, n, want, invalid, c, log, seen);
      return None, want, invalid + [InvalidReference(role, "ClusterRole not found")];
    }
    var k := Key(ns, BindingName(hash, owner, key, role));
    ResolvedRef(hash, refs, roles.names, n, want, invalid, c, log, seen);
    e := EnsureBinding(api, k, owner, Grant(RoleRef(RBAC_GROUP, "ClusterRole", role), subjects), c);
    GrantsOne(c, api.kind, log, api.log, api.wire.calls, |looked|, k);
    GrantsTrans(c, api.kind, log, log, api.log, looked, api.wire.calls, from);
    ReadThen(looked, api.wire.calls, from);
    AllPromptSplits(api.wire.fates, tick, tick + 1, api.wire.tick);
    LostAfter(api.kind, k, looked, api.wire.calls, from);
    if e.None? {
      ResolvedStep(hash, refs, roles.names, n, k, want, invalid, c, log, api.log, seen, api.seen);
      want' := want + {k};
    }
  }

  lemma SmoothPrefix(c: Course, log: seq<Objects>, later: seq<Objects>)
    requires log <= later && c.start < |log|
    ensures Smooth(c, log) <==> Smooth(c, later)
  {
  }

  lemma NothingRead(calls: seq<Call>)
    ensures OnlyReads(calls, |calls|)
  {
  }

  lemma LookupIsRead(calls: seq<Call>, from: nat)
    requires |calls| == from + 1 && calls[from].verb == GET
    ensures OnlyReads(calls, from)
  {
  }

  lemma ReadThen(calls: seq<Call>, more: seq<Call>, from: nat)
    requires calls <= more && from <= |calls|
    ensures OnlyReads(more, from) <==> OnlyReads(calls, from) && OnlyReads(more, |calls|)
  {
    assert forall i :: from <= i < |calls| ==> more[i] == calls[i];
    if !OnlyReads(calls, from) {
      StillWritten(calls, more, from);
    }
  }

  lemma LostAfter(kind: Kind, k: Key, calls: seq<Call>, more: seq<Call>, from: nat)
    requires from <= |calls|
    ensures DeleteCalled(kind, k, more, |calls|) ==> DeleteCalled(kind, k, more, from)
  {
  }

  /** Ensures a binding for each reference of `m` that resolves, and collects the others. */
  method GrantMapping(api: Store, roles: ClusterRoles, hash: HashFunction, ns: string, owner: string, m: Mapping,
    want: set<Key>, invalid: seq<InvalidReference>,
    ghost refs: seq<Reference>, ghost n: nat, ghost c: Course)
    returns (e: Option<Error>, want': set<Key>, invalid': seq<InvalidReference>)
    requires ns == c.goal.ns && owner == c.goal.owner
    requires Covers(refs, n, m)
    requires api.Valid() && Serves(api, c.goal) && roles.wire == api.wire && api.kind != ROLES
    requires OnCourse(c, api.log, api.seen) && Granting(hash, refs, roles.names, n, want, invalid, c, api.log, api.seen)
    modifies api, api.wire
    ensures api.Valid() && OnCourse(c, api.log, api.seen) && old(api.seen) <= api.seen
    ensures old(api.log) <= api.log && old(api.wire.calls) <= api.wire.calls
    ensures GrantStage(c, api.kind, old(api.log), api.log, old(api.world), old(api.turns), api.world, api.turns,
      old(api.wire.calls), api.wire.calls)
    ensures e.None? ==>
      Granting(hash, refs, roles.names, n + |References(m)|, want', invalid', c, api.log, api.seen)
    ensures old(Resting(c, api.log, api.seen)) ==>
      OnlyReads(api.wire.calls, |old(api.wire.calls)|)
    ensures old(api.wire.tick) <= api.wire.tick
    ensures AllPrompt(api.wire.fates, old(api.wire.tick), api.wire.tick) && old(Smooth(c, api.log)) ==> e.None?
    ensures Fails(api.wire.fates, old(api.wire.tick)) && References(m) != [] ==> e == Some(Other)
    ensures References(m) != [] && old(LookedUpAndMisled(api, roles.names, hash, References(m)[0])) ==>
      var k := RefKey(hash, ns, owner, References(m)[0]);
      AskedAndGone(api.kind, k, api.wire.calls, |old(api.wire.calls)|, old(api.log), api.log, old(WillGo(api, k)))
  {
    hide OnCourse, Versioned, Mirrors, Accounted, Functional, Granting, Steady, SubjectKey, Subjects, References, Covers;
    hide OnlyReads, RefKey, LookedUpAndMisled, AskedAndGone, WillGo, Serves, Fails, RefContent, AllPrompt, Smooth, GrantStage, SubjectsTold, Resting;
    ghost var tick, smooth := api.wire.tick, Smooth(c, api.log);
    StartsBefore(c, api.log, api.seen);
    ghost var log, calls, world, turns := api.log, api.wire.calls, api.world, api.turns;
    StageStart(c, api.kind, log, world, turns, calls);
    ghost var quiet := Resting(c, api.log, api.seen);
    e, want', invalid' := None, want, invalid;
    var subjects := SubjectsFor(m);
    CoveredCount(refs, n, m);
    if |subjects| == 0 || |m.clusterRoles| == 0 {
      return;
    }
    var key := SubjectKey(hash, m);
    ghost var first := RefKey(hash, ns, owner, References(m)[0]);
    ghost var going, misled := WillGo(api, first), LookedUpAndMisled(api, roles.names, hash, References(m)[0]);
    for i := 0 to |m.clusterRoles|
      invariant api.Valid() && OnCourse(c, api.log, api.seen) && old(api.seen) <= api.seen
      invariant log <= api.log && calls <= api.wire.calls && tick <= api.wire.tick && e.None?
      invariant GrantStage(c, api.kind, log, api.log, world, turns, api.world, api.turns, calls, api.wire.calls)
      invariant Granting(hash, refs, roles.names, n + i, want', invalid', c, api.log, api.seen)
      invariant quiet ==> OnlyReads(api.wire.calls, |calls|)
      invariant i == 0 ==> api.log == log && api.wire.calls == calls && api.wire.tick == tick && WillGo(api, first) == going
      invariant i == 0 ==> LookedUpAndMisled(api, roles.names, hash, References(m)[0]) == misled
      invariant i > 0 && misled ==>
        AskedAndGone(api.kind, first, api.wire.calls, |calls|, log, api.log, going)
      invariant Fails(api.wire.fates, tick) ==> i == 0
    {
      ghost var l1, mid, w1, t1, now := api.log, api.wire.calls, api.world, api.turns, api.wire.tick;
      StageGives(c, api.kind, log, l1, world, turns, w1, t1, calls, mid);
      SmoothPrefix(c, log, l1);
      if quiet {
        RestingStays(c, log, old(api.seen), api.seen);
      }
      CoveredAt(refs, n, m, i);
      e, want', invalid' := GrantReference(api, roles, hash, ns, owner, key, subjects, m.clusterRoles[i],
        want', invalid', refs, n + i, c);
      assert i == 0 ==> refs[n] == References(m)[0];
      StageTrans(c, api.kind, log, l1, api.log, world, turns, w1, t1, api.world, api.turns, calls, mid, api.wire.calls);
      AllPromptSplits(api.wire.fates, tick, now, api.wire.tick);
      if i > 0 && misled {
        StillGone(api.kind, first, mid, api.wire.calls, |calls|, log, l1, api.log, going);
      }
      if e.Some? {
        return;
      }
    }
  }

  /** Everything a spec refers to has been handled, and what is still owned outside the
      wanted names only waits on its own finalizers. */
  ghost predicate Converged(g: Goal, s: Objects) {
    Steady(g, s) && forall k :: k in s && Selected(k, s[k], g.ns, g.owner) && !Wanted(g, k) ==> Held(k, s)
  }

  /** The owned objects are exactly the wanted ones, and each is as wanted. */
  ghost predicate Exact(g: Goal, s: Objects) {
    Steady(g, s) && forall k :: k in s && Selected(k, s[k], g.ns, g.owner) ==> Wanted(g, k)
  }

  /** A completed prune of everything but the granted names leaves the store converged. */
  lemma GrantedAndPruned(hash: HashFunction, refs: seq<Reference>, roles: set<string>, want: set<Key>,
    invalid: seq<InvalidReference>, c: Course, l0: seq<Objects>, l1: seq<Objects>, seen: nat)
    requires Granting(hash, refs, roles, |refs|, want, invalid, c, l0, seen) && |l0| > 0
    requires Spares(c.goal, l0, l1) && (c.Caught() ==> Pruned(c.goal, want, l1[|l1| - 1]))
    ensures invalid == Unresolved(refs, roles)
    ensures c.Caught() && Functional(c.goal) ==> Converged(c.goal, l1[|l1| - 1])
  {
    GrantedNames(hash, refs, roles, want, invalid, c, l0, seen);
    assert refs[..|refs|] == refs;
    if c.Caught() && Functional(c.goal) {
      ProgressPruned(c.goal, want, l0, l1, c.start, seen);
    }
  }

  lemma ProgressPruned(g: Goal, want: set<Key>, l0: seq<Objects>, l1: seq<Objects>, start: nat, seen: nat)
    requires Progress(g, want, l0, start, seen) && Spares(g, l0, l1) && Pruned(g, want, l1[|l1| - 1])
    requires forall k :: Wanted(g, k) <==> k in want
    ensures Converged(g, l1[|l1| - 1])
  {
    forall k | Wanted(g, k)
      ensures Done(g, k, l1[|l1| - 1])
    {
      assert Done(g, k, l0[|l0| - 1]);
      assert |l0| < |l1| ==> SameAt(k, l0[|l0| - 1], l1[|l1| - 1]);
    }
  }

  /** The prune that ends granting: everything owned but what was granted. */
  method PruneOthers(api: Store, hash: HashFunction, want: set<Key>, ghost invalid: seq<InvalidReference>,
    ghost refs: seq<Reference>, ghost names: set<string>, ghost c: Course)
    returns (e: Option<Error>)
    requires api.Valid() && Serves(api, c.goal) && OnCourse(c, api.log, api.seen)
    requires Granting(hash, refs, names, |refs|, want, invalid, c, api.log, api.seen)
    modifies api, api.wire
    ensures api.Valid() && OnCourse(c, api.log, api.seen) && old(api.seen) <= api.seen
    ensures old(api.log) <= api.log && old(api.wire.calls) < api.wire.calls
    ensures Extends(old(api.world), old(api.turns), api.world, api.turns)
    ensures SparesSafe(c, api.kind, api.wire.calls, |old(api.wire.calls)|)
    ensures ListThenDeletes(api.kind, KeysOf(hash, c.goal.ns, c.goal.owner, Resolved(refs, names)), api.wire.calls,
      |old(api.wire.calls)|)
    ensures e.Some? ==> api.wire.calls[|api.wire.calls| - 1].error == e != Some(NotFound)
    ensures e.None? ==> invalid == Unresolved(refs, names)
    ensures e.None? && c.Caught() ==>
      Pruned(c.goal, KeysOf(hash, c.goal.ns, c.goal.owner, Resolved(refs, names)), api.Live())
    ensures e.None? && c.Caught() && Functional(c.goal) ==> Converged(c.goal, api.Live())
    ensures old(api.seen == |api.log| - 1 && Exact(c.goal, api.Live())) ==>
      OnlyReads(api.wire.calls, |old(api.wire.calls)|)
    ensures OnlyReads(api.wire.calls, |old(api.wire.calls)|) ==> api.log == old(api.log)
    ensures (e.None? && OnlyReads(api.wire.calls, |old(api.wire.calls)|) && c.Caught() && Functional(c.goal)
      && old(api.seen == |api.log| - 1)) ==> Exact(c.goal, api.Live())
    ensures old(api.wire.tick) < api.wire.tick
    ensures AllPrompt(api.wire.fates, old(api.wire.tick), api.wire.tick) ==> e.None?
  {
    hide OnCourse, Versioned, Mirrors, Accounted, Functional, Granting, Wanted, ListThenDeletes, Exact, Tidy;
    hide Pruned, Converged, GoalOf, Unresolved, Pruning, SparesSafe, KeysOf, OnlyReads, Extends, AllPrompt, Serves;
    ghost var log, seen, calls := api.log, api.seen, api.wire.calls;
    GrantedNames(hash, refs, names, want, invalid, c, log, seen);
    GrantedKeys(hash, refs, names, want, invalid, c, log, seen);
    e := Prune(api, want, c);
    PruningGives(c, api.kind, want, log, api.log, api.wire.calls, |calls|);
    if e.None? {
      GrantedAndPruned(hash, refs, names, want, invalid, c, log, api.log, seen);
      ConvergedAndTidy(c.goal, want, api.Live());
    }
  }

  /** A pass that has not touched any wanted name. */
  lemma GrantingStart(hash: HashFunction, refs: seq<Reference>, roles: set<string>, c: Course, log: seq<Objects>, seen: nat)
    requires c.start < |log| && seen < |log| && c.goal == GoalOf(hash, c.goal.ns, c.goal.owner, refs, roles)
    requires c.Caught() ==> c.start <= seen
    requires forall k :: Wanted(c.goal, k) ==> Fresh(k, log, c.start)
    ensures Granting(hash, refs, roles, 0, {}, [], c, log, seen)
  {
    hide Done;
    assert refs[..0] == [];
    forall k | Wanted(c.goal, k)
      ensures Calm(c.goal, k, log, c.start)
    {
      FreshIsCalm(c.goal, k, log, c.start);
    }
  }

  lemma FreshIsCalm(g: Goal, k: Key, log: seq<Objects>, start: nat)
    requires start < |log| && Fresh(k, log, start)
    ensures Calm(g, k, log, start)
  {
    assert SameAt(k, log[start], log[|log| - 1]);
    forall i | start <= i < |log| && Done(g, k, log[i])
      ensures Done(g, k, log[|log| - 1])
    {
      assert SameAt(k, log[start], log[i]);
    }
  }

  lemma WholeSpec(m: Mapping)
    ensures Covers(References(m), 0, m)
  {
  }

  /** Once every reference has been handled, the granted names are the wanted ones. */
  lemma GrantedNames(hash: HashFunction, refs: seq<Reference>, roles: set<string>, want: set<Key>,
    invalid: seq<InvalidReference>, c: Course, log: seq<Objects>, seen: nat)
    requires Granting(hash, refs, roles, |refs|, want, invalid, c, log, seen) && |log| > 0
    ensures forall k :: Wanted(c.goal, k) <==> k in want
    ensures Exact(c.goal, log[|log| - 1]) ==> Tidy(c.goal, want, log[|log| - 1])
  {
    assert refs[..|refs|] == refs;
    forall k {:trigger Wanted(c.goal, k)}
      ensures Wanted(c.goal, k) <==> k in want
    {
      GoalWants(hash, c.goal.ns, c.goal.owner, refs, roles, k);
    }
  }

  lemma GrantedKeys(hash: HashFunction, refs: seq<Reference>, roles: set<string>, want: set<Key>,
    invalid: seq<InvalidReference>, c: Course, log: seq<Objects>, seen: nat)
    requires Granting(hash, refs, roles, |refs|, want, invalid, c, log, seen)
    ensures want == KeysOf(hash, c.goal.ns, c.goal.owner, Resolved(refs, roles))
  {
    assert refs[..|refs|] == refs;
  }

  lemma ConvergedAndTidy(g: Goal, want: set<Key>, s: Objects)
    requires forall k :: Wanted(g, k) <==> k in want
    ensures Converged(g, s) && Tidy(g, want, s) ==> Exact(g, s)
  {
  }

  lemma ExactRests(c: Course, log: seq<Objects>, seen: nat)
    requires |log| > 0
    ensures seen == |log| - 1 && Exact(c.goal, log[|log| - 1]) && Functional(c.goal) ==> Resting(c, log, seen)
  {
  }

  lemma FreshStart(g: Goal, log: seq<Objects>)
    requires |log| > 0
    ensures forall k :: Wanted(g, k) ==> Fresh(k, log, |log| - 1)
  {
  }
}
