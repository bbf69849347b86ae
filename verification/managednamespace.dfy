/** The ManagedNamespace reconciler: a Namespace, its quotas and its bindings. */
module ManagedNamespaces {
  import opened Cluster
  import opened Naming
  import opened Upkeep
  import opened Access
  import opened Metadata

  datatype QuotaSpec = QuotaSpec(name: string, limits: string)

  datatype Spec = Spec(meta: MetaSpec, quotas: seq<QuotaSpec>, mappings: seq<Mapping>)

  /** The quotas a spec asks for; unnamed ones are skipped. */
  function QuotaGoal(name: string, quotas: seq<QuotaSpec>): (g: Goal)
    ensures g.ns == name && g.owner == name
  {
    Goal(name, name, set q | q in quotas && q.name != "" :: Want(Key(name, q.name), Quota(q.limits)))
  }

  lemma QuotaWanted(name: string, quotas: seq<QuotaSpec>, k: Key)
    ensures Wanted(QuotaGoal(name, quotas), k) <==> exists q :: q in quotas && q.name != "" && Key(name, q.name) == k
  {
    forall q | q in quotas && q.name != ""
      ensures Want(Key(name, q.name), Quota(q.limits)) in QuotaGoal(name, quotas).wants
    {
    }
  }

  /** Where the references of the first `i` mappings end. */
  function Count(mappings: seq<Mapping>, i: nat): nat
    requires i <= |mappings|
  {
    |AllReferences(mappings[..i])|
  }

  lemma {:induction false} CoversNext(mappings: seq<Mapping>, i: nat)
    requires i < |mappings|
    ensures Covers(AllReferences(mappings), Count(mappings, i), mappings[i])
    ensures Count(mappings, i + 1) == Count(mappings, i) + |References(mappings[i])|
    ensures AllReferences(mappings[..i + 1]) == AllReferences(mappings[..i]) + References(mappings[i])
  {
    hide References;
    assert mappings[..i + 1][..i] == mappings[..i];
    PrefixReferences(mappings, i + 1);
    var (refs, before, own) := (AllReferences(mappings), AllReferences(mappings[..i]), References(mappings[i]));
    assert before + own <= refs;
    assert refs[|before|..|before| + |own|] == (before + own)[|before|..];
  }

  lemma {:induction false} PrefixReferences(mappings: seq<Mapping>, i: nat)
    requires i <= |mappings|
    ensures AllReferences(mappings[..i]) <= AllReferences(mappings)
  {
    if i < |mappings| {
      PrefixReferences(mappings[..|mappings| - 1], i);
      assert mappings[..|mappings| - 1][..i] == mappings[..i];
    } else {
      assert mappings[..i] == mappings;
    }
  }

  lemma KeysOfAppend(hash: HashFunction, ns: string, owner: string, a: seq<Reference>, b: seq<Reference>)
    ensures KeysOf(hash, ns, owner, a + b) == KeysOf(hash, ns, owner, a) + KeysOf(hash, ns, owner, b)
  {
  }

  lemma NoSubjects(m: Mapping)
    ensures Subjects(m) == [] <==> m.group == "" && m.users == []
  {
    NormalizedAscending(m.users);
    assert m.users != [] ==> m.users[0] in Elements(Normalized(m.users));
  }

  /** A mapping refers to each of its roles, in order, unless it has no subject. */
  lemma ReferencesTold(m: Mapping)
    ensures m.group == "" && m.users == [] ==> References(m) == []
    ensures m.group != "" || m.users != [] ==>
      |References(m)| == |m.clusterRoles|
      && forall j :: 0 <= j < |m.clusterRoles| ==> References(m)[j] == Reference(m, m.clusterRoles[j])
  {
    NoSubjects(m);
  }

  /** Nothing the spec does not name survives in any state from `mid` on. */
  ghost predicate RevokedFrom(g: Goal, keep: set<Key>, log: seq<Objects>, mid: nat) {
    forall i :: mid <= i < |log| ==> Pruned(g, keep, log[i])
  }

  lemma StaysRevoked(c: Course, keep: set<Key>, log: seq<Objects>, seen: nat, mid: nat)
    requires OnCourse(c, log, seen) && c.Caught() && c.start <= mid < |log|
    requires Pruned(c.goal, keep, log[mid]) && forall k :: Wanted(c.goal, k) ==> k in keep
    ensures RevokedFrom(c.goal, keep, log, mid)
  {
    forall i | mid <= i < |log|
      ensures Pruned(c.goal, keep, log[i])
    {
      assert Shrunk(c.goal, log[mid], log[i]);
    }
  }

  /** The first `revoked` calls of a pass, from call `from` on, were a prune: one list and
      deletes of what is not in `keep`, and by the last of them the state was number `mid`. */
  ghost predicate PrunedFirst(keep: set<Key>, calls: seq<Call>, from: nat, revoked: nat, mid: nat) {
    && from < revoked <= |calls| && ListThenDeletes(BINDINGS, keep, calls[..revoked], from)
    && calls[revoked - 1].states == mid + 1
  }

  /** Whose turn it is: from call `revoked` on the Namespace, from `placed` on the quotas, and
      from `limited` on roles and bindings; and the next turn comes only after the last call
      of the one before was answered well. */
  ghost predicate InOrder(calls: seq<Call>, revoked: nat, placed: nat, limited: nat) {
    && revoked <= placed <= limited <= |calls|
    && (forall i :: revoked <= i < placed ==> calls[i].kind == NAMESPACES)
    && (forall i :: placed <= i < limited ==> calls[i].kind == QUOTAS)
    && (forall i :: limited <= i < |calls| ==> calls[i].kind in {ROLES, BINDINGS})
    && (placed < |calls| ==> revoked < placed && calls[placed - 1].error.None?)
    && (limited < |calls| ==> placed < limited && calls[limited - 1].error in {None, Some(NotFound)})
  }

  /** The turns were in order, and where they ended early the pass failed and what would have
      come next was left alone. */
  ghost predicate Stopped(calls: seq<Call>, revoked: nat, placed: nat, limited: nat, succeeded: bool, quotasAlone: bool,
    bindingsAlone: bool)
  {
    && InOrder(calls, revoked, placed, limited)
    && (placed == |calls| ==> !succeeded && quotasAlone)
    && (limited == |calls| ==> !succeeded && bindingsAlone)
  }

  /** Every wanted object could be corrected in place. */
  ghost predicate AllCorrectable(g: Goal, s: Objects) {
    forall k :: Wanted(g, k) ==> Correctable(g, k, s)
  }

  /** Only unanswered calls can stop this pass over quotas. */
  ghost predicate SmoothQuotas(c: Course, log: seq<Objects>) {
    c.start < |log| && c.Caught() && Functional(c.goal) && AllCorrectable(c.goal, log[c.start])
  }

  lemma SmoothQuotasNow(c: Course, log: seq<Objects>, seen: nat)
    requires OnCourse(c, log, seen) && SmoothQuotas(c, log)
    ensures AllCorrectable(c.goal, log[|log| - 1])
  {
    hide Correctable, Reached, Shrunk, SafeRetained, StaysInReach, Modest;
    assert Mended(c.goal, log[c.start], log[|log| - 1]);
  }

  class ManagedNamespaceReconciler {
    const hash: HashFunction
    const namespaces: NamespaceStore
    const quotas: Store
    const bindings: Store
    const roles: ClusterRoles
    const wire: Wire

    constructor (hash: HashFunction, namespaces: NamespaceStore, quotas: Store, bindings: Store, roles: ClusterRoles)
      ensures this.hash == hash && this.namespaces == namespaces && this.roles == roles
      ensures this.quotas == quotas && this.bindings == bindings && this.wire == bindings.wire
    {
      this.hash, this.namespaces, this.quotas, this.bindings, this.roles := hash, namespaces, quotas, bindings, roles;
      this.wire := bindings.wire;
    }

    /** All calls go over one wire. */
    ghost predicate Valid()
      reads namespaces, quotas, bindings
    {
      && namespaces.Valid() && quotas.Valid() && bindings.Valid() && quotas != bindings
      && quotas.kind == QUOTAS && bindings.kind == BINDINGS
      && namespaces.wire == wire && quotas.wire == wire && bindings.wire == wire && roles.wire == wire
    }

    /** What the spec asks for is this owner's own. */
    ghost predicate Ready(name: string, spec: Spec)
      reads namespaces, quotas, bindings
    {
      Valid() && Serves(bindings, BindingGoal(name, spec)) && Serves(quotas, QuotaGoal(name, spec.quotas))
    }

    ghost function BindingGoal(name: string, spec: Spec): Goal {
      GoalOf(hash, name, name, AllReferences(spec.mappings), roles.names)
    }

    /** Every name the spec refers to, whether or not its ClusterRole exists. */
    ghost function SpecNames(name: string, spec: Spec): set<Key> {
      KeysOf(hash, name, name, AllReferences(spec.mappings))
    }

    ghost function BindingCourse(name: string, spec: Spec): (c: Course)
      requires bindings.Valid()
      reads bindings
      ensures c.goal == BindingGoal(name, spec)
    {
      CourseOf(BindingGoal(name, spec), bindings.log, bindings.seen)
    }

    ghost function QuotaCourse(name: string, spec: Spec): (c: Course)
      requires quotas.Valid()
      reads quotas
      ensures c.goal == QuotaGoal(name, spec.quotas)
    {
      CourseOf(QuotaGoal(name, spec.quotas), quotas.log, quotas.seen)
    }

    /** The binding cache has caught up, and names do not collide. */
    ghost predicate Calmly(name: string, spec: Spec)
      requires bindings.Valid()
      reads bindings
    {
      bindings.seen == |bindings.log| - 1 && Functional(BindingGoal(name, spec))
    }

    ghost predicate QuotasCalmly(name: string, spec: Spec)
      requires quotas.Valid()
      reads quotas
    {
      quotas.seen == |quotas.log| - 1 && Functional(QuotaGoal(name, spec.quotas))
    }

    /** Every cache has caught up, and names do not collide. */
    ghost predicate AllCalm(name: string, spec: Spec)
      requires Valid()
      reads namespaces, quotas, bindings
    {
      Calmly(name, spec) && QuotasCalmly(name, spec) && namespaces.seen == |namespaces.log| - 1
    }

    /** So it is, and nothing stands in the way: the inventory is not malformed, and no wanted
        name is held by an object that can neither be corrected nor, for a binding, replaced. */
    ghost predicate Unobstructed(name: string, spec: Spec)
      requires Valid()
      reads namespaces, quotas, bindings
    {
      && AllCalm(name, spec) && Replaceable(BindingGoal(name, spec), bindings.Live())
      && AllCorrectable(QuotaGoal(name, spec.quotas), quotas.Live()) && !Malformed(MetaOf(namespaces.Live()))
    }

    /** Every cache has caught up, and there is nothing to do. */
    ghost predicate Quietly(name: string, spec: Spec)
      requires Valid()
      reads namespaces, quotas, bindings
    {
      && bindings.seen == |bindings.log| - 1 && quotas.seen == |quotas.log| - 1
      && Functional(BindingGoal(name, spec)) && Exact(BindingGoal(name, spec), bindings.Live())
      && Functional(QuotaGoal(name, spec.quotas)) && Exact(QuotaGoal(name, spec.quotas), quotas.Live())
      && NothingToMerge(namespaces, spec.meta, name)
    }

    method WantedNames(name: string, mappings: seq<Mapping>) returns (want: set<Key>)
      ensures want == KeysOf(hash, name, name, AllReferences(mappings))
    {
      hide BindingName, SubjectKey, Subjects, References, KeysOf, AllReferences;
      want := {};
      NamesStart(hash, name, mappings);
      for i := 0 to |mappings|
        invariant want == KeysOf(hash, name, name, AllReferences(mappings[..i]))
      {
        var m := mappings[i];
        CoversNext(mappings, i);
        NamesNext(hash, name, AllReferences(mappings[..i]), m);
        if m.group != "" || |m.users| > 0 {
          var key := SubjectKey(hash, m);
          ghost var before := want;
          for j := 0 to |m.clusterRoles|
            invariant want == before + NamesOf(hash, name, m, j)
          {
            want := want + {Key(name, BindingName(hash, name, key, m.clusterRoles[j]))};
          }
        }
      }
      assert mappings[..|mappings|] == mappings;
    }

    /** One quota of the spec. */
    method EnsureQuota(name: string, q: QuotaSpec, ghost specs: seq<QuotaSpec>, ghost want: set<Key>, ghost c: Course)
      returns (e: Option<Error>)
      requires quotas.Valid() && Serves(quotas, c.goal) && OnCourse(c, quotas.log, quotas.seen)
      requires c.goal == QuotaGoal(name, specs) && q in specs && q.name != "" && c.start < |quotas.log|
      requires c.Caught() && Functional(c.goal) ==>
        c.start <= quotas.seen && Progress(c.goal, want, quotas.log, c.start, quotas.seen)
      modifies quotas, quotas.wire
      ensures quotas.Valid() && OnCourse(c, quotas.log, quotas.seen)
      ensures old(quotas.log) <= quotas.log && old(quotas.seen) <= quotas.seen && old(quotas.wire.calls) <= quotas.wire.calls
      ensures CallsOf(quotas.kind, quotas.wire.calls, |old(quotas.wire.calls)|)
      ensures Extends(old(quotas.world), old(quotas.turns), quotas.world, quotas.turns)
      ensures e.None? && c.Caught() && Functional(c.goal) ==>
        Progress(c.goal, want + {Key(name, q.name)}, quotas.log, c.start, quotas.seen)
      ensures old(quotas.seen == |quotas.log| - 1 && Exact(c.goal, quotas.Live())) && Functional(c.goal) ==>
        OnlyReads(quotas.wire.calls, |old(quotas.wire.calls)|)
      ensures OnlyReads(quotas.wire.calls, |old(quotas.wire.calls)|) ==> quotas.log == old(quotas.log)
      ensures old(quotas.wire.tick) < quotas.wire.tick && old(quotas.wire.calls) < quotas.wire.calls
      ensures AllPrompt(quotas.wire.fates, old(quotas.wire.tick), quotas.wire.tick) && old(SmoothQuotas(c, quotas.log)) ==> e.None?
    {
      hide OnCourse, Versioned, Mirrors, Accounted, Functional, Progress, Done, Exact, QuotaGoal, Wanted, Correctable, OnlyReads, CallsOf;
      hide CallsAbout, Calm, Confined, Extends, NoDelete, AllPrompt, AllCorrectable, SmoothQuotas;
      QuotaSmooth(c, quotas.log, quotas.seen, Want(Key(name, q.name), Quota(q.limits)), specs, q, name);
      var k := Key(name, q.name);
      ghost var log, seen, calls := quotas.log, quotas.seen, quotas.wire.calls;
      QuotaAsked(name, specs, q, log[|log| - 1]);
      if c.Caught() && Functional(c.goal) {
        ProgressCalm(c.goal, want, k, log, c.start, seen);
      }
      e := CreateOrUpdate(quotas, k, name, Quota(q.limits), c);
      AboutIsOf(quotas.kind, k, quotas.wire.calls, |calls|);
      ConfinedGrows(k, log, quotas.log);
      if e.None? && c.Caught() && Functional(c.goal) {
        ProgressStep(c, want, k, log, quotas.log, seen, quotas.seen);
      }
    }

    method ReconcileQuota(name: string, specs: seq<QuotaSpec>, ghost c: Course) returns (e: Option<Error>)
      requires quotas.Valid() && Serves(quotas, c.goal) && OnCourse(c, quotas.log, quotas.seen)
      requires c.goal == QuotaGoal(name, specs) && c.start == |quotas.log| - 1
      modifies quotas, quotas.wire
      ensures quotas.Valid() && OnCourse(c, quotas.log, quotas.seen)
      ensures old(quotas.log) <= quotas.log && old(quotas.seen) <= quotas.seen && old(quotas.wire.calls) <= quotas.wire.calls
      ensures CallsOf(quotas.kind, quotas.wire.calls, |old(quotas.wire.calls)|)
      ensures Extends(old(quotas.world), old(quotas.turns), quotas.world, quotas.turns)
      ensures e.None? && c.Caught() && Functional(c.goal) ==> Converged(c.goal, quotas.Live())
      ensures old(quotas.seen == |quotas.log| - 1 && Exact(c.goal, quotas.Live())) && Functional(c.goal) ==>
        OnlyReads(quotas.wire.calls, |old(quotas.wire.calls)|)
      ensures OnlyReads(quotas.wire.calls, |old(quotas.wire.calls)|) ==> quotas.log == old(quotas.log)
      ensures (e.None? && OnlyReads(quotas.wire.calls, |old(quotas.wire.calls)|) && c.Caught() && Functional(c.goal)
        && old(quotas.seen == |quotas.log| - 1)) ==> old(Exact(c.goal, quotas.Live()))
      ensures old(quotas.wire.tick) < quotas.wire.tick
      ensures AllPrompt(quotas.wire.fates, old(quotas.wire.tick), quotas.wire.tick) && old(SmoothQuotas(c, quotas.log)) ==> e.None?
      ensures old(quotas.wire.calls) < quotas.wire.calls
      ensures e.None? ==> Answered(quotas.wire.calls)
    {
      hide OnCourse, Versioned, Mirrors, Accounted, Functional, Progress, Exact, Tidy, Pruned, Pruning, Converged, Serves;
      hide QuotaGoal, Wanted, ListThenDeletes, OnlyReads, CallsOf, Extends, AllPrompt, SmoothQuotas;
      ExtendsSelf(quotas.world, quotas.turns);
      ghost var world, turns, tick := quotas.world, quotas.turns, quotas.wire.tick;
      ghost var calm := c.Caught() && Functional(c.goal);
      ghost var quiet := quotas.seen == |quotas.log| - 1 && Exact(c.goal, quotas.Live()) && Functional(c.goal);
      ghost var log, calls := quotas.log, quotas.wire.calls;
      var want: set<Key> := {};
      ProgressStart(c, log, quotas.seen);
      NoCalls(quotas.kind, calls);
      for i := 0 to |specs|
        invariant quotas.Valid() && OnCourse(c, quotas.log, quotas.seen) && old(quotas.seen) <= quotas.seen
        invariant log <= quotas.log && calls <= quotas.wire.calls && CallsOf(quotas.kind, quotas.wire.calls, |calls|)
        invariant tick <= quotas.wire.tick
        invariant want == set q | q in specs[..i] && q.name != "" :: Key(name, q.name)
        invariant calm ==> c.start <= quotas.seen && Progress(c.goal, want, quotas.log, c.start, quotas.seen)
        invariant Extends(world, turns, quotas.world, quotas.turns)
        invariant quiet ==> OnlyReads(quotas.wire.calls, |calls|)
        invariant OnlyReads(quotas.wire.calls, |calls|) ==> quotas.log == log
      {
        var q := specs[i];
        assert specs[..i + 1] == specs[..i] + [q];
        if q.name != "" {
          ghost var made, w1, t1, now := quotas.wire.calls, quotas.world, quotas.turns, quotas.wire.tick;
          SmoothQuotasPrefix(c, log, quotas.log);
          e := EnsureQuota(name, q, specs, want, c);
          AllPromptSplits(quotas.wire.fates, tick, now, quotas.wire.tick);
          CallsTrans(quotas.kind, made, quotas.wire.calls, |calls|);
          ExtendsTrans(world, turns, w1, t1, quotas.world, quotas.turns);
          if e.Some? {
            return;
          }
          want := want + {Key(name, q.name)};
        }
      }
      assert specs[..|specs|] == specs;
      ghost var made, w1, t1, now := quotas.wire.calls, quotas.world, quotas.turns, quotas.wire.tick;
      e := PruneQuotas(name, specs, want, c);
      AllPromptSplits(quotas.wire.fates, tick, now, quotas.wire.tick);
      ExtendsTrans(world, turns, w1, t1, quotas.world, quotas.turns);
      CallsTrans(quotas.kind, made, quotas.wire.calls, |calls|);
    }

    /** Deletes the owned quotas whose names are not wanted. */
    method PruneQuotas(name: string, ghost specs: seq<QuotaSpec>, want: set<Key>, ghost c: Course) returns (e: Option<Error>)
      requires quotas.Valid() && Serves(quotas, c.goal) && OnCourse(c, quotas.log, quotas.seen)
      requires c.goal == QuotaGoal(name, specs) && want == set q | q in specs && q.name != "" :: Key(name, q.name)
      requires c.Caught() && Functional(c.goal) ==>
        c.start <= quotas.seen && Progress(c.goal, want, quotas.log, c.start, quotas.seen)
      modifies quotas, quotas.wire
      ensures quotas.Valid() && OnCourse(c, quotas.log, quotas.seen)
      ensures old(quotas.log) <= quotas.log && old(quotas.seen) <= quotas.seen && old(quotas.wire.calls) <= quotas.wire.calls
      ensures CallsOf(quotas.kind, quotas.wire.calls, |old(quotas.wire.calls)|)
      ensures Extends(old(quotas.world), old(quotas.turns), quotas.world, quotas.turns)
      ensures e.None? && c.Caught() && Functional(c.goal) ==> Converged(c.goal, quotas.Live())
      ensures old(quotas.seen == |quotas.log| - 1 && Exact(c.goal, quotas.Live())) ==>
        OnlyReads(quotas.wire.calls, |old(quotas.wire.calls)|)
      ensures OnlyReads(quotas.wire.calls, |old(quotas.wire.calls)|) ==> quotas.log == old(quotas.log)
      ensures (e.None? && OnlyReads(quotas.wire.calls, |old(quotas.wire.calls)|) && c.Caught() && Functional(c.goal)
        && old(quotas.seen == |quotas.log| - 1)) ==> old(Exact(c.goal, quotas.Live()))
      ensures old(quotas.wire.tick) < quotas.wire.tick && old(quotas.wire.calls) < quotas.wire.calls
      ensures AllPrompt(quotas.wire.fates, old(quotas.wire.tick), quotas.wire.tick) ==> e.None?
      ensures e.Some? ==> quotas.wire.calls[|quotas.wire.calls| - 1].error == e != Some(NotFound)
      ensures e.None? ==> Answered(quotas.wire.calls)
    {
      hide OnCourse, Versioned, Mirrors, Accounted, Functional, Progress, Exact, Tidy, Pruned, Pruning, Converged, Serves;
      hide QuotaGoal, Wanted, ListThenDeletes, OnlyReads, CallsOf, Extends, AllPrompt;
      ghost var log, seen, calls := quotas.log, quotas.seen, quotas.wire.calls;
      QuotaNames(name, specs, want, log[|log| - 1]);
      assert Serves(quotas, c.goal);
      e := Prune(quotas, want, c);
      PruningGives(c, quotas.kind, want, log, quotas.log, quotas.wire.calls, |calls|);
      PruningCallsOf(quotas.kind, want, quotas.wire.calls, |calls|);
      if e.None? && c.Caught() && Functional(c.goal) {
        ProgressPruned(c.goal, want, log, quotas.log, c.start, seen);
        ConvergedAndTidy(c.goal, want, quotas.Live());
      }
    }

    /** All mappings, one after another, up to the first failure. */
    method GrantMappings(name: string, mappings: seq<Mapping>, ghost c: Course)
      returns (e: Option<Error>, want: set<Key>, invalid: seq<InvalidReference>)
      requires bindings.Valid() && Serves(bindings, c.goal) && roles.wire == bindings.wire && bindings.kind == BINDINGS
      requires c.goal.ns == name && c.goal.owner == name && OnCourse(c, bindings.log, bindings.seen)
      requires Granting(hash, AllReferences(mappings), roles.names, 0, {}, [], c, bindings.log, bindings.seen)
      modifies bindings, bindings.wire
      ensures bindings.Valid() && OnCourse(c, bindings.log, bindings.seen)
      ensures old(bindings.log) <= bindings.log && old(bindings.seen) <= bindings.seen
      ensures old(bindings.wire.calls) <= bindings.wire.calls
      ensures GrantStage(c, BINDINGS, old(bindings.log), bindings.log, old(bindings.world), old(bindings.turns),
        bindings.world, bindings.turns, old(bindings.wire.calls), bindings.wire.calls)
      ensures e.None? ==>
        Granting(hash, AllReferences(mappings), roles.names, |AllReferences(mappings)|, want, invalid, c, bindings.log, bindings.seen)
      ensures old(Resting(c, bindings.log, bindings.seen)) ==>
        OnlyReads(bindings.wire.calls, |old(bindings.wire.calls)|)
      ensures old(bindings.wire.tick) <= bindings.wire.tick
      ensures AllPrompt(bindings.wire.fates, old(bindings.wire.tick), bindings.wire.tick) && old(Smooth(c, bindings.log)) ==> e.None?
    {
      hide OnCourse, Versioned, Mirrors, Accounted, Functional, Granting, Steady, AllReferences, References, Covers;
      hide OnlyReads, LookedUpAndMisled, AskedAndGone, WillGo, RefKey, AllPrompt, Smooth, GrantStage, Serves, RefContent;
      hide Fails, Count, Resting;
      ghost var log, calls, world, turns := bindings.log, bindings.wire.calls, bindings.world, bindings.turns;
      ghost var refs, tick, quiet := AllReferences(mappings), bindings.wire.tick, Resting(c, log, bindings.seen);
      StartsBefore(c, log, bindings.seen);
      StageStart(c, BINDINGS, log, world, turns, calls);
      CountEnds(mappings);
      e, want, invalid := None, {}, [];
      for i := 0 to |mappings|
        invariant bindings.Valid() && OnCourse(c, bindings.log, bindings.seen) && old(bindings.seen) <= bindings.seen
        invariant log <= bindings.log && calls <= bindings.wire.calls && tick <= bindings.wire.tick && e.None?
        invariant GrantStage(c, BINDINGS, log, bindings.log, world, turns, bindings.world, bindings.turns, calls,
          bindings.wire.calls)
        invariant Granting(hash, refs, roles.names, Count(mappings, i), want, invalid, c, bindings.log, bindings.seen)
        invariant quiet ==> OnlyReads(bindings.wire.calls, |calls|)
      {
        ghost var l1, made, w1, t1, now := bindings.log, bindings.wire.calls, bindings.world, bindings.turns, bindings.wire.tick;
        StageGives(c, BINDINGS, log, l1, world, turns, w1, t1, calls, made);
        SmoothPrefix(c, log, l1);
        if quiet {
          RestingStays(c, log, old(bindings.seen), bindings.seen);
        }
        CoversNext(mappings, i);
        e, want, invalid := GrantMapping(bindings, roles, hash, name, name, mappings[i], want, invalid,
          refs, Count(mappings, i), c);
        StageTrans(c, BINDINGS, log, l1, bindings.log, world, turns, w1, t1, bindings.world, bindings.turns, calls, made,
          bindings.wire.calls);
        AllPromptSplits(bindings.wire.fates, tick, now, bindings.wire.tick);
        if e.Some? {
          return;
        }
      }
    }

    /** Grants what the mappings ask for, then prunes everything else that is owned. */
    method ReconcileBindings(name: string, mappings: seq<Mapping>, ghost c: Course)
      returns (r: Result<seq<InvalidReference>>)
      requires bindings.Valid() && Serves(bindings, c.goal) && roles.wire == bindings.wire && bindings.kind == BINDINGS
      requires c.goal == GoalOf(hash, name, name, AllReferences(mappings), roles.names)
      requires OnCourse(c, bindings.log, bindings.seen)
      requires Granting(hash, AllReferences(mappings), roles.names, 0, {}, [], c, bindings.log, bindings.seen)
      modifies bindings, bindings.wire
      ensures bindings.Valid() && OnCourse(c, bindings.log, bindings.seen)
      ensures old(bindings.log) <= bindings.log && old(bindings.seen) <= bindings.seen
      ensures old(bindings.wire.calls) <= bindings.wire.calls
      ensures SparesSafe(c, BINDINGS, bindings.wire.calls, |old(bindings.wire.calls)|)
      ensures r.Ok? ==> r.value == Unresolved(AllReferences(mappings), roles.names)
      ensures r.Ok? && c.Caught() && Functional(c.goal) ==> Converged(c.goal, bindings.Live())
      ensures old(bindings.seen == |bindings.log| - 1 && Exact(c.goal, bindings.Live())) && Functional(c.goal) ==>
        OnlyReads(bindings.wire.calls, |old(bindings.wire.calls)|)
      ensures Extends(old(bindings.world), old(bindings.turns), bindings.world, bindings.turns)
      ensures OnlyReads(bindings.wire.calls, |old(bindings.wire.calls)|) ==> bindings.log == old(bindings.log)
      ensures (r.Ok? && OnlyReads(bindings.wire.calls, |old(bindings.wire.calls)|) && c.Caught() && Functional(c.goal)
        && old(bindings.seen == |bindings.log| - 1)) ==> old(Exact(c.goal, bindings.Live()))
      ensures old(bindings.wire.tick) <= bindings.wire.tick && (r.Ok? ==> old(bindings.wire.calls) < bindings.wire.calls)
      ensures forall i :: |old(bindings.wire.calls)| <= i < |bindings.wire.calls| ==>
        bindings.wire.calls[i].kind in {ROLES, BINDINGS}
      ensures AllPrompt(bindings.wire.fates, old(bindings.wire.tick), bindings.wire.tick) && old(Smooth(c, bindings.log)) ==> r.Ok?
    {
      hide OnCourse, Versioned, Mirrors, Accounted, Functional, Granting, Steady, AllReferences, Wanted, ListThenDeletes;
      hide Exact, Tidy, Pruned, Pruning, Converged, GoalOf, Unresolved, GrantsOnly, SparesSafe, KeysOf;
      hide OnlyReads, Extends, AllPrompt, Smooth, GrantStage, Serves, Resting;
      ghost var world, turns, tick := bindings.world, bindings.turns, bindings.wire.tick;
      ghost var log, calls, refs := bindings.log, bindings.wire.calls, AllReferences(mappings);
      ExactRests(c, log, bindings.seen);
      var e, want, invalid := GrantMappings(name, mappings, c);
      ghost var made, w1, t1, now := bindings.wire.calls, bindings.world, bindings.turns, bindings.wire.tick;
      StageGives(c, BINDINGS, log, bindings.log, world, turns, w1, t1, calls, made);
      GrantsSpareSafe(c, BINDINGS, log, bindings.log, made, |calls|);
      if e.Some? {
        return Err(e.value);
      }
      e := PruneOthers(bindings, hash, want, invalid, refs, roles.names, c);
      SparesSafeTrans(c, BINDINGS, made, bindings.wire.calls, |calls|);
      ExtendsTrans(world, turns, w1, t1, bindings.world, bindings.turns);
      ReadThen(made, bindings.wire.calls, |calls|);
      AllPromptSplits(bindings.wire.fates, tick, now, bindings.wire.tick);
      PruningCallsOf(BINDINGS, KeysOf(hash, name, name, Resolved(refs, roles.names)), bindings.wire.calls, |made|);
      r := if e.Some? then Err(e.value) else Ok(invalid);
    }

    /** The first prune: what the spec no longer names goes, before anything else is read
        or written. */
    method RevokeRemoved(name: string, spec: Spec, ghost b: Course) returns (e: Option<Error>)
      requires Ready(name, spec) && b == BindingCourse(name, spec)
      modifies bindings, wire
      ensures Valid() && OnCourse(b, bindings.log, bindings.seen)
      ensures old(bindings.log) <= bindings.log && old(bindings.seen) <= bindings.seen && old(wire.calls) < wire.calls
      ensures SparesSafe(b, BINDINGS, wire.calls, |old(wire.calls)|)
      ensures PrunedFirst(SpecNames(name, spec), wire.calls, |old(wire.calls)|, |wire.calls|, |bindings.log| - 1)
      ensures e.Some? ==> wire.calls[|wire.calls| - 1].error == e != Some(NotFound)
      ensures e.None? && b.Caught() ==> Pruned(b.goal, SpecNames(name, spec), bindings.Live())
      ensures Granting(hash, AllReferences(spec.mappings), roles.names, 0, {}, [], b, bindings.log, bindings.seen)
      ensures Extends(old(bindings.world), old(bindings.turns), bindings.world, bindings.turns)
      ensures old(bindings.seen == |bindings.log| - 1 && Exact(b.goal, bindings.Live())) ==>
        OnlyReads(wire.calls, |old(wire.calls)|)
      ensures OnlyReads(wire.calls, |old(wire.calls)|) ==> bindings.log == old(bindings.log)
      ensures old(wire.tick) < wire.tick && (AllPrompt(wire.fates, old(wire.tick), wire.tick) ==> e.None?)
    {
      hide OnCourse, Versioned, Mirrors, Accounted, Granting, AllReferences, Wanted, Exact, Tidy, Pruned, Pruning, GoalOf, KeysOf;
      hide SparesSafe, ListThenDeletes, PrunedFirst, CourseOf, Spares, QuotaGoal, AllPrompt;
      ghost var refs, log, calls := AllReferences(spec.mappings), bindings.log, wire.calls;
      CourseStart(b.goal, log, bindings.seen);
      var want := WantedNames(name, spec.mappings);
      WantedIsNamed(hash, name, name, refs, roles.names, bindings.Live());
      e := Prune(bindings, want, b);
      PruningGives(b, BINDINGS, want, log, bindings.log, wire.calls, |calls|);
      PrunedNow(want, wire.calls, |calls|, |bindings.log| - 1);
      GrantingAfterPrune(hash, refs, roles.names, b, log, bindings.log, bindings.seen);
    }

    /** Namespace, quotas, bindings, once the first prune is through; it stops at the first
        failure. */
    method Apply(name: string, spec: Spec, ghost b: Course)
      returns (r: Result<seq<InvalidReference>>, ghost placed: nat, ghost limited: nat)
      requires Ready(name, spec) && b.goal == BindingGoal(name, spec) && OnCourse(b, bindings.log, bindings.seen)
      requires Granting(hash, AllReferences(spec.mappings), roles.names, 0, {}, [], b, bindings.log, bindings.seen)
      modifies namespaces, quotas, bindings, wire
      ensures Valid() && old(bindings.log) <= bindings.log && old(quotas.log) <= quotas.log
      ensures old(bindings.seen) <= bindings.seen && old(quotas.seen) <= quotas.seen && old(wire.calls) < wire.calls
      ensures OnCourse(b, bindings.log, bindings.seen)
      ensures OnCourse(old(QuotaCourse(name, spec)), quotas.log, quotas.seen)
      ensures SparesSafe(b, BINDINGS, wire.calls, |old(wire.calls)|)
      ensures MergedOnce(old(namespaces.log), namespaces.log, spec.meta, name)
      ensures r.Ok? ==> r.value == Unresolved(AllReferences(spec.mappings), roles.names)
      ensures r.Ok? && b.Caught() && Functional(b.goal) ==> Converged(b.goal, bindings.Live())
      ensures r.Ok? && old(QuotasCalmly(name, spec)) ==> Converged(QuotaGoal(name, spec.quotas), quotas.Live())
      ensures r.Ok? && old(namespaces.seen == |namespaces.log| - 1) ==>
        Merged(old(namespaces.log), namespaces.log, spec.meta, name)
      ensures Extends(old(bindings.world), old(bindings.turns), bindings.world, bindings.turns)
      ensures Extends(old(quotas.world), old(quotas.turns), quotas.world, quotas.turns)
      ensures old(Quietly(name, spec)) ==> OnlyReads(wire.calls, |old(wire.calls)|)
      ensures r.Ok? && OnlyReads(wire.calls, |old(wire.calls)|) && b.Caught() && old(AllCalm(name, spec)) ==>
        old(Quietly(name, spec))
      // in this order, each only after the one before succeeded
      ensures Stopped(wire.calls, |old(wire.calls)|, placed, limited, r.Ok?, quotas.log == old(quotas.log),
        bindings.log == old(bindings.log))
      ensures namespaces.seen < |old(namespaces.log)|
      ensures Malformed(MetaOf(old(namespaces.log)[namespaces.seen])) ==>
        placed == |wire.calls| && namespaces.log == old(namespaces.log)
      ensures placed < |wire.calls| && old(namespaces.seen == |namespaces.log| - 1) ==>
        Merged(old(namespaces.log), namespaces.log, spec.meta, name)
      ensures limited < |wire.calls| && old(QuotasCalmly(name, spec)) ==> Converged(QuotaGoal(name, spec.quotas), quotas.Live())
      ensures old(wire.tick) <= wire.tick
      ensures (AllPrompt(wire.fates, old(wire.tick), wire.tick) && old(Smooth(b, bindings.log))
        && old(SmoothQuotas(QuotaCourse(name, spec), quotas.log)) && old(!Malformed(MetaOf(namespaces.Live())))) ==> r.Ok?
    {
      hide OnCourse, Versioned, Mirrors, Accounted, Functional, Granting, AllReferences, Merge, MergedOnce, Wanted, Revised;
      hide Exact, Tidy, Pruned, Pruning, Converged, GoalOf, Unresolved, QuotaGoal, SparesSafe, CourseOf, OnlyReads;
      hide AllPrompt, Smooth, SmoothQuotas, Malformed, Extends;
      ghost var q, calls, tick, fates := QuotaCourse(name, spec), wire.calls, wire.tick, wire.fates;
      ExtendsSelf(bindings.world, bindings.turns);
      ExtendsSelf(quotas.world, quotas.turns);
      CourseStart(q.goal, quotas.log, quotas.seen);
      NoCallsSpareSafe(b, BINDINGS, calls);
      var e := EnsureNamespace(namespaces, spec.meta, name);
      OthersSpareSafe(b, BINDINGS, NAMESPACES, calls, wire.calls, |calls|);
      placed, limited := |wire.calls|, |wire.calls|;
      if e.Some? {
        return Err(e.value), placed, limited;
      }
      ghost var l2, tick2 := wire.calls, wire.tick;
      e := ReconcileQuota(name, spec.quotas, q);
      OthersSpareSafe(b, BINDINGS, QUOTAS, l2, wire.calls, |calls|);
      ReadThen(l2, wire.calls, |calls|);
      AllPromptSplits(fates, tick, tick2, wire.tick);
      limited := |wire.calls|;
      if e.Some? {
        return Err(e.value), placed, limited;
      }
      ghost var l3, tick3 := wire.calls, wire.tick;
      r := ReconcileBindings(name, spec.mappings, b);
      NothingRead(l3);
      assert |wire.calls| == |l3| ==> wire.calls == l3;
      SparesSafeTrans(b, BINDINGS, l3, wire.calls, |calls|);
      ReadThen(l3, wire.calls, |calls|);
      AllPromptSplits(fates, tick, tick3, wire.tick);
      AllPromptSplits(fates, tick, tick2, wire.tick);
      AllPromptSplits(fates, tick, tick2, tick3);
    }

    /** Prune, Namespace, quotas, bindings, prune; it stops at the first failure. The
        first prune took the calls up to number `revoked`, and `mid` is where the binding
        log stood after it. */
    method Sync(name: string, spec: Spec)
      returns (r: Result<seq<InvalidReference>>, ghost mid: nat, ghost revoked: nat, ghost placed: nat, ghost limited: nat)
      requires Ready(name, spec)
      modifies namespaces, quotas, bindings, wire
      ensures Ready(name, spec) && old(bindings.log) <= bindings.log && old(quotas.log) <= quotas.log
      ensures old(bindings.seen) <= bindings.seen && old(quotas.seen) <= quotas.seen && old(wire.calls) <= wire.calls
      // every state of the pass, however it ended, is on course
      ensures OnCourse(old(BindingCourse(name, spec)), bindings.log, bindings.seen)
      ensures OnCourse(old(QuotaCourse(name, spec)), quotas.log, quotas.seen)
      ensures SparesSafe(old(BindingCourse(name, spec)), BINDINGS, wire.calls, |old(wire.calls)|)
      ensures MergedOnce(old(namespaces.log), namespaces.log, spec.meta, name)
      // revocation comes before any other call, read or write, and either its own failure
      // is the end of the pass, or from then on only what the spec names is left,
      // whatever fails later
      ensures PrunedFirst(SpecNames(name, spec), wire.calls, |old(wire.calls)|, revoked, mid)
      ensures |old(bindings.log)| - 1 <= mid < |bindings.log|
      ensures
        || (r.Err? && revoked == |wire.calls| && wire.calls[revoked - 1].error == Some(r.error) && r.error != NotFound)
        || (revoked < |wire.calls| && (old(BindingCourse(name, spec)).Caught() ==>
          RevokedFrom(BindingGoal(name, spec), SpecNames(name, spec), bindings.log, mid)))
      // then the Namespace, the quotas and the bindings, in this order, each only after the
      // one before succeeded; what comes later is untouched
      ensures Stopped(wire.calls, revoked, placed, limited, r.Ok?, quotas.log == old(quotas.log), |bindings.log| == mid + 1)
      ensures namespaces.seen < |old(namespaces.log)|
      ensures Malformed(MetaOf(old(namespaces.log)[namespaces.seen])) ==>
        placed == |wire.calls| && namespaces.log == old(namespaces.log)
      ensures placed < |wire.calls| && old(namespaces.seen == |namespaces.log| - 1) ==>
        Merged(old(namespaces.log), namespaces.log, spec.meta, name)
      ensures limited < |wire.calls| && old(QuotasCalmly(name, spec)) ==> Converged(QuotaGoal(name, spec.quotas), quotas.Live())
      // a caught-up pass whose calls are all answered succeeds, unless the inventory is
      // malformed or a wanted name is held by an object that cannot be corrected
      ensures old(wire.tick) <= wire.tick
      ensures AllPrompt(wire.fates, old(wire.tick), wire.tick) && old(Unobstructed(name, spec)) ==> r.Ok?
      // success
      ensures r.Ok? ==> r.value == Unresolved(AllReferences(spec.mappings), roles.names)
      ensures r.Ok? && old(Calmly(name, spec)) ==> Converged(BindingGoal(name, spec), bindings.Live())
      ensures r.Ok? && old(QuotasCalmly(name, spec)) ==> Converged(QuotaGoal(name, spec.quotas), quotas.Live())
      ensures r.Ok? && old(namespaces.seen == |namespaces.log| - 1) ==>
        Merged(old(namespaces.log), namespaces.log, spec.meta, name)
      // a pass over a steady state only reads, and no other caught-up pass that succeeds does
      ensures old(Quietly(name, spec)) ==> OnlyReads(wire.calls, |old(wire.calls)|)
      ensures r.Ok? && old(AllCalm(name, spec)) && OnlyReads(wire.calls, |old(wire.calls)|) ==> old(Quietly(name, spec))
      ensures Extends(old(bindings.world), old(bindings.turns), bindings.world, bindings.turns)
      ensures Extends(old(quotas.world), old(quotas.turns), quotas.world, quotas.turns)
    {
      hide OnCourse, Versioned, Mirrors, Accounted, Functional, Granting, AllReferences, Merged, NothingToMerge, Wanted, Revised;
      hide Exact, Tidy, Pruned, Converged, GoalOf, Unresolved, QuotaGoal, SparesSafe, CourseOf, KeysOf, Stopped;
      hide PrunedFirst, RevokedFrom, Serves, OnlyReads, Extends, AllPrompt, Malformed, Replaceable, AllCorrectable;
      ghost var b, keep, calls, tick := BindingCourse(name, spec), SpecNames(name, spec), wire.calls, wire.tick;
      CourseStart(QuotaGoal(name, spec.quotas), quotas.log, quotas.seen);
      WantedIsNamed(hash, name, name, AllReferences(spec.mappings), roles.names, bindings.Live());
      ghost var log := bindings.log;
      ghost var smooth, calm, quiet := Unobstructed(name, spec), AllCalm(name, spec), Quietly(name, spec);
      assert smooth ==> Smooth(b, log) && SmoothQuotas(QuotaCourse(name, spec), quotas.log);
      assert smooth ==> !Malformed(MetaOf(namespaces.Live()));
      hide Smooth, SmoothQuotas, Unobstructed;
      var e := RevokeRemoved(name, spec, b);
      SmoothPrefix(b, log, bindings.log);
      mid, revoked, placed, limited := |bindings.log| - 1, |wire.calls|, |wire.calls|, |wire.calls|;
      ghost var pruned, w1, t1, now := wire.calls, bindings.world, bindings.turns, wire.tick;
      ExtendsSelf(quotas.world, quotas.turns);
      assert OnlyReads(pruned, |calls|) ==> (calm ==> AllCalm(name, spec)) && (calm && Quietly(name, spec) ==> quiet);
      assert quiet ==> Quietly(name, spec);
      hide AllCalm, Quietly;
      if e.Some? {
        StoppedAtOnce(wire.calls);
        return Err(e.value), mid, revoked, placed, limited;
      }
      ghost var l1 := bindings.log;
      r, placed, limited := Apply(name, spec, b);
      assert bindings.log == l1 <==> |bindings.log| == mid + 1;
      ExtendsTrans(old(bindings.world), old(bindings.turns), w1, t1, bindings.world, bindings.turns);
      ReadThen(pruned, wire.calls, |calls|);
      AllPromptSplits(wire.fates, tick, now, wire.tick);
      PrunedBefore(keep, pruned, wire.calls, |calls|, mid);
      SparesSafeTrans(b, BINDINGS, pruned, wire.calls, |calls|);
      StaysRevokedIfCaught(b, keep, bindings.log, bindings.seen, mid);
    }
  }

  lemma StoppedAtOnce(calls: seq<Call>)
    ensures Stopped(calls, |calls|, |calls|, |calls|, false, true, true)
  {
  }

  lemma QuotaSmooth(c: Course, log: seq<Objects>, seen: nat, w: Want, specs: seq<QuotaSpec>, q: QuotaSpec, name: string)
    requires OnCourse(c, log, seen) && c.goal == QuotaGoal(name, specs) && q in specs && q.name != ""
    requires w == Want(Key(name, q.name), Quota(q.limits))
    ensures SmoothQuotas(c, log) ==> Correctable(c.goal, w.key, log[|log| - 1])
  {
    hide OnCourse, Correctable;
    if SmoothQuotas(c, log) {
      SmoothQuotasNow(c, log, seen);
      assert w in c.goal.wants;
      assert Wanted(c.goal, w.key);
    }
  }

  lemma SmoothQuotasPrefix(c: Course, log: seq<Objects>, later: seq<Objects>)
    requires log <= later && c.start < |log|
    ensures SmoothQuotas(c, log) <==> SmoothQuotas(c, later)
  {
  }

  lemma NoCallsSpareSafe(c: Course, kind: Kind, calls: seq<Call>)
    ensures SparesSafe(c, kind, calls, |calls|)
  {
  }

  lemma PrunedNow(keep: set<Key>, calls: seq<Call>, from: nat, mid: nat)
    requires ListThenDeletes(BINDINGS, keep, calls, from) && calls[|calls| - 1].states == mid + 1
    ensures PrunedFirst(keep, calls, from, |calls|, mid)
  {
    assert calls[..|calls|] == calls;
  }

  lemma PrunedBefore(keep: set<Key>, calls: seq<Call>, more: seq<Call>, from: nat, mid: nat)
    requires PrunedFirst(keep, calls, from, |calls|, mid) && calls <= more
    ensures PrunedFirst(keep, more, from, |calls|, mid)
  {
    assert more[..|calls|] == calls == calls[..|calls|];
  }

  /** Calls about other objects delete none of these. */
  lemma OthersSpareSafe(c: Course, kind: Kind, other: Kind, calls: seq<Call>, more: seq<Call>, from: nat)
    requires SparesSafe(c, kind, calls, from) && calls <= more && CallsOf(other, more, |calls|) && kind != other
    ensures SparesSafe(c, kind, more, from)
  {
    SparesSafeTrans(c, kind, calls, more, from);
  }

  lemma NoCalls(kind: Kind, calls: seq<Call>)
    ensures CallsOf(kind, calls, |calls|) && OnlyReads(calls, |calls|)
  {
  }

  lemma AboutIsOf(kind: Kind, key: Key, calls: seq<Call>, from: nat)
    requires CallsAbout(kind, key, calls, from)
    ensures CallsOf(kind, calls, from)
  {
  }

  lemma CallsTrans(kind: Kind, mid: seq<Call>, calls: seq<Call>, from: nat)
    requires CallsOf(kind, mid, from) && CallsOf(kind, calls, |mid|) && mid <= calls && from <= |mid|
    ensures CallsOf(kind, calls, from)
    ensures OnlyReads(calls, from) <==> OnlyReads(mid, from) && OnlyReads(calls, |mid|)
  {
    ReadThen(mid, calls, from);
    forall i | from <= i < |mid|
      ensures calls[i] == mid[i]
    {
    }
  }

  lemma PruningCallsOf(kind: Kind, keep: set<Key>, calls: seq<Call>, from: nat)
    requires ListThenDeletes(kind, keep, calls, from)
    ensures CallsOf(kind, calls, from)
  {
  }

  /** The names of a mapping's first `n` roles. */
  function NamesOf(hash: HashFunction, name: string, m: Mapping, n: nat): set<Key>
    requires n <= |m.clusterRoles|
  {
    if n == 0 then {}
    else NamesOf(hash, name, m, n - 1) + {Key(name, BindingName(hash, name, SubjectKey(hash, m), m.clusterRoles[n - 1]))}
  }

  lemma NamesStart(hash: HashFunction, name: string, mappings: seq<Mapping>)
    ensures KeysOf(hash, name, name, AllReferences(mappings[..0])) == {}
  {
  }

  lemma NamesNext(hash: HashFunction, name: string, refs: seq<Reference>, m: Mapping)
    ensures KeysOf(hash, name, name, refs + References(m)) == KeysOf(hash, name, name, refs)
      + if m.group != "" || |m.users| > 0 then NamesOf(hash, name, m, |m.clusterRoles|) else {}
  {
    NoSubjects(m);
    KeysOfAppend(hash, name, name, refs, References(m));
    if Subjects(m) != [] {
      NamesUpTo(hash, name, m, |m.clusterRoles|);
      assert References(m)[..|m.clusterRoles|] == References(m);
    }
  }

  lemma {:induction false} NamesUpTo(hash: HashFunction, name: string, m: Mapping, n: nat)
    requires n <= |m.clusterRoles| && Subjects(m) != []
    ensures KeysOf(hash, name, name, References(m)[..n]) == NamesOf(hash, name, m, n)
  {
    hide BindingName, SubjectKey, Subjects;
    if n > 0 {
      NamesUpTo(hash, name, m, n - 1);
      var r := References(m)[n - 1];
      assert References(m)[..n] == References(m)[..n - 1] + [r];
      KeysOfAppend(hash, name, name, References(m)[..n - 1], [r]);
      assert KeysOf(hash, name, name, [r]) == {RefKey(hash, name, name, r)};
    }
  }

  lemma CountEnds(mappings: seq<Mapping>)
    ensures Count(mappings, 0) == 0 && Count(mappings, |mappings|) == |AllReferences(mappings)|
  {
    assert mappings[..|mappings|] == mappings;
  }

  /** The names the first prune keeps include every wanted one. */
  lemma WantedIsNamed(hash: HashFunction, ns: string, owner: string, refs: seq<Reference>, roles: set<string>, s: Objects)
    ensures
      var (g, keep) := (GoalOf(hash, ns, owner, refs, roles), KeysOf(hash, ns, owner, refs));
      (forall k :: Wanted(g, k) ==> k in keep) && (Exact(g, s) ==> Tidy(g, keep, s))
  {
    forall k: Key {
      GoalWants(hash, ns, owner, refs, roles, k);
    }
  }

  lemma StaysRevokedIfCaught(c: Course, keep: set<Key>, log: seq<Objects>, seen: nat, mid: nat)
    requires OnCourse(c, log, seen) && c.start <= mid < |log|
    requires c.Caught() ==> Pruned(c.goal, keep, log[mid])
    requires forall k :: Wanted(c.goal, k) ==> k in keep
    ensures c.Caught() ==> RevokedFrom(c.goal, keep, log, mid)
  {
    if c.Caught() {
      StaysRevoked(c, keep, log, seen, mid);
    }
  }

  lemma SparedIsFresh(g: Goal, k: Key, l0: seq<Objects>, l1: seq<Objects>)
    requires |l0| > 0 && Spares(g, l0, l1) && Wanted(g, k)
    ensures Fresh(k, l1, |l0| - 1)
  {
    assert l1[|l0| - 1] == l0[|l0| - 1];
  }

  /** The first prune touches no wanted name. */
  lemma GrantingAfterPrune(hash: HashFunction, refs: seq<Reference>, roles: set<string>, c: Course,
    l0: seq<Objects>, l1: seq<Objects>, seen: nat)
    requires c.start == |l0| - 1 && Spares(c.goal, l0, l1) && OnCourse(c, l1, seen) && seen < |l1|
    requires c.goal == GoalOf(hash, c.goal.ns, c.goal.owner, refs, roles)
    ensures Granting(hash, refs, roles, 0, {}, [], c, l1, seen)
  {
    hide Pass, Modest, SameAt, RefKey, RefContent, Resolved;
    assert l1[c.start] == l0[|l0| - 1];
    forall k | Wanted(c.goal, k)
      ensures Fresh(k, l1, c.start)
    {
      SparedIsFresh(c.goal, k, l0, l1);
    }
    GrantingStart(hash, refs, roles, c, l1, seen);
  }

  lemma ProgressStart(c: Course, log: seq<Objects>, seen: nat)
    requires OnCourse(c, log, seen) && c.start == |log| - 1 && seen < |log|
    ensures Progress(c.goal, {}, log, c.start, seen) && (c.Caught() ==> c.start <= seen)
  {
  }

  lemma ProgressCalm(g: Goal, want: set<Key>, k: Key, log: seq<Objects>, start: nat, seen: nat)
    requires Progress(g, want, log, start, seen) && Wanted(g, k)
    ensures Calm(g, k, log, start)
  {
  }

  lemma QuotaAsked(name: string, specs: seq<QuotaSpec>, q: QuotaSpec, s: Objects)
    requires q in specs && q.name != ""
    ensures
      var (g, k) := (QuotaGoal(name, specs), Key(name, q.name));
      && Want(k, Quota(q.limits)) in g.wants && Wanted(g, k)
      && (Exact(g, s) ==> Done(g, k, s))
  {
    assert Want(Key(name, q.name), Quota(q.limits)) in QuotaGoal(name, specs).wants;
  }

  lemma QuotaNames(name: string, specs: seq<QuotaSpec>, want: set<Key>, s: Objects)
    requires want == set q | q in specs && q.name != "" :: Key(name, q.name)
    ensures
      var g := QuotaGoal(name, specs);
      (forall k :: Wanted(g, k) <==> k in want) && (Exact(g, s) ==> Tidy(g, want, s))
  {
    forall k: Key {
      QuotaWanted(name, specs, k);
    }
  }
}
