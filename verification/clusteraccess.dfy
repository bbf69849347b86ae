/** The ClusterAccessMapping reconciler: one mapping, granted cluster-wide. */
module ClusterAccess {
  import opened Cluster
  import opened Naming
  import opened Upkeep
  import opened Access

  class ClusterAccessReconciler {
    const hash: HashFunction
    const bindings: Store
    const roles: ClusterRoles

    constructor (hash: HashFunction, bindings: Store, roles: ClusterRoles)
      ensures this.hash == hash && this.bindings == bindings && this.roles == roles
    {
      this.hash, this.bindings, this.roles := hash, bindings, roles;
    }

    /** ClusterRoleBindings have no namespace. */
    ghost function GoalFor(name: string, m: Mapping): Goal {
      GoalOf(hash, "", name, References(m), roles.names)
    }

    /** What the spec asks for is cluster-wide, and one binding for each reference that
        resolves. */
    lemma AsksClusterWide(name: string, m: Mapping, k: Key)
      ensures Wanted(GoalFor(name, m), k) ==> k.namespace == ""
      ensures Wanted(GoalFor(name, m), k) <==>
        exists r :: r in References(m) && r.role in roles.names && k == RefKey(hash, "", name, r)
    {
      hide RefKey;
      GoalWants(hash, "", name, References(m), roles.names, k);
      forall r | r in References(m)
        ensures RefKey(hash, "", name, r).namespace == ""
      {
        InNamespace(hash, "", name, r);
      }
    }

    /** The course of a sync that begins now. */
    ghost function CourseFor(name: string, m: Mapping): Course
      requires bindings.Valid()
      reads bindings
    {
      CourseOf(GoalFor(name, m), bindings.log, bindings.seen)
    }

    /** The names a completed sync keeps. */
    ghost function KeepFor(name: string, m: Mapping): set<Key> {
      KeysOf(hash, "", name, Resolved(References(m), roles.names))
    }

    /** The bindings the spec is about are this owner's own. */
    ghost predicate Ready(name: string, m: Mapping)
      reads bindings
    {
      && bindings.Valid() && bindings.kind == BINDINGS && roles.wire == bindings.wire
      && Serves(bindings, GoalFor(name, m))
    }

    /** Grants first, then prunes. `granted` says whether granting was completed, and
        `mid` how many calls had been made by then. */
    method Sync(name: string, m: Mapping) returns (r: Result<seq<InvalidReference>>, ghost granted: bool, ghost mid: nat)
      requires Ready(name, m)
      modifies bindings, bindings.wire
      ensures Ready(name, m) && old(bindings.log) <= bindings.log && old(bindings.seen) <= bindings.seen
      ensures old(bindings.wire.calls) <= bindings.wire.calls
      ensures Extends(old(bindings.world), old(bindings.turns), bindings.world, bindings.turns)
      // every state of the pass, however it ended, is on course
      ensures OnCourse(old(CourseFor(name, m)), bindings.log, bindings.seen)
      ensures SparesSafe(old(CourseFor(name, m)), BINDINGS, bindings.wire.calls, |old(bindings.wire.calls)|)
      // a pass that stopped while granting has revoked nothing
      ensures !granted ==> r.Err? && GrantsOnly(old(CourseFor(name, m)), BINDINGS, old(bindings.log), bindings.log,
        bindings.wire.calls, |old(bindings.wire.calls)|)
      // any other goes on to prune, and fails only with a call of the prune
      ensures granted ==> |old(bindings.wire.calls)| <= mid < |bindings.wire.calls|
      ensures granted ==> ListThenDeletes(BINDINGS, KeepFor(name, m), bindings.wire.calls, mid)
      ensures granted && r.Err? ==> bindings.wire.calls[|bindings.wire.calls| - 1].error == Some(r.error) && r.error != NotFound
      ensures r.Ok? && old(CourseFor(name, m)).Caught() ==> Pruned(GoalFor(name, m), KeepFor(name, m), bindings.Live())
      ensures r.Ok? ==> granted && r.value == Unresolved(References(m), roles.names)
      ensures r.Ok? && old(Calmly(name, m)) ==> Converged(GoalFor(name, m), bindings.Live())
      // a pass over a store in which there is nothing to do only reads, and no other
      // caught-up pass that succeeds does
      ensures old(Quietly(name, m)) ==> OnlyReads(bindings.wire.calls, |old(bindings.wire.calls)|)
      ensures OnlyReads(bindings.wire.calls, |old(bindings.wire.calls)|) ==> bindings.log == old(bindings.log)
      ensures r.Ok? && old(Calmly(name, m)) && OnlyReads(bindings.wire.calls, |old(bindings.wire.calls)|) ==>
        old(Quietly(name, m))
      // a caught-up pass whose calls are all answered succeeds, unless a wanted name is held
      // by a binding with another roleRef
      ensures old(bindings.wire.tick) <= bindings.wire.tick
      ensures (AllPrompt(bindings.wire.fates, old(bindings.wire.tick), bindings.wire.tick) && old(Calmly(name, m))
        && old(Replaceable(GoalFor(name, m), bindings.Live()))) ==> r.Ok?
      // when the first calls are not answered, or mislead
      ensures Fails(bindings.wire.fates, old(bindings.wire.tick)) && References(m) != [] ==> !granted
      ensures References(m) != [] && old(LookedUpAndMisled(bindings, roles.names, hash, References(m)[0])) ==>
        var k := RefKey(hash, "", name, References(m)[0]);
        AskedAndGone(BINDINGS, k, bindings.wire.calls, |old(bindings.wire.calls)|, old(bindings.log), bindings.log,
          old(WillGo(bindings, k)))
    {
      hide OnCourse, Versioned, Mirrors, Accounted, Functional, Granting, Steady, References, Covers, Fresh, Wanted, ListThenDeletes;
      hide Exact, Tidy, Pruned, Converged, GoalOf, Unresolved, GrantsOnly, SparesSafe, KeysOf, CourseOf;
      hide OnlyReads, Extends, RefKey, LookedUpAndMisled, AskedAndGone, WillGo, AllPrompt, Replaceable, GrantStage, Resting;
      ghost var tick := bindings.wire.tick;
      ghost var c, refs := CourseFor(name, m), References(m);
      ghost var first := if References(m) != [] then RefKey(hash, "", name, References(m)[0]) else Key("", "");
      ghost var misled := References(m) != [] && LookedUpAndMisled(bindings, roles.names, hash, References(m)[0]);
      ghost var going := WillGo(bindings, first);
      ghost var log, calls := bindings.log, bindings.wire.calls;
      ExactRests(c, bindings.log, bindings.seen);
      CourseStart(c.goal, log, bindings.seen);
      FreshStart(c.goal, log);
      GrantingStart(hash, refs, roles.names, c, log, bindings.seen);
      WholeSpec(m);
      granted, mid := false, 0;
      assert Calmly(name, m) && Replaceable(c.goal, bindings.Live()) ==> Smooth(c, log);
      hide Smooth;
      var e, want, invalid := GrantMapping(bindings, roles, hash, "", name, m, {}, [], refs, 0, c);
      StageGives(c, BINDINGS, log, bindings.log, old(bindings.world), old(bindings.turns), bindings.world, bindings.turns,
        calls, bindings.wire.calls);
      GrantsSpareSafe(c, BINDINGS, log, bindings.log, bindings.wire.calls, |calls|);
      if e.Some? {
        return Err(e.value), granted, mid;
      }
      ghost var l1, made, w1, t1 := bindings.log, bindings.wire.calls, bindings.world, bindings.turns;
      ghost var now := bindings.wire.tick;
      granted, mid := true, |made|;
      e := PruneOthers(bindings, hash, want, invalid, refs, roles.names, c);
      SparesSafeTrans(c, BINDINGS, made, bindings.wire.calls, |calls|);
      ExtendsTrans(old(bindings.world), old(bindings.turns), w1, t1, bindings.world, bindings.turns);
      ReadThen(made, bindings.wire.calls, |calls|);
      AllPromptSplits(bindings.wire.fates, tick, now, bindings.wire.tick);
      if References(m) != [] && misled {
        StillGone(BINDINGS, first, made, bindings.wire.calls, |calls|, log, l1, bindings.log, going);
      }
      r := if e.Some? then Err(e.value) else Ok(invalid);
    }

    /** The cache has caught up, and names do not collide. */
    ghost predicate Calmly(name: string, m: Mapping)
      requires bindings.Valid()
      reads bindings
    {
      bindings.seen == |bindings.log| - 1 && Functional(GoalFor(name, m))
    }

    /** The cache has caught up with a store in which there is nothing to do. */
    ghost predicate Quietly(name: string, m: Mapping)
      requires bindings.Valid()
      reads bindings
    {
      && bindings.seen == |bindings.log| - 1
      && Functional(GoalFor(name, m))
      && Exact(GoalFor(name, m), bindings.Live())
    }
  }

  /** Whatever is live, and whatever the spec: if the first ClusterRole lookup is not
      answered, a binding the spec does not ask for stays as it is. */
  method LookupFailureRevokesNothing(hash: HashFunction, live: Objects, clock: nat, names: set<string>, name: string,
    m: Mapping, mine: set<Key>, k: Key)
    returns (rec: ClusterAccessReconciler, r: Result<seq<InvalidReference>>)
    requires Versioned([live], clock) && References(m) != []
    requires forall j :: Wanted(GoalOf(hash, "", name, References(m), names), j) ==> j in mine
    requires forall j :: j in live && Selected(j, live[j], "", name) ==> j in mine
    requires k in live && !Wanted(GoalOf(hash, "", name, References(m), names), k)
    ensures r.Err? && rec.bindings.Valid() && k in rec.bindings.Live() && rec.bindings.Live()[k] == live[k]
  {
    hide OnCourse, GoalOf, References, Selected, Versioned, Mirrors, Accounted, SparesSafe, Wanted, Converged, Pruned, Unresolved;
    var wire := new Wire([Fate(0, None, false, false, Other)]);
    var roles := new ClusterRoles(wire, names);
    var bindings := new Store(wire, BINDINGS, mine, "", name, [], [live], 0, clock);
    rec := new ClusterAccessReconciler(hash, bindings, roles);
    var result, _, _ := rec.Sync(name, m);
    r := result;
  }

  /** Whatever the past and the lag: if the cache may still show a state in which the binding
      of the spec's first reference had another roleRef, there is a sync that asks the
      binding to go, however right it is by now, and loses it unless it is held. */
  method LagRevokesGrant(hash: HashFunction, past: seq<Objects>, seen: nat, clock: nat, names: set<string>, name: string,
    m: Mapping, mine: set<Key>, j: nat)
    returns (rec: ClusterAccessReconciler)
    requires References(m) != [] && References(m)[0].role in names && Versioned(past, clock) && seen <= j < |past|
    requires forall k :: Wanted(GoalOf(hash, "", name, References(m), names), k) ==> k in mine
    requires forall i, k :: 0 <= i < |past| && k !in mine ==> SameAt(k, past[0], past[i])
    requires forall k :: k !in mine && k in past[0] ==> !Selected(k, past[0][k], "", name)
    requires
      var k := RefKey(hash, "", name, References(m)[0]);
      k in past[j] && !SameRef(RefContent(References(m)[0]), past[j][k].content)
    ensures
      var k := RefKey(hash, "", name, References(m)[0]);
      && DeleteCalled(BINDINGS, k, rec.bindings.wire.calls, 0)
      && (Unheld(k, past[|past| - 1]) ==> past < rec.bindings.log && k !in rec.bindings.log[|past|])
  {
    hide OnCourse, GoalOf, References, Selected, Versioned, Mirrors, Accounted, SparesSafe, Wanted, Converged, Pruned;
    hide Unresolved, RefKey, RefContent, GrantsOnly, ListThenDeletes, Functional, Exact;
    var wire := new Wire([Fate(0, None, true, true, Other), Fate(0, Some(j), true, true, Other), Fate(0, None, true, true, Other)]);
    var roles := new ClusterRoles(wire, names);
    var bindings := new Store(wire, BINDINGS, mine, "", name, [], past, seen, clock);
    rec := new ClusterAccessReconciler(hash, bindings, roles);
    ghost var k := RefKey(hash, "", name, References(m)[0]);
    assert LookedUpAndMisled(bindings, names, hash, References(m)[0]);
    assert Unheld(k, past[|past| - 1]) ==> WillGo(bindings, k);
    hide LookedUpAndMisled, WillGo, Unheld, Misled;
    var _, _, _ := rec.Sync(name, m);
  }
}
