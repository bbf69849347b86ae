/** What the passes guarantee: consequences of the states they can reach, whatever
    fails, however often they are cut off, and whoever else is at work. */
module Guarantees {
  import opened Cluster
  import opened Naming
  import opened Upkeep
  import opened Access
  import opened Metadata
  import opened ClusterAccess
  import opened ManagedNamespaces

  // ---- no grant that was not there or asked for ----

  ghost predicate Grants(s: Objects, ns: string, subject: Subject, ref: RoleRef) {
    exists k :: k in s && k.namespace == ns && s[k].content.Grant? && s[k].content.ref == ref
      && subject in s[k].content.subjects
  }

  ghost predicate Asks(refs: seq<Reference>, roles: set<string>, subject: Subject, ref: RoleRef) {
    exists r :: r in refs && r.role in roles && ref == RoleRef(RBAC_GROUP, "ClusterRole", r.role)
      && subject in Subjects(r.mapping)
  }

  lemma WantIsAsked(hash: HashFunction, ns: string, owner: string, refs: seq<Reference>, roles: set<string>, w: Want)
    returns (r: Reference)
    requires w in GoalOf(hash, ns, owner, refs, roles).wants
    ensures r in refs && r.role in roles && w == Want(RefKey(hash, ns, owner, r), RefContent(r))
  {
    r :| r in Resolved(refs, roles) && w == Want(RefKey(hash, ns, owner, r), RefContent(r));
    ResolvedIn(refs, roles, r);
  }

  /** At every point of a pass, even over a stale cache and with name collisions, whoever
      holds a role held it when the pass began or is given it by the spec. */
  lemma NoOverGrant(hash: HashFunction, refs: seq<Reference>, roles: set<string>, c: Course, log: seq<Objects>, seen: nat,
    i: nat, ns: string, subject: Subject, ref: RoleRef)
    requires OnCourse(c, log, seen) && c.start <= i < |log|
    requires c.goal == GoalOf(hash, c.goal.ns, c.goal.owner, refs, roles)
    requires Grants(log[i], ns, subject, ref)
    ensures Grants(log[c.start], ns, subject, ref) || (ns == c.goal.ns && Asks(refs, roles, subject, ref))
  {
    var k :| k in log[i] && k.namespace == ns && log[i][k].content.Grant? && log[i][k].content.ref == ref
      && subject in log[i][k].content.subjects;
    assert Modest(c.goal, log[c.start], log[i]);
    if Want(k, log[i][k].content) in c.goal.wants {
      var r := WantIsAsked(hash, c.goal.ns, c.goal.owner, refs, roles, Want(k, log[i][k].content));
    }
  }

  /** Every owned binding at one of the spec's names has the contents of a reference
      with that name. */
  ghost predicate Faithful(hash: HashFunction, refs: seq<Reference>, g: Goal, s: Objects) {
    forall k :: k in s && Selected(k, s[k], g.ns, g.owner) && k in KeysOf(hash, g.ns, g.owner, refs) ==>
      Denoted(hash, refs, g, k, s[k].content)
  }

  ghost predicate Denoted(hash: HashFunction, refs: seq<Reference>, g: Goal, k: Key, content: Content) {
    exists r :: r in refs && k == RefKey(hash, g.ns, g.owner, r) && content == RefContent(r)
  }

  /** Once the first prune is through, an owned binding grants what the spec asks, or it is
      an old one that was asked to go and waits on its own finalizers. */
  lemma OnlyRequestedGrants(hash: HashFunction, refs: seq<Reference>, roles: set<string>, c: Course, log: seq<Objects>,
    seen: nat, mid: nat, i: nat, k: Key)
    requires OnCourse(c, log, seen) && c.Caught() && c.start <= mid <= i < |log|
    requires c.goal == GoalOf(hash, c.goal.ns, c.goal.owner, refs, roles)
    requires RevokedFrom(c.goal, KeysOf(hash, c.goal.ns, c.goal.owner, refs), log, mid)
    requires Faithful(hash, refs, c.goal, log[c.start])
    requires k in log[i] && Selected(k, log[i][k], c.goal.ns, c.goal.owner)
    ensures Denoted(hash, refs, c.goal, k, log[i][k].content)
      || (Held(k, log[i]) && k in log[c.start] && Kept(log[c.start][k], log[i][k]))
  {
    hide RefKey, RefContent, KeysOf;
    var (g, s0, s) := (c.goal, log[c.start], log[i]);
    assert Reached(g, s0, s) && Pruned(g, KeysOf(hash, g.ns, g.owner, refs), s);
    assert ReachedAt(g, k, s0, s);
    if k in s0 && Kept(s0[k], s[k]) {
      assert Selected(k, s0[k], g.ns, g.owner);
    } else {
      var r := WantIsAsked(hash, g.ns, g.owner, refs, roles, Want(k, s[k].content));
    }
  }

  // ---- whose objects a pass may touch ----

  /** An object that lacks one of the owner's labels, or has it with another value, or is in
      another namespace, at a name that is not wanted, is the same in every later state of a
      pass, over any lag, if that is so in every state the cache could still show. */
  lemma StrangersUntouched(g: Goal, past: seq<Objects>, from: nat, log: seq<Objects>, now: nat, i: nat, k: Key)
    requires from < |past| && past <= log && OnCourse(CourseOf(g, past, from), log, now) && |past| - 1 <= i < |log|
    requires !Wanted(g, k) && forall j :: from <= j < |past| && k in past[j] ==> !Wears(k, past[j][k], g.ns, g.owner)
    ensures SameAt(k, past[|past| - 1], log[i]) && k !in CourseOf(g, past, from).reach
  {
    hide SafeRetained, Pass, Modest, Selected, Wears;
    forall j | from <= j < |past| && k in past[j]
      ensures !Selected(k, past[j][k], g.ns, g.owner)
    {
      SelectedWears(k, past[j][k], g.ns, g.owner);
    }
    NotWantedKey(g, k);
    var c := CourseOf(g, past, from);
    assert k !in c.reach && log[c.start] == past[|past| - 1];
    assert SameAt(k, log[c.start], log[i]);
  }

  lemma NotWantedKey(g: Goal, k: Key)
    requires !Wanted(g, k)
    ensures forall w :: w in g.wants ==> w.key != k
  {
  }

  /** Nor is its deletion called for. */
  lemma StrangersSpared(g: Goal, past: seq<Objects>, from: nat, kind: Kind, calls: seq<Call>, first: nat, i: nat)
    requires from < |past| && SparesSafe(CourseOf(g, past, from), kind, calls, first)
    requires first <= i < |calls| && calls[i].kind == kind && calls[i].verb == DELETE
    ensures Wanted(g, calls[i].key)
      || exists j :: from <= j < |past| && calls[i].key in past[j] && Wears(calls[i].key, past[j][calls[i].key], g.ns, g.owner)
  {
    hide Selected, Wears;
    var (c, k) := (CourseOf(g, past, from), calls[i].key);
    assert k in c.reach;
    if forall w :: w in g.wants ==> w.key != k {
      var j :| from <= j < |past| && k in past[j] && Selected(k, past[j][k], g.ns, g.owner);
      SelectedWears(k, past[j][k], g.ns, g.owner);
    }
  }

  /** A deletion pass touches only what wears both labels, in the owner's namespace. */
  lemma StrangersStay(s: Objects, log: seq<Objects>, from: nat, ns: string, owner: string, i: nat, k: Key)
    requires AllReleased(s, log, from, ns, owner) && from <= i < |log|
    requires k in s && !Wears(k, s[k], ns, owner)
    ensures k in log[i] && log[i][k] == s[k]
  {
    SelectedWears(k, s[k], ns, owner);
    assert Released(s, log[i], ns, owner);
  }

  /** And nothing is left when one finds nothing exactly if nothing wears them. */
  lemma NothingWears(s: Objects, ns: string, owner: string)
    ensures Owned(s, ns, owner) == {} <==> forall k :: k in s ==> !Wears(k, s[k], ns, owner)
  {
    forall k | k in s
      ensures k in Owned(s, ns, owner) <==> Wears(k, s[k], ns, owner)
    {
      SelectedWears(k, s[k], ns, owner);
    }
    if Owned(s, ns, owner) != {} {
      var k :| k in Owned(s, ns, owner);
      assert Wears(k, s[k], ns, owner);
    }
  }

  /** After a completed pass whatever wears both labels there is wanted, or was asked to go
      and is kept by finalizers of its own. */
  lemma WearersWanted(g: Goal, s: Objects, k: Key)
    requires Converged(g, s) && k in s && Wears(k, s[k], g.ns, g.owner)
    ensures Wanted(g, k) || (s[k].terminating && s[k].finalizers != {})
  {
    SelectedWears(k, s[k], g.ns, g.owner);
    assert Wanted(g, k) || Held(k, s);
  }

  // ---- what stays ----

  /** A binding the spec still asks for is retained at every point of every pass that began
      with the past `past`, over any lag, and also if a lookup error cuts the pass short,
      provided that no state the cache could still show held its name with another roleRef.
      Being safe, it is not asked to go either (`SparesSafe`). */
  lemma RetainedGrant(hash: HashFunction, ns: string, owner: string, refs: seq<Reference>, roles: set<string>,
    past: seq<Objects>, seen: nat, log: seq<Objects>, now: nat, r: Reference, i: nat)
    requires seen < |past| && past <= log && |past| - 1 <= i < |log|
    requires OnCourse(CourseOf(GoalOf(hash, ns, owner, refs, roles), past, seen), log, now)
    requires r in refs && r.role in roles && RefKey(hash, ns, owner, r) in past[|past| - 1]
    requires forall q :: q in refs && RefKey(hash, ns, owner, q) == RefKey(hash, ns, owner, r) ==> q.role == r.role
    requires forall j :: seen <= j < |past| && RefKey(hash, ns, owner, r) in past[j] ==>
      SameRef(past[j][RefKey(hash, ns, owner, r)].content, RefContent(r))
    ensures
      var (g, k) := (GoalOf(hash, ns, owner, refs, roles), RefKey(hash, ns, owner, r));
      k in CourseOf(g, past, seen).safe && k in log[i] && Retained(g, k, past[|past| - 1][k], log[i][k])
  {
    hide RefKey, Retained;
    var (g, k) := (GoalOf(hash, ns, owner, refs, roles), RefKey(hash, ns, owner, r));
    ResolvedIn(refs, roles, r);
    assert Want(k, RefContent(r)) in g.wants;
    forall j | seen <= j <= |past| - 1 && k in past[j]
      ensures RightRef(g, k, past[j][k])
    {
      forall w | w in g.wants && w.key == k
        ensures SameRef(w.content, past[j][k].content)
      {
        var q := WantIsAsked(hash, ns, owner, refs, roles, w);
      }
    }
    assert Wanted(g, k) && AlwaysCorrectable(g, k, past, seen, |past| - 1);
  }

  /** A wanted name is safe exactly if no state the cache may show could mislead. */
  lemma SafeExactly(g: Goal, past: seq<Objects>, seen: nat, k: Key)
    requires seen < |past| && Wanted(g, k) && k in past[|past| - 1]
    ensures k in CourseOf(g, past, seen).safe <==>
      !exists j, w :: seen <= j < |past| && Misleading(past[j], g, k, w)
  {
    if k !in CourseOf(g, past, seen).safe {
      var j :| seen <= j <= |past| - 1 && !Correctable(g, k, past[j]);
      var w :| w in g.wants && w.key == k && !SameRef(w.content, past[j][k].content);
      assert Misleading(past[j], g, k, w);
    }
  }

  ghost predicate Misleading(s: Objects, g: Goal, k: Key, w: Want) {
    w in g.wants && w.key == k && k in s && !SameRef(w.content, s[k].content)
  }

  /** And if one could, there is a run in which the binding is asked to go, however right it
      is by now, and is lost unless it is held: the cache shows state `j`, and the delete
      goes by name. */
  method LagDeletes(g: Goal, past: seq<Objects>, seen: nat, clock: nat, mine: set<Key>, j: nat, w: Want)
    returns (api: Store)
    requires Versioned(past, clock) && (forall k :: Wanted(g, k) ==> k in mine)
    requires forall i, k :: 0 <= i < |past| && k !in mine ==> SameAt(k, past[0], past[i])
    requires |past| > 0 && forall k :: k !in mine && k in past[0] ==> !Selected(k, past[0][k], g.ns, g.owner)
    requires seen <= j < |past| && Misleading(past[j], g, w.key, w)
    ensures DeleteCalled(BINDINGS, w.key, api.wire.calls, 0)
    ensures Unheld(w.key, past[|past| - 1]) ==> past < api.log && w.key !in api.log[|past|]
  {
    hide OnCourse, Versioned, Mirrors, Accounted, Selected, SparesSafe, CallsAbout, Confined, Calm, Correctable;
    var wire := new Wire([Fate(0, Some(j), true, true, Other), Fate(0, Some(j), true, true, Other)]);
    api := new Store(wire, BINDINGS, mine, g.ns, g.owner, [], past, seen, clock);
    ghost var c := CourseOf(g, past, seen);
    CourseStart(g, past, seen);
    var e := EnsureBinding(api, w.key, g.owner, w.content, c);
    ConfinedGrows(w.key, past, api.log);
  }

  // ---- retries ----

  /** A pass that starts where another was cut off is on the first one's way. */
  lemma ReachedTransitive(g: Goal, s0: Objects, s1: Objects, s2: Objects)
    requires Reached(g, s0, s1) && Reached(g, s1, s2)
    ensures Reached(g, s0, s2)
  {
    forall k | k in s0 || k in s2
      ensures ReachedAt(g, k, s0, s2)
    {
      ReachedAtTransitive(g, k, s0, s1, s2);
    }
  }

  lemma ReachedAtTransitive(g: Goal, k: Key, s0: Objects, s1: Objects, s2: Objects)
    requires k in s0 || k in s1 ==> ReachedAt(g, k, s0, s1)
    requires k in s1 || k in s2 ==> ReachedAt(g, k, s1, s2)
    ensures k in s0 || k in s2 ==> ReachedAt(g, k, s0, s2)
  {
    hide Labelled, RightRef;
    if k in s0 && k in s1 {
      SameRefTrans(s0[k].content, s1[k].content, if k in s2 then s2[k].content else s1[k].content);
      if RightRef(g, k, s0[k]) && SameRef(s0[k].content, s1[k].content) {
        SameRefRight(g, k, s0[k], s1[k]);
      }
    }
  }

  lemma SameRefRight(g: Goal, k: Key, a: Object, b: Object)
    requires SameRef(a.content, b.content) && RightRef(g, k, a)
    ensures RightRef(g, k, b)
  {
  }

  /** The states one pass after another was cut off at, each begun where the last ended. */
  ghost predicate CutOff(g: Goal, states: seq<Objects>) {
    && states != []
    && (forall i :: 0 < i < |states| ==> Reached(g, states[i - 1], states[i]))
  }

  lemma {:induction false} CutOffReached(g: Goal, states: seq<Objects>)
    requires CutOff(g, states)
    ensures Reached(g, states[0], states[|states| - 1])
  {
    if |states| == 1 {
      NothingReached(g, states[0]);
    } else {
      var earlier := states[..|states| - 1];
      CutOffReached(g, earlier);
      ReachedTransitive(g, states[0], earlier[|earlier| - 1], states[|states| - 1]);
    }
  }

  lemma NothingReached(g: Goal, s: Objects)
    ensures Reached(g, s, s)
  {
  }

  /** Equal up to UIDs and resource versions. */
  ghost predicate Alike(a: Objects, b: Objects) {
    && a.Keys == b.Keys
    && (forall k :: k in a ==> AlikeAt(k, a, b))
  }

  predicate AlikeAt(k: Key, a: Objects, b: Objects) {
    && k in a && k in b
    && a[k].labels == b[k].labels && a[k].content == b[k].content
    && a[k].finalizers == b[k].finalizers && a[k].terminating == b[k].terminating
  }

  /** However many passes were cut off, and wherever, the complete pass that follows
      them ends with what one uninterrupted pass would have ended with. */
  lemma CrashesAbsorbed(g: Goal, states: seq<Objects>, retried: Objects, direct: Objects)
    requires Functional(g) && CutOff(g, states)
    requires Deletable(retried) && Deletable(direct)
    requires Reached(g, states[|states| - 1], retried) && Converged(g, retried)
    requires Reached(g, states[0], direct) && Converged(g, direct)
    ensures Alike(retried, direct)
  {
    hide Reached, Converged, Deletable, Functional;
    var s0 := states[0];
    CutOffReached(g, states);
    ReachedTransitive(g, s0, states[|states| - 1], retried);
    forall k | k in retried || k in direct
      ensures AlikeAt(k, retried, direct)
    {
      DeterminedBoth(g, s0, retried, direct, k);
    }
  }

  /** Where two complete passes from one state end, held objects included. */
  lemma Determined(g: Goal, s0: Objects, a: Objects, b: Objects, k: Key)
    requires Functional(g) && Deletable(a) && Deletable(b)
    requires Reached(g, s0, a) && Converged(g, a) && Reached(g, s0, b) && Converged(g, b)
    requires k in a
    ensures AlikeAt(k, a, b)
  {
    hide Labelled, Functional;
    assert ReachedAt(g, k, s0, a) && (k in s0 || k in b ==> ReachedAt(g, k, s0, b));
    if Wanted(g, k) {
      assert Done(g, k, a) && Done(g, k, b);
      var (w, v) := (Want(k, a[k].content), Want(k, b[k].content));
      assert w == v by {
        OneContent(g, w, v);
      }
      if k in s0 && s0[k].finalizers != {} {
        SameRefTrans(s0[k].content, a[k].content, a[k].content);
        RightAsWanted(g, w, s0[k]);
      }
    } else {
      assert Selected(k, a[k], g.ns, g.owner) ==> Held(k, a);
    }
  }

  lemma DeterminedBoth(g: Goal, s0: Objects, a: Objects, b: Objects, k: Key)
    requires Functional(g) && Deletable(a) && Deletable(b)
    requires Reached(g, s0, a) && Converged(g, a) && Reached(g, s0, b) && Converged(g, b)
    requires k in a || k in b
    ensures AlikeAt(k, a, b)
  {
    hide Functional, Deletable, Reached, Converged;
    if k in a {
      Determined(g, s0, a, b, k);
    } else {
      Determined(g, s0, b, a, k);
    }
  }

  lemma OneContent(g: Goal, w: Want, v: Want)
    requires Functional(g) && w in g.wants && v in g.wants && w.key == v.key
    ensures w == v
  {
  }

  lemma RightAsWanted(g: Goal, w: Want, o: Object)
    requires Functional(g) && w in g.wants && SameRef(w.content, o.content)
    ensures RightRef(g, w.key, o)
  {
  }

  /** The Namespace is absorbed too: whether or not the cut-off pass had written it, the
      next merge of the same spec ends in the same metadata. */
  lemma MergeAbsorbs(m: Meta, cut: Meta, spec: MetaSpec, owner: string)
    requires cut == m || Merge(m, spec, owner) == Ok(cut)
    ensures Merge(cut, spec, owner) == Merge(m, spec, owner)
  {
    if cut != m {
      MergeIdempotent(m, spec, owner);
    }
  }

  /** Nothing owned that is not wanted has finalizers of its own. */
  ghost predicate NothingHeld(g: Goal, s: Objects) {
    forall k :: k in s && !Wanted(g, k) && Selected(k, s[k], g.ns, g.owner) ==> s[k].finalizers == {}
  }

  /** After a success nothing is left to do, and the next pass only reads, exactly if
      nothing was held when the pass began. */
  lemma SuccessIsExact(g: Goal, s0: Objects, s: Objects)
    requires Reached(g, s0, s) && Converged(g, s)
    ensures Exact(g, s) <==> NothingHeld(g, s0)
  {
    hide Labelled;
    forall k | k in s0 || k in s
      ensures ReachedAt(g, k, s0, s)
    {
    }
    forall k | k in s0 && !Wanted(g, k) && Selected(k, s0[k], g.ns, g.owner) && s0[k].finalizers != {}
      ensures k in s && Selected(k, s[k], g.ns, g.owner)
    {
      assert ReachedAt(g, k, s0, s);
    }
  }

  /** What a ManagedNamespace manages: the Namespace's metadata, quotas and bindings. */
  datatype Managed = Managed(meta: Meta, quotas: Objects, bindings: Objects)

  /** The two goals of a spec, besides its metadata. */
  datatype Aims = Aims(name: string, meta: MetaSpec, quotas: Goal, bindings: Goal)

  /** `b` is where a pass that began in `a` may have been cut off. */
  ghost predicate Cut(t: Aims, a: Managed, b: Managed) {
    && (b.meta == a.meta || Merge(a.meta, t.meta, t.name) == Ok(b.meta))
    && Reached(t.quotas, a.quotas, b.quotas)
    && Reached(t.bindings, a.bindings, b.bindings)
  }

  /** `b` is where a pass that began in `a` may have completed. */
  ghost predicate Complete(t: Aims, a: Managed, b: Managed) {
    && Merge(a.meta, t.meta, t.name) == Ok(b.meta)
    && Reached(t.quotas, a.quotas, b.quotas) && Converged(t.quotas, b.quotas)
    && Reached(t.bindings, a.bindings, b.bindings) && Converged(t.bindings, b.bindings)
  }

  ghost predicate Collected(m: Managed) {
    Deletable(m.quotas) && Deletable(m.bindings)
  }

  /** The same objects, up to UIDs and resource versions. */
  ghost predicate AllAlike(a: Managed, b: Managed) {
    a.meta == b.meta && Alike(a.quotas, b.quotas) && Alike(a.bindings, b.bindings)
  }

  /** Each of `states` is where a pass that began in the one before may have been cut off. */
  ghost predicate Attempts(t: Aims, states: seq<Managed>) {
    && states != [] && Functional(t.quotas) && Functional(t.bindings)
    && (forall i :: 0 < i < |states| ==> Cut(t, states[i - 1], states[i]))
  }

  /** The states of one kind of object in such a history. */
  ghost function QuotasOf(states: seq<Managed>): seq<Objects> {
    seq(|states|, i requires 0 <= i < |states| => states[i].quotas)
  }

  ghost function BindingsOf(states: seq<Managed>): seq<Objects> {
    seq(|states|, i requires 0 <= i < |states| => states[i].bindings)
  }

  lemma AttemptsAreCutOff(t: Aims, states: seq<Managed>)
    requires Attempts(t, states)
    ensures CutOff(t.quotas, QuotasOf(states)) && CutOff(t.bindings, BindingsOf(states))
  {
    hide Reached, Merge;
    forall i | 0 < i < |states|
      ensures Reached(t.quotas, QuotasOf(states)[i - 1], QuotasOf(states)[i])
      ensures Reached(t.bindings, BindingsOf(states)[i - 1], BindingsOf(states)[i])
    {
      assert Cut(t, states[i - 1], states[i]);
    }
  }

  /** The same, for the whole pass: any number of passes cut off at any call, and then one
      that completes, leave the Namespace, quotas and bindings as one pass does. */
  lemma {:induction false} ManagedCrashesAbsorbed(t: Aims, states: seq<Managed>, retried: Managed, direct: Managed)
    requires Attempts(t, states) && Collected(retried) && Collected(direct)
    requires Complete(t, states[|states| - 1], retried) && Complete(t, states[0], direct)
    ensures AllAlike(retried, direct)
  {
    hide Merge, Reached, Converged, CutOff, Cut, Functional, Deletable, Alike;
    AttemptsAreCutOff(t, states);
    CrashesAbsorbed(t.quotas, QuotasOf(states), retried.quotas, direct.quotas);
    CrashesAbsorbed(t.bindings, BindingsOf(states), retried.bindings, direct.bindings);
    MergesAbsorbed(t, states);
  }

  lemma {:induction false} MergesAbsorbed(t: Aims, states: seq<Managed>)
    requires Attempts(t, states)
    ensures Merge(states[|states| - 1].meta, t.meta, t.name) == Merge(states[0].meta, t.meta, t.name)
  {
    hide Merge, Reached, Functional;
    if |states| > 1 {
      var earlier := states[..|states| - 1];
      MergesAbsorbed(t, earlier);
      assert Cut(t, states[|states| - 2], states[|states| - 1]);
      MergeAbsorbs(earlier[|earlier| - 1].meta, states[|states| - 1].meta, t.meta, t.name);
    }
  }

  ghost predicate AllUnheld(t: Aims, s: Managed) {
    NothingHeld(t.quotas, s.quotas) && NothingHeld(t.bindings, s.bindings)
  }

  /** The pass that completes leaves nothing to do exactly if nothing was held at first. */
  lemma CompletionIsExact(t: Aims, states: seq<Managed>, s: Managed)
    requires Attempts(t, states) && Complete(t, states[|states| - 1], s)
    ensures Exact(t.quotas, s.quotas) && Exact(t.bindings, s.bindings) <==> AllUnheld(t, states[0])
    ensures Merge(s.meta, t.meta, t.name) == Ok(s.meta)
  {
    hide Merge, Reached, Converged, Exact, CutOff, Cut, Functional, NothingHeld;
    AttemptsAreCutOff(t, states);
    CutOffReached(t.quotas, QuotasOf(states));
    CutOffReached(t.bindings, BindingsOf(states));
    ReachedTransitive(t.quotas, states[0].quotas, states[|states| - 1].quotas, s.quotas);
    ReachedTransitive(t.bindings, states[0].bindings, states[|states| - 1].bindings, s.bindings);
    SuccessIsExact(t.quotas, states[0].quotas, s.quotas);
    SuccessIsExact(t.bindings, states[0].bindings, s.bindings);
    MergeIdempotent(states[|states| - 1].meta, t.meta, t.name);
  }

  // ---- the retries themselves ----

  ghost function StateOf(rec: ManagedNamespaceReconciler): Managed
    requires rec.Valid()
    reads rec.namespaces, rec.quotas, rec.bindings
  {
    Managed(MetaOf(rec.namespaces.Live()), rec.quotas.Live(), rec.bindings.Live())
  }

  ghost function AimsOf(rec: ManagedNamespaceReconciler, name: string, spec: Spec): Aims {
    Aims(name, spec.meta, QuotaGoal(name, spec.quotas), rec.BindingGoal(name, spec))
  }

  lemma CourseReached(c: Course, log: seq<Objects>, seen: nat)
    requires OnCourse(c, log, seen) && c.Caught()
    ensures Reached(c.goal, log[c.start], log[|log| - 1])
  {
  }

  method CatchUpAll(rec: ManagedNamespaceReconciler)
    requires rec.Valid()
    modifies rec.namespaces`seen, rec.quotas`at, rec.quotas`seen, rec.bindings`at, rec.bindings`seen
    ensures rec.Valid() && StateOf(rec) == old(StateOf(rec))
    ensures rec.bindings.seen == |rec.bindings.log| - 1
    ensures rec.quotas.seen == |rec.quotas.log| - 1 && rec.namespaces.seen == |rec.namespaces.log| - 1
  {
    hide Versioned, Mirrors, Accounted, Revised;
    rec.bindings.CatchUp();
    rec.quotas.CatchUp();
    rec.namespaces.CatchUp();
  }

  /** One pass once the caches have caught up: it is cut off somewhere, or completes. */
  method Attempt(rec: ManagedNamespaceReconciler, name: string, spec: Spec) returns (done: bool)
    requires rec.Ready(name, spec) && Functional(rec.BindingGoal(name, spec)) && Functional(QuotaGoal(name, spec.quotas))
    modifies rec.namespaces, rec.quotas, rec.bindings, rec.wire
    ensures rec.Ready(name, spec) && Cut(AimsOf(rec, name, spec), old(StateOf(rec)), StateOf(rec))
    ensures done ==> Complete(AimsOf(rec, name, spec), old(StateOf(rec)), StateOf(rec)) && rec.namespaces.Live().Some?
  {
    hide Merge, Reached, Converged, OnCourse, Functional, RevokedFrom, Versioned, Mirrors, Accounted, Revised, PrunedFirst, SparesSafe;
    hide GoalOf, QuotaGoal, NothingToMerge, Unresolved, AllReferences, KeysOf, Exact, CourseOf, Serves;
    CatchUpAll(rec);
    ghost var b, q := rec.BindingCourse(name, spec), rec.QuotaCourse(name, spec);
    var r, _, _, _, _ := rec.Sync(name, spec);
    CourseReached(b, rec.bindings.log, rec.bindings.seen);
    CourseReached(q, rec.quotas.log, rec.quotas.seen);
    done := r.Ok?;
  }

  lemma AttemptsNext(t: Aims, states: seq<Managed>, s: Managed)
    requires Attempts(t, states) && Cut(t, states[|states| - 1], s)
    ensures Attempts(t, states + [s])
  {
    hide Cut, Functional;
  }

  lemma AttemptsStart(t: Aims, s: Managed)
    requires Functional(t.quotas) && Functional(t.bindings)
    ensures Attempts(t, [s])
  {
  }

  /** Passes that may fail at any call are repeated until one succeeds. What they leave
      behind is what any direct pass from the first state would have, and the next pass
      stays quiet, once the caches have caught up, exactly if nothing was held at first. */
  method Retry(rec: ManagedNamespaceReconciler, name: string, spec: Spec, attempts: nat) returns (done: bool)
    requires rec.Ready(name, spec) && Functional(rec.BindingGoal(name, spec)) && Functional(QuotaGoal(name, spec.quotas))
    modifies rec.namespaces, rec.quotas, rec.bindings, rec.wire
    ensures rec.Ready(name, spec)
    ensures done ==> rec.AllCalm(name, spec)
    ensures done ==> (rec.Quietly(name, spec) <==> AllUnheld(AimsOf(rec, name, spec), old(StateOf(rec))))
    ensures done ==> forall direct :: Complete(AimsOf(rec, name, spec), old(StateOf(rec)), direct) && Collected(direct) ==>
      AllAlike(StateOf(rec), direct)
  {
    hide Merge, Cut, Complete, Collected, Functional, AllUnheld, AllAlike, Exact, Versioned, Mirrors, Accounted, Revised, Serves;
    hide Attempts, GoalOf, QuotaGoal, AllReferences;
    ghost var t, states := AimsOf(rec, name, spec), [StateOf(rec)];
    AttemptsStart(t, StateOf(rec));
    for i := 0 to attempts
      invariant rec.Ready(name, spec) && states != [] && states[0] == old(StateOf(rec))
      invariant Attempts(t, states) && states[|states| - 1] == StateOf(rec)
    {
      done := Attempt(rec, name, spec);
      if done {
        ghost var s := StateOf(rec);
        ValidIsCollected(rec);
        CompletionIsExact(t, states, s);
        forall direct | Complete(t, states[0], direct) && Collected(direct)
          ensures AllAlike(s, direct)
        {
          ManagedCrashesAbsorbed(t, states, s, direct);
        }
        CatchUpAll(rec);
        return;
      }
      AttemptsNext(t, states, StateOf(rec));
      states := states + [StateOf(rec)];
    }
    done := false;
  }

  /** The same for a ClusterAccessMapping. */
  method RetryAccess(rec: ClusterAccessReconciler, name: string, m: Mapping, attempts: nat) returns (done: bool)
    requires rec.Ready(name, m) && Functional(rec.GoalFor(name, m))
    modifies rec.bindings, rec.bindings.wire
    ensures rec.Ready(name, m)
    ensures done ==> rec.Calmly(name, m)
    ensures done ==> (rec.Quietly(name, m) <==> NothingHeld(rec.GoalFor(name, m), old(rec.bindings.Live())))
    ensures done ==> forall direct :: (Reached(rec.GoalFor(name, m), old(rec.bindings.Live()), direct)
      && Converged(rec.GoalFor(name, m), direct) && Deletable(direct)) ==> Alike(rec.bindings.Live(), direct)
  {
    hide Reached, Converged, Functional, NothingHeld, Alike, Exact, Versioned, Mirrors, Accounted, Serves, Deletable, CutOff;
    hide OnCourse, SparesSafe, GrantsOnly, ListThenDeletes, CourseOf, GoalOf, Unresolved, KeysOf, Pruned, References;
    ghost var g, states := rec.GoalFor(name, m), [rec.bindings.Live()];
    CutOffStart(g, rec.bindings.Live());
    for i := 0 to attempts
      invariant rec.Ready(name, m) && states != [] && states[0] == old(rec.bindings.Live())
      invariant CutOff(g, states) && states[|states| - 1] == rec.bindings.Live()
    {
      rec.bindings.CatchUp();
      ghost var c := rec.CourseFor(name, m);
      var r, _, _ := rec.Sync(name, m);
      ghost var s := rec.bindings.Live();
      CourseReached(c, rec.bindings.log, rec.bindings.seen);
      if r.Ok? {
        LiveIsDeletable(rec.bindings);
        CutOffReached(g, states);
        ReachedTransitive(g, states[0], states[|states| - 1], s);
        SuccessIsExact(g, states[0], s);
        forall direct | Reached(g, states[0], direct) && Converged(g, direct) && Deletable(direct)
          ensures Alike(s, direct)
        {
          CrashesAbsorbed(g, states, s, direct);
        }
        rec.bindings.CatchUp();
        return true;
      }
      CutOffNext(g, states, s);
      states := states + [s];
    }
    done := false;
  }

  lemma CutOffStart(g: Goal, s: Objects)
    ensures CutOff(g, [s])
  {
  }

  lemma CutOffNext(g: Goal, states: seq<Objects>, s: Objects)
    requires CutOff(g, states) && Reached(g, states[|states| - 1], s)
    ensures CutOff(g, states + [s])
  {
  }

  lemma LiveIsDeletable(api: Store)
    requires api.Valid()
    ensures Deletable(api.Live())
  {
  }

  lemma ValidIsCollected(rec: ManagedNamespaceReconciler)
    requires rec.Valid()
    ensures Collected(StateOf(rec))
  {
    LiveIsDeletable(rec.quotas);
    LiveIsDeletable(rec.bindings);
  }

  // ---- one binding per grant ----

  /** Among the names in play, the hash does not collide. */
  ghost predicate CollisionFree(hash: HashFunction, owner: string, refs: seq<Reference>) {
    && NulFree(owner)
    && (forall r :: r in refs ==> Nameable(r.mapping))
    && (forall r, q :: r in refs && q in refs ==>
      && !UserCollision(hash, r.mapping, q.mapping)
      && !PrefixCollision(hash, Preimage(owner, SubjectKey(hash, r.mapping), r.role),
        Preimage(owner, SubjectKey(hash, q.mapping), q.role)))
  }

  lemma KeysDenote(hash: HashFunction, ns: string, owner: string, refs: seq<Reference>, r: Reference, q: Reference)
    requires CollisionFree(hash, owner, refs) && r in refs && q in refs
    ensures RefKey(hash, ns, owner, r) == RefKey(hash, ns, owner, q)
      <==> r.role == q.role && SameSubjects(r.mapping, q.mapping)
    ensures r.role == q.role && SameSubjects(r.mapping, q.mapping) ==> RefContent(r) == RefContent(q)
  {
    NamesAgree(hash, owner, r.mapping, r.role, owner, q.mapping, q.role);
    if SameSubjects(r.mapping, q.mapping) {
      SameSubjectsSameContents(hash, r.mapping, q.mapping);
    }
  }

  lemma CollisionFreeFunctional(hash: HashFunction, ns: string, owner: string, refs: seq<Reference>, roles: set<string>)
    requires CollisionFree(hash, owner, refs)
    ensures Functional(GoalOf(hash, ns, owner, refs, roles))
  {
    hide RefKey, RefContent, CollisionFree;
    var g := GoalOf(hash, ns, owner, refs, roles);
    forall w, v | w in g.wants && v in g.wants && w.key == v.key
      ensures w == v
    {
      var r := WantIsAsked(hash, ns, owner, refs, roles, w);
      var q := WantIsAsked(hash, ns, owner, refs, roles, v);
      KeysDenote(hash, ns, owner, refs, r, q);
    }
  }

  /** In an exact store there is one owned binding per distinct resolved pair of subject
      set and role, with the right roleRef, subjects and labels, and no other. */
  lemma OneBindingPerGrant(hash: HashFunction, ns: string, owner: string, refs: seq<Reference>, roles: set<string>, s: Objects)
    requires CollisionFree(hash, owner, refs)
    requires Exact(GoalOf(hash, ns, owner, refs, roles), s)
    ensures forall r :: r in refs && r.role in roles ==>
      var k := RefKey(hash, ns, owner, r);
      k in s && BindingOf(s[k], owner, r)
    ensures forall k :: k in s && Wears(k, s[k], ns, owner) ==>
      exists r :: r in refs && r.role in roles && k == RefKey(hash, ns, owner, r)
    ensures forall r, q :: r in refs && q in refs ==>
      (RefKey(hash, ns, owner, r) == RefKey(hash, ns, owner, q) <==> r.role == q.role && SameSubjects(r.mapping, q.mapping))
  {
    hide RefKey, RefContent, CollisionFree, Selected, Wears, BindingOf;
    var g := GoalOf(hash, ns, owner, refs, roles);
    CollisionFreeFunctional(hash, ns, owner, refs, roles);
    forall r | r in refs && r.role in roles
      ensures var k := RefKey(hash, ns, owner, r);
        k in s && BindingOf(s[k], owner, r)
    {
      ResolvedIn(refs, roles, r);
      var k := RefKey(hash, ns, owner, r);
      assert Want(k, RefContent(r)) in g.wants;
      assert Wanted(g, k) && Done(g, k, s);
      GrantedBinding(s[k], owner, r);
    }
    forall k | k in s && Wears(k, s[k], ns, owner)
      ensures exists r :: r in refs && r.role in roles && k == RefKey(hash, ns, owner, r)
    {
      SelectedWears(k, s[k], ns, owner);
      assert Wanted(g, k);
      GoalWants(hash, ns, owner, refs, roles, k);
    }
    forall r, q | r in refs && q in refs
      ensures RefKey(hash, ns, owner, r) == RefKey(hash, ns, owner, q) <==> r.role == q.role && SameSubjects(r.mapping, q.mapping)
    {
      KeysDenote(hash, ns, owner, refs, r, q);
    }
  }

  /** The binding grants the ClusterRole of `r` to the subjects of its mapping, and wears the
      two labels and no other. */
  ghost predicate BindingOf(o: Object, owner: string, r: Reference) {
    && o.labels == map["app.kubernetes.io/managed-by" := "k8s-controller", "k8s.pliu.dev/owner-name" := owner]
    && o.content.Grant? && o.content.ref == RoleRef("rbac.authorization.k8s.io", "ClusterRole", r.role)
    && SubjectsTold(r.mapping, o.content.subjects)
  }

  lemma GrantedBinding(o: Object, owner: string, r: Reference)
    requires o.labels == OwnerLabels(owner) && o.content == RefContent(r)
    ensures BindingOf(o, owner, r)
  {
    SubjectsAreTold(r.mapping);
    SelectedWears(Key("", ""), o, "", owner);
  }

  // ---- the spec's quotas ----

  /** No two quotas with one name differ; unique names are enough. */
  lemma QuotasFunctional(name: string, quotas: seq<QuotaSpec>)
    ensures Functional(QuotaGoal(name, quotas)) <==>
      forall q, p :: q in quotas && p in quotas && q.name != "" && q.name == p.name ==> q.limits == p.limits
    ensures (forall i, j :: 0 <= i < j < |quotas| ==> quotas[i].name != quotas[j].name) ==> Functional(QuotaGoal(name, quotas))
  {
    forall q | q in quotas && q.name != ""
      ensures Want(Key(name, q.name), Quota(q.limits)) in QuotaGoal(name, quotas).wants
    {
    }
    if Functional(QuotaGoal(name, quotas)) {
      forall q, p | q in quotas && p in quotas && q.name != "" && q.name == p.name
        ensures q.limits == p.limits
      {
        var (w, v) := (Want(Key(name, q.name), Quota(q.limits)), Want(Key(name, p.name), Quota(p.limits)));
        assert w in QuotaGoal(name, quotas).wants && v in QuotaGoal(name, quotas).wants;
      }
    }
  }

  /** A store in which only quotas are found can always be corrected in place. */
  lemma QuotasCorrectable(name: string, quotas: seq<QuotaSpec>, s: Objects)
    requires forall k :: k in s ==> s[k].content.Quota?
    ensures AllCorrectable(QuotaGoal(name, quotas), s)
  {
  }

  /** After a completed pass every named quota of the spec is there with its limits, and
      whatever else wears the labels was asked to go and is held. */
  lemma QuotasInPlace(name: string, quotas: seq<QuotaSpec>, s: Objects)
    requires Functional(QuotaGoal(name, quotas)) && Converged(QuotaGoal(name, quotas), s)
    ensures forall q :: q in quotas && q.name != "" ==>
      var k := Key(name, q.name);
      k in s && s[k].content == Quota(q.limits) && Wears(k, s[k], name, name)
    ensures forall k :: k in s && Wears(k, s[k], name, name) ==>
      (exists q :: q in quotas && q.name != "" && k == Key(name, q.name)) || (s[k].terminating && s[k].finalizers != {})
  {
    hide Wears, Selected, Functional;
    var g := QuotaGoal(name, quotas);
    forall q | q in quotas && q.name != ""
      ensures var k := Key(name, q.name);
        k in s && s[k].content == Quota(q.limits) && Wears(k, s[k], name, name)
    {
      var w := Want(Key(name, q.name), Quota(q.limits));
      assert w in g.wants && Wanted(g, w.key) && Done(g, w.key, s);
      OneContent(g, w, Want(w.key, s[w.key].content));
      OwnerLabelsSelect(name);
      StampedWears(w.key, s[w.key], name);
    }
    forall k | k in s && Wears(k, s[k], name, name)
      ensures (exists q :: q in quotas && q.name != "" && k == Key(name, q.name)) || (s[k].terminating && s[k].finalizers != {})
    {
      WearersWanted(g, s, k);
      QuotaWanted(name, quotas, k);
    }
  }

  lemma StampedWears(k: Key, o: Object, name: string)
    requires k.namespace == name && o.labels == OwnerLabels(name)
    ensures Wears(k, o, name, name)
  {
    OwnerLabelsSelect(name);
    SelectedWears(k, o, name, name);
  }
}
