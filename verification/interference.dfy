/** Passes of different owners do not interfere. Each store shows its owner's pass a log of
    its own objects only, whatever others write between its calls; so a pass is what it
    would be alone, and two passes on one world, however their calls interleave, leave what
    running one after the other leaves. */
module Interference {
  import opened Cluster
  import opened Naming
  import opened Upkeep
  import opened Access
  import opened ManagedNamespaces
  import opened Guarantees
  import opened ClusterAccess
  import opened Metadata

  /** The keys one owner's pass is about: the wanted names and what it owned at the start. */
  ghost predicate Footprint(g: Goal, s0: Objects, k: Key) {
    Wanted(g, k) || (k in s0 && Selected(k, s0[k], g.ns, g.owner))
  }

  /** However far a pass got, and however far the cache lagged, what is neither wanted nor
      owned in any state the cache could show is as it was. */
  lemma PassStaysInReach(g: Goal, past: seq<Objects>, from: nat, log: seq<Objects>, seen: nat, i: nat, k: Key)
    requires from < |past| && past <= log && OnCourse(CourseOf(g, past, from), log, seen) && |past| - 1 <= i < |log|
    requires forall j :: from <= j < |past| ==> !Footprint(g, past[j], k)
    ensures SameAt(k, past[|past| - 1], log[i])
  {
    hide SafeRetained, Pass, Modest, Selected;
    var c := CourseOf(g, past, from);
    assert !Footprint(g, past[|past| - 1], k);
    assert k !in c.reach;
  }

  /** Of a caught-up pass that is its footprint. */
  lemma PassStaysInFootprint(c: Course, log: seq<Objects>, seen: nat, i: nat, k: Key)
    requires OnCourse(c, log, seen) && c.Caught() && c.start <= i < |log|
    requires !Footprint(c.goal, log[c.start], k)
    ensures SameAt(k, log[c.start], log[i])
  {
    assert Reached(c.goal, log[c.start], log[i]);
    ReachedOutside(c.goal, log[c.start], log[i], k);
  }

  lemma ReachedOutside(g: Goal, s0: Objects, s: Objects, k: Key)
    requires Reached(g, s0, s) && !Footprint(g, s0, k)
    ensures SameAt(k, s0, s)
  {
    assert k in s0 || k in s ==> ReachedAt(g, k, s0, s);
  }

  /** A store that agrees on the footprint, and shows nothing owned outside it, answers
      every read of the pass alike. */
  lemma ReadsStayInFootprint(g: Goal, s0: Objects, s: Objects, t: Objects, items: seq<Item>)
    requires forall k :: Footprint(g, s0, k) ==> SameAt(k, s, t)
    requires forall k :: k in s && Selected(k, s[k], g.ns, g.owner) ==> Footprint(g, s0, k)
    requires forall k :: k in t && Selected(k, t[k], g.ns, g.owner) ==> Footprint(g, s0, k)
    ensures Lists(items, s, g.ns, g.owner) <==> Lists(items, t, g.ns, g.owner)
  {
    if Lists(items, s, g.ns, g.owner) {
      ListsAgree(g, s0, s, t, items);
    }
    if Lists(items, t, g.ns, g.owner) {
      ListsAgree(g, s0, t, s, items);
    }
  }

  lemma ListsAgree(g: Goal, s0: Objects, s: Objects, t: Objects, items: seq<Item>)
    requires forall k :: Footprint(g, s0, k) ==> SameAt(k, s, t)
    requires forall k :: k in s && Selected(k, s[k], g.ns, g.owner) ==> Footprint(g, s0, k)
    requires forall k :: k in t && Selected(k, t[k], g.ns, g.owner) ==> Footprint(g, s0, k)
    requires Lists(items, s, g.ns, g.owner)
    ensures Lists(items, t, g.ns, g.owner)
  {
    hide Selected, Wanted;
    forall i | 0 <= i < |items|
      ensures
        var k := items[i].key;
        k in t && t[k] == items[i].state && Selected(k, t[k], g.ns, g.owner)
    {
      assert SameAt(items[i].key, s, t);
    }
    forall k | k in t && Selected(k, t[k], g.ns, g.owner)
      ensures exists i :: 0 <= i < |items| && items[i].key == k
    {
      assert SameAt(k, s, t);
    }
  }

  // ---- two passes at once ----

  /** `a`, with the objects in `keys` as they are in `b`. */
  function Overlay(keys: set<Key>, a: Objects, b: Objects): Objects {
    (a - keys) + (b - (b.Keys - keys))
  }

  /** What a pass saw, from `s` to `l`, is what became of its own objects from `s0` to `t`. */
  ghost predicate Saw(g: Goal, mine: set<Key>, s: Objects, l: Objects, s0: Objects, t: Objects) {
    && (forall k :: Footprint(g, s, k) ==> k in mine)
    && (forall k :: k in mine ==> SameAt(k, s, s0) && SameAt(k, l, t))
    && (forall k :: k in s0 && Selected(k, s0[k], g.ns, g.owner) ==> k in mine)
    && (forall k :: k in t && Selected(k, t[k], g.ns, g.owner) ==> k in mine)
  }

  /** A pass's way depends on its own objects only. */
  lemma ReachedElsewhere(g: Goal, mine: set<Key>, s: Objects, l: Objects, s0: Objects, t: Objects)
    requires Reached(g, s, l) && forall k :: Footprint(g, s, k) ==> k in mine
    requires forall k :: k in mine ==> SameAt(k, s, s0) && SameAt(k, l, t)
    requires forall k :: k !in mine ==> SameAt(k, s0, t)
    ensures Reached(g, s0, t)
  {
    hide Labelled, RightRef, Granted;
    forall k | k in s0 || k in t
      ensures ReachedAt(g, k, s0, t)
    {
      if k in mine {
        assert SameAt(k, s, s0) && SameAt(k, l, t) && (k in s || k in l) && ReachedAt(g, k, s, l);
      } else {
        assert SameAt(k, s0, t) && !Footprint(g, s, k);
        SameIsReached(g, k, s0, t);
      }
    }
  }

  lemma SameIsReached(g: Goal, k: Key, s0: Objects, t: Objects)
    requires k in s0 && k in t && s0[k] == t[k] && !Wanted(g, k)
    ensures ReachedAt(g, k, s0, t)
  {
    SameRefTrans(s0[k].content, s0[k].content, s0[k].content);
  }

  lemma ConvergedElsewhere(g: Goal, mine: set<Key>, l: Objects, t: Objects)
    requires Converged(g, l) && forall k :: Wanted(g, k) ==> k in mine
    requires forall k :: k in mine ==> SameAt(k, l, t)
    requires forall k :: k in t && Selected(k, t[k], g.ns, g.owner) ==> k in mine
    ensures Converged(g, t)
  {
    hide Labelled, Granted;
    forall k | Wanted(g, k)
      ensures Done(g, k, t)
    {
      assert Done(g, k, l) && SameAt(k, l, t);
    }
    forall k | k in t && Selected(k, t[k], g.ns, g.owner) && !Wanted(g, k)
      ensures Held(k, t)
    {
      assert SameAt(k, l, t);
    }
  }

  // ---- the world ----

  /** The owner made step `i` of the world. */
  ghost predicate Made(api: Store, i: nat)
    requires 0 < i < |api.turns|
    reads api
  {
    api.turns[i - 1] < api.turns[i]
  }

  /** A pass leaves every object outside its reach alone, in the world, whatever others do
      there meanwhile: each step is theirs, one of the writes they make in order, or the
      pass's own and within its reach. */
  lemma StepsStayInReach(api: Store, c: Course, i: nat, k: Key)
    requires api.Valid() && OnCourse(c, api.log, api.seen) && api.since <= i < |api.world|
    ensures |api.turns| == |api.world| && 0 < i
    ensures !Made(api, i) ==>
      var j := i - 1 - api.turns[i - 1];
      0 <= j < |api.theirs| && api.world[i] == Foreign(api.mine, api.ns, api.owner, api.world[i - 1], api.theirs[j])
    ensures Made(api, i) && c.start <= api.turns[i - 1] && k !in c.reach ==> SameAt(k, api.world[i - 1], api.world[i])
  {
    hide SafeRetained, Pass, Modest, Selected, Foreign;
    var (m, n) := (api.turns[i - 1], api.turns[i]);
    assert AccountedAt(api.world, api.turns, api.mine, api.ns, api.owner, api.theirs, i);
    if Made(api, i) && c.start <= m && k !in c.reach && k in api.mine {
      assert SameAt(k, api.log[m], api.world[i - 1]) && SameAt(k, api.log[n], api.world[i]);
      assert SameAt(k, api.log[c.start], api.log[m]) && SameAt(k, api.log[c.start], api.log[n]);
    }
  }

  /** Two stores on one world, since it had gone through `p` states: their owners differ,
      each has objects of its own, and every step was one of the two's. */
  ghost predicate Shared(a: Store, b: Store, p: nat)
    reads a, b
  {
    && a.Valid() && b.Valid() && a.world == b.world && p < |a.world| && |a.turns| == |b.turns| == |a.world|
    && a.owner != b.owner && a.mine !! b.mine && a.since <= p + 1 && b.since <= p + 1
    && (forall i :: p < i < |a.world| ==> Made(a, i) || Made(b, i))
  }

  /** So what is neither's stays as it is. */
  lemma {:induction false} NobodyElse(a: Store, b: Store, p: nat, i: nat, k: Key)
    requires Shared(a, b, p) && p <= i < |a.world| && k !in a.mine && k !in b.mine
    ensures SameAt(k, a.world[p], a.world[i])
  {
    hide Versioned, Mirrors, Foreign;
    if i > p {
      NobodyElse(a, b, p, i - 1, k);
      assert Made(a, i) || Made(b, i);
      assert AccountedAt(a.world, a.turns, a.mine, a.ns, a.owner, a.theirs, i);
      assert AccountedAt(b.world, b.turns, b.mine, b.ns, b.owner, b.theirs, i);
      assert SameAt(k, a.world[i - 1], a.world[i]);
    }
  }

  /** A caught-up pass on course since then, and its owner's first to write. */
  ghost predicate Ran(api: Store, c: Course, p: nat)
    reads api
  {
    && api.Valid() && Serves(api, c.goal) && OnCourse(c, api.log, api.seen) && c.Caught()
    && p < |api.turns| && c.start == api.turns[p]
  }

  /** Every caught-up sync of a ClusterAccessMapping ends so, however it ends. */
  method SyncRan(rec: ClusterAccessReconciler, name: string, m: Mapping)
    returns (r: Result<seq<InvalidReference>>, ghost c: Course, ghost p: nat)
    requires rec.Ready(name, m) && rec.bindings.seen == |rec.bindings.log| - 1
    modifies rec.bindings, rec.bindings.wire
    ensures rec.Ready(name, m) && c.goal == rec.GoalFor(name, m)
    ensures Ran(rec.bindings, c, p) && p + 1 == |old(rec.bindings.world)| && rec.bindings.since <= p + 1
    ensures old(rec.bindings.world) <= rec.bindings.world
    ensures r.Ok? && Functional(c.goal) ==> Converged(c.goal, rec.bindings.Live())
  {
    hide OnCourse, Versioned, SparesSafe, GrantsOnly, ListThenDeletes, GoalOf, Unresolved, Pruned, References, Selected;
    hide Converged, Functional, OnlyReads, LookedUpAndMisled, AskedAndGone, WillGo, RefKey, Foreign, OwnStep;
    c, p := rec.CourseFor(name, m), |rec.bindings.world| - 1;
    MirrorsShape(rec.bindings.log, rec.bindings.world, rec.bindings.turns, rec.bindings.mine, rec.bindings.ns,
      rec.bindings.owner);
    hide Mirrors;
    var result, _, _ := rec.Sync(name, m);
    r := result;
  }

  /** And so does every caught-up sync of a ManagedNamespace, for its bindings and for its
      quotas. */
  method ManagedSyncRan(rec: ManagedNamespaceReconciler, name: string, spec: Spec)
    returns (r: Result<seq<InvalidReference>>, ghost b: Course, ghost q: Course, ghost p: nat, ghost o: nat)
    requires rec.Ready(name, spec)
    requires rec.bindings.seen == |rec.bindings.log| - 1 && rec.quotas.seen == |rec.quotas.log| - 1
    modifies rec.namespaces, rec.quotas, rec.bindings, rec.wire
    ensures rec.Ready(name, spec) && b.goal == rec.BindingGoal(name, spec) && q.goal == QuotaGoal(name, spec.quotas)
    ensures Ran(rec.bindings, b, p) && p + 1 == |old(rec.bindings.world)| && rec.bindings.since <= p + 1
    ensures Ran(rec.quotas, q, o) && o + 1 == |old(rec.quotas.world)| && rec.quotas.since <= o + 1
    ensures r.Ok? && Functional(b.goal) ==> Converged(b.goal, rec.bindings.Live())
    ensures r.Ok? && Functional(q.goal) ==> Converged(q.goal, rec.quotas.Live())
  {
    hide OnCourse, Versioned, SparesSafe, PrunedFirst, RevokedFrom, GoalOf, QuotaGoal, Unresolved, Merge, AllReferences;
    hide Converged, Functional, OnlyReads, KeysOf, Selected, Revised, Foreign, OwnStep, Exact;
    b, q := rec.BindingCourse(name, spec), rec.QuotaCourse(name, spec);
    p, o := |rec.bindings.world| - 1, |rec.quotas.world| - 1;
    StoreShape(rec.bindings);
    StoreShape(rec.quotas);
    hide Mirrors, Accounted;
    var result, _, _, _, _ := rec.Sync(name, spec);
    r := result;
  }

  lemma StoreShape(api: Store)
    requires api.Valid()
    ensures |api.turns| == |api.world| > 0 && api.turns[|api.turns| - 1] + 1 == |api.log| && api.since <= |api.world|
  {
  }

  /** Two owners can share a world: where every step is the first's own or touches only the
      other's objects, the other has a store that mirrors that world, and in which every
      step of the first is a write of others. */
  lemma {:induction false} OtherSees(a: Store, p: nat, mine: set<Key>, ns: string, owner: string, i: nat)
    returns (log: seq<Objects>, turns: seq<nat>, theirs: seq<Objects>)
    requires a.Valid() && a.since <= p + 1 && p <= i < |a.world|
    requires a.mine !! mine && a.owner != owner && |a.turns| == |a.world|
    requires forall k :: k !in mine && k in a.world[p] ==> !Selected(k, a.world[p][k], ns, owner)
    requires forall j :: p < j < |a.world| && !Made(a, j) ==> OwnStep(mine, owner, a.world[j - 1], a.world[j])
    ensures log != [] && log[0] == a.world[p] && Mirrors(log, a.world[p..i + 1], turns, mine, ns, owner)
    ensures Accounted(a.world[p..i + 1], turns, mine, ns, owner, theirs, 1)
    ensures |theirs| + |log| == i + 1 - p
    decreases i
  {
    hide Versioned, Foreign, OwnStep, Selected, AccountedAt;
    if i == p {
      assert a.world[p..i + 1] == [a.world[p]];
      log, turns, theirs := [a.world[p]], [0], [];
    } else {
      log, turns, theirs := OtherSees(a, p, mine, ns, owner, i - 1);
      var (w, t) := (a.world[p..i], a.world[i]);
      assert a.world[p..i + 1] == w + [t] && w[|w| - 1] == a.world[i - 1];
      if Made(a, i) {
        FirstsStepIsForeign(a, i, log, w, turns, mine, ns, owner);
        MirrorsOthers(log, w, turns, mine, ns, owner, t);
        AccountedOthers(w, turns, mine, ns, owner, theirs, |log|, t);
        turns, theirs := turns + [|log| - 1], theirs + [t];
      } else {
        MirrorsOwnStep(log, w, turns, mine, ns, owner, t);
        MirrorsShape(log, w, turns, mine, ns, owner);
        AccountedOwn(w, turns, mine, ns, owner, theirs, 1, t);
        log, turns := log + [Overlay(mine, log[|log| - 1], t)], turns + [|log|];
      }
    }
  }

  lemma FirstsStepIsForeign(a: Store, i: nat, log: seq<Objects>, w: seq<Objects>, turns: seq<nat>, mine: set<Key>,
    ns: string, owner: string)
    requires a.Valid() && 0 < i < |a.world| && |a.turns| == |a.world| && a.since <= i && Made(a, i)
    requires a.mine !! mine && a.owner != owner
    requires Mirrors(log, w, turns, mine, ns, owner) && w[|w| - 1] == a.world[i - 1]
    ensures Foreign(mine, ns, owner, a.world[i - 1], a.world[i]) == a.world[i]
  {
    assert AccountedAt(a.world, a.turns, a.mine, a.ns, a.owner, a.theirs, i);
    OwnStepIsForeign(a.mine, a.owner, a.world[i - 1], a.world[i], mine, ns, owner);
  }

  lemma AccountedOthers(w: seq<Objects>, turns: seq<nat>, mine: set<Key>, ns: string, owner: string, theirs: seq<Objects>,
    states: nat, t: Objects)
    requires Accounted(w, turns, mine, ns, owner, theirs, 1) && turns[|turns| - 1] + 1 == states
    requires |theirs| + states == |w| && Foreign(mine, ns, owner, w[|w| - 1], t) == t
    ensures Accounted(w + [t], turns + [states - 1], mine, ns, owner, theirs + [t], 1)
  {
    hide Foreign, OwnStep;
    forall i | 1 <= i < |w|
      ensures AccountedAt(w, turns, mine, ns, owner, theirs + [t], i)
    {
      assert AccountedAt(w, turns, mine, ns, owner, theirs, i);
    }
    AccountedNext(w, turns, mine, ns, owner, theirs + [t], 1, t, states - 1);
  }

  lemma MirrorsOwnStep(log: seq<Objects>, w: seq<Objects>, turns: seq<nat>, mine: set<Key>, ns: string, owner: string,
    t: Objects)
    requires Mirrors(log, w, turns, mine, ns, owner) && OwnStep(mine, owner, w[|w| - 1], t)
    ensures Mirrors(log + [Overlay(mine, log[|log| - 1], t)], w + [t], turns + [|log|], mine, ns, owner)
  {
    hide Selected;
    var s := Overlay(mine, log[|log| - 1], t);
    var (l, v, n) := (log + [s], w + [t], turns + [|log|]);
    forall i, k | 0 <= i < |v| && k in mine
      ensures SameAt(k, l[n[i]], v[i])
    {
      if i < |w| {
        assert SameAt(k, log[turns[i]], w[i]) && turns[i] <= turns[|turns| - 1];
      }
    }
    forall i, k | 0 <= i < |v| && k !in mine && k in v[i]
      ensures !Selected(k, v[i][k], ns, owner)
    {
      assert SameAt(k, w[|w| - 1], t);
    }
    forall i, k | 0 <= i < |l| && k !in mine
      ensures SameAt(k, l[0], l[i])
    {
      assert SameAt(k, log[0], log[|log| - 1]);
    }
  }

  lemma RanSaw(api: Store, c: Course, p: nat)
    requires Ran(api, c, p) && p < |api.world|
    ensures c.start < |api.log| && forall k :: Wanted(c.goal, k) ==> k in api.mine
    ensures Saw(c.goal, api.mine, api.log[c.start], api.Live(), api.world[p], api.world[|api.world| - 1])
    ensures Reached(c.goal, api.log[c.start], api.Live())
  {
    hide Selected, Pass, Modest, SafeRetained;
    assert Pass(c.goal, api.log, c.start);
    PassReached(c.goal, api.log, c.start, |api.log| - 1);
    hide OnCourse;
    MirrorsShape(api.log, api.world, api.turns, api.mine, api.ns, api.owner);
    var n := |api.world| - 1;
    forall k | k in api.mine
      ensures SameAt(k, api.log[c.start], api.world[p]) && SameAt(k, api.Live(), api.world[n])
    {
      assert SameAt(k, api.log[api.turns[p]], api.world[p]) && SameAt(k, api.log[api.turns[n]], api.world[n]);
    }
    forall k | k !in api.mine
      ensures !Footprint(c.goal, api.log[c.start], k)
    {
      assert SameAt(k, api.log[0], api.log[c.start]);
    }
  }

  /** Wherever two syncs on one world are, the first alone could have got to `mid`, and the
      second could have gone on from there to where they are now; and what either has
      completed is complete there. */
  lemma SyncsInSequence(a: Store, b: Store, ca: Course, cb: Course, p: nat) returns (mid: Objects)
    requires Shared(a, b, p) && Ran(a, ca, p) && Ran(b, cb, p)
    ensures
      var (s0, s) := (a.world[p], a.world[|a.world| - 1]);
      && mid == Overlay(a.mine, s0, s)
      && Reached(ca.goal, s0, mid) && Reached(cb.goal, mid, s)
      && (Converged(ca.goal, a.Live()) ==> Converged(ca.goal, mid) && Converged(ca.goal, s))
      && (Converged(cb.goal, b.Live()) ==> Converged(cb.goal, s))
  {
    hide Selected, Reached, OnCourse, Versioned, Mirrors, Accounted, Converged, Footprint;
    var (g, h) := (ca.goal, cb.goal);
    var (s0, s) := (a.world[p], a.world[|a.world| - 1]);
    mid := Overlay(a.mine, s0, s);
    RanSaw(a, ca, p);
    RanSaw(b, cb, p);
    forall k
      ensures k in a.mine ==> SameAt(k, s, mid) && SameAt(k, a.Live(), mid)
      ensures k !in a.mine ==> SameAt(k, s0, mid)
      ensures k !in b.mine ==> SameAt(k, mid, s)
      ensures k in b.mine ==> SameAt(k, b.log[cb.start], mid)
    {
      assert k in a.mine ==> SameAt(k, a.Live(), s);
      assert k in b.mine ==> SameAt(k, b.log[cb.start], s0);
      if k !in a.mine && k !in b.mine {
        NobodyElse(a, b, p, |a.world| - 1, k);
      }
    }
    ReachedElsewhere(g, a.mine, a.log[ca.start], a.Live(), s0, mid);
    ReachedElsewhere(h, b.mine, b.log[cb.start], b.Live(), mid, s);
    forall k | k in mid && Selected(k, mid[k], g.ns, g.owner)
      ensures k in a.mine
    {
      assert SameAt(k, s0, mid) || SameAt(k, s, mid);
    }
    if Converged(g, a.Live()) {
      ConvergedElsewhere(g, a.mine, a.Live(), mid);
      ConvergedElsewhere(g, a.mine, a.Live(), s);
    }
    if Converged(h, b.Live()) {
      ConvergedElsewhere(h, b.mine, b.Live(), s);
    }
  }

  /** No owner's pass makes an object that another owner's lists select. */
  lemma OwnedStaysInside(g: Goal, h: Goal, s0: Objects, s: Objects, k: Key)
    requires Reached(g, s0, s) && g.owner != h.owner
    requires k in s && Selected(k, s[k], h.ns, h.owner)
    ensures k in s0 && Selected(k, s0[k], h.ns, h.owner)
  {
    assert ReachedAt(g, k, s0, s);
    OwnerLabelsSelect(g.owner);
  }

  /** Where a complete pass ends depends on its own objects only. */
  lemma DeterminedElsewhere(g: Goal, mine: set<Key>, s0: Objects, s: Objects, d0: Objects, d: Objects, k: Key)
    requires Functional(g) && Deletable(s0) && Deletable(s) && Deletable(d)
    requires Reached(g, s0, s) && Converged(g, s) && Reached(g, d0, d) && Converged(g, d)
    requires forall j :: j in mine ==> SameAt(j, s0, d0)
    requires forall j :: Footprint(g, s0, j) || Footprint(g, d0, j) ==> j in mine
    requires k in mine && (k in s || k in d)
    ensures AlikeAt(k, s, d)
  {
    hide Reached, Converged, Functional, Selected;
    var e := Overlay(mine, s0, d);
    forall j
      ensures j in mine ==> SameAt(j, d0, s0) && SameAt(j, d, e)
      ensures j !in mine ==> SameAt(j, s0, e)
    {
      assert j in mine ==> SameAt(j, s0, d0);
    }
    ReachedElsewhere(g, mine, d0, d, s0, e);
    forall j | j in e && Selected(j, e[j], g.ns, g.owner)
      ensures j in mine
    {
      assert j in mine || (SameAt(j, s0, e) && Footprint(g, s0, j));
    }
    ConvergedElsewhere(g, mine, d, e);
    hide Footprint, Overlay;
    DeterminedBoth(g, s0, s, e, k);
  }

  lemma DeletableOf(a: Store, b: Store, p: nat, mid: Objects)
    requires Shared(a, b, p) && Deletable(a.world[p])
    requires mid == Overlay(a.mine, a.world[p], a.world[|a.world| - 1])
    ensures Deletable(mid) && Deletable(a.world[|a.world| - 1])
  {
    hide Selected;
    var (s0, s) := (a.world[p], a.world[|a.world| - 1]);
    LiveIsDeletable(a);
    LiveIsDeletable(b);
    forall k | k in s && s[k].terminating
      ensures s[k].finalizers != {}
    {
      assert k in a.mine ==> SameAt(k, a.log[a.turns[|a.world| - 1]], s);
      assert k in b.mine ==> SameAt(k, b.log[b.turns[|b.world| - 1]], s);
      if k !in a.mine && k !in b.mine {
        NobodyElse(a, b, p, |a.world| - 1, k);
      }
    }
  }

  /** Two syncs that completed on one world, however their calls interleaved, leave what
      any complete run of the first and then of the second leaves, up to UIDs and versions. */
  lemma InterleavingIsSequential(a: Store, b: Store, ca: Course, cb: Course, p: nat, first: Objects, second: Objects)
    requires Shared(a, b, p) && Ran(a, ca, p) && Ran(b, cb, p)
    requires Functional(ca.goal) && Converged(ca.goal, a.Live()) && Functional(cb.goal) && Converged(cb.goal, b.Live())
    requires Reached(ca.goal, a.world[p], first) && Converged(ca.goal, first)
    requires Reached(cb.goal, first, second) && Converged(cb.goal, second)
    requires Deletable(a.world[p]) && Deletable(first) && Deletable(second)
    ensures Alike(a.world[|a.world| - 1], second)
  {
    hide Selected, Reached, OnCourse, Versioned, Mirrors, Accounted, Converged, Functional, Deletable;
    var (g, h) := (ca.goal, cb.goal);
    var (s0, s) := (a.world[p], a.world[|a.world| - 1]);
    var mid := SyncsInSequence(a, b, ca, cb, p);
    RanSaw(a, ca, p);
    RanSaw(b, cb, p);
    DeletableOf(a, b, p, mid);
    forall k
      ensures Footprint(g, s0, k) ==> k in a.mine
      ensures Footprint(h, mid, k) || Footprint(h, first, k) ==> k in b.mine
    {
      InsideAfter(g, h, s0, mid, b.mine, k);
      InsideAfter(g, h, s0, first, b.mine, k);
    }
    forall k
      ensures k !in a.mine ==> SameAt(k, s0, first) && SameAt(k, s0, mid)
      ensures k !in b.mine ==> SameAt(k, first, second) && SameAt(k, mid, s)
    {
      if k !in a.mine {
        ReachedOutside(g, s0, first, k);
        ReachedOutside(g, s0, mid, k);
      }
      if k !in b.mine {
        ReachedOutside(h, first, second, k);
        ReachedOutside(h, mid, s, k);
      }
    }
    forall k | k in s || k in second
      ensures AlikeAt(k, s, second)
    {
      if k in b.mine {
        assert forall j :: j in b.mine ==> SameAt(j, s0, first) && SameAt(j, s0, mid);
        assert forall j :: j in b.mine ==> SameAt(j, mid, first);
        DeterminedElsewhere(h, b.mine, mid, s, first, second, k);
      } else {
        assert SameAt(k, first, second) && SameAt(k, mid, s);
        if k in a.mine {
          DeterminedBoth(g, s0, mid, first, k);
        } else {
          assert SameAt(k, s0, first) && SameAt(k, s0, mid);
        }
      }
    }
  }

  lemma InsideAfter(g: Goal, h: Goal, s0: Objects, s: Objects, mine: set<Key>, k: Key)
    requires Reached(g, s0, s) && g.owner != h.owner
    requires Wanted(h, k) ==> k in mine
    requires k in s0 && Selected(k, s0[k], h.ns, h.owner) ==> k in mine
    ensures Footprint(h, s, k) ==> k in mine
  {
    hide Reached, Selected;
    if k in s && Selected(k, s[k], h.ns, h.owner) {
      OwnedStaysInside(g, h, s0, s, k);
    }
  }

  // ---- footprints of different owners ----

  /** ManagedNamespaces: the name of the owner is the namespace of everything it touches,
      bindings and quotas alike. */
  lemma NamespacesApart(hash: HashFunction, a: string, b: string, refs: seq<Reference>, others: seq<Reference>,
    quotas: seq<QuotaSpec>, otherQuotas: seq<QuotaSpec>, roles: set<string>, s0: Objects, t0: Objects, k: Key)
    requires a != b
    ensures !(Footprint(GoalOf(hash, a, a, refs, roles), s0, k) && Footprint(GoalOf(hash, b, b, others, roles), t0, k))
    ensures !(Footprint(QuotaGoal(a, quotas), s0, k) && Footprint(QuotaGoal(b, otherQuotas), t0, k))
  {
    GoalWants(hash, a, a, refs, roles, k);
    GoalWants(hash, b, b, others, roles, k);
    QuotaWanted(a, quotas, k);
    QuotaWanted(b, otherQuotas, k);
  }

  /** The names generated for one owner from (subject key, role) pairs. */
  predicate NamedFor(hash: HashFunction, owner: string, pairs: set<(string, string)>, k: Key) {
    exists p :: p in pairs && k.name == BindingName(hash, owner, p.0, p.1)
  }

  /** Every key of the footprint has a name generated for its owner from `pairs`. */
  ghost predicate AtHome(hash: HashFunction, g: Goal, s0: Objects, pairs: set<(string, string)>) {
    && NulFree(g.owner)
    && (forall p :: p in pairs ==> NulFree(p.0))
    && (forall k :: Footprint(g, s0, k) ==> NamedFor(hash, g.owner, pairs, k))
  }

  /** Passes keep it so: whatever a pass owns has such a name if all did when it began. */
  lemma AtHomeKept(hash: HashFunction, g: Goal, s0: Objects, s: Objects, pairs: set<(string, string)>)
    requires AtHome(hash, g, s0, pairs) && Reached(g, s0, s)
    ensures AtHome(hash, g, s, pairs)
  {
    hide NamedFor, Selected;
    forall k | Footprint(g, s, k)
      ensures NamedFor(hash, g.owner, pairs, k)
    {
      if !Wanted(g, k) {
        assert ReachedAt(g, k, s0, s);
        SameLabelsSelected(k, s0[k], s[k], g.ns, g.owner);
      }
      assert Footprint(g, s0, k);
    }
  }

  lemma SameLabelsSelected(k: Key, a: Object, b: Object, ns: string, owner: string)
    requires a.labels == b.labels
    ensures Selected(k, a, ns, owner) <==> Selected(k, b, ns, owner)
  {
  }

  /** So do passes of other owners. */
  lemma AtHomeBeside(hash: HashFunction, g: Goal, h: Goal, s0: Objects, s: Objects, pairs: set<(string, string)>)
    requires AtHome(hash, h, s0, pairs) && Reached(g, s0, s) && g.owner != h.owner
    ensures AtHome(hash, h, s, pairs)
  {
    hide NamedFor, Selected, Reached;
    forall k | Footprint(h, s, k)
      ensures Footprint(h, s0, k)
    {
      if !Wanted(h, k) {
        OwnedStaysInside(g, h, s0, s, k);
      }
    }
  }

  /** ClusterAccessMappings share one name space: names of different owners differ
      unless the digits a name keeps collide. */
  lemma {:induction false} NamesApart(hash: HashFunction, g: Goal, h: Goal, s0: Objects, t0: Objects,
    pairs: set<(string, string)>, others: set<(string, string)>, k: Key)
    requires g.owner != h.owner && AtHome(hash, g, s0, pairs) && AtHome(hash, h, t0, others)
    requires forall p, q :: p in pairs && q in others ==>
      !PrefixCollision(hash, Preimage(g.owner, p.0, p.1), Preimage(h.owner, q.0, q.1))
    ensures !(Footprint(g, s0, k) && Footprint(h, t0, k))
  {
    hide Footprint, Hash;
    if Footprint(g, s0, k) && Footprint(h, t0, k) {
      assert NamedFor(hash, g.owner, pairs, k) && NamedFor(hash, h.owner, others, k);
      var p :| p in pairs && k.name == BindingName(hash, g.owner, p.0, p.1);
      var q :| q in others && k.name == BindingName(hash, h.owner, q.0, q.1);
      var (x, y) := (Preimage(g.owner, p.0, p.1), Preimage(h.owner, q.0, q.1));
      assert k.name[5..] == Hash(hash, x)[..20] && k.name[5..] == Hash(hash, y)[..20];
      assert !PrefixCollision(hash, x, y);
      PreimageInjective(g.owner, p.0, p.1, h.owner, q.0, q.1);
    }
  }
}
