/** What both reconcilers do to the objects they own: create or update the wanted
    ones, replace a binding whose roleRef cannot be corrected, prune the others,
    and delete all of them when the owner goes. */
module Upkeep {
  import opened Cluster

  datatype Want = Want(key: Key, content: Content)

  /** What one owner's spec asks of one kind of object, given the ClusterRoles that
      exist. Two wants with one key are a name collision. */
  datatype Goal = Goal(ns: string, owner: string, wants: set<Want>)

  ghost predicate Wanted(g: Goal, k: Key) {
    exists w :: w in g.wants && w.key == k
  }

  ghost predicate Functional(g: Goal) {
    forall w, v :: w in g.wants && v in g.wants && w.key == v.key ==> w == v
  }

  predicate Granted(g: Goal, k: Key, o: Object) {
    o.labels == OwnerLabels(g.owner) && Want(k, o.content) in g.wants
  }

  ghost predicate Done(g: Goal, k: Key, s: Objects) {
    k in s && Granted(g, k, s[k])
  }

  /** Every want for `k` could be met by updating `o` in place. */
  ghost predicate RightRef(g: Goal, k: Key, o: Object) {
    forall w :: w in g.wants && w.key == k ==> SameRef(w.content, o.content)
  }

  /** No binding holds the name `k` with a roleRef that has to be replaced. */
  ghost predicate Correctable(g: Goal, k: Key, s: Objects) {
    k in s ==> RightRef(g, k, s[k])
  }

  /** The same object, granting the same; it may have started terminating. */
  predicate Kept(a: Object, b: Object) {
    && a.uid == b.uid && a.labels == b.labels && a.content == b.content && a.finalizers == b.finalizers
    && (a.terminating ==> b.terminating)
  }

  /** The same object, as it was or as it is wanted, and not asked to go. */
  ghost predicate Retained(g: Goal, k: Key, a: Object, b: Object) {
    && a.uid == b.uid && a.finalizers == b.finalizers && a.terminating == b.terminating
    && SameRef(a.content, b.content)
    && ((a.labels == b.labels && a.content == b.content) || Granted(g, k, b))
  }

  /** What a pass may have made of `s0` by the time the state is `s`, however far
      it got: others' objects are untouched; nothing unwanted is new or changed; a
      wanted name holds what it held or what is wanted of it; an object with finalizers
      of its own is still there; and one that could be corrected in place is retained. */
  ghost predicate Reached(g: Goal, s0: Objects, s: Objects) {
    forall k :: k in s0 || k in s ==> ReachedAt(g, k, s0, s)
  }

  ghost predicate ReachedAt(g: Goal, k: Key, s0: Objects, s: Objects) {
    && (k in s0 && !Wanted(g, k) && !Selected(k, s0[k], g.ns, g.owner) ==> k in s && s[k] == s0[k])
    && (k in s && !Wanted(g, k) ==> k in s0 && Kept(s0[k], s[k]))
    && (k in s && Wanted(g, k) ==> (k in s0 && Kept(s0[k], s[k])) || Granted(g, k, s[k]))
    && (k in s && s[k].finalizers != {} ==> k in s0 && s[k].finalizers == s0[k].finalizers)
    && (k in s0 && s0[k].finalizers != {} ==>
      k in s && s[k].finalizers == s0[k].finalizers && SameRef(s0[k].content, s[k].content))
    && (k in s0 && Wanted(g, k) && RightRef(g, k, s0[k]) ==> k in s && Retained(g, k, s0[k], s[k]))
  }

  /** Unwanted objects only disappear. */
  ghost predicate Shrunk(g: Goal, s: Objects, t: Objects) {
    forall k :: k in t && !Wanted(g, k) ==> k in s && Kept(s[k], t[k])
  }

  /** No wanted name comes to be held by a binding that has to be replaced. */
  ghost predicate Mended(g: Goal, s: Objects, t: Objects) {
    Functional(g) ==> forall k :: Wanted(g, k) && Correctable(g, k, s) ==> Correctable(g, k, t)
  }

  /** The states from `start` on are those of one pass towards `g`. */
  ghost predicate Pass(g: Goal, log: seq<Objects>, start: nat) {
    && start < |log|
    && (forall i :: start <= i < |log| ==> Reached(g, log[start], log[i]))
    && (forall i, j :: start <= i <= j < |log| ==> Shrunk(g, log[i], log[j]) && Mended(g, log[i], log[j]))
  }

  /** Every object grants what it did when the pass began, or something wanted. */
  ghost predicate Modest(g: Goal, s0: Objects, s: Objects) {
    forall k :: k in s ==> (k in s0 && s[k].content == s0[k].content) || Want(k, s[k].content) in g.wants
  }

  /** A pass under way: its goal, the state it began in, the state the cache showed then,
      the wanted names that no state the cache could show from then on held with a wrong
      roleRef, and the names it may touch: those, and what any such state owned. */
  datatype Course = Course(goal: Goal, start: nat, from: nat, safe: set<Key>, reach: set<Key>) {
    /** The cache had caught up when the pass began. */
    predicate Caught() {
      from == start
    }
  }

  ghost predicate AlwaysCorrectable(g: Goal, k: Key, log: seq<Objects>, from: nat, to: nat) {
    forall j :: from <= j <= to && j < |log| ==> Correctable(g, k, log[j])
  }

  /** The course of a pass that begins now. */
  ghost function CourseOf(g: Goal, log: seq<Objects>, seen: nat): (c: Course)
    requires seen < |log|
    ensures c.goal == g && c.start == |log| - 1 && c.from == seen
  {
    Course(g, |log| - 1, seen,
      set k | k in log[|log| - 1] && Wanted(g, k) && AlwaysCorrectable(g, k, log, seen, |log| - 1),
      (set w | w in g.wants :: w.key)
        + (set j, k | seen <= j < |log| && k in log[j] && Selected(k, log[j][k], g.ns, g.owner) :: k))
  }

  /** A safe name has been retained all along, however far the cache lags. */
  ghost predicate SafeRetained(c: Course, log: seq<Objects>)
    requires c.start < |log|
  {
    forall k :: k in c.safe ==>
      && Wanted(c.goal, k) && k in log[c.start]
      && AlwaysCorrectable(c.goal, k, log, c.from, c.start)
      && (forall i :: c.start <= i < |log| ==> k in log[i] && Retained(c.goal, k, log[c.start][k], log[i][k]))
  }

  /** Whatever the pass may not touch is as it was, however far the cache lags. */
  ghost predicate StaysInReach(c: Course, log: seq<Objects>)
    requires c.start < |log|
  {
    && (forall k :: Wanted(c.goal, k) ==> k in c.reach)
    && (forall j, k :: c.from <= j <= c.start && k in log[j] && Selected(k, log[j][k], c.goal.ns, c.goal.owner) ==>
      k in c.reach)
    && (forall i, k :: c.start <= i < |log| && k !in c.reach ==> SameAt(k, log[c.start], log[i]))
  }

  ghost predicate OnCourse(c: Course, log: seq<Objects>, seen: nat) {
    && c.start < |log| && c.from <= c.start && c.from <= seen && StaysInReach(c, log)
    && (forall i :: c.start <= i < |log| ==> Modest(c.goal, log[c.start], log[i]))
    && SafeRetained(c, log)
    && (c.Caught() ==> Pass(c.goal, log, c.start))
  }

  /** No call asks for the deletion of a safe name, or of one out of reach. */
  ghost predicate SparesSafe(c: Course, kind: Kind, calls: seq<Call>, from: nat) {
    forall i :: from <= i < |calls| && calls[i].kind == kind && calls[i].verb == DELETE ==>
      calls[i].key !in c.safe && calls[i].key in c.reach
  }

  /** No wanted name is held by a binding with a wrong roleRef that will not go. */
  ghost predicate Replaceable(g: Goal, s: Objects) {
    forall k :: Wanted(g, k) && k in s ==> RightRef(g, k, s[k]) || s[k].finalizers == {}
  }

  /** Nothing but unanswered calls can stop this pass from ensuring its bindings. */
  ghost predicate Smooth(c: Course, log: seq<Objects>) {
    c.start < |log| && c.Caught() && Functional(c.goal) && Replaceable(c.goal, log[c.start])
  }

  /** What could be replaced at first still can. */
  lemma StaysReplaceable(g: Goal, s0: Objects, s: Objects)
    requires Reached(g, s0, s) && Functional(g) && Replaceable(g, s0)
    ensures Replaceable(g, s)
  {
    forall k | Wanted(g, k) && k in s && s[k].finalizers != {}
      ensures RightRef(g, k, s[k])
    {
      assert ReachedAt(g, k, s0, s);
      forall w | w in g.wants && w.key == k
        ensures SameRef(w.content, s[k].content)
      {
        SameRefTrans(w.content, s0[k].content, s[k].content);
        SameRefTrans(s0[k].content, s[k].content, w.content);
      }
    }
  }

  /** And a complete pass over a store where one could not be is impossible. */
  lemma ReplaceableNeeded(g: Goal, s0: Objects, s: Objects)
    requires Reached(g, s0, s) && Functional(g) && forall k :: Wanted(g, k) ==> Done(g, k, s)
    ensures Replaceable(g, s0)
  {
    forall k | Wanted(g, k) && k in s0 && s0[k].finalizers != {}
      ensures RightRef(g, k, s0[k])
    {
      assert ReachedAt(g, k, s0, s) && Done(g, k, s);
      GrantedIsRight(g, k, s[k]);
      forall w | w in g.wants && w.key == k
        ensures SameRef(w.content, s0[k].content)
      {
        SameRefTrans(s0[k].content, s[k].content, w.content);
        SameRefTrans(w.content, s[k].content, s0[k].content);
      }
    }
  }

  lemma SmoothNow(c: Course, log: seq<Objects>, seen: nat)
    requires OnCourse(c, log, seen) && Smooth(c, log)
    ensures Replaceable(c.goal, log[|log| - 1])
  {
    hide Reached, Replaceable, Functional, Shrunk, Mended, SafeRetained, StaysInReach, Modest;
    assert Reached(c.goal, log[c.start], log[|log| - 1]);
    StaysReplaceable(c.goal, log[c.start], log[|log| - 1]);
  }

  /** What the store has to be for a pass towards `g`: all it is about is the owner's own. */
  ghost predicate Serves(api: Store, g: Goal) {
    api.ns == g.ns && api.owner == g.owner && forall k :: Wanted(g, k) ==> k in api.mine
  }

  /** `k` is as it was when the pass began. */
  ghost predicate Fresh(k: Key, log: seq<Objects>, start: nat) {
    forall i :: start <= i < |log| ==> SameAt(k, log[start], log[i])
  }

  /** No state of the pass shows `k` as done unless it still is: a lagging read
      cannot mistake a lost object for a finished one. */
  ghost predicate Calm(g: Goal, k: Key, log: seq<Objects>, start: nat)
    requires start < |log|
  {
    forall i :: start <= i < |log| && Done(g, k, log[i]) ==> Done(g, k, log[|log| - 1])
  }

  /** The new states of `l1` differ from the last one of `l0` at `k` only. */
  ghost predicate Confined(k: Key, l0: seq<Objects>, l1: seq<Objects>)
    requires |l0| > 0
  {
    && l0 <= l1
    && (forall i :: |l0| <= i < |l1| ==> SameElsewhere(k, l0[|l0| - 1], l1[i]))
  }

  /** The new states of `l1` agree with the last one of `l0` on every wanted name. */
  ghost predicate Spares(g: Goal, l0: seq<Objects>, l1: seq<Objects>)
    requires |l0| > 0
  {
    && l0 <= l1
    && (forall i, k :: |l0| <= i < |l1| && Wanted(g, k) ==> SameAt(k, l0[|l0| - 1], l1[i]))
  }

  /** It was asked to go, and only its own finalizers keep `k` alive. */
  ghost predicate Held(k: Key, s: Objects) {
    k in s ==> s[k].finalizers != {} && s[k].terminating
  }

  /** Every owned object outside `keep` is gone, or waits on its own finalizers. */
  ghost predicate Pruned(g: Goal, keep: set<Key>, s: Objects) {
    forall k :: k in s && Selected(k, s[k], g.ns, g.owner) && k !in keep ==> Held(k, s)
  }

  ghost predicate Tidy(g: Goal, keep: set<Key>, s: Objects) {
    forall k :: k in s && Selected(k, s[k], g.ns, g.owner) ==> k in keep
  }

  /** What a prune, or a deletion pass, calls: one list, then deletes of what is not kept,
      and it goes on only while they are answered. */
  ghost predicate ListThenDeletes(kind: Kind, keep: set<Key>, calls: seq<Call>, from: nat) {
    && from < |calls| && calls[from].kind == kind && calls[from].verb == LIST
    && (forall i :: from < i < |calls| ==> calls[i].kind == kind && calls[i].verb == DELETE && calls[i].key !in keep)
    && (forall i :: from <= i < |calls| - 1 ==> calls[i].error in {None, Some(NotFound)})
  }

  /** Nothing was called but about the object `key`. */
  ghost predicate CallsAbout(kind: Kind, key: Key, calls: seq<Call>, from: nat) {
    forall i :: from <= i < |calls| ==> calls[i].kind == kind && calls[i].key == key && calls[i].verb != LIST
  }

  lemma ListCalled(kind: Kind, keep: set<Key>, calls: seq<Call>, call: Call)
    requires call.kind == kind && call.verb == LIST
    ensures ListThenDeletes(kind, keep, calls + [call], |calls|)
  {
  }

  lemma DeleteListed(kind: Kind, keep: set<Key>, calls: seq<Call>, from: nat, call: Call)
    requires ListThenDeletes(kind, keep, calls, from) && calls[|calls| - 1].error in {None, Some(NotFound)}
    requires call.kind == kind && call.verb == DELETE && call.key !in keep
    ensures ListThenDeletes(kind, keep, calls + [call], from)
  {
  }

  lemma SameRefTrans(a: Content, b: Content, c: Content)
    ensures SameRef(a, a) && (SameRef(a, b) ==> SameRef(b, a) && (SameRef(b, c) <==> SameRef(a, c)))
  {
  }

  lemma CourseStart(g: Goal, log: seq<Objects>, seen: nat)
    requires seen < |log|
    ensures OnCourse(CourseOf(g, log, seen), log, seen)
  {
    hide Selected, RightRef, Granted, Correctable;
    var s := log[|log| - 1];
    assert Reached(g, s, s);
    assert Shrunk(g, s, s);
    assert Mended(g, s, s);
  }

  lemma SafeExtend(c: Course, log: seq<Objects>, t: Objects)
    requires c.start < |log| && SafeRetained(c, log)
    requires forall k :: k in c.safe && k in log[|log| - 1] ==> k in t && Retained(c.goal, k, log[|log| - 1][k], t[k])
    ensures SafeRetained(c, log + [t])
  {
    hide Correctable, Wanted;
    var l: seq<Objects> := log + [t];
    forall k | k in c.safe
      ensures AlwaysCorrectable(c.goal, k, l, c.from, c.start)
      ensures forall i :: c.start <= i < |l| ==> k in l[i] && Retained(c.goal, k, l[c.start][k], l[i][k])
    {
      var (a, b) := (log[c.start][k], log[|log| - 1][k]);
      assert Retained(c.goal, k, a, b) && Retained(c.goal, k, b, t[k]);
      SameRefTrans(a.content, b.content, t[k].content);
      assert Retained(c.goal, k, a, t[k]);
      forall j | c.from <= j <= c.start && j < |l|
        ensures Correctable(c.goal, k, l[j])
      {
        assert l[j] == log[j];
      }
    }
  }

  lemma ReachExtend(c: Course, log: seq<Objects>, k: Key, t: Objects)
    requires c.start < |log| && StaysInReach(c, log) && SameElsewhere(k, log[|log| - 1], t) && k in c.reach
    ensures StaysInReach(c, log + [t])
  {
    hide Selected, Wanted;
    var l: seq<Objects> := log + [t];
    forall i, j | c.start <= i < |l| && j !in c.reach
      ensures SameAt(j, l[c.start], l[i])
    {
      assert SameAt(j, log[c.start], log[|log| - 1]);
      if i < |log| {
        assert SameAt(j, log[c.start], log[i]);
      } else {
        assert SameAt(j, log[|log| - 1], t);
      }
    }
  }

  /** What a list shows during a pass, however late, is in its reach. */
  lemma ListedInReach(c: Course, log: seq<Objects>, seen: nat, k: Key)
    requires c.start < |log| && StaysInReach(c, log) && c.from <= seen < |log| && c.from <= c.start
    requires k in log[seen] && Selected(k, log[seen][k], c.goal.ns, c.goal.owner)
    ensures k in c.reach
  {
    var later := if seen <= c.start then c.start else seen;
    assert k in c.reach || SameAt(k, log[c.start], log[later]);
  }

  lemma OnCourseLater(c: Course, log: seq<Objects>, seen: nat, now: nat)
    requires OnCourse(c, log, seen) && seen <= now
    ensures OnCourse(c, log, now)
  {
  }

  lemma PassExtend(g: Goal, log: seq<Objects>, start: nat, s: Objects)
    requires Pass(g, log, start)
    requires Reached(g, log[start], s) && Shrunk(g, log[|log| - 1], s) && Mended(g, log[|log| - 1], s)
    ensures Pass(g, log + [s], start)
  {
    hide Correctable;
    var l: seq<Objects> := log + [s];
    forall i, j | start <= i <= j < |l|
      ensures Shrunk(g, l[i], l[j]) && Mended(g, l[i], l[j])
    {
      if j == |log| && i < |log| {
        assert Shrunk(g, log[i], log[|log| - 1]) && Mended(g, log[i], log[|log| - 1]);
      }
    }
  }

  lemma GrantedIsRight(g: Goal, k: Key, o: Object)
    requires Functional(g) && Granted(g, k, o)
    ensures RightRef(g, k, o)
  {
    forall w | w in g.wants && w.key == k
      ensures SameRef(w.content, o.content)
    {
      assert w == Want(k, o.content);
    }
  }

  /** Writing what is wanted leaves nothing to replace. */
  lemma WriteMends(g: Goal, k: Key, s: Objects, t: Objects)
    requires SameElsewhere(k, s, t) && k in t && Granted(g, k, t[k])
    ensures Mended(g, s, t)
  {
    if Functional(g) {
      GrantedIsRight(g, k, t[k]);
      forall j | Correctable(g, j, s)
        ensures Correctable(g, j, t)
      {
        if j != k {
          assert SameAt(j, s, t);
        }
      }
    }
  }

  /** A step at one key is judged at that key. */
  lemma ReachedStep(g: Goal, s0: Objects, s: Objects, t: Objects, k: Key)
    requires Reached(g, s0, s) && SameElsewhere(k, s, t) && ReachedAt(g, k, s0, t)
    ensures Reached(g, s0, t)
  {
    hide Wanted, Selected, RightRef, Kept, Granted, Retained;
    forall j | j in s0 || j in t
      ensures ReachedAt(g, j, s0, t)
    {
      assert j == k || (SameAt(j, s, t) && ReachedAt(g, j, s0, s));
    }
  }

  lemma DeleteReached(g: Goal, s0: Objects, s: Objects, k: Key, version: nat)
    requires Reached(g, s0, s)
    requires !Wanted(g, k) && k in s0 ==> Selected(k, s0[k], g.ns, g.owner)
    requires Wanted(g, k) && k in s0 ==> !RightRef(g, k, s0[k])
    ensures Reached(g, s0, Deleted(s, k, version)) && Shrunk(g, s, Deleted(s, k, version))
  {
    hide Selected, RightRef;
    var t := Deleted(s, k, version);
    assert k in s0 || k in s ==> ReachedAt(g, k, s0, s);
    ReachedStep(g, s0, s, t, k);
  }

  lemma DeleteMends(g: Goal, s: Objects, k: Key, version: nat)
    ensures Mended(g, s, Deleted(s, k, version))
  {
    var t := Deleted(s, k, version);
    forall j | Correctable(g, j, s)
      ensures Correctable(g, j, t)
    {
      assert j in t ==> j in s && t[j].content == s[j].content;
    }
  }

  lemma SafeUntouched(c: Course, s: Objects, t: Objects)
    requires forall k :: k in c.safe && k in s ==> k in t && t[k] == s[k]
    ensures forall k :: k in c.safe && k in s ==> k in t && Retained(c.goal, k, s[k], t[k])
  {
  }

  /** Deleting an unwanted owned object, or one whose roleRef is wrong, stays on course. */
  lemma DeleteStep(c: Course, log: seq<Objects>, seen: nat, k: Key, version: nat)
    requires OnCourse(c, log, seen)
    requires c.Caught() && !Wanted(c.goal, k) && k in log[c.start] ==>
      Selected(k, log[c.start][k], c.goal.ns, c.goal.owner)
    requires c.Caught() && Wanted(c.goal, k) && k in log[c.start] ==> !RightRef(c.goal, k, log[c.start][k])
    requires k !in c.safe && k in c.reach
    ensures OnCourse(c, log + [Deleted(log[|log| - 1], k, version)], seen)
  {
    hide Reached, Shrunk, Selected, RightRef, Wanted, SafeRetained, Retained, StaysInReach;
    var last := log[|log| - 1];
    assert Modest(c.goal, log[c.start], last);
    ReachExtend(c, log, k, Deleted(last, k, version));
    SafeUntouched(c, last, Deleted(last, k, version));
    SafeExtend(c, log, Deleted(last, k, version));
    if c.Caught() {
      assert Reached(c.goal, log[c.start], last);
      DeleteReached(c.goal, log[c.start], last, k, version);
      DeleteMends(c.goal, last, k, version);
      PassExtend(c.goal, log, c.start, Deleted(last, k, version));
    }
  }

  /** `t` is `s` after a create or update of what `w` asks for. */
  ghost predicate Written(g: Goal, s: Objects, t: Objects, w: Want) {
    && SameElsewhere(w.key, s, t) && w.key in t
    && t[w.key].labels == OwnerLabels(g.owner) && t[w.key].content == w.content
    && if w.key !in s then t[w.key].finalizers == {}
      else
        && t[w.key].uid == s[w.key].uid && t[w.key].finalizers == s[w.key].finalizers
        && t[w.key].terminating == s[w.key].terminating && SameRef(s[w.key].content, w.content)
  }

  lemma WriteReached(g: Goal, s0: Objects, s: Objects, t: Objects, w: Want)
    requires Reached(g, s0, s) && w in g.wants && Written(g, s, t, w)
    ensures Reached(g, s0, t) && Shrunk(g, s, t)
  {
    hide Selected, RightRef;
    var k := w.key;
    assert Wanted(g, k) && Granted(g, k, t[k]);
    assert k in s0 || k in s ==> ReachedAt(g, k, s0, s);
    ReachedStep(g, s0, s, t, k);
    forall j | j in t && !Wanted(g, j)
      ensures j in s && Kept(s[j], t[j])
    {
      assert SameAt(j, s, t);
    }
  }

  lemma WriteSafe(c: Course, s: Objects, t: Objects, w: Want)
    requires w in c.goal.wants && Written(c.goal, s, t, w)
    ensures forall k :: k in c.safe && k in s ==> k in t && Retained(c.goal, k, s[k], t[k])
  {
    forall k | k in c.safe && k in s
      ensures k in t && Retained(c.goal, k, s[k], t[k])
    {
      assert k == w.key || SameAt(k, s, t);
    }
  }

  lemma WantedInReach(c: Course, log: seq<Objects>, w: Want)
    requires c.start < |log| && StaysInReach(c, log) && w in c.goal.wants
    ensures w.key in c.reach
  {
    assert Wanted(c.goal, w.key);
  }

  lemma WriteStep(c: Course, log: seq<Objects>, seen: nat, w: Want, t: Objects)
    requires OnCourse(c, log, seen) && w in c.goal.wants && Written(c.goal, log[|log| - 1], t, w)
    ensures OnCourse(c, log + [t], seen)
  {
    WantedInReach(c, log, w);
    hide Reached, Shrunk, Mended, SafeRetained, Retained, StaysInReach;
    var last := log[|log| - 1];
    assert Modest(c.goal, log[c.start], last);
    ReachExtend(c, log, w.key, t);
    assert forall j :: j in t && j != w.key ==> SameAt(j, last, t);
    WriteSafe(c, last, t, w);
    SafeExtend(c, log, t);
    if c.Caught() {
      assert Reached(c.goal, log[c.start], last);
      WriteReached(c.goal, log[c.start], last, t, w);
      WriteMends(c.goal, w.key, last, t);
      PassExtend(c.goal, log, c.start, t);
    }
  }

  /** The object `w` asks for is in place once a create or update of it was accepted. */
  lemma WriteDone(g: Goal, log: seq<Objects>, start: nat, w: Want, s: Objects)
    requires start < |log| && w in g.wants && w.key in s
    requires s[w.key].labels == OwnerLabels(g.owner) && s[w.key].content == w.content
    requires SameElsewhere(w.key, log[|log| - 1], s)
    ensures Done(g, w.key, s) && Calm(g, w.key, log + [s], start) && Confined(w.key, log, log + [s])
  {
  }

  lemma CreateStep(c: Course, log: seq<Objects>, seen: nat, w: Want, version: nat)
    requires OnCourse(c, log, seen) && w in c.goal.wants && w.key !in log[|log| - 1]
    ensures
      var t := Created(log[|log| - 1], w.key, OwnerLabels(c.goal.owner), w.content, version);
      OnCourse(c, log + [t], seen) && Done(c.goal, w.key, t)
      && Calm(c.goal, w.key, log + [t], c.start) && Confined(w.key, log, log + [t])
  {
    hide Pass, Modest, SafeRetained, StaysInReach;
    var t := Created(log[|log| - 1], w.key, OwnerLabels(c.goal.owner), w.content, version);
    WriteStep(c, log, seen, w, t);
    WriteDone(c.goal, log, c.start, w, t);
  }

  lemma UpdateStep(c: Course, log: seq<Objects>, seen: nat, w: Want, version: nat)
    requires OnCourse(c, log, seen) && w in c.goal.wants && w.key in log[|log| - 1]
    requires SameRef(log[|log| - 1][w.key].content, w.content)
    ensures
      var t := Updated(log[|log| - 1], w.key, OwnerLabels(c.goal.owner), w.content, version);
      OnCourse(c, log + [t], seen) && Done(c.goal, w.key, t)
      && Calm(c.goal, w.key, log + [t], c.start) && Confined(w.key, log, log + [t])
  {
    hide Pass, Modest, SafeRetained, StaysInReach;
    var t := Updated(log[|log| - 1], w.key, OwnerLabels(c.goal.owner), w.content, version);
    WriteStep(c, log, seen, w, t);
    WriteDone(c.goal, log, c.start, w, t);
  }

  /** A read, however late, never shows a correctable object with a wrong roleRef. */
  lemma WrongRefSeen(g: Goal, s0: Objects, s: Objects, w: Want)
    requires Reached(g, s0, s) && w in g.wants && w.key in s && !SameRef(w.content, s[w.key].content)
    ensures w.key in s0 ==> !Correctable(g, w.key, s0)
  {
    var v := Want(w.key, s[w.key].content);
    if w.key in s0 && v in g.wants {
      assert !SameRef(w.content, s0[w.key].content) || !SameRef(v.content, s0[w.key].content);
    }
  }

  /** Nor does it ever show a safe one with a wrong roleRef. */
  lemma WrongRefNotSafe(c: Course, log: seq<Objects>, seen: nat, w: Want)
    requires OnCourse(c, log, seen) && seen < |log| && w in c.goal.wants
    requires w.key in log[seen] && !SameRef(w.content, log[seen][w.key].content)
    ensures w.key !in c.safe
  {
    hide Pass, Modest, Granted, StaysInReach;
    if w.key in c.safe {
      assert Correctable(c.goal, w.key, log[if seen <= c.start then seen else c.start]);
      assert seen > c.start ==> Retained(c.goal, w.key, log[c.start][w.key], log[seen][w.key]);
      SameRefTrans(log[c.start][w.key].content, log[seen][w.key].content, w.content);
      assert false;
    }
  }

  /** What the cache shows of `w` decides whether it may have to be replaced, whether
      there is anything to write, and, if its state is calm, whether it is done. */
  lemma SeenOf(c: Course, log: seq<Objects>, seen: nat, w: Want)
    requires OnCourse(c, log, seen) && seen < |log| && w in c.goal.wants
    ensures Functional(c.goal) && (w.key in log[seen] ==> SameRef(log[seen][w.key].content, w.content)) ==>
      Correctable(c.goal, w.key, log[seen])
    ensures Functional(c.goal) && Done(c.goal, w.key, log[seen]) ==>
      w.key in log[seen] && log[seen][w.key].labels == OwnerLabels(c.goal.owner) && log[seen][w.key].content == w.content
    ensures (c.Caught() && Calm(c.goal, w.key, log, c.start) && w.key in log[seen]
      && log[seen][w.key].labels == OwnerLabels(c.goal.owner) && log[seen][w.key].content == w.content) ==>
      Done(c.goal, w.key, log[|log| - 1])
    ensures Confined(w.key, log, log)
  {
  }

  /** An accepted update was of the version that was read. */
  lemma SameVersion(log: seq<Objects>, clock: nat, seen: nat, k: Key)
    requires Versioned(log, clock) && seen < |log| && k in log[seen] && k in log[|log| - 1]
    requires log[seen][k].version == log[|log| - 1][k].version
    ensures log[seen][k] == log[|log| - 1][k]
  {
  }

  ghost predicate NoDelete(calls: seq<Call>, from: nat) {
    forall i :: from <= i < |calls| ==> calls[i].verb != DELETE
  }

  lemma GetCalled(kind: Kind, key: Key, calls: seq<Call>, from: nat)
    requires |calls| == from + 1 && calls[from].kind == kind && calls[from].verb == GET && calls[from].key == key
    ensures CallsAbout(kind, key, calls, from) && OnlyReads(calls, from) && NoDelete(calls, from)
  {
  }

  lemma NoDeleteTrans(calls: seq<Call>, more: seq<Call>, from: nat)
    requires NoDelete(calls, from) && NoDelete(more, |calls|) && calls <= more && from <= |calls|
    ensures NoDelete(more, from)
  {
    assert forall i :: from <= i < |calls| ==> more[i] == calls[i];
  }

  lemma WriteCalled(calls: seq<Call>, from: nat)
    requires from < |calls| && calls[|calls| - 1].verb in {CREATE, UPDATE, DELETE}
    ensures !OnlyReads(calls, from)
  {
  }

  lemma StillWritten(calls: seq<Call>, more: seq<Call>, from: nat)
    requires !OnlyReads(calls, from) && calls <= more
    ensures !OnlyReads(more, from)
  {
    var i :| from <= i < |calls| && calls[i].verb !in {GET, LIST};
    assert more[i] == calls[i];
  }

  /** From `l0` to `l1` what `key` was wanted to be was written, or nothing was. */
  ghost predicate Wrote(c: Course, key: Key, l0: seq<Objects>, l1: seq<Objects>, seen: nat) {
    && c.start < |l0| && OnCourse(c, l1, seen) && Confined(key, l0, l1)
    && (l1 == l0 || (Done(c.goal, key, l1[|l1| - 1]) && Calm(c.goal, key, l1, c.start)))
  }

  lemma WroteNothing(c: Course, key: Key, log: seq<Objects>, seen: nat)
    requires OnCourse(c, log, seen)
    ensures Wrote(c, key, log, log, seen)
  {
  }

  lemma WroteCreated(c: Course, log: seq<Objects>, seen: nat, w: Want, version: nat)
    requires OnCourse(c, log, seen) && w in c.goal.wants && w.key !in log[|log| - 1]
    ensures
      Wrote(c, w.key, log, log + [Created(log[|log| - 1], w.key, OwnerLabels(c.goal.owner), w.content, version)], seen)
  {
    hide OnCourse;
    StartsBefore(c, log, seen);
    CreateStep(c, log, seen, w, version);
  }

  lemma WroteUpdated(c: Course, log: seq<Objects>, seen: nat, w: Want, version: nat)
    requires OnCourse(c, log, seen) && w in c.goal.wants && w.key in log[|log| - 1]
    requires SameRef(log[|log| - 1][w.key].content, w.content)
    ensures
      Wrote(c, w.key, log, log + [Updated(log[|log| - 1], w.key, OwnerLabels(c.goal.owner), w.content, version)], seen)
  {
    hide OnCourse;
    StartsBefore(c, log, seen);
    UpdateStep(c, log, seen, w, version);
  }

  lemma WroteGives(c: Course, key: Key, l0: seq<Objects>, l1: seq<Objects>, seen: nat)
    requires Wrote(c, key, l0, l1, seen)
    ensures c.start < |l0| && l0 <= l1 && OnCourse(c, l1, seen) && Confined(key, l0, l1)
    ensures l1 != l0 ==> Done(c.goal, key, l1[|l1| - 1]) && Calm(c.goal, key, l1, c.start)
  {
    hide OnCourse;
  }

  /** The one call made since was a create or an update of `key`. */
  predicate OneWrite(kind: Kind, key: Key, calls: seq<Call>, more: seq<Call>) {
    && calls <= more && |more| == |calls| + 1
    && more[|calls|].kind == kind && more[|calls|].key == key && more[|calls|].verb in {CREATE, UPDATE}
  }

  lemma OneWriteGives(kind: Kind, key: Key, calls: seq<Call>, more: seq<Call>)
    requires OneWrite(kind, key, calls, more)
    ensures calls <= more && CallsAbout(kind, key, more, |calls|) && NoDelete(more, |calls|) && !OnlyReads(more, |calls|)
  {
    WriteCalled(more, |calls|);
  }

  /** Creates what the cache does not show, or updates the version it shows. */
  method WriteWanted(api: Store, found: Option<Object>, key: Key, owner: string, content: Content, ghost c: Course)
    returns (e: Option<Error>)
    requires api.Valid() && Serves(api, c.goal) && OnCourse(c, api.log, api.seen)
    requires owner == c.goal.owner && Want(key, content) in c.goal.wants
    requires found.Some? <==> key in api.log[api.seen]
    requires found.Some? ==> found.value == api.log[api.seen][key]
    modifies api, api.wire
    ensures api.Valid() && api.seen == old(api.seen) && old(api.log) <= api.log
    ensures Wrote(c, key, old(api.log), api.log, api.seen) && (e.None? ==> api.log != old(api.log))
    ensures Extends(old(api.world), old(api.turns), api.world, api.turns)
    ensures OneWrite(api.kind, key, old(api.wire.calls), api.wire.calls)
    ensures e.None? && Functional(c.goal) ==> Correctable(c.goal, key, api.log[api.seen])
    ensures api.wire.tick == old(api.wire.tick) + 1
    ensures (Answers(api.wire.fates, old(api.wire.tick)) && old(api.seen == |api.log| - 1)
      && old(Correctable(c.goal, key, api.Live()))) ==> e.None?
  {
    hide OnCourse, Versioned, Mirrors, Accounted, Wrote, Correctable, Done, Serves, Extends, Created, Updated, SameRef, Functional;
    ghost var w, log, seen, version := Want(key, content), api.log, api.seen, api.clock + 1;
    ServesWant(api, c.goal, w);
    SeenOf(c, log, seen, w);
    CorrectableRef(c.goal, w, log[|log| - 1]);
    WroteNothing(c, key, log, seen);
    if found.None? {
      e := api.Create(key, OwnerLabels(owner), content);
      if api.log != log {
        WroteCreated(c, log, seen, w, version);
      }
    } else {
      ValidIsVersioned(api);
      e := api.Update(key, found.value, OwnerLabels(owner), content);
      if api.log != log {
        SameVersion(log, version - 1, seen, key);
        WroteUpdated(c, log, seen, w, version);
      }
    }
  }

  /** Get, mutate, then create, or update only if the object differs. */
  method CreateOrUpdate(api: Store, key: Key, owner: string, content: Content, ghost c: Course)
    returns (e: Option<Error>)
    requires api.Valid() && Serves(api, c.goal) && OnCourse(c, api.log, api.seen)
    requires owner == c.goal.owner && Want(key, content) in c.goal.wants
    modifies api, api.wire
    ensures api.Valid() && OnCourse(c, api.log, api.seen) && old(api.seen) <= api.seen
    ensures Extends(old(api.world), old(api.turns), api.world, api.turns)
    ensures Confined(key, old(api.log), api.log) && old(api.wire.calls) <= api.wire.calls
    ensures CallsAbout(api.kind, key, api.wire.calls, |old(api.wire.calls)|)
    ensures NoDelete(api.wire.calls, |old(api.wire.calls)|)
    ensures e.None? && c.Caught() && Functional(c.goal) && old(Calm(c.goal, key, api.log, c.start)) ==>
      Done(c.goal, key, api.Live()) && Calm(c.goal, key, api.log, c.start)
    ensures e.None? && Functional(c.goal) ==> Correctable(c.goal, key, api.log[api.seen])
    ensures old(api.seen == |api.log| - 1 && Done(c.goal, key, api.Live())) && Functional(c.goal) ==>
      OnlyReads(api.wire.calls, |old(api.wire.calls)|)
    ensures OnlyReads(api.wire.calls, |old(api.wire.calls)|) ==> api.log == old(api.log)
    // calls that are all answered are enough, if the object can be corrected in place
    ensures old(api.wire.tick) < api.wire.tick && old(api.wire.calls) < api.wire.calls
    ensures AllPrompt(api.wire.fates, old(api.wire.tick), api.wire.tick) && old(Correctable(c.goal, key, api.Live())) ==>
      e.None?
  {
    hide OnCourse, Versioned, Mirrors, Accounted, Calm, Confined, Correctable, Functional, Done, Serves, Extends;
    hide OnlyReads, CallsAbout, NoDelete, SameRef, AllPrompt, Wrote, OneWrite;
    ghost var w, log, from := Want(key, content), api.log, |api.wire.calls|;
    ServesWant(api, c.goal, w);
    var r := api.Get(key);
    ghost var seen, world, turns, calls, tick := api.seen, api.world, api.turns, api.wire.calls, api.wire.tick;
    OnCourseLater(c, log, old(api.seen), seen);
    SeenOf(c, log, seen, w);
    GetCalled(api.kind, key, calls, from);
    PromptFirst(api.wire.fates, tick - 1, tick);
    PromptFirst(api.wire.fates, tick - 1, tick + 1);
    if r.Err? && r.error != NotFound {
      return Some(r.error);
    }
    if r.Ok? && r.value.labels == OwnerLabels(owner) && r.value.content == content {
      SameRefTrans(content, content, content);
      return None;
    }
    e := WriteWanted(api, if r.Ok? then Some(r.value) else None, key, owner, content, c);
    WroteGives(c, key, log, api.log, seen);
    OneWriteGives(api.kind, key, calls, api.wire.calls);
    NoDeleteSparesSafe(c, api.kind, calls, from);
    ThenAbout(c, api.kind, key, calls, api.wire.calls, from);
    NoDeleteTrans(calls, api.wire.calls, from);
    ExtendsTrans(old(api.world), old(api.turns), world, turns, api.world, api.turns);
  }

  lemma PromptFirst(fates: seq<Fate>, from: nat, to: nat)
    ensures AllPrompt(fates, from, to) && from < to ==> Prompt(fates, from) && Prompt(fates, to - 1)
  {
  }

  lemma CorrectableRef(g: Goal, w: Want, s: Objects)
    requires w in g.wants
    ensures Correctable(g, w.key, s) && w.key in s ==> SameRef(s[w.key].content, w.content)
  {
    if Correctable(g, w.key, s) && w.key in s {
      SameRefTrans(w.content, s[w.key].content, w.content);
    }
  }

  lemma ServesWant(api: Store, g: Goal, w: Want)
    requires Serves(api, g) && w in g.wants
    ensures Wanted(g, w.key) && w.key in api.mine && api.ns == g.ns && api.owner == g.owner
  {
  }

  lemma ValidIsVersioned(api: Store)
    requires api.Valid()
    ensures Versioned(api.log, api.clock)
  {
  }

  lemma SameTrans(k: Key, a: Objects, b: Objects, c: Objects)
    requires SameElsewhere(k, a, b) && SameElsewhere(k, b, c)
    ensures SameElsewhere(k, a, c)
  {
    forall j | j != k
      ensures SameAt(j, a, c)
    {
      assert SameAt(j, a, b) && SameAt(j, b, c);
    }
  }

  lemma ConfinedTrans(k: Key, l0: seq<Objects>, l1: seq<Objects>, l2: seq<Objects>)
    requires |l0| > 0 && Confined(k, l0, l1) && |l1| > 0 && Confined(k, l1, l2)
    ensures Confined(k, l0, l2) && l0 <= l1 <= l2
  {
    assert |l0| < |l1| ==> SameElsewhere(k, l0[|l0| - 1], l1[|l1| - 1]);
    forall i | |l0| <= i < |l2|
      ensures SameElsewhere(k, l0[|l0| - 1], l2[i])
    {
      if i < |l1| {
        assert l2[i] == l1[i];
      } else {
        SameTrans(k, l0[|l0| - 1], l1[|l1| - 1], l2[i]);
      }
    }
  }

  lemma ConfinedGrows(k: Key, l0: seq<Objects>, l1: seq<Objects>)
    requires |l0| > 0 && Confined(k, l0, l1)
    ensures l0 <= l1
  {
  }

  /** Deleting an object this pass has not yet touched, for its roleRef, hides nothing. */
  lemma CalmReplacement(g: Goal, log: seq<Objects>, start: nat, w: Want, seen: nat, version: nat)
    requires start <= seen < |log| && Fresh(w.key, log, start) && Functional(g) && w in g.wants
    requires w.key in log[seen] && !SameRef(w.content, log[seen][w.key].content)
    ensures Calm(g, w.key, log + [Deleted(log[|log| - 1], w.key, version)], start)
    ensures Confined(w.key, log, log + [Deleted(log[|log| - 1], w.key, version)])
  {
    var l: seq<Objects> := log + [Deleted(log[|log| - 1], w.key, version)];
    assert SameAt(w.key, log[start], log[seen]) && SameAt(w.key, log[start], log[|log| - 1]);
    forall i | start <= i < |l| && w.key in l[i]
      ensures !Granted(g, w.key, l[i][w.key])
    {
      assert i < |log| ==> SameAt(w.key, log[start], log[i]);
      assert l[i][w.key].content == log[seen][w.key].content;
    }
  }

  /** A binding seen with a wrong roleRef may be deleted. */
  lemma ReplaceStep(c: Course, log: seq<Objects>, seen: nat, w: Want, version: nat)
    requires OnCourse(c, log, seen) && seen < |log| && w in c.goal.wants
    requires w.key in log[seen] && !SameRef(w.content, log[seen][w.key].content)
    ensures OnCourse(c, log + [Deleted(log[|log| - 1], w.key, version)], seen)
    ensures Confined(w.key, log, log + [Deleted(log[|log| - 1], w.key, version)])
    ensures !Correctable(c.goal, w.key, log[seen]) && w.key !in c.safe && w.key in c.reach
    ensures c.Caught() && Functional(c.goal) && Fresh(w.key, log, c.start) ==>
      Calm(c.goal, w.key, log + [Deleted(log[|log| - 1], w.key, version)], c.start)
  {
    hide Pass, Modest, SafeRetained, StaysInReach, Calm, Fresh, Confined;
    WrongRefNotSafe(c, log, seen, w);
    WantedInReach(c, log, w);
    if c.Caught() {
      PassReached(c.goal, log, c.start, seen);
      WrongRefSeen(c.goal, log[c.start], log[seen], w);
    }
    DeleteStep(c, log, seen, w.key, version);
    ReplaceConfined(w.key, log, version);
    if c.Caught() && Functional(c.goal) && Fresh(w.key, log, c.start) {
      CalmReplacement(c.goal, log, c.start, w, seen, version);
    }
  }

  lemma PassReached(g: Goal, log: seq<Objects>, start: nat, i: nat)
    requires Pass(g, log, start) && start <= i < |log|
    ensures Reached(g, log[start], log[i])
  {
  }

  lemma ReplaceConfined(k: Key, log: seq<Objects>, version: nat)
    requires |log| > 0
    ensures Confined(k, log, log + [Deleted(log[|log| - 1], k, version)])
  {
  }

  lemma PruneStep(c: Course, log: seq<Objects>, seen: nat, k: Key, version: nat)
    requires OnCourse(c, log, seen) && seen < |log| && !Wanted(c.goal, k)
    requires k in log[seen] && Selected(k, log[seen][k], c.goal.ns, c.goal.owner)
    ensures OnCourse(c, log + [Deleted(log[|log| - 1], k, version)], seen)
    ensures Spares(c.goal, log, log + [Deleted(log[|log| - 1], k, version)]) && k !in c.safe && k in c.reach
  {
    assert k !in c.safe;
    ListedInReach(c, log, seen, k);
    hide SafeRetained, StaysInReach;
    if c.Caught() {
      assert Reached(c.goal, log[c.start], log[seen]);
    }
    DeleteStep(c, log, seen, k, version);
  }

  lemma SparesTrans(g: Goal, l0: seq<Objects>, l1: seq<Objects>, l2: seq<Objects>)
    requires |l0| > 0 && Spares(g, l0, l1) && Spares(g, l1, l2)
    ensures Spares(g, l0, l2) && l0 <= l2
  {
    forall i, k | |l0| <= i < |l2| && Wanted(g, k)
      ensures SameAt(k, l0[|l0| - 1], l2[i])
    {
      assert SameAt(k, l0[|l0| - 1], l1[|l1| - 1]);
      if i < |l1| {
        assert SameAt(k, l0[|l0| - 1], l1[i]);
      }
    }
  }

  /** What was asked to go is held if it is still there. */
  lemma DeleteHolds(s: Objects, k: Key, version: nat)
    ensures Held(k, Deleted(s, k, version)) && forall j :: Held(j, s) ==> Held(j, Deleted(s, k, version))
  {
  }

  /** Whatever owned object is still live was already in the list that was pruned. */
  lemma PruneComplete(c: Course, log: seq<Objects>, seen: nat, keep: set<Key>, items: seq<Item>)
    requires OnCourse(c, log, seen) && c.Caught() && seen < |log|
    requires forall k :: Wanted(c.goal, k) ==> k in keep
    requires Lists(items, log[seen], c.goal.ns, c.goal.owner)
    requires forall i :: 0 <= i < |items| && items[i].key !in keep ==> Held(items[i].key, log[|log| - 1])
    ensures Pruned(c.goal, keep, log[|log| - 1])
  {
    assert Shrunk(c.goal, log[seen], log[|log| - 1]);
  }

  /** Call number `n`, a read, is answered with a binding whose roleRef is not that of
      `content`. */
  ghost predicate Misled(api: Store, n: nat, key: Key, content: Content)
    reads api
  {
    && Shows(api.wire.fates, n, api.at, api.turns)
    && var i := api.turns[api.wire.fates[n].to.value];
    i < |api.log| && var s := api.log[i];
    key in s && !SameRef(content, s[key].content)
  }

  ghost predicate Unheld(k: Key, s: Objects) {
    k in s && s[k].finalizers == {}
  }

  /** `key` was asked to go. */
  ghost predicate DeleteCalled(kind: Kind, key: Key, calls: seq<Call>, from: nat) {
    exists i :: from <= i < |calls| && calls[i].kind == kind && calls[i].verb == DELETE && calls[i].key == key
  }

  /** A roleRef is immutable: a binding that the cache shows with another one is deleted. */
  method Replace(api: Store, key: Key, owner: string, content: Content, ghost c: Course)
    returns (e: Option<Error>)
    requires api.Valid() && Serves(api, c.goal) && OnCourse(c, api.log, api.seen)
    requires owner == c.goal.owner && Want(key, content) in c.goal.wants
    modifies api, api.wire
    ensures api.Valid() && OnCourse(c, api.log, api.seen) && old(api.seen) <= api.seen
    ensures Extends(old(api.world), old(api.turns), api.world, api.turns)
    ensures Confined(key, old(api.log), api.log) && old(api.log) <= api.log && old(api.wire.calls) <= api.wire.calls
    ensures CallsAbout(api.kind, key, api.wire.calls, |old(api.wire.calls)|)
    ensures SparesSafe(c, api.kind, api.wire.calls, |old(api.wire.calls)|)
    ensures c.Caught() && Functional(c.goal) && old(EnsurableCalmly(c, key, api.log, api.seen)) ==>
      Calm(c.goal, key, api.log, c.start)
    ensures old(api.seen == |api.log| - 1 && Done(c.goal, key, api.Live())) && Functional(c.goal) ==>
      OnlyReads(api.wire.calls, |old(api.wire.calls)|)
    ensures OnlyReads(api.wire.calls, |old(api.wire.calls)|) ==> api.log == old(api.log)
    ensures old(api.wire.tick) < api.wire.tick
    ensures AllPrompt(api.wire.fates, old(api.wire.tick), api.wire.tick) && old(Smooth(c, api.log)) ==>
      e.None? && Correctable(c.goal, key, api.Live())
    ensures old(Misled(api, api.wire.tick, key, content)) ==> DeleteCalled(api.kind, key, api.wire.calls, |old(api.wire.calls)|)
    ensures old(Misled(api, api.wire.tick, key, content) && Unheld(key, api.Live())
      && Reaches(api.wire.fates, api.wire.tick + 1)) ==>
      |old(api.log)| < |api.log| && key !in api.log[|old(api.log)|]
  {
    hide OnCourse, Versioned, Mirrors, Accounted, Calm, Fresh, Confined, Correctable, Functional, Done, Serves, Deleted;
    hide Extends, OnlyReads, CallsAbout, NoDelete, SparesSafe, DeleteCalled, AllPrompt, Smooth;
    ghost var tick, fates, w, log, from := api.wire.tick, api.wire.fates, Want(key, content), api.log, |api.wire.calls|;
    ghost var misled, version := Misled(api, tick, key, content), api.clock + 1;
    ServesWant(api, c.goal, w);
    SmoothKeeps(c, log, api.seen, w);
    var r := api.Get(key);
    assert misled ==> r.Ok? && !SameRef(content, r.value.content);
    hide Misled;
    ghost var seen, world, turns, calls := api.seen, api.world, api.turns, api.wire.calls;
    GetCalled(api.kind, key, calls, from);
    NoDeleteSparesSafe(c, api.kind, calls, from);
    PromptFirst(fates, tick, tick + 1);
    StillCorrectable(c, log, old(api.seen), seen, w);
    ReadOf(c, log, old(api.seen), seen, w);
    SeenOf(c, log, seen, w);
    SmoothIsFunctional(c, log);
    e := None;
    if r.Ok? && !SameRef(content, r.value.content) {
      ReplaceStep(c, log, seen, w, version);
      DeletedUnheld(log[|log| - 1], key, version);
      e := api.Delete(key);
      DeleteMade(c, api.kind, key, calls, api.wire.calls, from);
      PromptFirst(fates, tick, tick + 2);
      GoneIsCorrectable(c.goal, key, api.Live());
      ExtendsTrans(old(api.world), old(api.turns), world, turns, api.world, api.turns);
    } else if r.Ok? {
      SameRefTrans(content, r.value.content, content);
    }
  }

  /** A binding with the wrong roleRef is replaced; otherwise it is created or updated. */
  method EnsureBinding(api: Store, key: Key, owner: string, content: Content, ghost c: Course)
    returns (e: Option<Error>)
    requires api.Valid() && Serves(api, c.goal) && OnCourse(c, api.log, api.seen)
    requires owner == c.goal.owner && Want(key, content) in c.goal.wants
    modifies api, api.wire
    ensures api.Valid() && OnCourse(c, api.log, api.seen) && old(api.seen) <= api.seen
    ensures Extends(old(api.world), old(api.turns), api.world, api.turns)
    ensures Confined(key, old(api.log), api.log) && old(api.wire.calls) <= api.wire.calls
    ensures CallsAbout(api.kind, key, api.wire.calls, |old(api.wire.calls)|)
    ensures SparesSafe(c, api.kind, api.wire.calls, |old(api.wire.calls)|)
    ensures e.None? && c.Caught() && Functional(c.goal) && old(EnsurableCalmly(c, key, api.log, api.seen)) ==>
      Done(c.goal, key, api.Live()) && Calm(c.goal, key, api.log, c.start)
    ensures e.None? && Functional(c.goal) ==> Correctable(c.goal, key, api.log[api.seen])
    ensures old(api.seen == |api.log| - 1 && Done(c.goal, key, api.Live())) && Functional(c.goal) ==>
      OnlyReads(api.wire.calls, |old(api.wire.calls)|)
    ensures OnlyReads(api.wire.calls, |old(api.wire.calls)|) ==> api.log == old(api.log)
    // calls that are all answered are enough
    ensures old(api.wire.tick) <= api.wire.tick
    ensures AllPrompt(api.wire.fates, old(api.wire.tick), api.wire.tick) && old(Smooth(c, api.log)) ==> e.None?
    // a read of an older state misleads it
    ensures old(Misled(api, api.wire.tick, key, content)) ==> DeleteCalled(api.kind, key, api.wire.calls, |old(api.wire.calls)|)
    ensures old(Misled(api, api.wire.tick, key, content) && Unheld(key, api.Live())
      && Reaches(api.wire.fates, api.wire.tick + 1)) ==>
      |old(api.log)| < |api.log| && key !in api.log[|old(api.log)|]
  {
    hide OnCourse, Versioned, Mirrors, Accounted, Calm, Fresh, Confined, Correctable, Functional, Done, Serves, Deleted;
    hide Extends, OnlyReads, CallsAbout, NoDelete, SparesSafe, DeleteCalled, AllPrompt, Smooth, Misled, EnsurableCalmly, Unheld;
    ghost var log, from, tick := api.log, |api.wire.calls|, api.wire.tick;
    StartsBefore(c, log, api.seen);
    e := Replace(api, key, owner, content, c);
    if e.Some? {
      return;
    }
    ghost var world, turns, mid, calls, now := api.world, api.turns, api.log, api.wire.calls, api.wire.tick;
    e := CreateOrUpdate(api, key, owner, content, c);
    AllPromptSplits(api.wire.fates, tick, now, api.wire.tick);
    ThenAbout(c, api.kind, key, calls, api.wire.calls, from);
    ExtendsTrans(old(api.world), old(api.turns), world, turns, api.world, api.turns);
    ConfinedTrans(key, log, mid, api.log);
  }

  lemma StartsBefore(c: Course, log: seq<Objects>, seen: nat)
    requires OnCourse(c, log, seen)
    ensures c.start < |log|
  {
  }

  lemma SmoothIsFunctional(c: Course, log: seq<Objects>)
    ensures Smooth(c, log) ==> Functional(c.goal)
  {
  }

  /** In a smooth pass a binding is right, or nothing holds it. */
  lemma SmoothKeeps(c: Course, log: seq<Objects>, seen: nat, w: Want)
    requires OnCourse(c, log, seen) && w in c.goal.wants
    ensures c.start < |log|
    ensures Smooth(c, log) ==> Correctable(c.goal, w.key, log[|log| - 1]) || Unheld(w.key, log[|log| - 1])
  {
    if Smooth(c, log) {
      SmoothNow(c, log, seen);
      assert Wanted(c.goal, w.key);
    }
  }

  lemma GoneIsCorrectable(g: Goal, k: Key, s: Objects)
    ensures k !in s ==> Correctable(g, k, s)
  {
  }

  lemma NoDeleteSparesSafe(c: Course, kind: Kind, calls: seq<Call>, from: nat)
    requires NoDelete(calls, from)
    ensures SparesSafe(c, kind, calls, from)
  {
  }

  lemma DeleteMade(c: Course, kind: Kind, key: Key, calls: seq<Call>, more: seq<Call>, from: nat)
    requires CallsAbout(kind, key, calls, from) && SparesSafe(c, kind, calls, from) && key !in c.safe && key in c.reach
    requires from <= |calls| && calls <= more && |more| == |calls| + 1
    requires more[|calls|].kind == kind && more[|calls|].verb == DELETE && more[|calls|].key == key
    ensures CallsAbout(kind, key, more, from) && SparesSafe(c, kind, more, from)
    ensures DeleteCalled(kind, key, more, from) && !OnlyReads(more, from)
  {
  }

  lemma ThenAbout(c: Course, kind: Kind, key: Key, calls: seq<Call>, more: seq<Call>, from: nat)
    requires CallsAbout(kind, key, calls, from) && SparesSafe(c, kind, calls, from) && from <= |calls|
    requires CallsAbout(kind, key, more, |calls|) && NoDelete(more, |calls|) && calls <= more
    ensures CallsAbout(kind, key, more, from) && SparesSafe(c, kind, more, from)
    ensures DeleteCalled(kind, key, calls, from) ==> DeleteCalled(kind, key, more, from)
    ensures OnlyReads(more, from) <==> OnlyReads(calls, from) && OnlyReads(more, |calls|)
  {
    assert forall i :: from <= i < |calls| ==> more[i] == calls[i];
    if !OnlyReads(calls, from) {
      StillWritten(calls, more, from);
    }
    if DeleteCalled(kind, key, calls, from) {
      var i :| from <= i < |calls| && calls[i].kind == kind && calls[i].verb == DELETE && calls[i].key == key;
      assert more[i] == calls[i];
    }
  }

  /** A read keeps the course, and touches nothing. */
  lemma ReadOf(c: Course, log: seq<Objects>, seen: nat, now: nat, w: Want)
    requires OnCourse(c, log, seen) && seen <= now < |log| && w in c.goal.wants
    ensures OnCourse(c, log, now) && Confined(w.key, log, log) && |log| > 0 && c.start < |log|
    // what is in place has the right roleRef
    ensures Functional(c.goal) && Done(c.goal, w.key, log[now]) ==>
      w.key in log[now] && SameRef(w.content, log[now][w.key].content)
    ensures !Correctable(c.goal, w.key, log[now]) || w.key !in log[now] || SameRef(w.content, log[now][w.key].content)
  {
  }

  lemma DeletedUnheld(s: Objects, k: Key, version: nat)
    ensures Unheld(k, s) ==> Deleted(s, k, version) != s && k !in Deleted(s, k, version)
  {
  }

  /** The object `k` has not been touched yet, or the cache no longer shows a version of
      it that would have to be replaced. */
  ghost predicate EnsurableCalmly(c: Course, k: Key, log: seq<Objects>, seen: nat)
    requires c.start < |log| && seen < |log|
  {
    Calm(c.goal, k, log, c.start) && (Fresh(k, log, c.start) || Correctable(c.goal, k, log[seen]))
  }

  lemma StillCorrectable(c: Course, log: seq<Objects>, seen: nat, now: nat, w: Want)
    requires OnCourse(c, log, seen) && seen <= now < |log| && w in c.goal.wants
    ensures c.Caught() && Functional(c.goal) && Correctable(c.goal, w.key, log[seen]) ==> Correctable(c.goal, w.key, log[now])
  {
    hide Correctable;
    if c.Caught() {
      assert Mended(c.goal, log[seen], log[now]);
    }
  }

  /** What a prune has done and called by the time the log is `log`: one list, then deletes
      of what is not kept, and of no safe name; it goes on only while they are answered. */
  ghost predicate Pruning(c: Course, kind: Kind, keep: set<Key>, l0: seq<Objects>, log: seq<Objects>, calls: seq<Call>, from: nat) {
    && |l0| > 0 && Spares(c.goal, l0, log)
    && ListThenDeletes(kind, keep, calls, from) && calls[|calls| - 1].states == |log|
    && SparesSafe(c, kind, calls, from)
  }

  predicate Answered(calls: seq<Call>) {
    calls != [] && calls[|calls| - 1].error in {None, Some(NotFound)}
  }

  lemma PruningStart(c: Course, kind: Kind, keep: set<Key>, log: seq<Objects>, calls: seq<Call>, call: Call)
    requires |log| > 0 && call.kind == kind && call.verb == LIST && call.states == |log|
    ensures Pruning(c, kind, keep, log, log, calls + [call], |calls|)
  {
  }

  lemma PruningStep(c: Course, kind: Kind, keep: set<Key>, l0: seq<Objects>, log: seq<Objects>, l1: seq<Objects>,
    calls: seq<Call>, from: nat, k: Key, version: nat, e: Option<Error>)
    requires Pruning(c, kind, keep, l0, log, calls, from) && Answered(calls)
    requires !Wanted(c.goal, k) && k !in c.safe && k in c.reach && k !in keep
    requires l1 == log || (|log| > 0 && l1 == log + [Deleted(log[|log| - 1], k, version)])
    ensures Pruning(c, kind, keep, l0, l1, calls + [Call(kind, DELETE, k, |l1|, e)], from) && l0 <= l1
  {
    assert Spares(c.goal, log, l1);
    SparesTrans(c.goal, l0, log, l1);
    DeleteListed(kind, keep, calls, from, Call(kind, DELETE, k, |l1|, e));
  }

  lemma PruningFrom(c: Course, kind: Kind, keep: set<Key>, l0: seq<Objects>, log: seq<Objects>, calls: seq<Call>, from: nat)
    requires Pruning(c, kind, keep, l0, log, calls, from)
    ensures from < |calls|
  {
  }

  /** One delete of a prune. */
  method Revoke(api: Store, k: Key, keep: set<Key>, ghost l0: seq<Objects>, ghost from: nat, ghost c: Course)
    returns (e: Option<Error>)
    requires api.Valid() && OnCourse(c, api.log, api.seen) && k in api.mine
    requires Pruning(c, api.kind, keep, l0, api.log, api.wire.calls, from) && Answered(api.wire.calls)
    requires k !in keep && !Wanted(c.goal, k)
    requires k in api.log[api.seen] && Selected(k, api.log[api.seen][k], c.goal.ns, c.goal.owner)
    modifies api, api.wire
    ensures api.Valid() && OnCourse(c, api.log, api.seen) && api.seen == old(api.seen)
    ensures Extends(old(api.world), old(api.turns), api.world, api.turns)
    ensures old(api.log) <= api.log && old(api.wire.calls) <= api.wire.calls != []
    ensures Pruning(c, api.kind, keep, l0, api.log, api.wire.calls, from)
    ensures api.wire.calls[|api.wire.calls| - 1].error == e && !OnlyReads(api.wire.calls, from)
    ensures e in {None, Some(NotFound)} ==> Held(k, api.Live())
    ensures forall j :: Held(j, old(api.Live())) ==> Held(j, api.Live())
    ensures api.wire.tick == old(api.wire.tick) + 1
    ensures Answers(api.wire.fates, old(api.wire.tick)) ==> e in {None, Some(NotFound)}
  {
    hide OnCourse, Versioned, Mirrors, Accounted, Selected, Pruning, Deleted, Wanted;
    ghost var log, calls, version := api.log, api.wire.calls, api.clock + 1;
    PruneStep(c, log, api.seen, k, version);
    DeleteHolds(log[|log| - 1], k, version);
    e := api.Delete(k);
    PruningFrom(c, api.kind, keep, l0, log, calls, from);
    WriteCalled(api.wire.calls, from);
    PruningStep(c, api.kind, keep, l0, log, api.log, calls, from, k, version, e);
  }

  /** Every listed object is to be kept. */
  predicate AllKept(items: seq<Item>, keep: set<Key>) {
    forall i :: 0 <= i < |items| ==> items[i].key in keep
  }

  /** The deletes of a prune: it calls nothing exactly if everything listed is kept. */
  method RevokeAll(api: Store, items: seq<Item>, keep: set<Key>, ghost l0: seq<Objects>, ghost from: nat, ghost c: Course)
    returns (e: Option<Error>)
    requires api.Valid() && OnCourse(c, api.log, api.seen) && OnlyReads(api.wire.calls, from)
    requires Pruning(c, api.kind, keep, l0, api.log, api.wire.calls, from) && Answered(api.wire.calls)
    requires forall k :: Wanted(c.goal, k) ==> k in keep
    requires forall i :: 0 <= i < |items| ==> items[i].key in api.mine
    requires Lists(items, api.log[api.seen], c.goal.ns, c.goal.owner)
    modifies api, api.wire
    ensures api.Valid() && OnCourse(c, api.log, api.seen) && api.seen == old(api.seen) && old(api.log) <= api.log
    ensures Extends(old(api.world), old(api.turns), api.world, api.turns) && old(api.wire.calls) <= api.wire.calls != []
    ensures Pruning(c, api.kind, keep, l0, api.log, api.wire.calls, from)
    ensures e.Some? ==> api.wire.calls[|api.wire.calls| - 1].error == e != Some(NotFound)
    ensures e.None? ==> forall i :: 0 <= i < |items| && items[i].key !in keep ==> Held(items[i].key, api.Live())
    ensures e.None? ==> Answered(api.wire.calls)
    ensures OnlyReads(api.wire.calls, from) <==> AllKept(items, keep)
    ensures OnlyReads(api.wire.calls, from) ==> api.log == old(api.log)
    ensures old(api.wire.tick) <= api.wire.tick
    ensures AllPrompt(api.wire.fates, old(api.wire.tick), api.wire.tick) ==> e.None?
  {
    hide OnCourse, Versioned, Mirrors, Accounted, Selected, Pruning, Extends, OnlyReads, AllPrompt;
    ghost var tick := api.wire.tick;
    ghost var log, seen, world, turns, g := api.log, api.seen, api.world, api.turns, c.goal;
    assert forall i :: 0 <= i < |items| ==>
      items[i].key in log[seen] && Selected(items[i].key, log[seen][items[i].key], g.ns, g.owner);
    hide Lists;
    assert Extends(world, turns, world, turns) by {
      ExtendsSelf(world, turns);
    }
    for i := 0 to |items|
      invariant api.Valid() && OnCourse(c, api.log, seen) && api.seen == seen && log <= api.log
      invariant Extends(world, turns, api.world, api.turns) && tick <= api.wire.tick
      invariant old(api.wire.calls) <= api.wire.calls && Answered(api.wire.calls)
      invariant Pruning(c, api.kind, keep, l0, api.log, api.wire.calls, from)
      invariant forall j :: 0 <= j < i && items[j].key !in keep ==> Held(items[j].key, api.Live())
      invariant if AllKept(items[..i], keep) then api.log == log && OnlyReads(api.wire.calls, from)
        else !OnlyReads(api.wire.calls, from)
    {
      var k := items[i].key;
      assert items[..i + 1] == items[..i] + [items[i]];
      if k !in keep {
        ghost var w1, t1 := api.world, api.turns;
        e := Revoke(api, k, keep, l0, from, c);
        PromptFirst(api.wire.fates, tick, api.wire.tick);
        ExtendsTrans(world, turns, w1, t1, api.world, api.turns);
        assert items[..i + 1][i].key !in keep;
        if e.Some? && e != Some(NotFound) {
          return;
        }
      }
    }
    assert items[..|items|] == items;
    e := None;
  }

  /** Deletes the owned objects the cache lists whose names are not in `keep`; it stops
      only at a call that failed. */
  method Prune(api: Store, keep: set<Key>, ghost c: Course) returns (e: Option<Error>)
    requires api.Valid() && Serves(api, c.goal) && OnCourse(c, api.log, api.seen)
    requires forall k :: Wanted(c.goal, k) ==> k in keep
    modifies api, api.wire
    ensures api.Valid() && OnCourse(c, api.log, api.seen) && old(api.seen) <= api.seen
    ensures Extends(old(api.world), old(api.turns), api.world, api.turns)
    ensures old(api.wire.calls) <= api.wire.calls
    ensures Pruning(c, api.kind, keep, old(api.log), api.log, api.wire.calls, |old(api.wire.calls)|)
    ensures |api.wire.calls| > 0 && (e.Some? ==> api.wire.calls[|api.wire.calls| - 1].error == e != Some(NotFound))
    ensures e.None? && c.Caught() ==> Pruned(c.goal, keep, api.Live())
    // it calls only reads exactly if nothing is left over
    ensures old(api.seen == |api.log| - 1 && Tidy(c.goal, keep, api.Live())) ==>
      OnlyReads(api.wire.calls, |old(api.wire.calls)|)
    ensures OnlyReads(api.wire.calls, |old(api.wire.calls)|) ==> api.log == old(api.log)
    ensures e.None? && old(api.seen == |api.log| - 1 && !Tidy(c.goal, keep, api.Live())) ==>
      !OnlyReads(api.wire.calls, |old(api.wire.calls)|)
    ensures old(api.wire.tick) < api.wire.tick
    ensures AllPrompt(api.wire.fates, old(api.wire.tick), api.wire.tick) ==> e.None?
    ensures e.None? ==> Answered(api.wire.calls)
  {
    hide OnCourse, Versioned, Mirrors, Accounted, Selected, Pruning, Extends, OnlyReads, AllPrompt;
    ghost var log, from, g, world, turns := api.log, |api.wire.calls|, c.goal, api.world, api.turns;
    ghost var tick := api.wire.tick;
    var r := api.List();
    ghost var seen, w1, t1 := api.seen, api.world, api.turns;
    PromptFirst(api.wire.fates, tick, tick + 1);
    OnCourseLater(c, log, old(api.seen), seen);
    ListIsRead(old(api.wire.calls), api.wire.calls[from]);
    PruningStart(c, api.kind, keep, log, old(api.wire.calls), Call(api.kind, LIST, Key(api.ns, ""), |log|, ErrorOf(r)));
    if r.Err? {
      return Some(r.error);
    }
    var items := r.value;
    assert Tidy(g, keep, log[seen]) <==> AllKept(items, keep);
    e := RevokeAll(api, items, keep, log, from, c);
    AllPromptSplits(api.wire.fates, tick, tick + 1, api.wire.tick);
    ExtendsTrans(world, turns, w1, t1, api.world, api.turns);
    if e.None? && c.Caught() {
      PruneComplete(c, api.log, seen, keep, items);
    }
  }

  lemma ListIsRead(calls: seq<Call>, call: Call)
    requires call.verb == LIST
    ensures OnlyReads(calls + [call], |calls|)
  {
  }

  function Owned(s: Objects, ns: string, owner: string): set<Key> {
    set k | k in s && Selected(k, s[k], ns, owner)
  }

  /** The owned objects whose deletion has not been requested yet. */
  function Active(s: Objects, ns: string, owner: string): set<Key> {
    set k | k in s && Selected(k, s[k], ns, owner) && !s[k].terminating
  }

  /** Objects only went away or started terminating, and only owned ones. */
  ghost predicate Released(s: Objects, t: Objects, ns: string, owner: string) {
    && (forall k :: k in t ==> k in s && Kept(s[k], t[k]))
    && (forall k :: k in s && !Selected(k, s[k], ns, owner) ==> k in t && t[k] == s[k])
  }

  lemma ReleaseShrinks(s: Objects, t: Objects, ns: string, owner: string)
    requires Released(s, t, ns, owner)
    ensures Active(t, ns, owner) <= Active(s, ns, owner)
    ensures Owned(t, ns, owner) <= Owned(s, ns, owner)
  {
  }

  /** Every state from number `from` on, and the last one, has only released objects. */
  ghost predicate AllReleased(s: Objects, log: seq<Objects>, from: nat, ns: string, owner: string) {
    && |log| > 0 && Released(s, log[|log| - 1], ns, owner)
    && (forall i :: from <= i < |log| ==> Released(s, log[i], ns, owner))
  }

  lemma ReleaseNothing(log: seq<Objects>, ns: string, owner: string)
    requires |log| > 0
    ensures AllReleased(log[|log| - 1], log, |log|, ns, owner)
  {
  }

  lemma ReleaseMore(s: Objects, log: seq<Objects>, k: Key, version: nat, from: nat, ns: string, owner: string)
    requires AllReleased(s, log, from, ns, owner) && k in Owned(s, ns, owner) && from <= |log|
    ensures
      var t := Deleted(log[|log| - 1], k, version);
      && AllReleased(s, log + [t], from, ns, owner)
      && Active(t, ns, owner) <= Active(log[|log| - 1], ns, owner) && k !in Active(t, ns, owner)
  {
    hide Released, Active, Owned, Deleted;
    ReleaseStep(s, log[|log| - 1], ns, owner, k, version);
    ReleaseShrinks(log[|log| - 1], Deleted(log[|log| - 1], k, version), ns, owner);
  }

  lemma ReleaseStep(s: Objects, t: Objects, ns: string, owner: string, k: Key, version: nat)
    requires Released(s, t, ns, owner) && k in Owned(s, ns, owner)
    ensures Released(s, Deleted(t, k, version), ns, owner)
    ensures k !in Active(Deleted(t, k, version), ns, owner)
    ensures s[k].terminating ==> k !in Active(t, ns, owner)
    ensures Released(t, Deleted(t, k, version), ns, owner)
  {
    hide Labelled;
  }

  lemma ActiveOf(s: Objects, ns: string, owner: string, k: Key)
    requires k in Owned(s, ns, owner)
    ensures k in s && (k in Active(s, ns, owner) <==> !s[k].terminating)
  {
  }

  /** After a list, deletes of `active` objects only. */
  ghost predicate AsksOnly(active: set<Key>, calls: seq<Call>, from: nat) {
    forall i :: from < i < |calls| ==> calls[i].key in active
  }

  lemma AsksNone(active: set<Key>, calls: seq<Call>, call: Call)
    ensures AsksOnly(active, calls + [call], |calls|)
  {
  }

  lemma AsksOneMore(active: set<Key>, calls: seq<Call>, from: nat, call: Call)
    requires AsksOnly(active, calls, from) && call.key in active
    ensures AsksOnly(active, calls + [call], from)
  {
  }

  /** One delete of a deletion pass that met `s`. */
  method AskToGo(api: Store, k: Key, ghost s: Objects, ghost start: nat, ghost from: nat) returns (e: Option<Error>)
    requires api.Valid() && k in api.mine && k in Owned(s, api.ns, api.owner) && start <= |api.log|
    requires ListThenDeletes(api.kind, {}, api.wire.calls, from) && Answered(api.wire.calls)
    requires k in Active(s, api.ns, api.owner) && AsksOnly(Active(s, api.ns, api.owner), api.wire.calls, from)
    requires AllReleased(s, api.log, start, api.ns, api.owner)
    modifies api, api.wire
    ensures Extends(old(api.world), old(api.turns), api.world, api.turns)
    ensures api.Valid() && api.seen == old(api.seen) && old(api.log) <= api.log && old(api.wire.calls) <= api.wire.calls
    ensures ListThenDeletes(api.kind, {}, api.wire.calls, from) && |api.wire.calls| > 0
    ensures AsksOnly(Active(s, api.ns, api.owner), api.wire.calls, from)
    ensures api.wire.calls[|api.wire.calls| - 1].error == e
    ensures AllReleased(s, api.log, start, api.ns, api.owner)
    ensures Active(api.Live(), api.ns, api.owner) <= old(Active(api.Live(), api.ns, api.owner))
    ensures e in {None, Some(NotFound)} ==> k !in Active(api.Live(), api.ns, api.owner)
  {
    hide Selected, Versioned, Mirrors, Accounted, Deleted, AllReleased, ListThenDeletes, Owned, AsksOnly;
    ghost var calls, version := api.wire.calls, api.clock + 1;
    ReleaseMore(s, api.log, k, version, start, api.ns, api.owner);
    e := api.Delete(k);
    DeleteListed(api.kind, {}, calls, from, Call(api.kind, DELETE, k, |api.log|, e));
    AsksOneMore(Active(s, api.ns, api.owner), calls, from, Call(api.kind, DELETE, k, |api.log|, e));
  }

  /** The deletes of a deletion pass that met `s` and listed `items`. */
  method AskAllToGo(api: Store, items: seq<Item>, ghost s: Objects, ghost start: nat, ghost from: nat)
    returns (gone: Result<bool>)
    requires api.Valid() && start <= |api.log| && from < |api.wire.calls|
    requires ListThenDeletes(api.kind, {}, api.wire.calls, from) && Answered(api.wire.calls)
    requires AllReleased(s, api.log, start, api.ns, api.owner) && s == api.Live()
    requires AsksOnly(Active(s, api.ns, api.owner), api.wire.calls, from)
    requires forall i :: 0 <= i < |items| ==> items[i].key in api.mine
    requires forall i :: 0 <= i < |items| ==>
      items[i].key in Owned(s, api.ns, api.owner) && items[i].state == s[items[i].key]
    requires forall k :: k in Active(s, api.ns, api.owner) ==> exists i :: 0 <= i < |items| && items[i].key == k
    modifies api, api.wire
    ensures api.Valid() && api.seen == old(api.seen) && old(api.log) <= api.log && old(api.wire.calls) <= api.wire.calls != []
    ensures Extends(old(api.world), old(api.turns), api.world, api.turns)
    ensures ListThenDeletes(api.kind, {}, api.wire.calls, from)
    ensures gone.Err? ==> api.wire.calls[|api.wire.calls| - 1].error == Some(gone.error) && gone.error != NotFound
    ensures AllReleased(s, api.log, start, api.ns, api.owner)
    ensures gone.Ok? ==> !gone.value && Active(api.Live(), api.ns, api.owner) == {}
    ensures AsksOnly(Active(s, api.ns, api.owner), api.wire.calls, from)
  {
    hide Selected, Versioned, Mirrors, Accounted, AllReleased, ListThenDeletes, Extends, Owned, AsksOnly;
    ghost var ns, owner, world, turns := api.ns, api.owner, api.world, api.turns;
    ExtendsSelf(world, turns);
    for i := 0 to |items|
      invariant api.Valid() && api.seen == old(api.seen) && old(api.log) <= api.log
      invariant Extends(world, turns, api.world, api.turns)
      invariant old(api.wire.calls) <= api.wire.calls && ListThenDeletes(api.kind, {}, api.wire.calls, from)
      invariant Answered(api.wire.calls) && AsksOnly(Active(s, ns, owner), api.wire.calls, from)
      invariant AllReleased(s, api.log, start, ns, owner) && Active(api.Live(), ns, owner) <= Active(s, ns, owner)
      invariant forall j :: 0 <= j < i ==> items[j].key !in Active(api.Live(), ns, owner)
    {
      ActiveOf(s, ns, owner, items[i].key);
      if !items[i].state.terminating {
        ghost var w1, t1 := api.world, api.turns;
        var e := AskToGo(api, items[i].key, s, start, from);
        ExtendsTrans(world, turns, w1, t1, api.world, api.turns);
        if e.Some? && e != Some(NotFound) {
          return Err(e.value);
        }
      }
    }
    gone := Ok(false);
  }

  /** Requests the deletion of every owned object a live list shows, and answers
      whether that list was empty. */
  method FinalizeBindings(api: Store) returns (gone: Result<bool>)
    requires api.Valid()
    modifies api, api.wire
    ensures Extends(old(api.world), old(api.turns), api.world, api.turns)
    ensures api.Valid() && api.seen == old(api.seen) && old(api.log) <= api.log
    ensures old(api.wire.calls) <= api.wire.calls
    ensures ListThenDeletes(api.kind, {}, api.wire.calls, |old(api.wire.calls)|)
    ensures gone.Err? ==> api.wire.calls[|api.wire.calls| - 1].error == Some(gone.error) && gone.error != NotFound
    ensures AllReleased(old(api.Live()), api.log, |old(api.log)|, api.ns, api.owner)
    ensures AsksOnly(old(Active(api.Live(), api.ns, api.owner)), api.wire.calls, |old(api.wire.calls)|)
    ensures gone.Ok? ==> Active(api.Live(), api.ns, api.owner) == {}
    ensures gone.Ok? ==> (gone.value <==> old(Owned(api.Live(), api.ns, api.owner)) == {})
    ensures gone == Ok(true) ==> api.log == old(api.log) && Owned(api.Live(), api.ns, api.owner) == {}
  {
    hide Selected, Versioned, Mirrors, Accounted, AllReleased, ListThenDeletes, Extends, AsksOnly;
    ghost var s, start, from := api.Live(), |api.log|, |api.wire.calls|;
    ghost var (ns, owner) := (api.ns, api.owner);
    ReleaseNothing(api.log, ns, owner);
    var r := api.ListLive();
    ghost var w1, t1 := api.world, api.turns;
    ListCalled(api.kind, {}, old(api.wire.calls), Call(api.kind, LIST, Key(ns, ""), |api.log|, ErrorOf(r)));
    AsksNone(Active(s, ns, owner), old(api.wire.calls), Call(api.kind, LIST, Key(ns, ""), |api.log|, ErrorOf(r)));
    if r.Err? {
      return Err(r.error);
    }
    var items := r.value;
    if |items| == 0 {
      return Ok(true);
    }
    assert forall i :: 0 <= i < |items| ==> items[i].key in Owned(s, ns, owner) && items[i].state == s[items[i].key];
    assert items[0].key in Owned(s, ns, owner);
    assert forall k :: k in Active(s, ns, owner) ==> exists i :: 0 <= i < |items| && items[i].key == k;
    hide Lists, Owned;
    gone := AskAllToGo(api, items, s, start, from);
    ExtendsTrans(old(api.world), old(api.turns), w1, t1, api.world, api.turns);
  }

  /** No deletion pass moves away from the end: on the pair (deletions still to be
      requested, owned objects left) whatever it changes is a step down, wherever it
      stopped. */
  lemma {:induction false} DeletionProgress(s: Objects, t: Objects, ns: string, owner: string)
    requires Released(s, t, ns, owner)
    ensures |Active(t, ns, owner)| <= |Active(s, ns, owner)| && |Owned(t, ns, owner)| <= |Owned(s, ns, owner)|
    ensures Active(t, ns, owner) != Active(s, ns, owner) ==> |Active(t, ns, owner)| < |Active(s, ns, owner)|
    ensures Owned(t, ns, owner) != Owned(s, ns, owner) ==> |Owned(t, ns, owner)| < |Owned(s, ns, owner)|
  {
    ReleaseShrinks(s, t, ns, owner);
    Smaller(Active(t, ns, owner), Active(s, ns, owner));
    Smaller(Owned(t, ns, owner), Owned(s, ns, owner));
  }

  /** When every deletion has been requested, nothing but their own finalizers keeps owned
      objects: the next live list is empty exactly if none has any. */
  lemma WaitEnds(s: Objects, ns: string, owner: string)
    requires Deletable(s) && Active(s, ns, owner) == {}
    ensures Owned(s, ns, owner) == {} <==> forall k :: k in Owned(s, ns, owner) ==> s[k].finalizers == {}
  {
    forall k | k in Owned(s, ns, owner)
      ensures s[k].finalizers != {}
    {
      assert k !in Active(s, ns, owner);
    }
  }

  lemma {:induction false} Smaller<T>(a: set<T>, b: set<T>)
    requires a <= b
    ensures |a| <= |b| && (a != b ==> |a| < |b|)
  {
    assert b == a + (b - a);
    if a != b {
      var x :| x in b - a;
      assert |b - a| > 0;
    }
  }
}
