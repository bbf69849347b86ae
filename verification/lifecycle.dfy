/** An owner's life, and the reconciler's passes over it: a machine whose steps are
    single API calls, interleaved with whatever everyone else does. */
module Lifecycle {
  import opened Cluster
  import opened Upkeep

  const FINALIZER := "k8s.pliu.dev/binding-cleanup"

  datatype Owner = Owner(uid: nat, version: nat, generation: nat, finalizers: seq<string>, terminating: bool)

  /** What others do to the finalizers of an owner. */
  datatype Edit = Append(finalizer: string) | Drop(finalizer: string)

  /** Where the pass under way has got to; `at` is the version of the owner it read. */
  datatype Pc =
    | Idle
    | Adding(at: nat)
    | Syncing(at: nat)
    | Listing(at: nat)
    | Deleting(at: nat)
    | Releasing(at: nat)

  /** `history` holds every state of the owner, `None` while there is none; the last one
      is live and the cache shows number `seen`. `born` and `edits` are the finalizers
      the present incarnation was created with, and what others did to them since. */
  datatype World = World(
    ns: string,
    name: string,
    history: seq<Option<Owner>>,
    seen: nat,
    clock: nat,
    bindings: Objects,
    pc: Pc,
    born: seq<string>,
    edits: seq<Edit>)

  datatype Step =
    // anyone else
    | CreateOwner(finalizers: seq<string>)
    | DeleteOwner
    | EditFinalizers(edit: Edit)
    | EditSpec
    | CacheAdvance(to: nat)
    | ChangeBindings(objects: Objects)
    // the reconciler
    | Begin
    | PatchAdd
    | SyncWrite(writes: Objects)
    | PatchStatus
    | ListBindings
    | DeleteBinding(key: Key)
    | PatchRemove
    | End

  predicate IsEnvironment(s: Step) {
    s.CreateOwner? || s.DeleteOwner? || s.EditFinalizers? || s.EditSpec? || s.CacheAdvance? || s.ChangeBindings?
  }

  function Without(finalizers: seq<string>, f: string): seq<string> {
    if finalizers == [] then []
    else
      var last := finalizers[|finalizers| - 1];
      Without(finalizers[..|finalizers| - 1], f) + (if last == f then [] else [last])
  }

  function Edited(finalizers: seq<string>, e: Edit): seq<string> {
    match e
    case Append(f) => if f in finalizers then finalizers else finalizers + [f]
    case Drop(f) => Without(finalizers, f)
  }

  /** The edits alone, replayed on the finalizers at birth. */
  function Replayed(born: seq<string>, edits: seq<Edit>): seq<string> {
    if edits == [] then born else Edited(Replayed(born, edits[..|edits| - 1]), edits[|edits| - 1])
  }

  predicate Sensible(w: World) {
    w.history != [] && w.seen < |w.history|
  }

  function Live(w: World): Option<Owner>
    requires w.history != []
  {
    w.history[|w.history| - 1]
  }

  function Publish(w: World, o: Option<Owner>): World {
    w.(history := w.history + [if o.Some? then Some(o.value.(version := w.clock + 1)) else None], clock := w.clock + 1)
  }

  /** An owner that is being deleted goes once its last finalizer does. */
  function WithFinalizers(o: Owner, finalizers: seq<string>): Option<Owner> {
    if o.terminating && finalizers == [] then None else Some(o.(finalizers := finalizers))
  }

  /** Others delete, hold, release and edit bindings as they like; they do not put the
      owner's labels on any. */
  predicate Unforged(w: World, objects: Objects) {
    forall k :: k in objects && Selected(k, objects[k], w.ns, w.name) ==>
      k in w.bindings && Selected(k, w.bindings[k], w.ns, w.name)
  }

  predicate OwnsNothing(w: World) {
    Owned(w.bindings, w.ns, w.name) == {}
  }

  /** The optimistic lock: the live owner is the very version the pass read. */
  predicate LockHolds(w: World, at: nat) {
    && w.history != [] && at < |w.history| && w.history[at].Some?
    && Live(w).Some? && Live(w).value.version == w.history[at].value.version
  }

  /** The whole transition relation; a step that is not possible changes nothing. */
  function Take(w: World, s: Step): World
    requires Sensible(w)
  {
    match s
    case CreateOwner(fs) =>
      if Live(w).Some? then w
      else Publish(w, Some(Owner(w.clock + 1, 0, 1, fs, false))).(born := Without(fs, FINALIZER), edits := [])
    case DeleteOwner =>
      if Live(w).None? || Live(w).value.terminating then w
      else Publish(w, WithFinalizers(Live(w).value.(terminating := true), Live(w).value.finalizers))
    case EditFinalizers(e) =>
      if Live(w).None? || e.finalizer == FINALIZER || (e.Append? && Live(w).value.terminating) then w
      else Publish(w, WithFinalizers(Live(w).value, Edited(Live(w).value.finalizers, e))).(edits := w.edits + [e])
    case EditSpec =>
      if Live(w).None? then w else Publish(w, Some(Live(w).value.(generation := Live(w).value.generation + 1)))
    case CacheAdvance(to) =>
      if w.seen <= to < |w.history| then w.(seen := to) else w
    case ChangeBindings(objects) =>
      if Unforged(w, objects) then w.(bindings := objects) else w
    case Begin =>
      if w.pc != Idle || w.history[w.seen].None? then w
      else
        var o := w.history[w.seen].value;
        w.(pc := if o.terminating then Listing(w.seen)
          else if FINALIZER !in o.finalizers then Adding(w.seen) else Syncing(w.seen))
    case PatchAdd =>
      if !w.pc.Adding? then w
      else if !LockHolds(w, w.pc.at) then w.(pc := Idle)
      else Publish(w, WithFinalizers(Live(w).value, w.history[w.pc.at].value.finalizers + [FINALIZER])).(pc := Idle)
    case SyncWrite(objects) =>
      if w.pc.Syncing? then w.(bindings := objects) else w
    case PatchStatus =>
      if !w.pc.Syncing? || Live(w).None? then w else Publish(w, Live(w))
    case ListBindings =>
      if !w.pc.Listing? then w else w.(pc := if OwnsNothing(w) then Releasing(w.pc.at) else Deleting(w.pc.at))
    case DeleteBinding(k) =>
      if w.pc.Deleting? then w.(bindings := Deleted(w.bindings, k, w.clock + 1), clock := w.clock + 1) else w
    case PatchRemove =>
      if !w.pc.Releasing? then w
      else if !LockHolds(w, w.pc.at) || FINALIZER !in w.history[w.pc.at].value.finalizers then w.(pc := Idle)
      else Publish(w, WithFinalizers(Live(w).value, Without(w.history[w.pc.at].value.finalizers, FINALIZER))).(pc := Idle)
    case End => w.(pc := Idle)
  }

  lemma TakeSensible(w: World, s: Step)
    requires Sensible(w)
    ensures Sensible(Take(w, s)) && w.history <= Take(w, s).history && w.seen <= Take(w, s).seen
    ensures Take(w, s).ns == w.ns && Take(w, s).name == w.name
    ensures IsEnvironment(s) ==> Take(w, s).pc == w.pc
  {
  }

  function Execute(w: World, steps: seq<Step>): (r: World)
    requires Sensible(w)
    ensures Sensible(r)
  {
    if steps == [] then w
    else
      var before := Execute(w, steps[..|steps| - 1]);
      TakeSensible(before, steps[|steps| - 1]);
      Take(before, steps[|steps| - 1])
  }

  /** Before there ever was an owner of this name: nothing wears its labels. */
  predicate Initial(w: World) {
    w.history == [None] && w.seen == 0 && w.pc == Idle && OwnsNothing(w)
  }

  // ---- the invariant ----

  /** An owner under which a pass would create bindings. */
  ghost predicate Protected(o: Option<Owner>) {
    o.Some? && !o.value.terminating && FINALIZER in o.value.finalizers
  }

  ghost predicate Holds(o: Option<Owner>, uid: nat) {
    o.Some? && o.value.uid == uid && FINALIZER in o.value.finalizers
  }

  ghost predicate Inv(w: World) {
    && Sensible(w)
    // versions are issued once, in order
    && (forall i :: 0 <= i < |w.history| && w.history[i].Some? ==> w.history[i].value.version <= w.clock)
    && (forall i, j :: 0 <= i < j < |w.history| && w.history[i].Some? && w.history[j].Some? ==>
      w.history[i].value.version < w.history[j].value.version)
    // whatever the cache may still show as alive and protected is so
    && (forall i :: w.seen <= i < |w.history| && Protected(w.history[i]) ==>
      Holds(Live(w), w.history[i].value.uid))
    // the pass under way
    && (!w.pc.Idle? ==> w.pc.at <= w.seen && w.history[w.pc.at].Some?)
    && (w.pc.Adding? || w.pc.Syncing? ==> !w.history[w.pc.at].value.terminating)
    && (w.pc.Adding? ==> FINALIZER !in w.history[w.pc.at].value.finalizers)
    && (w.pc.Listing? || w.pc.Deleting? || w.pc.Releasing? ==> w.history[w.pc.at].value.terminating)
    && (w.pc.Syncing? ==> Holds(Live(w), w.history[w.pc.at].value.uid))
    && (w.pc.Releasing? ==> OwnsNothing(w))
    // a binding needs a protected owner
    && (!OwnsNothing(w) ==> Live(w).Some? && FINALIZER in Live(w).value.finalizers)
    // others' finalizers are what others made of them
    && (Live(w).Some? ==> Without(Live(w).value.finalizers, FINALIZER) == Replayed(w.born, w.edits))
  }

  lemma {:induction false} WithoutIn(fs: seq<string>, f: string, g: string)
    ensures g in Without(fs, f) <==> g in fs && g != f
  {
    if fs != [] {
      WithoutIn(fs[..|fs| - 1], f, g);
      assert fs == fs[..|fs| - 1] + [fs[|fs| - 1]];
    }
  }

  lemma {:induction false} WithoutAppend(fs: seq<string>, f: string, g: string)
    ensures Without(fs + [g], f) == Without(fs, f) + if g == f then [] else [g]
  {
    assert (fs + [g])[..|fs|] == fs;
  }

  lemma {:induction false} WithoutCommutes(fs: seq<string>, f: string, g: string)
    ensures Without(Without(fs, f), g) == Without(Without(fs, g), f)
  {
    if fs != [] {
      var (rest, last) := (fs[..|fs| - 1], fs[|fs| - 1]);
      WithoutCommutes(rest, f, g);
      assert Without(rest, f) + [] == Without(rest, f) && Without(rest, g) + [] == Without(rest, g);
      WithoutAppend(Without(rest, f), g, last);
      WithoutAppend(Without(rest, g), f, last);
    }
  }

  lemma {:induction false} WithoutTwice(fs: seq<string>, f: string)
    ensures Without(Without(fs, f), f) == Without(fs, f)
  {
    if fs != [] {
      var rest := fs[..|fs| - 1];
      WithoutTwice(rest, f);
      assert Without(rest, f) + [] == Without(rest, f);
      WithoutAppend(Without(rest, f), f, fs[|fs| - 1]);
    }
  }

  /** An edit of other finalizers does to the others exactly what it does to the list. */
  lemma EditRefines(fs: seq<string>, e: Edit)
    requires e.finalizer != FINALIZER
    ensures Without(Edited(fs, e), FINALIZER) == Edited(Without(fs, FINALIZER), e)
    ensures FINALIZER in Edited(fs, e) <==> FINALIZER in fs
  {
    hide Without;
    WithoutIn(fs, FINALIZER, e.finalizer);
    match e
    case Append(f) => WithoutAppend(fs, FINALIZER, f);
    case Drop(f) =>
      WithoutCommutes(fs, f, FINALIZER);
      WithoutIn(fs, f, FINALIZER);
  }

  lemma ReplayedAppend(born: seq<string>, edits: seq<Edit>, e: Edit)
    ensures Replayed(born, edits + [e]) == Edited(Replayed(born, edits), e)
  {
    assert (edits + [e])[..|edits|] == edits;
  }

  lemma LockMeansLatest(w: World, at: nat)
    requires Inv(w) && LockHolds(w, at) && at <= w.seen
    ensures at == w.seen == |w.history| - 1
  {
  }

  lemma InvCreateOwner(w: World, fs: seq<string>)
    requires Inv(w)
    ensures Inv(Take(w, CreateOwner(fs)))
  {
    hide Without, Owned;
  }

  lemma InvDeleteOwner(w: World)
    requires Inv(w)
    ensures Inv(Take(w, DeleteOwner))
  {
    hide Without, Replayed, Owned;
  }

  lemma InvEditFinalizers(w: World, e: Edit)
    requires Inv(w)
    ensures Inv(Take(w, EditFinalizers(e)))
  {
    hide Without, Replayed, Owned, Edited;
    if Live(w).Some? && e.finalizer != FINALIZER {
      EditRefines(Live(w).value.finalizers, e);
      ReplayedAppend(w.born, w.edits, e);
    }
  }

  lemma InvEditSpec(w: World)
    requires Inv(w)
    ensures Inv(Take(w, EditSpec))
  {
    hide Without, Replayed, Owned;
  }

  lemma InvEnvironment(w: World, s: Step)
    requires Inv(w) && IsEnvironment(s)
    ensures Inv(Take(w, s))
  {
    match s
    case CreateOwner(fs) => InvCreateOwner(w, fs);
    case DeleteOwner => InvDeleteOwner(w);
    case EditFinalizers(e) => InvEditFinalizers(w, e);
    case EditSpec => InvEditSpec(w);
    case _ => hide Without, Replayed;
  }

  lemma InvPatchAdd(w: World)
    requires Inv(w) && w.pc.Adding? && LockHolds(w, w.pc.at)
    ensures Inv(Take(w, PatchAdd))
  {
    hide Without, Replayed, Owned;
    LockMeansLatest(w, w.pc.at);
    WithoutAppend(Live(w).value.finalizers, FINALIZER, FINALIZER);
  }

  lemma InvPatchRemove(w: World)
    requires Inv(w) && w.pc.Releasing? && LockHolds(w, w.pc.at)
    ensures Inv(Take(w, PatchRemove))
  {
    hide Without, Replayed, Owned;
    LockMeansLatest(w, w.pc.at);
    WithoutTwice(Live(w).value.finalizers, FINALIZER);
  }

  lemma InvPatchStatus(w: World)
    requires Inv(w) && w.pc.Syncing?
    ensures Inv(Take(w, PatchStatus))
  {
    hide Without, Replayed, Owned;
  }

  /** The steps that touch bindings. */
  lemma InvBindings(w: World, s: Step)
    requires Inv(w) && (s.SyncWrite? || s.DeleteBinding?)
    ensures Inv(Take(w, s))
  {
    hide Without, Replayed;
  }

  /** The steps that only decide how the pass goes on. */
  lemma InvControl(w: World, s: Step)
    requires Inv(w) && (s.Begin? || s.ListBindings? || s.End?)
    ensures Inv(Take(w, s))
  {
    hide Without, Replayed, Owned;
  }

  lemma InvController(w: World, s: Step)
    requires Inv(w) && !IsEnvironment(s)
    ensures Inv(Take(w, s))
  {
    hide Without, Replayed, Owned, Selected;
    if s.SyncWrite? || s.DeleteBinding? {
      InvBindings(w, s);
    } else if s.Begin? || s.ListBindings? || s.End? {
      InvControl(w, s);
    } else if s.PatchAdd? && w.pc.Adding? && LockHolds(w, w.pc.at) {
      InvPatchAdd(w);
    } else if s.PatchRemove? && w.pc.Releasing? && LockHolds(w, w.pc.at) {
      InvPatchRemove(w);
    } else if s.PatchStatus? && w.pc.Syncing? {
      InvPatchStatus(w);
    }
  }

  lemma {:induction false} InvHolds(start: World, steps: seq<Step>)
    requires Initial(start)
    ensures Inv(Execute(start, steps))
  {
    if steps == [] {
      assert Without([], FINALIZER) == [];
    } else {
      var (before, s) := (Execute(start, steps[..|steps| - 1]), steps[|steps| - 1]);
      InvHolds(start, steps[..|steps| - 1]);
      if IsEnvironment(s) {
        InvEnvironment(before, s);
      } else {
        InvController(before, s);
      }
    }
  }

  /** Over every run: whenever there is no owner, or one without our finalizer, no
      binding wears the owner's labels. */
  lemma NoBindingWithoutFinalizer(start: World, steps: seq<Step>)
    requires Initial(start)
    ensures
      var w := Execute(start, steps);
      Live(w).None? || FINALIZER !in Live(w).value.finalizers ==> OwnsNothing(w)
  {
    InvHolds(start, steps);
  }

  /** Over every run: apart from ours, the live owner's finalizers, in their order, are
      the edits of others replayed. No patch computed from a stale read loses one. */
  lemma OthersFinalizersKept(start: World, steps: seq<Step>)
    requires Initial(start) && Live(Execute(start, steps)).Some?
    ensures
      var w := Execute(start, steps);
      Without(Live(w).value.finalizers, FINALIZER) == Replayed(w.born, w.edits)
  {
    InvHolds(start, steps);
  }

  /** Without the lock it would: the list a pass read, with ours added, replaces an
      edit made since. */
  lemma UnlockedPatchLosesEdits(read: seq<string>, e: Edit)
    requires e.finalizer != FINALIZER && FINALIZER !in read
    ensures Without(read + [FINALIZER], FINALIZER) == Without(Edited(read, e), FINALIZER) <==> Edited(read, e) == read
  {
    WithoutAppend(read, FINALIZER, FINALIZER);
    assert Without(read, FINALIZER) + [] == Without(read, FINALIZER);
    WithoutNothing(read, FINALIZER);
    EditRefines(read, e);
    WithoutNothing(Edited(read, e), FINALIZER);
  }

  lemma {:induction false} WithoutNothing(fs: seq<string>, f: string)
    requires f !in fs
    ensures Without(fs, f) == fs
  {
    if fs != [] {
      WithoutNothing(fs[..|fs| - 1], f);
      assert fs == fs[..|fs| - 1] + [fs[|fs| - 1]];
    }
  }

  /** The controller let incarnation `uid` go, and no other has been created since. */
  ghost predicate LetGo(w: World, uid: nat) {
    && Sensible(w)
    && (Live(w).Some? ==> Live(w).value.uid == uid && Live(w).value.terminating && FINALIZER !in Live(w).value.finalizers)
  }

  lemma LetGoStays(w: World, s: Step, uid: nat)
    requires Inv(w) && LetGo(w, uid) && !s.CreateOwner?
    ensures LetGo(Take(w, s), uid)
  {
    hide Without, Replayed, Owned;
    if s.EditFinalizers? && Live(w).Some? && s.edit.finalizer != FINALIZER {
      EditRefines(Live(w).value.finalizers, s.edit);
    }
    if !w.pc.Idle? && LockHolds(w, w.pc.at) {
      LockMeansLatest(w, w.pc.at);
    }
  }

  lemma ReleasePoint(start: World, before: seq<Step>)
    requires Initial(start)
    requires var w := Execute(start, before); w.pc.Releasing? && LockHolds(w, w.pc.at)
    ensures LetGo(Execute(start, before + [PatchRemove]), Live(Execute(start, before)).value.uid)
  {
    hide Without, Replayed, Owned, Inv;
    var w := Execute(start, before);
    InvHolds(start, before);
    RemoveReleases(w);
    assert (before + [PatchRemove])[..|before|] == before;
  }

  lemma RemoveReleases(w: World)
    requires Inv(w) && w.pc.Releasing? && LockHolds(w, w.pc.at)
    ensures LetGo(Take(w, PatchRemove), Live(w).value.uid)
  {
    hide Without, Replayed, Owned;
    LockMeansLatest(w, w.pc.at);
    WithoutIn(Live(w).value.finalizers, FINALIZER, FINALIZER);
  }

  /** Once the removal of our finalizer from an incarnation was accepted, no binding
      wears its labels in any later state, until there is a new incarnation. */
  lemma {:induction false} LetGoForGood(start: World, before: seq<Step>, after: seq<Step>)
    requires Initial(start)
    requires var w := Execute(start, before); w.pc.Releasing? && LockHolds(w, w.pc.at)
    requires forall s :: s in after ==> !s.CreateOwner?
    ensures
      var w := Execute(start, before + [PatchRemove] + after);
      LetGo(w, Live(Execute(start, before)).value.uid) && OwnsNothing(w)
    decreases |after|
  {
    hide Inv, Take, LetGo;
    var run := before + [PatchRemove] + after;
    NoBindingWithoutFinalizer(start, run);
    ReleasePoint(start, before);
    if after == [] {
      assert run == before + [PatchRemove];
    } else {
      var (fewer, last) := (after[..|after| - 1], after[|after| - 1]);
      var earlier := before + [PatchRemove] + fewer;
      assert last in after && forall s :: s in fewer ==> s in after;
      LetGoForGood(start, before, fewer);
      InvHolds(start, earlier);
      assert run[..|run| - 1] == earlier && run[|run| - 1] == last;
      LetGoStays(Execute(start, earlier), last, Live(Execute(start, before)).value.uid);
    }
    LetGoUnprotected(Execute(start, run), Live(Execute(start, before)).value.uid);
  }

  lemma LetGoUnprotected(w: World, uid: nat)
    requires LetGo(w, uid)
    ensures Sensible(w) && (Live(w).None? || FINALIZER !in Live(w).value.finalizers)
  {
  }

  // ---- how an owner is taken up, and let go ----

  /** Owner incarnation `uid` is there, is not going, and has the finalizer. */
  ghost predicate Adopted(o: Option<Owner>, uid: nat) {
    o.Some? && o.value.uid == uid && !o.value.terminating && "k8s.pliu.dev/binding-cleanup" in o.value.finalizers
  }

  /** An accepted addition makes the same owner carry the finalizer, after those it had. */
  lemma AdditionAdds(start: World, before: seq<Step>)
    requires Initial(start)
    requires var w := Execute(start, before); w.pc.Adding? && LockHolds(w, w.pc.at)
    ensures
      var (w, v) := (Execute(start, before), Execute(start, before + [PatchAdd]));
      && Live(w).Some? && "k8s.pliu.dev/binding-cleanup" !in Live(w).value.finalizers
      && Adopted(Live(v), Live(w).value.uid)
      && Live(v).value.finalizers == Live(w).value.finalizers + ["k8s.pliu.dev/binding-cleanup"]
      && v.pc.Idle? && v.bindings == w.bindings
  {
    hide Without, Take, Inv;
    var w := Execute(start, before);
    InvHolds(start, before);
    AddingLatest(w);
    AdditionStep(w);
    assert (before + [PatchAdd])[..|before|] == before;
  }

  lemma AddingLatest(w: World)
    requires Inv(w) && w.pc.Adding? && LockHolds(w, w.pc.at)
    ensures Live(w).Some? && !Live(w).value.terminating && FINALIZER !in Live(w).value.finalizers
    ensures w.history[w.pc.at] == Live(w)
  {
    hide Without, Replayed, Owned;
    LockMeansLatest(w, w.pc.at);
  }

  lemma AdditionStep(w: World)
    requires w.pc.Adding? && LockHolds(w, w.pc.at) && Sensible(w)
    requires Live(w).Some? && !Live(w).value.terminating && w.history[w.pc.at] == Live(w)
    ensures
      var v := Take(w, PatchAdd);
      && Adopted(Live(v), Live(w).value.uid) && Live(v).value.finalizers == Live(w).value.finalizers + [FINALIZER]
      && v.pc.Idle? && v.bindings == w.bindings
  {
    hide Without, Owned;
  }

  /** Whatever others do but delete it, the owner stays taken up in every later state. */
  lemma {:induction false} StaysAdopted(start: World, before: seq<Step>, after: seq<Step>, uid: nat)
    requires Initial(start) && Adopted(Live(Execute(start, before)), uid)
    requires forall s :: s in after ==> IsEnvironment(s) && !s.DeleteOwner?
    ensures
      var (w, v) := (Execute(start, before), Execute(start, before + after));
      && w.history <= v.history && v.pc == w.pc
      && (forall i :: |w.history| - 1 <= i < |v.history| ==> Adopted(v.history[i], uid))
    decreases |after|
  {
    hide Take, Adopted;
    if after == [] {
      assert before + after == before;
    } else {
      var (fewer, last) := (after[..|after| - 1], after[|after| - 1]);
      assert last in after && forall s :: s in fewer ==> s in after;
      StaysAdopted(start, before, fewer, uid);
      assert (before + after)[..|before + after| - 1] == before + fewer;
      var v := Execute(start, before + fewer);
      TakeSensible(v, last);
      AdoptedStep(v, last, uid);
    }
  }

  lemma AdoptedStep(w: World, s: Step, uid: nat)
    requires Sensible(w) && Adopted(Live(w), uid) && IsEnvironment(s) && !s.DeleteOwner?
    ensures
      var v := Take(w, s);
      && |w.history| <= |v.history| <= |w.history| + 1 && v.history[..|w.history|] == w.history
      && Adopted(v.history[|v.history| - 1], uid)
  {
    hide Without, Owned, Replayed;
    if s.EditFinalizers? && s.edit.finalizer != FINALIZER {
      EditRefines(Live(w).value.finalizers, s.edit);
    }
  }

  /** Once the addition was accepted, the cache shows it and nobody has deleted the owner,
      the next pass syncs. */
  lemma AdoptedSyncs(start: World, before: seq<Step>, after: seq<Step>)
    requires Initial(start)
    requires var w := Execute(start, before); w.pc.Adding? && LockHolds(w, w.pc.at)
    requires forall s :: s in after ==> IsEnvironment(s) && !s.DeleteOwner?
    requires
      var run := before + [PatchAdd];
      |Execute(start, run).history| - 1 <= Execute(start, run + after).seen
    ensures
      var run := before + [PatchAdd] + after;
      Execute(start, run + [Begin]).pc.Syncing?
  {
    hide Without, Replayed, Owned, Take, Execute;
    var run := before + [PatchAdd];
    AdditionAdds(start, before);
    var uid := Live(Execute(start, before)).value.uid;
    StaysAdopted(start, run, after, uid);
    BeginSyncs(start, run + after, uid);
  }

  lemma BeginSyncs(start: World, run: seq<Step>, uid: nat)
    requires Initial(start)
    requires var w := Execute(start, run); w.pc.Idle? && Adopted(w.history[w.seen], uid)
    ensures Execute(start, run + [Begin]).pc.Syncing?
  {
    assert (run + [Begin])[..|run|] == run;
  }

  /** What a pass does first depends on the owner the cache shows, and on nothing else. */
  lemma BeginChooses(w: World)
    requires Sensible(w) && w.pc.Idle?
    ensures
      var (o, pc) := (w.history[w.seen], Take(w, Begin).pc);
      && (pc.Idle? <==> o.None?)
      && (pc.Listing? <==> o.Some? && o.value.terminating)
      && (pc.Adding? <==> o.Some? && !o.value.terminating && "k8s.pliu.dev/binding-cleanup" !in o.value.finalizers)
      && (pc.Syncing? <==> o.Some? && !o.value.terminating && "k8s.pliu.dev/binding-cleanup" in o.value.finalizers)
      && (!pc.Idle? ==> pc.at == w.seen)
  {
  }

  /** A sync may leave any bindings at all behind, and touches no owner: what is proved of all
      runs is proved whatever the sync does. */
  lemma SyncMayWrite(start: World, run: seq<Step>, uid: nat, objects: Objects)
    requires Initial(start)
    requires var w := Execute(start, run); w.pc.Idle? && Adopted(w.history[w.seen], uid)
    ensures
      var v := Execute(start, run + [Begin] + [SyncWrite(objects)]);
      v.bindings == objects && v.history == Execute(start, run).history && v.pc.Syncing?
  {
    BeginSyncs(start, run, uid);
    ExecuteAppend(start, run, Begin);
    ExecuteAppend(start, run + [Begin], SyncWrite(objects));
  }

  /** A report leaves the owner as it is, but for its version: no patch computed from what was
      read before passes the lock. */
  lemma ReportRenews(start: World, before: seq<Step>, at: nat)
    requires Initial(start)
    requires var w := Execute(start, before); w.pc.Syncing? && Live(w).Some? && LockHolds(w, at)
    ensures
      var (w, v) := (Execute(start, before), Execute(start, before + [PatchStatus]));
      && |v.history| == |w.history| + 1 && Live(v).Some? && Live(v).value == Live(w).value.(version := Live(v).value.version)
      && !LockHolds(v, at) && v.bindings == w.bindings
  {
    hide Without, Replayed, Owned;
    InvHolds(start, before);
    ExecuteAppend(start, before, PatchStatus);
  }

  /** An accepted removal leaves the owner with the other finalizers it had, in order, and
      an owner that is left without any is gone. */
  lemma RemovalRemoves(start: World, before: seq<Step>)
    requires Initial(start)
    requires var w := Execute(start, before); w.pc.Releasing? && LockHolds(w, w.pc.at)
    ensures
      var (w, v) := (Execute(start, before), Execute(start, before + [PatchRemove]));
      && Live(w).Some? && Live(w).value.terminating
      && ("k8s.pliu.dev/binding-cleanup" in Live(w).value.finalizers ==>
        var others := Without(Live(w).value.finalizers, "k8s.pliu.dev/binding-cleanup");
        if others == [] then Live(v).None?
        else Live(v).Some? && Live(v).value.uid == Live(w).value.uid && Live(v).value.finalizers == others)
      && v.bindings == w.bindings
  {
    hide Without, Take, Inv;
    var w := Execute(start, before);
    InvHolds(start, before);
    ReleasingLatest(w);
    RemovalStep(w);
    assert (before + [PatchRemove])[..|before|] == before;
  }

  lemma ReleasingLatest(w: World)
    requires Inv(w) && w.pc.Releasing? && LockHolds(w, w.pc.at)
    ensures Live(w).Some? && Live(w).value.terminating && w.history[w.pc.at] == Live(w)
  {
    hide Without, Replayed, Owned;
    LockMeansLatest(w, w.pc.at);
  }

  lemma RemovalStep(w: World)
    requires w.pc.Releasing? && LockHolds(w, w.pc.at) && Sensible(w)
    requires Live(w).Some? && Live(w).value.terminating && w.history[w.pc.at] == Live(w)
    ensures
      var v := Take(w, PatchRemove);
      && (FINALIZER in Live(w).value.finalizers ==>
        var others := Without(Live(w).value.finalizers, FINALIZER);
        if others == [] then Live(v).None?
        else Live(v).Some? && Live(v).value.uid == Live(w).value.uid && Live(v).value.finalizers == others)
      && v.bindings == w.bindings
  {
    hide Without, Owned;
  }

  /** An accepted deletion of a binding takes it away, or leaves it going, held by its own
      finalizers; other bindings and the owner are untouched. */
  lemma DeletionDeletes(w: World, k: Key, j: Key)
    requires Sensible(w) && w.pc.Deleting?
    ensures
      var v := Take(w, DeleteBinding(k));
      && (k in w.bindings && w.bindings[k].finalizers == {} ==> k !in v.bindings)
      && (k in w.bindings && w.bindings[k].finalizers != {} ==> k in v.bindings && v.bindings[k].terminating)
      && (j != k ==> SameAt(j, w.bindings, v.bindings)) && v.history == w.history && v.pc == w.pc
  {
  }

  // ---- the way out ----

  function Deletions(keys: seq<Key>): seq<Step> {
    seq(|keys|, i requires 0 <= i < |keys| => DeleteBinding(keys[i]))
  }

  lemma ExecuteAppend(w: World, a: seq<Step>, s: Step)
    requires Sensible(w)
    ensures Execute(w, a + [s]) == Take(Execute(w, a), s)
  {
    assert (a + [s])[..|a|] == a;
  }

  /** Deleting what is owned, one binding after the other, with nothing held, leaves nothing
      owned, and the owner as it was. */
  lemma {:induction false} DeletionsEmpty(w: World, keys: seq<Key>)
    requires Sensible(w) && w.pc.Deleting?
    requires forall k :: k in Owned(w.bindings, w.ns, w.name) ==> w.bindings[k].finalizers == {}
    ensures
      var v := Execute(w, Deletions(keys));
      && v.pc == w.pc && v.history == w.history && v.seen == w.seen && v.ns == w.ns && v.name == w.name
      && (forall k :: k in Owned(v.bindings, w.ns, w.name) ==>
        k in Owned(w.bindings, w.ns, w.name) && k !in keys && v.bindings[k] == w.bindings[k])
  {
    if keys == [] {
      assert Deletions(keys) == [];
    } else {
      var (fewer, last) := (keys[..|keys| - 1], keys[|keys| - 1]);
      DeletionsEmpty(w, fewer);
      assert Deletions(keys) == Deletions(fewer) + [DeleteBinding(last)];
      ExecuteAppend(w, Deletions(fewer), DeleteBinding(last));
      assert keys == fewer + [last];
    }
  }

  /** The owner the cache shows is the latest, and it is being deleted. */
  ghost predicate Leaving(w: World) {
    && Sensible(w) && w.pc.Idle? && w.seen == |w.history| - 1
    && Live(w).Some? && Live(w).value.terminating && FINALIZER in Live(w).value.finalizers
  }

  /** With nothing held and nobody interfering, a pass deletes every binding it lists. */
  lemma FirstPass(w: World, keys: seq<Key>)
    requires Leaving(w) && !OwnsNothing(w)
    requires forall k :: k in Owned(w.bindings, w.ns, w.name) ==> w.bindings[k].finalizers == {} && k in keys
    ensures
      var v := Execute(w, [Begin, ListBindings] + Deletions(keys) + [End]);
      OwnsNothing(v) && v.pc.Idle? && v.history == w.history && v.seen == w.seen
  {
    hide Owned, Execute;
    var w2 := Take(Take(w, Begin), ListBindings);
    ExecuteTwo(w, Begin, ListBindings);
    assert w2 == w.(pc := Deleting(w.seen));
    EndTaken(Execute(w2, Deletions(keys)));
    hide Take, OwnsNothing;
    DeletionsEmpty(w2, keys);
    NothingLeft(w2, Execute(w2, Deletions(keys)), keys);
    ExecuteConcat(w, [Begin, ListBindings], Deletions(keys));
    ExecuteAppend(w, [Begin, ListBindings] + Deletions(keys), End);
  }

  lemma EndTaken(w: World)
    requires Sensible(w)
    ensures Take(w, End) == w.(pc := Idle) && (OwnsNothing(w) ==> OwnsNothing(Take(w, End)))
  {
  }

  /** The next one finds nothing, and removes the finalizer. */
  lemma SecondPass(w: World)
    requires Leaving(w) && OwnsNothing(w)
    ensures
      var v := Execute(w, [Begin, ListBindings, PatchRemove]);
      && OwnsNothing(v) && v.pc.Idle? && LetGo(v, Live(w).value.uid)
      && (Without(Live(w).value.finalizers, FINALIZER) == [] ==> Live(v).None?)
  {
    hide Owned, Without;
    ExecuteTwo(w, Begin, ListBindings);
    ExecuteAppend(w, [Begin, ListBindings], PatchRemove);
    assert [Begin, ListBindings, PatchRemove] == [Begin, ListBindings] + [PatchRemove];
    WithoutIn(Live(w).value.finalizers, FINALIZER, FINALIZER);
  }

  /** So two passes let an owner that is being deleted go. */
  lemma WayOut(w: World) returns (steps: seq<Step>)
    requires Leaving(w)
    requires forall k :: k in Owned(w.bindings, w.ns, w.name) ==> w.bindings[k].finalizers == {}
    ensures forall s :: s in steps ==> !IsEnvironment(s)
    ensures
      var v := Execute(w, steps);
      && OwnsNothing(v) && v.pc.Idle? && LetGo(v, Live(w).value.uid)
      && (Without(Live(w).value.finalizers, FINALIZER) == [] ==> Live(v).None?)
  {
    hide Owned, Without, Execute, LetGo, Take;
    var last := [Begin, ListBindings, PatchRemove];
    if OwnsNothing(w) {
      SecondPass(w);
      steps := last;
    } else {
      var keys := SomeOrder(Owned(w.bindings, w.ns, w.name));
      var first := [Begin, ListBindings] + Deletions(keys) + [End];
      FirstPass(w, keys);
      SecondPass(Execute(w, first));
      ExecuteConcat(w, first, last);
      steps := first + last;
    }
  }

  lemma SomeOrder(keys: set<Key>) returns (l: seq<Key>)
    ensures forall k :: k in keys <==> k in l
    decreases |keys|
  {
    if keys == {} {
      l := [];
    } else {
      var k :| k in keys;
      var rest := SomeOrder(keys - {k});
      l := rest + [k];
    }
  }

  lemma NothingLeft(w: World, v: World, keys: seq<Key>)
    requires forall k :: k in Owned(w.bindings, w.ns, w.name) ==> k in keys
    requires v.ns == w.ns && v.name == w.name
    requires forall k :: k in Owned(v.bindings, w.ns, w.name) ==> k in Owned(w.bindings, w.ns, w.name) && k !in keys
    ensures OwnsNothing(v)
  {
    hide Owned;
    assert forall k :: k !in Owned(v.bindings, w.ns, w.name);
  }

  lemma ExecuteTwo(w: World, s: Step, t: Step)
    requires Sensible(w)
    ensures Sensible(Take(w, s)) && Execute(w, [s, t]) == Take(Take(w, s), t)
  {
    TakeSensible(w, s);
    ExecuteAppend(w, [], s);
    ExecuteAppend(w, [s], t);
    assert [] + [s] == [s] && [s] + [t] == [s, t];
  }

  lemma {:induction false} ExecuteConcat(w: World, a: seq<Step>, b: seq<Step>)
    requires Sensible(w)
    ensures Execute(w, a + b) == Execute(Execute(w, a), b)
  {
    if b == [] {
      assert a + b == a;
    } else {
      ExecuteConcat(w, a, b[..|b| - 1]);
      assert (a + b)[..|a + b| - 1] == a + b[..|b| - 1];
    }
  }
}
