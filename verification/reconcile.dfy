/** The reconcilers' entry point, one pass at a time, with everyone else at work
    between any two of its calls. Both reconcilers run this protocol; a sync is here
    any sequence of writes to bindings. */
module Reconciling {
  import opened Cluster
  import opened Upkeep
  import opened Lifecycle

  /** What the work queue is told. */
  datatype Outcome = Finished | Requeue | Retry(error: Error) | Terminal(error: Error)

  /** An Invalid response will be the same for the same spec; it is not retried. */
  function TerminalIfInvalid(e: Error): Outcome {
    if e == Invalid then Terminal(e) else Retry(e)
  }

  class OwnerReconciler {
    var w: World
    ghost const start: World
    ghost var steps: seq<Step>

    /** What the reconciler's calls were answered, in order; the calls of a sync are not
        counted. */
    ghost var answers: seq<Option<Error>>

    /** Everything that has happened is a run of the machine. */
    ghost predicate Valid()
      reads this
    {
      Initial(start) && Sensible(start) && w == Execute(start, steps)
    }

    constructor (start: World)
      requires Initial(start)
      ensures Valid() && w == start == this.start && steps == [] && answers == []
    {
      this.w, this.start, this.steps, this.answers := start, start, [], [];
    }

    method Do(s: Step)
      requires Valid()
      modifies this`w, this`steps
      ensures Valid() && steps == old(steps) + [s] && w == Take(old(w), s)
    {
      TakeSensible(w, s);
      w := Take(w, s);
      steps := steps + [s];
      assert steps[..|steps| - 1] == old(steps);
    }

    /** Any number of steps by others. */
    method Others()
      requires Valid()
      modifies this`w, this`steps
      ensures Valid() && old(steps) <= steps && w.pc == old(w.pc)
      ensures forall i :: |old(steps)| <= i < |steps| ==> IsEnvironment(steps[i])
    {
      var n: int := *;
      for i := 0 to if n < 0 then 0 else n
        invariant Valid() && old(steps) <= steps && w.pc == old(w.pc)
        invariant forall i :: |old(steps)| <= i < |steps| ==> IsEnvironment(steps[i])
      {
        var s: Step := *;
        if IsEnvironment(s) {
          TakeSensible(w, s);
          Do(s);
        }
      }
    }

    /** A call of the reconciler, which may not arrive, or whose answer may be lost. */
    method Call(s: Step, accepted: bool, refusal: Error) returns (e: Option<Error>)
      requires Valid()
      modifies this
      ensures Valid()
      ensures e.None? ==> accepted
      ensures e.None? || e == Some(refusal) ==> refusal == Other || steps == old(steps) + [s]
      ensures e.None? ==> steps == old(steps) + [s]
      ensures steps == old(steps) || (steps == old(steps) + [s] && w == Take(old(w), s))
      ensures answers == old(answers) + [e]
    {
      var arrives: bool, answered: bool := *, *;
      if arrives {
        Do(s);
      }
      e := if !arrives then Some(Other) else if !accepted then Some(refusal) else if answered then None else Some(Other);
      answers := answers + [e];
    }

    /** A call that only reads, and may get no answer. */
    method Read() returns (e: Option<Error>)
      modifies this`answers
      ensures answers == old(answers) + [e] && e in {None, Some(Other)}
    {
      var faulty: bool := *;
      e := if faulty then Some(Other) else None;
      answers := answers + [e];
    }

    /** The deletion of everything `before` owned that was not terminating is in `steps`. */
    static ghost predicate Requested(before: World, steps: seq<Step>) {
      forall k :: k in Active(before.bindings, before.ns, before.name) ==> DeleteBinding(k) in steps
    }

    /** Deletes what a live list shows; true only if it showed nothing. The list is call
        number `last` and met the world `before`. */
    method FinalizeBindings() returns (gone: Result<bool>, ghost last: nat, ghost before: World)
      requires Valid() && w.pc.Listing?
      modifies this
      ensures Valid() && old(steps) <= steps
      ensures gone.Ok? ==> Made(start, steps, last, before, ListBindings)
      ensures gone.Ok? && gone.value ==> w.pc.Releasing? && OwnsNothing(before)
      ensures gone.Ok? && !gone.value ==> !OwnsNothing(before) && Requested(before, steps[last..])
      ensures NoneElse(before, steps, last)
      ensures Told(answers, gone)
    {
      hide Initial, Execute, LockHolds, Active;
      Others();
      last, before := |steps|, w;
      ghost var read := steps;
      var failure := Read();
      if failure.Some? {
        return Err(failure.value), last, before;
      }
      var bindings := w.bindings;
      var owned := Owned(w.bindings, w.ns, w.name);
      Do(ListBindings);
      assert steps[..last] == read;
      if owned == {} {
        return Ok(true), last, before;
      }
      ActiveIsOwned(bindings, before.ns, before.name);
      hide Owned, OwnsNothing;
      ghost var listed := steps;
      var e := DeleteAll(owned, bindings, last, before);
      assert steps[..last] == listed[..last] && steps[last] == listed[last];
      gone := if e.Some? then Err(e.value) else Ok(false);
    }

    /** Nothing else has been asked to go. */
    static ghost predicate NoneElse(before: World, steps: seq<Step>, last: nat) {
      forall i :: last <= i < |steps| && steps[i].DeleteBinding? ==> steps[i].key in Active(before.bindings, before.ns, before.name)
    }

    static lemma NoneElseMore(before: World, steps: seq<Step>, more: seq<Step>, last: nat)
      requires NoneElse(before, steps, last) && steps <= more
      requires forall i :: |steps| <= i < |more| && more[i].DeleteBinding? ==>
        more[i].key in Active(before.bindings, before.ns, before.name)
      ensures NoneElse(before, more, last)
    {
    }

    /** The last call failed in this way, or it did not, or was a delete of what is gone. */
    static ghost predicate Told(answers: seq<Option<Error>>, r: Result<bool>) {
      && answers != []
      && var answer := answers[|answers| - 1];
      if r.Err? then answer == Some(r.error) && r.error != NotFound else answer in {None, Some(NotFound)}
    }

    /** Deletes what has been listed and is not going yet. */
    method DeleteAll(listed: set<Key>, bindings: Objects, ghost last: nat, ghost before: World) returns (e: Option<Error>)
      requires Valid() && last < |steps| && bindings == before.bindings
      requires listed <= Owned(bindings, before.ns, before.name) && AskedBut(before, listed, steps[last..])
      requires Told(answers, Ok(false)) && NoneElse(before, steps, last)
      modifies this
      ensures Valid() && old(steps) <= steps
      ensures e.None? ==> AskedBut(before, {}, steps[last..])
      ensures Told(answers, if e.Some? then Err(e.value) else Ok(false)) && NoneElse(before, steps, last)
    {
      hide Initial, Execute, LockHolds, Active, Owned, OwnsNothing, AskedBut, NoneElse;
      var owned := listed;
      while owned != {}
        invariant Valid() && old(steps) <= steps
        invariant owned <= listed && AskedBut(before, owned, steps[last..]) && Told(answers, Ok(false))
        invariant NoneElse(before, steps, last)
        decreases |owned|
      {
        var k :| k in owned;
        ActiveOf(bindings, before.ns, before.name, k);
        ghost var asked, rest := steps, owned - {k};
        assert rest + {k} == owned;
        owned := owned - {k};
        if !bindings[k].terminating {
          Others();
          var absent := k !in w.bindings;
          var failure := Call(DeleteBinding(k), !absent, NotFound);
          NoneElseMore(before, asked, steps, last);
          if failure.Some? && failure != Some(NotFound) {
            return failure;
          }
        }
        AskedOne(before, owned, k, asked, steps, last);
      }
      e := None;
    }

    /** All but `owned` of what `before` owned has been asked to go. */
    static ghost predicate AskedBut(before: World, owned: set<Key>, steps: seq<Step>) {
      forall k :: k in Active(before.bindings, before.ns, before.name) && k !in owned ==> DeleteBinding(k) in steps
    }

    static lemma ActiveIsOwned(s: Objects, ns: string, owner: string)
      ensures Active(s, ns, owner) <= Owned(s, ns, owner)
    {
    }

    static lemma AskedOne(before: World, owned: set<Key>, k: Key, asked: seq<Step>, steps: seq<Step>, last: nat)
      requires last < |asked| && asked <= steps && k !in owned && AskedBut(before, owned + {k}, asked[last..])
      requires k in Active(before.bindings, before.ns, before.name) ==> |asked| < |steps| && steps[|steps| - 1] == DeleteBinding(k)
      ensures AskedBut(before, owned, steps[last..])
    {
      assert steps[last..] == asked[last..] + steps[|asked|..];
      if |asked| < |steps| {
        assert steps[last..][|steps| - 1 - last] == steps[|steps| - 1];
      }
    }

    /** Whatever a sync does to bindings, and however it ends. */
    method Sync() returns (r: Result<nat>)
      requires Valid() && w.pc.Syncing?
      modifies this`w, this`steps
      ensures Valid() && old(steps) <= steps && w.pc.Syncing?
    {
      var n: int := *;
      for i := 0 to if n < 0 then 0 else n
        invariant Valid() && old(steps) <= steps && w.pc.Syncing?
      {
        Others();
        var objects: Objects := *;
        Do(SyncWrite(objects));
      }
      var failed: bool, e: Error, invalid: nat := *, *, *;
      r := if failed then Err(e) else Ok(invalid);
    }

    /** The call `s` was made as number `last`, and met the world `before`. */
    static ghost predicate Made(start: World, steps: seq<Step>, last: nat, before: World, s: Step) {
      last < |steps| && steps[last] == s && Sensible(start) && before == Execute(start, steps[..last])
    }

    /** After call number `last` the owner `before` had carries our finalizer too, after its own. */
    static ghost predicate Carries(start: World, steps: seq<Step>, last: nat, before: World) {
      && Sensible(start) && Sensible(before) && last < |steps|
      && var after := Execute(start, steps[..last + 1]);
      && Live(before).Some? && Adopted(Live(after), Live(before).value.uid)
      && Live(after).value.finalizers == Live(before).value.finalizers + ["k8s.pliu.dev/binding-cleanup"]
    }

    /** After call number `last` there is no owner, or it does not carry our finalizer. */
    static ghost predicate LetsGo(start: World, steps: seq<Step>, last: nat) {
      && Sensible(start) && last < |steps|
      && var after := Execute(start, steps[..last + 1]);
      Live(after).None? || "k8s.pliu.dev/binding-cleanup" !in Live(after).value.finalizers
    }

    static lemma Carried(start: World, read: seq<Step>, steps: seq<Step>)
      requires Initial(start) && Sensible(start) && steps == read + [PatchAdd]
      requires var w := Execute(start, read); w.pc.Adding? && LockHolds(w, w.pc.at)
      ensures Carries(start, steps, |read|, Execute(start, read))
    {
      hide Execute, LockHolds;
      AdditionAdds(start, read);
      assert steps[..|read| + 1] == steps;
    }

    static lemma LetGone(start: World, read: seq<Step>, steps: seq<Step>)
      requires Initial(start) && Sensible(start) && steps == read + [PatchRemove]
      requires var w := Execute(start, read); w.pc.Releasing? && LockHolds(w, w.pc.at)
      ensures LetsGo(start, steps, |read|)
    {
      hide Execute, LockHolds;
      ReleasePoint(start, read);
      assert steps[..|read| + 1] == steps;
    }

    /** The cache shows no owner, the finalizer's removal was accepted, or a completed
        sync was reported. */
    static ghost predicate Over(start: World, steps: seq<Step>, last: nat, before: World, synced: Option<Result<nat>>) {
      || (Made(start, steps, last, before, Begin) && before.history[before.seen].None?)
      || (Made(start, steps, last, before, PatchRemove) && before.pc.Releasing? && LockHolds(before, before.pc.at)
        && LetsGo(start, steps, last))
      || (Made(start, steps, last, before, PatchStatus) && before.pc.Syncing? && Live(before).Some?
        && synced.Some? && synced.value.Ok?)
    }

    /** The finalizer was added, or every binding a live list showed has been asked to go. */
    static ghost predicate Waiting(start: World, steps: seq<Step>, last: nat, before: World) {
      || (Made(start, steps, last, before, PatchAdd) && before.pc.Adding? && LockHolds(before, before.pc.at)
        && Carries(start, steps, last, before))
      || (Made(start, steps, last, before, ListBindings) && !OwnsNothing(before) && Requested(before, steps[last..]))
    }

    /** The sync was rejected as invalid, and that was reported. */
    static ghost predicate Rejected(start: World, steps: seq<Step>, last: nat, before: World, synced: Option<Result<nat>>) {
      && Made(start, steps, last, before, PatchStatus) && before.pc.Syncing? && Live(before).Some?
      && synced == Some(Err(Invalid))
    }

    static ghost predicate Justified(start: World, steps: seq<Step>, out: Outcome, last: nat, before: World,
      synced: Option<Result<nat>>)
    {
      && (out.Finished? ==> Over(start, steps, last, before, synced))
      && (out.Requeue? ==> Waiting(start, steps, last, before))
      && (out.Terminal? ==> Rejected(start, steps, last, before, synced))
    }

    static lemma StaysJustified(start: World, steps: seq<Step>, more: seq<Step>, out: Outcome, last: nat, before: World,
      synced: Option<Result<nat>>)
      requires Justified(start, steps, out, last, before, synced)
      ensures Justified(start, steps + more, out, last, before, synced)
    {
      hide LockHolds, OwnsNothing, Live, Execute;
      if last < |steps| {
        assert (steps + more)[..last] == steps[..last] && (steps + more)[..last + 1] == steps[..last + 1];
        assert (steps + more)[last..] == steps[last..] + more;
      }
    }

    /** What a patch that is not accepted is answered. */
    static function Refusal(w: World): Error
      requires Sensible(w)
    {
      if Live(w).None? then NotFound else Conflict
    }

    /** The owner is going: its bindings go first, then its finalizer. */
    method Release() returns (out: Outcome, ghost last: nat, ghost before: World)
      requires Valid() && w.pc.Listing?
      modifies this
      ensures Valid() && old(steps) <= steps && Justified(start, steps, out, last, before, None)
      ensures AsAnswered(out, None, answers)
    {
      hide Initial, Execute, LockHolds, OwnsNothing;
      var gone;
      gone, last, before := FinalizeBindings();
      if gone.Err? || !gone.value {
        return if gone.Ok? then Requeue else Retry(gone.error), last, before;
      }
      Others();
      last, before := |steps|, w;
      ghost var read := steps;
      var e := Call(PatchRemove, LockHolds(w, w.pc.at), Refusal(w));
      assert e.None? ==> steps[..last] == read;
      if e.None? {
        LetGone(start, read, steps);
      }
      out := if e.None? then Finished else Retry(e.value);
    }

    /** The owner has no finalizer of ours yet. */
    method Adopt() returns (out: Outcome, ghost last: nat, ghost before: World)
      requires Valid() && w.pc.Adding?
      modifies this
      ensures Valid() && old(steps) <= steps && Justified(start, steps, out, last, before, None)
      ensures AsAnswered(out, None, answers)
    {
      hide Initial, Execute, LockHolds;
      Others();
      last, before := |steps|, w;
      ghost var read := steps;
      var e := Call(PatchAdd, LockHolds(w, w.pc.at), Refusal(w));
      assert e.None? ==> steps[..last] == read;
      if e.None? {
        Carried(start, read, steps);
      }
      out := if e.None? then Requeue else Retry(e.value);
    }

    /** The outcome is what the last answer, and the sync before it, if there was one, call for:
        a failed call is retried with its error, and nothing else is but a failed sync; after
        an accepted report a completed sync is over, a rejected spec is, and any other failure
        of the sync is retried. */
    static ghost predicate AsAnswered(out: Outcome, synced: Option<Result<nat>>, answers: seq<Option<Error>>) {
      && answers != []
      && var answer := answers[|answers| - 1];
      match synced
      case None => (if out.Retry? then answer == Some(out.error) else !out.Terminal? && answer in {None, Some(NotFound)})
      case Some(r) =>
        if answer.Some? then out == Retry(answer.value)
        else match r
          case Ok(_) => out == Finished
          case Err(Invalid) => out == Terminal(Invalid)
          case Err(e) => out == Retry(e)
    }

    method SyncAndReport() returns (out: Outcome, ghost last: nat, ghost before: World, ghost synced: Option<Result<nat>>)
      requires Valid() && w.pc.Syncing?
      modifies this
      ensures Valid() && old(steps) <= steps && Justified(start, steps, out, last, before, synced)
      ensures synced.Some? && AsAnswered(out, synced, answers)
    {
      hide Initial, Execute;
      var r := Sync();
      synced := Some(r);
      Others();
      last, before := |steps|, w;
      ghost var read := steps;
      var e := Call(PatchStatus, Live(w).Some?, NotFound);
      assert e.None? ==> steps[..last] == read;
      out := if e.Some? then Retry(e.value) else if r.Err? then TerminalIfInvalid(r.error) else Finished;
    }

    /** One pass. It ends without an error or a retry only when there is nothing more to
        do: `last` is the call that settled it, `before` the world that call met, and
        `synced` how the sync ended, if there was one. Being a stretch of a run, it keeps
        every invariant of the machine. */
    method Reconcile() returns (out: Outcome, ghost last: nat, ghost before: World, ghost synced: Option<Result<nat>>)
      requires Valid() && w.pc.Idle?
      modifies this
      ensures Valid() && w.pc.Idle? && old(steps) <= steps
      ensures Justified(start, steps, out, last, before, synced)
      ensures AsAnswered(out, synced, answers)
    {
      hide Initial, Execute, LockHolds, Justified;
      last, before, synced := 0, w, None;
      Others();
      var failure := Read();
      if failure.Some? {
        out := Retry(failure.value);
        UnsettledIsJustified(start, steps, out, last, before, synced);
        return;
      }
      last, before := |steps|, w;
      ghost var first := steps;
      Do(Begin);
      if w.pc.Idle? {
        out := Finished;
        assert steps[..last] == first;
        AbsentIsJustified(start, steps, last, before);
        return;
      }
      if w.pc.Listing? {
        out, last, before := Release();
      } else if w.pc.Adding? {
        out, last, before := Adopt();
      } else {
        out, last, before, synced := SyncAndReport();
      }
      ghost var made := steps;
      if !w.pc.Idle? {
        Do(End);
        StaysJustified(start, made, [End], out, last, before, synced);
      }
    }

    static lemma UnsettledIsJustified(start: World, steps: seq<Step>, out: Outcome, last: nat, before: World,
      synced: Option<Result<nat>>)
      requires out.Retry?
      ensures Justified(start, steps, out, last, before, synced)
    {
    }

    static lemma AbsentIsJustified(start: World, steps: seq<Step>, last: nat, before: World)
      requires Made(start, steps, last, before, Begin) && before.history[before.seen].None?
      ensures Justified(start, steps, Finished, last, before, None)
    {
    }
  }
}
