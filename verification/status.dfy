/** What a pass reports about itself, and what a viewer makes of it. */
module Statuses {
  import opened Cluster
  import opened Access

  const READY := "Ready"

  datatype Condition = Condition(kind: string, holds: bool, reason: string, message: string, observedGeneration: nat)

  datatype Status = Status(observedGeneration: nat, conditions: seq<Condition>, invalidReferences: seq<InvalidReference>)

  /** How a pass ended: on which generation, with what result, and the text of its error
      or of its being in sync. */
  datatype PassEnd = PassEnd(generation: nat, result: Result<seq<InvalidReference>>, text: string)

  function ReadyFor(p: PassEnd): Condition {
    if p.result.Err? then Condition(READY, false, "SyncFailed", p.text, p.generation)
    else if p.result.value != [] then
      Condition(READY, false, "InvalidReferences", "One or more ClusterRole references are invalid", p.generation)
    else Condition(READY, true, "Reconciled", p.text, p.generation)
  }

  /** What Ready says of a pass: that it failed, with its error; that it completed with
      invalid references; or that it reconciled. It is about the generation of the pass. */
  lemma ReadyTold(p: PassEnd)
    ensures
      var c := ReadyFor(p);
      && c.kind == "Ready" && c.observedGeneration == p.generation
      && (c.holds <==> p.result.Ok? && p.result.value == [])
      && (p.result.Err? ==> c.reason == "SyncFailed" && c.message == p.text)
      && (p.result.Ok? && p.result.value != [] ==>
        c.reason == "InvalidReferences" && c.message == "One or more ClusterRole references are invalid")
      && (c.holds ==> c.reason == "Reconciled" && c.message == p.text)
  {
  }

  /** The first condition of a kind. */
  function Find(conditions: seq<Condition>, kind: string): Option<Condition> {
    if conditions == [] then None
    else if conditions[0].kind == kind then Some(conditions[0])
    else Find(conditions[1..], kind)
  }

  /** Replaces the first condition of its kind, or appends. */
  function Set(conditions: seq<Condition>, c: Condition): seq<Condition> {
    if conditions == [] then [c]
    else if conditions[0].kind == c.kind then [c] + conditions[1..]
    else [conditions[0]] + Set(conditions[1..], c)
  }

  lemma {:induction false} SetFinds(conditions: seq<Condition>, c: Condition, kind: string)
    ensures Find(Set(conditions, c), c.kind) == Some(c)
    ensures kind != c.kind ==> Find(Set(conditions, c), kind) == Find(conditions, kind)
  {
    if conditions != [] && conditions[0].kind != c.kind {
      SetFinds(conditions[1..], c, kind);
    }
  }

  /** The first condition of the kind is replaced where it is, or there is none and the new
      one comes last; every other condition stays as and where it was. */
  lemma {:induction false} SetReplaces(conditions: seq<Condition>, c: Condition)
    ensures
      var (after, known) := (Set(conditions, c), exists i :: 0 <= i < |conditions| && conditions[i].kind == c.kind);
      && |after| == |conditions| + (if known then 0 else 1) && (!known ==> after[|conditions|] == c)
      && (forall i :: 0 <= i < |conditions| ==>
        after[i] == if FirstOfKind(conditions, c.kind, i) then c else conditions[i])
  {
    if conditions != [] && conditions[0].kind != c.kind {
      var rest := conditions[1..];
      SetReplaces(rest, c);
      assert forall i :: 0 <= i < |rest| ==> conditions[i + 1] == rest[i];
      assert forall i :: 0 < i < |conditions| ==> Set(conditions, c)[i] == Set(rest, c)[i - 1];
      forall i | 0 < i < |conditions|
        ensures FirstOfKind(conditions, c.kind, i) <==> FirstOfKind(rest, c.kind, i - 1)
      {
        if FirstOfKind(rest, c.kind, i - 1) {
          assert forall j :: 0 < j < i ==> conditions[j] == rest[j - 1];
        }
      }
      if i :| 0 <= i < |conditions| && conditions[i].kind == c.kind {
        assert rest[i - 1].kind == c.kind;
      }
    }
  }

  /** Condition `i` is the first of its kind. */
  ghost predicate FirstOfKind(conditions: seq<Condition>, kind: string, i: nat)
    requires i < |conditions|
  {
    conditions[i].kind == kind && forall j :: 0 <= j < i ==> conditions[j].kind != kind
  }

  lemma {:induction false} FindsFirst(conditions: seq<Condition>, kind: string, i: nat)
    requires i < |conditions| && FirstOfKind(conditions, kind, i)
    ensures Find(conditions, kind) == Some(conditions[i])
  {
    if i > 0 {
      FindsFirst(conditions[1..], kind, i - 1);
    }
  }

  lemma {:induction false} FindsNone(conditions: seq<Condition>, kind: string)
    ensures Find(conditions, kind) == None <==> forall i :: 0 <= i < |conditions| ==> conditions[i].kind != kind
  {
    if conditions != [] {
      FindsNone(conditions[1..], kind);
      assert forall i :: 0 < i < |conditions| ==> conditions[i] == conditions[1..][i - 1];
      assert forall i :: 0 <= i < |conditions| - 1 ==> conditions[1..][i] == conditions[i + 1];
    }
  }

  /** Only a completed pass refreshes what belongs to the spec as a whole. */
  function Reported(s: Status, p: PassEnd): Status {
    var conditions := Set(s.conditions, ReadyFor(p));
    if p.result.Ok? then Status(p.generation, conditions, p.result.value) else s.(conditions := conditions)
  }

  /** A merge patch from `read` to `next`, applied to `live`: what the two agree on is left
      as it is, and a list that changed is replaced whole. */
  function Patched(live: Status, read: Status, next: Status): Status {
    Status(
      if next.observedGeneration != read.observedGeneration then next.observedGeneration else live.observedGeneration,
      if next.conditions != read.conditions then next.conditions else live.conditions,
      if next.invalidReferences != read.invalidReferences then next.invalidReferences else live.invalidReferences)
  }

  /** A pass that read the status that is there reports what it means to; one that read an
      older status does so exactly if every field it did not change has not been changed
      since, or is changed to the same value. */
  lemma PatchReports(live: Status, read: Status, p: PassEnd)
    ensures Patched(live, live, Reported(live, p)) == Reported(live, p)
    ensures
      var next := Reported(read, p);
      Patched(live, read, next) == next <==>
        && (next.observedGeneration == read.observedGeneration ==> live.observedGeneration == read.observedGeneration)
        && (next.conditions == read.conditions ==> live.conditions == read.conditions)
        && (next.invalidReferences == read.invalidReferences ==> live.invalidReferences == read.invalidReferences)
  {
  }

  /** An owner's status on the server, and its gauge. */
  class StatusKeeper {
    var live: Status
    var gauge: Option<nat>

    constructor ()
      ensures live == Status(0, [], []) && gauge == None
    {
      live, gauge := Status(0, [], []), None;
    }

    method SetCondition(conditions: seq<Condition>, c: Condition) returns (r: seq<Condition>)
      ensures r == Set(conditions, c)
    {
      var i := 0;
      while i < |conditions| && conditions[i].kind != c.kind
        invariant 0 <= i <= |conditions|
        invariant Set(conditions, c) == conditions[..i] + Set(conditions[i..], c)
      {
        assert conditions[i..][1..] == conditions[i + 1..];
        i := i + 1;
      }
      r := if i == |conditions| then conditions + [c] else conditions[i := c];
    }

    /** The gauge is set before the patch is sent, and stays set if it is refused. The
        patch is computed from the status the pass has read. */
    method Report(read: Status, p: PassEnd) returns (e: Option<Error>)
      modifies this
      ensures gauge == if p.result.Ok? then Some(|p.result.value|) else old(gauge)
      ensures live == Patched(old(live), read, Reported(read, p)) || (e.Some? && live == old(live))
    {
      var next := read;
      if p.result.Ok? {
        gauge := Some(|p.result.value|);
        next := next.(observedGeneration := p.generation, invalidReferences := p.result.value);
      }
      var conditions := SetCondition(next.conditions, ReadyFor(p));
      next := next.(conditions := conditions);
      var reached: bool, answered: bool, refusal: Error := *, *, *;
      if !reached {
        return Some(refusal);
      }
      live := Patched(live, read, next);
      e := if answered then None else Some(Other);
    }

    /** Reports one pass after another, each from the status that is there. */
    method ReportAll(passes: seq<PassEnd>) returns (accepted: bool)
      modifies this
      ensures accepted ==> live == AllReported(old(live), passes) && gauge == Gauge(old(gauge), passes)
    {
      accepted := true;
      assert passes[..0] == [];
      for i := 0 to |passes|
        invariant accepted ==> live == AllReported(old(live), passes[..i]) && gauge == Gauge(old(gauge), passes[..i])
      {
        PatchReports(live, live, passes[i]);
        var e := Report(live, passes[i]);
        accepted := accepted && e.None?;
        assert passes[..i + 1][..i] == passes[..i];
      }
      assert passes[..|passes|] == passes;
    }
  }

  function AllReported(s: Status, passes: seq<PassEnd>): Status {
    if passes == [] then s else Reported(AllReported(s, passes[..|passes| - 1]), passes[|passes| - 1])
  }

  function Gauge(g: Option<nat>, passes: seq<PassEnd>): Option<nat> {
    if passes == [] then g
    else
      var p := passes[|passes| - 1];
      if p.result.Ok? then Some(|p.result.value|) else Gauge(g, passes[..|passes| - 1])
  }

  /** The last pass that completed. */
  function LastCompleted(passes: seq<PassEnd>): (p: Option<PassEnd>)
    ensures p.Some? ==> p.value.result.Ok?
  {
    if passes == [] then None
    else if passes[|passes| - 1].result.Ok? then Some(passes[|passes| - 1])
    else LastCompleted(passes[..|passes| - 1])
  }

  ghost predicate Ordered(passes: seq<PassEnd>) {
    forall i, j :: 0 <= i <= j < |passes| ==> passes[i].generation <= passes[j].generation
  }

  lemma {:induction false} LastCompletedIn(passes: seq<PassEnd>)
    ensures LastCompleted(passes).Some? ==> LastCompleted(passes).value in passes
  {
    if passes != [] {
      LastCompletedIn(passes[..|passes| - 1]);
    }
  }

  /** Over every sequence of reported passes: the generation and the invalid references
      are the last completed pass's, Ready is the last pass's, the two generations are
      in order, and the gauge counts the recorded references. */
  lemma {:induction false} StatusOverRuns(passes: seq<PassEnd>)
    requires Ordered(passes)
    ensures
      var (s, done) := (AllReported(Status(0, [], []), passes), LastCompleted(passes));
      && s.observedGeneration == (if done.Some? then done.value.generation else 0)
      && s.invalidReferences == (if done.Some? then done.value.result.value else [])
      && Gauge(None, passes) == (if done.Some? then Some(|s.invalidReferences|) else None)
      && (passes == [] ==> Find(s.conditions, READY) == None)
      && (passes != [] ==>
        && Find(s.conditions, READY) == Some(ReadyFor(passes[|passes| - 1]))
        && s.observedGeneration <= ReadyFor(passes[|passes| - 1]).observedGeneration)
  {
    if passes != [] {
      var earlier := passes[..|passes| - 1];
      StatusOverRuns(earlier);
      LastCompletedIn(passes);
      SetFinds(AllReported(Status(0, [], []), earlier).conditions, ReadyFor(passes[|passes| - 1]), READY);
    }
  }

  // ---- the viewer's verdict ----

  datatype Health = Pending | Healthy | Bad

  /** The first Ready condition, by an index loop. */
  method ReadyCondition(conditions: seq<Condition>) returns (c: Option<Condition>)
    ensures c == Find(conditions, READY)
  {
    for i := 0 to |conditions|
      invariant Find(conditions, READY) == Find(conditions[i..], READY)
    {
      if conditions[i].kind == READY {
        return Some(conditions[i]);
      }
      assert conditions[i..][1..] == conditions[i + 1..];
    }
    c := None;
  }

  /** A condition without an observed generation, or older than the spec, is not taken
      as agreement with it. */
  function HealthOf(conditions: seq<Condition>, generation: nat): Health {
    match Find(conditions, READY)
    case None => Pending
    case Some(c) =>
      if c.observedGeneration != 0 && c.observedGeneration < generation then Pending
      else if !c.holds then Bad else Healthy
  }

  /** The verdict of any list of conditions: without Ready it is pending; the first Ready one
      decides otherwise, pending if it says it is about an older spec, and by what it holds if
      it is about this one or does not say. */
  lemma HealthTold(conditions: seq<Condition>, generation: nat, i: nat)
    ensures (forall j :: 0 <= j < |conditions| ==> conditions[j].kind != "Ready") ==>
      HealthOf(conditions, generation) == Pending
    ensures i < |conditions| && FirstOfKind(conditions, "Ready", i) ==>
      var (h, c) := (HealthOf(conditions, generation), conditions[i]);
      && (h == Pending <==> 0 < c.observedGeneration < generation)
      && (h == Healthy <==> c.holds && !(0 < c.observedGeneration < generation))
  {
    FindsNone(conditions, READY);
    if i < |conditions| && FirstOfKind(conditions, "Ready", i) {
      FindsFirst(conditions, "Ready", i);
    }
  }

  /** The verdict is about the current spec, and Healthy only if its last pass completed
      and resolved every reference. */
  lemma HealthIsLastPass(passes: seq<PassEnd>, generation: nat)
    requires Ordered(passes)
    requires forall p :: p in passes ==> 0 < p.generation <= generation
    ensures
      var h := HealthOf(AllReported(Status(0, [], []), passes).conditions, generation);
      if passes == [] || passes[|passes| - 1].generation < generation then h == Pending
      else
        var last := passes[|passes| - 1];
        (h == Healthy <==> last.result == Ok([])) && h != Pending
  {
    assert passes == [] || passes[|passes| - 1] in passes;
    StatusOverRuns(passes);
  }
}
