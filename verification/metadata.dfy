/** The labels and annotations of a managed Namespace: a three-way merge between the
    spec, the live object and the inventory of keys the last applied spec asked for. */
module Metadata {
  import opened Cluster
  import opened Naming

  const MANAGED_METADATA := "k8s.pliu.dev/managed-metadata"

  datatype Inventory = Inventory(labels: seq<string>, annotations: seq<string>)

  /** An annotation's value: some text, or text that is the JSON of an inventory. */
  datatype Annotation = Text(text: string) | Json(inventory: Inventory)

  datatype Meta = Meta(labels: map<string, string>, annotations: map<string, Annotation>)

  /** The metadata a spec asks for. */
  datatype MetaSpec = MetaSpec(labels: map<string, string>, annotations: map<string, string>)

  const NO_META := Meta(map[], map[])

  function ReadInventory(m: Meta): Result<Inventory> {
    if MANAGED_METADATA !in m.annotations then Ok(Inventory([], []))
    else match m.annotations[MANAGED_METADATA]
      case Text(text) => if text == "" then Ok(Inventory([], [])) else Err(Other)
      case Json(inventory) => Ok(inventory)
  }

  /** The ascending list of a set of keys. */
  ghost function SortedKeys(keys: set<string>): (l: seq<string>)
    ensures Ascending(l) && Elements(l) == keys
  {
    if keys == {} then []
    else
      var k :| k in keys;
      var l := SortedKeys(keys - {k});
      InsertAscending(k, l);
      Insert(k, l)
  }

  function Texts(annotations: map<string, string>): map<string, Annotation> {
    map k | k in annotations :: Text(annotations[k])
  }

  ghost function InventoryOf(spec: MetaSpec): Inventory {
    Inventory(SortedKeys(spec.labels.Keys), SortedKeys(spec.annotations.Keys - {MANAGED_METADATA}))
  }

  /** What one applied pass makes of the metadata it finds. */
  ghost function Merge(m: Meta, spec: MetaSpec, owner: string): Result<Meta> {
    var previous := ReadInventory(m);
    if previous.Err? then Err(previous.error)
    else Ok(Meta(
      (m.labels - Elements(previous.value.labels)) + spec.labels + OwnerLabels(owner),
      (m.annotations - Elements(previous.value.annotations)) + Texts(spec.annotations)
        + map[MANAGED_METADATA := Json(InventoryOf(spec))]))
  }

  method Keys<V>(m: map<string, V>) returns (keys: seq<string>)
    ensures Elements(keys) == m.Keys
  {
    var rest := m.Keys;
    keys := [];
    while rest != {}
      invariant Elements(keys) + rest == m.Keys
      decreases |rest|
    {
      var k :| k in rest;
      keys, rest := keys + [k], rest - {k};
    }
  }

  /** A map's keys, sorted. */
  method SortedKeysOf<V>(m: map<string, V>) returns (keys: seq<string>)
    ensures keys == SortedKeys(m.Keys)
  {
    var unsorted := Keys(m);
    keys := NormalizedUsers(unsorted);
    NormalizedAscending(unsorted);
    AscendingUnique(keys, SortedKeys(m.Keys));
  }

  method WithoutKeys<V>(m: map<string, V>, keys: seq<string>) returns (r: map<string, V>)
    ensures r == m - Elements(keys)
  {
    r := m;
    for i := 0 to |keys|
      invariant r == m - Elements(keys[..i])
    {
      r := r - {keys[i]};
      assert keys[..i + 1] == keys[..i] + [keys[i]];
    }
    assert keys[..|keys|] == keys;
  }

  /** The mutation applied to the Namespace that was read. */
  method Mutate(m: Meta, spec: MetaSpec, owner: string) returns (r: Result<Meta>)
    ensures r == Merge(m, spec, owner)
  {
    hide Elements, Ascending, SortedKeys, ReadInventory, Texts;
    var previous := ReadInventory(m);
    if previous.Err? {
      return Err(previous.error);
    }
    var labels := WithoutKeys(m.labels, previous.value.labels);
    var annotations := WithoutKeys(m.annotations, previous.value.annotations);
    labels := labels + spec.labels;
    assert labels[LABEL_MANAGED_BY := MANAGED_BY][LABEL_OWNER_NAME := owner] == labels + OwnerLabels(owner);
    labels := labels[LABEL_MANAGED_BY := MANAGED_BY][LABEL_OWNER_NAME := owner];
    annotations := annotations + Texts(spec.annotations);
    assert (spec.annotations - {MANAGED_METADATA}).Keys == spec.annotations.Keys - {MANAGED_METADATA};
    var labelKeys := SortedKeysOf(spec.labels);
    var annotationKeys := SortedKeysOf(spec.annotations - {MANAGED_METADATA});
    var inventory := Inventory(labelKeys, annotationKeys);
    assert annotations[MANAGED_METADATA := Json(inventory)] == annotations + map[MANAGED_METADATA := Json(inventory)];
    annotations := annotations[MANAGED_METADATA := Json(inventory)];
    r := Ok(Meta(labels, annotations));
  }

  /** The inventory annotation holds a text that is not empty and not an inventory. */
  predicate Malformed(m: Meta) {
    && "k8s.pliu.dev/managed-metadata" in m.annotations
    && m.annotations["k8s.pliu.dev/managed-metadata"].Text? && m.annotations["k8s.pliu.dev/managed-metadata"].text != ""
  }

  /** There is no inventory annotation, or it is empty. */
  predicate NoInventory(m: Meta) {
    "k8s.pliu.dev/managed-metadata" !in m.annotations || m.annotations["k8s.pliu.dev/managed-metadata"] == Text("")
  }

  /** The merge fails exactly on a malformed inventory. */
  lemma MergeFails(m: Meta, spec: MetaSpec, owner: string)
    ensures Merge(m, spec, owner).Err? <==> Malformed(m)
    ensures ReadInventory(m).Err? <==> Malformed(m)
  {
  }

  /** Without an inventory nothing is removed: the spec's keys are laid over what is there,
      and the two owned labels and the inventory over those. */
  lemma FirstMerge(m: Meta, spec: MetaSpec, owner: string)
    requires NoInventory(m)
    ensures Merge(m, spec, owner).Ok?
    ensures
      var after := Merge(m, spec, owner).value;
      && after.labels == m.labels + spec.labels
        + map["app.kubernetes.io/managed-by" := "k8s-controller", "k8s.pliu.dev/owner-name" := owner]
      && after.annotations.Keys == m.annotations.Keys + spec.annotations.Keys + {"k8s.pliu.dev/managed-metadata"}
      && (forall k :: k in after.annotations && k != "k8s.pliu.dev/managed-metadata" ==>
        after.annotations[k] == if k in spec.annotations then Text(spec.annotations[k]) else m.annotations[k])
  {
    hide SortedKeys, Elements, InventoryOf;
    assert Elements([]) == {} by {
      NothingIn();
    }
    assert m.labels - {} == m.labels && m.annotations - {} == m.annotations;
  }

  lemma NothingIn()
    ensures Elements([]) == {}
  {
  }

  /** After every merge the inventory lists the spec's keys in ascending order, its own
      left out. */
  lemma MergeLists(m: Meta, spec: MetaSpec, owner: string)
    requires Merge(m, spec, owner).Ok?
    ensures ListsKeys(Merge(m, spec, owner).value, spec)
  {
    hide Elements, Texts, Ascending;
  }

  /** The stored inventory is that of `spec`. */
  ghost predicate ListsKeys(m: Meta, spec: MetaSpec) {
    && "k8s.pliu.dev/managed-metadata" in m.annotations && m.annotations["k8s.pliu.dev/managed-metadata"].Json?
    && var inventory := m.annotations["k8s.pliu.dev/managed-metadata"].inventory;
    && Ascending(inventory.labels) && Elements(inventory.labels) == spec.labels.Keys
    && Ascending(inventory.annotations)
    && Elements(inventory.annotations) == spec.annotations.Keys - {"k8s.pliu.dev/managed-metadata"}
  }

  // ---- what histories of passes and external edits amount to ----

  /** A pass whose write was accepted, or an edit by someone else, who leaves the
      inventory annotation alone. Passes that wrote nothing leave no event. */
  datatype Event = Applied(spec: MetaSpec) | Edited(to: Meta)

  /** `to`, with the inventory annotation of `m`. */
  function EditedMeta(m: Meta, to: Meta): Meta {
    Meta(to.labels, (to.annotations - {MANAGED_METADATA}) + (m.annotations - (m.annotations.Keys - {MANAGED_METADATA})))
  }

  ghost function Replay(m: Meta, owner: string, events: seq<Event>): Meta {
    if events == [] then m
    else
      var before := Replay(m, owner, events[..|events| - 1]);
      match events[|events| - 1]
      case Applied(spec) => var after := Merge(before, spec, owner); if after.Ok? then after.value else before
      case Edited(to) => EditedMeta(before, to)
  }

  /** The same history with no inventory on the object: the keys asked for last are
      simply remembered. The inventory annotation itself is not part of it. */
  datatype Memory = Memory(
    labels: map<string, string>,
    annotations: map<string, Annotation>,
    askedLabels: set<string>,
    askedAnnotations: set<string>)

  /** Owned keys come first, then the spec's; a key asked for before and no longer is
      dropped; every other key keeps the value it has. */
  function IdealKeys<V>(now: map<string, V>, asked: set<string>, spec: map<string, V>, owned: map<string, V>): map<string, V> {
    map k | k in now.Keys + spec.Keys + owned.Keys && (k in owned || k in spec || k !in asked) ::
      if k in owned then owned[k] else if k in spec then spec[k] else now[k]
  }

  ghost function Plain(annotations: map<string, Annotation>): map<string, Annotation> {
    annotations - {MANAGED_METADATA}
  }

  ghost function Remember(i: Memory, owner: string, events: seq<Event>): Memory {
    if events == [] then i
    else
      var before := Remember(i, owner, events[..|events| - 1]);
      match events[|events| - 1]
      case Applied(spec) =>
        Memory(
          IdealKeys(before.labels, before.askedLabels, spec.labels, OwnerLabels(owner)),
          IdealKeys(before.annotations, before.askedAnnotations, Texts(spec.annotations) - {MANAGED_METADATA}, map[]),
          spec.labels.Keys,
          spec.annotations.Keys - {MANAGED_METADATA})
      case Edited(to) => before.(labels := to.labels, annotations := Plain(to.annotations))
  }

  ghost predicate Corresponds(m: Meta, i: Memory) {
    && m.labels == i.labels
    && Plain(m.annotations) == i.annotations
    && ReadInventory(m).Ok?
    && Elements(ReadInventory(m).value.labels) == i.askedLabels
    && Elements(ReadInventory(m).value.annotations) - {MANAGED_METADATA} == i.askedAnnotations
  }

  ghost function MemoryOf(m: Meta): Memory
    requires ReadInventory(m).Ok?
  {
    var inventory := ReadInventory(m).value;
    Memory(m.labels, Plain(m.annotations), Elements(inventory.labels), Elements(inventory.annotations) - {MANAGED_METADATA})
  }

  lemma EditKeepsInventory(m: Meta, to: Meta)
    ensures ReadInventory(EditedMeta(m, to)) == ReadInventory(m)
    ensures Plain(EditedMeta(m, to).annotations) == Plain(to.annotations)
  {
  }

  /** Over every history, the merge driven by the inventory on the object does what
      remembering the last applied spec would do. */
  lemma {:induction false} InventoryRemembers(m: Meta, owner: string, events: seq<Event>)
    requires ReadInventory(m).Ok?
    ensures Corresponds(Replay(m, owner, events), Remember(MemoryOf(m), owner, events))
  {
    if events != [] {
      var earlier, last := events[..|events| - 1], events[|events| - 1];
      InventoryRemembers(m, owner, earlier);
      var (before, memory) := (Replay(m, owner, earlier), Remember(MemoryOf(m), owner, earlier));
      match last
      case Applied(spec) => MergeRemembers(before, memory, spec, owner);
      case Edited(to) => EditKeepsInventory(before, to);
    }
  }

  lemma MergeRemembers(m: Meta, i: Memory, spec: MetaSpec, owner: string)
    requires Corresponds(m, i)
    ensures Merge(m, spec, owner).Ok?
    ensures
      var after := Merge(m, spec, owner).value;
      && after.labels == IdealKeys(i.labels, i.askedLabels, spec.labels, OwnerLabels(owner))
      && Plain(after.annotations)
        == IdealKeys(i.annotations, i.askedAnnotations, Texts(spec.annotations) - {MANAGED_METADATA}, map[])
      && ReadInventory(after) == Ok(InventoryOf(spec))
  {
    hide OwnerLabels, SortedKeys, Elements, Texts, IdealKeys;
    var previous := ReadInventory(m).value;
    OverlayIsIdeal(m.labels, i.askedLabels, spec.labels, OwnerLabels(owner));
    PlainOverlayIsIdeal(m.annotations, Elements(previous.annotations), Texts(spec.annotations), Json(InventoryOf(spec)));
  }

  lemma OverlayIsIdeal<V>(now: map<string, V>, asked: set<string>, spec: map<string, V>, owned: map<string, V>)
    ensures now - asked + spec + owned == IdealKeys(now, asked, spec, owned)
  {
    assert (now - asked + spec + owned).Keys == IdealKeys(now, asked, spec, owned).Keys;
  }

  lemma PlainOverlayIsIdeal(now: map<string, Annotation>, asked: set<string>, spec: map<string, Annotation>, inventory: Annotation)
    ensures Plain(now - asked + spec + map[MANAGED_METADATA := inventory])
      == IdealKeys(Plain(now), asked - {MANAGED_METADATA}, spec - {MANAGED_METADATA}, map[])
  {
    var (a, b) := (Plain(now - asked + spec + map[MANAGED_METADATA := inventory]),
      IdealKeys(Plain(now), asked - {MANAGED_METADATA}, spec - {MANAGED_METADATA}, map[]));
    assert a.Keys == b.Keys;
  }

  /** The law of one applied pass, after any history whose last pass applied `previous`:
      owned keys, then requested keys, have their values; keys no longer requested are
      gone; every other key keeps what it had; the inventory lists the new spec's keys. */
  lemma {:induction false} AppliedLaw(m: Meta, owner: string, events: seq<Event>, previous: MetaSpec, edits: seq<Event>, spec: MetaSpec)
    requires ReadInventory(m).Ok? && forall e :: e in edits ==> e.Edited?
    ensures
      var history := events + [Applied(previous)] + edits;
      var (before, after) := (Replay(m, owner, history), Replay(m, owner, history + [Applied(spec)]));
      && (forall k :: k in OwnerLabels(owner) ==> k in after.labels && after.labels[k] == OwnerLabels(owner)[k])
      && (forall k :: k !in OwnerLabels(owner) ==>
        && (k in spec.labels ==> k in after.labels && after.labels[k] == spec.labels[k])
        && (k !in spec.labels && k in previous.labels ==> k !in after.labels)
        && (k !in spec.labels && k !in previous.labels ==>
          (k in after.labels <==> k in before.labels) && (k in before.labels ==> after.labels[k] == before.labels[k])))
      && (forall k :: k != MANAGED_METADATA ==>
        && (k in spec.annotations ==> k in after.annotations && after.annotations[k] == Text(spec.annotations[k]))
        && (k !in spec.annotations && k in previous.annotations ==> k !in after.annotations)
        && (k !in spec.annotations && k !in previous.annotations ==>
          (k in after.annotations <==> k in before.annotations)
          && (k in before.annotations ==> after.annotations[k] == before.annotations[k])))
      && MANAGED_METADATA in after.annotations && after.annotations[MANAGED_METADATA] == Json(InventoryOf(spec))
      && ListsKeys(after, spec)
  {
    var applied := events + [Applied(previous)];
    var history := applied + edits;
    EditsForgetNothing(m, owner, applied, edits);
    assert applied[..|applied| - 1] == events;
    var longer := history + [Applied(spec)];
    assert longer[..|longer| - 1] == history;
    InventoryRemembers(m, owner, history);
    var (before, after) := (Replay(m, owner, history), Replay(m, owner, longer));
    MergeRemembers(before, Remember(MemoryOf(m), owner, history), spec, owner);
    assert forall k :: k != MANAGED_METADATA ==> (k in after.annotations <==> k in Plain(after.annotations));
    assert forall k :: k != MANAGED_METADATA ==> (k in before.annotations <==> k in Plain(before.annotations));
  }

  lemma {:induction false} EditsForgetNothing(m: Meta, owner: string, events: seq<Event>, edits: seq<Event>)
    requires ReadInventory(m).Ok? && forall e :: e in edits ==> e.Edited?
    ensures
      var (a, b) := (Remember(MemoryOf(m), owner, events), Remember(MemoryOf(m), owner, events + edits));
      a.askedLabels == b.askedLabels && a.askedAnnotations == b.askedAnnotations
  {
    if edits == [] {
      assert events + edits == events;
    } else {
      var fewer := edits[..|edits| - 1];
      assert forall e :: e in fewer ==> e in edits;
      EditsForgetNothing(m, owner, events, fewer);
      assert (events + edits)[..|events + edits| - 1] == events + fewer;
      assert (events + edits)[|events + edits| - 1] == edits[|edits| - 1] && edits[|edits| - 1] in edits;
    }
  }

  /** What others did in a history. */
  function EditsOf(events: seq<Event>): seq<Event> {
    if events == [] then []
    else
      var last := events[|events| - 1];
      EditsOf(events[..|events| - 1]) + if last.Edited? then [last] else []
  }

  /** From a malformed inventory on, over every history that leaves it alone, it stays what
      it is, and passes change nothing: what is left is the edits of others. */
  lemma {:induction false} MalformedChangesNothing(m: Meta, owner: string, events: seq<Event>)
    requires Malformed(m)
    ensures Malformed(Replay(m, owner, events))
    ensures Replay(m, owner, events).annotations["k8s.pliu.dev/managed-metadata"]
      == m.annotations["k8s.pliu.dev/managed-metadata"]
    ensures Replay(m, owner, events) == Replay(m, owner, EditsOf(events))
  {
    if events != [] {
      var earlier, last := events[..|events| - 1], events[|events| - 1];
      MalformedChangesNothing(m, owner, earlier);
      if last.Edited? {
        EditKeepsInventory(Replay(m, owner, earlier), last.to);
        assert (EditsOf(earlier) + [last])[..|EditsOf(earlier)|] == EditsOf(earlier);
      } else {
        MergeFails(Replay(m, owner, earlier), last.spec, owner);
        assert EditsOf(events) == EditsOf(earlier);
      }
    }
  }

  /** Merging again changes nothing, whatever keys the spec uses. */
  lemma MergeIdempotent(m: Meta, spec: MetaSpec, owner: string)
    requires Merge(m, spec, owner).Ok?
    ensures Merge(Merge(m, spec, owner).value, spec, owner) == Merge(m, spec, owner)
  {
    var previous := ReadInventory(m).value;
    OverlayTwice(m.labels - Elements(previous.labels), spec.labels, OwnerLabels(owner), spec.labels.Keys);
    OverlayTwice(m.annotations - Elements(previous.annotations), Texts(spec.annotations),
      map[MANAGED_METADATA := Json(InventoryOf(spec))], spec.annotations.Keys - {MANAGED_METADATA});
  }

  lemma OverlayTwice<V>(now: map<string, V>, spec: map<string, V>, owned: map<string, V>, asked: set<string>)
    requires asked <= spec.Keys
    ensures now + spec + owned - asked + spec + owned == now + spec + owned
  {
  }

  // ---- the Namespace object ----

  datatype Namespace = Namespace(version: nat, meta: Meta)

  function MetaOf(n: Option<Namespace>): Meta {
    if n.Some? then n.value.meta else NO_META
  }

  /** A resource version names one state. */
  ghost predicate Revised(log: seq<Option<Namespace>>, clock: nat) {
    && (forall i :: 0 <= i < |log| && log[i].Some? ==> log[i].value.version <= clock)
    && (forall i, j | 0 <= i < |log| && 0 <= j < |log| && log[i].Some? && log[j].Some? ::
      log[i].value.version == log[j].value.version ==> log[i] == log[j])
  }

  /** The one Namespace a ManagedNamespace manages, behind the same kind of cache. */
  class NamespaceStore {
    const wire: Wire
    const name: string
    var log: seq<Option<Namespace>>
    var seen: nat
    var clock: nat

    ghost predicate Valid()
      reads this
    {
      seen < |log| && Revised(log, clock)
    }

    function Live(): Option<Namespace>
      requires 0 < |log|
      reads this
    {
      log[|log| - 1]
    }

    constructor (wire: Wire, name: string, live: Option<Namespace>, version: nat)
      requires live.Some? ==> live.value.version <= version
      ensures Valid() && log == [live] && seen == 0 && this.wire == wire && this.name == name
    {
      this.wire, this.name := wire, name;
      log, seen, clock := [live], 0, version;
    }

    /** The cache catches up completely. */
    method CatchUp()
      requires Valid()
      modifies this`seen
      ensures Valid() && seen == |log| - 1
    {
      seen := |log| - 1;
    }

    method Get() returns (r: Result<Namespace>)
      requires Valid()
      modifies this`seen, wire
      ensures Valid() && old(seen) <= seen
      ensures r.Ok? ==> log[seen] == Some(r.value)
      ensures r == Err(NotFound) ==> log[seen] == None
      ensures Prompt(wire.fates, old(wire.tick)) ==> seen == |log| - 1 && (r.Ok? || r == Err(NotFound))
      ensures wire.calls == old(wire.calls) + [Call(NAMESPACES, GET, Key("", name), |log|, ErrorOf(r))]
      ensures wire.tick == old(wire.tick) + 1
    {
      var f := wire.Next();
      if f.to.None? {
        seen := |log| - 1;
      } else if seen <= f.to.value < |log| {
        seen := f.to.value;
      }
      r := if !f.reached || !f.answered then Err(Other)
        else if log[seen].Some? then Ok(log[seen].value) else Err(NotFound);
      wire.calls := wire.calls + [Call(NAMESPACES, GET, Key("", name), |log|, ErrorOf(r))];
    }

    /** A create, or with a version read before an update of that version only. */
    method Write(meta: Meta, version: Option<nat>) returns (e: Option<Error>)
      requires Valid()
      modifies this`log, this`clock, wire
      ensures Valid()
      ensures log == old(log) || (log == old(log) + [Some(Namespace(old(clock) + 1, meta))]
        && (old(Live()).Some? <==> version.Some?) && (version.Some? ==> old(Live()).value.version == version.value))
      ensures e.None? ==> log != old(log)
      ensures (Answers(wire.fates, old(wire.tick)) && (version.Some? <==> old(Live()).Some?)
        && (version.Some? ==> old(Live()).value.version == version.value)) ==> e.None?
      ensures wire.tick == old(wire.tick) + 1
      ensures wire.calls == old(wire.calls)
        + [Call(NAMESPACES, if version.None? then CREATE else UPDATE, Key("", name), |log|, e)]
    {
      var f := wire.Next();
      if !f.reached {
        e := Some(f.refusal);
      } else if version.None? && Live().Some? {
        e := Some(AlreadyExists);
      } else if version.Some? && Live().None? {
        e := Some(NotFound);
      } else if version.Some? && Live().value.version != version.value {
        e := Some(Conflict);
      } else {
        log, clock := log + [Some(Namespace(clock + 1, meta))], clock + 1;
        e := if f.answered then None else Some(Other);
      }
      wire.calls := wire.calls
        + [Call(NAMESPACES, if version.None? then CREATE else UPDATE, Key("", name), |log|, e)];
    }
  }

  ghost predicate NothingToMerge(api: NamespaceStore, spec: MetaSpec, owner: string)
    requires api.Valid()
    reads api
  {
    && api.seen == |api.log| - 1 && api.Live().Some?
    && Merge(MetaOf(api.Live()), spec, owner) == Ok(MetaOf(api.Live()))
  }

  /** The Namespace there is now has the merge of the metadata there was. */
  ghost predicate Merged(before: seq<Option<Namespace>>, after: seq<Option<Namespace>>, spec: MetaSpec, owner: string) {
    && |before| > 0 && |after| > 0 && after[|after| - 1].Some?
    && Merge(MetaOf(before[|before| - 1]), spec, owner) == Ok(MetaOf(after[|after| - 1]))
  }

  /** At most one write, of that merge. */
  ghost predicate MergedOnce(before: seq<Option<Namespace>>, after: seq<Option<Namespace>>, spec: MetaSpec, owner: string) {
    before <= after && (after == before || (|after| == |before| + 1 && Merged(before, after, spec, owner)))
  }

  /** Creates the Namespace, or updates it if the merge changes it. */
  method EnsureNamespace(api: NamespaceStore, spec: MetaSpec, owner: string) returns (e: Option<Error>)
    requires api.Valid()
    modifies api, api.wire
    ensures api.Valid() && old(api.seen) <= api.seen
    ensures old(api.wire.calls) < api.wire.calls && CallsOf(NAMESPACES, api.wire.calls, |old(api.wire.calls)|)
    // only the merge of the live metadata is ever written, and at most once
    ensures MergedOnce(old(api.log), api.log, spec, owner)
    // a caught-up pass that succeeds leaves the merge in place
    ensures e.None? && old(api.seen == |api.log| - 1) ==> Merged(old(api.log), api.log, spec, owner)
    // and one that has nothing to change writes nothing
    ensures old(NothingToMerge(api, spec, owner)) ==> OnlyReads(api.wire.calls, |old(api.wire.calls)|)
    ensures OnlyReads(api.wire.calls, |old(api.wire.calls)|) ==> api.log == old(api.log)
    // it fails, and writes nothing, if the inventory it reads is malformed
    ensures api.seen < |old(api.log)|
    ensures Malformed(MetaOf(old(api.log)[api.seen])) ==> e.Some? && api.log == old(api.log)
    // success and failure
    ensures e.None? ==> api.wire.calls[|api.wire.calls| - 1].error.None?
    ensures old(api.wire.tick) < api.wire.tick
    ensures AllPrompt(api.wire.fates, old(api.wire.tick), api.wire.tick) && !Malformed(MetaOf(old(api.Live()))) ==> e.None?
  {
    hide Merge;
    ghost var tick := api.wire.tick;
    var r := api.Get();
    MergeFails(MetaOf(api.log[api.seen]), spec, owner);
    hide Malformed;
    assert AllPrompt(api.wire.fates, tick, tick + 1) ==> Prompt(api.wire.fates, tick);
    assert AllPrompt(api.wire.fates, tick, tick + 2) ==> Prompt(api.wire.fates, tick) && Prompt(api.wire.fates, tick + 1);
    if r.Err? && r.error != NotFound {
      return Some(r.error);
    }
    var found := if r.Ok? then Some(r.value) else None;
    var merged := Mutate(MetaOf(found), spec, owner);
    if merged.Err? {
      return Some(merged.error);
    }
    if found.Some? && found.value.meta == merged.value {
      return None;
    }
    ghost var read := api.wire.calls;
    var version := if found.Some? then Some(found.value.version) else None;
    e := api.Write(merged.value, version);
    assert !(api.wire.calls[|read|].verb in {GET, LIST});
  }
}
