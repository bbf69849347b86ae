# Verification of the k8s-controller reconcilers

The controller turns two custom resources into RBAC grants. A ManagedNamespace owns a
Namespace's metadata, its ResourceQuotas and its RoleBindings; a ClusterAccessMapping owns
ClusterRoleBindings. Each runs as repeated passes against an API server that may refuse
or lose any call, reading through a cache that lags. This project models both reconcilers
at the granularity of single API calls and proves what every pass, every run of passes and
every interleaving keeps: grants are revoked before anything else can fail, nothing is
granted that was not there or asked for, cut-off passes are absorbed by the next one, a
steady state is quiet, an owner is let go only when its bindings are gone, and other
actors' finalizers and metadata survive.

`dafny verify dfyconfig.toml` checks everything. The project needs no library.

## How the model works

| file | what it holds |
|---|---|
| cluster.dfy | objects, owner labels, the `Wire` that records every call (reads too) and may be given the fates of the first calls, and the `Store` class: all states one kind of object has gone through, a cache position which any read may advance and nothing moves back, and the calls. Every call may be refused, may not arrive, or may take effect and have its answer lost, and others make their own writes, given from the start, between any two calls; the store accounts for every step of the world as the owner's or as the next of those writes. `log` is what the owner sees of its own objects. |
| upkeep.dfy | create-or-update, replacing a wrong roleRef, prune, delete-all, and the two-state relation `Reached` every state of a pass keeps |
| naming.dfy | user lists, subjects, subject keys, generated names |
| access.dfy | from access mappings to wanted bindings; the loop over roles |
| clusteraccess.dfy, managednamespace.dfy | the two sync passes |
| metadata.dfy | the three-way merge of labels and annotations, and its histories |
| guarantees.dfy | over-grant, retention over any lag and its limit, crash absorption, retry loops, one binding per grant |
| interference.dfy | footprints of owners, two syncs on one world |
| lifecycle.dfy | the owner's life and both reconcilers' protocol as a machine over single API calls |
| reconcile.dfy | the entry point as a method whose every call is a step of that machine |
| status.dfy, viewer.dfy, message.dfy | status and gauge, the viewer's search, condition messages |

The central idea is a *course*: a goal (the wanted bindings of a spec, given the
ClusterRoles there are), the state in which a pass began, the state the cache showed then,
the names that are *safe*, because no state the cache may still show has a wrong roleRef
there, and the names within *reach*, which are wanted or owned in such a state. `OnCourse` says that every state logged since is one such a pass may pass
through. Each method that issues calls keeps the log on course, so what is proved of all
states on course holds after every single call, accepted or not.

Words used below: a pass is *caught up* if the cache showed the latest state when it
began; a goal is *functional* if no generated name is wanted with two different contents;
an object is *held* if it was asked to go and finalizers of its own keep it; a store is
*converged* if every want is in place and whatever else is owned is held, and *exact* if
nothing else is owned.

## Findings

* A generated name keeps 20 hexadecimal digits of a hash, and a subject key hashes the
  joined user list, so equal names do not imply equal grants. `Naming.NamesAgree` gives the
  exact condition: the grants agree, or one of two concrete collisions is at hand.
* The joined preimage decodes uniquely for names without NUL. A grant to a group shares its
  name with a different grant under every hash exactly if the group holds a NUL after its
  first character, or the role one before its last (`Naming.NulAliases`). Users
  share their key with other subjects under every hash exactly if they are two or more, or
  the only one is called like two users in ascending order with a NUL between them
  (`Naming.UserAliases`).
* A lagging cache can cost a right binding. The read that looks for a wrong roleRef may show
  an old state, and the delete that follows goes by name. A binding the spec wants survives
  any lag exactly if no state the cache may still show held its name with a wrong roleRef
  (`Guarantees.RetainedGrant`, `Guarantees.SafeExactly`); otherwise there is a run that
  deletes it (`Guarantees.LagDeletes`, and for a whole sync `ClusterAccess.LagRevokesGrant`).
* The page can hide a grant. A completed pass may leave an owned binding that was asked to go
  and waits on its own finalizers; it still grants, and the search does not show it
  (`Viewer.LeftoverHidden`). What is granted is exactly what is shown plus what such
  leftovers grant (`Viewer.ViewerAgrees`).
* A completed pass is not always followed by a quiet one: every pass asks such a leftover to
  go again. A caught-up pass that succeeds calls only reads exactly if it met a store in which
  every want is in place and nothing else is owned (the two `Sync` contracts), and that is
  what a completed pass leaves exactly if no unwanted owned object had finalizers of its own
  when it began (`Guarantees.SuccessIsExact`).
* A pass over caught-up caches whose calls are all answered succeeds, unless a wanted binding's
  name is held, by finalizers of its own, with another roleRef (then no pass can complete:
  `Upkeep.ReplaceableNeeded`), or, for a ManagedNamespace, the inventory annotation is malformed
  (`Metadata.MergeFails`). The two `Sync` contracts say so; generated names are taken not to
  collide.
* A ClusterAccessMapping grants before it prunes, so revocation does not come first there
  (`clusteraccess.go:97-132`). It prunes exactly if granting went through; a pass that
  stopped before leaves every unrequested binding as it was, and one unanswered lookup is
  enough for that (`ClusterAccess.LookupFailureRevokesNothing`). Only the ManagedNamespace
  pass is proved revoke-first.
* The stale-snapshot argument needs the optimistic lock: by
  `Lifecycle.UnlockedPatchLosesEdits` a patch without it undoes an edit made since the
  read, unless that edit changed nothing.
* Wanted bindings end up right also when two references ask for one name whose binding has
  a wrong roleRef and the cache lags: the second reference can no longer see the old one
  (`Upkeep.EnsureBinding`).

## Model

| member | source | states |
|---|---|---|
| Cluster.SelectedWears | internal/controller/managednamespace.go:376-381 | a list selects exactly the objects in the namespace whose managed-by label is "k8s-controller" and whose owner-name label is the owner, and the stamped labels are those two |
| Cluster.OwnerLabelsSelect | internal/controller/shared.go:77-83 | the labels stamped on an object are found by the selector of its own owner, and by that of no other |
| Cluster.SameRefExactly | internal/controller/managednamespace.go:293-301 | a roleRef is the wanted one exactly if API group, kind and name are |
| Cluster.WritesMean | internal/controller/managednamespace.go:307-316 | a delete takes an object away, or only marks it while its own finalizers hold it; a create makes a new one; an update replaces labels and contents only; no other object is touched |
| Cluster.MirrorsStep | internal/controller/clusteraccess.go:134-182 | a call of the owner changes the world and what the owner sees of it alike |
| Cluster.MirrorsOthers | internal/controller/clusteraccess.go:134-182 | a write by others is no step of what the owner sees |
| Cluster.MirrorsLists | internal/controller/managednamespace.go:376-381 | a list answers the same in the world and in what the owner sees of it |
| Cluster.OwnStepIsForeign | internal/controller/clusteraccess.go:134-182 | to an owner with objects of its own, another owner's step is a write of others: it leaves those objects alone and labels none for that owner |
| Naming.NormalizedUsers | internal/controller/shared.go:50-54 | copying, sorting in place and compacting in place yields the canonical list of the users |
| Naming.SortStrings | internal/controller/shared.go:52 | an in-place sort of a string array: ordered, and a permutation of what was there |
| Naming.Compact | internal/controller/shared.go:53 | in place, a sorted array becomes a strictly ascending prefix with the same elements |
| Naming.NormalizedAscending | internal/controller/shared.go:44-54 | a canonical list is strictly ascending and has exactly the elements given |
| Naming.AscendingUnique | internal/controller/shared.go:44-54 | a strictly ascending list is determined by its elements |
| Naming.NormalizedCanonical | internal/controller/shared.go:44-54 | two user lists have one canonical list exactly if they denote one set |
| Naming.SubjectsFor | internal/controller/shared.go:56-66 | for a group exactly one subject, of kind Group and that name; otherwise kind User throughout, and the names are the strictly ascending list with the elements of the users; all in the RBAC API group |
| Naming.ToldIsSubjects | internal/controller/shared.go:56-66 | and there is only one such list, so all results about subjects are about it |
| Naming.BeforeIsLexicographic | internal/controller/shared.go:50-54 | the order users are sorted by is: a proper beginning, or smaller where the two first differ |
| Naming.NameShape | internal/core/core.go:15-22 | a generated name is "k8sc-" and twenty lower-case hexadecimal digits |
| Naming.SameSubjectsSameContents | internal/controller/shared.go:44-75 | mappings that denote the same subjects agree on subject list and subject key, so they cannot rewrite each other's binding |
| Naming.PreimageInjective | internal/core/core.go:20-22 | the NUL-joined owner, subject key and role decode uniquely |
| Naming.JoinInjective | internal/controller/shared.go:74 | NUL-joined user lists decode uniquely |
| Naming.KeysAgree | internal/controller/shared.go:68-75 | subject keys agree exactly if the subject sets do or two joined lists collide; a group's key is never a user list's |
| Naming.NamesAgree | internal/core/core.go:15-22 | two generated names agree exactly if owner, role and subjects do, or a concrete collision of the hash or of its kept prefix is at hand |
| Naming.NulAliases | internal/core/core.go:20-22 | a grant to a group shares its name with a different grant under every hash exactly if the group holds a NUL after its first character or the role one before its last |
| Naming.JoinedUserAliases | internal/controller/shared.go:68-75 | two users or more share their key, under every hash, with one user named by their NUL-joined names |
| Naming.UserAliases | internal/controller/shared.go:68-75 | users share their key with other valid subjects under every hash exactly if they are two or more, or the only one splits at a NUL into two names in ascending order |
| Upkeep.CreateOrUpdate | internal/controller/managednamespace.go:307-316 | stays on course over any failure, touches one name only, leaves what is wanted in place on success, and writes nothing if it was in place; it succeeds if its calls are answered and the object can be corrected in place |
| Upkeep.WriteWanted | internal/controller/managednamespace.go:307-316 | one create or update, which keeps the pass on course; answered over a caught-up cache it succeeds if the object can be corrected in place |
| Upkeep.EnsureBinding | internal/controller/managednamespace.go:292-317 | the same with a wrong roleRef replaced first; no safe name is asked to go; a second call for a name cannot undo the first, however far the cache lags; a read of an old state that misleads it makes it delete what is there; it succeeds if its calls are answered over caught-up caches, unless a held binding has its name with another roleRef |
| Upkeep.Replace | internal/controller/managednamespace.go:295-306 | calls about the one binding only; deletes it if the read shows a wrong roleRef, and no safe one; a caught-up pass whose calls are answered leaves no wrong roleRef at the name unless it is held there |
| Upkeep.StaysReplaceable | internal/controller/managednamespace.go:295-316 | no step of a pass makes a wanted name one that cannot be replaced |
| Upkeep.ReplaceableNeeded | internal/controller/managednamespace.go:295-316 | and no pass completes over a held binding with a wrong roleRef at a wanted name: that much is needed for success |
| Upkeep.ReplaceStep | internal/controller/managednamespace.go:295-306 | a delete for a wrong roleRef stays on course over any lag and is never of a safe name; in a caught-up pass the binding stood there with a wrong roleRef when the pass began |
| Upkeep.Prune | internal/controller/managednamespace.go:321-338 | calls one list and then deletes, never of a kept or a safe name, and stops only at a call that failed otherwise than with NotFound, and never if all are answered in time; on a caught-up success every owned object outside the kept names is gone or held, its deletion accepted; it calls no delete exactly if nothing is left over |
| Upkeep.PruneComplete | internal/controller/managednamespace.go:321-338 | deleting what a lagging cache listed is enough: whatever unwanted object is still live was in that list |
| Upkeep.FinalizeBindings | internal/controller/managednamespace.go:83-104 | one live list, then deletes of what it shows and is not going yet and of nothing else, stopping only at a call that failed otherwise than with NotFound; answers gone exactly if the list was empty; without a fault the deletion of everything listed has been requested; others' objects are untouched at every point |
| Upkeep.DeletionProgress | internal/controller/clusteraccess.go:71-95 | on the pair (deletions to request, owned objects) every deletion pass, wherever it stops, only steps down |
| Upkeep.WaitEnds | internal/controller/managednamespace.go:54-56 | once all deletions are requested the next live list is empty exactly if no owned object is held |
| Access.ResolvedIn | internal/controller/managednamespace.go:268-282 | a reference is granted exactly if the spec makes it and its ClusterRole exists |
| Access.GoalWants | internal/controller/managednamespace.go:277-281 | the wanted names are exactly those generated for references that resolve |
| Access.UnresolvedInOrder | internal/controller/managednamespace.go:250-276 | the invalid references are the references to missing ClusterRoles, each once, in spec order, with the reason "ClusterRole not found" |
| ManagedNamespaces.ReferencesTold | internal/controller/managednamespace.go:254-268 | a mapping refers to each of its roles in order, or to none if it has neither group nor users |
| ManagedNamespaces.CoversNext | internal/controller/managednamespace.go:253-268 | the references of a spec are those of its mappings, one mapping after another |
| Access.ClusterRoles.Get | internal/controller/managednamespace.go:269-276 | a lookup answers found or NotFound truthfully, or fails in another way |
| Access.GrantReference | internal/controller/managednamespace.go:268-282 | one role: a missing ClusterRole is recorded, any other lookup failure stops the pass, otherwise the binding is ensured and the names done so far stay done |
| Access.GrantMapping | internal/controller/clusteraccess.go:98-127 | all roles of a mapping, in order; a mapping without subjects or roles grants nothing; it calls only lookups and, without a list, bindings, and touches wanted ones only; it succeeds if all its calls are answered in time and no wanted name is held with another roleRef |
| Access.GrantedAndPruned | internal/controller/managednamespace.go:284-289 | after the second prune the store is converged and the returned list is the unresolved references in spec order |
| Access.PruneOthers | internal/controller/managednamespace.go:284-289 | the prune that ends granting keeps exactly the names granted, and on success leaves the store converged |
| ClusterAccess.ClusterAccessReconciler.Sync | internal/controller/clusteraccess.go:97-132 | every state is on course however the pass ends, and no safe binding is asked to go; a pass stopped while granting has touched and deleted wanted names only, any other prunes and fails only with a call of the prune, other than with NotFound; a caught-up success converges, returns the unresolved references in order, and called only reads exactly if the store it met was exact; a caught-up pass whose calls are all answered succeeds unless a wanted name is held with another roleRef |
| ClusterAccess.ClusterAccessReconciler.AsksClusterWide | internal/controller/clusteraccess.go:97-127 | the wanted bindings are cluster-scoped, one for each reference of the mapping whose ClusterRole exists |
| ClusterAccess.LookupFailureRevokesNothing | internal/controller/clusteraccess.go:110-117 | whatever is live and whatever the spec, if the first ClusterRole lookup is not answered an unrequested binding stays as it is: revocation does not come first here |
| ClusterAccess.LagRevokesGrant | internal/controller/clusteraccess.go:134-143 | for every past and lag in which the first reference's name once had another roleRef there is a sync that asks its binding to go, however right it is by now, and loses it unless it is held |
| ManagedNamespaces.ManagedNamespaceReconciler.WantedNames | internal/controller/managednamespace.go:110-120 | the first prune's set holds the name of every reference, without looking up a ClusterRole |
| ManagedNamespaces.WantedIsNamed | internal/controller/managednamespace.go:107-121 | the second prune's set is contained in the first's |
| ManagedNamespaces.StaysRevoked | internal/controller/managednamespace.go:107-121 | what the first prune removed no later call of the pass brings back |
| ManagedNamespaces.ManagedNamespaceReconciler.ReconcileQuota | internal/controller/managednamespace.go:197-218 | unnamed quotas are skipped; a success leaves the spec's quotas and no other owned one, up to held ones; a steady state is only read |
| ManagedNamespaces.ManagedNamespaceReconciler.PruneQuotas | internal/controller/managednamespace.go:227-248 | the owned quotas the spec does not name are gone or held after a caught-up success; only reads are called exactly if there are none |
| ManagedNamespaces.QuotaWanted | internal/controller/managednamespace.go:199-206 | exactly the named quotas of the spec are wanted, in the owner's namespace |
| ManagedNamespaces.ManagedNamespaceReconciler.ReconcileBindings | internal/controller/managednamespace.go:250-290 | over all mappings: on course, converged on success, the unresolved references in spec order, and only reads in a steady state |
| ManagedNamespaces.ManagedNamespaceReconciler.GrantMappings | internal/controller/managednamespace.go:250-283 | the mappings one after another up to the first failure; no list, no quota and no Namespace is called meanwhile, and nothing is written in a steady state |
| ManagedNamespaces.ManagedNamespaceReconciler.Sync | internal/controller/managednamespace.go:106-131 | the first calls of every pass, reads included, are one binding list and deletes of unnamed bindings; either one of these failed and nothing else is called, or from then on no owned binding outside the spec's names is live but held ones, whatever fails later; plus convergence, the single Namespace write, no delete of a safe binding; and a caught-up success called only reads exactly if it met a steady state; the calls after the prune are first the Namespace's, then the quotas', then roles' and bindings', each kind only after the one before succeeded, and where they stop early the pass fails and the later stores are untouched; a malformed inventory stops it at the Namespace; what was passed is done even if the pass fails later; a caught-up pass whose calls are all answered succeeds unless the inventory is malformed or a wanted name is held by what cannot be corrected |
| ManagedNamespaces.ManagedNamespaceReconciler.RevokeRemoved | internal/controller/managednamespace.go:107-123 | the first prune alone: it calls nothing but its list and its deletes, and ends with an error only if its last call did |
| ManagedNamespaces.ManagedNamespaceReconciler.Apply | internal/controller/managednamespace.go:124-130 | Namespace, quotas and bindings in that order, each only after the one before succeeded, and later ones untouched otherwise; keeps the course the first prune left |
| Metadata.Mutate | internal/controller/managednamespace.go:135-173 | the loops over the read object compute the merge of metadata, inventory and spec, or stop at a malformed inventory |
| Metadata.MergeFails | internal/controller/managednamespace.go:185-195 | the merge fails exactly if the inventory annotation is there with a text that is not empty and not an inventory |
| Metadata.FirstMerge | internal/controller/managednamespace.go:135-173 | with the annotation absent or empty nothing is removed: the spec is laid over what is there, the two owned labels over the labels, and every other annotation keeps its value |
| Metadata.MergeLists | internal/controller/managednamespace.go:163-173 | the inventory written lists the spec's keys in ascending order, its own left out |
| Metadata.EnsureNamespace | internal/controller/managednamespace.go:133-178 | writes at most once, and only the merge of the live metadata, even from a stale read; writes nothing when the merge changes nothing; fails and writes nothing if the inventory it reads is neither absent, empty nor an inventory; otherwise it succeeds if its calls are answered over a caught-up cache |
| Metadata.InventoryRemembers | internal/controller/managednamespace.go:133-195 | over every history of applied specs and foreign edits the inventory on the object does what remembering the last applied spec would do |
| Metadata.AppliedLaw | internal/controller/managednamespace.go:140-171 | after any history: owned keys, then requested keys have their values, dropped keys are gone, never-requested keys keep theirs, and the inventory lists the spec's keys but its own |
| Metadata.MalformedChangesNothing | internal/controller/managednamespace.go:185-195 | over every history from an annotation that is not empty and not an inventory on, the annotation stays what it is and passes change nothing: what is left is what others did |
| Metadata.MergeIdempotent | internal/controller/managednamespace.go:135-173 | merging the same spec again changes nothing, also with controller-owned keys in the spec |
| Guarantees.NoOverGrant | internal/controller/managednamespace.go:250-317 | after every single call, over stale caches and colliding names too, whoever holds a role held it when the pass began or is given it by the spec |
| Guarantees.OnlyRequestedGrants | internal/controller/managednamespace.go:107-130 | after the first prune every owned binding has the contents of a reference with its name, if the spec's names held what they denote before, or is an old one that was asked to go and is held |
| Guarantees.StrangersUntouched | internal/controller/managednamespace.go:376-381 | an object at a name not wanted that lacks one of the two labels, or has another value there, or is elsewhere, in every state the cache may show, is the same in every later state of a pass, over any lag |
| Guarantees.StrangersSpared | internal/controller/clusteraccess.go:165-182 | and no call asks for its deletion |
| Guarantees.StrangersStay | internal/controller/managednamespace.go:83-104 | a deletion pass leaves every such object as it is |
| Guarantees.NothingWears | internal/controller/managednamespace.go:88-90 | it finds nothing exactly if no object wears both labels in the namespace |
| Guarantees.WearersWanted | internal/controller/managednamespace.go:284-289 | after a completed pass whatever wears both labels is wanted, or was asked to go and is held |
| Guarantees.RetainedGrant | internal/controller/managednamespace.go:107-121 | a grant the spec still makes and whose role resolves is retained at every point of every pass, over any lag: same object, never asked to go, its contents as they were or as wanted, provided no state the cache may still show held its name with another roleRef |
| Guarantees.SafeExactly | internal/controller/managednamespace.go:300-301 | a wanted name is safe exactly if no state the cache may show has a roleRef that misleads |
| Guarantees.LagDeletes | internal/controller/managednamespace.go:300-303 | for every past, lag and goal with such a state there is a run that asks a binding to go, however right it is by now, and loses it unless it is held |
| Guarantees.ReachedTransitive | internal/controller/managednamespace.go:106-131 | a pass that starts where another was cut off is still within what the first could have reached |
| Guarantees.CrashesAbsorbed | internal/controller/clusteraccess.go:97-132 | any number of passes cut off at any call, then a complete one, leave the same objects as one pass, held ones included, up to UIDs and versions |
| Guarantees.Determined | internal/controller/managednamespace.go:106-131 | where a complete pass ends is determined by the state it began in, for wanted, held and foreign objects alike |
| Guarantees.MergeAbsorbs | internal/controller/managednamespace.go:133-173 | the metadata ends the same whether or not the cut-off pass had written it |
| Guarantees.ManagedCrashesAbsorbed | internal/controller/managednamespace.go:106-131 | the same for Namespace, quotas and bindings together |
| Guarantees.SuccessIsExact | internal/controller/managednamespace.go:250-290 | a success leaves an exact store exactly if no unwanted owned object had finalizers of its own when it began |
| Guarantees.Attempt | internal/controller/managednamespace.go:106-131 | a sync after the caches caught up is a cut-off or a complete pass in the sense of the two results above |
| Guarantees.Retry | internal/controller/managednamespace.go:69-75 | passes repeated until one succeeds end as any direct pass would, held objects included, and in a state where the next pass calls only reads exactly if no unwanted owned object had finalizers at first |
| Guarantees.CompletionIsExact | internal/controller/managednamespace.go:106-131 | the pass that completes after any number of cut-off ones leaves nothing to do exactly if no unwanted owned object had finalizers at first |
| Guarantees.RetryAccess | internal/controller/clusteraccess.go:59-65 | the same for a ClusterAccessMapping |
| Guarantees.KeysDenote | internal/controller/shared.go:44-75 | without collisions, two references share a name exactly if they share role and subject set, and then share contents |
| Guarantees.CollisionFreeFunctional | internal/core/core.go:17-22 | without collisions no name is wanted with two contents |
| Guarantees.OneBindingPerGrant | internal/controller/managednamespace.go:250-290 | an exact store has, for each resolved reference, the object at its name with exactly the two labels, the ClusterRole's roleRef and the subjects told of SubjectsFor; nothing else wears the labels; and two references share an object exactly if they share role and subject set |
| Guarantees.QuotasFunctional | internal/controller/managednamespace.go:197-206 | no quota name is wanted twice exactly if entries with one name have the same limits; unique names are enough |
| Guarantees.QuotasInPlace | internal/controller/managednamespace.go:197-218 | after a completed pass each named quota is there with its limits and both labels, and what else wears them was asked to go and is held |
| Guarantees.QuotasCorrectable | internal/controller/managednamespace.go:207-214 | a quota can always be corrected in place |
| Interference.PassStaysInFootprint | internal/controller/managednamespace.go:376-381 | however far a caught-up pass got, objects neither wanted nor owned when it began are as they were |
| Interference.PassStaysInReach | internal/controller/managednamespace.go:227-232 | over any lag a pass leaves alone what is neither wanted nor owned in any state the cache could still show |
| Interference.StepsStayInReach | internal/controller/clusteraccess.go:134-182 | in the world, whatever others do meanwhile: every step is the next of their writes, or the pass's own and within its reach |
| Interference.ReadsStayInFootprint | internal/controller/managednamespace.go:376-381 | a pass's lists depend on its footprint only |
| Interference.NamespacesApart | internal/controller/managednamespace.go:363-381 | footprints of different ManagedNamespaces are disjoint, for bindings and for quotas |
| Interference.NamesApart | internal/controller/clusteraccess.go:134-182 | footprints of different ClusterAccessMappings are disjoint unless the digits names keep collide |
| Interference.AtHomeKept | internal/controller/clusteraccess.go:134-182 | if all an owner's bindings have generated names when a pass begins, they have at every later point of it |
| Interference.AtHomeBeside | internal/controller/clusteraccess.go:134-182 | and passes of other owners keep it so |
| Interference.InterleavingIsSequential | internal/controller/clusteraccess.go:97-182 | two syncs that completed on one world, however their calls interleaved, leave what any complete run of one and then of the other leaves, up to UIDs and versions |
| Interference.SyncsInSequence | internal/controller/clusteraccess.go:97-132 | wherever two interleaved syncs are, one alone could have got to a state from which the other could have gone on to where they are, and what either completed is complete there |
| Interference.SyncRan | internal/controller/clusteraccess.go:97-132 | every caught-up sync ends in the state these results start from, converged if it succeeded |
| Interference.ManagedSyncRan | internal/controller/managednamespace.go:106-131 | and so does every caught-up ManagedNamespace sync, for its bindings and its quotas |
| Interference.NobodyElse | internal/controller/clusteraccess.go:134-182 | what belongs to neither of two owners stays as it is while only they write |
| Interference.OtherSees | internal/controller/clusteraccess.go:134-182 | wherever the steps that are not one owner's stay within another's objects, the other has a store that mirrors that world, with the first's steps as writes of others |
| Interference.RanSaw | internal/controller/clusteraccess.go:97-132 | what a sync's contract says of the log its store shows it is what became of its own objects in the world |
| Interference.OwnedStaysInside | internal/controller/clusteraccess.go:165-182 | no pass makes an object that another owner's lists select |
| Interference.ReachedElsewhere | internal/controller/clusteraccess.go:134-182 | how far a pass may get depends on its own objects only |
| Interference.DeterminedElsewhere | internal/controller/clusteraccess.go:134-182 | and so does where a complete pass ends |
| Lifecycle.EditRefines | internal/controller/managednamespace.go:59-66 | an edit of other finalizers does to the others what it does to the whole list |
| Lifecycle.LockMeansLatest | internal/controller/clusteraccess.go:49-56 | a patch the optimistic lock lets through was computed from the latest owner, and the cache shows it |
| Lifecycle.InvHolds | internal/controller/managednamespace.go:44-104 | every reachable state, whatever others do between calls, keeps the machine's invariant |
| Lifecycle.NoBindingWithoutFinalizer | internal/controller/managednamespace.go:49-67 | in every reachable state without an owner, or with one that lacks the finalizer, no binding wears the owner's labels |
| Lifecycle.OthersFinalizersKept | internal/controller/managednamespace.go:59-66 | in every reachable state the owner's other finalizers, in order, are the edits of others replayed |
| Lifecycle.UnlockedPatchLosesEdits | internal/controller/clusteraccess.go:49-56 | without the lock a stale patch keeps an intervening edit exactly if that edit changed nothing |
| Lifecycle.LetGoForGood | internal/controller/managednamespace.go:50-61 | once the removal of the finalizer was accepted no binding wears the labels in any later state, until the owner is created anew |
| Lifecycle.BeginChooses | internal/controller/managednamespace.go:44-67 | the owner the cache shows decides what a pass does: nothing, the deletion branch, the addition of the finalizer, or a sync |
| Lifecycle.AdditionAdds | internal/controller/managednamespace.go:63-67 | over every run an accepted addition leaves the same owner with the finalizers it had, in order, and then the cleanup finalizer, and touches no binding |
| Lifecycle.StaysAdopted | internal/controller/managednamespace.go:63-67 | whatever others do but delete it, the owner keeps it |
| Lifecycle.AdoptedSyncs | internal/controller/managednamespace.go:63-69 | and once the cache shows it the next pass syncs |
| Lifecycle.SyncMayWrite | internal/controller/managednamespace.go:69 | the machine allows a sync any effect on bindings: what is proved of all runs holds for each |
| Lifecycle.ReportRenews | internal/controller/managednamespace.go:345-361 | a status patch changes nothing of the owner but its version, and so invalidates every patch computed from an earlier read |
| Lifecycle.DeletionDeletes | internal/controller/managednamespace.go:91-101 | an accepted deletion takes a binding away, or leaves it going, and touches no other |
| Lifecycle.RemovalRemoves | internal/controller/managednamespace.go:57-61 | an accepted removal leaves the owner with its other finalizers in order, and without any it is gone |
| Lifecycle.WayOut | internal/controller/managednamespace.go:49-62 | an owner being deleted whose bindings nothing holds is let go within two undisturbed passes, with no binding left |
| Reconciling.OwnerReconciler.FinalizeBindings | internal/controller/clusteraccess.go:71-95 | with others at work before every call: gone means the live list was empty, not gone means every deletion it called for was requested, and no other; it fails only with its last call, and not with NotFound |
| Reconciling.OwnerReconciler.Release | internal/controller/managednamespace.go:49-62 | the deletion branch ends for good only with the finalizer's removal accepted and the owner without it, waits only with every deletion requested, and is retried exactly with the error of its last call |
| Reconciling.OwnerReconciler.Adopt | internal/controller/managednamespace.go:63-67 | asks to be queued again only if the addition was accepted, and the same owner then carries its finalizers and after them the cleanup finalizer; it is retried exactly with the error of the patch |
| Reconciling.OwnerReconciler.SyncAndReport | internal/controller/managednamespace.go:69-75 | after an accepted report a completed sync is over, an Invalid one is terminal, and any other failure is retried; a failed report is retried |
| Reconciling.OwnerReconciler.Reconcile | internal/controller/managednamespace.go:44-76 | a pass ends without error or requeue only if the cache shows no owner, the finalizer's removal was accepted and the owner is without it, or a completed sync was reported; it asks for another only with the finalizer added, or every listed deletion requested; it is terminal exactly if the sync was Invalid and that was reported; and it is retried exactly with the error of the last call or of the sync |
| Statuses.SetFinds | internal/controller/managednamespace.go:359 | setting a condition is seen by the next lookup of its kind and by no other |
| Statuses.SetReplaces | internal/controller/managednamespace.go:359 | the first condition of the kind is replaced where it is, or the new one comes last; every other one stays as and where it was |
| Statuses.StatusKeeper.SetCondition | internal/controller/managednamespace.go:359 | the first condition of a kind is replaced in place, or appended |
| Statuses.StatusKeeper.Report | internal/controller/managednamespace.go:345-361 | the patch from the status the pass read, possibly an older one: only a completed pass moves generation, invalid references and gauge; Ready always moves; a refused patch leaves the status alone but not the gauge |
| Statuses.StatusKeeper.ReportAll | internal/controller/managednamespace.go:69-75 | passes reported one after another, each from the present status, leave what the results about runs are about |
| Statuses.PatchReports | internal/controller/managednamespace.go:346-360 | a pass that read the present status reports what it means to, and one that read an older status exactly if what it left alone has not changed since |
| Statuses.ReadyTold | internal/controller/managednamespace.go:345-359 | Ready is about the pass's generation: SyncFailed with the error, InvalidReferences with its text, or, exactly if nothing is invalid, true and Reconciled |
| Statuses.StatusOverRuns | internal/controller/clusteraccess.go:187-203 | over every sequence of reported passes generation and invalid references are the last completed pass's, Ready is the last pass's, and the gauge counts the recorded references |
| Statuses.ReadyCondition | internal/server/ui/app.js:65-69 | the index loop finds the first Ready condition |
| Statuses.HealthTold | internal/server/ui/app.js:83-97 | pending without Ready or if the first Ready names an older generation, healthy exactly if it does not and holds |
| Statuses.HealthIsLastPass | internal/server/ui/app.js:83-97 | the verdict is pending exactly while the last pass was about an older spec, and healthy exactly if it completed with every reference resolved |
| Viewer.Match | internal/server/ui/app.js:226-236 | the loops collect the roles of exactly the mappings that name the query, sorted; "group" is said exactly if one names it as its group, "user" exactly if one names it as a user; and whether there was any |
| Viewer.InvalidRoles | internal/server/ui/app.js:72-78 | the roles kept are exactly those a named entry is about, each with the reason its last entry gives, or "invalid reference" if it gives none |
| Viewer.HitIsSubject | internal/controller/shared.go:56-66 | a valid mapping names the query as a user, or as a group, exactly if it has a subject of that kind and name |
| Viewer.ShownTogether | internal/server/ui/app.js:226-236 | what the page leaves unstruck for a query is what is shown for it as a user and as a group |
| Viewer.UnresolvedNames | internal/controller/managednamespace.go:268-276 | the recorded names are exactly the referenced roles that do not exist |
| Viewer.ViewerAgrees | internal/server/ui/app.js:226-236 | after a completed pass a role is granted to a user, or to a group, of that name exactly if it is matched as one and not invalid, or a held leftover grants it; so page and cluster agree exactly if leftovers grant nothing that is not shown |
| Viewer.ViewerAgreesExactly | internal/server/ui/app.js:226-236 | with no leftover, matched roles minus invalid ones are exactly the roles owned bindings grant, users and groups apart |
| Viewer.LeftoverHidden | internal/server/ui/app.js:226-236 | a state a completed pass leaves in which a binding grants a role the page does not show |
| Messages.ToValidUtf8 | internal/controller/shared.go:105 | the loop removes exactly the bytes that are part of no valid character |
| Messages.ConditionMessage | internal/controller/shared.go:101-108 | texts of up to 1024 bytes are unchanged; a cut one is valid UTF-8 of at most 1027 bytes, and of a valid text the longest whole-character prefix of 1021 to 1024 bytes with U+2026 after it |
| Messages.ValidExactly | internal/controller/shared.go:105 | the validity the cut restores is that of RFC 3629: a text is valid exactly if it is the encoding of some characters |
| Messages.WidthDecodes | internal/controller/shared.go:105 | whatever the loop takes for a character is the encoding of one |
| Messages.EncodedWidth | internal/controller/shared.go:105 | and every encoded character is taken for one, with its length |
| Messages.CleanKeeps | internal/controller/shared.go:105 | valid text before any bytes stays as it is |
| Messages.CleanIsValid | internal/controller/shared.go:105 | whatever the bytes, what is left is valid UTF-8 and no longer |
| Messages.CleanPrefix | internal/controller/shared.go:105 | cleaning a cut valid text drops only the character that was cut, at most three bytes |

## Assumptions

* Passes for one key are serialised, in one process, over a cache that never goes backwards.
* A call has taken effect by the time the pass makes its next one, or it never will.
* Nobody else puts an owner's labels on an object, and nobody else adds or removes the
  controller's own finalizer.
* Owner names, groups, users and role names contain no NUL where the results about names
  ask for it; everything else holds for all strings.
* The hash is any function to numbers. Collision-freedom is asked for on the references in
  play, and only where a result needs it.

## Left out

- Cluster.Store.Others: others write any object but the pass's own, at any time; that somebody else edits or releases the pass's own objects between its calls is covered by Lifecycle and Reconciling only.
- ManagedNamespaces.StaysRevoked: revoke-first and convergence ask that the binding cache had caught up when the pass began, because a prune sees what its cache lists; NoOverGrant and RetainedGrant do not ask for it.
- Interference.SyncsInSequence: nobody but the two owners writes while they run.
- Reconciling.OwnerReconciler.Sync: a sync is any sequence of writes to bindings here; what a real one writes is in the two reconciler classes.
- Lifecycle.Take: a status patch always gives the owner a new version, also where the server would skip a patch without changes.
- Statuses.StatusOverRuns: each pass has read the status that is live; what a patch from an older status does is in PatchReports.
- Viewer.Match: names are ordered by code point, where the page orders UTF-16 code units.
- Cluster.Store.Select: a list has no particular order.
- Metadata.NamespaceStore: a Namespace is never deleted or terminating, and other actors' writes happen between passes only, as events of a history.
- SHA-256, JSON encoding, timestamps, logging and the registration of metrics: library code; an annotation is some text or the JSON of an inventory, and the gauge is a field.
- Deleting the gauge's label when an owner goes: no decision depends on it.
- Quota contents: one opaque comparable value.
- Enqueueing (`all`, `ownerRequests`), rate limits and requeue delays: a pass may run at any time.
- The HTTP server, its metrics, the rest of the page, `main.go`, `Setup` and leader election: input, output and wiring.
- Labels forged by others, RBAC escalation checks and admission policy: environment.
