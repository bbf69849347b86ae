/** The read-only viewer's search, and its agreement with what the cluster grants. */
module Viewer {
  import opened Cluster
  import opened Naming
  import opened Upkeep
  import opened Access
  import opened Metadata

  predicate Hit(m: Mapping, q: string) {
    (m.group != "" && m.group == q) || q in m.users
  }

  /** The mapping names `q` as a subject of that kind. */
  predicate HitAs(m: Mapping, kind: string, q: string) {
    (kind == "Group" && m.group != "" && m.group == q) || (kind == "User" && q in m.users)
  }

  lemma HitsTold(m: Mapping, q: string)
    ensures HitAs(m, "Group", q) <==> m.group != "" && m.group == q
    ensures HitAs(m, "User", q) <==> q in m.users
  {
    assert |"User"| != |"Group"|;
  }

  /** The roles of the mappings that name `q` as their group or as a user. */
  function MatchedRoles(ms: seq<Mapping>, q: string): set<string> {
    set m, role | m in ms && Hit(m, q) && role in m.clusterRoles :: role
  }

  /** How the query matched, as the page shows it. */
  function KindsText(asGroup: bool, asUser: bool): string {
    if asGroup && asUser then "group, user" else if asGroup then "group" else if asUser then "user" else ""
  }

  method Match(ms: seq<Mapping>, q: string) returns (roles: seq<string>, kinds: string, any: bool)
    ensures Ascending(roles) && Elements(roles) == MatchedRoles(ms, q)
    ensures kinds == KindsText(exists m :: m in ms && HitAs(m, "Group", q), exists m :: m in ms && HitAs(m, "User", q))
    ensures kinds in {"", "group", "user", "group, user"}
    ensures kinds in {"group", "group, user"} <==> exists m :: m in ms && HitAs(m, "Group", q)
    ensures kinds in {"user", "group, user"} <==> exists m :: m in ms && HitAs(m, "User", q)
    ensures any <==> MatchedRoles(ms, q) != {}
  {
    var found: map<string, bool>, asGroup, asUser := map[], false, false;
    for i := 0 to |ms|
      invariant found.Keys == MatchedRoles(ms[..i], q)
      invariant asGroup <==> exists m :: m in ms[..i] && HitAs(m, "Group", q)
      invariant asUser <==> exists m :: m in ms[..i] && HitAs(m, "User", q)
    {
      var m, hit := ms[i], false;
      assert ms[..i + 1] == ms[..i] + [m];
      HitsTold(m, q);
      if m.group != "" && m.group == q {
        hit, asGroup := true, true;
      }
      if q in m.users {
        hit, asUser := true, true;
      }
      if hit {
        for j := 0 to |m.clusterRoles|
          invariant found.Keys == MatchedRoles(ms[..i], q) + Elements(m.clusterRoles[..j])
        {
          found := found[m.clusterRoles[j] := true];
          assert m.clusterRoles[..j + 1] == m.clusterRoles[..j] + [m.clusterRoles[j]];
        }
        assert m.clusterRoles[..|m.clusterRoles|] == m.clusterRoles;
      }
    }
    assert ms[..|ms|] == ms;
    roles := SortedKeysOf(found);
    kinds := KindsText(asGroup, asUser);
    KindsTold(asGroup, asUser);
    any := |roles| > 0;
    assert any ==> roles[0] in Elements(roles);
  }

  lemma KindsTold(asGroup: bool, asUser: bool)
    ensures
      var kinds := KindsText(asGroup, asUser);
      && kinds in {"", "group", "user", "group, user"}
      && (kinds in {"group", "group, user"} <==> asGroup) && (kinds in {"user", "group, user"} <==> asUser)
  {
    assert |"group"| == 5 && |"user"| == 4 && |"group, user"| == 11 && |""| == 0;
  }

  /** What is shown for a reference that did not resolve. */
  function Why(r: InvalidReference): string {
    if r.reason != "" then r.reason else "invalid reference"
  }

  /** Entry `i` is the last one among the first `n` about `role`. */
  predicate LastAbout(refs: seq<InvalidReference>, n: nat, role: string, i: int) {
    && 0 <= i < n <= |refs| && refs[i].clusterRole == role
    && (forall j :: i < j < n ==> refs[j].clusterRole != role)
  }

  /** Each unresolved role, and what the last entry about it says. */
  method InvalidRoles(refs: seq<InvalidReference>) returns (out: map<string, string>)
    ensures out.Keys == InvalidNames(refs)
    ensures forall role :: role in out <==> role != "" && exists i :: 0 <= i < |refs| && refs[i].clusterRole == role
    ensures forall role :: role in out ==> LastSays(refs, role, out[role])
  {
    hide LastReasons, LastAbout;
    out := map[];
    LastReasonsStart(refs);
    for i := 0 to |refs|
      invariant out.Keys == InvalidNames(refs[..i])
      invariant LastReasons(refs, i, out)
    {
      var r := refs[i];
      assert refs[..i + 1] == refs[..i] + [r];
      LastReasonsNext(refs, i, out);
      if r.clusterRole != "" {
        out := out[r.clusterRole := Why(r)];
      }
    }
    assert refs[..|refs|] == refs;
    LastReasonsTold(refs, out);
  }

  /** The last entry about `role` gives this reason, or none, and then a stock text is shown. */
  ghost predicate LastSays(refs: seq<InvalidReference>, role: string, shown: string) {
    exists i :: 0 <= i < |refs| && refs[i].clusterRole == role && (forall j :: i < j < |refs| ==> refs[j].clusterRole != role)
      && (if refs[i].reason != "" then shown == refs[i].reason else shown == "invalid reference")
  }

  lemma LastReasonsTold(refs: seq<InvalidReference>, out: map<string, string>)
    requires LastReasons(refs, |refs|, out)
    ensures forall role :: role in out ==> LastSays(refs, role, out[role])
  {
    forall role | role in out
      ensures LastSays(refs, role, out[role])
    {
      assert HasLastReason(refs, |refs|, role, out[role]);
      var i :| LastAbout(refs, |refs|, role, i) && out[role] == Why(refs[i]);
    }
  }

  /** Each role has the reason of the last of the first `n` entries about it. */
  ghost predicate LastReasons(refs: seq<InvalidReference>, n: nat, out: map<string, string>) {
    forall role :: role in out ==> HasLastReason(refs, n, role, out[role])
  }

  ghost predicate HasLastReason(refs: seq<InvalidReference>, n: nat, role: string, reason: string) {
    exists i :: LastAbout(refs, n, role, i) && reason == Why(refs[i])
  }

  lemma LastReasonsStart(refs: seq<InvalidReference>)
    ensures LastReasons(refs, 0, map[])
  {
  }

  lemma LastReasonsNext(refs: seq<InvalidReference>, n: nat, out: map<string, string>)
    requires n < |refs| && LastReasons(refs, n, out) && ("" !in out)
    ensures LastReasons(refs, n + 1, if refs[n].clusterRole != "" then out[refs[n].clusterRole := Why(refs[n])] else out)
  {
    var role := refs[n].clusterRole;
    assert LastAbout(refs, n + 1, role, n);
    forall other | other in out && other != role
      ensures HasLastReason(refs, n + 1, other, out[other])
    {
      assert HasLastReason(refs, n, other, out[other]);
      var i :| LastAbout(refs, n, other, i) && out[other] == Why(refs[i]);
      assert LastAbout(refs, n + 1, other, i);
    }
  }

  function InvalidNames(refs: seq<InvalidReference>): set<string> {
    set r | r in refs && r.clusterRole != "" :: r.clusterRole
  }

  /** The binding grants ClusterRole `role` to the user, or to the group, called `q`. */
  predicate GrantsAs(content: Content, kind: string, q: string, role: string) {
    && content.Grant? && content.ref == RoleRef("rbac.authorization.k8s.io", "ClusterRole", role)
    && Subject("rbac.authorization.k8s.io", kind, q) in content.subjects
  }

  /** A binding that wears the owner's labels does. */
  ghost predicate GrantedTo(s: Objects, ns: string, owner: string, kind: string, q: string, role: string) {
    exists k :: k in s && Wears(k, s[k], ns, owner) && GrantsAs(s[k].content, kind, q, role)
  }

  /** The CRD's rule: exactly one of group and users, and no role without a name. */
  predicate ValidMapping(m: Mapping) {
    && ((m.group != "") != (m.users != []))
    && (forall role :: role in m.clusterRoles ==> role != "")
  }

  lemma {:induction false} ReferencesOf(ms: seq<Mapping>, r: Reference)
    ensures r in AllReferences(ms) <==> r.mapping in ms && r.role in r.mapping.clusterRoles && Subjects(r.mapping) != []
  {
    if ms != [] {
      var (fewer, m) := (ms[..|ms| - 1], ms[|ms| - 1]);
      ReferencesOf(fewer, r);
      assert ms == fewer + [m];
      if r.role in m.clusterRoles && r.mapping == m && Subjects(m) != [] {
        var j :| 0 <= j < |m.clusterRoles| && m.clusterRoles[j] == r.role;
        assert References(m)[j] == r;
      }
    }
  }

  lemma {:induction false} UnresolvedNames(refs: seq<Reference>, roles: set<string>, role: string)
    requires role != ""
    ensures role in InvalidNames(Unresolved(refs, roles)) <==> role !in roles && exists r :: r in refs && r.role == role
  {
    if refs != [] {
      var (fewer, r) := (refs[..|refs| - 1], refs[|refs| - 1]);
      UnresolvedNames(fewer, roles, role);
      assert refs == fewer + [r];
      var tail := if r.role in roles then [] else [InvalidReference(r.role, "ClusterRole not found")];
      assert Unresolved(refs, roles) == Unresolved(fewer, roles) + tail;
    }
  }

  /** A valid mapping names `q` as a user, or as a group, exactly if such a subject is called
      `q`; and it has no subjects of another kind. */
  lemma HitIsSubject(m: Mapping, kind: string, q: string)
    requires ValidMapping(m)
    ensures HitAs(m, kind, q) <==> Subject("rbac.authorization.k8s.io", kind, q) in Subjects(m)
    ensures Hit(m, q) <==> HitAs(m, "User", q) || HitAs(m, "Group", q)
    ensures Subjects(m) != []
  {
    NormalizedAscending(m.users);
    assert |"User"| != |"Group"|;
    if m.group == "" {
      var users := Normalized(m.users);
      assert m.users[0] in Elements(users);
      if q in m.users {
        assert q in Elements(users);
        var i :| 0 <= i < |users| && users[i] == q;
        assert Subjects(m)[i] == Subject("rbac.authorization.k8s.io", "User", q);
      }
      forall subject | subject in Subjects(m)
        ensures subject.name in m.users && subject.kind == "User"
      {
        assert subject.name in Elements(users);
      }
    } else {
      assert Subjects(m)[0] == Subject("rbac.authorization.k8s.io", "Group", m.group);
    }
  }

  /** What the search finds for `q` as a user, or as a group, and does not strike through. */
  ghost predicate Shown(ms: seq<Mapping>, roles: set<string>, kind: string, q: string, role: string) {
    && (exists m :: m in ms && HitAs(m, kind, q) && role in m.clusterRoles)
    && role !in InvalidNames(Unresolved(AllReferences(ms), roles))
  }

  /** The page shows both together. */
  lemma ShownTogether(ms: seq<Mapping>, roles: set<string>, q: string, role: string)
    ensures role in MatchedRoles(ms, q) - InvalidNames(Unresolved(AllReferences(ms), roles))
      <==> Shown(ms, roles, "User", q, role) || Shown(ms, roles, "Group", q, role)
  {
    assert |"User"| != |"Group"|;
  }

  /** A binding the spec does not ask for, which only its own finalizers keep, still grants. */
  ghost predicate LeftoverGrants(g: Goal, s: Objects, kind: string, q: string, role: string) {
    exists k :: k in s && Wears(k, s[k], g.ns, g.owner) && !Wanted(g, k) && Held(k, s) && GrantsAs(s[k].content, kind, q, role)
  }

  /** After a completed pass the owned bindings grant to a user, and to a group, what the
      search shows for it, and what held leftovers still grant; so the two agree exactly if
      those grant nothing that is not shown. */
  lemma ViewerAgrees(hash: HashFunction, ns: string, owner: string, ms: seq<Mapping>, roles: set<string>, s: Objects,
    kind: string, q: string, role: string)
    requires forall m :: m in ms ==> ValidMapping(m)
    requires Functional(GoalOf(hash, ns, owner, AllReferences(ms), roles))
    requires Converged(GoalOf(hash, ns, owner, AllReferences(ms), roles), s)
    ensures
      var leftover := LeftoverGrants(GoalOf(hash, ns, owner, AllReferences(ms), roles), s, kind, q, role);
      var (granted, shown) := (GrantedTo(s, ns, owner, kind, q, role), Shown(ms, roles, kind, q, role));
      && (granted <==> shown || leftover)
      && ((granted <==> shown) <==> (leftover ==> shown))
  {
    hide RefKey, Selected, Subjects, References, AllReferences, Unresolved, Resolved, Wears;
    var (refs, g) := (AllReferences(ms), GoalOf(hash, ns, owner, AllReferences(ms), roles));
    if Shown(ms, roles, kind, q, role) {
      var m :| m in ms && HitAs(m, kind, q) && role in m.clusterRoles;
      ShownIsGranted(hash, ns, owner, ms, roles, s, kind, q, Reference(m, role));
    }
    if GrantedTo(s, ns, owner, kind, q, role) && !LeftoverGrants(g, s, kind, q, role) {
      GrantedIsShown(hash, ns, owner, ms, roles, s, kind, q, role);
    }
  }

  /** With no leftover they agree. */
  lemma ViewerAgreesExactly(hash: HashFunction, ns: string, owner: string, ms: seq<Mapping>, roles: set<string>, s: Objects,
    kind: string, q: string, role: string)
    requires forall m :: m in ms ==> ValidMapping(m)
    requires Functional(GoalOf(hash, ns, owner, AllReferences(ms), roles))
    requires Exact(GoalOf(hash, ns, owner, AllReferences(ms), roles), s)
    ensures Shown(ms, roles, kind, q, role) <==> GrantedTo(s, ns, owner, kind, q, role)
  {
    hide Selected, Shown, GrantedTo, Wears;
    ViewerAgrees(hash, ns, owner, ms, roles, s, kind, q, role);
    forall k | k in s && Wears(k, s[k], ns, owner)
      ensures Wanted(GoalOf(hash, ns, owner, AllReferences(ms), roles), k)
    {
      SelectedWears(k, s[k], ns, owner);
    }
  }

  /** With one they need not: the spec asks for nothing, a completed pass has asked the
      binding to go, its own finalizer keeps it, and the search shows nothing. */
  lemma LeftoverHidden(hash: HashFunction, roles: set<string>) returns (s: Objects)
    ensures
      var g := GoalOf(hash, "n", "n", AllReferences([]), roles);
      && Functional(g) && Converged(g, s) && Deletable(s)
      && GrantedTo(s, "n", "n", "User", "eve", "admin") && !Shown([], roles, "User", "eve", "admin")
  {
    var k, subject := Key("n", "k"), Subject(RBAC_GROUP, "User", "eve");
    s := map[k := Object(1, 1, OwnerLabels("n"), {"f"}, true, Grant(RoleRef(RBAC_GROUP, "ClusterRole", "admin"), [subject]))];
    OwnerLabelsSelect("n");
    SelectedWears(k, s[k], "n", "n");
    assert Wears(k, s[k], "n", "n") && GrantsAs(s[k].content, "User", "eve", "admin");
    assert GoalOf(hash, "n", "n", AllReferences([]), roles).wants == {};
  }

  lemma ShownIsGranted(hash: HashFunction, ns: string, owner: string, ms: seq<Mapping>, roles: set<string>, s: Objects,
    kind: string, q: string, r: Reference)
    requires r.mapping in ms && ValidMapping(r.mapping) && HitAs(r.mapping, kind, q) && r.role in r.mapping.clusterRoles
    requires r.role !in InvalidNames(Unresolved(AllReferences(ms), roles))
    requires Functional(GoalOf(hash, ns, owner, AllReferences(ms), roles))
    requires Converged(GoalOf(hash, ns, owner, AllReferences(ms), roles), s)
    ensures GrantedTo(s, ns, owner, kind, q, r.role)
  {
    hide RefKey, Subjects, References, AllReferences, Unresolved, Resolved, Wears;
    var (refs, g, k) := (AllReferences(ms), GoalOf(hash, ns, owner, AllReferences(ms), roles), RefKey(hash, ns, owner, r));
    HitIsSubject(r.mapping, kind, q);
    ReferencesOf(ms, r);
    UnresolvedNames(refs, roles, r.role);
    ResolvedIn(refs, roles, r);
    assert Want(k, RefContent(r)) in g.wants;
    assert Wanted(g, k) && Done(g, k, s);
    assert s[k].content == RefContent(r);
    assert k.namespace == ns by {
      InNamespace(hash, ns, owner, r);
    }
    OwnerLabelsSelect(owner);
    SelectedWears(k, s[k], ns, owner);
    assert GrantsAs(s[k].content, kind, q, r.role);
  }

  lemma GrantedIsShown(hash: HashFunction, ns: string, owner: string, ms: seq<Mapping>, roles: set<string>, s: Objects,
    kind: string, q: string, role: string)
    requires forall m :: m in ms ==> ValidMapping(m)
    requires Converged(GoalOf(hash, ns, owner, AllReferences(ms), roles), s)
    requires GrantedTo(s, ns, owner, kind, q, role)
    requires !LeftoverGrants(GoalOf(hash, ns, owner, AllReferences(ms), roles), s, kind, q, role)
    ensures Shown(ms, roles, kind, q, role)
  {
    hide RefKey, Subjects, References, AllReferences, Unresolved, Resolved, Selected, Wears;
    var (refs, g) := (AllReferences(ms), GoalOf(hash, ns, owner, AllReferences(ms), roles));
    var k :| k in s && Wears(k, s[k], ns, owner) && GrantsAs(s[k].content, kind, q, role);
    SelectedWears(k, s[k], ns, owner);
    assert Wanted(g, k) && Done(g, k, s);
    var r :| r in Resolved(refs, roles) && Want(k, s[k].content) == Want(RefKey(hash, ns, owner, r), RefContent(r));
    ResolvedIn(refs, roles, r);
    ReferencesOf(ms, r);
    HitIsSubject(r.mapping, kind, q);
    assert r.role == role && role != "";
    UnresolvedNames(refs, roles, role);
  }
}
