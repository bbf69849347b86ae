/** Canonical subject lists, and the generated names that are derived from them. */
module Naming {
  import opened Cluster

  const NUL := '\0'
  const RBAC_GROUP := "rbac.authorization.k8s.io"

  /** One group or a list of users, and the ClusterRoles they are granted. */
  datatype Mapping = Mapping(group: string, users: seq<string>, clusterRoles: seq<string>)

  predicate NulFree(s: string) {
    forall i :: 0 <= i < |s| ==> s[i] != NUL
  }

  /** SHA-256 is left uninterpreted: any function to numbers. */
  type HashFunction = string -> nat

  const HEX_DIGITS := "0123456789abcdef"

  /** The last `digits` hexadecimal digits of a number. */
  function Hex(n: nat, digits: nat): (s: string)
    ensures |s| == digits && NulFree(s)
  {
    if digits == 0 then "" else Hex(n / 16, digits - 1) + [HEX_DIGITS[n % 16]]
  }

  /** A hash in hexadecimal. */
  function Hash(hash: HashFunction, v: string): (s: string)
    ensures |s| == 64 && NulFree(s)
  {
    Hex(hash(v), 64)
  }

  // ---- the order of strings ----

  predicate Before(a: string, b: string) {
    if b == "" then false
    else if a == "" then true
    else a[0] < b[0] || (a[0] == b[0] && Before(a[1..], b[1..]))
  }

  /** The order of strings: `a` is a proper beginning of `b`, or smaller where they first
      differ. */
  lemma {:induction false} BeforeIsLexicographic(a: string, b: string)
    ensures Before(a, b) <==>
      || (|a| < |b| && a == b[..|a|])
      || exists i :: 0 <= i < |a| && i < |b| && a[..i] == b[..i] && a[i] < b[i]
  {
    if a != "" && b != "" && a[0] == b[0] {
      BeforeIsLexicographic(a[1..], b[1..]);
      assert a == [a[0]] + a[1..] && b == [b[0]] + b[1..];
      if |a[1..]| < |b[1..]| && a[1..] == b[1..][..|a[1..]|] {
        assert a == b[..|a|];
      }
      if |a| < |b| && a == b[..|a|] {
        assert a[1..] == b[1..][..|a[1..]|];
      }
      if i :| 0 <= i < |a[1..]| && i < |b[1..]| && a[1..][..i] == b[1..][..i] && a[1..][i] < b[1..][i] {
        assert a[..i + 1] == [a[0]] + a[1..][..i] && b[..i + 1] == [b[0]] + b[1..][..i];
        assert a[i + 1] < b[i + 1];
      }
      if i :| 0 <= i < |a| && i < |b| && a[..i] == b[..i] && a[i] < b[i] {
        assert i > 0;
        assert a[1..][..i - 1] == a[..i][1..] && b[1..][..i - 1] == b[..i][1..];
        assert a[1..][i - 1] < b[1..][i - 1];
      }
    } else if a != "" && b != "" {
      assert a[..0] == b[..0];
    }
  }

  lemma {:induction false} BeforeTotal(a: string, b: string)
    ensures Before(a, b) || a == b || Before(b, a)
    ensures !(Before(a, b) && Before(b, a)) && (Before(a, b) ==> a != b)
  {
    if a != "" && b != "" && a[0] == b[0] {
      BeforeTotal(a[1..], b[1..]);
      assert a == [a[0]] + a[1..] && b == [b[0]] + b[1..];
    }
  }

  lemma {:induction false} BeforeTransitive(a: string, b: string, c: string)
    requires Before(a, b) && Before(b, c)
    ensures Before(a, c)
  {
    if a != "" && a[0] == b[0] && b[0] == c[0] {
      BeforeTransitive(a[1..], b[1..], c[1..]);
    }
  }

  predicate Ascending(s: seq<string>) {
    forall i, j :: 0 <= i < j < |s| ==> Before(s[i], s[j])
  }

  // ---- the set a user list denotes ----

  function Elements(s: seq<string>): set<string> {
    set x | x in s
  }

  function Insert(x: string, s: seq<string>): seq<string> {
    if s == [] then [x]
    else if Before(x, s[0]) then [x] + s
    else if x == s[0] then s
    else [s[0]] + Insert(x, s[1..])
  }

  /** The user list reduced to the set it denotes. */
  function Normalized(users: seq<string>): seq<string> {
    if users == [] then [] else Insert(users[0], Normalized(users[1..]))
  }

  lemma {:induction false} InsertAscending(x: string, s: seq<string>)
    requires Ascending(s)
    ensures Ascending(Insert(x, s)) && Elements(Insert(x, s)) == Elements(s) + {x}
  {
    if s != [] {
      BeforeTotal(x, s[0]);
      var r := Insert(x, s);
      if Before(x, s[0]) {
        forall i | 0 <= i < |s|
          ensures Before(x, s[i])
        {
          if i > 0 {
            BeforeTransitive(x, s[0], s[i]);
          }
        }
      } else if x != s[0] {
        InsertAscending(x, s[1..]);
        assert Elements(s) == Elements(s[1..]) + {s[0]};
        forall j | 0 < j < |r|
          ensures Before(s[0], r[j])
        {
          assert r[j] in Elements(Insert(x, s[1..]));
        }
        assert Elements(r) == Elements(Insert(x, s[1..])) + {s[0]};
      }
    }
  }

  lemma {:induction false} NormalizedAscending(users: seq<string>)
    ensures Ascending(Normalized(users)) && Elements(Normalized(users)) == Elements(users)
  {
    if users != [] {
      NormalizedAscending(users[1..]);
      InsertAscending(users[0], Normalized(users[1..]));
      assert Elements(users) == Elements(users[1..]) + {users[0]};
    }
  }

  /** An ascending list is determined by its elements. */
  lemma {:induction false} AscendingUnique(a: seq<string>, b: seq<string>)
    requires Ascending(a) && Ascending(b) && Elements(a) == Elements(b)
    ensures a == b
  {
    assert a != [] ==> a[0] in Elements(a);
    assert b != [] ==> b[0] in Elements(b);
    if a != [] && b != [] {
      assert a[0] in Elements(b) && b[0] in Elements(a);
      BeforeTotal(a[0], b[0]);
      assert a[0] == b[0];
      forall x | x in Elements(a[1..]) + Elements(b[1..])
        ensures x in Elements(a[1..]) && x in Elements(b[1..])
      {
        assert Before(a[0], x);
        BeforeTotal(a[0], x);
        assert x in Elements(a) && x in Elements(b);
      }
      AscendingUnique(a[1..], b[1..]);
      assert a == [a[0]] + a[1..] && b == [b[0]] + b[1..];
    }
  }

  /** Two user lists normalize to the same list exactly when they denote the same set. */
  lemma NormalizedCanonical(users: seq<string>, others: seq<string>)
    ensures Normalized(users) == Normalized(others) <==> Elements(users) == Elements(others)
  {
    NormalizedAscending(users);
    NormalizedAscending(others);
    if Elements(users) == Elements(others) {
      AscendingUnique(Normalized(users), Normalized(others));
    }
  }

  /** Sorts in place. */
  method SortStrings(a: array<string>)
    modifies a
    ensures forall i, j :: 0 <= i < j < a.Length ==> !Before(a[j], a[i])
    ensures multiset(a[..]) == multiset(old(a[..]))
  {
    for n := 0 to a.Length
      invariant forall i, j :: 0 <= i < j < n ==> !Before(a[j], a[i])
      invariant multiset(a[..]) == multiset(old(a[..]))
    {
      var k := n;
      while k > 0 && Before(a[k], a[k - 1])
        invariant 0 <= k <= n
        invariant forall i, j :: 0 <= i < j <= n && j != k ==> !Before(a[j], a[i])
        invariant multiset(a[..]) == multiset(old(a[..]))
      {
        BeforeTotal(a[k], a[k - 1]);
        a[k], a[k - 1] := a[k - 1], a[k];
        k := k - 1;
      }
      forall i | 0 <= i < k
        ensures !Before(a[k], a[i])
      {
        NotBeforeTransitive(a[i], a[k - 1], a[k]);
      }
    }
  }

  lemma NotBeforeTransitive(a: string, b: string, c: string)
    requires !Before(c, b) && (a == b || !Before(b, a))
    ensures !Before(c, a)
  {
    BeforeTotal(a, b);
    BeforeTotal(b, c);
    BeforeTotal(a, c);
    if Before(c, a) {
      if a != b && b != c {
        BeforeTransitive(a, b, c);
      }
    }
  }

  lemma AppendAscending(s: seq<string>, x: string)
    requires Ascending(s) && s != [] && s[|s| - 1] != x && !Before(x, s[|s| - 1])
    ensures Ascending(s + [x])
  {
    BeforeTotal(s[|s| - 1], x);
    forall i | 0 <= i < |s|
      ensures Before(s[i], x)
    {
      if i < |s| - 1 {
        BeforeTransitive(s[i], s[|s| - 1], x);
      }
    }
  }

  lemma ElementsAppend(s: seq<string>, x: string)
    ensures Elements(s + [x]) == Elements(s) + {x}
  {
  }

  /** Drops repetitions of a sorted array in place; the first `n` entries remain. */
  method Compact(a: array<string>) returns (n: nat)
    requires forall i, j :: 0 <= i < j < a.Length ==> !Before(a[j], a[i])
    modifies a
    ensures n <= a.Length && Ascending(a[..n]) && Elements(a[..n]) == old(Elements(a[..]))
  {
    hide Before, Elements;
    ghost var sorted := a[..];
    n := 0;
    assert a[..0] == sorted[..0] == [];
    for i := 0 to a.Length
      invariant 0 <= n <= i && (i > 0 ==> n > 0)
      invariant forall j :: i <= j < a.Length ==> a[j] == sorted[j]
      invariant Ascending(a[..n]) && Elements(a[..n]) == Elements(sorted[..i])
      invariant i > 0 ==> a[n - 1] == sorted[i - 1]
    {
      ghost var kept, x := a[..n], sorted[i];
      assert sorted[..i + 1] == sorted[..i] + [x];
      ElementsAppend(sorted[..i], x);
      if i == 0 || a[i] != a[n - 1] {
        if i > 0 {
          AppendAscending(kept, x);
        }
        ElementsAppend(kept, x);
        a[n] := a[i];
        n := n + 1;
        assert a[..n] == kept + [x];
      } else {
        LastElement(sorted[..i], x);
      }
    }
    assert sorted[..a.Length] == sorted;
  }

  lemma LastElement(s: seq<string>, x: string)
    requires s != [] && s[|s| - 1] == x
    ensures Elements(s) + {x} == Elements(s)
  {
  }

  lemma SameElements(a: seq<string>, b: seq<string>)
    requires multiset(a) == multiset(b)
    ensures Elements(a) == Elements(b)
  {
    assert forall x :: x in a <==> x in multiset(a);
    assert forall x :: x in b <==> x in multiset(b);
  }

  /** Copies, sorts the copy, and compacts it in place. */
  method NormalizedUsers(users: seq<string>) returns (r: seq<string>)
    ensures r == Normalized(users)
  {
    var u := new string[|users|](i requires 0 <= i < |users| => users[i]);
    assert u[..] == users;
    SortStrings(u);
    SameElements(u[..], users);
    var n := Compact(u);
    r := u[..n];
    NormalizedAscending(users);
    AscendingUnique(r, Normalized(users));
  }

  // ---- subjects and generated names ----

  function UserSubjects(users: seq<string>): seq<Subject> {
    seq(|users|, i requires 0 <= i < |users| => Subject(RBAC_GROUP, "User", users[i]))
  }

  function Subjects(m: Mapping): seq<Subject> {
    if m.group != "" then [Subject(RBAC_GROUP, "Group", m.group)] else UserSubjects(Normalized(m.users))
  }

  function NamesIn(subjects: seq<Subject>): seq<string> {
    seq(|subjects|, i requires 0 <= i < |subjects| => subjects[i].name)
  }

  /** A mapping with a group has that Group as its only subject; any other has its users, each
      as a User once, in ascending order. */
  ghost predicate SubjectsTold(m: Mapping, subjects: seq<Subject>) {
    if m.group != "" then subjects == [Subject("rbac.authorization.k8s.io", "Group", m.group)]
    else
      && (forall i :: 0 <= i < |subjects| ==>
        subjects[i].apiGroup == "rbac.authorization.k8s.io" && subjects[i].kind == "User")
      && Ascending(NamesIn(subjects)) && (forall u :: u in NamesIn(subjects) <==> u in m.users)
  }

  lemma SubjectsAreTold(m: Mapping)
    ensures SubjectsTold(m, Subjects(m))
  {
    if m.group == "" {
      var users := Normalized(m.users);
      NormalizedAscending(m.users);
      assert NamesIn(Subjects(m)) == users;
      assert forall u :: u in users <==> u in Elements(users);
      assert forall u :: u in m.users <==> u in Elements(m.users);
    }
  }

  /** And there is no other list like that. */
  lemma ToldIsSubjects(m: Mapping, subjects: seq<Subject>)
    requires SubjectsTold(m, subjects)
    ensures subjects == Subjects(m)
  {
    if m.group == "" {
      SubjectsAreTold(m);
      AscendingUnique(NamesIn(subjects), NamesIn(Subjects(m)));
      assert |subjects| == |NamesIn(subjects)| && |Subjects(m)| == |NamesIn(Subjects(m))|;
      forall i | 0 <= i < |subjects|
        ensures subjects[i] == Subjects(m)[i]
      {
        assert NamesIn(subjects)[i] == NamesIn(Subjects(m))[i];
      }
    }
  }

  method SubjectsFor(m: Mapping) returns (subjects: seq<Subject>)
    ensures subjects == Subjects(m) && SubjectsTold(m, subjects)
  {
    hide SubjectsTold, Normalized;
    SubjectsAreTold(m);
    if m.group != "" {
      return [Subject(RBAC_GROUP, "Group", m.group)];
    }
    var users := NormalizedUsers(m.users);
    subjects := [];
    for i := 0 to |users|
      invariant subjects == UserSubjects(users[..i])
    {
      subjects := subjects + [Subject(RBAC_GROUP, "User", users[i])];
    }
    assert users[..|users|] == users;
  }

  function Join(users: seq<string>): string {
    if users == [] then "" else if |users| == 1 then users[0] else users[0] + [NUL] + Join(users[1..])
  }

  function SubjectKey(hash: HashFunction, m: Mapping): string {
    if m.group != "" then "g:" + m.group else "u:" + Hash(hash, Join(Normalized(m.users)))
  }

  function Preimage(owner: string, subject: string, role: string): string {
    owner + [NUL] + subject + [NUL] + role
  }

  function BindingName(hash: HashFunction, owner: string, subject: string, role: string): string {
    "k8sc-" + Hash(hash, Preimage(owner, subject, role))[..20]
  }

  /** A generated name is a fixed beginning and twenty lower-case hexadecimal digits. */
  lemma NameShape(hash: HashFunction, owner: string, subject: string, role: string)
    ensures
      var name := BindingName(hash, owner, subject, role);
      && |name| == 25 && name[..5] == "k8sc-"
      && (forall i :: 5 <= i < 25 ==> '0' <= name[i] <= '9' || 'a' <= name[i] <= 'f')
  {
    var h := Hash(hash, Preimage(owner, subject, role));
    HexDigits(hash(Preimage(owner, subject, role)), 64);
    var name := BindingName(hash, owner, subject, role);
    assert name == "k8sc-" + h[..20];
    forall i | 5 <= i < 25
      ensures '0' <= name[i] <= '9' || 'a' <= name[i] <= 'f'
    {
      assert name[i] == h[i - 5] && h[i - 5] in Hex(hash(Preimage(owner, subject, role)), 64);
    }
  }

  lemma {:induction false} HexDigits(n: nat, digits: nat)
    ensures forall c :: c in Hex(n, digits) ==> '0' <= c <= '9' || 'a' <= c <= 'f'
  {
    if digits > 0 {
      HexDigits(n / 16, digits - 1);
      assert forall i :: 0 <= i < 16 ==> '0' <= HEX_DIGITS[i] <= '9' || 'a' <= HEX_DIGITS[i] <= 'f';
    }
  }

  /** The first NUL of a string splits it in one way. */
  lemma {:induction false} SplitUnique(a: string, x: string, b: string, y: string)
    requires NulFree(a) && NulFree(b) && a + [NUL] + x == b + [NUL] + y
    ensures a == b && x == y
  {
    var l, r := a + [NUL] + x, b + [NUL] + y;
    assert l[|a|] == NUL && l[|b|] == NUL;
    assert forall i :: 0 <= i < |a| ==> l[i] == a[i];
    assert forall i :: 0 <= i < |b| ==> l[i] == b[i];
    assert a == l[..|a|] == r[..|b|] == b;
    assert x == l[|a| + 1..] == r[|b| + 1..] == y;
  }

  lemma PreimageInjective(o1: string, s1: string, r1: string, o2: string, s2: string, r2: string)
    requires NulFree(o1) && NulFree(o2) && NulFree(s1) && NulFree(s2)
    requires Preimage(o1, s1, r1) == Preimage(o2, s2, r2)
    ensures o1 == o2 && s1 == s2 && r1 == r2
  {
    assert Preimage(o1, s1, r1) == o1 + [NUL] + (s1 + [NUL] + r1);
    assert Preimage(o2, s2, r2) == o2 + [NUL] + (s2 + [NUL] + r2);
    SplitUnique(o1, s1 + [NUL] + r1, o2, s2 + [NUL] + r2);
    SplitUnique(s1, r1, s2, r2);
  }

  lemma {:induction false} JoinInjective(a: seq<string>, b: seq<string>)
    requires a != [] && b != [] && Join(a) == Join(b)
    requires forall u :: u in a || u in b ==> NulFree(u)
    ensures a == b
  {
    assert NulFree(a[0]) && NulFree(b[0]);
    assert |a| > 1 ==> Join(a)[|a[0]|] == NUL;
    assert |b| > 1 ==> Join(b)[|b[0]|] == NUL;
    if |a| > 1 && |b| > 1 {
      SplitUnique(a[0], Join(a[1..]), b[0], Join(b[1..]));
      JoinInjective(a[1..], b[1..]);
    }
    assert a == [a[0]] + a[1..] && b == [b[0]] + b[1..];
  }

  /** The mappings a name is derived from: some subject, and no NUL in any name. */
  predicate Nameable(m: Mapping) {
    && (m.group != "" || m.users != [])
    && NulFree(m.group)
    && (forall u :: u in m.users ==> NulFree(u))
  }

  /** Both mappings denote the same group, or the same set of users. */
  predicate SameSubjects(m: Mapping, n: Mapping) {
    m.group == n.group && (m.group == "" ==> Elements(m.users) == Elements(n.users))
  }

  lemma SameSubjectsSameContents(hash: HashFunction, m: Mapping, n: Mapping)
    requires SameSubjects(m, n)
    ensures Subjects(m) == Subjects(n) && SubjectKey(hash, m) == SubjectKey(hash, n)
  {
    NormalizedCanonical(m.users, n.users);
  }

  /** Two user sets whose joined lists differ and hash alike. */
  predicate UserCollision(hash: HashFunction, m: Mapping, n: Mapping) {
    && m.group == n.group == ""
    && Join(Normalized(m.users)) != Join(Normalized(n.users))
    && Hash(hash, Join(Normalized(m.users))) == Hash(hash, Join(Normalized(n.users)))
  }

  /** Two preimages that differ and whose hashes agree on the digits a name keeps. */
  predicate PrefixCollision(hash: HashFunction, p: string, q: string) {
    p != q && Hash(hash, p)[..20] == Hash(hash, q)[..20]
  }

  lemma {:induction false} KeysAgree(hash: HashFunction, m: Mapping, n: Mapping)
    requires Nameable(m) && Nameable(n)
    ensures NulFree(SubjectKey(hash, m)) && NulFree(SubjectKey(hash, n))
    ensures SubjectKey(hash, m) == SubjectKey(hash, n) <==> SameSubjects(m, n) || UserCollision(hash, m, n)
  {
    var (k, l) := (SubjectKey(hash, m), SubjectKey(hash, n));
    assert k[2..] == if m.group != "" then m.group else Hash(hash, Join(Normalized(m.users)));
    assert l[2..] == if n.group != "" then n.group else Hash(hash, Join(Normalized(n.users)));
    assert k[0] == (if m.group != "" then 'g' else 'u') && l[0] == (if n.group != "" then 'g' else 'u');
    assert NulFree(k[2..]) && k == k[..2] + k[2..];
    assert NulFree(l[2..]) && l == l[..2] + l[2..];
    if SameSubjects(m, n) {
      SameSubjectsSameContents(hash, m, n);
    } else if k == l && m.group == "" && Join(Normalized(m.users)) == Join(Normalized(n.users)) {
      NormalizedAscending(m.users);
      NormalizedAscending(n.users);
      forall u | u in Normalized(m.users) || u in Normalized(n.users)
        ensures NulFree(u)
      {
        assert u in Elements(m.users) || u in Elements(n.users);
      }
      assert m.users[0] in Elements(m.users) && n.users[0] in Elements(n.users);
      JoinInjective(Normalized(m.users), Normalized(n.users));
      NormalizedCanonical(m.users, n.users);
    }
  }

  /** Two generated names agree exactly when owner, subject set and role agree, or a
      concrete collision of the hash, or of the digits of it that are kept, is at hand. */
  lemma NamesAgree(hash: HashFunction, o1: string, m1: Mapping, r1: string, o2: string, m2: Mapping, r2: string)
    requires NulFree(o1) && NulFree(o2) && Nameable(m1) && Nameable(m2)
    ensures BindingName(hash, o1, SubjectKey(hash, m1), r1) == BindingName(hash, o2, SubjectKey(hash, m2), r2) <==>
      || (o1 == o2 && r1 == r2 && (SameSubjects(m1, m2) || UserCollision(hash, m1, m2)))
      || PrefixCollision(hash, Preimage(o1, SubjectKey(hash, m1), r1), Preimage(o2, SubjectKey(hash, m2), r2))
  {
    var (k1, k2) := (SubjectKey(hash, m1), SubjectKey(hash, m2));
    var (p1, p2) := (Preimage(o1, k1, r1), Preimage(o2, k2, r2));
    KeysAgree(hash, m1, m2);
    var (n1, n2) := (BindingName(hash, o1, k1, r1), BindingName(hash, o2, k2, r2));
    assert n1[5..] == Hash(hash, p1)[..20] && n2[5..] == Hash(hash, p2)[..20];
    assert n1[..5] == "k8sc-" == n2[..5] && n1 == n1[..5] + n1[5..] && n2 == n2[..5] + n2[5..];
    if p1 == p2 {
      PreimageInjective(o1, k1, r1, o2, k2, r2);
    }
  }

  // ---- what a NUL does ----

  /** A number whose `digits` hexadecimal digits begin with a one. */
  function TopOne(digits: nat): nat {
    if digits <= 1 then 1 else 16 * TopOne(digits - 1)
  }

  lemma {:induction false} TopDigit(digits: nat)
    requires digits > 0
    ensures Hex(TopOne(digits), digits)[0] == '1' && Hex(0, digits)[0] == '0'
  {
    if digits > 1 {
      TopDigit(digits - 1);
      assert TopOne(digits) / 16 == TopOne(digits - 1);
    }
  }

  /** A hash that tells `p` from every other string by the first digit. */
  function Telling(p: string): HashFunction {
    v => if v == p then TopOne(64) else 0
  }

  lemma TellingTells(p: string, q: string)
    requires Hash(Telling(p), p)[..20] == Hash(Telling(p), q)[..20]
    ensures p == q
  {
    TopDigit(64);
    assert Hash(Telling(p), p)[..20][0] == '1' && Hash(Telling(p), q)[..20][0] == Hash(Telling(p), q)[0];
  }

  /** The names of the two grants agree, whatever the hash. */
  ghost predicate AlwaysSameName(owner: string, m: Mapping, r: string, n: Mapping, q: string) {
    forall hash: HashFunction :: BindingName(hash, owner, SubjectKey(hash, m), r) == BindingName(hash, owner, SubjectKey(hash, n), q)
  }

  /** A grant to a group that is not the grant of `r` to the group `m` names, and shares its
      name under every hash. */
  ghost predicate Alias(owner: string, m: Mapping, r: string, n: Mapping, q: string) {
    && (n.group != "" || n.users != []) && q != ""
    && !(SameSubjects(m, n) && r == q)
    && AlwaysSameName(owner, m, r, n, q)
  }

  /** A grant to a group shares its name with a different grant, whatever the hash, exactly
      if the group holds a NUL after its first character, or the role one before its last. */
  lemma NulAliases(owner: string, m: Mapping, r: string)
    requires m.group != "" && r != ""
    ensures (exists n, q :: Alias(owner, m, r, n, q)) <==> !NulFree(m.group[1..]) || !NulFree(r[..|r| - 1])
  {
    hide Alias;
    if !NulFree(m.group[1..]) {
      var i :| 0 <= i < |m.group[1..]| && m.group[1..][i] == NUL;
      var n, q := Mapping(m.group[..i + 1], [], []), m.group[i + 2..] + [NUL] + r;
      assert m.group == n.group + [NUL] + m.group[i + 2..];
      NulAliasOf(owner, m, r, n, q);
      assert Alias(owner, m, r, n, q);
    } else if !NulFree(r[..|r| - 1]) {
      var i :| 0 <= i < |r| - 1 && r[i] == NUL;
      var n, q := Mapping(m.group + [NUL] + r[..i], [], []), r[i + 1..];
      assert r == r[..i] + [NUL] + q;
      NulAliasOf(owner, m, r, n, q);
      assert Alias(owner, m, r, n, q);
    } else {
      forall n, q
        ensures !Alias(owner, m, r, n, q)
      {
        NoAlias(owner, m, r, n, q);
      }
    }
  }

  lemma NulAliasOf(owner: string, m: Mapping, r: string, n: Mapping, q: string)
    requires m.group != "" && n.group != "" && q != "" && m.group != n.group
    requires m.group + [NUL] + r == n.group + [NUL] + q
    ensures Alias(owner, m, r, n, q)
  {
    assert forall s, t :: Preimage(owner, "g:" + s, t) == owner + [NUL] + "g:" + (s + [NUL] + t);
  }

  lemma NoAlias(owner: string, m: Mapping, r: string, n: Mapping, q: string)
    requires m.group != "" && r != "" && NulFree(m.group[1..]) && NulFree(r[..|r| - 1])
    ensures !Alias(owner, m, r, n, q)
  {
    if Alias(owner, m, r, n, q) {
      var p := Preimage(owner, "g:" + m.group, r);
      var hash := Telling(p);
      var (k, l) := (SubjectKey(hash, n), Preimage(owner, SubjectKey(hash, n), q));
      assert BindingName(hash, owner, "g:" + m.group, r)[5..] == BindingName(hash, owner, k, q)[5..];
      assert BindingName(hash, owner, "g:" + m.group, r)[5..] == Hash(hash, p)[..20];
      assert BindingName(hash, owner, k, q)[5..] == Hash(hash, l)[..20];
      TellingTells(p, l);
      assert p[|owner| + 1] == 'g' && l[|owner| + 1] == k[0];
      assert p[|owner| + 3..] == m.group + [NUL] + r && l[|owner| + 3..] == n.group + [NUL] + q;
      OtherSplit(m.group, r, n.group, q);
    }
  }

  /** A string that splits in two ways has a NUL inside one of the parts. */
  lemma OtherSplit(a: string, r: string, b: string, q: string)
    requires a != "" && r != "" && b != "" && q != "" && a + [NUL] + r == b + [NUL] + q
    ensures (a == b && r == q) || !NulFree(a[1..]) || !NulFree(r[..|r| - 1])
  {
    var (x, y) := (a + [NUL] + r, b + [NUL] + q);
    assert y[|b|] == NUL && |x| == |y|;
    if |b| < |a| {
      assert a[1..][|b| - 1] == x[|b|];
    } else if |b| > |a| {
      assert r[..|r| - 1][|b| - |a| - 1] == x[|b|];
    } else {
      assert a == x[..|a|] && r == x[|a| + 1..] && b == y[..|b|] && q == y[|b| + 1..];
    }
  }

  /** Two users or more share their key, whatever the hash, with the one user that is their
      names joined by NULs. */
  lemma JoinedUserAliases(m: Mapping)
    requires m.group == "" && |Normalized(m.users)| > 1
    ensures
      var n := m.(users := [Join(Normalized(m.users))]);
      !SameSubjects(m, n) && forall hash: HashFunction :: SubjectKey(hash, m) == SubjectKey(hash, n)
  {
    var one := [Join(Normalized(m.users))];
    NormalizedAscending(m.users);
    assert Normalized(one) == one by {
      NormalizedAscending(one);
      AscendingUnique(Normalized(one), one);
    }
    var l := Normalized(m.users);
    assert l[0] in Elements(l) && l[1] in Elements(l);
    assert Before(l[0], l[1]);
    BeforeTotal(l[0], l[1]);
  }

  lemma {:induction false} BeforeLonger(a: string, b: string, t: string)
    requires Before(a, b)
    ensures Before(a, b + t)
  {
    if a != "" && a[0] == b[0] {
      BeforeLonger(a[1..], b[1..], t);
      assert (b + t)[1..] == b[1..] + t;
    }
  }

  /** A NUL splits `u` into two names in ascending order. */
  predicate SplitsAt(u: string, i: nat) {
    0 < i < |u| && u[i] == NUL && Before(u[..i], u[i + 1..])
  }

  /** The subjects of a valid mapping: a group, or users with names. */
  predicate ValidSubjects(m: Mapping) {
    m.group != "" || (m.users != [] && forall u :: u in m.users ==> u != "")
  }

  /** Other subjects with the same key, whatever the hash. */
  ghost predicate KeyAlias(m: Mapping, n: Mapping) {
    ValidSubjects(n) && !SameSubjects(m, n) && forall hash: HashFunction :: SubjectKey(hash, m) == SubjectKey(hash, n)
  }

  /** Users share their key, and so the names of their bindings, with other subjects under
      every hash exactly if they are two or more, or the only one is called like two users
      in ascending order with a NUL between them. */
  lemma UserAliases(m: Mapping)
    requires m.group == "" && ValidSubjects(m)
    ensures |Normalized(m.users)| > 0
    ensures (exists n :: KeyAlias(m, n)) <==>
      |Normalized(m.users)| > 1 || exists i :: SplitsAt(Normalized(m.users)[0], i)
  {
    hide KeyAlias;
    var l := Normalized(m.users);
    NormalizedAscending(m.users);
    assert m.users[0] in Elements(l);
    if |l| > 1 {
      JoinedIsAlias(m);
      assert KeyAlias(m, m.(users := [Join(l)]));
    } else if exists i :: SplitsAt(l[0], i) {
      var i :| SplitsAt(l[0], i);
      SplitAliases(m, l[0], i);
    } else {
      forall n
        ensures !KeyAlias(m, n)
      {
        NoKeyAlias(m, n);
      }
    }
  }

  lemma JoinedIsAlias(m: Mapping)
    requires m.group == "" && |Normalized(m.users)| > 1
    ensures KeyAlias(m, m.(users := [Join(Normalized(m.users))]))
  {
    JoinedUserAliases(m);
  }

  lemma NoKeyAlias(m: Mapping, n: Mapping)
    requires m.group == "" && |Normalized(m.users)| == 1 && forall i :: !SplitsAt(Normalized(m.users)[0], i)
    ensures !KeyAlias(m, n)
  {
    hide KeyAlias;
    if KeyAlias(m, n) {
      AliasSplits(m, n);
    }
  }

  lemma SplitAliases(m: Mapping, u: string, i: nat)
    requires m.group == "" && Normalized(m.users) == [u] && SplitsAt(u, i)
    ensures exists n :: KeyAlias(m, n)
  {
    var two := [u[..i], u[i + 1..]];
    var n := m.(users := two);
    NormalizedAscending(m.users);
    assert Normalized(two) == two by {
      NormalizedAscending(two);
      AscendingUnique(Normalized(two), two);
    }
    assert Join(two[1..]) == u[i + 1..] && Join(two) == u[..i] + [NUL] + u[i + 1..] == u;
    assert two[0] in Elements(two) && two[0] != u;
    assert KeyAlias(m, n);
  }

  lemma OneOrMore(k: seq<string>, l: seq<string>)
    requires |l| == 1 && k != [] && Join(k) == Join(l)
    ensures k == l || |k| > 1
  {
    if |k| == 1 {
      assert k[0] == l[0];
    }
  }

  lemma AliasSplits(m: Mapping, n: Mapping)
    requires m.group == "" && |Normalized(m.users)| == 1 && KeyAlias(m, n)
    ensures exists i :: SplitsAt(Normalized(m.users)[0], i)
  {
    var (l, k) := (Normalized(m.users), Normalized(n.users));
    var hash := Telling(Join(l));
    assert SubjectKey(hash, m)[0] == 'u' && SubjectKey(hash, n)[0] == 'u';
    assert SubjectKey(hash, m)[2..] == Hash(hash, Join(l)) && SubjectKey(hash, n)[2..] == Hash(hash, Join(k));
    TellingTells(Join(l), Join(k));
    NormalizedCanonical(m.users, n.users);
    NormalizedAscending(n.users);
    assert n.users[0] in Elements(k);
    OneOrMore(k, l);
    assert k[0] in Elements(n.users) && Before(k[0], k[1]);
    var rest := Join(k[1..]);
    assert rest == k[1] + rest[|k[1]|..];
    BeforeLonger(k[0], k[1], rest[|k[1]|..]);
    assert Join(k) == k[0] + [NUL] + rest;
    assert Join(k)[..|k[0]|] == k[0] && Join(k)[|k[0]| + 1..] == rest;
    assert SplitsAt(l[0], |k[0]|);
  }
}
