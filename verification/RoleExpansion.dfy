/** `ValidateRoles`, `ExpandInheritance` and the grants built from its result. */
module RoleExpansion {
  import opened Prelude
  import opened Roles

  datatype Error =
    | EmptyRoleName
    | DuplicateRole(name: string)
    | SelfInheritance(name: string)
    | UnknownParentRole(name: string, parent: string)
    | InheritanceCycle(path: seq<string>)

  datatype Result<+T> = Ok(value: T) | Err(error: Error)

  // --------------------------------------------------------------- validation

  function ByName(roles: seq<Role>): Policy {
    if roles == [] then map[] else ByName(roles[..|roles| - 1])[roles[|roles| - 1].name := roles[|roles| - 1]]
  }

  ghost predicate Distinct(roles: seq<Role>) {
    forall i, j :: 0 <= i < j < |roles| ==> roles[i].name != roles[j].name
  }

  /** With distinct names, the index holds exactly the roles declared. */
  lemma {:induction false} ByNameExact(roles: seq<Role>)
    requires Distinct(roles)
    ensures forall n :: n in ByName(roles) ==> ByName(roles)[n].name == n && ByName(roles)[n] in roles
    ensures forall i :: 0 <= i < |roles| ==> roles[i].name in ByName(roles) && ByName(roles)[roles[i].name] == roles[i]
    decreases |roles|
  {
    if roles != [] {
      ByNameExact(roles[..|roles| - 1]);
    }
  }

  ghost predicate ParentsKnown(roles: seq<Role>, i: nat) {
    i < |roles| ==> forall p :: p in roles[i].inherits ==> p != roles[i].name && p in ByName(roles)
  }

  /** A policy `ValidateRoles` accepts. */
  ghost predicate WellFormed(roles: seq<Role>) {
    && (forall i :: 0 <= i < |roles| ==> roles[i].name != "")
    && Distinct(roles)
    && (forall i: nat :: ParentsKnown(roles, i))
    && Acyclic(ByName(roles))
  }

  /** What each error says of the policy. */
  ghost predicate Justified(roles: seq<Role>, e: Error) {
    match e
    case EmptyRoleName => exists i :: 0 <= i < |roles| && roles[i].name == ""
    case DuplicateRole(n) => exists i, j :: 0 <= i < j < |roles| && roles[i].name == n == roles[j].name
    case SelfInheritance(n) => exists i :: 0 <= i < |roles| && roles[i].name == n && n in roles[i].inherits
    case UnknownParentRole(n, p) =>
      exists i :: 0 <= i < |roles| && roles[i].name == n && p in roles[i].inherits && p !in ByName(roles)
    case InheritanceCycle(path) => EndsInCycle(ByName(roles), path)
  }

  lemma {:induction false} NameIsIndexed(roles: seq<Role>, j: nat)
    requires j < |roles|
    ensures roles[j].name in ByName(roles)
    decreases |roles|
  {
    if j < |roles| - 1 {
      NameIsIndexed(roles[..|roles| - 1], j);
    }
  }

  lemma {:induction false} IndexedName(roles: seq<Role>, n: string) returns (j: nat)
    requires n in ByName(roles)
    ensures j < |roles| && roles[j].name == n
    decreases |roles|
  {
    j := |roles| - 1;
    if roles[j].name != n {
      j := IndexedName(roles[..j], n);
    }
  }

  lemma DuplicateIsTrue(roles: seq<Role>, i: nat)
    requires i < |roles| && roles[i].name in ByName(roles[..i])
    ensures Justified(roles, DuplicateRole(roles[i].name))
  {
    var j := IndexedName(roles[..i], roles[i].name);
    assert roles[j].name == roles[i].name;
  }

  lemma StaysDistinct(roles: seq<Role>, i: nat)
    requires i < |roles| && Distinct(roles[..i]) && roles[i].name !in ByName(roles[..i])
    ensures Distinct(roles[..i + 1]) && ByName(roles[..i + 1]) == ByName(roles[..i])[roles[i].name := roles[i]]
  {
    var before := roles[..i];
    assert roles[..i + 1][..i] == before;
    forall j, k | 0 <= j < k < i + 1 ensures roles[j].name != roles[k].name {
      NameIsIndexed(before, j);
      assert before[j] == roles[j] && (k < i ==> before[k] == roles[k]);
    }
  }

  /** The first loop: index the roles by name. */
  method IndexRoles(roles: seq<Role>) returns (byName: Policy, err: Option<Error>)
    ensures err.None? ==> byName == ByName(roles) && Distinct(roles) && forall i :: 0 <= i < |roles| ==> roles[i].name != ""
    ensures err.Some? ==> Justified(roles, err.value) && (err.value.EmptyRoleName? || err.value.DuplicateRole?)
  {
    byName := map[];
    err := None;
    var i := 0;
    while i < |roles|
      invariant 0 <= i <= |roles|
      invariant byName == ByName(roles[..i]) && Distinct(roles[..i])
      invariant forall j :: 0 <= j < i ==> roles[j].name != ""
    {
      var r := roles[i];
      if r.name == "" {
        return byName, Some(EmptyRoleName);
      }
      if r.name in byName {
        DuplicateIsTrue(roles, i);
        return byName, Some(DuplicateRole(r.name));
      }
      StaysDistinct(roles, i);
      byName := byName[r.name := r];
      i := i + 1;
    }
    assert roles[..i] == roles;
  }

  /** The second loop: every parent is another role of the policy. */
  method CheckParents(roles: seq<Role>, byName: Policy) returns (err: Option<Error>)
    requires byName == ByName(roles)
    ensures err.None? <==> forall i: nat :: ParentsKnown(roles, i)
    ensures err.Some? ==> Justified(roles, err.value) && (err.value.SelfInheritance? || err.value.UnknownParentRole?)
  {
    err := None;
    var i := 0;
    while i < |roles|
      invariant 0 <= i <= |roles| && err.None?
      invariant forall j: nat :: j < i ==> ParentsKnown(roles, j)
    {
      var r := roles[i];
      var k := 0;
      while k < |r.inherits|
        invariant 0 <= k <= |r.inherits| && err.None?
        invariant forall m :: 0 <= m < k ==> r.inherits[m] != r.name && r.inherits[m] in byName
      {
        var parent := r.inherits[k];
        if parent == r.name || parent !in byName {
          assert parent in r.inherits && !ParentsKnown(roles, i);
          err := Some(if parent == r.name then SelfInheritance(r.name) else UnknownParentRole(r.name, parent));
          return;
        }
        k := k + 1;
      }
      assert ParentsKnown(roles, i);
      i := i + 1;
    }
  }

  lemma ParentsAreDefined(roles: seq<Role>)
    requires Distinct(roles) && forall i: nat :: ParentsKnown(roles, i)
    ensures ParentsDefined(ByName(roles))
  {
    var g := ByName(roles);
    ByNameExact(roles);
    forall n: string ensures KnowsParents(g, n) {
      if n in g {
        var i :| 0 <= i < |roles| && roles[i] == g[n];
        assert ParentsKnown(roles, i);
      }
    }
  }

  /** Accepts exactly the well-formed policies, and an error it reports is true. */
  method ValidateRoles(roles: seq<Role>) returns (err: Option<Error>)
    ensures err.None? <==> WellFormed(roles)
    ensures err.Some? ==> Justified(roles, err.value)
  {
    var byName;
    byName, err := IndexRoles(roles);
    if err.Some? { return; }
    err := CheckParents(roles, byName);
    if err.Some? { return; }
    ParentsAreDefined(roles);
    var cycle := DetectCycles(byName);
    err := if cycle.Some? then Some(InheritanceCycle(cycle.value)) else None;
  }

  // ---------------------------------------------------------------- expansion

  /** Some role reachable from `n` grants `p`. */
  ghost predicate Effective(g: Policy, n: string, p: Permission) {
    p != "" && exists m :: GrantsVia(g, n, m, p)
  }

  ghost predicate GrantsVia(g: Policy, n: string, m: string, p: Permission) {
    m in g && Reaches(g, n, m) && p in g[m].permissions
  }

  ghost predicate Exact(g: Policy, n: string, perms: set<Permission>) {
    forall p :: p in perms <==> Effective(g, n, p)
  }

  lemma ReachesSelf(g: Policy, n: string)
    ensures Reaches(g, n, n)
  {
    assert Chain(g, [n]) by { forall i: int ensures Link(g, [n], i) {} }
    assert Walks(g, [n], n, n);
  }

  lemma ReachesThrough(g: Policy, n: string, parent: string, m: string)
    requires Edge(g, n, parent) && Reaches(g, parent, m)
    ensures Reaches(g, n, m)
  {
    var path :| Walks(g, path, parent, m);
    var longer := [n] + path;
    forall i: int ensures Link(g, longer, i) { assert Link(g, path, i - 1); }
    assert Walks(g, longer, n, m);
  }

  lemma ReachesFirstStep(g: Policy, n: string, m: string) returns (parent: string)
    requires Reaches(g, n, m) && n != m
    ensures Edge(g, n, parent) && Reaches(g, parent, m)
  {
    var path :| Walks(g, path, n, m);
    parent := path[1];
    assert Link(g, path, 0);
    ChainPart(g, path, 1, |path|);
    assert path[1..|path|] == path[1..] && Walks(g, path[1..], parent, m);
  }

  /** A role has what it grants itself and what its parents have, nothing else. */
  lemma EffectiveUnfolds(g: Policy, n: string, p: Permission)
    requires n in g
    ensures Effective(g, n, p) <==>
              p != "" && (p in g[n].permissions || exists i :: 0 <= i < |g[n].inherits| && Effective(g, g[n].inherits[i], p))
  {
    if Effective(g, n, p) {
      var m :| GrantsVia(g, n, m, p);
      if m != n {
        var parent := ReachesFirstStep(g, n, m);
        assert GrantsVia(g, parent, m, p);
        var i :| 0 <= i < |g[n].inherits| && g[n].inherits[i] == parent;
        assert Effective(g, g[n].inherits[i], p);
      }
    }
    if p != "" && p in g[n].permissions {
      ReachesSelf(g, n);
      assert GrantsVia(g, n, n, p);
    }
    if i :| 0 <= i < |g[n].inherits| && Effective(g, g[n].inherits[i], p) {
      var m :| GrantsVia(g, g[n].inherits[i], m, p);
      ReachesThrough(g, n, g[n].inherits[i], m);
      assert GrantsVia(g, n, m, p);
    }
  }

  /** `NewPermissionSet`: the permissions given that are not the empty string. */
  method NewPermissionSet(perms: seq<Permission>) returns (s: set<Permission>)
    ensures forall p :: p in s <==> p in perms && p != ""
  {
    s := {};
    var i := 0;
    while i < |perms|
      invariant 0 <= i <= |perms|
      invariant forall p :: p in s <==> p in perms[..i] && p != ""
    {
      assert perms[..i + 1] == perms[..i] + [perms[i]];
      if perms[i] != "" { s := s + {perms[i]}; }
      i := i + 1;
    }
    assert perms[..i] == perms;
  }

  type Memo = map<string, set<Permission>>

  /** Entries are exact, save those of the roles still being resolved. */
  ghost predicate MemoOk(g: Policy, memo: Memo, path: seq<string>) {
    memo.Keys <= g.Keys && forall n :: n in memo && n !in path ==> Exact(g, n, memo[n])
  }

  /** In an acyclic policy a walk never meets itself: no partial entry is read. */
  lemma NeverOnOwnPath(g: Policy, path: seq<string>, name: string)
    requires Acyclic(g) && Chain(g, path) && Extends(g, path, name)
    ensures name !in path
  {
    if name in path {
      ChainExtends(g, path, name);
      assert (path + [name])[..|path|] == path;
      assert EndsInCycle(g, path + [name]);
      var i := CycleWithin(g, path + [name]);
      assert false;
    }
  }

  class Expander {
    const g: Policy
    var expanded: Memo

    ghost predicate Valid(path: seq<string>)
      reads this
    {
      ParentsDefined(g) && Acyclic(g) && Chain(g, path) && MemoOk(g, expanded, path)
    }

    constructor (g: Policy)
      requires ParentsDefined(g) && Acyclic(g)
      ensures this.g == g && expanded == map[] && Valid([])
    {
      this.g := g;
      expanded := map[];
      new;
      assert Chain(g, []) by { forall i: int ensures Link(g, [], i) {} }
    }

    /** `resolve`: memoised, and published before the parents are resolved. */
    method Resolve(name: string, ghost path: seq<string>) returns (perms: set<Permission>)
      requires Valid(path) && Extends(g, path, name)
      modifies this
      ensures Valid(path) && Exact(g, name, perms)
      ensures old(expanded.Keys) + {name} <= expanded.Keys
      decreases |g.Keys - expanded.Keys|, 1
    {
      NeverOnOwnPath(g, path, name);
      if name in expanded {
        return expanded[name];
      }
      perms := NewPermissionSet(g[name].permissions);
      Fewer(g.Keys, expanded.Keys, expanded[name := perms].Keys, name);
      expanded := expanded[name := perms];
      perms := ResolveParents(name, perms, path);
    }

    method ResolveParents(name: string, own: set<Permission>, ghost path: seq<string>) returns (perms: set<Permission>)
      requires ParentsDefined(g) && Acyclic(g) && Chain(g, path) && Extends(g, path, name) && name !in path
      requires MemoOk(g, expanded, path + [name]) && name in expanded && expanded[name] == own
      requires forall p :: p in own <==> p in g[name].permissions && p != ""
      modifies this
      ensures Valid(path) && Exact(g, name, perms) && old(expanded.Keys) <= expanded.Keys
      decreases |g.Keys - expanded.Keys|, 2
    {
      perms := own;
      var parents := g[name].inherits;
      ChainExtends(g, path, name);
      var i := 0;
      while i < |parents|
        invariant 0 <= i <= |parents|
        invariant MemoOk(g, expanded, path + [name]) && old(expanded.Keys) <= expanded.Keys && name in expanded
        invariant expanded[name] == perms
        invariant forall p :: p in perms <==> p in own || exists j :: 0 <= j < i && Effective(g, parents[j], p)
      {
        SubsetSize(g.Keys - expanded.Keys, old(g.Keys - expanded.Keys));
        assert KnowsParents(g, name) && Edge(g, name, parents[i]);
        var more := Resolve(parents[i], path + [name]);
        perms := perms + more;
        expanded := expanded[name := perms];
        i := i + 1;
      }
      forall p ensures p in perms <==> Effective(g, name, p) { EffectiveUnfolds(g, name, p); }
    }
  }

  lemma Fewer(all: set<string>, before: set<string>, now: set<string>, name: string)
    requires name in all && name !in before && now == before + {name}
    ensures |all - now| < |all - before|
  {
    assert name in all - before && name !in all - now;
    Smaller(all - now, all - before);
  }

  ghost predicate Expands(roles: seq<Role>, expanded: Memo) {
    expanded.Keys == ByName(roles).Keys && forall n :: n in expanded ==> Exact(ByName(roles), n, expanded[n])
  }

  /** Every role of an accepted policy, mapped to exactly the non-empty permissions of
      all roles reachable from it. */
  method ExpandInheritance(roles: seq<Role>) returns (r: Result<Memo>)
    ensures r.Ok? <==> WellFormed(roles)
    ensures r.Ok? ==> Expands(roles, r.value)
    ensures r.Err? ==> Justified(roles, r.error)
  {
    var err := ValidateRoles(roles);
    if err.Some? {
      return Err(err.value);
    }
    var byName := ByName(roles);
    ParentsAreDefined(roles);
    ByNameExact(roles);
    var x := new Expander(byName);
    var i := 0;
    while i < |roles|
      invariant 0 <= i <= |roles| && x.g == byName && x.Valid([])
      invariant forall j :: 0 <= j < i ==> roles[j].name in x.expanded
    {
      var _ := x.Resolve(roles[i].name, []);
      i := i + 1;
    }
    r := Ok(x.expanded);
  }

  lemma Twice(roles: seq<Role>, r: Role)
    requires multiset(roles)[r] >= 2
    ensures !Distinct(roles)
  {
    var i :| 0 <= i < |roles| && roles[i] == r;
    assert roles == roles[..i] + [r] + roles[i + 1..];
    if r in roles[..i] {
      var j :| 0 <= j < i && roles[j] == r;
    } else {
      assert r in multiset(roles[i + 1..]);
      var j :| 0 <= j < |roles[i + 1..]| && roles[i + 1..][j] == r;
      assert roles[i + 1 + j].name == roles[i].name;
    }
  }

  lemma StillDistinct(roles: seq<Role>, others: seq<Role>)
    requires multiset(roles) == multiset(others) && Distinct(roles)
    ensures Distinct(others)
  {
    forall i, j | 0 <= i < j < |others| ensures others[i].name != others[j].name {
      var r, q := others[i], others[j];
      assert others == others[..i] + [r] + others[i + 1..j] + [q] + others[j + 1..];
      if r == q {
        assert multiset(others)[r] >= 2;
        Twice(roles, r);
      } else {
        assert r in multiset(roles) && q in multiset(roles);
        assert r in roles && q in roles;
      }
    }
  }

  lemma SameIndex(roles: seq<Role>, others: seq<Role>)
    requires Distinct(roles) && Distinct(others) && forall r :: r in roles <==> r in others
    ensures ByName(roles) == ByName(others)
  {
    ByNameExact(roles);
    ByNameExact(others);
    var g, h := ByName(roles), ByName(others);
    forall n ensures n in g <==> n in h {
      if n in g { assert g[n] in others; }
      if n in h { assert h[n] in roles; }
    }
    forall n | n in g && n in h ensures g[n] == h[n] {
      assert g[n] in others;
    }
  }

  lemma SameRoles(roles: seq<Role>, others: seq<Role>)
    requires multiset(roles) == multiset(others)
    ensures forall r :: r in roles <==> r in others
  {
    forall r ensures r in roles <==> r in others { assert r in multiset(roles) <==> r in multiset(others); }
  }

  lemma StillWellFormed(roles: seq<Role>, others: seq<Role>)
    requires multiset(roles) == multiset(others) && WellFormed(roles)
    ensures WellFormed(others) && ByName(others) == ByName(roles)
  {
    SameRoles(roles, others);
    StillDistinct(roles, others);
    SameIndex(roles, others);
    forall i: nat ensures ParentsKnown(others, i) && (i < |others| ==> others[i].name != "") {
      if i < |others| {
        assert others[i] in roles;
        var j :| 0 <= j < |roles| && roles[j] == others[i];
        assert ParentsKnown(roles, j);
      }
    }
  }

  /** In whatever order its roles are declared, a policy is accepted alike and expands
      to the same permissions. */
  lemma DeclarationOrderIsIrrelevant(roles: seq<Role>, others: seq<Role>)
    requires multiset(roles) == multiset(others)
    ensures WellFormed(roles) <==> WellFormed(others)
    ensures WellFormed(roles) ==>
              ByName(roles) == ByName(others) && forall m, n :: Expands(roles, m) && Expands(others, n) ==> m == n
  {
    if WellFormed(roles) { StillWellFormed(roles, others); }
    if WellFormed(others) { StillWellFormed(others, roles); }
    forall m, n | WellFormed(roles) && Expands(roles, m) && Expands(others, n) ensures m == n {
      forall k | k in m && k in n ensures m[k] == n[k] {
        assert forall p :: p in m[k] <==> p in n[k];
      }
    }
  }

  // ------------------------------------------------------------------- grants

  /** A principal's authority: everything (`AllowAll`), or what any of its sets holds. */
  datatype Grants = Grants(sets: seq<set<Permission>>, all: bool)

  const DENY_ALL := Grants([], false)

  /** `NewGrants`: keeps the sets with at least one permission. */
  method NewGrants(sets: seq<Option<set<Permission>>>) returns (g: Grants)
    ensures !g.all && forall s :: s in g.sets <==> s != {} && Some(s) in sets
    ensures (forall s :: Some(s) in sets ==> s == {}) ==> g == DENY_ALL
  {
    var kept := [];
    var i := 0;
    while i < |sets|
      invariant 0 <= i <= |sets|
      invariant forall s :: s in kept <==> s != {} && Some(s) in sets[..i]
    {
      assert sets[..i + 1] == sets[..i] + [sets[i]];
      if sets[i].Some? && sets[i].value != {} {
        kept := kept + [sets[i].value];
      }
      i := i + 1;
    }
    assert sets[..i] == sets;
    g := Grants(kept, false);
    assert kept != [] ==> kept[0] in kept;
  }

  /** `Grants.Has`: everything under `AllowAll`, else any set may hold the permission. */
  method Has(g: Grants, p: Permission) returns (has: bool)
    ensures has <==> g.all || (p != "" && exists s :: s in g.sets && p in s)
  {
    has := g.all;
    var i := 0;
    while i < |g.sets| && !has
      invariant 0 <= i <= |g.sets|
      invariant has ==> g.all || (p != "" && exists s :: s in g.sets && p in s)
      invariant !has ==> !g.all && (p == "" || forall j :: 0 <= j < i ==> p !in g.sets[j])
    {
      has := p != "" && p in g.sets[i];
      i := i + 1;
    }
  }

  /** The sets of the assigned roles, nil for names the policy does not define. */
  function SetsOf(expanded: Memo, names: seq<string>): seq<Option<set<Permission>>> {
    seq(|names|, i requires 0 <= i < |names| => if names[i] in expanded then Some(expanded[names[i]]) else None)
  }

  /** Grants over the expanded sets of the assigned roles allow exactly what some
      assigned role reaches. */
  method RolesAllow(roles: seq<Role>, names: seq<string>, p: Permission) returns (r: Result<bool>)
    ensures r.Ok? <==> WellFormed(roles)
    ensures r.Ok? ==> (r.value <==> exists n :: n in names && n in ByName(roles) && Effective(ByName(roles), n, p))
  {
    var x := ExpandInheritance(roles);
    if x.Err? {
      return Err(x.error);
    }
    var sets := SetsOf(x.value, names);
    var g := NewGrants(sets);
    var has := Has(g, p);
    if has {
      var s :| s in g.sets && p in s;
      var i :| 0 <= i < |sets| && sets[i] == Some(s);
      assert names[i] in names && Effective(ByName(roles), names[i], p);
    }
    forall n | n in names && n in ByName(roles) && Effective(ByName(roles), n, p) ensures has {
      var i :| 0 <= i < |names| && names[i] == n;
      assert sets[i] == Some(x.value[n]) && p in x.value[n];
      assert x.value[n] in g.sets;
    }
    r := Ok(has);
  }
}
