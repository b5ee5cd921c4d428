/** Role inheritance: validating that it is well formed, and expanding it. */
module Roles {
  import opened Prelude
  import opened Ordering

  type Permission = string

  datatype Role = Role(name: string, permissions: seq<Permission>, inherits: seq<string>)

  type Policy = map<string, Role>

  // ------------------------------------------------------------- reachability

  ghost predicate Edge(g: Policy, a: string, b: string) {
    a in g && b in g[a].inherits
  }

  ghost predicate Link(g: Policy, path: seq<string>, i: int) {
    0 <= i < |path| - 1 ==> Edge(g, path[i], path[i + 1])
  }

  /** A walk along Inherits, named by the roles it passes. */
  ghost predicate Chain(g: Policy, path: seq<string>) {
    forall i: int :: Link(g, path, i)
  }

  lemma ChainExtends(g: Policy, path: seq<string>, name: string)
    requires Chain(g, path) && (path != [] ==> Edge(g, path[|path| - 1], name))
    ensures Chain(g, path + [name])
  {
    forall i: int ensures Link(g, path + [name], i) { assert Link(g, path, i); }
  }

  lemma ChainPart(g: Policy, path: seq<string>, i: nat, j: nat)
    requires Chain(g, path) && i <= j <= |path|
    ensures Chain(g, path[i..j])
  {
    forall k: int ensures Link(g, path[i..j], k) { assert Link(g, path, i + k); }
  }

  /** Zero or more Inherits steps lead from `a` to `b`. */
  ghost predicate Reaches(g: Policy, a: string, b: string) {
    exists path :: Walks(g, path, a, b)
  }

  ghost predicate Walks(g: Policy, path: seq<string>, a: string, b: string) {
    path != [] && path[0] == a && path[|path| - 1] == b && Chain(g, path)
  }

  /** A walk of at least one step that ends where it started. */
  ghost predicate Cycle(g: Policy, path: seq<string>) {
    2 <= |path| && path[0] == path[|path| - 1] && Chain(g, path)
  }

  ghost predicate Acyclic(g: Policy) {
    !exists path :: Cycle(g, path)
  }

  ghost predicate KnowsParents(g: Policy, n: string) {
    n in g ==> forall p :: p in g[n].inherits ==> p in g
  }

  ghost predicate ParentsDefined(g: Policy) {
    forall n: string :: KnowsParents(g, n)
  }

  ghost predicate RanksAbove(g: Policy, rank: map<string, nat>, n: string) {
    n in rank && n in g ==> forall p :: p in g[n].inherits ==> p in rank && rank[p] < rank[n]
  }

  /** Every ranked role ranks above its parents, which are ranked too. */
  ghost predicate Ranked(g: Policy, rank: map<string, nat>) {
    forall n: string :: RanksAbove(g, rank, n)
  }

  lemma {:induction false} RanksFall(g: Policy, rank: map<string, nat>, path: seq<string>, i: nat)
    requires Ranked(g, rank) && Chain(g, path) && 0 < i < |path| && path[0] in rank
    ensures path[i] in rank && rank[path[i]] < rank[path[0]]
    decreases i
  {
    assert Link(g, path, i - 1) && RanksAbove(g, rank, path[i - 1]);
    if i > 1 { RanksFall(g, rank, path, i - 1); }
  }

  lemma RankedIsAcyclic(g: Policy, rank: map<string, nat>)
    requires Ranked(g, rank) && g.Keys <= rank.Keys
    ensures Acyclic(g)
  {
    forall path | Cycle(g, path) ensures false {
      assert Link(g, path, 0);
      RanksFall(g, rank, path, |path| - 1);
    }
  }

  // ---------------------------------------------------------- cycle detection

  datatype Mark = Visiting | Visited

  type Marks = map<string, Mark>

  /** Visited roles are closed under Inherits, and ranked as they finished. */
  ghost predicate Sound(g: Policy, state: Marks, rank: map<string, nat>) {
    && state.Keys <= g.Keys
    && (forall n :: n in rank <==> n in state && state[n].Visited?)
    && (forall n :: n in rank ==> rank[n] < |rank|)
    && Ranked(g, rank)
  }

  /** The roles being visited are those on the path walked so far. */
  ghost predicate OnPath(g: Policy, state: Marks, path: seq<string>) {
    Chain(g, path) && forall n :: n in path <==> n in state && state[n].Visiting?
  }

  /** `name` may be walked next after `path`. */
  ghost predicate Extends(g: Policy, path: seq<string>, name: string) {
    name in g && (path != [] ==> Edge(g, path[|path| - 1], name))
  }

  lemma EnterPath(g: Policy, state: Marks, path: seq<string>, name: string)
    requires OnPath(g, state, path) && Extends(g, path, name) && name !in state
    ensures OnPath(g, state[name := Visiting], path + [name]) && name !in path
  {
    var here := path + [name];
    ChainExtends(g, path, name);
    assert forall n :: n in here <==> n in path || n == name;
  }

  lemma EnterLeavesFewer(g: Policy, state: Marks, name: string)
    requires name in g && name !in state
    ensures |g.Keys - state[name := Visiting].Keys| < |g.Keys - state.Keys|
  {
    var fewer := g.Keys - state[name := Visiting].Keys;
    assert name in g.Keys - state.Keys && name !in fewer;
    Smaller(fewer, g.Keys - state.Keys);
  }

  lemma LeavePath(g: Policy, state: Marks, path: seq<string>, name: string)
    requires OnPath(g, state, path + [name]) && name !in path
    ensures OnPath(g, state[name := Visited], path)
  {
    var here := path + [name];
    ChainPart(g, here, 0, |path|);
    assert here[0..|path|] == path;
    assert forall n :: n in here <==> n in path || n == name;
  }

  lemma LeaveSound(g: Policy, state: Marks, rank: map<string, nat>, name: string)
    requires Sound(g, state, rank) && name in g && name !in rank
    requires forall p :: p in g[name].inherits ==> p in rank
    ensures Sound(g, state[name := Visited], rank[name := |rank|])
  {
    var rank' := rank[name := |rank|];
    assert rank'.Keys == rank.Keys + {name};
    forall n: string ensures RanksAbove(g, rank', n) { assert RanksAbove(g, rank, n); }
  }

  /** `path` is a walk whose last role it passed before. */
  ghost predicate EndsInCycle(g: Policy, path: seq<string>) {
    2 <= |path| && Chain(g, path) && path[|path| - 1] in path[..|path| - 1]
  }

  /** What such a walk reports is a genuine cycle. */
  lemma CycleWithin(g: Policy, path: seq<string>) returns (i: nat)
    requires EndsInCycle(g, path)
    ensures i < |path| - 1 && Cycle(g, path[i..])
  {
    i :| 0 <= i < |path| - 1 && path[i] == path[|path| - 1];
    ChainPart(g, path, i, |path|);
    assert path[i..|path|] == path[i..];
  }

  // ------------------------------------------- reference: search without marks

  function Elems(path: seq<string>): set<string> { set n | n in path }

  lemma ElemsGrow(path: seq<string>, name: string)
    ensures Elems(path + [name]) == Elems(path) + {name}
  {
    assert forall n :: n in path + [name] <==> n in path || n == name;
  }

  /** Following every chain upwards from `name`, parents in the order they are listed,
      without remembering anything: the first chain to meet itself. */
  function Search(g: Policy, name: string, path: seq<string>): Option<seq<string>>
    decreases g.Keys - Elems(path), 0
  {
    if name in path then Some(path + [name])
    else if name !in g then None
    else
      ElemsGrow(path, name);
      assert name in g.Keys - Elems(path);
      SearchAny(g, g[name].inherits, path + [name])
  }

  function SearchAny(g: Policy, names: seq<string>, path: seq<string>): Option<seq<string>>
    decreases g.Keys - Elems(path), 1 + |names|
  {
    if names == [] then None
    else
      var first := Search(g, names[0], path);
      if first.Some? then first else SearchAny(g, names[1..], path)
  }

  lemma SearchEnters(g: Policy, name: string, path: seq<string>)
    requires name !in path && name in g
    ensures Search(g, name, path) == SearchAny(g, g[name].inherits, path + [name])
  {
  }

  /** Above or outside everything `name` can reach. */
  ghost predicate Clear(rank: map<string, nat>, name: string, path: seq<string>) {
    forall n :: n in path ==> n !in rank || (name in rank && rank[name] < rank[n])
  }

  /** From a finished role no chain meets itself or the path that led there, so skipping
      it loses nothing. */
  lemma {:induction false} FinishedIsClear(g: Policy, rank: map<string, nat>, name: string, path: seq<string>)
    requires Ranked(g, rank) && name in rank && Clear(rank, name, path)
    ensures Search(g, name, path).None?
    decreases rank[name], 1, 0
  {
    if name in g {
      assert RanksAbove(g, rank, name);
      FinishedAreClear(g, rank, name, g[name].inherits, path + [name]);
    }
  }

  lemma {:induction false} FinishedAreClear(g: Policy, rank: map<string, nat>, above: string, names: seq<string>, path: seq<string>)
    requires Ranked(g, rank) && above in rank
    requires forall n :: n in path ==> n !in rank || rank[above] <= rank[n]
    requires forall n :: n in names ==> n in rank && rank[n] < rank[above]
    ensures SearchAny(g, names, path).None?
    decreases rank[above], 0, |names|
  {
    if names != [] {
      FinishedIsClear(g, rank, names[0], path);
      FinishedAreClear(g, rank, above, names[1..], path);
    }
  }

  /** Where the first `i` of the names lead nowhere, the search is that of the rest. */
  lemma {:induction false} SearchSkips(g: Policy, names: seq<string>, i: nat, path: seq<string>)
    requires i < |names|
    ensures SearchAny(g, names[i..], path) ==
              if Search(g, names[i], path).Some? then Search(g, names[i], path) else SearchAny(g, names[i + 1..], path)
  {
    assert names[i..][0] == names[i] && names[i..][1..] == names[i + 1..];
  }

  /** A role met again answers as the search would: a cycle if it is being visited,
      nothing if it is finished. */
  lemma MarkedAnswers(g: Policy, state: Marks, rank: map<string, nat>, path: seq<string>, name: string)
    requires Sound(g, state, rank) && OnPath(g, state, path) && Extends(g, path, name) && name in state
    ensures Search(g, name, path) == if state[name].Visiting? then Some(path + [name]) else None
    ensures state[name].Visiting? ==> EndsInCycle(g, path + [name])
  {
    if state[name].Visiting? {
      ChainExtends(g, path, name);
      assert (path + [name])[..|path|] == path;
    } else {
      FinishedIsClear(g, rank, name, path);
    }
  }

  /** The walk of `detectCycles`, over the marks its closure shares. */
  class CycleWalker {
    const g: Policy
    var state: Marks
    ghost var rank: map<string, nat>

    ghost predicate Valid()
      reads this
    {
      ParentsDefined(g) && Sound(g, state, rank)
    }

    constructor (g: Policy)
      requires ParentsDefined(g)
      ensures Valid() && this.g == g && state == map[] && rank == map[]
    {
      this.g := g;
      state, rank := map[], map[];
    }

    /** Walks up from `name`, reached along `path`: either it finds a walk that ends in
        a cycle, or `name` is finished and the path is as it was. */
    method Walk(name: string, path: seq<string>) returns (err: Option<seq<string>>)
      requires Valid() && OnPath(g, state, path) && Extends(g, path, name)
      modifies this
      ensures err.None? ==> Valid() && OnPath(g, state, path) && name in rank && old(rank.Keys) <= rank.Keys
      ensures err.Some? ==> EndsInCycle(g, err.value)
      ensures err == Search(g, name, path)
      ensures old(state.Keys) <= state.Keys
      decreases |g.Keys - state.Keys|, 1
    {
      if name in state {
        MarkedAnswers(g, state, rank, path, name);
        err := if state[name].Visiting? then Some(path + [name]) else None;
        return;
      }
      err := Visit(name, path);
    }

    /** The first visit of a role. */
    method Visit(name: string, path: seq<string>) returns (err: Option<seq<string>>)
      requires Valid() && OnPath(g, state, path) && Extends(g, path, name) && name !in state
      modifies this
      ensures err.None? ==> Valid() && OnPath(g, state, path) && name in rank && old(rank.Keys) <= rank.Keys
      ensures err.Some? ==> EndsInCycle(g, err.value)
      ensures err == Search(g, name, path)
      ensures old(state.Keys) <= state.Keys
      decreases |g.Keys - state.Keys|, 0
    {
      EnterPath(g, state, path, name);
      EnterLeavesFewer(g, state, name);
      SearchEnters(g, name, path);
      state := state[name := Visiting];
      err := WalkParents(name, path);
      if err.None? {
        Leave(name, path);
      }
    }

    /** Every parent is finished, so `name` is too, and ranks above them all. */
    method Leave(name: string, path: seq<string>)
      requires Valid() && name in g && name !in path && OnPath(g, state, path + [name])
      requires name !in rank && forall p :: p in g[name].inherits ==> p in rank
      modifies this
      ensures Valid() && OnPath(g, state, path)
      ensures rank.Keys == old(rank.Keys) + {name} && old(state.Keys) <= state.Keys
    {
      LeavePath(g, state, path, name);
      LeaveSound(g, state, rank, name);
      state := state[name := Visited];
      rank := rank[name := |rank|];
    }

    method WalkParents(name: string, path: seq<string>) returns (err: Option<seq<string>>)
      requires Valid() && name in g && name !in path && OnPath(g, state, path + [name])
      modifies this
      ensures err.None? ==> Valid() && OnPath(g, state, path + [name]) && old(rank.Keys) <= rank.Keys
      ensures err.None? ==> name !in rank && forall p :: p in g[name].inherits ==> p in rank
      ensures err.Some? ==> EndsInCycle(g, err.value)
      ensures err == SearchAny(g, g[name].inherits, path + [name])
      ensures old(state.Keys) <= state.Keys
      decreases |g.Keys - state.Keys|, 2
    {
      var parents := g[name].inherits;
      err := None;
      var i := 0;
      assert parents[0..] == parents;
      while i < |parents|
        invariant 0 <= i <= |parents|
        invariant Valid() && OnPath(g, state, path + [name]) && old(rank.Keys) <= rank.Keys
        invariant old(state.Keys) <= state.Keys && err.None?
        invariant forall j :: 0 <= j < i ==> parents[j] in rank
        invariant SearchAny(g, parents, path + [name]) == SearchAny(g, parents[i..], path + [name])
      {
        SearchSkips(g, parents, i, path + [name]);
        SubsetSize(g.Keys - state.Keys, old(g.Keys - state.Keys));
        assert KnowsParents(g, name) && Edge(g, name, parents[i]);
        err := Walk(parents[i], path + [name]);
        if err.Some? {
          return;
        }
        i := i + 1;
      }
    }

    method WalkAll(names: seq<string>) returns (err: Option<seq<string>>)
      requires Valid() && OnPath(g, state, []) && forall i :: 0 <= i < |names| ==> names[i] in g
      modifies this
      ensures err.None? ==> Valid() && OnPath(g, state, []) && forall j :: 0 <= j < |names| ==> names[j] in rank
      ensures err.Some? ==> EndsInCycle(g, err.value)
      ensures err == SearchAny(g, names, [])
    {
      err := None;
      var i := 0;
      assert names[0..] == names;
      while i < |names|
        invariant 0 <= i <= |names| && err.None?
        invariant Valid() && OnPath(g, state, [])
        invariant forall j :: 0 <= j < i ==> names[j] in rank
        invariant SearchAny(g, names, []) == SearchAny(g, names[i..], [])
      {
        SearchSkips(g, names, i, []);
        err := Walk(names[i], []);
        if err.Some? {
          return;
        }
        i := i + 1;
      }
    }
  }

  method SortedNames(g: Policy) returns (names: seq<string>)
    ensures Sorts(LexLess, g.Keys, names)
  {
    LexTotal();
    names := SortKeys(LexLess, g.Keys);
  }

  /** What an unmarked search from every role, in order of name, reports. */
  ghost predicate FirstCycle(g: Policy, err: Option<seq<string>>) {
    exists names :: Sorts(LexLess, g.Keys, names) && err == SearchAny(g, names, [])
  }

  /** A policy with several cycles reports the same one on every run. */
  lemma SameCycleEveryRun(g: Policy, first: Option<seq<string>>, again: Option<seq<string>>)
    requires FirstCycle(g, first) && FirstCycle(g, again)
    ensures first == again
  {
    LexTotal();
    var p :| Sorts(LexLess, g.Keys, p) && first == SearchAny(g, p, []);
    var q :| Sorts(LexLess, g.Keys, q) && again == SearchAny(g, q, []);
    SortedIsUnique(LexLess, g.Keys, p, q);
  }

  /** `detectCycles`: nil exactly when the policy has no inheritance cycle, and otherwise
      the very chain that searching without marks finds first. */
  method DetectCycles(g: Policy) returns (err: Option<seq<string>>)
    requires ParentsDefined(g)
    ensures err.None? <==> Acyclic(g)
    ensures err.Some? ==> EndsInCycle(g, err.value)
    ensures FirstCycle(g, err)
  {
    var w := new CycleWalker(g);
    var names := SortedNames(g);
    err := w.WalkAll(names);
    if err.Some? {
      var c := CycleWithin(g, err.value);
    } else {
      RankedIsAcyclic(g, w.rank);
    }
  }

  // ------------------------------------------------------- order on role names

  predicate LexLess(a: string, b: string)
    decreases |a|
  {
    b != [] && (a == [] || a[0] < b[0] || (a[0] == b[0] && LexLess(a[1..], b[1..])))
  }

  lemma {:induction false} LexTrichotomy(a: string, b: string)
    ensures !LexLess(a, a) && (a == b || LexLess(a, b) || LexLess(b, a))
    decreases |a|
  {
    if a != [] && b != [] {
      LexTrichotomy(a[1..], b[1..]);
      if a[0] == b[0] && a[1..] == b[1..] { assert a == [a[0]] + a[1..] == b; }
    } else if a != [] {
      LexTrichotomy(a[1..], a[1..]);
    }
  }

  lemma {:induction false} LexTransitive(a: string, b: string, c: string)
    requires LexLess(a, b) && LexLess(b, c)
    ensures LexLess(a, c)
    decreases |a|
  {
    if a != [] && a[0] == b[0] && b[0] == c[0] {
      LexTransitive(a[1..], b[1..], c[1..]);
    }
  }

  lemma LexTotal()
    ensures StrictTotal(LexLess)
  {
    forall a, b ensures !LexLess(a, a) && (a == b || LexLess(a, b) || LexLess(b, a)) { LexTrichotomy(a, b); }
    forall a, b, c | LexLess(a, b) && LexLess(b, c) ensures LexLess(a, c) { LexTransitive(a, b, c); }
  }

  lemma Smaller(a: set<string>, b: set<string>)
    requires a < b
    ensures |a| < |b|
  {
    var x :| x in b && x !in a;
    assert b == (b - {x}) + {x} && a <= b - {x};
    SubsetSize(a, b - {x});
  }
}
