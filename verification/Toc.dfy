// The table of contents of the schema documentation: a tree over types that may reference
// each other in any way, cycles included.
module Toc {
  /** Types are numbered. `types` are the registered ones in the order they are gone
      through; `refs` says what a type references, in the order that is gone through. */
  datatype Graph = Graph(types: seq<nat>, tops: set<nat>, refs: map<nat, seq<nat>>)

  datatype Tree = Node(root: nat, children: seq<Tree>)

  predicate Distinct(s: seq<nat>) {
    forall i, j :: 0 <= i < j < |s| ==> s[i] != s[j]
  }

  /** The sequences stand for sets. */
  predicate IsGraph(g: Graph) {
    Distinct(g.types) && forall k :: k in g.refs ==> Distinct(g.refs[k])
  }

  function Referrers(g: Graph, t: nat): set<nat> {
    set k | k in g.refs && t in g.refs[k]
  }

  /** `p` alone references `t`. */
  predicate OnlyParent(g: Graph, p: nat, t: nat) {
    t in g.types && Referrers(g, t) == {p}
  }

  function Filter(s: seq<nat>, f: nat -> bool): (r: seq<nat>)
    ensures forall x :: x in r <==> x in s && f(x)
    ensures Distinct(s) ==> Distinct(r)
  {
    if s == [] then []
    else
      var rest := Filter(s[1..], f);
      assert s == [s[0]] + s[1..];
      if f(s[0]) then [s[0]] + rest else rest
  }

  /** The types nested below `p`. */
  function ChildrenOf(g: Graph, p: nat): (r: seq<nat>)
    ensures forall c :: c in r <==> OnlyParent(g, p, c)
    ensures IsGraph(g) ==> Distinct(r)
  {
    assert forall c :: OnlyParent(g, p, c) ==> p in Referrers(g, c);
    if p in g.refs then Filter(g.refs[p], (c: nat) => OnlyParent(g, p, c)) else []
  }

  // ---- What building a tree gives. The log lists the types expanded so far.

  function Remaining(g: Graph, log: seq<nat>): set<nat> {
    (set t | t in g.types) - (set t | t in log)
  }

  lemma SubsetSize(a: set<nat>, b: set<nat>)
    requires a <= b
    ensures |a| <= |b| && (a != b ==> |a| < |b|)
  {
    assert b == a + (b - a);
    if a != b {
      assert b - a != {};
    }
  }

  lemma RemainingShrinks(g: Graph, log: seq<nat>, log': seq<nat>)
    requires log <= log'
    ensures |Remaining(g, log')| <= |Remaining(g, log)|
    ensures (exists t :: t in log' && t in g.types && t !in log) ==> |Remaining(g, log')| < |Remaining(g, log)|
  {
    forall t | t in log
      ensures t in log'
    {
    }
    SubsetSize(Remaining(g, log'), Remaining(g, log));
    if t :| t in log' && t in g.types && t !in log {
      assert t in Remaining(g, log) && t !in Remaining(g, log');
    }
  }

  function Expand(g: Graph, t: nat, log: seq<nat>): (r: (Tree, seq<nat>))
    requires t in g.types
    ensures log <= r.1 && t in r.1
    decreases |Remaining(g, log)|, 0
  {
    if t in log then (Node(t, []), log)
    else
      RemainingShrinks(g, log, log + [t]);
      assert t in log + [t];
      var (children, log') := ExpandAll(g, ChildrenOf(g, t), log + [t]);
      assert log'[|log|] == t;
      (Node(t, children), log')
  }

  function ExpandAll(g: Graph, kids: seq<nat>, log: seq<nat>): (r: (seq<Tree>, seq<nat>))
    requires forall k <- kids :: k in g.types
    ensures log <= r.1
    decreases |Remaining(g, log)|, |kids| + 1
  {
    if kids == [] then ([], log)
    else
      var (first, log1) := Expand(g, kids[0], log);
      RemainingShrinks(g, log, log1);
      var (rest, log2) := ExpandAll(g, kids[1..], log1);
      ([first] + rest, log2)
  }

  /** Each candidate not yet expanded becomes a root. */
  function Roots(g: Graph, candidates: seq<nat>, log: seq<nat>): (r: (seq<Tree>, seq<nat>))
    requires forall t <- candidates :: t in g.types
    ensures log <= r.1
    decreases |candidates|
  {
    if candidates == [] then ([], log)
    else if candidates[0] in log then Roots(g, candidates[1..], log)
    else
      var (first, log1) := Expand(g, candidates[0], log);
      var (rest, log2) := Roots(g, candidates[1..], log1);
      ([first] + rest, log2)
  }

  /** The three loops, by what they let through: types marked as top, types that do not
      have exactly one referrer, and whatever is left. */
  datatype Phase = MarkedTop | NotOwned | Leftover

  predicate Wanted(g: Graph, phase: Phase, t: nat) {
    match phase
    case MarkedTop => t in g.tops
    case NotOwned => |Referrers(g, t)| != 1
    case Leftover => true
  }

  function Candidates(g: Graph, phase: Phase, types: seq<nat>): (r: seq<nat>)
    ensures forall t :: t in r <==> t in types && Wanted(g, phase, t)
  {
    if types == [] then []
    else
      var rest := Candidates(g, phase, types[1..]);
      assert types == [types[0]] + types[1..];
      if Wanted(g, phase, types[0]) then [types[0]] + rest else rest
  }

  function PhaseRoots(g: Graph, phase: Phase, log: seq<nat>): (r: (seq<Tree>, seq<nat>))
    ensures log <= r.1
  {
    Roots(g, Candidates(g, phase, g.types), log)
  }

  function Organized(g: Graph): (r: (seq<Tree>, seq<nat>)) {
    var (first, log1) := PhaseRoots(g, MarkedTop, []);
    var (second, log2) := PhaseRoots(g, NotOwned, log1);
    var (third, log3) := PhaseRoots(g, Leftover, log2);
    (first + second + third, log3)
  }

  lemma ExpandNone(g: Graph, log: seq<nat>)
    ensures ExpandAll(g, [], log) == ([], log)
  {
  }

  lemma ExpandAllStep(g: Graph, kids: seq<nat>, i: nat, log: seq<nat>)
    requires i < |kids| && forall t <- kids :: t in g.types
    ensures forall t <- kids[i..] :: t in g.types
    ensures var (first, log1) := Expand(g, kids[i], log);
      ExpandAll(g, kids[i..], log) == ([first] + ExpandAll(g, kids[i + 1..], log1).0, ExpandAll(g, kids[i + 1..], log1).1)
  {
    assert kids[i..][1..] == kids[i + 1..];
  }

  /** What the rest of a loop adds, from type `i` on. */
  function RootsFrom(g: Graph, phase: Phase, i: nat, log: seq<nat>): (r: (seq<Tree>, seq<nat>))
    requires i <= |g.types|
  {
    Roots(g, Candidates(g, phase, g.types[i..]), log)
  }

  lemma PhaseStep(g: Graph, phase: Phase, i: nat, log: seq<nat>)
    requires i < |g.types|
    ensures var t := g.types[i];
      RootsFrom(g, phase, i, log)
      == if !Wanted(g, phase, t) || t in log then RootsFrom(g, phase, i + 1, log)
         else
           var (first, log1) := Expand(g, t, log);
           ([first] + RootsFrom(g, phase, i + 1, log1).0, RootsFrom(g, phase, i + 1, log1).1)
  {
    hide Expand, Wanted;
    assert g.types[i..][1..] == g.types[i + 1..];
    var rest := Candidates(g, phase, g.types[i + 1..]);
    assert ([g.types[i]] + rest)[1..] == rest;
  }

  lemma PhaseEnds(g: Graph, phase: Phase, log: seq<nat>)
    ensures RootsFrom(g, phase, 0, log) == PhaseRoots(g, phase, log)
    ensures RootsFrom(g, phase, |g.types|, log) == ([], log)
  {
    hide Expand, Wanted;
    assert g.types[0..] == g.types;
  }

  lemma Regroup(a: seq<Tree>, x: Tree, b: seq<Tree>)
    ensures a + ([x] + b) == (a + [x]) + b
  {
  }

  // ---- The builder.

  class Organizer {
    const g: Graph
    var processed: set<nat>
    ghost var log: seq<nat>

    constructor (g: Graph)
      ensures Valid() && log == [] && this.g == g
    {
      this.g := g;
      processed := {};
      log := [];
    }

    ghost predicate Valid()
      reads this
    {
      processed == set t | t in log
    }

    method BuildSubtree(t: nat) returns (tree: Tree)
      requires Valid() && t in g.types
      modifies this
      ensures Valid() && (tree, log) == Expand(g, t, old(log))
      decreases |Remaining(g, log)|, 0
    {
      if t in processed {
        return Node(t, []);
      }
      RemainingShrinks(g, log, log + [t]);
      assert t in log + [t];
      processed := processed + {t};
      log := log + [t];
      var children := BuildChildren(ChildrenOf(g, t));
      return Node(t, children);
    }

    method BuildChildren(kids: seq<nat>) returns (children: seq<Tree>)
      requires Valid() && forall t <- kids :: t in g.types
      modifies this
      ensures Valid() && (children, log) == ExpandAll(g, kids, old(log))
      decreases |Remaining(g, log)|, |kids| + 1
    {
      hide Expand, ExpandAll, Remaining;
      children := [];
      var i := 0;
      ghost var whole := ExpandAll(g, kids, log);
      assert kids[0..] == kids;
      while i < |kids|
        invariant 0 <= i <= |kids|
        invariant Valid() && old(log) <= log
        invariant whole.0 == children + ExpandAll(g, kids[i..], log).0
        invariant whole.1 == ExpandAll(g, kids[i..], log).1
      {
        ExpandAllStep(g, kids, i, log);
        RemainingShrinks(g, old(log), log);
        var subtree := BuildSubtree(kids[i]);
        children := children + [subtree];
        i := i + 1;
      }
      ExpandNone(g, log);
      assert kids[i..] == [];
      assert whole.0 == children;
    }

    /** One of the three loops: every type it lets through that is not processed yet becomes
        a root. */
    method AddRoots(phase: Phase, hierarchy: seq<Tree>) returns (r: seq<Tree>)
      requires Valid()
      modifies this
      ensures Valid()
      ensures var (trees, log') := PhaseRoots(g, phase, old(log)); r == hierarchy + trees && log == log'
    {
      hide Expand, RootsFrom, PhaseRoots, Wanted;
      r := hierarchy;
      var i := 0;
      ghost var whole := PhaseRoots(g, phase, log);
      ghost var added: seq<Tree> := [];
      PhaseEnds(g, phase, log);
      while i < |g.types|
        invariant 0 <= i <= |g.types| && Valid()
        invariant r == hierarchy + added
        invariant whole.0 == added + RootsFrom(g, phase, i, log).0
        invariant whole.1 == RootsFrom(g, phase, i, log).1
      {
        PhaseStep(g, phase, i, log);
        var t := g.types[i];
        if t !in processed && Wanted(g, phase, t) {
          var subtree := BuildSubtree(t);
          Regroup(added, subtree, RootsFrom(g, phase, i + 1, log).0);
          r := r + [subtree];
          added := added + [subtree];
        }
        i := i + 1;
      }
      PhaseEnds(g, phase, log);
    }

    method OrganizeToc() returns (hierarchy: seq<Tree>)
      requires Valid() && log == []
      modifies this
      ensures Valid() && (hierarchy, log) == Organized(g)
    {
      hide PhaseRoots;
      hierarchy := AddRoots(MarkedTop, []);
      assert hierarchy == PhaseRoots(g, MarkedTop, []).0;
      hierarchy := AddRoots(NotOwned, hierarchy);
      hierarchy := AddRoots(Leftover, hierarchy);
    }
  }

  // ---- Counting how often a type is listed.

  function Listings(tree: Tree, x: nat): nat {
    (if tree.root == x then 1 else 0) + ListingsAll(tree.children, x)
  }

  function ListingsAll(trees: seq<Tree>, x: nat): nat {
    if trees == [] then 0 else Listings(trees[0], x) + ListingsAll(trees[1..], x)
  }

  function Count(b: bool): nat {
    if b then 1 else 0
  }

  /** Some type in the list is the only one to reference `x`. */
  predicate HasParentIn(g: Graph, s: seq<nat>, x: nat) {
    exists p <- s :: OnlyParent(g, p, x)
  }

  predicate Nested(g: Graph, x: nat) {
    HasParentIn(g, g.types, x)
  }

  lemma DistinctParts(a: seq<nat>, b: seq<nat>, p: nat)
    requires Distinct(a + b) && p in a
    ensures p !in b
  {
    var i :| 0 <= i < |a| && a[i] == p;
    forall j | 0 <= j < |b|
      ensures b[j] != p
    {
      assert (a + b)[i] == p && (a + b)[|a| + j] == b[j];
    }
  }

  lemma SameParent(g: Graph, p: nat, q: nat, x: nat)
    requires OnlyParent(g, p, x) && OnlyParent(g, q, x)
    ensures p == q
  {
    assert p in Referrers(g, x);
  }

  lemma OneParent(g: Graph, a: seq<nat>, b: seq<nat>, x: nat)
    requires Distinct(a + b)
    ensures Count(HasParentIn(g, a + b, x)) == Count(HasParentIn(g, a, x)) + Count(HasParentIn(g, b, x))
  {
    hide OnlyParent;
    if p :| p in a && OnlyParent(g, p, x) {
      assert p in a + b;
      DistinctParts(a, b, p);
      forall q | q in b && OnlyParent(g, q, x)
        ensures q == p
      {
        SameParent(g, p, q, x);
      }
    } else if q :| q in b && OnlyParent(g, q, x) {
      assert q in a + b;
    }
  }

  /** What an expansion adds to the log. */
  function New(log: seq<nat>, log': seq<nat>): seq<nat>
    requires log <= log'
  {
    log'[|log|..]
  }

  ghost predicate LogOk(g: Graph, log: seq<nat>) {
    Distinct(log) && forall t <- log :: t in g.types
  }

  lemma NewChains(log: seq<nat>, log1: seq<nat>, log2: seq<nat>)
    requires log <= log1 <= log2
    ensures New(log, log2) == New(log, log1) + New(log1, log2)
  {
  }

  lemma NewDistinct(log: seq<nat>, log': seq<nat>)
    requires log <= log' && Distinct(log')
    ensures Distinct(New(log, log'))
  {
  }

  lemma ParentInOne(g: Graph, p: nat, x: nat)
    ensures HasParentIn(g, [p], x) <==> OnlyParent(g, p, x)
    ensures !HasParentIn(g, [], x)
  {
    assert p in [p];
  }

  /** A new type is listed where it is started and below its only referrer, if that one is
      expanded as well. */
  lemma {:induction false} ExpandCounts(g: Graph, t: nat, log: seq<nat>, x: nat)
    requires IsGraph(g) && LogOk(g, log) && t in g.types
    ensures var (tree, log') := Expand(g, t, log);
      && LogOk(g, log')
      && Listings(tree, x) == Count(x == t) + Count(HasParentIn(g, New(log, log'), x))
    decreases |Remaining(g, log)|, 0
  {
    assert forall c <- ChildrenOf(g, t) :: c in g.types;
    hide HasParentIn, OnlyParent, Remaining, ExpandAll;
    ParentInOne(g, t, x);
    if t in log {
      assert New(log, log) == [];
      assert ListingsAll([], x) == 0;
    } else {
      var kids := ChildrenOf(g, t);
      RemainingShrinks(g, log, log + [t]);
      assert t in log + [t];
      ExpandAllCounts(g, kids, log + [t], x);
      var (children, log') := ExpandAll(g, kids, log + [t]);
      NewChains(log, log + [t], log');
      NewDistinct(log, log');
      assert New(log, log + [t]) == [t];
      OneParent(g, [t], New(log + [t], log'), x);
    }
  }

  lemma {:induction false} ExpandAllCounts(g: Graph, kids: seq<nat>, log: seq<nat>, x: nat)
    requires IsGraph(g) && LogOk(g, log) && Distinct(kids) && forall t <- kids :: t in g.types
    ensures var (trees, log') := ExpandAll(g, kids, log);
      && LogOk(g, log')
      && ListingsAll(trees, x) == Count(x in kids) + Count(HasParentIn(g, New(log, log'), x))
    decreases |Remaining(g, log)|, |kids| + 1
  {
    hide Expand, HasParentIn, Remaining;
    if kids == [] {
      assert New(log, log) == [];
      ParentInOne(g, 0, x);
    } else {
      var (first, log1) := Expand(g, kids[0], log);
      var (rest, log2) := ExpandAll(g, kids[1..], log1);
      RemainingShrinks(g, log, log1);
      ExpandCounts(g, kids[0], log, x);
      ExpandAllCounts(g, kids[1..], log1, x);
      NewChains(log, log1, log2);
      NewDistinct(log, log2);
      OneParent(g, New(log, log1), New(log1, log2), x);
      assert ([first] + rest)[1..] == rest;
      CountInDistinct(kids, x);
    }
  }

  lemma CountInDistinct(s: seq<nat>, x: nat)
    requires s != [] && Distinct(s)
    ensures Count(x in s) == Count(x == s[0]) + Count(x in s[1..])
  {
    assert s == [s[0]] + s[1..];
    DistinctParts([s[0]], s[1..], s[0]);
  }

  function RootTypes(trees: seq<Tree>): (r: seq<nat>)
    ensures |r| == |trees| && forall i :: 0 <= i < |r| ==> r[i] == trees[i].root
  {
    if trees == [] then [] else [trees[0].root] + RootTypes(trees[1..])
  }

  lemma {:induction false} RootsCount(g: Graph, candidates: seq<nat>, log: seq<nat>, x: nat)
    requires IsGraph(g) && LogOk(g, log) && forall t <- candidates :: t in g.types
    ensures var (trees, log') := Roots(g, candidates, log);
      && LogOk(g, log')
      && ListingsAll(trees, x) == Count(x in RootTypes(trees)) + Count(HasParentIn(g, New(log, log'), x))
      && (x in candidates ==> x in log')
      && (x in RootTypes(trees) ==> x in candidates && x !in log && x in log')
    decreases |candidates|
  {
    if candidates != [] {
      var t := candidates[0];
      assert candidates == [t] + candidates[1..];
      if t in log {
        RootsCount(g, candidates[1..], log, x);
      } else {
        var (first, log1) := Expand(g, t, log);
        var (rest, log2) := Roots(g, candidates[1..], log1);
        ExpandCounts(g, t, log, x);
        RootsCount(g, candidates[1..], log1, x);
        NewChains(log, log1, log2);
        NewDistinct(log, log2);
        OneParent(g, New(log, log1), New(log1, log2), x);
        assert ([first] + rest)[1..] == rest;
        assert first.root == t;
        assert RootTypes([first] + rest) == [t] + RootTypes(rest);
      }
    }
  }

  // ---- The order of the expansions.

  predicate LedBy(g: Graph, log: seq<nat>, start: nat, i: nat)
    requires i < |log|
  {
    exists j :: start <= j < i && OnlyParent(g, log[j], log[i])
  }

  /** From `start` on, a type is expanded as one of `starts` or after its only referrer. */
  predicate Led(g: Graph, log: seq<nat>, start: nat, starts: seq<nat>) {
    forall i :: start <= i < |log| ==> log[i] in starts || LedBy(g, log, start, i)
  }

  /** From `start` on, what is nested below an expanded type is expanded. */
  ghost predicate Closed(g: Graph, log: seq<nat>, start: nat) {
    forall i, c :: start <= i < |log| && OnlyParent(g, log[i], c) ==> c in log
  }

  lemma LedJoins(g: Graph, log1: seq<nat>, log2: seq<nat>, start: nat, a: seq<nat>, b: seq<nat>)
    requires log1 <= log2 && start <= |log1|
    requires Led(g, log1, start, a) && Led(g, log2, |log1|, b)
    ensures Led(g, log2, start, a + b)
  {
    hide OnlyParent;
    forall i | start <= i < |log2|
      ensures log2[i] in a + b || LedBy(g, log2, start, i)
    {
      if i < |log1| {
        assert log1[i] in a || LedBy(g, log1, start, i);
        if log1[i] !in a {
          var j :| start <= j < i && OnlyParent(g, log1[j], log1[i]);
          assert OnlyParent(g, log2[j], log2[i]);
        }
      } else {
        assert log2[i] in b || LedBy(g, log2, |log1|, i);
      }
    }
  }

  lemma ClosedJoins(g: Graph, log1: seq<nat>, log2: seq<nat>, start: nat)
    requires log1 <= log2 && start <= |log1|
    requires Closed(g, log1, start) && Closed(g, log2, |log1|)
    ensures Closed(g, log2, start)
  {
    hide OnlyParent;
    forall i, c | start <= i < |log2| && OnlyParent(g, log2[i], c)
      ensures c in log2
    {
      if i < |log1| {
        assert OnlyParent(g, log1[i], c);
        assert c in log1;
      }
    }
  }

  lemma {:induction false} ExpandShape(g: Graph, t: nat, log: seq<nat>)
    requires t in g.types
    ensures var log' := Expand(g, t, log).1; Led(g, log', |log|, [t]) && Closed(g, log', |log|)
    decreases |Remaining(g, log)|, 0
  {
    assert forall c <- ChildrenOf(g, t) :: c in g.types;
    hide OnlyParent;
    if t !in log {
      RemainingShrinks(g, log, log + [t]);
      assert t in log + [t];
      var kids := ChildrenOf(g, t);
      ExpandAllShape(g, kids, log + [t]);
      var log' := ExpandAll(g, kids, log + [t]).1;
      assert log'[|log|] == t;
      forall i | |log| <= i < |log'|
        ensures log'[i] in [t] || LedBy(g, log', |log|, i)
      {
        if i > |log| {
          assert log'[i] in kids || LedBy(g, log', |log| + 1, i);
          if log'[i] in kids {
            assert OnlyParent(g, log'[|log|], log'[i]);
          }
        }
      }
    }
  }

  lemma {:induction false} ExpandAllShape(g: Graph, kids: seq<nat>, log: seq<nat>)
    requires forall t <- kids :: t in g.types
    ensures var log' := ExpandAll(g, kids, log).1;
      Led(g, log', |log|, kids) && Closed(g, log', |log|) && forall t <- kids :: t in log'
    decreases |Remaining(g, log)|, |kids| + 1
  {
    assert Led(g, log, |log|, []) && Closed(g, log, |log|);
    hide Expand, Led, Closed, Remaining;
    if kids != [] {
      var log1 := Expand(g, kids[0], log).1;
      var log2 := ExpandAll(g, kids[1..], log1).1;
      RemainingShrinks(g, log, log1);
      ExpandShape(g, kids[0], log);
      ExpandAllShape(g, kids[1..], log1);
      LedJoins(g, log1, log2, |log|, [kids[0]], kids[1..]);
      ClosedJoins(g, log1, log2, |log|);
      assert kids == [kids[0]] + kids[1..];
      assert kids[0] in log2;
    }
  }

  lemma {:induction false} RootsShape(g: Graph, candidates: seq<nat>, log: seq<nat>)
    requires forall t <- candidates :: t in g.types
    ensures var (trees, log') := Roots(g, candidates, log);
      Led(g, log', |log|, RootTypes(trees)) && Closed(g, log', |log|)
    decreases |candidates|
  {
    assert Led(g, log, |log|, []) && Closed(g, log, |log|);
    hide Led, Closed;
    if candidates == [] {
    } else if candidates[0] in log {
      RootsShape(g, candidates[1..], log);
    } else {
      var (first, log1) := Expand(g, candidates[0], log);
      var (rest, log2) := Roots(g, candidates[1..], log1);
      ExpandShape(g, candidates[0], log);
      RootsShape(g, candidates[1..], log1);
      LedJoins(g, log1, log2, |log|, [candidates[0]], RootTypes(rest));
      ClosedJoins(g, log1, log2, |log|);
      assert first.root == candidates[0];
      assert ([first] + rest)[1..] == rest;
      assert RootTypes([first] + rest) == [candidates[0]] + RootTypes(rest);
    }
  }

  // ---- The whole table.

  lemma {:induction false} ListingsAppend(a: seq<Tree>, b: seq<Tree>, x: nat)
    ensures ListingsAll(a + b, x) == ListingsAll(a, x) + ListingsAll(b, x)
    ensures RootTypes(a + b) == RootTypes(a) + RootTypes(b)
  {
    if a == [] {
      assert a + b == b;
    } else {
      assert (a + b)[1..] == a[1..] + b;
      ListingsAppend(a[1..], b, x);
    }
  }

  function Table(g: Graph): seq<Tree> {
    Organized(g).0
  }

  function FinalLog(g: Graph): seq<nat> {
    Organized(g).1
  }

  predicate IsRoot(g: Graph, x: nat) {
    x in RootTypes(Table(g))
  }

  lemma OrganizedCounts(g: Graph, x: nat)
    requires IsGraph(g)
    ensures LogOk(g, FinalLog(g))
    ensures ListingsAll(Table(g), x) == Count(IsRoot(g, x)) + Count(HasParentIn(g, FinalLog(g), x))
    ensures x in FinalLog(g) <==> x in g.types
    ensures IsRoot(g, x) ==> x in g.types
  {
    hide Roots, Organized, Offered, HasParentIn, ListingsAll;
    OrganizedIsOneRun(g);
    OfferedAreTypes(g);
    RootsCount(g, Offered(g), [], x);
    assert New([], FinalLog(g)) == FinalLog(g);
  }

  /** Every registered type is expanded exactly once, and nothing else is. */
  lemma EveryTypeExpandedOnce(g: Graph)
    requires IsGraph(g)
    ensures Distinct(FinalLog(g)) && forall x :: x in FinalLog(g) <==> x in g.types
  {
    hide Organized;
    OrganizedCounts(g, 0);
    forall x
      ensures x in FinalLog(g) <==> x in g.types
    {
      OrganizedCounts(g, x);
    }
  }

  lemma OrganizedShape(g: Graph)
    ensures Led(g, FinalLog(g), 0, RootTypes(Table(g)))
  {
    hide Roots, Organized, Offered, Led, Closed;
    OrganizedIsOneRun(g);
    OfferedAreTypes(g);
    RootsShape(g, Offered(g), []);
  }

  // ---- What is nested where.

  /** Wherever a node has children, they are the types it alone references. */
  ghost predicate Shaped(g: Graph, tree: Tree)
    decreases tree
  {
    && (tree.children == [] || (forall c :: c in RootTypes(tree.children) <==> OnlyParent(g, tree.root, c)))
    && (tree.children == [] || Distinct(RootTypes(tree.children)))
    && (forall child <- tree.children :: Shaped(g, child))
  }

  ghost predicate AllShaped(g: Graph, trees: seq<Tree>) {
    forall tree <- trees :: Shaped(g, tree)
  }

  /** The nodes for `x` that have children. */
  function Branchings(tree: Tree, x: nat): nat {
    (if tree.root == x && tree.children != [] then 1 else 0) + BranchingsAll(tree.children, x)
  }

  function BranchingsAll(trees: seq<Tree>, x: nat): nat {
    if trees == [] then 0 else Branchings(trees[0], x) + BranchingsAll(trees[1..], x)
  }

  /** Newly expanded, with something to nest below it. */
  predicate Branches(g: Graph, log: seq<nat>, log': seq<nat>, x: nat) {
    x in log' && x !in log && ChildrenOf(g, x) != []
  }

  lemma {:induction false} ExpandShaped(g: Graph, t: nat, log: seq<nat>, x: nat)
    requires IsGraph(g) && t in g.types
    ensures var (tree, log') := Expand(g, t, log);
      && tree.root == t && Shaped(g, tree)
      && Branchings(tree, x) == Count(Branches(g, log, log', x))
    decreases |Remaining(g, log)|, 0
  {
    hide Remaining, ExpandAll, ChildrenOf;
    var (tree, log') := Expand(g, t, log);
    if t in log {
      assert tree == Node(t, []) && BranchingsAll([], x) == 0;
    } else {
      var kids := ChildrenOf(g, t);
      RemainingShrinks(g, log, log + [t]);
      assert t in log + [t];
      ExpandAllShaped(g, kids, log + [t], x);
      assert RootTypes(tree.children) == kids;
      assert x in log' && x !in log <==> x == t || (x in log' && x !in log + [t]);
    }
  }

  lemma {:induction false} ExpandAllShaped(g: Graph, kids: seq<nat>, log: seq<nat>, x: nat)
    requires IsGraph(g) && forall t <- kids :: t in g.types
    ensures var (trees, log') := ExpandAll(g, kids, log);
      && RootTypes(trees) == kids && AllShaped(g, trees)
      && BranchingsAll(trees, x) == Count(Branches(g, log, log', x))
    decreases |Remaining(g, log)|, |kids| + 1
  {
    hide Expand, Remaining, Shaped, ChildrenOf, Branchings;
    if kids != [] {
      var (first, log1) := Expand(g, kids[0], log);
      var (rest, log2) := ExpandAll(g, kids[1..], log1);
      RemainingShrinks(g, log, log1);
      ExpandShaped(g, kids[0], log, x);
      ExpandAllShaped(g, kids[1..], log1, x);
      assert ([first] + rest)[1..] == rest;
      assert RootTypes([first] + rest) == [kids[0]] + kids[1..] == kids;
    }
  }

  lemma {:induction false} RootsShaped(g: Graph, candidates: seq<nat>, log: seq<nat>, x: nat)
    requires IsGraph(g) && forall t <- candidates :: t in g.types
    ensures var (trees, log') := Roots(g, candidates, log);
      && AllShaped(g, trees)
      && BranchingsAll(trees, x) == Count(Branches(g, log, log', x))
    decreases |candidates|
  {
    hide Expand, Shaped, ChildrenOf, Branchings;
    if candidates != [] {
      var t := candidates[0];
      if t in log {
        RootsShaped(g, candidates[1..], log, x);
      } else {
        var (first, log1) := Expand(g, t, log);
        var (rest, log2) := Roots(g, candidates[1..], log1);
        ExpandShaped(g, t, log, x);
        RootsShaped(g, candidates[1..], log1, x);
        assert ([first] + rest)[1..] == rest;
      }
    }
  }

  /** Nesting follows the references: wherever a type has children in the table, they are
      exactly the registered types it alone references, and every type with such has its children in
      exactly one place. */
  lemma TableFollowsReferences(g: Graph, x: nat)
    requires IsGraph(g)
    ensures AllShaped(g, Table(g))
    ensures BranchingsAll(Table(g), x) == Count(x in g.types && exists c :: OnlyParent(g, x, c))
  {
    hide Roots, Organized, Offered, Shaped, BranchingsAll;
    OrganizedIsOneRun(g);
    OfferedAreTypes(g);
    RootsShaped(g, Offered(g), [], x);
    EveryTypeExpandedOnce(g);
    var kids := ChildrenOf(g, x);
    assert kids != [] ==> kids[0] in kids;
  }

  /** How often a type is listed, exactly: once as a root if it was started as one, and once
      below its only referrer if it has one that is registered; so once or twice, and an
      unregistered type never. */
  lemma ListedOnceOrTwice(g: Graph, x: nat)
    requires IsGraph(g)
    ensures x in g.types ==> ListingsAll(Table(g), x) == Count(IsRoot(g, x)) + Count(Nested(g, x)) >= 1
    ensures x !in g.types ==> ListingsAll(Table(g), x) == 0
  {
    hide Table, FinalLog, OnlyParent, ListingsAll;
    OrganizedCounts(g, x);
    EveryTypeExpandedOnce(g);
    assert HasParentIn(g, FinalLog(g), x) == Nested(g, x);
    if x in g.types {
      OrganizedShape(g);
      var i :| 0 <= i < |FinalLog(g)| && FinalLog(g)[i] == x;
      if !IsRoot(g, x) {
        assert LedBy(g, FinalLog(g), 0, i);
        var j :| 0 <= j < i && OnlyParent(g, FinalLog(g)[j], x);
        assert FinalLog(g)[j] in g.types;
      }
    } else {
      NestedIsRegistered(g, x);
    }
  }

  lemma NestedIsRegistered(g: Graph, x: nat)
    ensures Nested(g, x) ==> x in g.types
  {
  }

  // ---- When every type is listed once.

  ghost predicate AllListedOnce(g: Graph) {
    forall x <- g.types :: ListingsAll(Table(g), x) == 1
  }

  /** The rank falls from a type to the only one that references it. */
  ghost predicate Ranks(g: Graph, rank: map<nat, nat>) {
    && (forall x <- g.types :: x in rank)
    && (forall p, x :: p in g.types && OnlyParent(g, p, x) ==> rank[p] < rank[x])
  }

  /** No chain of only referrers comes back to where it started. */
  ghost predicate Acyclic(g: Graph) {
    exists rank: map<nat, nat> :: Ranks(g, rank)
  }

  ghost predicate NoNestedTop(g: Graph) {
    forall x <- g.types :: x in g.tops ==> !Nested(g, x)
  }

  /** What the generator's own graphs satisfy: only registered types reference anything. */
  predicate ReferrersRegistered(g: Graph) {
    forall k <- g.refs :: k in g.types
  }

  lemma ListedOnceIsAcyclic(g: Graph)
    requires IsGraph(g) && AllListedOnce(g)
    ensures Acyclic(g)
  {
    hide Table, FinalLog, OnlyParent, ListingsAll;
    EveryTypeExpandedOnce(g);
    OrganizedShape(g);
    var log := FinalLog(g);
    var rank := map x | x in g.types :: Place(log, x);
    forall p, x | p in g.types && OnlyParent(g, p, x)
      ensures x in g.types && rank[p] < rank[x]
    {
      ListedOnceOrTwice(g, x);
      assert Nested(g, x);
      NestedIsRegistered(g, x);
      var i := Place(log, x);
      assert LedBy(g, log, 0, i);
      var j :| 0 <= j < i && OnlyParent(g, log[j], x);
      SameParent(g, p, log[j], x);
    }
    assert Ranks(g, rank);
  }

  // ---- Exactly which types become roots.

  /** All types offered as roots, in the order of the three loops. */
  function Offered(g: Graph): (r: seq<nat>)
    ensures forall x :: x in r <==> x in g.types
  {
    Candidates(g, MarkedTop, g.types) + Candidates(g, NotOwned, g.types) + Candidates(g, Leftover, g.types)
  }

  lemma {:induction false} RootsAppend(g: Graph, a: seq<nat>, b: seq<nat>, log: seq<nat>)
    requires (forall t <- a :: t in g.types) && (forall t <- b :: t in g.types)
    ensures forall t <- a + b :: t in g.types
    ensures var (first, log1) := Roots(g, a, log);
      var (second, log2) := Roots(g, b, log1);
      Roots(g, a + b, log) == (first + second, log2)
    decreases |a|
  {
    hide Expand;
    if a == [] {
      assert a + b == b;
      assert [] + Roots(g, b, log).0 == Roots(g, b, log).0;
    } else {
      assert (a + b)[1..] == a[1..] + b;
      RootsAppend(g, a[1..], b, if a[0] in log then log else Expand(g, a[0], log).1);
      if a[0] !in log {
        var (tree, log1) := Expand(g, a[0], log);
        var (first, mid) := Roots(g, a[1..], log1);
        assert [tree] + (first + Roots(g, b, mid).0) == ([tree] + first) + Roots(g, b, mid).0;
      }
    }
  }

  lemma OrganizedIsOneRun(g: Graph)
    ensures Organized(g) == Roots(g, Offered(g), [])
  {
    hide Roots, Candidates;
    var tops, notOwned, all := Candidates(g, MarkedTop, g.types), Candidates(g, NotOwned, g.types), Candidates(g, Leftover, g.types);
    RootsAppend(g, tops, notOwned, []);
    RootsAppend(g, tops + notOwned, all, []);
  }

  /** From the first type down to the last, each is the only one to reference the next. */
  ghost predicate Chain(g: Graph, path: seq<nat>) {
    |path| >= 2 && forall i :: 0 <= i < |path| - 1 ==> OnlyParent(g, path[i], path[i + 1])
  }

  ghost predicate Above(g: Graph, y: nat, x: nat) {
    exists path :: Chain(g, path) && path[0] == y && path[|path| - 1] == x
  }

  lemma ChainGrows(g: Graph, y: nat, p: nat, x: nat)
    requires (y == p || Above(g, y, p)) && OnlyParent(g, p, x)
    ensures Above(g, y, x)
  {
    hide OnlyParent;
    if y == p {
      assert Chain(g, [y, x]);
    } else {
      var path :| Chain(g, path) && path[0] == y && path[|path| - 1] == p;
      var longer := path + [x];
      forall i | 0 <= i < |longer| - 1
        ensures OnlyParent(g, longer[i], longer[i + 1])
      {
        if i < |path| - 1 {
          assert OnlyParent(g, path[i], path[i + 1]);
        }
      }
      assert Chain(g, longer) && longer[|longer| - 1] == x;
    }
  }

  /** Whatever is expanded was started, or is below something that was. */
  lemma {:induction false} LedIsBelow(g: Graph, log: seq<nat>, starts: seq<nat>, i: nat)
    requires Led(g, log, 0, starts) && i < |log|
    ensures exists y <- starts :: y == log[i] || Above(g, y, log[i])
  {
    hide OnlyParent, Above;
    if log[i] !in starts {
      assert LedBy(g, log, 0, i);
      var j :| 0 <= j < i && OnlyParent(g, log[j], log[i]);
      LedIsBelow(g, log, starts, j);
      var y :| y in starts && (y == log[j] || Above(g, y, log[j]));
      ChainGrows(g, y, log[j], log[i]);
    }
  }

  lemma {:induction false} ClosedReaches(g: Graph, log: seq<nat>, path: seq<nat>, k: nat)
    requires Closed(g, log, 0) && Chain(g, path) && path[0] in log && k < |path|
    ensures path[k] in log
  {
    hide OnlyParent;
    if k > 0 {
      ClosedReaches(g, log, path, k - 1);
      assert OnlyParent(g, path[k - 1], path[k - 1 + 1]);
      var i :| 0 <= i < |log| && log[i] == path[k - 1];
      assert OnlyParent(g, log[i], path[k]);
    }
  }

  function Place(s: seq<nat>, x: nat): (i: nat)
    requires x in s
    ensures i < |s| && s[i] == x && x !in s[..i]
  {
    if s[0] == x then 0
    else
      var i := Place(s[1..], x);
      assert s[..i + 1] == [s[0]] + s[1..][..i];
      i + 1
  }

  /** Something above `x` is offered as a root before `x` is. */
  ghost predicate Preceded(g: Graph, x: nat)
    requires x in g.types
  {
    exists y <- Offered(g)[..Place(Offered(g), x)] :: Above(g, y, x)
  }

  /** What the run over the first offers has expanded when `x` is offered. */
  lemma ExpandedBefore(g: Graph, pre: seq<nat>, x: nat)
    requires IsGraph(g) && x !in pre && forall t <- pre :: t in g.types
    ensures var (trees, log) := Roots(g, pre, []);
      && LogOk(g, log) && x !in RootTypes(trees)
      && (x in log <==> exists y <- pre :: Above(g, y, x))
  {
    hide Roots, OnlyParent, Above, Led, Closed;
    var (trees, log) := Roots(g, pre, []);
    RootsCount(g, pre, [], x);
    RootsShape(g, pre, []);
    if x in log {
      var i := Place(log, x);
      LedIsBelow(g, log, RootTypes(trees), i);
      var y :| y in RootTypes(trees) && (y == x || Above(g, y, x));
      RootsCount(g, pre, [], y);
    }
    if y :| y in pre && Above(g, y, x) {
      RootsCount(g, pre, [], y);
      AboveReaches(g, log, y, x);
    }
  }

  lemma AboveReaches(g: Graph, log: seq<nat>, y: nat, x: nat)
    requires Closed(g, log, 0) && y in log && Above(g, y, x)
    ensures x in log
  {
    hide Closed, OnlyParent;
    var path :| Chain(g, path) && path[0] == y && path[|path| - 1] == x;
    ClosedReaches(g, log, path, |path| - 1);
  }

  /** A type becomes a root exactly if nothing above it was offered before it. */
  lemma RootIffNotPreceded(g: Graph, x: nat)
    requires IsGraph(g) && x in g.types
    ensures IsRoot(g, x) <==> !Preceded(g, x)
  {
    hide Roots, Above, Organized, Offered;
    OfferedAreTypes(g);
    var c := Offered(g);
    var k := Place(c, x);
    var pre, post := c[..k], c[k..];
    assert c == pre + post && post[0] == x;
    OrganizedIsOneRun(g);
    RootsAppend(g, pre, post, []);
    ExpandedBefore(g, pre, x);
    var (first, log1) := Roots(g, pre, []);
    var (second, log2) := Roots(g, post, log1);
    ListingsAppend(first, second, x);
    RootsCount(g, post, log1, x);
    if x !in log1 {
      FirstOfferTaken(g, post, log1);
      assert RootTypes(second)[0] == x;
    }
  }

  lemma OfferedAreTypes(g: Graph)
    ensures forall x :: x in Offered(g) <==> x in g.types
  {
  }

  lemma FirstOfferTaken(g: Graph, candidates: seq<nat>, log: seq<nat>)
    requires candidates != [] && (forall t <- candidates :: t in g.types) && candidates[0] !in log
    ensures var trees := Roots(g, candidates, log).0; trees != [] && trees[0].root == candidates[0]
  {
    hide ExpandAll;
  }

  /** For every graph and every order: each type is listed exactly once if and only if
      everything nested is preceded by something above it. */
  lemma ListedOnceExactly(g: Graph)
    requires IsGraph(g)
    ensures AllListedOnce(g) <==> forall x <- g.types :: Nested(g, x) ==> Preceded(g, x)
  {
    hide Table, ListingsAll, Nested, Preceded, IsRoot;
    forall x | x in g.types
      ensures ListingsAll(Table(g), x) == 1 <==> (Nested(g, x) ==> Preceded(g, x))
    {
      ListedOnceOrTwice(g, x);
      RootIffNotPreceded(g, x);
    }
  }

  // ---- The same in terms of cycles and tops.

  /** An earlier top, in the order the types are gone through, is above `x`. */
  ghost predicate EarlierTopAbove(g: Graph, x: nat)
    requires x in g.types && x in g.tops
  {
    var tops := Candidates(g, MarkedTop, g.types);
    exists y <- tops[..Place(tops, x)] :: Above(g, y, x)
  }

  lemma PlaceInFront(a: seq<nat>, b: seq<nat>, x: nat)
    ensures x in a ==> x in a + b && Place(a + b, x) == Place(a, x) && (a + b)[..Place(a, x)] == a[..Place(a, x)]
    ensures x !in a && x in b ==> x in a + b && a <= (a + b)[..Place(a + b, x)]
  {
    if x in a {
      var i := Place(a, x);
      assert (a + b)[i] == x && (a + b)[..i] == a[..i];
      PlaceIs(a + b, x, i);
    } else if x in b {
      var i := |a| + Place(b, x);
      assert (a + b)[i] == x && (a + b)[..i] == a + b[..Place(b, x)];
      PlaceIs(a + b, x, i);
    }
  }

  lemma {:induction false} PlaceIs(s: seq<nat>, x: nat, i: nat)
    requires i < |s| && s[i] == x && x !in s[..i]
    ensures Place(s, x) == i
  {
    if i > 0 {
      assert s[..i] == [s[0]] + s[1..][..i - 1];
      PlaceIs(s[1..], x, i - 1);
    }
  }

  lemma TopIsPreceded(g: Graph, x: nat)
    requires x in g.types && x in g.tops
    ensures Preceded(g, x) <==> EarlierTopAbove(g, x)
  {
    hide Candidates, Above;
    var tops, rest := Candidates(g, MarkedTop, g.types), Candidates(g, NotOwned, g.types) + Candidates(g, Leftover, g.types);
    assert Offered(g) == tops + rest;
    PlaceInFront(tops, rest, x);
  }

  /** In an acyclic graph of registered referrers, going up from a type ends at one that does
      not have exactly one referrer. */
  lemma {:induction false} TopmostAbove(g: Graph, rank: map<nat, nat>, x: nat) returns (r: nat)
    requires ReferrersRegistered(g) && Ranks(g, rank) && x in g.types
    ensures r in g.types && |Referrers(g, r)| != 1 && (r == x || Above(g, r, x))
    decreases rank[x]
  {
    hide Above;
    r := x;
    if |Referrers(g, x)| == 1 {
      var p :| p in Referrers(g, x);
      SubsetSize({p}, Referrers(g, x));
      assert OnlyParent(g, p, x);
      r := TopmostAbove(g, rank, p);
      ChainGrows(g, r, p, x);
    }
  }

  lemma UnmarkedIsPreceded(g: Graph, rank: map<nat, nat>, x: nat)
    requires ReferrersRegistered(g) && Ranks(g, rank) && x in g.types && x !in g.tops && Nested(g, x)
    ensures Preceded(g, x)
  {
    OneReferrer(g, x);
    var r := TopmostAbove(g, rank, x);
    hide Candidates, Above, Nested, Ranks;
    var tops, notOwned, all := Candidates(g, MarkedTop, g.types), Candidates(g, NotOwned, g.types), Candidates(g, Leftover, g.types);
    assert x !in tops + notOwned && r in tops + notOwned;
    PlaceInFront(tops + notOwned, all, x);
    assert r in Offered(g)[..Place(Offered(g), x)];
  }

  /** For a fixed order of the types: each is listed exactly once if and only if no chain of
      only referrers is a cycle and every top below another type has an earlier top above it. */
  lemma ListedOnceInThisOrder(g: Graph)
    requires IsGraph(g) && ReferrersRegistered(g)
    ensures AllListedOnce(g) <==>
      Acyclic(g) && forall x <- g.types :: x in g.tops && Nested(g, x) ==> EarlierTopAbove(g, x)
  {
    hide AllListedOnce, Nested, Preceded, EarlierTopAbove, Ranks;
    ListedOnceExactly(g);
    if AllListedOnce(g) {
      ListedOnceIsAcyclic(g);
    }
    forall x | x in g.types && x in g.tops
      ensures Preceded(g, x) <==> EarlierTopAbove(g, x)
    {
      TopIsPreceded(g, x);
    }
    if Acyclic(g) {
      var rank :| Ranks(g, rank);
      forall x | x in g.types && x !in g.tops && Nested(g, x)
        ensures Preceded(g, x)
      {
        UnmarkedIsPreceded(g, rank, x);
      }
    }
  }

  lemma OneReferrer(g: Graph, x: nat)
    ensures Nested(g, x) ==> |Referrers(g, x)| == 1
  {
  }

  /** With no type marked top below another, each type is listed exactly once if and only if
      no chain of only referrers is a cycle. */
  lemma ListedOnceIffAcyclic(g: Graph)
    requires IsGraph(g) && ReferrersRegistered(g) && NoNestedTop(g)
    ensures AllListedOnce(g) <==> Acyclic(g)
  {
    hide AllListedOnce, Acyclic, Nested, EarlierTopAbove;
    ListedOnceInThisOrder(g);
  }

  /** A type marked top that comes first is listed twice if it has a single registered
      referrer, and once otherwise. */
  lemma NestedTopRepeats(g: Graph)
    requires IsGraph(g) && g.types != [] && g.types[0] in g.tops
    ensures ListingsAll(Table(g), g.types[0]) == 1 + Count(Nested(g, g.types[0]))
  {
    hide ListingsAll, Table, Above, Nested, IsRoot;
    var x := g.types[0];
    ListedOnceOrTwice(g, x);
    RootIffNotPreceded(g, x);
    TopIsPreceded(g, x);
    assert Candidates(g, MarkedTop, g.types)[0] == x;
  }

  // ---- Without an order: the types and references are sets.

  /** The same sets, gone through in any order. */
  ghost predicate SameSets(g: Graph, h: Graph) {
    && (forall x :: x in h.types <==> x in g.types)
    && h.tops == g.tops
    && (forall k :: k in h.refs <==> k in g.refs)
    && (forall k, x :: k in g.refs ==> (x in h.refs[k] <==> x in g.refs[k]))
  }

  lemma SameParents(g: Graph, h: Graph)
    requires SameSets(g, h)
    ensures forall p, x :: OnlyParent(h, p, x) <==> OnlyParent(g, p, x)
  {
    forall x
      ensures Referrers(h, x) == Referrers(g, x)
    {
    }
  }

  lemma SameNesting(g: Graph, h: Graph)
    requires SameSets(g, h)
    ensures forall x :: Nested(h, x) <==> Nested(g, x)
    ensures Acyclic(h) <==> Acyclic(g)
    ensures NoNestedTop(h) <==> NoNestedTop(g)
  {
    hide OnlyParent;
    SameParents(g, h);
    if rank :| Ranks(g, rank) {
      assert Ranks(h, rank);
    }
    if rank :| Ranks(h, rank) {
      assert Ranks(g, rank);
    }
  }

  /** The same graph with one type moved to the front. */
  function MovedToFront(g: Graph, x: nat): Graph
    requires x in g.types
  {
    var i := Place(g.types, x);
    g.(types := [x] + g.types[..i] + g.types[i + 1..])
  }

  /** Taking an element out and putting it in front keeps the elements, and keeps them distinct. */
  lemma MovedElements(s: seq<nat>, i: nat)
    requires i < |s|
    ensures var t := [s[i]] + s[..i] + s[i + 1..];
      && (forall x :: x in t <==> x in s)
      && (Distinct(s) ==> Distinct(t))
  {
    var t := [s[i]] + s[..i] + s[i + 1..];
    assert s == s[..i] + [s[i]] + s[i + 1..];
    forall j | 0 <= j < |t|
      ensures t[j] == s[if j == 0 then i else if j <= i then j - 1 else j]
    {
    }
  }

  lemma MovedIsSame(g: Graph, x: nat)
    requires IsGraph(g) && x in g.types
    ensures var h := MovedToFront(g, x); IsGraph(h) && SameSets(g, h) && h.types[0] == x
  {
    hide Distinct;
    MovedElements(g.types, Place(g.types, x));
  }

  /** The exact condition that does not depend on the order: each type is listed once in
      whatever order the sets are gone through, if and only if no chain of only referrers is a
      cycle and no type marked top is below another. */
  lemma ListedOnceInEveryOrder(g: Graph)
    requires IsGraph(g) && ReferrersRegistered(g)
    ensures (forall h | IsGraph(h) && SameSets(g, h) :: AllListedOnce(h)) <==> Acyclic(g) && NoNestedTop(g)
  {
    hide AllListedOnce, Acyclic, SameSets, IsGraph, Nested;
    if forall h | IsGraph(h) && SameSets(g, h) :: AllListedOnce(h) {
      SameAsItself(g);
      ListedOnceIsAcyclic(g);
      forall x | x in g.types && x in g.tops
        ensures !Nested(g, x)
      {
        MovedIsSame(g, x);
        var h := MovedToFront(g, x);
        SameNesting(g, h);
        NestedTopRepeats(h);
        ListedOnceMeansOne(h, x);
      }
    }
    if Acyclic(g) && NoNestedTop(g) {
      forall h | IsGraph(h) && SameSets(g, h)
        ensures AllListedOnce(h)
      {
        SameNesting(g, h);
        SameRegistered(g, h);
        ListedOnceIffAcyclic(h);
      }
    }
  }

  lemma SameAsItself(g: Graph)
    ensures SameSets(g, g)
  {
  }

  lemma ListedOnceMeansOne(g: Graph, x: nat)
    requires AllListedOnce(g) && x in g.types
    ensures ListingsAll(Table(g), x) == 1
  {
  }

  lemma SameRegistered(g: Graph, h: Graph)
    requires SameSets(g, h) && ReferrersRegistered(g)
    ensures ReferrersRegistered(h)
  {
  }

  lemma {:induction false} NoCandidates(g: Graph, phase: Phase, types: seq<nat>)
    requires forall t <- types :: !Wanted(g, phase, t)
    ensures Candidates(g, phase, types) == []
  {
    hide Wanted;
    if types != [] {
      assert types[0] in types;
      NoCandidates(g, phase, types[1..]);
    }
  }

  /** The graph of two types below an unregistered one: 0 references 2, which references 1. */
  const UNREGISTERED := Graph([1, 2], {}, map[0 := [2], 2 := [1]])

  lemma UnregisteredParents()
    ensures Referrers(UNREGISTERED, 1) == {2} && Referrers(UNREGISTERED, 2) == {0}
    ensures IsGraph(UNREGISTERED) && OnlyParent(UNREGISTERED, 2, 1) && Nested(UNREGISTERED, 1)
    ensures Acyclic(UNREGISTERED)
  {
    var g := UNREGISTERED;
    assert Referrers(g, 1) == {2} && Referrers(g, 2) == {0};
    assert OnlyParent(g, 2, 1) && 2 in g.types;
    var rank: map<nat, nat> := map[1 := 1, 2 := 0];
    forall p, x | p in g.types && OnlyParent(g, p, x)
      ensures rank[p] < rank[x]
    {
      assert p in Referrers(g, x);
    }
    assert Ranks(g, rank);
  }

  /** That only registered types reference others is needed: here the first type is listed
      twice, with no cycle and no top type. */
  lemma UnregisteredReferrerRepeats()
    ensures var g := UNREGISTERED; IsGraph(g) && NoNestedTop(g) && Acyclic(g) && !AllListedOnce(g)
  {
    var g := UNREGISTERED;
    UnregisteredParents();
    hide Referrers, Ranks, Acyclic, Above, Nested, OnlyParent;
    NoCandidates(g, MarkedTop, g.types);
    NoCandidates(g, NotOwned, g.types);
    assert Candidates(g, Leftover, g.types)[0] == 1;
    assert Offered(g)[0] == 1;
    ListedOnceExactly(g);
    assert !Preceded(g, 1);
  }
}
