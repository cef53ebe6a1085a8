// The forest of boot environments: a flat list, with lineage read off the origins.

module Forest {
  import opened Text

  datatype Be = Be(dataset: string, pool: string, name: string, origin: Option<SnapshotRef>)

  /** No two boot environments share a dataset. */
  ghost predicate DistinctDatasets(bes: seq<Be>) {
    forall i, j :: 0 <= i < j < |bes| ==> bes[i].dataset != bes[j].dataset
  }

  /** Looking a dataset up in the index. */
  function Lookup(bes: seq<Be>, d: string): Option<Be> {
    if bes == [] then None
    else if bes[|bes| - 1].dataset == d then Some(bes[|bes| - 1])
    else Lookup(bes[..|bes| - 1], d)
  }

  lemma {:induction false} LookupFinds(bes: seq<Be>, d: string)
    ensures match Lookup(bes, d)
      case Some(b) => b in bes && b.dataset == d
      case None => forall b :: b in bes ==> b.dataset != d
  {
    if bes != [] {
      LookupFinds(bes[..|bes| - 1], d);
      assert bes == bes[..|bes| - 1] + [bes[|bes| - 1]];
    }
  }

  lemma LookupIs(bes: seq<Be>, b: Be)
    requires DistinctDatasets(bes) && b in bes
    ensures Lookup(bes, b.dataset) == Some(b)
  {
    LookupFinds(bes, b.dataset);
    var c := Lookup(bes, b.dataset).value;
    var i :| 0 <= i < |bes| && bes[i] == b;
    var j :| 0 <= j < |bes| && bes[j] == c;
  }

  /** The parent in the forest: the boot environment the origin belongs to, if it is one. */
  function Up(bes: seq<Be>, be: Be): Option<Be> {
    if be.origin.None? then None else Lookup(bes, be.origin.value.dataset)
  }

  ghost predicate GradedAt(bes: seq<Be>, rank: map<string, nat>, be: Be) {
    be.dataset in rank &&
    (Up(bes, be).Some? ==> be.origin.value.dataset in rank && rank[be.origin.value.dataset] < rank[be.dataset])
  }

  /** Origins form no cycle. */
  ghost predicate Graded(bes: seq<Be>, rank: map<string, nat>) {
    forall be :: be in bes ==> GradedAt(bes, rank, be)
  }

  lemma UpFacts(bes: seq<Be>, rank: map<string, nat>, be: Be)
    requires Graded(bes, rank) && be in bes && Up(bes, be).Some?
    ensures var p := Up(bes, be).value;
      p in bes && p.dataset == be.origin.value.dataset && p.dataset in rank && be.dataset in rank
      && rank[p.dataset] < rank[be.dataset]
  {
    LookupFinds(bes, be.origin.value.dataset);
    assert GradedAt(bes, rank, be);
  }

  predicate IsRoot(bes: seq<Be>, be: Be) {
    Up(bes, be).None?
  }

  /** The boot environments among `xs` without a parent in the forest, in order. */
  function RootsAmong(xs: seq<Be>, bes: seq<Be>): seq<Be> {
    if xs == [] then []
    else
      var init, last := xs[..|xs| - 1], xs[|xs| - 1];
      if IsRoot(bes, last) then RootsAmong(init, bes) + [last] else RootsAmong(init, bes)
  }

  function Roots(bes: seq<Be>): seq<Be> {
    RootsAmong(bes, bes)
  }

  predicate IsChildOf(be: Be, d: string) {
    be.origin.Some? && be.origin.value.dataset == d
  }

  function ChildrenOf(bes: seq<Be>, d: string): seq<Be> {
    if bes == [] then []
    else
      var init, last := bes[..|bes| - 1], bes[|bes| - 1];
      if IsChildOf(last, d) then ChildrenOf(init, d) + [last] else ChildrenOf(init, d)
  }

  lemma {:induction false} ChildrenAre(bes: seq<Be>, d: string, be: Be)
    ensures be in ChildrenOf(bes, d) <==> be in bes && IsChildOf(be, d)
  {
    if bes != [] {
      ChildrenAre(bes[..|bes| - 1], d, be);
      assert bes == bes[..|bes| - 1] + [bes[|bes| - 1]];
    }
  }

  lemma {:induction false} RootsAre(xs: seq<Be>, bes: seq<Be>, be: Be)
    ensures be in RootsAmong(xs, bes) <==> be in xs && IsRoot(bes, be)
  {
    if xs != [] {
      RootsAre(xs[..|xs| - 1], bes, be);
      assert xs == xs[..|xs| - 1] + [xs[|xs| - 1]];
    }
  }

  // -------------------------------------------------------------------------
  // Descendants
  // -------------------------------------------------------------------------

  ghost function RankOf(bes: seq<Be>, rank: map<string, nat>, be: Be): nat
    requires Graded(bes, rank) && be in bes
  {
    assert GradedAt(bes, rank, be);
    rank[be.dataset]
  }

  /** Following origins up from `be` meets `a`, which need not be a boot environment itself. */
  predicate DescendsFrom(bes: seq<Be>, ghost rank: map<string, nat>, be: Be, a: string)
    requires Graded(bes, rank) && be in bes
    decreases RankOf(bes, rank, be)
  {
    be.origin.Some? &&
    (be.origin.value.dataset == a ||
     (Up(bes, be).Some? && (UpFacts(bes, rank, be); DescendsFrom(bes, rank, Up(bes, be).value, a))))
  }

  function DescendantsAmong(xs: seq<Be>, bes: seq<Be>, ghost rank: map<string, nat>, a: string): seq<Be>
    requires Graded(bes, rank) && forall x :: x in xs ==> x in bes
  {
    if xs == [] then []
    else
      var init, last := xs[..|xs| - 1], xs[|xs| - 1];
      if DescendsFrom(bes, rank, last, a) then DescendantsAmong(init, bes, rank, a) + [last]
      else DescendantsAmong(init, bes, rank, a)
  }

  lemma {:induction false} DescendantsAre(xs: seq<Be>, bes: seq<Be>, rank: map<string, nat>, a: string, be: Be)
    requires Graded(bes, rank) && forall x :: x in xs ==> x in bes
    ensures be in DescendantsAmong(xs, bes, rank, a) <==> be in xs && DescendsFrom(bes, rank, be, a)
  {
    if xs != [] {
      DescendantsAre(xs[..|xs| - 1], bes, rank, a, be);
      assert xs == xs[..|xs| - 1] + [xs[|xs| - 1]];
    }
  }

  /** One walk up the origins. It ends because origins form no cycle. */
  method Descends(bes: seq<Be>, be: Be, a: string, ghost rank: map<string, nat>) returns (yes: bool)
    requires Graded(bes, rank) && be in bes
    ensures yes <==> DescendsFrom(bes, rank, be, a)
  {
    hide Lookup;
    var current := be.origin;
    ghost var at := be;
    while current.Some?
      invariant at in bes && current == at.origin
      invariant DescendsFrom(bes, rank, be, a) <==> DescendsFrom(bes, rank, at, a)
      decreases RankOf(bes, rank, at)
    {
      if current.value.dataset == a {
        return true;
      }
      var parent := Lookup(bes, current.value.dataset);
      if parent.None? {
        return false;
      }
      UpFacts(bes, rank, at);
      current := parent.value.origin;
      at := parent.value;
    }
    yes := false;
  }

  method DescendantsOf(bes: seq<Be>, a: string, ghost rank: map<string, nat>) returns (ds: seq<Be>)
    requires Graded(bes, rank)
    ensures ds == DescendantsAmong(bes, bes, rank, a)
  {
    ds := [];
    for i := 0 to |bes|
      invariant ds == DescendantsAmong(bes[..i], bes, rank, a)
    {
      var yes := Descends(bes, bes[i], a, rank);
      assert bes[..i + 1][..i] == bes[..i];
      if yes {
        ds := ds + [bes[i]];
      }
    }
    assert bes[..|bes|] == bes;
  }

  ghost predicate Link(bes: seq<Be>, d: string, c: string) {
    exists be :: be in ChildrenOf(bes, d) && be.dataset == c
  }

  /** A chain of children: each dataset after the first is a child of the one before. */
  ghost predicate Chain(bes: seq<Be>, path: seq<string>) {
    |path| >= 2 && forall i :: 0 <= i < |path| - 1 ==> Link(bes, path[i], path[i + 1])
  }

  ghost predicate Joins(bes: seq<Be>, path: seq<string>, a: string, be: Be) {
    Chain(bes, path) && path[0] == a && path[|path| - 1] == be.dataset
  }

  lemma {:induction false} PathDown(bes: seq<Be>, rank: map<string, nat>, a: string, be: Be) returns (path: seq<string>)
    requires Graded(bes, rank) && be in bes && DescendsFrom(bes, rank, be, a)
    ensures Joins(bes, path, a, be)
    decreases RankOf(bes, rank, be)
  {
    var d := be.origin.value.dataset;
    ChildrenAre(bes, d, be);
    assert Link(bes, d, be.dataset);
    if d == a {
      path := [a, be.dataset];
    } else {
      UpFacts(bes, rank, be);
      var up := PathDown(bes, rank, a, Up(bes, be).value);
      path := up + [be.dataset];
    }
  }

  lemma LinkedBe(bes: seq<Be>, d: string, c: string) returns (be: Be)
    requires Link(bes, d, c)
    ensures be in bes && be.dataset == c
  {
    be :| be in ChildrenOf(bes, d) && be.dataset == c;
    ChildrenAre(bes, d, be);
  }

  lemma LinkIsOrigin(bes: seq<Be>, d: string, be: Be)
    requires DistinctDatasets(bes) && be in bes && Link(bes, d, be.dataset)
    ensures IsChildOf(be, d)
  {
    var c :| c in ChildrenOf(bes, d) && c.dataset == be.dataset;
    ChildrenAre(bes, d, c);
    LookupIs(bes, c);
    LookupIs(bes, be);
  }

  lemma {:induction false} ChainDescends(bes: seq<Be>, rank: map<string, nat>, path: seq<string>, be: Be)
    requires DistinctDatasets(bes) && Graded(bes, rank) && be in bes && Chain(bes, path) &&
      path[|path| - 1] == be.dataset
    ensures DescendsFrom(bes, rank, be, path[0])
    decreases |path|
  {
    var n := |path| - 1;
    assert Link(bes, path[n - 1], path[n]);
    LinkIsOrigin(bes, path[n - 1], be);
    if n > 1 {
      assert Link(bes, path[n - 2], path[n - 1]);
      var p := LinkedBe(bes, path[n - 2], path[n - 1]);
      LookupIs(bes, p);
      ChainDescends(bes, rank, path[..n], p);
    }
  }

  /** Descendants are exactly the transitive closure of children. */
  lemma DescendantsAreClosure(bes: seq<Be>, rank: map<string, nat>, a: string, be: Be)
    requires DistinctDatasets(bes) && Graded(bes, rank) && be in bes
    ensures be in DescendantsAmong(bes, bes, rank, a) <==> exists path :: Joins(bes, path, a, be)
  {
    DescendantsAre(bes, bes, rank, a, be);
    if DescendsFrom(bes, rank, be, a) {
      var path := PathDown(bes, rank, a, be);
      assert Joins(bes, path, a, be);
    }
    if path :| Joins(bes, path, a, be) {
      ChainDescends(bes, rank, path, be);
    }
  }

  // -------------------------------------------------------------------------
  // Roots
  // -------------------------------------------------------------------------

  function RootOf(bes: seq<Be>, ghost rank: map<string, nat>, be: Be): Be
    requires Graded(bes, rank) && be in bes
    decreases RankOf(bes, rank, be)
  {
    if IsRoot(bes, be) then be else (UpFacts(bes, rank, be); RootOf(bes, rank, Up(bes, be).value))
  }

  ghost predicate Belongs(bes: seq<Be>, rank: map<string, nat>, be: Be, root: Be)
    requires Graded(bes, rank) && be in bes
  {
    be == root || DescendsFrom(bes, rank, be, root.dataset)
  }

  /** Every boot environment is a root or a descendant of exactly one root. */
  lemma {:induction false} ExactlyOneRoot(bes: seq<Be>, rank: map<string, nat>, be: Be, root: Be)
    requires DistinctDatasets(bes) && Graded(bes, rank) && be in bes
    ensures RootOf(bes, rank, be) in Roots(bes)
    ensures root in Roots(bes) ==> (Belongs(bes, rank, be, root) <==> root == RootOf(bes, rank, be))
    decreases RankOf(bes, rank, be)
  {
    hide Lookup;
    RootsAre(bes, bes, root);
    RootsAre(bes, bes, be);
    if !IsRoot(bes, be) {
      UpFacts(bes, rank, be);
      var p := Up(bes, be).value;
      ExactlyOneRoot(bes, rank, p, root);
      if root in Roots(bes) {
        LookupIs(bes, root);
      }
    } else if root in Roots(bes) && be.origin.Some? {
      LookupFinds(bes, be.origin.value.dataset);
    }
  }
}
