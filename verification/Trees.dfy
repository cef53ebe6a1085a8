// The two tree renderers: the boot menu, which nests a boot environment under its origin
// only within a pool, and `status`, which nests under any boot environment.

module Trees {
  import opened Text
  import opened Forest

  // -------------------------------------------------------------------------
  // Sorting by name
  // -------------------------------------------------------------------------

  /** Each sibling's name is not below the one before it. */
  predicate SiblingsInOrder(xs: seq<Be>) {
    forall i :: 0 < i < |xs| ==> !NameLess(xs[i].name, xs[i - 1].name)
  }

  function InsertByName(xs: seq<Be>, x: Be): seq<Be> {
    if xs == [] then [x]
    else
      var init, last := xs[..|xs| - 1], xs[|xs| - 1];
      if NameLess(x.name, last.name) then InsertByName(init, x) + [last] else xs + [x]
  }

  function SortByName(xs: seq<Be>): seq<Be> {
    if xs == [] then [] else InsertByName(SortByName(xs[..|xs| - 1]), xs[|xs| - 1])
  }

  lemma {:induction false} InsertInOrder(xs: seq<Be>, x: Be)
    requires SiblingsInOrder(xs)
    ensures SiblingsInOrder(InsertByName(xs, x))
    ensures multiset(InsertByName(xs, x)) == multiset(xs) + multiset{x}
    ensures |InsertByName(xs, x)| == |xs| + 1
    ensures var last := InsertByName(xs, x)[|xs|]; last == x || (xs != [] && last == xs[|xs| - 1])
  {
    if xs != [] {
      var init, last := xs[..|xs| - 1], xs[|xs| - 1];
      assert xs == init + [last];
      InsertInOrder(init, x);
      if NameLess(x.name, last.name) {
        NameLessAsymmetric(x.name, last.name);
      }
    }
  }

  /** Sorting keeps the siblings and puts them in order. */
  lemma {:induction false} SortFacts(xs: seq<Be>)
    ensures SiblingsInOrder(SortByName(xs)) && multiset(SortByName(xs)) == multiset(xs)
  {
    hide InsertByName, NameLess;
    if xs != [] {
      SortFacts(xs[..|xs| - 1]);
      InsertInOrder(SortByName(xs[..|xs| - 1]), xs[|xs| - 1]);
      assert xs == xs[..|xs| - 1] + [xs[|xs| - 1]];
    }
  }

  /** Those of a given name, in order. */
  function WithName(xs: seq<Be>, name: string): seq<Be> {
    if xs == [] then []
    else
      var init, last := xs[..|xs| - 1], xs[|xs| - 1];
      if last.name == name then WithName(init, name) + [last] else WithName(init, name)
  }

  lemma WithNameLast(xs: seq<Be>, x: Be, name: string)
    ensures WithName(xs + [x], name) == WithName(xs, name) + if x.name == name then [x] else []
  {
    assert (xs + [x])[..|xs|] == xs;
  }

  lemma {:induction false} InsertIsStable(xs: seq<Be>, x: Be, name: string)
    ensures WithName(InsertByName(xs, x), name) == WithName(xs, name) + if x.name == name then [x] else []
  {
    hide NameLess, WithName;
    WithNameLast(xs, x, name);
    if xs != [] {
      var init, last := xs[..|xs| - 1], xs[|xs| - 1];
      assert xs == init + [last];
      if NameLess(x.name, last.name) {
        NameLessAsymmetric(x.name, last.name);
        InsertIsStable(init, x, name);
        WithNameLast(init, last, name);
        WithNameLast(InsertByName(init, x), last, name);
      }
    } else {
      assert [x] == xs + [x];
    }
  }

  /** Sorting is stable: of several boot environments of one name the order stays as it was. */
  lemma {:induction false} SortIsStable(xs: seq<Be>, name: string)
    ensures WithName(SortByName(xs), name) == WithName(xs, name)
  {
    hide InsertByName;
    if xs != [] {
      SortIsStable(xs[..|xs| - 1], name);
      InsertIsStable(SortByName(xs[..|xs| - 1]), xs[|xs| - 1], name);
    }
  }

  lemma SortMembers(xs: seq<Be>, x: Be)
    ensures x in SortByName(xs) <==> x in xs
  {
    hide SortByName;
    SortFacts(xs);
    assert x in multiset(SortByName(xs)) <==> x in multiset(xs);
  }

  // -------------------------------------------------------------------------
  // The tree relation of each renderer
  // -------------------------------------------------------------------------

  datatype View = Menu | Status

  /** `be`'s origin belongs to another boot environment of the same pool. */
  predicate HasLocalParent(bes: seq<Be>, be: Be) {
    be.origin.Some? && exists other :: other in bes && other.pool == be.pool && other.dataset == be.origin.value.dataset
  }

  /** The nodes a renderer starts from. */
  predicate IsTop(bes: seq<Be>, view: View, be: Be) {
    if view.Menu? then !HasLocalParent(bes, be) else IsRoot(bes, be)
  }

  /** The nodes a renderer nests under `be`. */
  predicate IsKid(view: View, be: Be, c: Be) {
    (view.Menu? ==> c.pool == be.pool) && IsChildOf(c, be.dataset)
  }

  function KidsAmong(xs: seq<Be>, view: View, be: Be): seq<Be> {
    if xs == [] then []
    else
      var init, last := xs[..|xs| - 1], xs[|xs| - 1];
      if IsKid(view, be, last) then KidsAmong(init, view, be) + [last] else KidsAmong(init, view, be)
  }

  function TopsAmong(xs: seq<Be>, bes: seq<Be>, view: View, pool: string): seq<Be> {
    if xs == [] then []
    else
      var init, last := xs[..|xs| - 1], xs[|xs| - 1];
      if last.pool == pool && IsTop(bes, view, last) then TopsAmong(init, bes, view, pool) + [last]
      else TopsAmong(init, bes, view, pool)
  }

  /** The node `be` is nested under, if any. */
  function Nest(bes: seq<Be>, view: View, be: Be): Option<Be> {
    var p := Up(bes, be);
    if p.Some? && (view.Menu? ==> p.value.pool == be.pool) then p else None
  }

  lemma TopHasNoNest(bes: seq<Be>, view: View, be: Be)
    requires DistinctDatasets(bes)
    ensures IsTop(bes, view, be) <==> Nest(bes, view, be).None?
  {
    if be.origin.Some? {
      LookupFinds(bes, be.origin.value.dataset);
      if HasLocalParent(bes, be) {
        var other :| other in bes && other.pool == be.pool && other.dataset == be.origin.value.dataset;
        LookupIs(bes, other);
      }
    }
  }

  lemma KidIsNested(bes: seq<Be>, view: View, be: Be, c: Be)
    requires DistinctDatasets(bes) && be in bes && c in bes
    ensures IsKid(view, be, c) <==> Nest(bes, view, c) == Some(be)
  {
    LookupIs(bes, be);
    if c.origin.Some? {
      LookupFinds(bes, c.origin.value.dataset);
    }
  }

  lemma {:induction false} KidsAre(xs: seq<Be>, view: View, be: Be, c: Be)
    ensures c in KidsAmong(xs, view, be) <==> c in xs && IsKid(view, be, c)
  {
    if xs != [] {
      KidsAre(xs[..|xs| - 1], view, be, c);
      assert xs == xs[..|xs| - 1] + [xs[|xs| - 1]];
    }
  }

  lemma {:induction false} TopsAre(xs: seq<Be>, bes: seq<Be>, view: View, pool: string, c: Be)
    ensures c in TopsAmong(xs, bes, view, pool) <==> c in xs && c.pool == pool && IsTop(bes, view, c)
  {
    if xs != [] {
      TopsAre(xs[..|xs| - 1], bes, view, pool, c);
      assert xs == xs[..|xs| - 1] + [xs[|xs| - 1]];
    }
  }

  /** A forest a renderer can be given: distinct datasets, origins without cycles, `rank` below `top`. */
  ghost predicate Fit(bes: seq<Be>, rank: map<string, nat>, top: nat) {
    DistinctDatasets(bes) && Graded(bes, rank) && forall be :: be in bes ==> rank[be.dataset] <= top
  }

  ghost function Height(bes: seq<Be>, rank: map<string, nat>, top: nat, be: Be): nat
    requires Fit(bes, rank, top) && be in bes
  {
    top - RankOf(bes, rank, be)
  }

  lemma KidsRankHigher(bes: seq<Be>, rank: map<string, nat>, top: nat, view: View, be: Be, c: Be)
    requires Fit(bes, rank, top) && be in bes && c in SortByName(KidsAmong(bes, view, be))
    ensures c in bes && Nest(bes, view, c) == Some(be) && RankOf(bes, rank, be) < RankOf(bes, rank, c)
  {
    SortMembers(KidsAmong(bes, view, be), c);
    KidsAre(bes, view, be, c);
    KidIsNested(bes, view, be, c);
    UpFacts(bes, rank, c);
  }

  // -------------------------------------------------------------------------
  // The walk
  // -------------------------------------------------------------------------

  datatype Row = Header(pool: string) | Node(be: Be, prefix: string)

  /** `L--` for the last sibling, `|--` for the others. */
  function Connector(last: bool): string {
    if last then "\U{2514}\U{2500}\U{2500} " else "\U{251C}\U{2500}\U{2500} "
  }

  function Stem(last: bool): string {
    if last then "    " else "\U{2502}   "
  }

  function KidsOf(bes: seq<Be>, view: View, be: Be): seq<Be> {
    SortByName(KidsAmong(bes, view, be))
  }

  /** Nodes a walk may list side by side, all ranked above `floor`. */
  ghost predicate Above(bes: seq<Be>, rank: map<string, nat>, list: seq<Be>, floor: int)
    requires Graded(bes, rank)
  {
    forall c :: c in list ==> c in bes && floor < RankOf(bes, rank, c)
  }

  lemma KidsAbove(bes: seq<Be>, rank: map<string, nat>, top: nat, view: View, be: Be)
    requires Fit(bes, rank, top) && be in bes
    ensures Above(bes, rank, KidsOf(bes, view, be), RankOf(bes, rank, be))
  {
    forall c | c in KidsOf(bes, view, be) ensures c in bes && RankOf(bes, rank, be) < RankOf(bes, rank, c) {
      KidsRankHigher(bes, rank, top, view, be, c);
    }
  }

  /** The rows of the first `k` of some siblings. */
  function WalkSome(bes: seq<Be>, ghost rank: map<string, nat>, ghost top: nat, view: View, list: seq<Be>, k: nat,
                    indent: string, ghost floor: int)
    : seq<Row>
    requires Fit(bes, rank, top) && Above(bes, rank, list, floor) && k <= |list| && floor <= top
    decreases top - floor, 0, k
  {
    if k == 0 then []
    else
      WalkSome(bes, rank, top, view, list, k - 1, indent, floor) +
      Walk(bes, rank, top, view, list[k - 1], indent, k == |list|)
  }

  /** A node's rows: its own, then those of its children in name order. */
  function Walk(bes: seq<Be>, ghost rank: map<string, nat>, ghost top: nat, view: View, be: Be, indent: string,
                last: bool)
    : seq<Row>
    requires Fit(bes, rank, top) && be in bes
    decreases Height(bes, rank, top, be), 1, 0
  {
    KidsAbove(bes, rank, top, view, be);
    var kids := KidsOf(bes, view, be);
    [Node(be, indent + Connector(last))] +
    WalkSome(bes, rank, top, view, kids, |kids|, indent + Stem(last), RankOf(bes, rank, be))
  }

  /** The sink the renderers write to. */
  class Output {
    var rows: seq<Row>

    constructor ()
      ensures rows == []
    {
      rows := [];
    }

    method Push(r: Row)
      modifies this
      ensures rows == old(rows) + [r]
    {
      rows := rows + [r];
    }
  }

  method WalkNodes(out: Output, bes: seq<Be>, ghost rank: map<string, nat>, ghost top: nat, view: View, list: seq<Be>,
                   indent: string, ghost floor: int)
    requires Fit(bes, rank, top) && Above(bes, rank, list, floor) && floor <= top
    modifies out
    ensures out.rows == old(out.rows) + WalkSome(bes, rank, top, view, list, |list|, indent, floor)
    decreases top - floor, 0, 0
  {
    hide Walk, Fit;
    ghost var rows0 := out.rows;
    for i := 0 to |list|
      invariant out.rows == rows0 + WalkSome(bes, rank, top, view, list, i, indent, floor)
    {
      WalkNode(out, bes, rank, top, view, list[i], indent, i == |list| - 1);
    }
  }

  method WalkNode(out: Output, bes: seq<Be>, ghost rank: map<string, nat>, ghost top: nat, view: View, be: Be,
                  indent: string, last: bool)
    requires Fit(bes, rank, top) && be in bes
    modifies out
    ensures out.rows == old(out.rows) + Walk(bes, rank, top, view, be, indent, last)
    decreases Height(bes, rank, top, be), 1, 0
  {
    out.Push(Node(be, indent + Connector(last)));
    KidsAbove(bes, rank, top, view, be);
    WalkNodes(out, bes, rank, top, view, KidsOf(bes, view, be), indent + Stem(last), RankOf(bes, rank, be));
  }

  // -------------------------------------------------------------------------
  // The whole rendering
  // -------------------------------------------------------------------------

  function InsertPool(pools: seq<string>, p: string): seq<string> {
    if pools == [] then [p]
    else
      var init, last := pools[..|pools| - 1], pools[|pools| - 1];
      if p == last then pools else if NameLess(p, last) then InsertPool(init, p) + [last] else pools + [p]
  }

  /** The pools that hold a boot environment, in order, each once. */
  function PoolsOf(bes: seq<Be>): seq<string> {
    if bes == [] then [] else InsertPool(PoolsOf(bes[..|bes| - 1]), bes[|bes| - 1].pool)
  }

  function TopsOf(bes: seq<Be>, view: View, pool: string): seq<Be> {
    SortByName(TopsAmong(bes, bes, view, pool))
  }

  lemma TopsAbove(bes: seq<Be>, rank: map<string, nat>, view: View, pool: string)
    requires Graded(bes, rank)
    ensures Above(bes, rank, TopsOf(bes, view, pool), -1)
  {
    forall c | c in TopsOf(bes, view, pool) ensures c in bes {
      SortMembers(TopsAmong(bes, bes, view, pool), c);
      TopsAre(bes, bes, view, pool, c);
    }
  }

  function Margin(view: View): string {
    if view.Menu? then "  " else "    "
  }

  function PoolRows(bes: seq<Be>, ghost rank: map<string, nat>, ghost top: nat, view: View, pool: string): seq<Row>
    requires Fit(bes, rank, top)
  {
    TopsAbove(bes, rank, view, pool);
    var tops := TopsOf(bes, view, pool);
    [Header(pool)] + WalkSome(bes, rank, top, view, tops, |tops|, Margin(view), -1)
  }

  function AllRows(bes: seq<Be>, ghost rank: map<string, nat>, ghost top: nat, view: View, pools: seq<string>): seq<Row>
    requires Fit(bes, rank, top)
  {
    if pools == [] then []
    else AllRows(bes, rank, top, view, pools[..|pools| - 1]) + PoolRows(bes, rank, top, view, pools[|pools| - 1])
  }

  method RenderPool(out: Output, bes: seq<Be>, ghost rank: map<string, nat>, ghost top: nat, view: View, pool: string)
    requires Fit(bes, rank, top)
    modifies out
    ensures out.rows == old(out.rows) + PoolRows(bes, rank, top, view, pool)
  {
    hide WalkSome;
    out.Push(Header(pool));
    TopsAbove(bes, rank, view, pool);
    WalkNodes(out, bes, rank, top, view, TopsOf(bes, view, pool), Margin(view), -1);
  }

  /** `build_rows` for the menu, the forest section for `status`. */
  method Render(bes: seq<Be>, view: View, ghost rank: map<string, nat>, ghost top: nat) returns (rows: seq<Row>)
    requires Fit(bes, rank, top)
    ensures rows == AllRows(bes, rank, top, view, PoolsOf(bes))
  {
    hide Fit, PoolsOf, PoolRows;
    var pools := PoolsOf(bes);
    var out := new Output();
    for i := 0 to |pools|
      invariant out.rows == AllRows(bes, rank, top, view, pools[..i])
    {
      assert pools[..i + 1][..i] == pools[..i];
      RenderPool(out, bes, rank, top, view, pools[i]);
    }
    assert pools[..|pools|] == pools;
    rows := out.rows;
  }

  // -------------------------------------------------------------------------
  // Every boot environment exactly once
  // -------------------------------------------------------------------------

  /** How often `x` is listed. */
  function Count(rows: seq<Row>, x: Be): nat {
    if rows == [] then 0
    else Count(rows[..|rows| - 1], x) + if rows[|rows| - 1].Node? && rows[|rows| - 1].be == x then 1 else 0
  }

  lemma {:induction false} CountConcat(a: seq<Row>, b: seq<Row>, x: Be)
    ensures Count(a + b, x) == Count(a, x) + Count(b, x)
  {
    if b == [] {
      assert a + b == a;
    } else {
      assert (a + b)[..|a + b| - 1] == a + b[..|b| - 1];
      CountConcat(a, b[..|b| - 1], x);
    }
  }

  lemma CountOne(r: Row, x: Be)
    ensures Count([r], x) == if r.Node? && r.be == x then 1 else 0
  {
    assert [r][..0] == [];
  }

  /** `x` is `a` or nested under it, at any depth. */
  ghost predicate Under(bes: seq<Be>, rank: map<string, nat>, view: View, a: Be, x: Be)
    requires Graded(bes, rank) && x in bes
    decreases RankOf(bes, rank, x)
  {
    x == a || (Nest(bes, view, x).Some? && (UpFacts(bes, rank, x); Under(bes, rank, view, a, Nest(bes, view, x).value)))
  }

  lemma {:induction false} UnderRank(bes: seq<Be>, rank: map<string, nat>, view: View, a: Be, x: Be)
    requires Graded(bes, rank) && x in bes && Under(bes, rank, view, a, x)
    ensures a in bes && RankOf(bes, rank, a) <= RankOf(bes, rank, x)
    decreases RankOf(bes, rank, x)
  {
    if x != a {
      UpFacts(bes, rank, x);
      UnderRank(bes, rank, view, a, Nest(bes, view, x).value);
    }
  }

  lemma NotUnderSibling(bes: seq<Be>, rank: map<string, nat>, view: View, a: Be, b: Be)
    requires Graded(bes, rank) && a in bes && b in bes && a != b && Nest(bes, view, a) == Nest(bes, view, b)
    ensures !Under(bes, rank, view, b, a)
  {
    if Nest(bes, view, a).Some? {
      UpFacts(bes, rank, a);
      UpFacts(bes, rank, b);
      var p := Nest(bes, view, a).value;
      if Under(bes, rank, view, b, p) {
        UnderRank(bes, rank, view, b, p);
      }
    }
  }

  /** Two different siblings have nothing under both. */
  lemma {:induction false} SiblingsApart(bes: seq<Be>, rank: map<string, nat>, view: View, a: Be, b: Be, x: Be)
    requires Graded(bes, rank) && a in bes && b in bes && x in bes
    requires a != b && Nest(bes, view, a) == Nest(bes, view, b) && Under(bes, rank, view, a, x)
    ensures !Under(bes, rank, view, b, x)
    decreases RankOf(bes, rank, x)
  {
    if x == a {
      NotUnderSibling(bes, rank, view, a, b);
    } else if x == b {
      NotUnderSibling(bes, rank, view, b, a);
    } else {
      UpFacts(bes, rank, x);
      SiblingsApart(bes, rank, view, a, b, Nest(bes, view, x).value);
    }
  }

  /** No element twice. */
  ghost predicate NoDup(xs: seq<Be>) {
    forall x :: multiset(xs)[x] <= 1
  }

  lemma DifferentAt(xs: seq<Be>, i: nat, j: nat)
    requires NoDup(xs) && i < j < |xs|
    ensures xs[i] != xs[j]
  {
    assert xs == xs[..j] + [xs[j]] + xs[j + 1..];
    assert multiset(xs)[xs[j]] <= 1;
    assert xs[i] in multiset(xs[..j]);
  }

  lemma {:induction false} DistinctNoDup(bes: seq<Be>)
    requires DistinctDatasets(bes)
    ensures NoDup(bes)
  {
    if bes != [] {
      var init, last := bes[..|bes| - 1], bes[|bes| - 1];
      assert bes == init + [last];
      DistinctNoDup(init);
      assert last !in init;
    }
  }

  lemma {:induction false} KidsWithin(xs: seq<Be>, view: View, be: Be)
    ensures multiset(KidsAmong(xs, view, be)) <= multiset(xs)
  {
    if xs != [] {
      KidsWithin(xs[..|xs| - 1], view, be);
      assert xs == xs[..|xs| - 1] + [xs[|xs| - 1]];
    }
  }

  lemma {:induction false} TopsWithin(xs: seq<Be>, bes: seq<Be>, view: View, pool: string)
    ensures multiset(TopsAmong(xs, bes, view, pool)) <= multiset(xs)
  {
    if xs != [] {
      TopsWithin(xs[..|xs| - 1], bes, view, pool);
      assert xs == xs[..|xs| - 1] + [xs[|xs| - 1]];
    }
  }

  lemma SortedNoDup(xs: seq<Be>, bes: seq<Be>)
    requires multiset(xs) <= multiset(bes) && DistinctDatasets(bes)
    ensures NoDup(SortByName(xs))
  {
    hide SortByName;
    DistinctNoDup(bes);
    SortFacts(xs);
    forall x ensures multiset(SortByName(xs))[x] <= 1 {
      assert multiset(bes)[x] <= 1;
    }
  }

  /** Some of the first `k` siblings has `x` under it. */
  ghost predicate SomeUnder(bes: seq<Be>, rank: map<string, nat>, view: View, list: seq<Be>, k: nat, x: Be)
    requires Graded(bes, rank) && x in bes && k <= |list|
  {
    exists j :: 0 <= j < k && Under(bes, rank, view, list[j], x)
  }

  /** Siblings: no one twice, and all nested under the same node or under none. */
  ghost predicate Siblings(bes: seq<Be>, view: View, list: seq<Be>, nest: Option<Be>) {
    NoDup(list) && forall c :: c in list ==> c in bes && Nest(bes, view, c) == nest
  }

  lemma KidsAreSiblings(bes: seq<Be>, rank: map<string, nat>, top: nat, view: View, be: Be)
    requires Fit(bes, rank, top) && be in bes
    ensures Siblings(bes, view, KidsOf(bes, view, be), Some(be))
  {
    hide SortByName, KidsAmong, Nest;
    KidsWithin(bes, view, be);
    SortedNoDup(KidsAmong(bes, view, be), bes);
    forall c | c in KidsOf(bes, view, be) ensures c in bes && Nest(bes, view, c) == Some(be) {
      KidsRankHigher(bes, rank, top, view, be, c);
    }
  }

  lemma KidListed(bes: seq<Be>, view: View, be: Be, x: Be)
    requires DistinctDatasets(bes) && be in bes && x in bes && Nest(bes, view, x) == Some(be)
    ensures x in KidsOf(bes, view, be)
  {
    KidIsNested(bes, view, be, x);
    KidsAre(bes, view, be, x);
    SortMembers(KidsAmong(bes, view, be), x);
  }

  /** Below `be`, what is under it is under exactly the child on the way. */
  lemma {:induction false} ChildOnTheWay(bes: seq<Be>, rank: map<string, nat>, view: View, be: Be, x: Be)
    returns (j: nat)
    requires DistinctDatasets(bes) && Graded(bes, rank) && be in bes && x in bes && x != be &&
      Under(bes, rank, view, be, x)
    ensures j < |KidsOf(bes, view, be)| && Under(bes, rank, view, KidsOf(bes, view, be)[j], x)
    decreases RankOf(bes, rank, x)
  {
    hide KidsOf;
    UpFacts(bes, rank, x);
    var p := Nest(bes, view, x).value;
    if p == be {
      KidListed(bes, view, be, x);
      j :| 0 <= j < |KidsOf(bes, view, be)| && KidsOf(bes, view, be)[j] == x;
    } else {
      j := ChildOnTheWay(bes, rank, view, be, p);
    }
  }

  lemma {:induction false} UnderNest(bes: seq<Be>, rank: map<string, nat>, view: View, be: Be, c: Be, x: Be)
    requires Graded(bes, rank) && be in bes && c in bes && x in bes && Nest(bes, view, c) == Some(be) &&
      Under(bes, rank, view, c, x)
    ensures Under(bes, rank, view, be, x) && x != be
    decreases RankOf(bes, rank, x)
  {
    UpFacts(bes, rank, x);
    UnderRank(bes, rank, view, c, x);
    UpFacts(bes, rank, c);
    if x != c {
      UnderNest(bes, rank, view, be, c, Nest(bes, view, x).value);
    }
  }

  lemma UnderKids(bes: seq<Be>, rank: map<string, nat>, top: nat, view: View, be: Be, x: Be)
    requires Fit(bes, rank, top) && be in bes && x in bes
    ensures SomeUnder(bes, rank, view, KidsOf(bes, view, be), |KidsOf(bes, view, be)|, x) <==>
      Under(bes, rank, view, be, x) && x != be
  {
    hide KidsOf, Nest, Under;
    var kids := KidsOf(bes, view, be);
    KidsAreSiblings(bes, rank, top, view, be);
    if SomeUnder(bes, rank, view, kids, |kids|, x) {
      var j :| 0 <= j < |kids| && Under(bes, rank, view, kids[j], x);
      UnderNest(bes, rank, view, be, kids[j], x);
    } else if Under(bes, rank, view, be, x) && x != be {
      var j := ChildOnTheWay(bes, rank, view, be, x);
      assert false;
    }
  }

  lemma CountNone(x: Be)
    ensures Count([], x) == 0
  {}

  lemma {:induction false} WalkSomeCount(bes: seq<Be>, rank: map<string, nat>, top: nat, view: View, list: seq<Be>,
                                         k: nat, indent: string, floor: int, nest: Option<Be>, x: Be)
    requires Fit(bes, rank, top) && Above(bes, rank, list, floor) && k <= |list| && floor <= top
    requires Siblings(bes, view, list, nest) && x in bes
    ensures Count(WalkSome(bes, rank, top, view, list, k, indent, floor), x) ==
      if SomeUnder(bes, rank, view, list, k, x) then 1 else 0
    decreases top - floor, 0, k
  {
    hide Walk, Under, Count, Nest, NoDup;
    if k == 0 {
      assert Count([], x) == 0 by { CountNone(x); }
    } else {
      var c := list[k - 1];
      WalkSomeCount(bes, rank, top, view, list, k - 1, indent, floor, nest, x);
      WalkCount(bes, rank, top, view, c, indent, k == |list|, x);
      CountConcat(WalkSome(bes, rank, top, view, list, k - 1, indent, floor),
        Walk(bes, rank, top, view, c, indent, k == |list|), x);
      if Under(bes, rank, view, c, x) && SomeUnder(bes, rank, view, list, k - 1, x) {
        var j :| 0 <= j < k - 1 && Under(bes, rank, view, list[j], x);
        DifferentAt(list, j, k - 1);
        SiblingsApart(bes, rank, view, list[j], c, x);
      }
    }
  }

  /** A node's rows list exactly what is under it, each once. */
  lemma {:induction false} WalkCount(bes: seq<Be>, rank: map<string, nat>, top: nat, view: View, be: Be,
                                     indent: string, last: bool, x: Be)
    requires Fit(bes, rank, top) && be in bes && x in bes
    ensures Count(Walk(bes, rank, top, view, be, indent, last), x) == if Under(bes, rank, view, be, x) then 1 else 0
    decreases Height(bes, rank, top, be), 1, 0
  {
    hide KidsOf, Nest, Above, Count, WalkSome;
    var kids := KidsOf(bes, view, be);
    KidsAbove(bes, rank, top, view, be);
    KidsAreSiblings(bes, rank, top, view, be);
    var below := WalkSome(bes, rank, top, view, kids, |kids|, indent + Stem(last), RankOf(bes, rank, be));
    var row := Node(be, indent + Connector(last));
    CountConcat([row], below, x);
    CountOne(row, x);
    WalkSomeCount(bes, rank, top, view, kids, |kids|, indent + Stem(last), RankOf(bes, rank, be), Some(be), x);
    UnderKids(bes, rank, top, view, be, x);
    assert x == be ==> Under(bes, rank, view, be, x);
  }

  /** The node the renderer starts from on the way to `x`. */
  ghost function TopOf(bes: seq<Be>, rank: map<string, nat>, view: View, x: Be): Be
    requires Graded(bes, rank) && x in bes
    decreases RankOf(bes, rank, x)
  {
    if Nest(bes, view, x).None? then x else (UpFacts(bes, rank, x); TopOf(bes, rank, view, Nest(bes, view, x).value))
  }

  lemma {:induction false} TopOfFacts(bes: seq<Be>, rank: map<string, nat>, view: View, x: Be, t: Be)
    requires Graded(bes, rank) && x in bes
    ensures TopOf(bes, rank, view, x) in bes && Nest(bes, view, TopOf(bes, rank, view, x)).None?
    ensures t in bes && Nest(bes, view, t).None? ==> (Under(bes, rank, view, t, x) <==> t == TopOf(bes, rank, view, x))
    decreases RankOf(bes, rank, x)
  {
    if Nest(bes, view, x).Some? {
      UpFacts(bes, rank, x);
      TopOfFacts(bes, rank, view, Nest(bes, view, x).value, t);
    }
  }

  lemma TopsAreSiblings(bes: seq<Be>, view: View, pool: string)
    requires DistinctDatasets(bes)
    ensures Siblings(bes, view, TopsOf(bes, view, pool), None)
    ensures forall c :: c in TopsOf(bes, view, pool) <==> c in bes && c.pool == pool && Nest(bes, view, c).None?
  {
    hide SortByName, TopsAmong, Nest, IsTop;
    TopsWithin(bes, bes, view, pool);
    SortedNoDup(TopsAmong(bes, bes, view, pool), bes);
    forall c ensures c in TopsOf(bes, view, pool) <==> c in bes && c.pool == pool && Nest(bes, view, c).None? {
      SortMembers(TopsAmong(bes, bes, view, pool), c);
      TopsAre(bes, bes, view, pool, c);
      TopHasNoNest(bes, view, c);
    }
  }

  /** A pool's section lists exactly what is nested under a top of that pool. */
  lemma PoolCount(bes: seq<Be>, rank: map<string, nat>, top: nat, view: View, pool: string, x: Be)
    requires Fit(bes, rank, top) && x in bes
    ensures Count(PoolRows(bes, rank, top, view, pool), x) == if TopOf(bes, rank, view, x).pool == pool then 1 else 0
  {
    hide Walk, WalkSome, Under, Count, Nest, NoDup, TopsOf, TopOf;
    var tops := TopsOf(bes, view, pool);
    TopsAbove(bes, rank, view, pool);
    TopsAreSiblings(bes, view, pool);
    WalkSomeCount(bes, rank, top, view, tops, |tops|, Margin(view), -1, None, x);
    CountConcat([Header(pool)], WalkSome(bes, rank, top, view, tops, |tops|, Margin(view), -1), x);
    CountOne(Header(pool), x);
    var t := TopOf(bes, rank, view, x);
    TopOfFacts(bes, rank, view, x, t);
    forall c | c in tops ensures Under(bes, rank, view, c, x) <==> c == t {
      TopOfFacts(bes, rank, view, x, c);
    }
    if t.pool == pool {
      var j :| 0 <= j < |tops| && tops[j] == t;
      assert SomeUnder(bes, rank, view, tops, |tops|, x);
    }
  }

  lemma {:induction false} AllCount(bes: seq<Be>, rank: map<string, nat>, top: nat, view: View, pools: seq<string>,
                                    x: Be)
    requires Fit(bes, rank, top) && x in bes
    requires forall i, j :: 0 <= i < j < |pools| ==> pools[i] != pools[j]
    ensures Count(AllRows(bes, rank, top, view, pools), x) == if TopOf(bes, rank, view, x).pool in pools then 1 else 0
  {
    hide PoolRows, Count, TopOf, Fit;
    if pools == [] {
      CountNone(x);
    } else {
      var init, last := pools[..|pools| - 1], pools[|pools| - 1];
      assert pools == init + [last];
      AllCount(bes, rank, top, view, init, x);
      PoolCount(bes, rank, top, view, last, x);
      CountConcat(AllRows(bes, rank, top, view, init), PoolRows(bes, rank, top, view, last), x);
    }
  }

  predicate StrictlySorted(pools: seq<string>) {
    forall i :: 0 < i < |pools| ==> NameLess(pools[i - 1], pools[i])
  }

  lemma {:induction false} InsertPoolFacts(pools: seq<string>, p: string)
    requires StrictlySorted(pools)
    ensures StrictlySorted(InsertPool(pools, p))
    ensures forall q :: q in InsertPool(pools, p) <==> q in pools || q == p
    ensures var r := InsertPool(pools, p);
      r != [] && (r[|r| - 1] == p || (pools != [] && r[|r| - 1] == pools[|pools| - 1]))
  {
    if pools != [] {
      var init, last := pools[..|pools| - 1], pools[|pools| - 1];
      assert pools == init + [last];
      InsertPoolFacts(init, p);
      if p != last && !NameLess(p, last) {
        NameLessTotal(p, last);
      }
    }
  }

  lemma {:induction false} StrictlySortedApart(pools: seq<string>, i: nat, j: nat)
    requires StrictlySorted(pools) && i < j < |pools|
    ensures NameLess(pools[i], pools[j]) && pools[i] != pools[j]
  {
    if i + 1 < j {
      StrictlySortedApart(pools, i, j - 1);
      NameLessTransitive(pools[i], pools[j - 1], pools[j]);
    }
    NameLessAsymmetric(pools[i], pools[j]);
  }

  lemma SortedNone()
    ensures StrictlySorted([])
  {}

  lemma {:induction false} PoolsFacts(bes: seq<Be>)
    ensures StrictlySorted(PoolsOf(bes))
    ensures forall p :: p in PoolsOf(bes) <==> exists be :: be in bes && be.pool == p
  {
    hide InsertPool, StrictlySorted;
    if bes == [] {
      SortedNone();
    } else {
      var init, last := bes[..|bes| - 1], bes[|bes| - 1];
      PoolsFacts(init);
      InsertPoolFacts(PoolsOf(init), last.pool);
      assert bes == init + [last] && last in bes;
      assert forall be :: be in init ==> be in bes;
      assert forall be :: be in bes ==> be in init || be == last;
    }
  }

  /** Both renderings list every boot environment exactly once. */
  lemma ListedExactlyOnce(bes: seq<Be>, rank: map<string, nat>, top: nat, view: View, x: Be)
    requires Fit(bes, rank, top) && x in bes
    ensures Count(AllRows(bes, rank, top, view, PoolsOf(bes)), x) == 1
  {
    hide AllRows, Count, TopOf, StrictlySorted;
    var pools := PoolsOf(bes);
    PoolsFacts(bes);
    forall i, j | 0 <= i < j < |pools| ensures pools[i] != pools[j] {
      StrictlySortedApart(pools, i, j);
    }
    TopOfFacts(bes, rank, view, x, x);
    AllCount(bes, rank, top, view, pools, x);
  }

  // -------------------------------------------------------------------------
  // Subtrees and prefixes
  // -------------------------------------------------------------------------

  /** `rows` holds the rows of `x`'s subtree in one piece. */
  ghost predicate Embeds(bes: seq<Be>, rank: map<string, nat>, top: nat, view: View, rows: seq<Row>, x: Be)
    requires Fit(bes, rank, top) && x in bes
  {
    exists before, indent, last, after :: rows == before + Walk(bes, rank, top, view, x, indent, last) + after
  }

  lemma EmbedsBetween(bes: seq<Be>, rank: map<string, nat>, top: nat, view: View, l: seq<Row>, rows: seq<Row>,
                      r: seq<Row>, x: Be)
    requires Fit(bes, rank, top) && x in bes && Embeds(bes, rank, top, view, rows, x)
    ensures Embeds(bes, rank, top, view, l + rows + r, x)
  {
    hide Walk, Fit;
    var before, indent, last, after :| rows == before + Walk(bes, rank, top, view, x, indent, last) + after;
    assert l + rows + r == (l + before) + Walk(bes, rank, top, view, x, indent, last) + (after + r);
  }

  lemma EmbedsItself(bes: seq<Be>, rank: map<string, nat>, top: nat, view: View, x: Be, indent: string, last: bool)
    requires Fit(bes, rank, top) && x in bes
    ensures Embeds(bes, rank, top, view, Walk(bes, rank, top, view, x, indent, last), x)
  {
    hide Walk, Fit;
    var w := Walk(bes, rank, top, view, x, indent, last);
    assert w == [] + w + [];
  }

  lemma {:induction false} SomeEmbeds(bes: seq<Be>, rank: map<string, nat>, top: nat, view: View, list: seq<Be>, k: nat,
                                      indent: string, floor: int, x: Be)
    requires Fit(bes, rank, top) && Above(bes, rank, list, floor) && k <= |list| && floor <= top
    requires x in bes && SomeUnder(bes, rank, view, list, k, x)
    ensures Embeds(bes, rank, top, view, WalkSome(bes, rank, top, view, list, k, indent, floor), x)
    decreases top - floor, 0, k
  {
    hide Walk, Under, Embeds, Nest;
    var c := list[k - 1];
    var before, rows := WalkSome(bes, rank, top, view, list, k - 1, indent, floor),
      Walk(bes, rank, top, view, c, indent, k == |list|);
    if Under(bes, rank, view, c, x) {
      WalkEmbeds(bes, rank, top, view, c, indent, k == |list|, x);
      EmbedsBetween(bes, rank, top, view, before, rows, [], x);
      assert before + rows + [] == before + rows;
    } else {
      var j :| 0 <= j < k && Under(bes, rank, view, list[j], x);
      assert j < k - 1;
      SomeEmbeds(bes, rank, top, view, list, k - 1, indent, floor, x);
      EmbedsBetween(bes, rank, top, view, [], before, rows, x);
      assert [] + before + rows == before + rows;
    }
  }

  lemma {:induction false} WalkEmbeds(bes: seq<Be>, rank: map<string, nat>, top: nat, view: View, be: Be,
                                      indent: string, last: bool, x: Be)
    requires Fit(bes, rank, top) && be in bes && x in bes && Under(bes, rank, view, be, x)
    ensures Embeds(bes, rank, top, view, Walk(bes, rank, top, view, be, indent, last), x)
    decreases Height(bes, rank, top, be), 1, 0
  {
    hide KidsOf, Nest, Above, WalkSome, Embeds;
    if x == be {
      EmbedsItself(bes, rank, top, view, x, indent, last);
    } else {
      var kids := KidsOf(bes, view, be);
      KidsAbove(bes, rank, top, view, be);
      UnderKids(bes, rank, top, view, be, x);
      SomeEmbeds(bes, rank, top, view, kids, |kids|, indent + Stem(last), RankOf(bes, rank, be), x);
      var below := WalkSome(bes, rank, top, view, kids, |kids|, indent + Stem(last), RankOf(bes, rank, be));
      var row := [Node(be, indent + Connector(last))];
      EmbedsBetween(bes, rank, top, view, row, below, [], x);
      assert row + below + [] == row + below;
    }
  }

  /** How many nodes `x` is nested under. */
  ghost function Depth(bes: seq<Be>, rank: map<string, nat>, view: View, x: Be): nat
    requires Graded(bes, rank) && x in bes
    decreases RankOf(bes, rank, x)
  {
    if Nest(bes, view, x).None? then 0 else
      (UpFacts(bes, rank, x); 1 + Depth(bes, rank, view, Nest(bes, view, x).value))
  }

  /** The siblings a node is listed with, in their order. */
  ghost function SiblingsOf(bes: seq<Be>, view: View, x: Be): seq<Be> {
    match Nest(bes, view, x)
    case Some(p) => KidsOf(bes, view, p)
    case None => TopsOf(bes, view, x.pool)
  }

  ghost predicate IsLast(bes: seq<Be>, view: View, x: Be) {
    var list := SiblingsOf(bes, view, x);
    list != [] && list[|list| - 1] == x
  }

  /**
   * What comes before a node's connector: the margin, and for every node around it a stem if that has siblings below.
   */
  ghost function Lead(bes: seq<Be>, rank: map<string, nat>, view: View, x: Be): string
    requires Graded(bes, rank) && x in bes
    decreases RankOf(bes, rank, x)
  {
    if Nest(bes, view, x).None? then if view.Menu? then "  " else "    "
    else
      UpFacts(bes, rank, x);
      var p := Nest(bes, view, x).value;
      Lead(bes, rank, view, p) + if IsLast(bes, view, p) then "    " else "\U{2502}   "
  }

  lemma {:induction false} LeadWidth(bes: seq<Be>, rank: map<string, nat>, view: View, x: Be)
    requires Graded(bes, rank) && x in bes
    ensures |Lead(bes, rank, view, x)| == (if view.Menu? then 2 else 4) + 4 * Depth(bes, rank, view, x)
    decreases RankOf(bes, rank, x)
  {
    if Nest(bes, view, x).Some? {
      UpFacts(bes, rank, x);
      LeadWidth(bes, rank, view, Nest(bes, view, x).value);
    }
  }

  /** A row as it should be: the lead of its boot environment, then the connector of a last sibling or of another. */
  ghost predicate Fitting(bes: seq<Be>, rank: map<string, nat>, view: View, r: Row)
    requires Graded(bes, rank)
  {
    && r.Node? && r.be in bes
    && r.prefix == Lead(bes, rank, view, r.be) +
         if IsLast(bes, view, r.be) then "\U{2514}\U{2500}\U{2500} " else "\U{251C}\U{2500}\U{2500} "
  }

  /** A whole list of siblings, with the lead they share. */
  ghost predicate Together(bes: seq<Be>, rank: map<string, nat>, view: View, list: seq<Be>, indent: string)
    requires Graded(bes, rank)
  {
    NoDup(list) && forall c :: c in list ==>
      c in bes && SiblingsOf(bes, view, c) == list && Lead(bes, rank, view, c) == indent
  }

  lemma KidsTogether(bes: seq<Be>, rank: map<string, nat>, top: nat, view: View, be: Be)
    requires Fit(bes, rank, top) && be in bes
    ensures Together(bes, rank, view, KidsOf(bes, view, be),
                     Lead(bes, rank, view, be) + if IsLast(bes, view, be) then "    " else "\U{2502}   ")
  {
    hide KidsOf, IsLast, NoDup;
    KidsAreSiblings(bes, rank, top, view, be);
    forall c | c in KidsOf(bes, view, be)
      ensures SiblingsOf(bes, view, c) == KidsOf(bes, view, be) && c in bes && Lead(bes, rank, view, c) ==
        Lead(bes, rank, view, be) + if IsLast(bes, view, be) then "    " else "\U{2502}   "
    {
      UpFacts(bes, rank, c);
    }
  }

  lemma TopsTogether(bes: seq<Be>, rank: map<string, nat>, view: View, pool: string)
    requires DistinctDatasets(bes) && Graded(bes, rank)
    ensures Together(bes, rank, view, TopsOf(bes, view, pool), if view.Menu? then "  " else "    ")
  {
    hide TopsOf, Nest, NoDup;
    TopsAreSiblings(bes, view, pool);
  }

  lemma LastOfList(bes: seq<Be>, rank: map<string, nat>, view: View, list: seq<Be>, indent: string, k: nat)
    requires Graded(bes, rank) && Together(bes, rank, view, list, indent) && k < |list|
    ensures IsLast(bes, view, list[k]) <==> k == |list| - 1
  {
    hide SiblingsOf, NoDup, Lead;
    assert list[k] in list;
    if k < |list| - 1 {
      DifferentAt(list, k, |list| - 1);
    }
  }

  lemma {:induction false} SomePrefixes(bes: seq<Be>, rank: map<string, nat>, top: nat, view: View, list: seq<Be>,
                                        k: nat, indent: string, floor: int)
    requires Fit(bes, rank, top) && Above(bes, rank, list, floor) && k <= |list| && floor <= top
    requires Together(bes, rank, view, list, indent)
    ensures forall r :: r in WalkSome(bes, rank, top, view, list, k, indent, floor) ==> Fitting(bes, rank, view, r)
    decreases top - floor, 0, k
  {
    hide Walk, Lead, IsLast, Fitting, SiblingsOf, NoDup;
    if k > 0 {
      SomePrefixes(bes, rank, top, view, list, k - 1, indent, floor);
      LastOfList(bes, rank, view, list, indent, k - 1);
      WalkPrefixes(bes, rank, top, view, list[k - 1], indent, k == |list|);
    }
  }

  lemma {:induction false} WalkPrefixes(bes: seq<Be>, rank: map<string, nat>, top: nat, view: View, be: Be,
                                        indent: string, last: bool)
    requires Fit(bes, rank, top) && be in bes && indent == Lead(bes, rank, view, be) && last == IsLast(bes, view, be)
    ensures forall r :: r in Walk(bes, rank, top, view, be, indent, last) ==> Fitting(bes, rank, view, r)
    decreases Height(bes, rank, top, be), 1, 0
  {
    hide KidsOf, Nest, Above, WalkSome, Lead, IsLast, Together;
    KidsAbove(bes, rank, top, view, be);
    KidsTogether(bes, rank, top, view, be);
    var kids := KidsOf(bes, view, be);
    SomePrefixes(bes, rank, top, view, kids, |kids|, indent + Stem(last), RankOf(bes, rank, be));
  }

  /** A pool's section is its header and then nothing but such rows. */
  lemma PoolPrefixes(bes: seq<Be>, rank: map<string, nat>, top: nat, view: View, pool: string) returns (nodes: seq<Row>)
    requires Fit(bes, rank, top)
    ensures PoolRows(bes, rank, top, view, pool) == [Header(pool)] + nodes
    ensures forall r :: r in nodes ==> Fitting(bes, rank, view, r)
  {
    hide Walk, WalkSome, TopsOf, Fitting, Together, Above;
    var tops := TopsOf(bes, view, pool);
    TopsAbove(bes, rank, view, pool);
    TopsTogether(bes, rank, view, pool);
    SomePrefixes(bes, rank, top, view, tops, |tops|, Margin(view), -1);
    nodes := WalkSome(bes, rank, top, view, tops, |tops|, Margin(view), -1);
  }

  lemma {:induction false} AllPrefixes(bes: seq<Be>, rank: map<string, nat>, top: nat, view: View, pools: seq<string>)
    requires Fit(bes, rank, top)
    ensures forall r :: r in AllRows(bes, rank, top, view, pools) ==> r.Header? || Fitting(bes, rank, view, r)
  {
    hide PoolRows, Fitting;
    if pools != [] {
      AllPrefixes(bes, rank, top, view, pools[..|pools| - 1]);
      var nodes := PoolPrefixes(bes, rank, top, view, pools[|pools| - 1]);
    }
  }

  // -------------------------------------------------------------------------
  // Headers
  // -------------------------------------------------------------------------

  /** The pools named by the headers, in order. */
  function HeadersOf(rows: seq<Row>): seq<string> {
    if rows == [] then []
    else
      var init, last := rows[..|rows| - 1], rows[|rows| - 1];
      if last.Header? then HeadersOf(init) + [last.pool] else HeadersOf(init)
  }

  lemma {:induction false} NodesHaveNoHeader(rows: seq<Row>, nodes: seq<Row>)
    requires forall r :: r in nodes ==> r.Node?
    ensures HeadersOf(rows + nodes) == HeadersOf(rows)
  {
    if nodes == [] {
      assert rows + nodes == rows;
    } else {
      assert (rows + nodes)[..|rows + nodes| - 1] == rows + nodes[..|nodes| - 1];
      assert (rows + nodes)[|rows + nodes| - 1] == nodes[|nodes| - 1] && nodes[|nodes| - 1] in nodes;
      NodesHaveNoHeader(rows, nodes[..|nodes| - 1]);
    }
  }

  ghost predicate HeadedAt(bes: seq<Be>, rank: map<string, nat>, view: View, rows: seq<Row>, i: nat)
    requires Graded(bes, rank) && i < |rows| && rows[i].Node?
  {
    var hs := HeadersOf(rows[..i]);
    hs != [] && rows[i].be in bes && hs[|hs| - 1] == TopOf(bes, rank, view, rows[i].be).pool
  }

  /** Every node comes under the header of the pool its tree starts in. */
  ghost predicate Headed(bes: seq<Be>, rank: map<string, nat>, view: View, rows: seq<Row>)
    requires Graded(bes, rank)
  {
    forall i :: 0 <= i < |rows| && rows[i].Node? ==> HeadedAt(bes, rank, view, rows, i)
  }

  lemma {:induction false} CountListed(rows: seq<Row>, i: nat)
    requires i < |rows| && rows[i].Node?
    ensures Count(rows, rows[i].be) >= 1
  {
    if i < |rows| - 1 {
      CountListed(rows[..|rows| - 1], i);
    }
  }

  lemma NodeHeaded(bes: seq<Be>, rank: map<string, nat>, top: nat, view: View, head: seq<Row>, pool: string,
                   nodes: seq<Row>, j: nat)
    requires Fit(bes, rank, top) && j < |nodes| && PoolRows(bes, rank, top, view, pool) == [Header(pool)] + nodes
    requires (forall r :: r in nodes ==> Fitting(bes, rank, view, r)) && HeadersOf(head) != []
    requires HeadersOf(head)[|HeadersOf(head)| - 1] == pool
    ensures nodes[j].Node? && HeadedAt(bes, rank, view, head + nodes, |head| + j)
  {
    hide PoolRows, TopOf, Count, Lead, IsLast, HeadersOf, Graded;
    var section := PoolRows(bes, rank, top, view, pool);
    assert nodes[j] in nodes && Fitting(bes, rank, view, nodes[j]);
    assert forall r :: r in nodes[..j] ==> r in nodes;
    NodesHaveNoHeader(head, nodes[..j]);
    assert (head + nodes)[..|head| + j] == head + nodes[..j] && section[j + 1] == nodes[j];
    CountListed(section, j + 1);
    PoolCount(bes, rank, top, view, pool, nodes[j].be);
  }

  lemma HeaderAdded(rows: seq<Row>, pool: string)
    ensures HeadersOf(rows + [Header(pool)]) == HeadersOf(rows) + [pool]
  {
    assert (rows + [Header(pool)])[..|rows|] == rows;
  }

  lemma FittingIsNode(bes: seq<Be>, rank: map<string, nat>, view: View, nodes: seq<Row>)
    requires Graded(bes, rank) && forall r :: r in nodes ==> Fitting(bes, rank, view, r)
    ensures forall r :: r in nodes ==> r.Node?
  {}

  lemma HeadedEarlier(bes: seq<Be>, rank: map<string, nat>, view: View, before: seq<Row>, rows: seq<Row>, i: nat)
    requires Graded(bes, rank) && i < |before| && before <= rows && before[i].Node? &&
      HeadedAt(bes, rank, view, before, i)
    ensures HeadedAt(bes, rank, view, rows, i)
  {
    hide HeadersOf, TopOf;
    assert rows[..i] == before[..i];
  }

  lemma SectionHeaded(bes: seq<Be>, rank: map<string, nat>, top: nat, view: View, before: seq<Row>, pool: string)
    requires Fit(bes, rank, top) && Headed(bes, rank, view, before)
    ensures var rows := before + PoolRows(bes, rank, top, view, pool);
      Headed(bes, rank, view, rows) && HeadersOf(rows) == HeadersOf(before) + [pool]
  {
    hide PoolRows, HeadersOf, HeadedAt, Fitting;
    var nodes := PoolPrefixes(bes, rank, top, view, pool);
    var head := before + [Header(pool)];
    var rows := before + PoolRows(bes, rank, top, view, pool);
    assert rows == head + nodes;
    HeaderAdded(before, pool);
    FittingIsNode(bes, rank, view, nodes);
    NodesHaveNoHeader(head, nodes);
    forall i | 0 <= i < |rows| && rows[i].Node? ensures HeadedAt(bes, rank, view, rows, i) {
      if i < |before| {
        assert before[i].Node? && HeadedAt(bes, rank, view, before, i);
        HeadedEarlier(bes, rank, view, before, rows, i);
      } else {
        NodeHeaded(bes, rank, top, view, head, pool, nodes, i - |head|);
      }
    }
  }

  lemma NoRowsHeaded(bes: seq<Be>, rank: map<string, nat>, view: View)
    requires Graded(bes, rank)
    ensures Headed(bes, rank, view, []) && HeadersOf([]) == []
  {}

  lemma {:induction false} AllHeaded(bes: seq<Be>, rank: map<string, nat>, top: nat, view: View, pools: seq<string>)
    requires Fit(bes, rank, top)
    ensures Headed(bes, rank, view, AllRows(bes, rank, top, view, pools))
    ensures HeadersOf(AllRows(bes, rank, top, view, pools)) == pools
  {
    hide PoolRows, Headed, HeadersOf;
    if pools == [] {
      NoRowsHeaded(bes, rank, view);
    } else {
      var init, last := pools[..|pools| - 1], pools[|pools| - 1];
      AllHeaded(bes, rank, top, view, init);
      SectionHeaded(bes, rank, top, view, AllRows(bes, rank, top, view, init), last);
      assert pools == init + [last];
    }
  }

  /** What nests under what: the origin's own boot environment, in the menu only within the pool. */
  lemma NestIs(bes: seq<Be>, view: View, be: Be, p: Be)
    requires DistinctDatasets(bes)
    ensures Nest(bes, view, be) == Some(p) <==>
      p in bes && be.origin.Some? && be.origin.value.dataset == p.dataset && (view.Menu? ==> p.pool == be.pool)
  {
    if be.origin.Some? {
      LookupFinds(bes, be.origin.value.dataset);
      if p in bes {
        LookupIs(bes, p);
      }
    }
  }

  lemma {:induction false} MenuTopIsLocal(bes: seq<Be>, rank: map<string, nat>, x: Be)
    requires Graded(bes, rank) && x in bes
    ensures TopOf(bes, rank, Menu, x).pool == x.pool
    decreases RankOf(bes, rank, x)
  {
    if Nest(bes, Menu, x).Some? {
      UpFacts(bes, rank, x);
      MenuTopIsLocal(bes, rank, Nest(bes, Menu, x).value);
    }
  }

  /** One header for each pool that holds a boot environment, in name order, and every node under its own. */
  lemma SectionsByPool(bes: seq<Be>, rank: map<string, nat>, top: nat, view: View)
    requires Fit(bes, rank, top)
    ensures var rows := AllRows(bes, rank, top, view, PoolsOf(bes)); var pools := HeadersOf(rows);
      && StrictlySorted(pools) && (forall p :: p in pools <==> exists be :: be in bes && be.pool == p)
      && Headed(bes, rank, view, rows)
    ensures view.Menu? ==> forall be :: be in bes ==> TopOf(bes, rank, view, be).pool == be.pool
  {
    hide AllRows, Headed, HeadersOf, StrictlySorted, PoolsOf, TopOf;
    AllHeaded(bes, rank, top, view, PoolsOf(bes));
    if view.Menu? {
      forall be | be in bes ensures TopOf(bes, rank, view, be).pool == be.pool {
        MenuTopIsLocal(bes, rank, be);
      }
    }
    PoolsFacts(bes);
  }

  lemma PoolEmbeds(bes: seq<Be>, rank: map<string, nat>, top: nat, view: View, x: Be)
    requires Fit(bes, rank, top) && x in bes
    ensures Embeds(bes, rank, top, view, PoolRows(bes, rank, top, view, TopOf(bes, rank, view, x).pool), x)
  {
    hide Walk, WalkSome, Under, Embeds, Nest, TopsOf, TopOf, NoDup;
    var t := TopOf(bes, rank, view, x);
    var tops := TopsOf(bes, view, t.pool);
    TopsAbove(bes, rank, view, t.pool);
    TopsAreSiblings(bes, view, t.pool);
    TopOfFacts(bes, rank, view, x, t);
    var j :| 0 <= j < |tops| && tops[j] == t;
    assert Under(bes, rank, view, tops[j], x);
    SomeEmbeds(bes, rank, top, view, tops, |tops|, Margin(view), -1, x);
    var rows := WalkSome(bes, rank, top, view, tops, |tops|, Margin(view), -1);
    EmbedsBetween(bes, rank, top, view, [Header(t.pool)], rows, [], x);
    assert [Header(t.pool)] + rows + [] == [Header(t.pool)] + rows;
  }

  lemma {:induction false} AllEmbeds(bes: seq<Be>, rank: map<string, nat>, top: nat, view: View, pools: seq<string>,
                                     x: Be)
    requires Fit(bes, rank, top) && x in bes && TopOf(bes, rank, view, x).pool in pools
    ensures Embeds(bes, rank, top, view, AllRows(bes, rank, top, view, pools), x)
  {
    hide PoolRows, Embeds, TopOf;
    var init, last := pools[..|pools| - 1], pools[|pools| - 1];
    assert pools == init + [last];
    var before, rows := AllRows(bes, rank, top, view, init), PoolRows(bes, rank, top, view, last);
    if TopOf(bes, rank, view, x).pool == last {
      PoolEmbeds(bes, rank, top, view, x);
      EmbedsBetween(bes, rank, top, view, before, rows, [], x);
      assert before + rows + [] == before + rows;
    } else {
      AllEmbeds(bes, rank, top, view, init, x);
      EmbedsBetween(bes, rank, top, view, [], before, rows, x);
      assert [] + before + rows == before + rows;
    }
  }

  /**
   * In both renderings every subtree is one stretch of rows: it starts with the node's own row and, by WalkCount, lists
   * exactly what is nested under the node.
   */
  lemma SubtreesAreContiguous(bes: seq<Be>, rank: map<string, nat>, top: nat, view: View, x: Be)
    requires Fit(bes, rank, top) && x in bes
    ensures Embeds(bes, rank, top, view, AllRows(bes, rank, top, view, PoolsOf(bes)), x)
  {
    hide AllRows, Embeds, TopOf, StrictlySorted;
    PoolsFacts(bes);
    TopOfFacts(bes, rank, view, x, x);
    AllEmbeds(bes, rank, top, view, PoolsOf(bes), x);
  }

  /** Siblings come in name order, and every row is drawn with the stems and the connector its place asks for. */
  lemma SiblingsAndPrefixes(bes: seq<Be>, rank: map<string, nat>, top: nat, view: View, be: Be)
    requires Fit(bes, rank, top)
    ensures SiblingsInOrder(KidsOf(bes, view, be)) && forall pool :: SiblingsInOrder(TopsOf(bes, view, pool))
    ensures forall r :: r in AllRows(bes, rank, top, view, PoolsOf(bes)) ==> r.Header? || Fitting(bes, rank, view, r)
    ensures forall r :: r in AllRows(bes, rank, top, view, PoolsOf(bes)) && r.Node? ==>
      r.be in bes && |r.prefix| == (if view.Menu? then 6 else 8) + 4 * Depth(bes, rank, view, r.be)
  {
    hide SiblingsInOrder, SortByName, AllRows, Lead, Depth, IsLast;
    SortFacts(KidsAmong(bes, view, be));
    forall pool ensures SiblingsInOrder(TopsOf(bes, view, pool)) {
      SortFacts(TopsAmong(bes, bes, view, pool));
    }
    AllPrefixes(bes, rank, top, view, PoolsOf(bes));
    forall r | r in AllRows(bes, rank, top, view, PoolsOf(bes)) && r.Node?
      ensures r.be in bes && |r.prefix| == (if view.Menu? then 6 else 8) + 4 * Depth(bes, rank, view, r.be)
    {
      LeadWidth(bes, rank, view, r.be);
    }
  }
}
