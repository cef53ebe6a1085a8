// Clones and `zfs promote`: origins, histories, and what a promotion moves.

module Clones {
  import opened Text
  import opened Snapshots
  import opened World

  predicate HasSnapshot(s: State, o: SnapshotRef) {
    o.dataset in s.snaps && o.name in Names(s.snaps[o.dataset])
  }

  /** Every clone's origin is a snapshot that exists. */
  ghost predicate Grounded(s: State) {
    forall d :: d in s.origin ==> d in s.snaps && HasSnapshot(s, s.origin[d])
  }

  /** Origins form no cycle: every clone ranks above its origin. */
  ghost predicate Ranked(s: State, rank: map<string, nat>) {
    && s.snaps.Keys <= rank.Keys
    && forall d :: d in s.origin ==>
         d in s.snaps && s.origin[d].dataset in s.snaps && rank[s.origin[d].dataset] < rank[d]
  }

  /** The direct clones of a dataset's snapshots. */
  function ClonesOf(s: State, target: string): set<string> {
    set d | d in s.origin && s.origin[d].dataset == target
  }

  /** The snapshots a clone of `o` starts from, up to and including `o`. */
  function UpTo(s: State, o: SnapshotRef): seq<Snap>
    requires HasSnapshot(s, o)
  {
    s.snaps[o.dataset][..FindName(s.snaps[o.dataset], o.name) + 1]
  }

  /** What a promotion of `c` moves along with its origin: every snapshot of the old parent up to it. */
  predicate Moves(s: State, c: string, o: SnapshotRef)
    requires c in s.origin && HasSnapshot(s, s.origin[c])
  {
    var from := s.origin[c];
    o.dataset == from.dataset && FindName(s.snaps[from.dataset], o.name) <= FindName(s.snaps[from.dataset], from.name)
  }

  predicate CanPromote(s: State, c: string) {
    && c in s.snaps && c in s.origin && HasSnapshot(s, s.origin[c]) && s.origin[c].dataset != c
    && Names(UpTo(s, s.origin[c])) !! Names(s.snaps[c])
  }

  function NewOrigin(s: State, c: string, d: string): SnapshotRef
    requires CanPromote(s, c)
    requires if d == c then s.origin[c].dataset in s.origin else d in s.origin || d == s.origin[c].dataset
  {
    var parent := s.origin[c].dataset;
    if d == c then s.origin[parent]
    else if d == parent then SnapshotRef(c, s.origin[c].name)
    else if Moves(s, c, s.origin[d]) then SnapshotRef(c, s.origin[d].name)
    else s.origin[d]
  }

  /**
   * `zfs promote c`: the parent's snapshots up to the origin move to `c`, below its own; `c` takes over the parent's
   * origin, the parent becomes a clone of `c`, and so do the other clones of what moved.
   */
  function Promote(s: State, c: string): State
    requires CanPromote(s, c)
  {
    var parent, n := s.origin[c].dataset, FindName(s.snaps[s.origin[c].dataset], s.origin[c].name) + 1;
    var all, clones := s.snaps[parent], s.origin.Keys + {parent} - (if parent in s.origin then {} else {c});
    s.(snaps := s.snaps[parent := all[n..]][c := all[..n] + s.snaps[c]],
       origin := map d | d in clones :: NewOrigin(s, c, d))
  }

  // -------------------------------------------------------------------------
  // Histories
  // -------------------------------------------------------------------------

  /** What `d` has from its origin: the origin dataset's own inheritance, then its snapshots up to the origin. */
  function Inherited(s: State, rank: map<string, nat>, d: string): seq<Snap>
    requires Grounded(s) && Ranked(s, rank) && d in s.snaps
    decreases rank[d]
  {
    if d in s.origin then Inherited(s, rank, s.origin[d].dataset) + UpTo(s, s.origin[d]) else []
  }

  /** A dataset's history: what it inherits, then its own snapshots. */
  function History(s: State, rank: map<string, nat>, d: string): seq<Snap>
    requires Grounded(s) && Ranked(s, rank) && d in s.snaps
  {
    Inherited(s, rank, d) + s.snaps[d]
  }

  type Table = map<string, seq<Snap>>

  ghost predicate InheritsAt(s: State, inh: Table, d: string)
    requires s.snaps.Keys <= inh.Keys && d in s.snaps
  {
    if d in s.origin then
      HasSnapshot(s, s.origin[d]) && inh[d] == inh[s.origin[d].dataset] + UpTo(s, s.origin[d])
    else inh[d] == []
  }

  /** Inheritance by equations: `inh` lists, for every dataset, what it inherits. */
  ghost predicate Inherits(s: State, inh: Table) {
    && s.snaps.Keys <= inh.Keys
    && forall d :: d in s.snaps ==> InheritsAt(s, inh, d)
  }

  /** The equations have one solution, the recursive definition. */
  lemma {:induction false} InheritsIsInherited(s: State, rank: map<string, nat>, inh: Table, d: string)
    requires Grounded(s) && Ranked(s, rank) && Inherits(s, inh) && d in s.snaps
    ensures inh[d] == Inherited(s, rank, d)
    decreases rank[d]
  {
    assert InheritsAt(s, inh, d);
    if d in s.origin {
      InheritsIsInherited(s, rank, inh, s.origin[d].dataset);
    }
  }

  function TableOf(s: State, rank: map<string, nat>): Table
    requires Grounded(s) && Ranked(s, rank)
  {
    map d | d in s.snaps :: Inherited(s, rank, d)
  }

  lemma InheritedSolves(s: State, rank: map<string, nat>)
    requires Grounded(s) && Ranked(s, rank)
    ensures Inherits(s, TableOf(s, rank))
  {
    forall d | d in s.snaps ensures InheritsAt(s, TableOf(s, rank), d) {}
  }

  // -------------------------------------------------------------------------
  // What a promotion keeps
  // -------------------------------------------------------------------------

  /** Afterwards the parent inherits what moved, and the promoted clone only what the parent did. */
  function PromotedTable(s: State, c: string, inh: Table): Table
    requires CanPromote(s, c) && s.snaps.Keys <= inh.Keys
  {
    var parent := s.origin[c].dataset;
    inh[c := inh[parent]][parent := inh[parent] + UpTo(s, s.origin[c])]
  }

  lemma FoundInFirst(a: seq<Snap>, b: seq<Snap>, name: string)
    requires name in Names(a)
    ensures FindName(a + b, name) == FindName(a, name) && name in Names(a + b)
  {
    GuidsConcat(a, b);
    var n, m := FindName(a, name), FindName(a + b, name);
    FirstName(a + b, name, n);
    FirstName(a, name, m);
  }

  lemma FoundInSecond(a: seq<Snap>, b: seq<Snap>, name: string)
    requires name !in Names(a) && name in Names(b)
    ensures FindName(a + b, name) == |a| + FindName(b, name) && name in Names(a + b)
  {
    GuidsConcat(a, b);
    var n, m := FindName(b, name), FindName(a + b, name);
    FirstName(a + b, name, |a| + n);
    if m < |a| {
      GuidAt(a, m);
    } else {
      FirstName(b, name, m - |a|);
    }
  }

  /** The lists after a promotion. */
  lemma PromotedLists(s: State, c: string)
    requires CanPromote(s, c)
    ensures var parent, moved, t := s.origin[c].dataset, UpTo(s, s.origin[c]), Promote(s, c);
      && t.snaps.Keys == s.snaps.Keys && t.snaps[c] == moved + s.snaps[c] && s.snaps[parent] == moved + t.snaps[parent]
      && forall d :: d in s.snaps && d != c && d != parent ==> t.snaps[d] == s.snaps[d]
  {
    hide Names, NewOrigin, Guids;
    TwoParts(s.snaps[s.origin[c].dataset], |UpTo(s, s.origin[c])|);
  }

  lemma MovedName(a: seq<Snap>, b: seq<Snap>, name: string)
    requires name in Names(a + b) && FindName(a + b, name) < |a|
    ensures name in Names(a) && FindName(a, name) == FindName(a + b, name)
  {
    GuidAt(a, FindName(a + b, name));
    FoundInFirst(a, b, name);
  }

  lemma StaysName(a: seq<Snap>, b: seq<Snap>, name: string)
    requires name in Names(a + b) && FindName(a + b, name) >= |a|
    ensures name !in Names(a) && name in Names(b) && FindName(a + b, name) == |a| + FindName(b, name)
  {
    GuidsConcat(a, b);
    if name in Names(a) {
      FoundInFirst(a, b, name);
    } else {
      FoundInSecond(a, b, name);
    }
  }

  lemma EarlierPart(a: seq<Snap>, b: seq<Snap>, c: seq<Snap>, n: nat)
    requires n < |a|
    ensures (a + b)[..n + 1] == a[..n + 1] == (a + c)[..n + 1]
  {}

  lemma LaterPart(inherited: seq<Snap>, a: seq<Snap>, b: seq<Snap>, n: nat)
    requires n < |b|
    ensures inherited + (a + b)[..|a| + n + 1] == inherited + a + b[..n + 1]
  {
    assert (a + b)[..|a| + n + 1] == a + b[..n + 1];
  }

  /** The reference to a snapshot still leads to the same inheritance after the promotion. */
  lemma SameInheritance(s: State, c: string, inh: Table, o: SnapshotRef)
    requires CanPromote(s, c) && s.snaps.Keys <= inh.Keys && HasSnapshot(s, o)
    requires inh[c] == inh[s.origin[c].dataset] + UpTo(s, s.origin[c])
    ensures var t, o1 := Promote(s, c), if Moves(s, c, o) then SnapshotRef(c, o.name) else o;
      HasSnapshot(t, o1) &&
      PromotedTable(s, c, inh)[o1.dataset] + UpTo(t, o1) == inh[o.dataset] + UpTo(s, o)
  {
    hide Names, Promote, FindName;
    var parent, moved, t := s.origin[c].dataset, UpTo(s, s.origin[c]), Promote(s, c);
    PromotedLists(s, c);
    if o.dataset == c {
      FoundInSecond(moved, s.snaps[c], o.name);
      LaterPart(inh[parent], moved, s.snaps[c], FindName(s.snaps[c], o.name));
    } else if Moves(s, c, o) {
      MovedName(moved, t.snaps[parent], o.name);
      FoundInFirst(moved, s.snaps[c], o.name);
      EarlierPart(moved, s.snaps[c], t.snaps[parent], FindName(moved, o.name));
    } else if o.dataset == parent {
      StaysName(moved, t.snaps[parent], o.name);
      LaterPart(inh[parent], moved, t.snaps[parent], FindName(t.snaps[parent], o.name));
    }
  }

  lemma PromotedInheritsAt(s: State, rank: map<string, nat>, c: string, inh: Table, d: string)
    requires Ranked(s, rank) && CanPromote(s, c) && Inherits(s, inh) && d in s.snaps
    ensures InheritsAt(Promote(s, c), PromotedTable(s, c, inh), d)
  {
    hide UpTo, HasSnapshot, Names;
    var parent := s.origin[c].dataset;
    assert InheritsAt(s, inh, c) && InheritsAt(s, inh, d) && InheritsAt(s, inh, parent);
    if d == c {
      if parent in s.origin {
        SameInheritance(s, c, inh, s.origin[parent]);
      }
    } else if d == parent {
      SameInheritance(s, c, inh, s.origin[c]);
    } else if d in s.origin {
      SameInheritance(s, c, inh, s.origin[d]);
    }
  }

  lemma Reassociate(a: seq<Snap>, b: seq<Snap>, c: seq<Snap>)
    ensures a + b + c == a + (b + c)
  {}

  lemma ClonesHistory(s: State, c: string, inh: Table)
    requires CanPromote(s, c) && s.snaps.Keys <= inh.Keys && InheritsAt(s, inh, c)
    ensures var t, inh1, parent := Promote(s, c), PromotedTable(s, c, inh), s.origin[c].dataset;
      && c in t.snaps && parent in t.snaps
      && inh1[c] + t.snaps[c] == inh[c] + s.snaps[c] && inh1[parent] + t.snaps[parent] == inh[parent] + s.snaps[parent]
  {
    hide Names, Promote, UpTo, FindName;
    var parent, moved := s.origin[c].dataset, UpTo(s, s.origin[c]);
    PromotedLists(s, c);
    Reassociate(inh[parent], moved, s.snaps[c]);
    Reassociate(inh[parent], moved, Promote(s, c).snaps[parent]);
  }

  /** A promotion changes no history at all, the parent's included. */
  lemma PromoteKeepsHistories(s: State, rank: map<string, nat>, c: string, inh: Table)
    requires Ranked(s, rank) && CanPromote(s, c) && Inherits(s, inh)
    ensures var t, inh1 := Promote(s, c), PromotedTable(s, c, inh);
      && Inherits(t, inh1) && t.snaps.Keys == s.snaps.Keys
      && forall d :: d in s.snaps ==> inh1[d] + t.snaps[d] == inh[d] + s.snaps[d]
  {
    hide InheritsAt, Names, NewOrigin;
    var t, inh1 := Promote(s, c), PromotedTable(s, c, inh);
    forall d | d in s.snaps ensures InheritsAt(t, inh1, d) {
      PromotedInheritsAt(s, rank, c, inh, d);
    }
    assert InheritsAt(s, inh, c);
    ClonesHistory(s, c, inh);
  }

  /** The origins still form no cycle: the clone goes below its old parent, the parent below its other clones. */
  function PromotedRank(s: State, c: string, rank: map<string, nat>): map<string, nat>
    requires CanPromote(s, c) && s.snaps.Keys <= rank.Keys
  {
    var parent := s.origin[c].dataset;
    (map d | d in rank :: 2 * rank[d])[c := 2 * rank[parent]][parent := 2 * rank[parent] + 1]
  }

  lemma PromoteStaysRanked(s: State, rank: map<string, nat>, c: string)
    requires Ranked(s, rank) && CanPromote(s, c)
    ensures Ranked(Promote(s, c), PromotedRank(s, c, rank))
  {
    hide Names;
  }

  /** Of the parent's clones, the promoted one and those of moved snapshots go; none comes. */
  lemma PromoteShrinksClones(s: State, rank: map<string, nat>, c: string)
    requires Ranked(s, rank) && CanPromote(s, c)
    ensures ClonesOf(Promote(s, c), s.origin[c].dataset) ==
      (set d | d in ClonesOf(s, s.origin[c].dataset) && d != c && !Moves(s, c, s.origin[d]))
  {
    hide Names, FindName;
  }

  // -------------------------------------------------------------------------
  // History tables
  // -------------------------------------------------------------------------

  ghost predicate HistoryVia(s: State, h: Table, inh: Table)
    requires s.snaps.Keys <= h.Keys
  {
    Inherits(s, inh) && forall d :: d in s.snaps ==> h[d] == inh[d] + s.snaps[d]
  }

  /** `h` gives every dataset's history. */
  ghost predicate IsHistory(s: State, h: Table) {
    h.Keys == s.snaps.Keys && exists inh :: HistoryVia(s, h, inh)
  }

  /** Without cycles there is exactly one such table. */
  lemma HistoriesExist(s: State, rank: map<string, nat>)
    requires Grounded(s) && Ranked(s, rank)
    ensures IsHistory(s, map d | d in s.snaps :: History(s, rank, d))
  {
    InheritedSolves(s, rank);
    assert HistoryVia(s, map d | d in s.snaps :: History(s, rank, d), TableOf(s, rank));
  }

  lemma HistoriesUnique(s: State, rank: map<string, nat>, h: Table, d: string)
    requires Grounded(s) && Ranked(s, rank) && IsHistory(s, h) && d in s.snaps
    ensures h[d] == History(s, rank, d)
  {
    var inh :| HistoryVia(s, h, inh);
    InheritsIsInherited(s, rank, inh, d);
  }

  /** A promotion keeps every dataset's history, the old parent's included. */
  lemma PromoteKeepsHistory(s: State, rank: map<string, nat>, c: string, h: Table)
    requires Ranked(s, rank) && CanPromote(s, c) && IsHistory(s, h)
    ensures IsHistory(Promote(s, c), h)
  {
    hide InheritsAt, Promote, CanPromote;
    var inh :| HistoryVia(s, h, inh);
    PromoteKeepsHistories(s, rank, c, inh);
    assert HistoryVia(Promote(s, c), h, PromotedTable(s, c, inh));
  }

  // -------------------------------------------------------------------------
  // Destroying
  // -------------------------------------------------------------------------

  /** `zfs destroy -r`: the dataset's row is gone; `readonly` and the other properties with it. */
  function Destroyed(s: State, d: string): State {
    State(s.snaps - {d}, s.origin - {d}, s.nextGuid, s.readonly - {d}, s.mounted - {d},
          Props(s.props.bes - {d}, s.props.canmount - {d}, s.props.attached - {d}, s.props.mirror - {d},
                s.props.primary - {d}),
          s.pools)
  }

  lemma DestroyedInheritsAt(s: State, target: string, inh: Table, d: string)
    requires ClonesOf(s, target) == {} && Inherits(s, inh) && d in s.snaps && d != target
    ensures InheritsAt(Destroyed(s, target), inh, d)
  {
    hide Names, FindName;
    assert InheritsAt(s, inh, d);
    assert d in s.origin && s.origin[d].dataset == target ==> d in ClonesOf(s, target);
  }

  /** Nothing that survives the destruction of a dataset without clones loses any of its history. */
  lemma DestroyKeepsHistory(s: State, target: string, h: Table)
    requires ClonesOf(s, target) == {} && IsHistory(s, h)
    ensures IsHistory(Destroyed(s, target), h - {target})
  {
    hide InheritsAt;
    var t := Destroyed(s, target);
    var inh :| HistoryVia(s, h, inh);
    forall d | d in t.snaps ensures InheritsAt(t, inh, d) {
      DestroyedInheritsAt(s, target, inh, d);
    }
    assert HistoryVia(t, h - {target}, inh);
  }

  lemma DestroyStaysRanked(s: State, target: string, rank: map<string, nat>)
    requires Ranked(s, rank) && Grounded(s) && ClonesOf(s, target) == {}
    ensures Ranked(Destroyed(s, target), rank) && Grounded(Destroyed(s, target))
  {
    var t := Destroyed(s, target);
    forall d | d in t.origin ensures s.origin[d].dataset != target {
      assert s.origin[d].dataset == target ==> d in ClonesOf(s, target);
    }
  }

  lemma PromoteStaysGrounded(s: State, rank: map<string, nat>, c: string)
    requires Grounded(s) && Ranked(s, rank) && CanPromote(s, c)
    ensures Grounded(Promote(s, c))
  {
    hide Names, UpTo;
    var t := Promote(s, c);
    InheritedSolves(s, rank);
    forall d | d in t.origin ensures d in t.snaps && HasSnapshot(t, t.origin[d]) {
      assert d in s.snaps;
      PromotedInheritsAt(s, rank, c, TableOf(s, rank), d);
    }
  }
}
