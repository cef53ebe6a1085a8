// Creation order over the life of a host: snapshots, forks, promotions, drops, renames and
// transfers all leave every list in GUID order, and any two datasets comparable.

module Lifecycle {
  import opened Text
  import opened Snapshots
  import opened World
  import opened Clones
  import opened Default
  import opened Safety
  import opened Guarantees
  import opened Order
  import opened Promotions
  import B = Bindings
  import D = Drop
  import L = Links
  import P = Primary
  import Q = Pointers
  import T = Transfer

  /** The snapshot a reference names. */
  function SnapshotAt(s: State, o: SnapshotRef): Snap
    requires HasSnapshot(s, o)
  {
    s.snaps[o.dataset][FindName(s.snaps[o.dataset], o.name)]
  }

  ghost predicate NewerThan(xs: seq<Snap>, n: nat) {
    forall g :: g in Guids(xs) ==> n < g
  }

  ghost predicate SeededAt(s: State, c: string)
    requires c in s.origin
  {
    c in s.snaps && HasSnapshot(s, s.origin[c]) && NewerThan(s.snaps[c], SnapshotAt(s, s.origin[c]).guid)
  }

  /** A clone's own snapshots are newer than the one it was cloned from. */
  ghost predicate Seeded(s: State) {
    forall c :: c in s.origin ==> SeededAt(s, c)
  }

  /** What is promised of the whole host. */
  ghost predicate Aged(s: State) {
    Dated(s) && Seeded(s) && exists rank :: Ranked(s, rank)
  }

  lemma NewerConcat(a: seq<Snap>, b: seq<Snap>, n: nat)
    ensures NewerThan(a + b, n) <==> NewerThan(a, n) && NewerThan(b, n)
  {
    hide Guids;
    GuidsConcat(a, b);
  }

  lemma SeededIsGrounded(s: State)
    requires Seeded(s)
    ensures Grounded(s)
  {
    forall d | d in s.origin ensures d in s.snaps && HasSnapshot(s, s.origin[d]) {
      assert SeededAt(s, d);
    }
  }

  // -------------------------------------------------------------------------
  // Promotions
  // -------------------------------------------------------------------------

  lemma LastOf(xs: seq<Snap>, k: nat)
    requires k < |xs|
    ensures xs[k].guid in Guids(xs[..k + 1])
  {
    hide Guids;
    GuidAt(xs[..k + 1], k);
  }

  /** What moves is older than what the clone has, and than what its old parent keeps. */
  lemma MovedIsOlder(s: State, c: string)
    requires Dated(s) && CanPromote(s, c) && SeededAt(s, c)
    ensures var moved, t := UpTo(s, s.origin[c]), Promote(s, c);
      && InOrder(moved) && AllOlder(moved, s.snaps[c]) && AllOlder(moved, t.snaps[s.origin[c].dataset])
      && InOrder(t.snaps[s.origin[c].dataset])
      && Guids(t.snaps[s.origin[c].dataset]) <= Guids(s.snaps[s.origin[c].dataset])
      && Guids(moved) <= Guids(s.snaps[s.origin[c].dataset])
      && SnapshotAt(s, s.origin[c]).guid in Guids(moved)
  {
    hide InOrder, Guids, Names, FindName, Promote;
    var parent, moved, t := s.origin[c].dataset, UpTo(s, s.origin[c]), Promote(s, c);
    var k := FindName(s.snaps[parent], s.origin[c].name);
    PromotedLists(s, c);
    assert DatedAt(s, parent);
    OrderConcat(moved, t.snaps[parent]);
    GuidsConcat(moved, t.snaps[parent]);
    LastOf(s.snaps[parent], k);
    forall g, h | g in Guids(moved) && h in Guids(s.snaps[c]) ensures g < h {
      UpToLast(s.snaps[parent], k, g);
    }
  }

  lemma PromoteKeepsDated(s: State, c: string)
    requires Dated(s) && CanPromote(s, c) && SeededAt(s, c)
    ensures Dated(Promote(s, c))
  {
    hide InOrder, Guids, Names, FindName, Promote, AllOlder;
    var parent, moved, t := s.origin[c].dataset, UpTo(s, s.origin[c]), Promote(s, c);
    PromotedLists(s, c);
    MovedIsOlder(s, c);
    assert DatedAt(s, parent) && DatedAt(s, c);
    OrderConcat(moved, s.snaps[c]);
    BelowMore(s.snaps[parent], moved, s.nextGuid, s.nextGuid);
    BelowMore(s.snaps[parent], t.snaps[parent], s.nextGuid, s.nextGuid);
    BelowConcat(moved, s.snaps[c], s.nextGuid);
    PromoteOnlyMoves(s, c);
    forall d | d in t.snaps ensures DatedAt(t, d) {
      assert DatedAt(s, d);
    }
  }

  lemma LastOfBoth(a: seq<Snap>, x: seq<Snap>, b: seq<Snap>, y: seq<Snap>)
    requires a + x == b + y && x != [] && y != []
    ensures x[|x| - 1] == y[|y| - 1]
  {
    assert (a + x)[|a + x| - 1] == x[|x| - 1] && (b + y)[|b + y| - 1] == y[|y| - 1];
  }

  lemma UpToEnds(s: State, o: SnapshotRef)
    requires HasSnapshot(s, o)
    ensures UpTo(s, o) != [] && UpTo(s, o)[|UpTo(s, o)| - 1] == SnapshotAt(s, o)
  {
    hide Names;
  }

  /** A reference still names the same snapshot, wherever that now lives. */
  lemma SameSnapshot(s: State, c: string, o: SnapshotRef)
    requires CanPromote(s, c) && HasSnapshot(s, o)
    ensures var t, o1 := Promote(s, c), if Moves(s, c, o) then SnapshotRef(c, o.name) else o;
      HasSnapshot(t, o1) && SnapshotAt(t, o1) == SnapshotAt(s, o)
  {
    hide Names, Promote, FindName, UpTo, SnapshotAt, Moves;
    var t, o1 := Promote(s, c), if Moves(s, c, o) then SnapshotRef(c, o.name) else o;
    var inh: Table := map d | d in s.snaps :: if d == c then UpTo(s, s.origin[c]) else [];
    SameInheritance(s, c, inh, o);
    UpToEnds(s, o);
    UpToEnds(t, o1);
    LastOfBoth(PromotedTable(s, c, inh)[o1.dataset], UpTo(t, o1), inh[o.dataset], UpTo(s, o));
  }

  lemma PromotedSeededAt(s: State, rank: map<string, nat>, c: string, d: string)
    requires Dated(s) && Seeded(s) && Ranked(s, rank) && CanPromote(s, c) && d in Promote(s, c).origin
    ensures SeededAt(Promote(s, c), d)
  {
    hide InOrder, Guids, Names, FindName, UpTo, SnapshotAt, HasSnapshot;
    var parent, moved, t := s.origin[c].dataset, UpTo(s, s.origin[c]), Promote(s, c);
    assert SeededAt(s, c);
    SeededIsGrounded(s);
    PromotedLists(s, c);
    MovedIsOlder(s, c);
    if d == c {
      assert SeededAt(s, parent);
      SameSnapshot(s, c, s.origin[parent]);
      NewerConcat(moved, s.snaps[c], SnapshotAt(s, s.origin[parent]).guid);
    } else if d == parent {
      SameSnapshot(s, c, s.origin[c]);
    } else {
      assert SeededAt(s, d);
      SameSnapshot(s, c, s.origin[d]);
    }
  }

  lemma CloneHasOrigin(s: State, c: string)
    requires CanPromote(s, c)
    ensures c in s.origin
  {}

  /**
   * A promotion keeps a host in order, because a clone's own snapshots are newer than its origin; and that stays so.
   */
  lemma PromoteKeepsAged(s: State, c: string)
    requires Aged(s) && CanPromote(s, c)
    ensures Aged(Promote(s, c))
  {
    hide Promote, Dated, Ranked, CanPromote, SeededAt;
    var rank :| Ranked(s, rank);
    assert SeededAt(s, c) by {
      assert c in s.origin by { CloneHasOrigin(s, c); }
    }
    PromoteKeepsDated(s, c);
    PromoteStaysRanked(s, rank, c);
    forall d | d in Promote(s, c).origin ensures SeededAt(Promote(s, c), d) {
      PromotedSeededAt(s, rank, c, d);
    }
  }

  lemma {:induction false} PromotionsKeepAged(s: State, cs: seq<string>)
    requires Aged(s)
    ensures Aged(PromoteAll(s, cs))
  {
    hide Aged, CanPromote, Promote;
    if cs != [] {
      PromotionsKeepAged(s, cs[..|cs| - 1]);
      var s1 := PromoteAll(s, cs[..|cs| - 1]);
      if CanPromote(s1, cs[|cs| - 1]) {
        PromoteKeepsAged(s1, cs[|cs| - 1]);
      }
    }
  }

  // -------------------------------------------------------------------------
  // The other verbs
  // -------------------------------------------------------------------------

  lemma NewestInOrder(xs: seq<Snap>, x: Snap)
    requires InOrder(xs) && Below(xs, x.guid) && x.name !in Names(xs)
    ensures InOrder(xs + [x]) && Below(xs + [x], x.guid + 1)
  {
    hide Guids, Names;
    assert (xs + [x])[..|xs + [x]| - 1] == xs;
    Single(x);
    BelowMore(xs, xs, x.guid, x.guid + 1);
    BelowConcat(xs, [x], x.guid + 1);
  }

  lemma SnapshotStaysAt(s: State, d: string, name: string, o: SnapshotRef)
    requires HasSnapshot(s, o) && d in s.snaps
    ensures var t := WithSnapshot(s, d, name); HasSnapshot(t, o) && SnapshotAt(t, o) == SnapshotAt(s, o)
  {
    hide Names, FindName;
    if o.dataset == d {
      FoundInFirst(s.snaps[d], [Snap(name, s.nextGuid)], o.name);
    }
  }

  lemma FreshIsNewer(s: State, xs: seq<Snap>, x: Snap, o: SnapshotRef)
    requires Dated(s) && HasSnapshot(s, o) && NewerThan(xs, SnapshotAt(s, o).guid) && x.guid == s.nextGuid
    ensures NewerThan(xs + [x], SnapshotAt(s, o).guid)
  {
    hide Guids, Names, FindName, InOrder;
    assert DatedAt(s, o.dataset);
    GuidAt(s.snaps[o.dataset], FindName(s.snaps[o.dataset], o.name));
    Single(x);
    NewerConcat(xs, [x], SnapshotAt(s, o).guid);
  }

  lemma SnapshotKeepsAged(s: State, d: string, name: string)
    requires Aged(s) && d in s.snaps && name !in Names(s.snaps[d])
    ensures Aged(WithSnapshot(s, d, name))
  {
    hide InOrder, Guids, Names, FindName;
    var t, x := WithSnapshot(s, d, name), Snap(name, s.nextGuid);
    var rank :| Ranked(s, rank);
    assert Ranked(t, rank);
    assert DatedAt(s, d);
    NewestInOrder(s.snaps[d], x);
    forall e | e in t.snaps ensures DatedAt(t, e) {
      assert DatedAt(s, e);
    }
    forall c | c in t.origin ensures SeededAt(t, c) {
      assert SeededAt(s, c);
      SnapshotStaysAt(s, d, name, s.origin[c]);
      if c == d {
        FreshIsNewer(s, s.snaps[d], x, s.origin[c]);
      }
    }
  }

  /** Lists, origins and fresh GUIDs unchanged. */
  lemma SameAge(s: State, t: State)
    requires Aged(s) && t.snaps == s.snaps && t.origin == s.origin && t.nextGuid == s.nextGuid
    ensures Aged(t)
  {
    hide InOrder, Below, NewerThan, FindName, Names;
    var rank :| Ranked(s, rank);
    assert Ranked(t, rank);
    forall d | d in t.snaps ensures DatedAt(t, d) {
      assert DatedAt(s, d);
    }
    forall c | c in t.origin ensures SeededAt(t, c) {
      assert SeededAt(s, c);
    }
  }

  lemma ForkedRows(s: State, snap: SnapshotRef, name: string, intact: bool, lists: seq<string>, env: B.ForkEnv)
    ensures var t, target := B.ForkState(s, snap, name, intact, lists, env).0, B.ForkTarget(snap, name);
      && t.nextGuid == s.nextGuid
      && ((t.snaps == s.snaps && t.origin == s.origin)
          || (target !in s.snaps && HasSnapshot(s, snap)
              && t.snaps == s.snaps[target := []] && t.origin == s.origin[target := snap]))
  {
    hide B.Joined, B.Elements, B.BareName, PoolOf, LeafOf, HasSnapshot;
  }

  lemma NoneNewer()
    ensures forall n :: NewerThan([], n)
  {}

  lemma NewRowKeepsAged(s: State, t: State, target: string, snap: SnapshotRef)
    requires Aged(s) && target !in s.snaps && HasSnapshot(s, snap)
    requires t.snaps == s.snaps[target := []] && t.origin == s.origin[target := snap] && t.nextGuid == s.nextGuid
    ensures Aged(t)
  {
    hide InOrder, FindName, Names, Below, NewerThan;
    SeededIsGrounded(s);
    var rank :| Ranked(s, rank);
    assert Ranked(t, rank[target := rank[snap.dataset] + 1]);
    NothingInOrder();
    NoneNewer();
    forall d | d in t.snaps ensures DatedAt(t, d) {
      assert d != target ==> DatedAt(s, d);
    }
    forall c | c in t.origin ensures SeededAt(t, c) {
      assert c != target ==> SeededAt(s, c);
    }
  }

  lemma ForkKeepsAged(s: State, snap: SnapshotRef, name: string, intact: bool, lists: seq<string>, env: B.ForkEnv)
    requires Aged(s)
    ensures Aged(B.ForkState(s, snap, name, intact, lists, env).0)
  {
    hide Aged, B.ForkState, B.ForkTarget;
    var t, target := B.ForkState(s, snap, name, intact, lists, env).0, B.ForkTarget(snap, name);
    ForkedRows(s, snap, name, intact, lists, env);
    if t.snaps == s.snaps && t.origin == s.origin {
      SameAge(s, t);
    } else {
      NewRowKeepsAged(s, t, target, snap);
    }
  }

  lemma DropKeepsAged(s: State, target: string, stuck: set<string>, done: set<string>)
    requires Aged(s) && ClonesOf(s, target) == {}
    ensures Aged(D.DroppedState(s, target, stuck, done))
  {
    hide InOrder, FindName, Names, Guids, ParsePointer, D.PurgedIn;
    var t := D.DroppedState(s, target, stuck, done);
    SeededIsGrounded(s);
    var rank :| Ranked(s, rank);
    D.DroppedStaysRanked(s, target, stuck, done, rank);
    forall d | d in t.snaps ensures DatedAt(t, d) {
      assert DatedAt(s, d);
    }
    forall c | c in t.origin ensures SeededAt(t, c) {
      assert SeededAt(s, c);
      assert s.origin[c].dataset == target ==> c in ClonesOf(s, target);
    }
  }

  lemma RenamedRows(s: State, was: string, name: string, incoming: seq<string>, renameOk: bool, bootfsOk: bool,
                    writes: nat)
    ensures var t, u := Q.RenameState(s, was, name, incoming, renameOk, bootfsOk, writes).0,
      Q.Renamed(s, was, Q.NewName(was, name));
      && t.nextGuid == u.nextGuid == s.nextGuid
      && ((t.snaps == s.snaps && t.origin == s.origin)
          || (was in s.snaps && Q.NewName(was, name) !in s.snaps && t.snaps == u.snaps && t.origin == u.origin))
  {
    hide ParsePointer, PoolOf, RenderPointer;
  }

  /** The old name of a dataset that has the new one. */
  function Formerly(d: string, was: string, now: string): string {
    if d == now then was else d
  }

  lemma RelabelledDated(s: State, was: string, now: string)
    requires Dated(s) && was in s.snaps && now !in s.snaps
    ensures Dated(Q.Renamed(s, was, now))
  {
    hide InOrder, Guids, Below;
    var t := Q.Renamed(s, was, now);
    forall d | d in t.snaps ensures DatedAt(t, d) {
      assert DatedAt(s, Formerly(d, was, now));
    }
  }

  lemma RelabelledRow(s: State, was: string, now: string, d: string)
    requires was in s.snaps && now !in s.snaps && d in s.snaps
    ensures var t, d1 := Q.Renamed(s, was, now), Q.Relabel(d, was, now);
      d1 in t.snaps && t.snaps[d1] == s.snaps[d]
  {}

  lemma RelabelledOrigin(s: State, was: string, now: string, c1: string)
    requires s.origin.Keys <= s.snaps.Keys && was in s.snaps && now !in s.snaps && c1 in Q.Renamed(s, was, now).origin
    ensures var c := Formerly(c1, was, now);
      && c in s.origin && c1 == Q.Relabel(c, was, now)
      && Q.Renamed(s, was, now).origin[c1] == SnapshotRef(Q.Relabel(s.origin[c].dataset, was, now), s.origin[c].name)
  {}

  lemma RelabelledRanked(s: State, rank: map<string, nat>, was: string, now: string)
    requires Ranked(s, rank) && s.origin.Keys <= s.snaps.Keys && was in s.snaps && now !in s.snaps
    ensures Ranked(Q.Renamed(s, was, now), rank[now := rank[was]])
  {
    var t, rank1 := Q.Renamed(s, was, now), rank[now := rank[was]];
    forall c1 | c1 in t.origin
      ensures c1 in t.snaps && t.origin[c1].dataset in t.snaps && rank1[t.origin[c1].dataset] < rank1[c1]
    {
      RelabelledOrigin(s, was, now, c1);
    }
  }

  lemma RankCovers(s: State, rank: map<string, nat>)
    requires Ranked(s, rank)
    ensures s.snaps.Keys <= rank.Keys && s.origin.Keys <= s.snaps.Keys
  {}

  lemma RelabelledAged(s: State, was: string, now: string)
    requires Aged(s) && was in s.snaps && now !in s.snaps
    ensures Aged(Q.Renamed(s, was, now))
  {
    hide Dated, Ranked, FindName, Names, Guids, Q.Renamed, Q.Relabel;
    var t := Q.Renamed(s, was, now);
    SeededIsGrounded(s);
    var rank :| Ranked(s, rank);
    RankCovers(s, rank);
    RelabelledRanked(s, rank, was, now);
    RelabelledDated(s, was, now);
    forall c1 | c1 in t.origin ensures SeededAt(t, c1) {
      RelabelledOrigin(s, was, now, c1);
      var c := Formerly(c1, was, now);
      assert SeededAt(s, c);
      RelabelledRow(s, was, now, c);
      RelabelledRow(s, was, now, s.origin[c].dataset);
    }
  }

  lemma RenameKeepsAged(s: State, was: string, name: string, incoming: seq<string>, renameOk: bool, bootfsOk: bool,
                        writes: nat)
    requires Aged(s)
    ensures Aged(Q.RenameState(s, was, name, incoming, renameOk, bootfsOk, writes).0)
  {
    hide Aged, Q.RenameState, Q.Renamed, RenderPointer, PoolOf;
    var t := Q.RenameState(s, was, name, incoming, renameOk, bootfsOk, writes).0;
    RenamedRows(s, was, name, incoming, renameOk, bootfsOk, writes);
    if t.snaps == s.snaps && t.origin == s.origin {
      SameAge(s, t);
    } else {
      RelabelledAged(s, was, Q.NewName(was, name));
      SameAge(Q.Renamed(s, was, Q.NewName(was, name)), t);
    }
  }

  lemma PrimaryKeepsAged(s: State, be: string, stamp: string, fault: P.Fault)
    requires Aged(s)
    ensures Aged(P.PrimaryState(s, be, stamp, fault).0)
  {
    hide Aged, P.PrimaryState, ParsePointer;
    var (t, o) := P.PrimaryState(s, be, stamp, fault);
    P.PrimaryEffect(s, be, stamp, fault, t, o);
    if t.snaps == s.snaps && t.nextGuid == s.nextGuid {
      SameAge(s, t);
    } else {
      var peer := P.PeerDataset(s, be);
      SnapshotKeepsAged(s, peer, P.PrePrimary(stamp));
      SameAge(WithSnapshot(s, peer, P.PrePrimary(stamp)), t);
    }
  }

  lemma DefaultKeepsAged(s: State, target: string, stuck: set<string>)
    requires Aged(s)
    ensures Aged(DefaultState(s, target, stuck))
  {
    hide Aged, NextReadonly, NextBootfs, Toggled;
    SameAge(s, DefaultState(s, target, stuck));
  }

  lemma MidwayKeepsAged(s: State, target: string, stuck: set<string>, u: State)
    requires Aged(s) && Midway(s, u, target, stuck)
    ensures Aged(u)
  {
    hide Aged, LosersFirst, PartlyToggled;
    SameAge(s, u);
  }

  lemma NoSourceNoMove(s: State, src: string, dst: string, verb: T.Verb, bound: Option<string>, force: bool, env: T.Env)
    requires src !in s.snaps
    ensures T.TransferState(s, src, dst, verb, bound, force, env).0 == s
  {}

  lemma RankStays(s: State, t: State, rank: map<string, nat>, dst: string)
    requires Ranked(s, rank) && t.origin == s.origin && s.snaps.Keys <= t.snaps.Keys <= s.snaps.Keys + {dst}
    ensures exists r :: Ranked(t, r)
  {
    var r := map d | d in rank.Keys + {dst} :: if d in rank then rank[d] else 0;
    assert Ranked(t, r);
  }

  lemma StaysNewer(s: State, xs: seq<Snap>, ys: seq<Snap>, o: SnapshotRef)
    requires Dated(s) && HasSnapshot(s, o)
    requires NewerThan(xs, SnapshotAt(s, o).guid) && Guids(ys) <= Guids(xs) + {s.nextGuid}
    ensures NewerThan(ys, SnapshotAt(s, o).guid)
  {
    hide Guids, Names, FindName, InOrder;
    assert DatedAt(s, o.dataset);
    GuidAt(s.snaps[o.dataset], FindName(s.snaps[o.dataset], o.name));
  }

  lemma TransferTouches(s: State, src: string, dst: string, verb: T.Verb, bound: Option<string>, force: bool,
                        env: T.Env)
    requires Dated(s) && src != dst && src in s.snaps
    ensures var t := T.TransferState(s, src, dst, verb, bound, force, env).0;
      OnlyPairTouched(s, t, src, dst) && s.snaps.Keys <= t.snaps.Keys <= s.snaps.Keys + {dst}
  {
    hide T.TransferState, Dated, Kept, Compatible, Guids;
    DatedIsReady(s, src, dst);
    TransferStaysReady(s, src, dst, verb, bound, force, env);
  }

  // -------------------------------------------------------------------------
  // What a transfer does to the snapshots clones start from
  // -------------------------------------------------------------------------

  /** With distinct names a snapshot of the list is the one its name finds. */
  lemma {:induction false} NamedAt(xs: seq<Snap>, x: Snap)
    requires Distinct(xs) && x in xs
    ensures x.name in Names(xs) && xs[FindName(xs, x.name)] == x
  {
    var i :| 0 <= i < |xs| && xs[i] == x;
    GuidAt(xs, i);
    var n := FindName(xs, x.name);
    FirstName(xs, x.name, i);
    if n < i {
      TwoParts(xs, i);
      assert xs[..i][n] == xs[n] && xs[i..][0] == x;
      GuidAt(xs[..i], n);
      GuidAt(xs[i..], 0);
      DistinctConcat(xs[..i], xs[i..]);
    }
  }

  /** A reference whose snapshot is still on its dataset still leads there. */
  lemma OriginStays(s: State, t: State, o: SnapshotRef)
    requires Dated(t) && HasSnapshot(s, o) && o.dataset in t.snaps && SnapshotAt(s, o) in t.snaps[o.dataset]
    ensures HasSnapshot(t, o) && SnapshotAt(t, o) == SnapshotAt(s, o)
  {
    hide InOrder, Distinct, Names, Below;
    assert DatedAt(t, o.dataset);
    OrderIsDistinct(t.snaps[o.dataset]);
    NamedAt(t.snaps[o.dataset], SnapshotAt(s, o));
  }

  /** The source's list, with the fresh anchor or not, is left alone or pruned. */
  ghost predicate Shaped(a: seq<Snap>, x: Snap, a1: seq<Snap>, a2: seq<Snap>, stuck: set<string>) {
    && (a1 == a || a1 == a + [x])
    && (a2 == a1 || a2 == Pruned(a1, x.name, stuck))
  }

  lemma LiftedSource(s: State, src: string, dst: string, verb: T.Verb, anchor: string, lifted: bool, env: T.Env)
    requires src != dst && src in s.snaps && anchor in Names(s.snaps[src])
    ensures var t, a := T.LiftedState(s, src, dst, verb, anchor, lifted, env).0, s.snaps[src];
      src in t.snaps && (t.snaps[src] == a || t.snaps[src] == Pruned(a, anchor, env.stuckSrc))
  {
    hide T.Deliver, T.Settle, T.PruneBoth, Pruned, Names, LatestShared, FindName;
    var (t, o) := T.LiftedState(s, src, dst, verb, anchor, lifted, env);
    if verb.Mirror? && dst in s.snaps && LatestShared(s.snaps[src], s.snaps[dst]) == FindName(s.snaps[src], anchor) {
      PruneEffect(s, src, dst, anchor, env, t);
    } else {
      var (s1, ok) := T.Deliver(s, src, dst, verb, anchor, env.fault);
      DeliverFrame(s, src, dst, verb, anchor, env.fault, s1, ok);
      if ok {
        SettleEffect(s1, src, dst, verb, anchor, env, t, o);
      }
    }
  }

  lemma SentSource(s: State, src: string, dst: string, verb: T.Verb, bound: Option<string>, env: T.Env)
    returns (a1: seq<Snap>)
    requires src != dst && src in s.snaps && (bound.Some? ==> bound.value in Names(s.snaps[src]))
    ensures var t := T.SendState(s, src, dst, verb, bound, env).0;
      src in t.snaps &&
      Shaped(s.snaps[src], Snap(T.AnchorName(bound, env), s.nextGuid), a1, t.snaps[src], env.stuckSrc)
  {
    hide T.LiftedState, Pruned, Names, Guids;
    var anchor, a := T.AnchorName(bound, env), s.snaps[src];
    a1 := a;
    if bound.Some? || (!env.fault.AtSnapshot? && anchor !in Names(a)) {
      var s1 := if bound.Some? then s else WithSnapshot(s, src, anchor);
      a1 := s1.snaps[src];
      if bound.None? {
        GuidAt(s1.snaps[src], |a|);
      }
      LiftedSource(T.Lifted(s1, dst, verb), src, dst, verb, anchor, T.LiftsReadonly(s1, dst, verb), env);
    }
  }

  lemma TransferSource(s: State, src: string, dst: string, verb: T.Verb, bound: Option<string>, force: bool, env: T.Env)
    returns (a1: seq<Snap>)
    requires src != dst && src in s.snaps
    ensures var t := T.TransferState(s, src, dst, verb, bound, force, env).0;
      src in t.snaps &&
      Shaped(s.snaps[src], Snap(T.AnchorName(bound, env), s.nextGuid), a1, t.snaps[src], env.stuckSrc)
  {
    hide T.SendState, T.RewindState, Names, OnlyOnRight, Pruned;
    a1 := s.snaps[src];
    var (t, o) := T.TransferState(s, src, dst, verb, bound, force, env);
    if bound.Some? ==> bound.value in Names(s.snaps[src]) {
      match T.PlanTransfer(s, src, dst, bound, force, env) {
        case Refuse =>
        case Rewind => RewindEffect(s, src, dst, verb, bound.value, env, t, o);
        case Send => a1 := SentSource(s, src, dst, verb, bound, env);
      }
    }
  }

  /** The source gains at most the fresh anchor. */
  lemma ShapedGuids(a: seq<Snap>, x: Snap, a1: seq<Snap>, a2: seq<Snap>, stuck: set<string>)
    requires Shaped(a, x, a1, a2, stuck)
    ensures Guids(a2) <= Guids(a) + {x.guid}
  {
    hide Guids, Pruned, Names;
    GuidsConcat(a, [x]);
    Single(x);
    PrunedShrinks(a1, x.name, stuck);
  }

  /** What is no anchor, or cannot be destroyed, stays on the source. */
  lemma ShapedKeeps(a: seq<Snap>, x: Snap, a1: seq<Snap>, a2: seq<Snap>, stuck: set<string>, y: Snap)
    requires Shaped(a, x, a1, a2, stuck) && y in a && (IsAnchor(y.name) ==> y.name in stuck)
    ensures y in a2
  {
    hide Pruned;
    PrunedMembers(a1, x.name, stuck);
  }

  /** Unforced, what is no anchor stays on the destination. */
  lemma DestinationKeeps(s: State, src: string, dst: string, verb: T.Verb, bound: Option<string>, env: T.Env, y: Snap)
    requires Dated(s) && src != dst && src in s.snaps && dst in s.snaps && y in s.snaps[dst] && !IsAnchor(y.name)
    ensures var t := T.TransferState(s, src, dst, verb, bound, false, env).0; dst in t.snaps && y in t.snaps[dst]
  {
    hide T.TransferState, Dated, Kept, Compatible, Guids;
    var (t, o) := T.TransferState(s, src, dst, verb, bound, false, env);
    DatedIsReady(s, src, dst);
    TransferTouches(s, src, dst, verb, bound, false, env);
    UnforcedNeverDestroys(s, src, dst, verb, bound, env, t, o);
    KeptMembers(s.snaps[dst]);
    KeptMembers(t.snaps[dst]);
  }

  lemma FewerAreNewer(xs: seq<Snap>, ys: seq<Snap>, n: nat)
    requires NewerThan(xs, n) && Guids(ys) <= Guids(xs)
    ensures NewerThan(ys, n)
  {}

  lemma LaterIsNewer(a: seq<Snap>, p: nat, m: nat, n: nat)
    requires InOrder(a) && p <= m < |a| && n < a[p].guid
    ensures NewerThan(a[p + 1..m + 1], n)
  {
    hide InOrder, Names;
    var later := a[p + 1..m + 1];
    forall h | h in Guids(later) ensures n < h {
      AfterFirst(a, p, m, h);
    }
  }

  lemma ReceivedNewer(a1: seq<Snap>, b: seq<Snap>, p: nat, m: nat, n: nat)
    requires InOrder(a1) && p <= m < |a1| && a1[p].guid in Guids(b) && NewerThan(b, n)
    ensures NewerThan(Received(a1, b, p, m), n)
  {
    hide InOrder, Guids, Names;
    var q := FindGuid(b, a1[p].guid);
    Halves(b, q + 1);
    FewerAreNewer(b, b[..q + 1], n);
    LaterIsNewer(a1, p, m, n);
    NewerConcat(b[..q + 1], a1[p + 1..m + 1], n);
  }

  /**
   * Cut after a snapshot it shares, and continued with what came later, a list stays newer than what it was newer
   * than.
   */
  lemma DeliveredNewer(a1: seq<Snap>, b: seq<Snap>, b1: seq<Snap>, n: nat)
    requires InOrder(a1) && Delivered(a1, b, b1) && LatestShared(a1, b) >= 0 && NewerThan(b, n)
    ensures NewerThan(b1, n)
  {
    hide InOrder, Guids, LatestShared, FindGuid, Received;
    if b1 != b {
      var p := LatestShared(a1, b);
      var m :| IncrementalUpTo(a1, b, b1, p, m);
      ReceivedNewer(a1, b, p, m, n);
    }
  }

  lemma ThinnedGuids(xs: seq<Snap>, ys: seq<Snap>)
    requires Thinned(xs, ys)
    ensures Guids(ys) <= Guids(xs)
  {
    hide Guids, Pruned;
    if ys != xs {
      var keep, stuck :| ys == Pruned(xs, keep, stuck);
      PrunedShrinks(xs, keep, stuck);
    }
  }

  lemma SentNewer(s: State, src: string, dst: string, verb: T.Verb, bound: Option<string>, env: T.Env, n: nat)
    requires Dated(s) && src != dst && src in s.snaps && dst in s.snaps && L.Linked(s, src, dst)
    requires (bound.Some? ==> bound.value in Names(s.snaps[src])) && NewerThan(s.snaps[dst], n)
    ensures NewerThan(T.ListOf(T.SendState(s, src, dst, verb, bound, env).0, dst), n)
  {
    hide T.SendState, InOrder, Guids, Names, Delivered, Concluded, Complete, NewerThan, Below, OnlyPairTouched;
    var (t, o) := T.SendState(s, src, dst, verb, bound, env);
    var a1, b1 := SendEffect(s, src, dst, verb, bound, env, t, o);
    assert DatedAt(s, src);
    AnchoredInOrder(s.snaps[src], a1, s.nextGuid);
    L.AnchoredMeets(s.snaps[src], a1, s.snaps[dst], s.nextGuid);
    L.BaseIsFound(a1, s.snaps[dst]);
    DeliveredNewer(a1, s.snaps[dst], b1, n);
    ThinnedGuids(b1, T.ListOf(t, dst));
    FewerAreNewer(b1, T.ListOf(t, dst), n);
  }

  /** A destination that shares a snapshot with the source stays newer than its own origin. */
  lemma DestinationNewer(s: State, src: string, dst: string, verb: T.Verb, bound: Option<string>, force: bool,
                         env: T.Env, n: nat)
    requires Dated(s) && src != dst && src in s.snaps && dst in s.snaps && L.Linked(s, src, dst)
    requires NewerThan(s.snaps[dst], n)
    ensures NewerThan(T.ListOf(T.TransferState(s, src, dst, verb, bound, force, env).0, dst), n)
  {
    hide T.SendState, T.RewindState, Dated, Guids, Names, L.Linked, NewerThan, OnlyOnRight, FindName;
    var (t, o) := T.TransferState(s, src, dst, verb, bound, force, env);
    if bound.Some? ==> bound.value in Names(s.snaps[src]) {
      match T.PlanTransfer(s, src, dst, bound, force, env) {
        case Refuse =>
        case Rewind =>
          RewindEffect(s, src, dst, verb, bound.value, env, t, o);
          var b := s.snaps[dst];
          if T.ListOf(t, dst) != b {
            Halves(b, FindName(b, bound.value) + 1);
            FewerAreNewer(b, T.ListOf(t, dst), n);
          }
        case Send => SentNewer(s, src, dst, verb, bound, env, n);
      }
    }
  }

  /**
   * No clone loses its origin: those of the source start from snapshots that are no anchors or cannot be destroyed,
   * those of the destination from snapshots that are no anchors, without --force; a destination that is a clone
   * itself shares a snapshot with the source.
   */
  ghost predicate OriginsSafe(s: State, src: string, dst: string, force: bool, env: T.Env) {
    && (forall c :: c in ClonesOf(s, src) ==> IsAnchor(s.origin[c].name) ==> s.origin[c].name in env.stuckSrc)
    && (forall c :: c in ClonesOf(s, dst) ==> !force && !IsAnchor(s.origin[c].name))
    && (dst in s.origin ==> L.Linked(s, src, dst))
  }

  lemma NamesOf(s: State, o: SnapshotRef)
    requires HasSnapshot(s, o)
    ensures SnapshotAt(s, o).name == o.name && SnapshotAt(s, o) in s.snaps[o.dataset]
  {
    hide Names;
  }

  lemma OriginKept(s: State, src: string, dst: string, verb: T.Verb, bound: Option<string>, force: bool, env: T.Env,
                   c: string)
    requires Dated(s) && src != dst && src in s.snaps && OriginsSafe(s, src, dst, force, env)
    requires c in s.origin && HasSnapshot(s, s.origin[c])
    ensures var t, o := T.TransferState(s, src, dst, verb, bound, force, env).0, s.origin[c];
      HasSnapshot(t, o) && SnapshotAt(t, o) == SnapshotAt(s, o)
  {
    hide T.TransferState, InOrder, FindName, Names, Guids, Below, Kept, Dated, L.Linked, Shaped;
    var t, o := T.TransferState(s, src, dst, verb, bound, force, env).0, s.origin[c];
    var y := SnapshotAt(s, o);
    assert c in ClonesOf(s, o.dataset);
    NamesOf(s, o);
    TransferTouches(s, src, dst, verb, bound, force, env);
    TransferKeepsDated(s, src, dst, verb, bound, force, env);
    if o.dataset == src {
      var a1 := TransferSource(s, src, dst, verb, bound, force, env);
      ShapedKeeps(s.snaps[src], Snap(T.AnchorName(bound, env), s.nextGuid), a1, t.snaps[src], env.stuckSrc, y);
    } else if o.dataset == dst {
      DestinationKeeps(s, src, dst, verb, bound, env, y);
    }
    OriginStays(s, t, o);
  }

  /** A transfer between two datasets keeps a host in order when no clone loses its origin. */
  lemma TransferKeepsAged(s: State, src: string, dst: string, verb: T.Verb, bound: Option<string>, force: bool,
                          env: T.Env)
    requires Aged(s) && src != dst && OriginsSafe(s, src, dst, force, env)
    ensures Aged(T.TransferState(s, src, dst, verb, bound, force, env).0)
  {
    hide T.TransferState, InOrder, FindName, Names, Guids, Below, Kept, Dated, NewerThan, HasSnapshot, SnapshotAt,
         L.Linked, Shaped;
    var t := T.TransferState(s, src, dst, verb, bound, force, env).0;
    TransferKeepsDated(s, src, dst, verb, bound, force, env);
    if src in s.snaps {
      TransferTouches(s, src, dst, verb, bound, force, env);
      var a1 := TransferSource(s, src, dst, verb, bound, force, env);
      ShapedGuids(s.snaps[src], Snap(T.AnchorName(bound, env), s.nextGuid), a1, t.snaps[src], env.stuckSrc);
      var rank :| Ranked(s, rank);
      RankStays(s, t, rank, dst);
      forall c | c in t.origin ensures SeededAt(t, c) {
        assert SeededAt(s, c);
        OriginKept(s, src, dst, verb, bound, force, env, c);
        if c == src {
          StaysNewer(s, s.snaps[c], t.snaps[c], s.origin[c]);
        } else if c == dst {
          DestinationNewer(s, src, dst, verb, bound, force, env, SnapshotAt(s, s.origin[c]).guid);
        }
      }
    } else {
      NoSourceNoMove(s, src, dst, verb, bound, force, env);
    }
  }

  // -------------------------------------------------------------------------
  // Whole runs
  // -------------------------------------------------------------------------

  datatype Command =
    | TakeSnapshot(d: string, name: string)
    | ForkFrom(snap: SnapshotRef, forkName: string, intact: bool, lists: seq<string>, forkEnv: B.ForkEnv)
    | DropBe(target: string, promoted: seq<string>, purged: Option<set<string>>, stuck: set<string>)
    | RenameBe(was: string, newName: string, incoming: seq<string>, renameOk: bool, bootfsOk: bool, rewrites: nat)
    | MakePrimary(be: string, stamp: string, fault: P.Fault)
    | MakeDefault(be: string, stuck: set<string>)
    | CutDefault(be: string, stuck: set<string>, at: State)
    | Move(verb: T.Verb, src: string, dst: string, bound: Option<string>, force: bool, env: T.Env)

  /** A drop destroys only once nothing is cloned from its target. */
  ghost function Step(s: State, c: Command): State {
    match c
    case TakeSnapshot(d, name) => if d in s.snaps && name !in Names(s.snaps[d]) then WithSnapshot(s, d, name) else s
    case ForkFrom(snap, name, intact, lists, env) => B.ForkState(s, snap, name, intact, lists, env).0
    case DropBe(target, promoted, purged, stuck) =>
      var s1 := PromoteAll(s, promoted);
      if purged.Some? && ClonesOf(s1, target) == {} then D.DroppedState(s1, target, stuck, purged.value) else s1
    case RenameBe(was, name, incoming, renameOk, bootfsOk, writes) =>
      Q.RenameState(s, was, name, incoming, renameOk, bootfsOk, writes).0
    case MakePrimary(be, stamp, fault) => P.PrimaryState(s, be, stamp, fault).0
    case MakeDefault(be, stuck) => DefaultState(s, be, stuck)
    case CutDefault(be, stuck, at) => if Midway(s, at, be, stuck) then at else s
    case Move(verb, src, dst, bound, force, env) => T.TransferState(s, src, dst, verb, bound, force, env).0
  }

  ghost function Exec(s: State, cs: seq<Command>): State {
    if cs == [] then s else Step(Exec(s, cs[..|cs| - 1]), cs[|cs| - 1])
  }

  /** Transfers run between two different datasets and cost no clone its origin. */
  ghost predicate Permitted(s: State, c: Command) {
    c.Move? ==> c.src != c.dst && OriginsSafe(s, c.src, c.dst, c.force, c.env)
  }

  ghost predicate AllPermitted(s: State, cs: seq<Command>) {
    cs == [] || (AllPermitted(s, cs[..|cs| - 1]) && Permitted(Exec(s, cs[..|cs| - 1]), cs[|cs| - 1]))
  }

  lemma StepKeepsAged(s: State, c: Command)
    requires Aged(s) && Permitted(s, c)
    ensures Aged(Step(s, c))
  {
    hide Aged, B.ForkState, D.DroppedState, Q.RenameState, P.PrimaryState, DefaultState, T.TransferState, PromoteAll,
         ClonesOf, OriginsSafe, WithSnapshot;
    match c {
      case TakeSnapshot(d, name) =>
        if d in s.snaps && name !in Names(s.snaps[d]) {
          SnapshotKeepsAged(s, d, name);
        }
      case ForkFrom(snap, name, intact, lists, env) => ForkKeepsAged(s, snap, name, intact, lists, env);
      case DropBe(target, promoted, purged, stuck) =>
        PromotionsKeepAged(s, promoted);
        var s1 := PromoteAll(s, promoted);
        if purged.Some? && ClonesOf(s1, target) == {} {
          DropKeepsAged(s1, target, stuck, purged.value);
        }
      case RenameBe(was, name, incoming, renameOk, bootfsOk, writes) =>
        RenameKeepsAged(s, was, name, incoming, renameOk, bootfsOk, writes);
      case MakePrimary(be, stamp, fault) => PrimaryKeepsAged(s, be, stamp, fault);
      case MakeDefault(be, stuck) => DefaultKeepsAged(s, be, stuck);
      case CutDefault(be, stuck, at) =>
        if Midway(s, at, be, stuck) {
          MidwayKeepsAged(s, be, stuck, at);
        }
      case Move(verb, src, dst, bound, force, env) => TransferKeepsAged(s, src, dst, verb, bound, force, env);
    }
  }

  lemma AgedIsDated(s: State)
    requires Aged(s)
    ensures Dated(s)
  {}

  /** Over all such runs the host stays in creation order, and any two datasets are ready for a transfer. */
  lemma {:induction false} RunKeepsAged(s: State, cs: seq<Command>)
    requires Aged(s) && AllPermitted(s, cs)
    ensures var t := Exec(s, cs);
      Aged(t) && forall a, b :: a in t.snaps && a != b ==> Ready(t, a, b)
  {
    hide Aged, Step, Permitted, Ready;
    if cs != [] {
      RunKeepsAged(s, cs[..|cs| - 1]);
      StepKeepsAged(Exec(s, cs[..|cs| - 1]), cs[|cs| - 1]);
    }
    var t := Exec(s, cs);
    forall a, b | a in t.snaps && a != b ensures Ready(t, a, b) {
      AgedIsDated(t);
      DatedIsReady(t, a, b);
    }
  }
}
