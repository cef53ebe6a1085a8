// Hosts on which the promises of the documents fail: each lemma builds one, so none of the
// conditions stated elsewhere is about nothing.

module Witnesses {
  import opened Text
  import opened Snapshots
  import opened World
  import opened Clones
  import opened Default
  import opened Promotions
  import opened Guarantees
  import opened Safety
  import opened PairRuns
  import opened PointerRuns
  import opened Pointers
  import B = Bindings
  import C = CrossPools
  import D = Drop
  import L = Links
  import O = Outcomes
  import P = Primary
  import R = Rollback
  import S = Progress
  import T = Transfer
  import V = BindingRuns
  import Status

  const NO_PROPS := Props({}, map[], map[], map[], map[])

  /** The boot environment `<pool>/ROOT/<name>`. */
  function BePath(pool: string, name: string): string {
    RenderPointer(PairPointer(pool, name))
  }

  lemma BePathIs(pool: string, name: string)
    requires PlainPointer(PairPointer(pool, name))
    ensures PoolOf(BePath(pool, name)) == pool && LeafOf(BePath(pool, name)) == name
    ensures ParsePointer(BePath(pool, name)) == Some(PairPointer(pool, name))
    ensures Trim(BePath(pool, name)) == BePath(pool, name)
    ensures '/' in BePath(pool, name)
  {
    assert BePath(pool, name)[|pool|] == '/';
    hide ParsePointer, RenderPointer, PoolOf, LeafOf, Trim;
    CanonicalParts(PairPointer(pool, name));
    PointerRoundTrip(PairPointer(pool, name));
    ParsedPointer(BePath(pool, name));
  }

  /** Datasets without snapshots or clones. */
  function Host(ds: set<string>, props: Props, pools: Pools): State {
    State(map d | d in ds :: [], map[], 1, {}, {}, props, pools)
  }

  // -------------------------------------------------------------------------
  // 256 clones
  // -------------------------------------------------------------------------

  /** The names "c", "cc", "ccc", ... */
  function Letters(n: nat): string {
    seq(n, _ => 'c')
  }

  function LetterNames(n: nat): set<string> {
    if n == 0 then {} else LetterNames(n - 1) + {Letters(n)}
  }

  function Series(n: nat): seq<Snap> {
    if n == 0 then [] else Series(n - 1) + [Snap(Letters(n), n)]
  }

  lemma {:induction false} LetterNamesAre(n: nat)
    ensures |LetterNames(n)| == n && forall d :: d in LetterNames(n) ==> 0 < |d| <= n && d[0] == 'c'
    ensures Names(Series(n)) == LetterNames(n)
  {
    if n > 0 {
      LetterNamesAre(n - 1);
      AppendLast(Series(n - 1), Snap(Letters(n), n));
      assert |Letters(n)| == n;
    }
  }

  /** A dataset `t` and one clone of each of its `n` snapshots, which carries that snapshot's name. */
  function ManyClones(n: nat): State {
    State(map d | d in LetterNames(n) + {"t"} :: if d == "t" then Series(n) else [],
          map d | d in LetterNames(n) :: SnapshotRef("t", d),
          n + 1, {}, {}, NO_PROPS, Pools({}, map[]))
  }

  lemma {:induction false} AsManyOrigins(ds: set<string>)
    ensures |set d | d in ds :: SnapshotRef("t", d)| == |ds|
    decreases |ds|
  {
    if ds != {} {
      var d :| d in ds;
      AsManyOrigins(ds - {d});
      assert (set e | e in ds :: SnapshotRef("t", e)) ==
        (set e | e in ds - {d} :: SnapshotRef("t", e)) + {SnapshotRef("t", d)};
    } else {
      assert (set d | d in ds :: SnapshotRef("t", d)) == {};
    }
  }

  lemma ManyRanked(n: nat, rank: map<string, nat>)
    requires rank == map d | d in ManyClones(n).snaps :: if d == "t" then 0 else 1
    ensures Grounded(ManyClones(n)) && Ranked(ManyClones(n), rank)
  {
    hide LetterNames, Series, Names, FindName;
    LetterNamesAre(n);
  }

  lemma ManyOrigins(n: nat)
    ensures var s := ManyClones(n); |Origins(s, "t", s.snaps.Keys)| == n
  {
    hide LetterNames, Series;
    var s := ManyClones(n);
    LetterNamesAre(n);
    AsManyOrigins(LetterNames(n));
    var refs := set d | d in LetterNames(n) :: SnapshotRef("t", d);
    forall o ensures o in Origins(s, "t", s.snaps.Keys) <==> o in refs {
      if o in refs {
        assert s.origin[o.name] == o;
      }
    }
    assert Origins(s, "t", s.snaps.Keys) == refs;
  }

  lemma ManyAreGrounded(n: nat) returns (rank: map<string, nat>)
    ensures var s := ManyClones(n);
      && Grounded(s) && Ranked(s, rank) && "t" in s.snaps && ClonesOf(s, "t") == LetterNames(n)
      && |Origins(s, "t", s.snaps.Keys)| == n && forall c :: c in ClonesOf(s, "t") ==> s.snaps[c] == []
  {
    hide LetterNames, Series, Names, Origins, FindName, Ranked, Grounded;
    LetterNamesAre(n);
    var s := ManyClones(n);
    rank := map d | d in s.snaps :: if d == "t" then 0 else 1;
    assert ClonesOf(s, "t") == LetterNames(n);
    ManyOrigins(n);
    ManyRanked(n, rank);
  }

  lemma EmptyClonesGo(s: State, target: string, rows: seq<string>)
    requires target in s.snaps && forall c :: c in ClonesOf(s, target) ==> c in s.snaps && s.snaps[c] == []
    ensures AllGo(s, target, {}, rows)
  {
    hide Share, ClonesOf, Position;
  }

  lemma GroundedClones(s: State, target: string)
    requires Grounded(s)
    ensures forall c :: c in ClonesOf(s, target) ==> c in s.snaps
  {}

  /** With 256 snapshots cloned the loop can promote them all and still report that it did not converge. */
  lemma PromoteLoopRunsOut() returns (s: State, rank: map<string, nat>, rows: seq<string>)
    ensures Grounded(s) && Ranked(s, rank) && "t" in s.snaps && Lists(rows, s.snaps.Keys)
    ensures |Records(s, "t", rows)| == ROUNDS && AllGo(s, "t", {}, rows)
    ensures ClonesOf(PromoteAll(s, Records(s, "t", rows)), "t") == {}
  {
    hide Grounded, Ranked, Records, AllGo, ClonesOf, PromoteAll, Origins, Lists, ManyClones;
    s := ManyClones(ROUNDS);
    rank := ManyAreGrounded(ROUNDS);
    rows := WorstListing(s, "t", s.snaps.Keys);
    assert forall c :: c in ClonesOf(s, "t") ==> c in s.snaps && s.snaps[c] == [] by {
      GroundedClones(s, "t");
    }
    EmptyClonesGo(s, "t", rows);
    StartsAlong(s, "t", {}, rows);
    RecordsSuffice(s, rank, s, "t", {}, rows, []);
  }

  // -------------------------------------------------------------------------
  // primary
  // -------------------------------------------------------------------------

  function Paired(a: string, b: string, pa: PairPointer, pb: PairPointer): Props {
    NO_PROPS.(mirror := map[a := pb, b := pa])
  }

  lemma FlipCompletes(s: State, be: string, peer: string, stamp: string)
    requires be in s.snaps && be in s.props.mirror && ParsePointer(be).Some? && be !in s.props.primary
    requires P.PeerDataset(s, be) == peer && P.Mutual(s, be) && s.snaps[peer] == []
    ensures P.PrimaryState(s, be, stamp, P.NoFault).1 == P.Promoted
  {
    hide ParsePointer, RenderPointer, PoolOf;
  }

  lemma EmptyRail(s: State, a: string, b: string)
    requires a != b && a in s.snaps && b in s.snaps && s.snaps[a] == [] && s.snaps[b] == []
    ensures Rail(s, a, b)
  {
    assert forall g, h :: !Before([], g, h);
  }

  /** A mounted readonly peer gets a snapshot its partner lacks; a third pool stays active. */
  lemma PrimaryCanBreakTheRail() returns (s: State, be: string, peer: string)
    ensures Rail(s, be, peer) && P.PrimaryState(s, be, "now", P.NoFault).1 == P.Promoted
    ensures var t := P.PrimaryState(s, be, "now", P.NoFault).0; !Rail(t, be, peer) && !OnlyActive(t.pools, be)
  {
    hide ParsePointer, RenderPointer, PoolOf, LeafOf, Rail;
    be, peer := BePath("a", "x"), BePath("b", "x");
    BePathIs("a", "x");
    BePathIs("b", "x");
    s := Host({be, peer}, Paired(be, peer, PairPointer("a", "x"), PairPointer("b", "x")),
              Pools({"a", "b", "c"}, map["c" := BePath("c", "z")])).(readonly := {peer}, mounted := {peer});
    EmptyRail(s, be, peer);
    var (t, o) := P.PrimaryState(s, be, "now", P.NoFault);
    FlipCompletes(s, be, peer, "now");
    PrimaryKeepsRailExactly(s, be, peer, "now", P.NoFault, t);
    P.OneActiveAfterPrimary(s, be, "now", P.NoFault, t);
    assert "c" in s.pools.roots && "c" in s.pools.bootfs;
  }

  // -------------------------------------------------------------------------
  // --force
  // -------------------------------------------------------------------------

  lemma OwnSnapshot(s: State, own: Snap, base: Snap, x: Snap)
    requires own == Snap("own", 1) && base == Snap("base", 2) && x == Snap("mirror-now", 3)
    requires s.snaps == map["a" := [base], "b" := [own, base]] && s.nextGuid == 3
    ensures Ready(s, "a", "b") && x.name !in Names([base]) && x.guid !in Guids([own, base])
    ensures LatestShared([base], [own, base]) == 0 && FindGuid([own, base], 2) == 1
    ensures Names([own, base]) !! Names([x])
    ensures OnlyOnRight([base, x], [own, base]) != []
  {
    hide Guids, Names, Distinct, Before, Kept, Selected, LatestShared;
    Single(base);
    Single(x);
    Single(own);
    Two(own, base);
    Two(base, x);
    assert x.name[0] == 'm' && base.name[0] == 'b' && own.name[0] == 'o';
    LatestSharedIs([base], [own, base], 0);
    SelectedMember([own, base], Guids(Kept([base, x])), false, own);
    KeptGuids([base, x]);
  }

  /** Nothing fails, unless `fault` says so; `clear` is whether a copied pointer can be cleared. */
  function PushEnv(fault: T.Fault, clear: bool): T.Env {
    T.Env("now", true, true, fault, true, {}, {}, T.Soft(clear, true, true))
  }

  function Overwritten(own: Snap, base: Snap): State {
    State(map["a" := [base], "b" := [own, base]], map[], 3, {}, {}, NO_PROPS, Pools({}, map[]))
  }

  lemma OverwriteSends(s: State, own: Snap, base: Snap, x: Snap, env: T.Env)
    requires own == Snap("own", 1) && base == Snap("base", 2) && x == Snap("mirror-now", 3) &&
      s == Overwritten(own, base)
    requires env.fault.NoFault? && env.yesDivergence && T.AnchorName(None, env) == x.name
    ensures Ready(s, "a", "b") && LatestShared([base, x], [own, base]) == 0
    ensures T.TransferState(s, "a", "b", T.Push(T.Existing), None, true, env).1 == T.Sent
  {
    hide T.TransferState, Guids, Names, Distinct, Before, Kept, OnlyOnRight, LatestShared, FindName, Compatible;
    OwnSnapshot(s, own, base, x);
    assert [base] + [x] == [base, x] && [base, x][1..2] == [x] && [own, base][..2] == [own, base];
    S.FreshKeepsBase([base], x, [own, base]);
    S.UnboundedSucceedsExactly(s, "a", "b", T.Push(T.Existing), true, env);
  }

  /** A forced overwrite of a side with a snapshot of its own before the base leaves that snapshot there. */
  lemma OverwriteCanLeaveDivergence() returns (s: State, env: T.Env)
    ensures Ready(s, "a", "b") && T.TransferState(s, "a", "b", T.Push(T.Existing), None, true, env).1 == T.Sent
    ensures var t := T.TransferState(s, "a", "b", T.Push(T.Existing), None, true, env).0;
      OnlyOnRight(SourceList(s, "a", None, env), T.ListOf(t, "b")) != []
  {
    hide T.TransferState, Guids, Names, Distinct, Before, Kept, OnlyOnRight, LatestShared, FindName, Compatible, Ready;
    var own, base, x := Snap("own", 1), Snap("base", 2), Snap("mirror-now", 3);
    env := PushEnv(T.NoFault, true);
    s := Overwritten(own, base);
    assert T.AnchorName(None, env) == x.name && [base] + [x] == [base, x] && [own, base][..2] == [own, base];
    OverwriteSends(s, own, base, x, env);
    OwnSnapshot(s, own, base, x);
    var (t, o) := T.TransferState(s, "a", "b", T.Push(T.Existing), None, true, env);
    assert SourceList(s, "a", None, env) == [base, x];
    SentContents(s, "a", "b", T.Push(T.Existing), None, true, env, t);
    OverwriteSettles([base, x], [own, base], T.ListOf(t, "b"), FindName([base, x], x.name));
  }

  /** A forced, confirmed rewind destroys a snapshot neither prompt listed. */
  lemma RewindCanDestroyUnlisted() returns (s: State, env: T.Env, lost: Snap)
    ensures Ready(s, "a", "b") && "b" in s.snaps && lost in Kept(s.snaps["b"])
    ensures var (t, o) := T.TransferState(s, "a", "b", T.Push(T.Existing), Some("s"), true, env);
      o == T.Rewound && lost !in Kept(T.ListOf(t, "b")) && lost !in T.Shown(s, "a", "b", Some("s"))
  {
    hide T.TransferState, Guids, Names, Distinct, Before, Kept, OnlyOnRight, AfterBound, FindName, Compatible;
    var src, dst, x := RollbackCanExpose();
    env, lost := PushEnv(T.NoFault, true), x;
    s := State(map["a" := src, "b" := dst], map[], 10, {}, {}, NO_PROPS, Pools({}, map[]));
    S.RewindSucceedsExactly(s, "a", "b", T.Push(T.Existing), "s", true, env);
  }

  // -------------------------------------------------------------------------
  // Several targets
  // -------------------------------------------------------------------------

  /** Two datasets with one anchor between them. */
  function OneAnchor(): State {
    var x := Snap("mirror-1", 1);
    State(map["a" := [x], "b" := [x]], map[], 2, {}, {}, NO_PROPS, Pools({}, map[]))
  }

  lemma OneAnchorIs(s: State, x: Snap)
    requires s == OneAnchor() && x == Snap("mirror-1", 1)
    ensures Ready(s, "a", "c") && Below([x], 2) && Guids([x]) == {1} && Names([x]) == {x.name}
    ensures L.Linked(s, "a", "b")
  {
    Single(x);
    assert forall g, h :: !Before([x], g, h);
    assert 1 in Guids([x]) * Guids([x]);
  }

  /** A copy to a third dataset prunes the anchor the first two shared. */
  lemma CopyCanUnlinkAnother() returns (s: State, env: T.Env)
    ensures L.Linked(s, "a", "b")
    ensures var (t, o) := T.TransferState(s, "a", "c", T.Push(T.AdHocUnpaired), None, false, env);
      o == T.Sent && !L.Linked(t, "a", "b")
  {
    hide T.TransferState, Guids, Names, Distinct, Before, Ready, OnlyOnRight, LatestShared, L.Linked, Below;
    var x := Snap("mirror-1", 1);
    s, env := OneAnchor(), PushEnv(T.NoFault, true);
    OneAnchorIs(s, x);
    assert T.AnchorName(None, env)[7] == 'n' && x.name[7] == '1';
    S.FirstTransferSucceedsExactly(s, "a", "c", T.Push(T.AdHocUnpaired), false, env);
    var t := T.TransferState(s, "a", "c", T.Push(T.AdHocUnpaired), None, false, env).0;
    L.OtherBaseSurvives(s, "a", "c", "b", T.Push(T.AdHocUnpaired), None, false, env, t);
  }

  // -------------------------------------------------------------------------
  // Pointers
  // -------------------------------------------------------------------------

  /** Two boot environments on pools `a` and `b`, the second pointing at the first. */
  function Tracked(roots: set<string>, bootfs: map<string, string>): State {
    Host({BePath("a", "x"), BePath("b", "y")}, NO_PROPS.(mirror := map[BePath("b", "y") := PairPointer("a", "x")]),
         Pools(roots, bootfs))
  }

  lemma TrackedIs(roots: set<string>, bootfs: map<string, string>)
    ensures var s := Tracked(roots, bootfs);
      NoDangling(s) && Plain(s) && WellNamed(s) && D.Owned(s) && PeerOf(s, BePath("b", "y")) == Some(BePath("a", "x"))
    ensures BePath("a", "x") != BePath("b", "y")
  {
    hide ParsePointer, RenderPointer, PoolOf, LeafOf, Trim;
    BePathIs("a", "x");
    BePathIs("b", "y");
  }

  lemma TrackedRoots(roots: set<string>, bootfs: map<string, string>)
    ensures var s := Tracked(roots, bootfs);
      && s.pools == Pools(roots, bootfs) && s.snaps.Keys == {BePath("a", "x"), BePath("b", "y")}
      && s.props.mirror == map[BePath("b", "y") := PairPointer("a", "x")]
  {}

  /** A drop leaves the pointer of a dataset outside the root pools dangling. */
  lemma DropCanLeaveADanglingPointer() returns (s: State, target: string)
    ensures NoDangling(s) && !NoDangling(D.DroppedState(s, target, {}, {}))
  {
    hide Tracked, NoDangling, D.DroppedState, ParsePointer, RenderPointer, PoolOf, LeafOf, Trim;
    target, s := BePath("a", "x"), Tracked({"a"}, map[]);
    TrackedIs({"a"}, map[]);
    TrackedRoots({"a"}, map[]);
    DropDangles(s, target, {}, {});
    assert !OnRootPool(s, BePath("b", "y")) by {
      BePathIs("b", "y");
    }
  }

  /**
   * Stopped after `zfs rename`, a rename leaves its peer's pointer, or its pool's `bootfs`, at a dataset that is
   * gone.
   */
  lemma RenameCanDangle() returns (s: State, was: string, incoming: seq<string>)
    ensures Sound(s) && BootsExist(s) && RenameReady(s, was, "z", incoming)
    ensures !NoDangling(RenameState(s, was, "z", incoming, true, true, 0).0)
    ensures !NoDangling(RenameState(s, was, "z", incoming, true, false, 1).0)
    ensures !BootsExist(RenameState(s, was, "z", incoming, true, false, 1).0)
  {
    hide Tracked, NoDangling, ParsePointer, RenderPointer, PoolOf, LeafOf, Trim, RenameState;
    var holder := BePath("b", "y");
    was := BePath("a", "x");
    var bootfs := map["a" := was];
    s, incoming := Tracked({"a", "b"}, bootfs), [holder];
    TrackedIs({"a", "b"}, bootfs);
    TrackedRoots({"a", "b"}, bootfs);
    BePathIs("a", "x");
    BePathIs("b", "y");
    BePathIs("a", "z");
    SoundIsNotDangling(s);
    assert D.Incoming(s, PairPointer("a", "x")) == {holder};
    RenameDangles(s, was, "z", incoming, true, true, 0);
    RenameDangles(s, was, "z", incoming, true, false, 1);
    RenameKeepsBootfs(s, was, "z", incoming, true, false, 1);
  }

  /** A rename that reports success can still miss a pointer held off the root pools. */
  lemma RenameCanMissAPointer() returns (s: State, was: string)
    ensures RenameReady(s, was, "z", []) && RenameState(s, was, "z", [], true, true, 0).1 == B.Done
    ensures var t := RenameState(s, was, "z", [], true, true, 0).0;
      !IsRelabelling(s, t, was, NewName(was, "z")) && !NoDangling(t)
  {
    hide Tracked, NoDangling, ParsePointer, RenderPointer, PoolOf, LeafOf, Trim, RenameState, IsRelabelling;
    was, s := BePath("a", "x"), Tracked({"a"}, map[]);
    TrackedIs({"a"}, map[]);
    TrackedRoots({"a"}, map[]);
    BePathIs("a", "x");
    BePathIs("b", "y");
    BePathIs("a", "z");
    assert D.Incoming(s, PairPointer("a", "x")) == {};
    RenameRuns(s, was, "z", [], 0);
    var (t, o) := RenameState(s, was, "z", [], true, true, 0);
    RenameIsRelabelling(s, was, "z", [], true, true, 0, t, o);
    RenameDangles(s, was, "z", [], true, true, 0);
    assert !HeldOnRoots(s, was);
  }

  lemma NoPointers(s: State)
    requires s.props.mirror == map[]
    ensures C.CrossPool(s)
  {}

  lemma EmptyReady(s: State, src: string, dst: string)
    requires src != dst && src in s.snaps && s.snaps[src] == [] && T.ListOf(s, dst) == []
    ensures Ready(s, src, dst) && forall name :: name !in Names(s.snaps[src])
  {
    assert forall g, h :: !Before([], g, h);
  }

  lemma PullCompletes(t: State, remote: string, local: string, env: T.Env)
    requires ParsePointer(remote).Some? && ParsePointer(local).Some? && env.fault.NoFault?
    ensures PulledPointers(t, remote, local, None, env).1 == B.Done
  {
    hide ParsePointer;
  }

  lemma PulledNames(s: State, t1: State, t: State, remote: string, local: string, env: T.Env)
    requires s.snaps.Keys == {remote} && Trim(remote) == remote && Trim(local) == local
    requires PushedPointers(s, t1, remote, local, T.Pull) && t == PulledPointers(t1, remote, local, None, env).0
    ensures WellNamed(s) && WellNamed(t)
  {
    hide ParsePointer, Trim;
  }

  /** Pulled under a new name within one pool, both sides end up pointing into their own pool. */
  lemma PullCanPairWithinAPool() returns (s: State, remote: string, env: T.Env)
    ensures C.CrossPool(s) && PullNewState(s, remote, "a", "y", None, false, env).1 == B.Done
    ensures !C.CrossPool(PullNewState(s, remote, "a", "y", None, false, env).0)
  {
    hide ParsePointer, RenderPointer, PoolOf, LeafOf, Trim, T.TransferState, C.CrossPool, PulledPointers;
    remote, env := BePath("a", "x"), PushEnv(T.NoFault, true);
    var local := BePath("a", "y");
    s := Host({remote}, NO_PROPS, Pools({"a"}, map[]));
    BePathIs("a", "x");
    BePathIs("a", "y");
    NoPointers(s);
    EmptyReady(s, remote, local);
    S.FirstTransferSucceedsExactly(s, remote, local, T.Pull, false, env);
    var (t1, o1) := T.TransferState(s, remote, local, T.Pull, None, false, env);
    PullCompletes(t1, remote, local, env);
    var (t, o) := PullNewState(s, remote, "a", "y", None, false, env);
    TransferPointers(s, remote, local, T.Pull, None, false, env);
    PulledNames(s, t1, t, remote, local, env);
    C.CompletedPullCrosses(s, remote, "a", "y", None, false, env, t);
  }

  /** With neither clear taking effect `unpair` reports success and leaves a pair as it was. */
  lemma UnpairCanDoNothing() returns (s: State, be: string)
    ensures P.Mutual(s, be) && UnpairState(s, be, UnpairEnv(false, false, false, false)) == (s, B.Done)
  {
    hide ParsePointer, RenderPointer, PoolOf, LeafOf, Trim;
    be := BePath("a", "x");
    var peer := BePath("b", "x");
    BePathIs("a", "x");
    BePathIs("b", "x");
    s := Host({be, peer}, Paired(be, peer, PairPointer("a", "x"), PairPointer("b", "x")), Pools({"a", "b"}, map[]));
  }

  /** A boot environment `a/ROOT/x` that already points at `p`; three root pools. */
  function Pointing(p: PairPointer): State {
    Host({BePath("a", "x"), RenderPointer(p)}, NO_PROPS.(mirror := map[BePath("a", "x") := p]),
         Pools({"a", "b", "c"}, map[]))
  }

  lemma PointingIs(p: PairPointer)
    requires PlainPointer(p) && (p.pool == "b" || p.pool == "c") && p != PairPointer("c", "x")
    ensures var s, src, dst := Pointing(p), BePath("a", "x"), BePath("c", "x");
      && WellNamed(s) && C.CrossPool(s) && Ready(s, src, dst) && dst !in s.snaps && s.origin == map[]
      && s.snaps.Keys == {src, RenderPointer(p)} && s.props.mirror == map[src := p] && s.snaps[src] == []
      && s.pools.roots == {"a", "b", "c"}
    ensures PoolOf(BePath("a", "x")) == "a" && PoolOf(BePath("c", "x")) == "c" && LeafOf(BePath("a", "x")) == "x"
    ensures ParsePointer(BePath("a", "x")) == Some(PairPointer("a", "x"))
    ensures ParsePointer(BePath("c", "x")) == Some(PairPointer("c", "x")) && '/' in BePath("c", "x")
    ensures Trim(BePath("c", "x")) == BePath("c", "x")
  {
    hide ParsePointer, RenderPointer, PoolOf, LeafOf, Trim, Ready;
    var s := Pointing(p);
    BePathIs("a", "x");
    BePathIs("c", "x");
    PointerRoundTrip(p);
    ParsedPointer(RenderPointer(p));
    EmptyReady(s, BePath("a", "x"), BePath("c", "x"));
  }

  lemma PushesTo(p: PairPointer, to: string)
    requires PlainPointer(p) && (p.pool == "b" || p.pool == "c") && p != PairPointer("c", "x")
    requires to == "c" || to == BePath("c", "x")
    ensures PushTarget(Pointing(p), BePath("a", "x"), Some(to), None) ==
      Some((BePath("c", "x"), if to == "c" then T.BootstrapPaired else T.AdHocUnpaired))
  {
    hide ParsePointer, RenderPointer, PoolOf, LeafOf, Trim, Pointing, Ready;
    PointingIs(p);
  }

  lemma PushArrives(p: PairPointer, to: string, clear: bool)
    requires PlainPointer(p) && (p.pool == "b" || p.pool == "c") && p != PairPointer("c", "x")
    requires to == "c" || to == BePath("c", "x")
    ensures PushState(Pointing(p), BePath("a", "x"), Some(to), None, false, PushEnv(T.NoFault, clear)).1 == T.Sent
  {
    hide T.TransferState, ParsePointer, PoolOf, LeafOf, Trim, Pointing, Ready, PushTarget;
    PointingIs(p);
    PushesTo(p, to);
    var s, src, dst := Pointing(p), BePath("a", "x"), BePath("c", "x");
    EmptyReady(s, src, dst);
    S.FirstTransferSucceedsExactly(s, src, dst, T.Push(PushTarget(s, src, Some(to), None).value.1), false,
      PushEnv(T.NoFault, clear));
  }

  /** A bootstrap to a second pool: the new side points at the old peer, not back. */
  lemma BootstrapCanMispair() returns (s: State, src: string, dst: string, t: State)
    ensures (t, T.Sent) == PushState(s, src, Some("c"), None, false, PushEnv(T.NoFault, true)) && PoolOf(dst) == "c"
    ensures PeerOf(t, src) == Some(dst) && PeerOf(t, dst) != Some(src)
  {
    hide T.TransferState, ParsePointer, PoolOf, LeafOf, Trim, Pointing, Ready, PushTarget, RenderPointer;
    var p := PairPointer("b", "x");
    s, src, dst := Pointing(p), BePath("a", "x"), BePath("c", "x");
    PointingIs(p);
    PushesTo(p, "c");
    PushArrives(p, "c", true);
    t := PushState(s, src, Some("c"), None, false, PushEnv(T.NoFault, true)).0;
    O.BootstrapPairsExactly(s, src, dst, None, false, PushEnv(T.NoFault, true), t);
    TransferPointers(s, src, dst, T.Push(T.BootstrapPaired), None, false, PushEnv(T.NoFault, true));
    BePathIs("b", "x");
    if dst in t.props.mirror {
      assert PointerFrom(s, t, src, dst, T.Push(T.BootstrapPaired), dst);
    }
  }

  lemma PushStaysNamed(s: State, src: string, to: string, env: T.Env)
    requires s.props.mirror.Keys <= s.snaps.Keys && WellNamed(s) && PushTarget(s, src, Some(to), None).Some?
    requires var dst := PushTarget(s, src, Some(to), None).value.0; Trim(dst) == dst
    ensures WellNamed(PushState(s, src, Some(to), None, false, env).0)
  {
    hide PushTarget, PushState, Trim;
    C.PushTransfers(s, src, Some(to), None, false, env);
  }

  /** Delivered, a new dataset whose contract cannot be written stays. */
  lemma FailsAfterDelivery(s: State, src: string, dst: string, mode: T.Mode, env: T.Env)
    requires Ready(s, src, dst) && dst !in s.snaps && src !in s.origin && env.fault.AtContract?
    requires T.AnchorName(None, env) !in Names(s.snaps[src])
    ensures var (t, o) := T.TransferState(s, src, dst, T.Push(mode), None, false, env); o == T.Failed && dst in t.snaps
  {
    hide Names, Guids, FindName, Compatible, LatestShared, OnlyOnRight, Pruned;
    var x := Snap(T.AnchorName(None, env), s.nextGuid);
    S.NothingOnRight(s.snaps[src]);
    S.FreshKeepsBase(s.snaps[src], x, []);
  }

  lemma CutPush(p: PairPointer, to: string)
    requires PlainPointer(p) && (p.pool == "b" || p.pool == "c") && p != PairPointer("c", "x") && to == BePath("c", "x")
    ensures var (t, o) := PushState(Pointing(p), BePath("a", "x"), Some(to), None, false, PushEnv(T.AtContract, true));
      o == T.Failed && to in t.snaps
  {
    hide T.TransferState, ParsePointer, PoolOf, LeafOf, Trim, Pointing, Ready, PushTarget;
    PointingIs(p);
    PushesTo(p, to);
    EmptyReady(Pointing(p), BePath("a", "x"), to);
    FailsAfterDelivery(Pointing(p), BePath("a", "x"), to, T.AdHocUnpaired, PushEnv(T.AtContract, true));
  }

  /**
   * On the pool its source points at, a new dataset ends up pointing into its own pool: after a bootstrap, after a copy
   * whose pointer could not be cleared, and after either failed with the stream delivered.
   */
  lemma PushCanPairWithinAPool() returns (s: State, src: string, copy: string)
    ensures C.CrossPool(s)
    ensures var (t, o) := PushState(s, src, Some("c"), None, false, PushEnv(T.NoFault, true));
      o == T.Sent && !C.CrossPool(t)
    ensures var (t, o) := PushState(s, src, Some(copy), None, false, PushEnv(T.NoFault, false));
      o == T.Sent && !C.CrossPool(t)
    ensures var (t, o) := PushState(s, src, Some(copy), None, false, PushEnv(T.AtContract, true));
      o == T.Failed && !C.CrossPool(t)
  {
    hide T.TransferState, PushState, ParsePointer, PoolOf, LeafOf, Trim, Pointing, Ready, PushTarget, RenderPointer,
         WellNamed, C.CrossPool;
    var p := PairPointer("c", "y");
    s, src, copy := Pointing(p), BePath("a", "x"), BePath("c", "x");
    PointingIs(p);
    PushesTo(p, "c");
    PushesTo(p, copy);
    PushArrives(p, "c", true);
    PushArrives(p, copy, false);
    var paired, unpaired, cut := PushEnv(T.NoFault, true), PushEnv(T.NoFault, false), PushEnv(T.AtContract, true);
    PushStaysNamed(s, src, "c", paired);
    C.CompletedPushCrosses(s, src, Some("c"), None, false, paired, PushState(s, src, Some("c"), None, false, paired).0);
    PushStaysNamed(s, src, copy, unpaired);
    C.CompletedPushCrosses(s, src, Some(copy), None, false, unpaired,
      PushState(s, src, Some(copy), None, false, unpaired).0);
    PushStaysNamed(s, src, copy, cut);
    CutPush(p, copy);
    C.FailedPushCrosses(s, src, Some(copy), None, false, cut, PushState(s, src, Some(copy), None, false, cut).0);
  }

  // -------------------------------------------------------------------------
  // Bindings
  // -------------------------------------------------------------------------

  /** A pool with two boot environments, the first one active, and a dataset bound to `keys`, which does not mount. */
  function OnePool(keys: seq<BoundKey>, canmount: map<string, Canmount>): State {
    Host({BePath("a", "x"), BePath("a", "y"), BePath("a", "home")},
         Props({BePath("a", "x"), BePath("a", "y")}, canmount,
               if keys == [] then map[] else map[BePath("a", "home") := keys], map[], map[]),
         Pools({"a"}, map["a" := BePath("a", "x")]))
  }

  lemma OnePoolIs(keys: seq<BoundKey>, canmount: map<string, Canmount>)
    ensures var s := OnePool(keys, canmount);
      && V.Kempt(s) && AtMostOneActive(s.pools) && Bes(s) == {BePath("a", "x"), BePath("a", "y")}
      && (forall be :: OnlyActive(s.pools, be) <==> be == BePath("a", "x"))
      && Bound(s) == (if keys == [] then {} else {BePath("a", "home")})
    ensures KeyOf(BePath("a", "x")) == BoundKey("a", "x") && KeyOf(BePath("a", "y")) == BoundKey("a", "y")
    ensures PoolOf(BePath("a", "home")) == "a"
  {
    hide ParsePointer, RenderPointer, PoolOf, LeafOf, Trim;
    BePathIs("a", "x");
    BePathIs("a", "y");
    BePathIs("a", "home");
  }

  lemma OnePoolRows(keys: seq<BoundKey>, canmount: map<string, Canmount>)
    ensures var s := OnePool(keys, canmount);
      && s.snaps.Keys == {BePath("a", "x"), BePath("a", "y"), BePath("a", "home")} && s.props.canmount == canmount
      && s.props.bes == {BePath("a", "x"), BePath("a", "y")} && s.pools == Pools({"a"}, map["a" := BePath("a", "x")])
      && s.props.attached == (if keys == [] then map[] else map[BePath("a", "home") := keys])
  {}

  lemma OnePoolRanked(keys: seq<BoundKey>, canmount: map<string, Canmount>) returns (rank: map<string, nat>)
    ensures var s := OnePool(keys, canmount);
      Grounded(s) && Ranked(s, rank) && D.Owned(s) && forall d :: ClonesOf(s, d) == {}
  {
    hide RenderPointer;
    rank := map d | d in OnePool(keys, canmount).snaps :: 0;
  }

  /** Destroyed with a binding list out of reach, a boot environment is gone and the list still names it. */
  lemma DropCanFailLate() returns (s: State, rank: map<string, nat>, target: string, rows: seq<string>, env: D.Env)
    ensures Grounded(s) && Ranked(s, rank) && D.Owned(s) && Lists(rows, s.snaps.Keys)
    ensures target in s.snaps && target in s.props.bes
    ensures D.GoesAhead(s, target, env) && Records(s, target, rows) == [] && AllGo(s, target, env.stuck, rows)
    ensures env.destroyOk && !D.CleansUp(s, target, env)
    ensures var t := D.DroppedState(PromoteAll(s, []), target, env.stuckPointers, D.DropReach(s, target, rows, env));
      target !in t.snaps && B.Sharing(t.props.attached, KeyOf(target)) != {}
  {
    hide ParsePointer, RenderPointer, PoolOf, LeafOf, Trim, OnePool, OnlyActive, Lists, Ranked, Grounded, Records,
         AllGo;
    var home, keys := BePath("a", "home"), [BoundKey("a", "y")];
    s, target := OnePool(keys, map[]), BePath("a", "y");
    env := D.Env(None, Some(target), {}, true, {}, true, {home});
    OnePoolIs(keys, map[]);
    OnePoolRows(keys, map[]);
    BePathIs("a", "x");
    BePathIs("a", "y");
    BePathIs("a", "home");
    rows := Status.ListingFrom(s.snaps.Keys, home);
    rank := OnePoolRanked(keys, map[]);
    NoRecords(s, target, rows);
    EmptyClonesGo(s, target, rows);
    assert home in B.Sharing(s.props.attached - {target}, KeyOf(target));
    D.ReachedIs(rows, B.Sharing(s.props.attached - {target}, KeyOf(target)) * {home}, 0);
    var t := D.DroppedState(PromoteAll(s, []), target, env.stuckPointers, D.DropReach(s, target, rows, env));
    assert home in B.Sharing(t.props.attached, KeyOf(target));
  }

  /** Stopped before its second write, an `attach` leaves a dataset bound to the active boot environment unmounted. */
  lemma AttachCanMisalign() returns (s: State, d: string, text: string)
    ensures V.Kempt(s) && V.Aligned(s) && B.AttachState(s, d, text, true, false).1 == B.Failed
    ensures !V.Aligned(B.AttachState(s, d, text, true, false).0)
  {
    hide ParsePointer, RenderPointer, PoolOf, LeafOf, Trim, OnePool, ParseList, RenderList, OnlyActive;
    var key := BoundKey("a", "x");
    s, d, text := OnePool([], map[]), BePath("a", "home"), RenderList([key]);
    OnePoolIs([], map[]);
    OnePoolRows([], map[]);
    BePathIs("a", "x");
    ListRoundTrip([key]);
    assert ParseList(text) == Ok([key]);
    assert B.DatasetOf(key) == BePath("a", "x");
    var (t, o) := B.AttachState(s, d, text, true, false);
    V.AttachCutShort(s, d, text, t);
    assert OnlyActive(s.pools, BePath("a", "x"));
    assert !V.NothingToSet(s, d, text);
  }

  /** Stopped after `bootfs`, a `default` leaves a dataset bound to the new active boot environment unmounted. */
  lemma DefaultCanMisalign() returns (s: State, target: string, u: State)
    ensures V.Kempt(s) && V.Aligned(s) && AtMostOneActive(s.pools) && target in Bes(s)
    ensures Midway(s, u, target, {}) && OnlyActive(u.pools, target) && !V.Aligned(u)
  {
    hide ParsePointer, RenderPointer, PoolOf, LeafOf, Trim, OnePool, AtMostOneActive, Midway, V.Kempt, OnlyActive;
    var home, keys := BePath("a", "home"), [BoundKey("a", "y")];
    var canmount := map[home := Off];
    s, target := OnePool(keys, canmount), BePath("a", "y");
    OnePoolIs(keys, canmount);
    OnePoolRows(keys, canmount);
    BePathIs("a", "y");
    BePathIs("a", "x");
    u := WithBootfs(s, NextBootfs(s.pools, target));
    V.BeforeToggles(s, target, {});
    assert V.AlignedFor(s, BePath("a", "x"));
    assert V.Aligned(s);
    V.DefaultCutShort(s, target, {}, u);
    assert Toggled(s, KeyOf(target), Bound(s))[home] == On;
  }

  /** An active boot environment that is bound to itself, with one snapshot. */
  function SelfBound(): State {
    var be := BePath("a", "x");
    WithSnapshot(Host({be}, Props({be}, map[be := On], map[be := [BoundKey("a", "x")]], map[], map[]),
                      Pools({"a"}, map["a" := be])),
                 be, "s")
  }

  lemma OneSnapshot(s: State, d: string, name: string)
    requires d in s.snaps && s.snaps[d] == [] + [Snap(name, 1)]
    ensures HasSnapshot(s, SnapshotRef(d, name))
  {
    Single(Snap(name, 1));
    assert s.snaps[d] == [Snap(name, 1)];
  }

  lemma SelfBoundIs()
    ensures var s, be := SelfBound(), BePath("a", "x");
      && V.Kempt(s) && V.Aligned(s) && OnlyActive(s.pools, be) && be in Bound(s)
      && s.snaps.Keys == s.props.bes == {be} && HasSnapshot(s, SnapshotRef(be, "s"))
  {
    hide ParsePointer, RenderPointer, PoolOf, LeafOf, Trim, HasSnapshot;
    var s, be := SelfBound(), BePath("a", "x");
    BePathIs("a", "x");
    OneSnapshot(s, be, "s");
    assert V.AlignedFor(s, be);
  }

  lemma ForkGoesThrough(s: State, snap: SnapshotRef, name: string) returns (s1: State)
    requires B.BareName(name) && B.ForkTarget(snap, name) !in s.snaps && HasSnapshot(s, snap)
    ensures (s1, B.Done) == B.ForkState(s, snap, name, true, [], B.ForkEnv(true, true, true, 0))
    ensures s1.pools == s.pools && s1.props.bes == s.props.bes + {B.ForkTarget(snap, name)}
  {
    hide PoolOf, LeafOf, RenderPointer, HasSnapshot, B.ForkTarget;
    s1 := B.ForkState(s, snap, name, true, [], B.ForkEnv(true, true, true, 0)).0;
    R.ForkedBes(s, snap, name, true, [], B.ForkEnv(true, true, true, 0), s1);
  }

  /** The fork copies the binding list of the boot environment it forks, and never mounts by itself. */
  lemma ForkCanMisalign() returns (s: State, snap: SnapshotRef, t: State)
    ensures V.Kempt(s) && V.Aligned(s)
    ensures (t, B.Done) == B.ForkState(s, snap, "n", true, [], B.ForkEnv(true, true, true, 0)) && !V.Aligned(t)
  {
    hide ParsePointer, RenderPointer, PoolOf, LeafOf, Trim, SelfBound, V.Kempt, V.Aligned, OnlyActive, B.ForkState,
         HasSnapshot;
    var be := BePath("a", "x");
    s, snap := SelfBound(), SnapshotRef(be, "s");
    SelfBoundIs();
    BePathIs("a", "x");
    BePathIs("a", "n");
    t := ForkGoesThrough(s, snap, "n");
    V.ForkKeepsAligned(s, snap, "n", true, [], B.ForkEnv(true, true, true, 0));
  }

  // -------------------------------------------------------------------------
  // rollback
  // -------------------------------------------------------------------------

  /** A boot environment `x` on a pool that is not a root pool, with one snapshot, and `other` on the root pool `r`. */
  function TwoPools(other: string): State {
    WithSnapshot(Host({BePath("p", "x"), other}, NO_PROPS.(bes := {BePath("p", "x"), other}), Pools({"r"}, map[])),
                 BePath("p", "x"), "s")
  }

  /** From a pool that is not a root pool, `rollback` forks there and activates its namesake on a root pool. */
  lemma RollbackCanActivateAnother() returns (s: State, snap: SnapshotRef, other: string)
    ensures var (s1, o1) := B.ForkState(s, snap, "n", true, [], B.ForkEnv(true, true, true, 0));
            var (t, o) := R.Activated(s1, "n", {});
      o1 == B.Done && o == B.Done && OnlyActive(t.pools, other) && other != B.ForkTarget(snap, "n")
  {
    hide ParsePointer, RenderPointer, PoolOf, LeafOf, Trim, DefaultState, B.ForkState, OnlyActive;
    other, snap := BePath("r", "n"), SnapshotRef(BePath("p", "x"), "s");
    s := TwoPools(other);
    BePathIs("p", "x");
    BePathIs("r", "n");
    BePathIs("p", "n");
    OneSnapshot(s, BePath("p", "x"), "s");
    assert B.ForkTarget(snap, "n") == BePath("p", "n");
    var s1 := ForkGoesThrough(s, snap, "n");
    assert R.OnlyNamed(s1, "n", other);
    CompletedRunActivates(s1, other, {});
  }
}
