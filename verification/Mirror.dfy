// `mirror`: one unbounded transfer from every primary boot environment to each of its
// targets.

module Mirror {
  import opened Text
  import opened Snapshots
  import opened World
  import opened Transfer
  import opened Safety
  import opened Guarantees
  import opened Default
  import opened Order
  import opened Effects
  import O = Outcomes

  /** Boot environments marked primary, on root pools. */
  function Primaries(s: State): set<string> {
    set d | d in s.props.primary && s.props.primary[d] && OnRootPool(s, d)
  }

  /** The peer, if it exists, and every other dataset whose pointer names `p`. */
  function Targets(s: State, p: string): set<string> {
    (if p in s.props.mirror && RenderPointer(s.props.mirror[p]) in s.snaps then
      {RenderPointer(s.props.mirror[p])} else {}) +
    (set d | d in s.props.mirror && OnRootPool(s, d) && ParsePointer(p) == Some(s.props.mirror[d]) && d != p)
  }

  /** No one is visited twice. */
  method ListOutgoingTargets(s: State, p: string, rows: seq<string>) returns (targets: seq<string>)
    requires forall d :: d in s.props.mirror ==> d in rows
    ensures Lists(targets, Targets(s, p))
  {
    hide ParsePointer, RenderPointer, PoolOf;
    targets := [];
    if p in s.props.mirror && RenderPointer(s.props.mirror[p]) in s.snaps {
      targets := [RenderPointer(s.props.mirror[p])];
    }
    ghost var peers := targets;
    for i := 0 to |rows|
      invariant forall d :: d in targets <==> d in peers || (d in Targets(s, p) && d in rows[..i])
      invariant forall j, k :: 0 <= j < k < |targets| ==> targets[j] != targets[k]
    {
      var d := rows[i];
      if d in s.props.mirror && OnRootPool(s, d) && ParsePointer(p) == Some(s.props.mirror[d]) && d != p &&
        d !in targets {
        targets := targets + [d];
      }
    }
    assert rows[..|rows|] == rows;
  }

  // -------------------------------------------------------------------------
  // One transfer
  // -------------------------------------------------------------------------

  /** What a mirror leaves alone: the set of datasets, the pointers and markers, the pools. */
  ghost predicate SameGraph(s: State, t: State) {
    && t.snaps.Keys == s.snaps.Keys && t.pools == s.pools
    && t.props.mirror == s.props.mirror && t.props.primary == s.props.primary
  }

  lemma SealedGraph(s: State, dst: string, env: Env)
    ensures SameGraph(s, Sealed(s, dst, env).0)
  {}

  lemma SettledGraph(s: State, src: string, dst: string, anchor: string, env: Env)
    requires src in s.snaps && dst in s.snaps
    ensures SameGraph(s, Settle(s, src, dst, Verb.Mirror, anchor, env).0)
  {
    hide Sealed, Pruned;
    SealedGraph(s, dst, env);
  }

  lemma LiftedGraph(s: State, src: string, dst: string, anchor: string, lifted: bool, env: Env)
    requires src in s.snaps && dst in s.snaps && anchor in Names(s.snaps[src])
    ensures SameGraph(s, LiftedState(s, src, dst, Verb.Mirror, anchor, lifted, env).0)
  {
    hide Stream, Settle, Pruned, Names, LatestShared, FindName;
    var (s1, ok) := Deliver(s, src, dst, Verb.Mirror, anchor, env.fault);
    if ok {
      SettledGraph(s1, src, dst, anchor, env);
    }
  }

  lemma SentGraph(s: State, src: string, dst: string, env: Env)
    requires src in s.snaps && dst in s.snaps
    ensures SameGraph(s, SendState(s, src, dst, Verb.Mirror, None, env).0)
  {
    hide LiftedState, Names, Guids;
    var anchor, a := AnchorName(None, env), s.snaps[src];
    if !env.fault.AtSnapshot? && anchor !in Names(a) {
      var s1 := WithSnapshot(s, src, anchor);
      GuidAt(s1.snaps[src], |a|);
      var lifted := LiftsReadonly(s1, dst, Verb.Mirror);
      LiftedGraph(Lifted(s1, dst, Verb.Mirror), src, dst, anchor, lifted, env);
    }
  }

  lemma MirrorKeepsGraph(s: State, src: string, dst: string, force: bool, env: Env)
    requires dst in s.snaps
    ensures SameGraph(s, TransferState(s, src, dst, Verb.Mirror, None, force, env).0)
  {
    hide SendState, RewindState, OnlyOnRight;
    if src in s.snaps {
      SentGraph(s, src, dst, env);
    }
  }

  /** Unforced, one transfer of a walk costs no dataset anything of the operator's. */
  lemma MirrorOneIsSafe(s: State, src: string, dst: string, env: Env)
    requires Dated(s) && src in s.snaps && dst in s.snaps
    ensures var t := TransferState(s, src, dst, Verb.Mirror, None, false, env).0;
      Dated(t) && t.snaps.Keys == s.snaps.Keys && forall d :: d in s.snaps ==> Kept(s.snaps[d]) <= Kept(t.snaps[d])
  {
    hide TransferState, Dated, Kept, InOrder;
    var (t, o) := TransferState(s, src, dst, Verb.Mirror, None, false, env);
    if src == dst {
      SelfMirrorIsHarmless(s, src, false, env);
    } else {
      MirrorKeepsGraph(s, src, dst, false, env);
      DatedIsReady(s, src, dst);
      TransferKeepsDated(s, src, dst, Verb.Mirror, None, false, env);
      UnforcedNeverDestroys(s, src, dst, Verb.Mirror, None, env, t, o);
      TransferStaysReady(s, src, dst, Verb.Mirror, None, false, env);
    }
  }

  // -------------------------------------------------------------------------
  // The walk
  // -------------------------------------------------------------------------

  type Visit = (string, string)

  function WalkAll(s: State, visits: seq<Visit>, force: bool, env: Visit -> Env): State {
    if visits == [] then s
    else
      var v := visits[|visits| - 1];
      TransferState(WalkAll(s, visits[..|visits| - 1], force, env), v.0, v.1, Verb.Mirror, None, force, env(v)).0
  }

  /** A whole unforced walk, whatever fails on the way, costs no dataset anything of the operator's. */
  lemma {:induction false} WalkIsSafe(s: State, visits: seq<Visit>, env: Visit -> Env)
    requires Dated(s) && forall v :: v in visits ==> v.0 in s.snaps && v.1 in s.snaps
    ensures var t := WalkAll(s, visits, false, env);
      Dated(t) && t.snaps.Keys == s.snaps.Keys && forall d :: d in s.snaps ==> Kept(s.snaps[d]) <= Kept(t.snaps[d])
  {
    hide TransferState, Dated, Kept;
    if visits != [] {
      var v := visits[|visits| - 1];
      assert v in visits;
      WalkIsSafe(s, visits[..|visits| - 1], env);
      MirrorOneIsSafe(WalkAll(s, visits[..|visits| - 1], false, env), v.0, v.1, env(v));
    }
  }

  /** What the summary line counts. */
  datatype Tally = Tally(synced: nat, noop: nat, refused: nat, skipped: nat)

  /** Divergence without --force is a refusal; a live destination or a declined prompt is an error, and skipped. */
  predicate RefusedDivergent(s: State, v: Visit, force: bool) {
    && !(v.1 in s.snaps && v.1 in s.mounted && v.1 !in s.readonly)
    && OnlyOnRight(ListOf(s, v.0), ListOf(s, v.1)) != [] && !force
  }

  function Counted(t: Tally, s: State, v: Visit, force: bool, o: Outcome): Tally {
    match o
    case Sent => t.(synced := t.synced + 1)
    case NoOp => t.(noop := t.noop + 1)
    case _ => if RefusedDivergent(s, v, force) then t.(refused := t.refused + 1) else t.(skipped := t.skipped + 1)
  }

  /** The counts a walk should report, one visit after the other. */
  function TallyOf(s: State, visits: seq<Visit>, force: bool, env: Visit -> Env): Tally {
    if visits == [] then Tally(0, 0, 0, 0)
    else
      var init, v := visits[..|visits| - 1], visits[|visits| - 1];
      var s1 := WalkAll(s, init, force, env);
      Counted(TallyOf(s, init, force, env), s1, v, force,
              TransferState(s1, v.0, v.1, Verb.Mirror, None, force, env(v)).1)
  }

  /** Nothing of the operator's has gone anywhere. */
  ghost predicate NothingLost(s: State, t: State) {
    t.snaps.Keys == s.snaps.Keys && forall d :: d in s.snaps ==> Kept(s.snaps[d]) <= Kept(t.snaps[d])
  }

  /**
   * The pairs to mirror: a dataset marked primary on a root pool, with the peer it points at, or with another dataset
   * on a root pool that points at it.
   */
  ghost predicate Wanted(s: State, v: Visit) {
    && v.0 in s.props.primary && s.props.primary[v.0] && PoolOf(v.0) in s.pools.roots
    && (|| (v.0 in s.props.mirror && RenderPointer(s.props.mirror[v.0]) == v.1 && v.1 in s.snaps)
        || (v.1 in s.props.mirror && v.1 != v.0 && PoolOf(v.1) in s.pools.roots
            && ParsePointer(v.0) == Some(s.props.mirror[v.1])))
  }

  lemma WantedIs(s: State, p: string)
    ensures (exists d :: Wanted(s, (p, d))) ==> p in Primaries(s)
    ensures forall d :: Wanted(s, (p, d)) <==> p in Primaries(s) && d in Targets(s, p)
  {
    hide PoolOf, ParsePointer, RenderPointer;
  }

  method MirrorOne(z: Zfs, v: Visit, force: bool, env: Env, tally: Tally) returns (r: Tally)
    modifies z
    ensures var (t, o) := TransferState(old(z.s), v.0, v.1, Verb.Mirror, None, force, env);
      z.s == t && r == Counted(tally, old(z.s), v, force, o)
  {
    hide TransferState, RefusedDivergent;
    var refusal := RefusedDivergent(z.s, v, force);
    var o := PushOnePair(z, v.0, v.1, force, env);
    match o {
      case Sent => r := tally.(synced := tally.synced + 1);
      case NoOp => r := tally.(noop := tally.noop + 1);
      case _ =>
        if refusal {
          r := tally.(refused := tally.refused + 1);
        } else {
          r := tally.(skipped := tally.skipped + 1);
        }
    }
  }

  /** The primaries that nothing is mirrored from. */
  ghost function Targetless(s: State): set<string> {
    set p | p in s.props.primary && s.props.primary[p] && PoolOf(p) in s.pools.roots && forall d :: !Wanted(s, (p, d))
  }

  lemma TargetlessAre(s: State, p: string)
    ensures p in Targetless(s) <==> p in Primaries(s) && Targets(s, p) == {}
  {
    hide PoolOf, Targets, Wanted;
    WantedIs(s, p);
  }

  ghost predicate EachOnce(visits: seq<Visit>) {
    forall i, j :: 0 <= i < j < |visits| ==> visits[i] != visits[j]
  }

  /** A primary without targets counts as skipped. */
  function Idle(t: Tally, idle: nat): Tally {
    t.(skipped := t.skipped + idle)
  }

  /** Where a walk that began in `s0` has got to. */
  ghost predicate At(z: Zfs, s0: State, visits: seq<Visit>, force: bool, env: Visit -> Env, tally: Tally, idle: nat)
    reads z
  {
    SameGraph(s0, z.s) && z.s == WalkAll(s0, visits, force, env) && tally == Idle(TallyOf(s0, visits, force, env), idle)
  }

  lemma CountedIdle(t: Tally, idle: nat, s: State, v: Visit, force: bool, o: Outcome)
    ensures Counted(Idle(t, idle), s, v, force, o) == Idle(Counted(t, s, v, force, o), idle)
  {
    hide RefusedDivergent;
  }

  lemma WalkedOneMore(s: State, visits: seq<Visit>, v: Visit, force: bool, env: Visit -> Env)
    ensures WalkAll(s, visits + [v], force, env) ==
      TransferState(WalkAll(s, visits, force, env), v.0, v.1, Verb.Mirror, None, force, env(v)).0
    ensures var s1 := WalkAll(s, visits, force, env);
      TallyOf(s, visits + [v], force, env) ==
        Counted(TallyOf(s, visits, force, env), s1, v, force,
          TransferState(s1, v.0, v.1, Verb.Mirror, None, force, env(v)).1)
  {
    hide TransferState;
    assert (visits + [v])[..|visits|] == visits;
  }

  method WalkTargets(z: Zfs, ghost s0: State, p: string, targets: seq<string>, force: bool, env: Visit -> Env,
                     before: Tally, ghost earlier: seq<Visit>, ghost idle: nat)
    returns (tally: Tally, ghost visits: seq<Visit>)
    requires At(z, s0, earlier, force, env, before, idle) && forall d :: d in targets ==> d in s0.snaps
    requires EachOnce(earlier) && forall v :: v in earlier ==> v.0 != p
    requires forall i, j :: 0 <= i < j < |targets| ==> targets[i] != targets[j]
    modifies z
    ensures At(z, s0, visits, force, env, tally, idle)
    ensures EachOnce(visits) && forall v :: v in visits <==> v in earlier || (v.0 == p && v.1 in targets)
  {
    hide TransferState, RefusedDivergent, Counted, WalkAll, TallyOf, Idle;
    tally, visits := before, earlier;
    for j := 0 to |targets|
      invariant At(z, s0, visits, force, env, tally, idle)
      invariant EachOnce(visits)
      invariant forall v :: v in visits <==> v in earlier || (v.0 == p && v.1 in targets[..j])
    {
      var v := (p, targets[j]);
      ghost var s1 := z.s;
      MirrorKeepsGraph(s1, v.0, v.1, force, env(v));
      WalkedOneMore(s0, visits, v, force, env);
      CountedIdle(TallyOf(s0, visits, force, env), idle, s1, v, force,
        TransferState(s1, v.0, v.1, Verb.Mirror, None, force, env(v)).1);
      tally := MirrorOne(z, v, force, env(v), tally);
      visits := visits + [v];
    }
  }

  lemma NoVisits(s: State, force: bool, env: Visit -> Env)
    ensures WalkAll(s, [], force, env) == s && Idle(TallyOf(s, [], force, env), 0) == Tally(0, 0, 0, 0)
    ensures EachOnce([]) && SameGraph(s, s)
  {}

  lemma OneMoreIdle(t: Tally, idle: nat)
    ensures Idle(t, idle + 1) == Idle(t, idle).(skipped := Idle(t, idle).skipped + 1)
  {}

  lemma WalkLosesNothing(s: State, visits: seq<Visit>, env: Visit -> Env)
    requires Dated(s) && forall v :: v in visits ==> v.0 in s.snaps && v.1 in s.snaps
    ensures NothingLost(s, WalkAll(s, visits, false, env))
  {
    hide WalkAll, Dated;
    WalkIsSafe(s, visits, env);
  }

  lemma SameTargets(s: State, t: State, p: string)
    requires SameGraph(s, t)
    ensures Targets(t, p) == Targets(s, p) && t.props.mirror == s.props.mirror
  {}

  lemma TargetExists(s: State, v: Visit)
    requires v.1 in Targets(s, v.0) && s.props.mirror.Keys <= s.snaps.Keys
    ensures v.1 in s.snaps
  {}

  lemma TargetsExist(s: State, p: string)
    requires s.props.mirror.Keys <= s.snaps.Keys
    ensures Targets(s, p) <= s.snaps.Keys
  {}

  method WalkPrimary(z: Zfs, ghost s0: State, p: string, rows: seq<string>, force: bool, env: Visit -> Env,
                     before: Tally, ghost earlier: seq<Visit>, ghost idle: set<string>)
    returns (tally: Tally, ghost visits: seq<Visit>, ghost idlers: set<string>)
    requires At(z, s0, earlier, force, env, before, |idle|) && EachOnce(earlier) && p !in idle
    requires forall d :: d in s0.props.mirror ==> d in rows && d in s0.snaps
    requires forall v :: v in earlier ==> v.0 != p
    modifies z
    ensures idlers == if Targets(s0, p) == {} then idle + {p} else idle
    ensures At(z, s0, visits, force, env, tally, |idlers|) && EachOnce(visits)
    ensures forall v :: v in visits <==> v in earlier || (v.0 == p && v.1 in Targets(s0, p))
  {
    hide Targets, WalkAll, TallyOf, Idle, EachOnce, SameGraph, ParsePointer, OnRootPool;
    tally, visits, idlers := before, earlier, idle;
    SameTargets(s0, z.s, p);
    var targets := ListOutgoingTargets(z.s, p, rows);
    if targets == [] {
      OneMoreIdle(TallyOf(s0, visits, force, env), |idle|);
      tally := tally.(skipped := tally.skipped + 1);
      idlers := idle + {p};
    } else {
      assert targets[0] in Targets(s0, p);
      TargetsExist(s0, p);
      tally, visits := WalkTargets(z, s0, p, targets, force, env, tally, visits, |idle|);
    }
  }

  /** The two loops: every primary of the listing with each of its targets. */
  method VisitAll(z: Zfs, primaries: seq<string>, rows: seq<string>, force: bool, env: Visit -> Env)
    returns (tally: Tally, ghost visits: seq<Visit>, ghost idle: set<string>)
    requires forall i, j :: 0 <= i < j < |primaries| ==> primaries[i] != primaries[j]
    requires Lists(rows, z.s.snaps.Keys) && z.s.props.mirror.Keys <= z.s.snaps.Keys
    modifies z
    ensures z.s == WalkAll(old(z.s), visits, force, env) && EachOnce(visits)
    ensures forall v :: v in visits <==> v.0 in primaries && v.1 in Targets(old(z.s), v.0)
    ensures forall p :: p in idle <==> p in primaries && Targets(old(z.s), p) == {}
    ensures tally == Idle(TallyOf(old(z.s), visits, force, env), |idle|)
  {
    hide Targets, WalkAll, TallyOf, Idle, EachOnce, SameGraph, PoolOf;
    ghost var s0 := z.s;
    tally, visits, idle := Tally(0, 0, 0, 0), [], {};
    NoVisits(s0, force, env);
    for i := 0 to |primaries|
      invariant At(z, s0, visits, force, env, tally, |idle|) && EachOnce(visits)
      invariant forall v :: v in visits <==> v.0 in primaries[..i] && v.1 in Targets(s0, v.0)
      invariant forall p :: p in idle <==> p in primaries[..i] && Targets(s0, p) == {}
    {
      tally, visits, idle := WalkPrimary(z, s0, primaries[i], rows, force, env, tally, visits, idle);
    }
  }

  lemma AllWanted(s: State)
    ensures forall v :: Wanted(s, v) <==> v.0 in Primaries(s) && v.1 in Targets(s, v.0)
    ensures forall p :: p in Targetless(s) <==> p in Primaries(s) && Targets(s, p) == {}
  {
    hide Primaries, Targets, Wanted, Targetless;
    forall v: Visit ensures Wanted(s, v) <==> v.0 in Primaries(s) && v.1 in Targets(s, v.0) {
      WantedIs(s, v.0);
      assert v == (v.0, v.1);
    }
    forall p ensures p in Targetless(s) <==> p in Primaries(s) && Targets(s, p) == {} {
      TargetlessAre(s, p);
    }
  }

  lemma VisitSpares(s: State, v: Visit, force: bool, env: Env, d: string)
    requires Dated(s) && d in s.snaps && v.0 in s.snaps && v.1 in s.snaps && v.1 != d
    ensures var t := TransferState(s, v.0, v.1, Verb.Mirror, None, force, env).0;
      && Dated(t) && t.snaps.Keys == s.snaps.Keys && Kept(t.snaps[d]) == Kept(s.snaps[d])
      && (d in t.readonly <==> d in s.readonly)
  {
    hide TransferState, Dated, Kept, InOrder;
    OnlyItsFlag(s, v.0, v.1, Verb.Mirror, None, force, env);
    if v.0 == v.1 {
      SelfMirrorIsHarmless(s, v.0, force, env);
    } else {
      MirrorKeepsGraph(s, v.0, v.1, force, env);
      DatedIsReady(s, v.0, v.1);
      TransferKeepsDated(s, v.0, v.1, Verb.Mirror, None, force, env);
      TransferReadsFrom(s, v.0, v.1, Verb.Mirror, None, force, env);
    }
  }

  /** A dataset no visit writes to keeps the operator's snapshots and its readonly flag. */
  lemma {:induction false} WalkSpares(s: State, visits: seq<Visit>, force: bool, env: Visit -> Env, d: string)
    requires Dated(s) && d in s.snaps && forall v :: v in visits ==> v.0 in s.snaps && v.1 in s.snaps && v.1 != d
    ensures var t := WalkAll(s, visits, force, env);
      && Dated(t) && t.snaps.Keys == s.snaps.Keys && Kept(t.snaps[d]) == Kept(s.snaps[d])
      && (d in t.readonly <==> d in s.readonly)
  {
    hide TransferState, Dated, Kept;
    if visits != [] {
      var v := visits[|visits| - 1];
      assert v in visits;
      WalkSpares(s, visits[..|visits| - 1], force, env, d);
      VisitSpares(WalkAll(s, visits[..|visits| - 1], force, env), v, force, env(v), d);
    }
  }

  /** A visit counted as synced leaves its target readonly, with everything of its primary's on it. */
  lemma VisitDelivers(s: State, visits: seq<Visit>, v: Visit, force: bool, env: Visit -> Env)
    requires var s1 := WalkAll(s, visits, force, env); Dated(s1) && v.0 != v.1 && v.0 in s1.snaps
    ensures var s1, t := WalkAll(s, visits, force, env), WalkAll(s, visits + [v], force, env);
      TransferState(s1, v.0, v.1, Verb.Mirror, None, force, env(v)).1 == Sent ==>
        v.1 in t.readonly && Arrived(s1, v.0, v.1, None, env(v), t)
  {
    hide TransferState, Dated, Arrived, TallyOf, Counted, WalkAll;
    var s1 := WalkAll(s, visits, force, env);
    var (t, o) := TransferState(s1, v.0, v.1, Verb.Mirror, None, force, env(v));
    WalkedOneMore(s, visits, v, force, env);
    DatedIsReady(s1, v.0, v.1);
    ArrivedIsReadonly(s1, v.0, v.1, Verb.Mirror, None, force, env(v));
    if o == Sent {
      TransferArrives(s1, v.0, v.1, Verb.Mirror, None, force, env(v), t);
    }
  }

  /** How the `i`-th visit ended. */
  function OutcomeAt(s: State, visits: seq<Visit>, force: bool, env: Visit -> Env, i: nat): Outcome
    requires i < |visits|
  {
    var v := visits[i];
    TransferState(WalkAll(s, visits[..i], force, env), v.0, v.1, Verb.Mirror, None, force, env(v)).1
  }

  /** The visits that ended so. */
  function Ending(s: State, visits: seq<Visit>, force: bool, env: Visit -> Env, o: Outcome): set<nat> {
    set i: nat | i < |visits| && OutcomeAt(s, visits, force, env, i) == o
  }

  lemma OneMoreEnding(s: State, visits: seq<Visit>, v: Visit, force: bool, env: Visit -> Env, o: Outcome)
    ensures var all := visits + [v];
      Ending(s, all, force, env, o) == Ending(s, visits, force, env, o) +
        if OutcomeAt(s, all, force, env, |visits|) == o then {|visits|} else {}
  {
    hide TransferState, WalkAll;
    var all := visits + [v];
    forall i: nat | i < |visits| ensures OutcomeAt(s, all, force, env, i) == OutcomeAt(s, visits, force, env, i) {
      assert all[..i] == visits[..i];
    }
  }

  /** How the last visit counts. */
  lemma TallyStep(s: State, init: seq<Visit>, v: Visit, force: bool, env: Visit -> Env)
    ensures var before, after := TallyOf(s, init, force, env), TallyOf(s, init + [v], force, env);
            var o := OutcomeAt(s, init + [v], force, env, |init|);
      && after.synced == before.synced + (if o == Sent then 1 else 0)
      && after.noop == before.noop + (if o == NoOp then 1 else 0)
      && after.synced + after.noop + after.refused + after.skipped ==
           before.synced + before.noop + before.refused + before.skipped + 1
  {
    hide TransferState, RefusedDivergent, WalkAll;
    assert (init + [v])[..|init|] == init;
    WalkedOneMore(s, init, v, force, env);
  }

  lemma EndingBelow(s: State, visits: seq<Visit>, force: bool, env: Visit -> Env, o: Outcome)
    ensures |visits| !in Ending(s, visits, force, env, o)
  {}

  lemma EndingStep(s: State, init: seq<Visit>, v: Visit, force: bool, env: Visit -> Env, o: Outcome)
    ensures |Ending(s, init + [v], force, env, o)| ==
      |Ending(s, init, force, env, o)| + if OutcomeAt(s, init + [v], force, env, |init|) == o then 1 else 0
  {
    hide Ending, OutcomeAt;
    OneMoreEnding(s, init, v, force, env, o);
    EndingBelow(s, init, force, env, o);
  }

  lemma NoneEnded(s: State, force: bool, env: Visit -> Env, o: Outcome)
    ensures Ending(s, [], force, env, o) == {}
  {}

  /** The summary counts every visit once: completed ones as synced, mirror's own no-ops apart, the rest as the rest. */
  lemma {:induction false} TallyCounts(s: State, visits: seq<Visit>, force: bool, env: Visit -> Env)
    ensures var t := TallyOf(s, visits, force, env);
      && t.synced == |Ending(s, visits, force, env, Sent)| && t.noop == |Ending(s, visits, force, env, NoOp)|
      && t.synced + t.noop + t.refused + t.skipped == |visits|
  {
    hide Ending, OutcomeAt, TallyOf;
    if visits == [] {
      NoVisits(s, force, env);
      NoneEnded(s, force, env, Sent);
      NoneEnded(s, force, env, NoOp);
    } else {
      var init, v := visits[..|visits| - 1], visits[|visits| - 1];
      assert visits == init + [v];
      TallyCounts(s, init, force, env);
      TallyStep(s, init, v, force, env);
      EndingStep(s, init, v, force, env, Sent);
      EndingStep(s, init, v, force, env, NoOp);
    }
  }

  /** What the summary calls refused: without --force, a refusal for anything but a live destination. */
  lemma RefusedForDivergence(s: State, v: Visit, force: bool, env: Env)
    requires v.0 in s.snaps
    ensures var o := TransferState(s, v.0, v.1, Verb.Mirror, None, force, env).1;
      RefusedDivergent(s, v, force) <==>
        !force && o == Refused && !(v.1 in s.snaps && v.1 in s.mounted && v.1 !in s.readonly)
  {
    hide SendState, OnlyOnRight;
    if PlanTransfer(s, v.0, v.1, None, force, env) == Send {
      SendNeverRewinds(s, v.0, v.1, Verb.Mirror, None, env, SendState(s, v.0, v.1, Verb.Mirror, None, env).0,
        SendState(s, v.0, v.1, Verb.Mirror, None, env).1);
    }
  }

  method Walk(z: Zfs, primaries: seq<string>, rows: seq<string>, force: bool, env: Visit -> Env)
    returns (tally: Tally, ghost visits: seq<Visit>)
    requires Lists(primaries, Primaries(z.s)) && Lists(rows, z.s.snaps.Keys)
    requires z.s.props.mirror.Keys <= z.s.snaps.Keys
    modifies z
    ensures z.s == WalkAll(old(z.s), visits, force, env)
    ensures EachOnce(visits) && forall v :: v in visits <==> Wanted(old(z.s), v)
    ensures tally == Idle(TallyOf(old(z.s), visits, force, env), |Targetless(old(z.s))|)
    ensures !force && Dated(old(z.s)) && Primaries(old(z.s)) <= old(z.s).snaps.Keys ==> NothingLost(old(z.s), z.s)
  {
    hide Primaries, Targets, Dated, NothingLost, WalkAll, TallyOf, Idle, EachOnce, Wanted, Targetless;
    ghost var s0 := z.s;
    ghost var idle: set<string>;
    AllWanted(s0);
    tally, visits, idle := VisitAll(z, primaries, rows, force, env);
    assert idle == Targetless(s0);
    if !force && Dated(s0) && Primaries(s0) <= s0.snaps.Keys {
      forall v | v in visits ensures v.0 in s0.snaps && v.1 in s0.snaps {
        TargetExists(s0, v);
      }
      WalkLosesNothing(s0, visits, env);
    }
  }
}
