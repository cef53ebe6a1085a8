// What push, pull and mirror do to the two sides, whatever each is called: which one is read and
// which one written, and what arrives.

module Effects {
  import opened Text
  import opened Snapshots
  import opened World
  import opened Transfer
  import opened Safety
  import opened Guarantees
  import opened Progress
  import opened Default
  import B = Bindings
  import O = Outcomes
  import Q = Pointers

  /** The part of the source a transfer is to bring over: all of it, or all up to the bound. */
  function Asked(s: State, src: string, bound: Option<string>): seq<Snap>
    requires src in s.snaps && (bound.Some? ==> bound.value in Names(s.snaps[src]))
  {
    if bound.None? then s.snaps[src] else s.snaps[src][..FindName(s.snaps[src], bound.value) + 1]
  }

  /**
   * What has arrived: on a common base the destination up to the base and then the source after it; else the whole of
   * the source, or of a clone its anchor alone.
   */
  ghost predicate Arrived(s: State, src: string, dst: string, bound: Option<string>, env: Env, t: State)
    requires src in s.snaps && (bound.Some? ==> bound.value in Names(s.snaps[src]))
  {
    var a, b, p := Asked(s, src, bound), ListOf(s, dst), LatestShared(s.snaps[src], ListOf(s, dst));
    && dst in t.snaps
    && (p >= 0 ==>
         p < |a| && Kept(t.snaps[dst]) == Kept(b[..FindGuid(b, s.snaps[src][p].guid) + 1]) + Kept(a[p + 1..]))
    && (p < 0 && src !in s.origin ==> Kept(t.snaps[dst]) == Kept(a))
    && (p < 0 && src in s.origin ==>
         t.snaps[dst] == [if bound.None? then Snap("mirror-" + env.stamp, s.nextGuid) else a[|a| - 1]])
  }

  lemma ArrivedFrom(a: seq<Snap>, b: seq<Snap>, b1: seq<Snap>, n: nat, clone: bool)
    requires n < |a| && Complete(a, b, b1, n, clone)
    ensures var p := LatestShared(a, b);
      && (p >= 0 ==> p < n && Kept(b1) == Kept(b[..FindGuid(b, a[p].guid) + 1]) + Kept(a[p + 1..n + 1]))
      && (p < 0 ==> b1 == if clone then [a[n]] else a[..n + 1])
  {
    hide Kept, Guids, LatestShared, FindGuid;
    if LatestShared(a, b) >= 0 {
      CompleteIsIncremental(a, b, b1, b1, n, clone);
    }
  }

  lemma AnchorAside(a: seq<Snap>, x: Snap, p: nat)
    requires p <= |a| && IsAnchor(x.name)
    ensures Kept((a + [x])[p..]) == Kept(a[p..])
  {
    assert (a + [x])[p..] == a[p..] + [x];
    AppendLast(a[p..], x);
  }

  lemma OnlyTheAnchor(x: Snap, stuck: set<string>)
    ensures Pruned([x], x.name, stuck) == [x]
  {
    assert [x][..0] == [];
  }

  /** The lists alone: `a` is what was asked for, `b1` what a whole stream of it makes of `b`. */
  ghost predicate ListArrived(full: seq<Snap>, a: seq<Snap>, b: seq<Snap>, b1: seq<Snap>, clone: bool, last: Snap)
    requires a <= full
  {
    var p := LatestShared(full, b);
    && (p >= 0 ==> p < |a| && Kept(b1) == Kept(b[..FindGuid(b, full[p].guid) + 1]) + Kept(a[p + 1..]))
    && (p < 0 && !clone ==> Kept(b1) == Kept(a))
    && (p < 0 && clone ==> b1 == [last])
  }

  lemma UnboundedArrived(a: seq<Snap>, x: Snap, b: seq<Snap>, b1: seq<Snap>, clone: bool)
    requires x.guid !in Guids(b) && x.name !in Names(a) && IsAnchor(x.name) && Complete(a + [x], b, b1, |a|, clone)
    ensures ListArrived(a, a, b, b1, clone, x)
  {
    hide Kept, Guids, LatestShared, FindGuid, Names, Complete;
    var a1, p := a + [x], LatestShared(a, b);
    FreshKeepsBase(a, x, b);
    ArrivedFrom(a1, b, b1, |a|, clone);
    AnchorAside(a, x, if p < 0 then 0 else p + 1);
    assert a[0..] == a && a1[0..] == a1 && a1[..|a| + 1] == a1;
    if p >= 0 {
      assert a1[p + 1..|a| + 1] == a1[p + 1..];
    }
  }

  lemma SliceOfPrefix(a: seq<Snap>, i: nat, k: nat)
    requires i <= k <= |a|
    ensures a[..k][i..] == a[i..k]
  {}

  lemma BoundedArrived(a: seq<Snap>, b: seq<Snap>, b1: seq<Snap>, n: nat, clone: bool)
    requires n < |a| && Complete(a, b, b1, n, clone)
    ensures ListArrived(a, a[..n + 1], b, b1, clone, a[n])
  {
    hide Kept, Guids, LatestShared, FindGuid, Complete;
    ArrivedFrom(a, b, b1, n, clone);
    if LatestShared(a, b) >= 0 {
      SliceOfPrefix(a, LatestShared(a, b) + 1, n + 1);
    }
  }

  /** Pruning the other anchors of what arrived changes nothing that was asked for. */
  lemma PrunedArrival(full: seq<Snap>, a: seq<Snap>, b: seq<Snap>, b1: seq<Snap>, b2: seq<Snap>, clone: bool,
                      last: Snap, stuck: set<string>)
    requires a <= full && ListArrived(full, a, b, b1, clone, last)
    requires b2 == Pruned(b1, last.name, stuck) && Kept(b2) == Kept(b1)
    ensures ListArrived(full, a, b, b2, clone, last)
  {
    hide Kept, Guids, LatestShared, FindGuid, Pruned;
    OnlyTheAnchor(last, stuck);
  }

  lemma ArrivedIs(s: State, src: string, dst: string, bound: Option<string>, env: Env, t: State, last: Snap)
    requires src in s.snaps && (bound.Some? ==> bound.value in Names(s.snaps[src])) && dst in t.snaps
    requires var a := Asked(s, src, bound);
      && ListArrived(s.snaps[src], a, ListOf(s, dst), t.snaps[dst], src in s.origin, last)
      && last == if bound.None? then Snap("mirror-" + env.stamp, s.nextGuid) else a[|a| - 1]
    ensures Arrived(s, src, dst, bound, env, t)
  {
    hide Kept, Guids, LatestShared, FindGuid, FindName, Names;
  }

  lemma SentHasBound(s: State, src: string, dst: string, verb: Verb, bound: Option<string>, force: bool, env: Env,
                     t: State)
    requires (t, Sent) == TransferState(s, src, dst, verb, bound, force, env)
    ensures src in s.snaps && (bound.Some? ==> bound.value in Names(s.snaps[src]))
  {
    hide SendState, RewindState, OnlyOnRight, Names;
  }

  /** The whole effect of a completed transfer on what its destination holds. */
  lemma TransferArrives(s: State, src: string, dst: string, verb: Verb, bound: Option<string>, force: bool, env: Env,
                        t: State)
    requires Ready(s, src, dst) && (t, Sent) == TransferState(s, src, dst, verb, bound, force, env)
    ensures (bound.Some? ==> bound.value in Names(s.snaps[src])) && Arrived(s, src, dst, bound, env, t)
  {
    hide TransferState, Names, Guids, Kept, Compatible, LatestShared, FindName, FindGuid, Pruned, Delivered, Complete,
         Thinned, ListArrived, Arrived;
    SentHasBound(s, src, dst, verb, bound, force, env, t);
    var a1, b1 := SentEffects(s, src, dst, verb, bound, force, env, t);
    var a, b, clone := s.snaps[src], ListOf(s, dst), src in s.origin;
    if bound.None? {
      var x := Snap(AnchorName(bound, env), s.nextGuid);
      SentIsFresh(s, src, dst, verb, force, env, t);
      FreshAnchorIsLast(a, x);
      assert a1 == a + [x];
      UnboundedArrived(a, x, b, b1, clone);
      PrunedArrival(a, a, b, b1, t.snaps[dst], clone, x, env.stuckDst);
      ArrivedIs(s, src, dst, bound, env, t, x);
    } else {
      var n := FindName(a, bound.value);
      BoundedArrived(a, b, b1, n, clone);
      PrunedArrival(a, a[..n + 1], b, b1, t.snaps[dst], clone, a[n], env.stuckDst);
      ArrivedIs(s, src, dst, bound, env, t, a[n]);
    }
  }

  // -------------------------------------------------------------------------
  // The verbs
  // -------------------------------------------------------------------------

  /** The side read keeps what the operator took on it and whether it can be written, and no third dataset changes. */
  ghost predicate ReadOnlyFrom(s: State, t: State, src: string, dst: string) {
    && src in s.snaps && src in t.snaps && Kept(t.snaps[src]) == Kept(s.snaps[src])
    && (forall d :: d != dst ==> (d in t.readonly <==> d in s.readonly) && (d in t.snaps <==> d in s.snaps))
    && forall d :: d in s.snaps && d != src && d != dst ==> t.snaps[d] == s.snaps[d]
  }

  lemma TransferReadsFrom(s: State, src: string, dst: string, verb: Verb, bound: Option<string>, force: bool, env: Env)
    requires Ready(s, src, dst)
    ensures ReadOnlyFrom(s, TransferState(s, src, dst, verb, bound, force, env).0, src, dst)
  {
    hide TransferState, Kept, Compatible, Guids;
    TransferStaysReady(s, src, dst, verb, bound, force, env);
  }

  lemma RewindRuns(s: State, dst: string, verb: Verb, bound: string, env: Env)
    requires dst in s.snaps
    ensures RewindState(s, dst, verb, bound, env).1 != Refused
  {
    hide FindName, Sealed;
  }

  lemma RefusedIsNothing(s: State, src: string, dst: string, verb: Verb, bound: Option<string>, force: bool, env: Env)
    ensures var (t, o) := TransferState(s, src, dst, verb, bound, force, env); o == Refused ==> t == s
  {
    hide SendState, RewindState, OnlyOnRight, Names;
    if src in s.snaps && (bound.Some? ==> bound.value in Names(s.snaps[src])) {
      match PlanTransfer(s, src, dst, bound, force, env) {
        case Refuse =>
        case Rewind => RewindRuns(s, dst, verb, bound.value, env);
        case Send =>
          var (t, o) := SendState(s, src, dst, verb, bound, env);
          SendNeverRewinds(s, src, dst, verb, bound, env, t, o);
      }
    }
  }

  lemma ArrivedIsReadonly(s: State, src: string, dst: string, verb: Verb, bound: Option<string>, force: bool, env: Env)
    requires src != dst
    ensures var (t, o) := TransferState(s, src, dst, verb, bound, force, env);
      && (o == Sent || o == Rewound ==> dst in t.readonly) && (o == Refused ==> t == s)
  {
    hide TransferState, O.Pointed, O.Landed;
    var (t, o) := TransferState(s, src, dst, verb, bound, force, env);
    if o == Sent || o == Rewound {
      var s1 := O.TransferOutcome(s, src, dst, verb, bound, force, env, t, o);
    }
    RefusedIsNothing(s, src, dst, verb, bound, force, env);
  }

  lemma SealFlag(s: State, dst: string, env: Env)
    ensures forall d :: d != dst ==> (d in Sealed(s, dst, env).0.readonly <==> d in s.readonly)
  {}

  lemma LiftedFlag(s: State, src: string, dst: string, verb: Verb, anchor: string, lifted: bool, env: Env)
    requires src in s.snaps && anchor in Names(s.snaps[src])
    ensures forall d :: d != dst ==>
      (d in LiftedState(s, src, dst, verb, anchor, lifted, env).0.readonly <==> d in s.readonly)
  {
    hide Names, LatestShared, FindName, Stream, Sealed, PointersState, Pruned;
    var (s1, ok) := Deliver(s, src, dst, verb, anchor, env.fault);
    if ok {
      SealFlag(s1, dst, env);
      if verb.Push? {
        PointersEffect(Sealed(s1, dst, env).0, src, dst, verb.mode, env);
      }
    }
  }

  lemma SentFlag(s: State, src: string, dst: string, verb: Verb, bound: Option<string>, env: Env)
    requires src in s.snaps && (bound.Some? ==> bound.value in Names(s.snaps[src]))
    ensures forall d :: d != dst ==> (d in SendState(s, src, dst, verb, bound, env).0.readonly <==> d in s.readonly)
  {
    hide Names, Guids, LiftedState;
    var anchor, a := AnchorName(bound, env), s.snaps[src];
    var s1 := if bound.Some? then s else WithSnapshot(s, src, anchor);
    if bound.None? {
      GuidAt(s1.snaps[src], |a|);
    }
    LiftedFlag(Lifted(s1, dst, verb), src, dst, verb, anchor, LiftsReadonly(s1, dst, verb), env);
  }

  lemma RewoundFlag(s: State, dst: string, verb: Verb, bound: string, env: Env)
    requires dst in s.snaps
    ensures forall d :: d != dst ==> (d in RewindState(s, dst, verb, bound, env).0.readonly <==> d in s.readonly)
  {
    hide FindName, Sealed;
    SealFlag(WithSnaps(Lifted(s, dst, verb), dst, s.snaps[dst][..Cut(s, dst, bound)]), dst, env);
  }

  /** No readonly flag but the destination's changes, the source's own included when it is sent onto itself. */
  lemma OnlyItsFlag(s: State, src: string, dst: string, verb: Verb, bound: Option<string>, force: bool, env: Env)
    ensures forall d :: d != dst ==>
      (d in TransferState(s, src, dst, verb, bound, force, env).0.readonly <==> d in s.readonly)
  {
    hide Names, SendState, RewindState, OnlyOnRight, FindName;
    if src in s.snaps && (bound.Some? ==> bound.value in Names(s.snaps[src])) {
      match PlanTransfer(s, src, dst, bound, force, env) {
        case Refuse =>
        case Rewind => RewoundFlag(s, dst, verb, bound.value, env);
        case Send => SentFlag(s, src, dst, verb, bound, env);
      }
    }
  }

  function Cut(s: State, dst: string, bound: string): (k: nat)
    requires dst in s.snaps
    ensures k <= |s.snaps[dst]|
  {
    var k := FindName(s.snaps[dst], bound);
    if k == |s.snaps[dst]| then 0 else k + 1
  }

  lemma ReadySource(s: State, src: string, dst: string)
    requires Ready(s, src, dst)
    ensures src != dst && src in s.snaps
  {}

  /** An incremental pull reads its peer and writes the side it is called on, never the other way. */
  lemma PullComesFromThePeer(s: State, local: string, bound: Option<string>, force: bool, env: Env)
    requires local in s.props.mirror && Ready(s, RenderPointer(s.props.mirror[local]), local) && local in s.snaps
    ensures var (t, o) := Q.PullState(s, local, bound, force, env); var peer := RenderPointer(s.props.mirror[local]);
      && ReadOnlyFrom(s, t, peer, local) && (o == Refused ==> t == s)
      && (o == Sent || o == Rewound ==> local in t.readonly)
      && (o == Sent ==>
           (bound.Some? ==> bound.value in Names(s.snaps[peer])) && Arrived(s, peer, local, bound, env, t))
  {
    hide TransferState, Arrived, ReadOnlyFrom, Ready, RenderPointer, Names;
    var peer := RenderPointer(s.props.mirror[local]);
    var (t, o) := Q.PullState(s, local, bound, force, env);
    ReadySource(s, peer, local);
    TransferReadsFrom(s, peer, local, Pull, bound, force, env);
    ArrivedIsReadonly(s, peer, local, Pull, bound, force, env);
    if o == Sent {
      TransferArrives(s, peer, local, Pull, bound, force, env, t);
    }
  }

  /** Without a pointer, or with a peer that is gone, neither verb does anything. */
  lemma NothingWithoutPeer(s: State, d: string, bound: Option<string>, force: bool, env: Env)
    requires d in s.props.mirror ==> RenderPointer(s.props.mirror[d]) !in s.snaps
    ensures Q.PullState(s, d, bound, force, env) == (s, Refused)
    ensures Q.PushState(s, d, None, bound, force, env) == (s, Refused)
  {
    hide RenderPointer, PoolOf;
  }

  lemma NothingRead(s: State, src: string, dst: string)
    requires src in s.snaps
    ensures ReadOnlyFrom(s, s, src, dst)
  {}

  /** A push reads the dataset it is called on; without a target it writes the peer, which must exist. */
  lemma PushGoesToThePeer(s: State, src: string, bound: Option<string>, force: bool, env: Env)
    requires src in s.props.mirror && Ready(s, src, RenderPointer(s.props.mirror[src]))
    ensures var (t, o) := Q.PushState(s, src, None, bound, force, env); var peer := RenderPointer(s.props.mirror[src]);
      && ReadOnlyFrom(s, t, src, peer) && (o == Refused ==> t == s) && (peer !in s.snaps ==> o == Refused)
      && (o == Sent || o == Rewound ==> peer in t.readonly && t.props.mirror == s.props.mirror)
      && (o == Sent ==>
           (bound.Some? ==> bound.value in Names(s.snaps[src])) && Arrived(s, src, peer, bound, env, t))
  {
    hide TransferState, Arrived, ReadOnlyFrom, Ready, RenderPointer, Names, OnRootPool;
    var peer := RenderPointer(s.props.mirror[src]);
    var (t, o) := Q.PushState(s, src, None, bound, force, env);
    ReadySource(s, src, peer);
    NothingRead(s, src, peer);
    if Q.PushTarget(s, src, None, bound).Some? {
      TransferReadsFrom(s, src, peer, Push(Existing), bound, force, env);
      ArrivedIsReadonly(s, src, peer, Push(Existing), bound, force, env);
      if o == Sent {
        TransferArrives(s, src, peer, Push(Existing), bound, force, env, t);
      }
      if o == Sent || o == Rewound {
        var s1 := O.TransferOutcome(s, src, peer, Push(Existing), bound, force, env, t, o);
      }
    }
  }

  /** With a target it writes that: a pool gets the dataset's own name, a path is taken as it is. */
  lemma PushGoesToTheTarget(s: State, src: string, spec: string, bound: Option<string>, force: bool, env: Env)
    requires var dst := if '/' in spec then spec else spec + "/ROOT/" + LeafOf(src); Ready(s, src, dst)
    ensures var (t, o) := Q.PushState(s, src, Some(spec), bound, force, env);
            var dst := if '/' in spec then spec else spec + "/ROOT/" + LeafOf(src);
      && ReadOnlyFrom(s, t, src, dst) && (o == Refused ==> t == s)
      && (PoolOf(src) !in s.pools.roots || PoolOf(dst) !in s.pools.roots ==> o == Refused)
      && ('/' in spec && ParsePointer(spec).None? ==> o == Refused)
      && (o == Sent || o == Rewound ==> dst in t.readonly)
      && (o == Sent && ('/' in spec || bound.Some?) && env.soft.clear ==> dst !in t.props.mirror)
      && (o == Sent && '/' !in spec && bound.None? ==> src in t.props.mirror && dst in t.props.mirror)
      && (o == Sent ==> (bound.Some? ==> bound.value in Names(s.snaps[src])) && Arrived(s, src, dst, bound, env, t))
  {
    hide TransferState, Arrived, ReadOnlyFrom, Ready, ParsePointer, Names, LeafOf, PoolOf;
    var dst := if '/' in spec then spec else spec + "/ROOT/" + LeafOf(src);
    var (t, o) := Q.PushState(s, src, Some(spec), bound, force, env);
    ReadySource(s, src, dst);
    NothingRead(s, src, dst);
    var target := Q.PushTarget(s, src, Some(spec), bound);
    if target.Some? {
      var verb := Push(target.value.1);
      TransferReadsFrom(s, src, dst, verb, bound, force, env);
      ArrivedIsReadonly(s, src, dst, verb, bound, force, env);
      if o == Sent {
        TransferArrives(s, src, dst, verb, bound, force, env, t);
        var s1 := O.TransferOutcome(s, src, dst, verb, bound, force, env, t, o);
      }
    }
  }

  lemma PointersAside(s: State, remote: string, local: string, bound: Option<string>, env: Env)
    ensures var t := Q.PulledPointers(s, remote, local, bound, env).0;
      t.snaps == s.snaps && t.readonly == s.readonly && Q.PulledPointers(s, remote, local, bound, env).1 != B.Refused
  {
    hide ParsePointer;
  }

  lemma SameArrival(s: State, src: string, dst: string, bound: Option<string>, env: Env, t: State, u: State)
    requires ReadOnlyFrom(s, t, src, dst) && u.snaps == t.snaps && u.readonly == t.readonly
    requires bound.Some? ==> bound.value in Names(s.snaps[src])
    ensures ReadOnlyFrom(s, u, src, dst) && (Arrived(s, src, dst, bound, env, t) ==>
      Arrived(s, src, dst, bound, env, u))
  {
    hide Names, Kept, Guids, LatestShared;
  }

  /** An initial pull reads the remote and writes a dataset of the given name, which must not exist yet. */
  lemma PullNewComesFromTheRemote(s: State, remote: string, pool: string, name: string, bound: Option<string>,
                                  force: bool, env: Env)
    requires Ready(s, remote, pool + "/ROOT/" + name)
    ensures var (t, o) := Q.PullNewState(s, remote, pool, name, bound, force, env);
            var local := pool + "/ROOT/" + name;
      && ReadOnlyFrom(s, t, remote, local) && (o == B.Refused ==> t == s)
      && (local in s.snaps || '/' !in remote || PoolOf(remote) !in s.pools.roots ==> o == B.Refused)
      && (o == B.Done ==> local in t.readonly)
      && (o == B.Done ==>
           (bound.Some? ==> bound.value in Names(s.snaps[remote])) && Arrived(s, remote, local, bound, env, t))
  {
    hide TransferState, Arrived, ReadOnlyFrom, Ready, ParsePointer, Names, PoolOf, Q.PulledPointers;
    var local := pool + "/ROOT/" + name;
    ReadySource(s, remote, local);
    NothingRead(s, remote, local);
    if Q.CanPullNew(s, remote, pool, name, bound) {
      var (t1, o1) := TransferState(s, remote, local, Pull, bound, force, env);
      TransferReadsFrom(s, remote, local, Pull, bound, force, env);
      ArrivedIsReadonly(s, remote, local, Pull, bound, force, env);
      if o1 == Sent {
        TransferArrives(s, remote, local, Pull, bound, force, env, t1);
        PointersAside(t1, remote, local, bound, env);
        SameArrival(s, remote, local, bound, env, t1, Q.PulledPointers(t1, remote, local, bound, env).0);
      }
    }
  }

  // -------------------------------------------------------------------------
  // Failing commands
  // -------------------------------------------------------------------------

  lemma PointersWent(s: State, src: string, dst: string, mode: Mode, env: Env)
    requires PointersState(s, src, dst, mode, env).1 && mode.BootstrapPaired?
    ensures !env.fault.AtSourcePointer? && (env.fault.AtDestPointer? ==> dst in s.props.mirror || src == dst)
  {
    hide ParsePointer, Flagged;
    var toDst := ParsePointer(dst);
    if toDst.Some? {
      MarkersAside(WithPointer(s, src, toDst.value), src, true, env.soft.markSrc);
    }
  }

  lemma SettleWent(s: State, src: string, dst: string, verb: Verb, anchor: string, env: Env)
    requires src in s.snaps && dst in s.snaps && Settle(s, src, dst, verb, anchor, env).1 == Sent
    ensures !env.fault.AtContract? && !env.fault.AtReadonlyOn?
    ensures verb == Push(BootstrapPaired) ==>
      !env.fault.AtSourcePointer? && (env.fault.AtDestPointer? ==> dst in s.props.mirror || src == dst)
  {
    hide PointersState, Pruned;
    var (s1, kept) := Sealed(s, dst, env);
    if kept && verb == Push(BootstrapPaired) {
      PointersWent(s1, src, dst, verb.mode, env);
    }
  }

  lemma DeliverWent(s: State, src: string, dst: string, verb: Verb, anchor: string, fault: Fault)
    requires src in s.snaps && anchor in Names(s.snaps[src]) && Deliver(s, src, dst, verb, anchor, fault).1
    ensures !fault.AtTransfer?
    ensures var t := Deliver(s, src, dst, verb, anchor, fault).0;
      dst in t.props.mirror ==> dst in s.props.mirror || src in s.props.mirror
  {
    hide Names, Guids, LatestShared, FindName, FindGuid, NamesApart, Received;
  }

  lemma LiftedWent(s: State, src: string, dst: string, verb: Verb, anchor: string, lifted: bool, env: Env)
    requires src in s.snaps && anchor in Names(s.snaps[src])
    requires LiftedState(s, src, dst, verb, anchor, lifted, env).1 == Sent
    ensures !env.fault.AtTransfer? && !env.fault.AtContract? && !env.fault.AtReadonlyOn?
    ensures verb == Push(BootstrapPaired) ==> !env.fault.AtSourcePointer?
    ensures verb == Push(BootstrapPaired) && env.fault.AtDestPointer? ==>
      dst in s.props.mirror || src in s.props.mirror || src == dst
  {
    hide Names, LatestShared, FindName, Settle, Stream, Pruned;
    var (s1, ok) := Deliver(s, src, dst, verb, anchor, env.fault);
    if ok {
      DeliverWent(s, src, dst, verb, anchor, env.fault);
      SettleWent(s1, src, dst, verb, anchor, env);
    }
  }

  /** A transfer that reports success had every one of its commands succeed. */
  lemma EveryCommandWent(s: State, src: string, dst: string, verb: Verb, bound: Option<string>, force: bool, env: Env,
                         t: State)
    requires (t, Sent) == TransferState(s, src, dst, verb, bound, force, env)
    ensures !env.fault.AtTransfer? && !env.fault.AtContract? && !env.fault.AtReadonlyOn?
    ensures bound.None? ==> !env.fault.AtSnapshot?
    ensures env.fault.AtReadonlyOff? ==> dst !in s.snaps || dst !in s.readonly || (dst in s.mounted && !verb.Pull?)
    ensures verb == Push(BootstrapPaired) ==> !env.fault.AtSourcePointer?
    ensures verb == Push(BootstrapPaired) && env.fault.AtDestPointer? ==>
      dst in s.props.mirror || src in s.props.mirror || src == dst
  {
    hide Names, Guids, LiftedState, OnlyOnRight, AfterBound, FindName, Sealed;
    var anchor, a := AnchorName(bound, env), s.snaps[src];
    var s1 := if bound.Some? then s else WithSnapshot(s, src, anchor);
    if bound.None? {
      GuidAt(s1.snaps[src], |a|);
    }
    if PlanTransfer(s, src, dst, bound, force, env) == Send {
      LiftedWent(Lifted(s1, dst, verb), src, dst, verb, anchor, LiftsReadonly(s1, dst, verb), env);
    }
  }

  lemma LiftedInterrupted(s: State, src: string, dst: string, verb: Verb, anchor: string, lifted: bool, env: Env)
    requires src in s.snaps && dst in s.snaps && anchor in Names(s.snaps[src]) && env.fault.AtTransfer?
    ensures var (t, o) := LiftedState(s, src, dst, verb, anchor, lifted, env);
      o == Failed ==> t.readonly == s.readonly + if lifted && env.restoreOk then {dst} else {}
  {
    hide Names, LatestShared, FindName, Settle, Received, NamesApart, Guids, Pruned;
  }

  lemma LiftedNot(s: State, src: string, dst: string, verb: Verb, anchor: string, env: Env)
    requires src in s.snaps && anchor in Names(s.snaps[src]) && dst in s.snaps && dst in s.readonly
    ensures dst in LiftedState(s, src, dst, verb, anchor, false, env).0.readonly
  {
    hide Names, LatestShared, FindName, Stream, PointersState, Pruned;
    var (s1, ok) := Deliver(s, src, dst, verb, anchor, env.fault);
    if ok && verb.Push? {
      PointersEffect(Sealed(s1, dst, env).0, src, dst, verb.mode, env);
    }
  }

  /** What is running and readonly stays readonly through any push or mirror onto it; only pull lifts the flag there. */
  lemma LiveStaysReadonly(s: State, src: string, dst: string, verb: Verb, bound: Option<string>, force: bool, env: Env)
    requires dst in s.snaps && dst in s.mounted && dst in s.readonly && !verb.Pull?
    ensures dst in TransferState(s, src, dst, verb, bound, force, env).0.readonly
  {
    hide Names, Guids, LiftedState, OnlyOnRight, FindName;
    if src in s.snaps && (bound.Some? ==> bound.value in Names(s.snaps[src])) {
      if PlanTransfer(s, src, dst, bound, force, env) == Send {
        var anchor, a := AnchorName(bound, env), s.snaps[src];
        var s1 := if bound.Some? then s else WithSnapshot(s, src, anchor);
        if bound.None? {
          GuidAt(s1.snaps[src], |a|);
        }
        LiftedNot(s1, src, dst, verb, anchor, env);
      }
    }
  }

  /** Interrupted, a transfer sets readonly again where it had lifted it, if that command works. */
  lemma InterruptedStaysReadonly(s: State, src: string, dst: string, verb: Verb, bound: Option<string>, force: bool,
                                 env: Env)
    requires dst in s.snaps && env.fault.AtTransfer? && env.restoreOk
    ensures var (t, o) := TransferState(s, src, dst, verb, bound, force, env); o == Failed ==> t.readonly == s.readonly
  {
    hide Names, Guids, LiftedState, OnlyOnRight, AfterBound, FindName, Sealed;
    if src in s.snaps && (bound.Some? ==> bound.value in Names(s.snaps[src])) {
      var anchor, a := AnchorName(bound, env), s.snaps[src];
      var s1 := if bound.Some? then s else WithSnapshot(s, src, anchor);
      if bound.None? {
        GuidAt(s1.snaps[src], |a|);
      }
      LiftedInterrupted(Lifted(s1, dst, verb), src, dst, verb, anchor, LiftsReadonly(s1, dst, verb), env);
    }
  }

  lemma LiftedLeftover(s: State, src: string, dst: string, verb: Verb, anchor: string, env: Env)
    requires src in s.snaps && dst !in s.snaps && anchor in Names(s.snaps[src]) && src != dst
    requires env.fault.AtContract? || env.fault.AtReadonlyOn?
    ensures var t := LiftedState(s, src, dst, verb, anchor, false, env).0;
      dst in t.snaps ==> (dst in t.readonly <==> src in s.readonly)
  {
    hide Names, LatestShared, FindName, Stream, Pruned;
  }

  /** A new dataset whose transfer failed once delivered is readonly exactly when its source is. */
  lemma LeftoverCopiesReadonly(s: State, src: string, dst: string, verb: Verb, bound: Option<string>, force: bool,
                               env: Env)
    requires src in s.snaps && dst !in s.snaps && (env.fault.AtContract? || env.fault.AtReadonlyOn?)
    ensures var t := TransferState(s, src, dst, verb, bound, force, env).0;
      dst in t.snaps ==> (dst in t.readonly <==> src in s.readonly)
  {
    hide Names, Guids, LiftedState, OnlyOnRight, FindName;
    if bound.Some? ==> bound.value in Names(s.snaps[src]) {
      if PlanTransfer(s, src, dst, bound, force, env) == Send {
        var anchor, a := AnchorName(bound, env), s.snaps[src];
        var s1 := if bound.Some? then s else WithSnapshot(s, src, anchor);
        if bound.None? {
          GuidAt(s1.snaps[src], |a|);
        }
        LiftedLeftover(s1, src, dst, verb, anchor, env);
      }
    }
  }
}
