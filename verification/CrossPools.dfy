// Pairs across pools: which runs keep every pointer at another pool than its holder's, and
// which verbs do not.

module CrossPools {
  import opened Text
  import opened Snapshots
  import opened World
  import opened Clones
  import opened Default
  import opened Pointers
  import opened PointerRuns
  import B = Bindings
  import D = Drop
  import M = Promotions
  import T = Transfer
  import G = Guarantees
  import O = Outcomes

  ghost predicate CrossPool(s: State) {
    forall d :: d in s.props.mirror ==> s.props.mirror[d].pool != PoolOf(d)
  }

  /** A pointer parsed from a name is at that name's pool. */
  lemma ParsedPool(d: string)
    requires ParsePointer(d).Some? && Trim(d) == d
    ensures ParsePointer(d).value.pool == PoolOf(d) && d == RenderPointer(PairPointer(PoolOf(d), LeafOf(d)))
  {
    hide ParsePointer, RenderPointer, Trim, PoolOf, LeafOf;
    ParsedPointer(d);
    CanonicalParts(ParsePointer(d).value);
  }

  /** Nothing is copied, or what is copied to a new dataset points elsewhere than at its own pool. */
  predicate CopiesCross(s: State, src: string, dst: string) {
    dst in s.snaps || src !in s.props.mirror || s.props.mirror[src].pool != PoolOf(dst)
  }

  /** A transfer that copies no pointer home, and bootstraps only across pools. */
  lemma TransferKeepsCrossPool(s: State, t: State, src: string, dst: string, verb: T.Verb)
    requires CrossPool(s) && PushedPointers(s, t, src, dst, verb) && CopiesCross(s, src, dst)
    requires src != dst && verb == T.Push(T.BootstrapPaired) && ParsePointer(src).Some? && ParsePointer(dst).Some? ==>
      Trim(src) == src && Trim(dst) == dst && PoolOf(src) != PoolOf(dst)
    ensures CrossPool(t)
  {
    hide ParsePointer, PoolOf, LeafOf, RenderPointer, Trim;
    forall d | d in t.props.mirror ensures t.props.mirror[d].pool != PoolOf(d) {
      assert PointerFrom(s, t, src, dst, verb, d);
      if src != dst && PointerBetween(src, dst, verb, d, t.props.mirror[d]) {
        ParsedPool(src);
        ParsedPool(dst);
      }
    }
  }

  // -------------------------------------------------------------------------
  // push
  // -------------------------------------------------------------------------

  /** A bootstrap keeps the leaf, so within one pool it is onto itself. */
  lemma BootstrapIsAcross(src: string, pool: string)
    requires '/' !in pool && ParsePointer(src).Some? && Trim(src) == src
    ensures var dst := RenderPointer(PairPointer(pool, LeafOf(src)));
      PoolOf(dst) == pool && (PoolOf(src) == pool ==> dst == src)
  {
    hide ParsePointer, Trim, PoolOf, LeafOf, RenderPointer;
    ParsedPool(src);
    PoolOfPath(pool, LeafOf(src));
  }

  lemma PushTransfers(s: State, src: string, to: Option<string>, bound: Option<string>, force: bool, env: T.Env)
    requires s.props.mirror.Keys <= s.snaps.Keys && PushTarget(s, src, to, bound).Some?
    ensures var (dst, mode) := PushTarget(s, src, to, bound).value;
      && src in s.snaps && PushedPointers(s, PushState(s, src, to, bound, force, env).0, src, dst, T.Push(mode))
  {
    hide T.TransferState, PushedPointers, ToTarget, PoolOf, RenderPointer;
    var target := PushTarget(s, src, to, bound).value;
    TransferPointers(s, src, target.0, T.Push(target.1), bound, force, env);
  }

  /** The target of a bootstrap is on another pool, or the source itself. */
  lemma BootstrapTarget(s: State, src: string, to: Option<string>, bound: Option<string>)
    requires WellNamed(s) && PushTarget(s, src, to, bound).Some? &&
      PushTarget(s, src, to, bound).value.1.BootstrapPaired?
    requires ParsePointer(src).Some?
    ensures var dst := PushTarget(s, src, to, bound).value.0; dst != src ==> PoolOf(src) != PoolOf(dst)
  {
    hide ParsePointer, Trim, PoolOf, LeafOf, RenderPointer;
    BootstrapIsAcross(src, to.value);
  }

  lemma NothingPushed(s: State, t: State, src: string, dst: string, verb: T.Verb)
    requires CrossPool(s) && PushedPointers(s, t, src, dst, verb) && dst !in t.snaps
    ensures CrossPool(t)
  {
    hide PoolOf;
    forall d | d in t.props.mirror ensures t.props.mirror[d].pool != PoolOf(d) {
      assert PointerFrom(s, t, src, dst, verb, d);
    }
  }

  lemma PushKeepsCrossPool(s: State, src: string, to: Option<string>, bound: Option<string>, force: bool, env: T.Env)
    requires s.props.mirror.Keys <= s.snaps.Keys && CrossPool(s) && WellNamed(s)
    requires WellNamed(PushState(s, src, to, bound, force, env).0)
    requires PushTarget(s, src, to, bound).Some? ==> CopiesCross(s, src, PushTarget(s, src, to, bound).value.0)
    ensures CrossPool(PushState(s, src, to, bound, force, env).0)
  {
    hide T.TransferState, PushTarget, PushedPointers, CrossPool, ParsePointer, PoolOf, LeafOf, RenderPointer, Trim,
         CopiesCross;
    if PushTarget(s, src, to, bound).Some? {
      var (dst, mode) := PushTarget(s, src, to, bound).value;
      var t := PushState(s, src, to, bound, force, env).0;
      PushTransfers(s, src, to, bound, force, env);
      if mode.BootstrapPaired? && ParsePointer(src).Some? {
        BootstrapTarget(s, src, to, bound);
      }
      if dst in t.snaps {
        TransferKeepsCrossPool(s, t, src, dst, T.Push(mode));
      } else {
        NothingPushed(s, t, src, dst, T.Push(mode));
      }
    }
  }

  lemma NewTarget(s: State, src: string, to: Option<string>, bound: Option<string>)
    requires PushTarget(s, src, to, bound).Some? && PushTarget(s, src, to, bound).value.0 !in s.snaps
    ensures !PushTarget(s, src, to, bound).value.1.Existing?
  {
    hide PoolOf, LeafOf, RenderPointer, ParsePointer;
  }

  lemma CopiedPointer(s: State, src: string, dst: string)
    requires s.props.mirror.Keys <= s.snaps.Keys && dst !in s.snaps && src in s.props.mirror
    ensures O.Landed(s, src, dst).mirror == s.props.mirror[dst := s.props.mirror[src]]
    ensures O.Landed(s, src, dst).mirror - {dst} == s.props.mirror
  {}

  lemma SamePairs(s: State, t: State)
    requires CrossPool(s) && t.props.mirror == s.props.mirror
    ensures CrossPool(t)
  {}

  lemma Home(s: State, d: string)
    requires d in s.props.mirror && s.props.mirror[d].pool == PoolOf(d)
    ensures !CrossPool(s)
  {}

  /** A push that ends with the copied pointer still on a new dataset: a bootstrap, or a copy whose clear failed. */
  predicate KeepsCopy(mode: T.Mode, env: T.Env) {
    mode.BootstrapPaired? || (mode.AdHocUnpaired? && !env.soft.clear)
  }

  /**
   * A completed push keeps every pair across pools exactly when it does not keep a copied pointer on a new dataset on
   * the pool the source already points at.
   */
  lemma CompletedPushCrosses(s: State, src: string, to: Option<string>, bound: Option<string>, force: bool,
                             env: T.Env, t: State)
    requires s.props.mirror.Keys <= s.snaps.Keys && CrossPool(s) && WellNamed(s) && WellNamed(t)
    requires (t, T.Sent) == PushState(s, src, to, bound, force, env)
    ensures PushTarget(s, src, to, bound).Some?
    ensures CrossPool(t) <==>
      KeepsCopy(PushTarget(s, src, to, bound).value.1, env) ==>
        CopiesCross(s, src, PushTarget(s, src, to, bound).value.0)
  {
    hide T.TransferState, PushTarget, CrossPool, ParsePointer, PoolOf, LeafOf, RenderPointer, Trim, O.Contracted;
    var (dst, mode) := PushTarget(s, src, to, bound).value;
    if CopiesCross(s, src, dst) {
      PushKeepsCrossPool(s, src, to, bound, force, env);
    } else {
      PushTransfers(s, src, to, bound, force, env);
      var s1 := O.TransferOutcome(s, src, dst, T.Push(mode), bound, force, env, t, T.Sent);
      NewTarget(s, src, to, bound);
      CopiedPointer(s, src, dst);
      if mode.AdHocUnpaired? && env.soft.clear {
        assert t.props.mirror == s.props.mirror;
        SamePairs(s, t);
      } else {
        assert dst in t.props.mirror && t.props.mirror[dst] == s.props.mirror[src];
        Home(t, dst);
      }
    }
  }

  // -------------------------------------------------------------------------
  // Transfers cut short
  // -------------------------------------------------------------------------

  ghost predicate HasCopy(t: State, dst: string, p: PairPointer) {
    dst in t.props.mirror && t.props.mirror[dst] == p
  }

  lemma SettleKeepsCopy(s: State, src: string, dst: string, verb: T.Verb, anchor: string, env: T.Env, t: State,
                        p: PairPointer)
    requires src != dst && src in s.snaps && dst in s.snaps && HasCopy(s, dst, p)
    requires (t, T.Failed) == T.Settle(s, src, dst, verb, anchor, env)
    ensures HasCopy(t, dst, p)
  {
    hide ParsePointer, Pruned;
  }

  lemma LiftedKeepsCopy(s: State, src: string, dst: string, verb: T.Verb, anchor: string, lifted: bool, env: T.Env,
                        t: State)
    requires src in s.snaps && dst !in s.snaps && src in s.props.mirror && anchor in Names(s.snaps[src])
    requires (t, T.Failed) == T.LiftedState(s, src, dst, verb, anchor, lifted, env) && dst in t.snaps
    ensures HasCopy(t, dst, s.props.mirror[src])
  {
    hide T.Stream, T.Settle, Names, Pruned, LatestShared, FindName;
    var (s1, ok) := T.Deliver(s, src, dst, verb, anchor, env.fault);
    if ok {
      SettleKeepsCopy(s1, src, dst, verb, anchor, env, t, s.props.mirror[src]);
    }
  }

  /** What a transfer has delivered to a new dataset when it fails still has the source's pointer. */
  lemma FailedKeepsCopy(s: State, src: string, dst: string, verb: T.Verb, bound: Option<string>, force: bool,
                        env: T.Env, t: State)
    requires src in s.snaps && dst !in s.snaps && src in s.props.mirror
    requires (t, T.Failed) == T.TransferState(s, src, dst, verb, bound, force, env) && dst in t.snaps
    ensures HasCopy(t, dst, s.props.mirror[src])
  {
    hide T.LiftedState, Names, Guids, OnlyOnRight, HasCopy;
    var anchor, a := T.AnchorName(bound, env), s.snaps[src];
    var s1 := if bound.Some? then s else WithSnapshot(s, src, anchor);
    if bound.None? {
      GuidAt(s1.snaps[src], |a|);
    }
    var lifted := T.LiftsReadonly(s1, dst, verb);
    LiftedKeepsCopy(T.Lifted(s1, dst, verb), src, dst, verb, anchor, lifted, env, t);
  }

  /**
   * A push that fails once it has delivered a new dataset keeps every pair across pools exactly when the copy
   * crosses.
   */
  lemma FailedPushCrosses(s: State, src: string, to: Option<string>, bound: Option<string>, force: bool, env: T.Env,
                          t: State)
    requires s.props.mirror.Keys <= s.snaps.Keys && CrossPool(s) && WellNamed(s) && WellNamed(t)
    requires (t, T.Failed) == PushState(s, src, to, bound, force, env) && PushTarget(s, src, to, bound).Some?
    requires PushTarget(s, src, to, bound).value.0 !in s.snaps && PushTarget(s, src, to, bound).value.0 in t.snaps
    ensures CrossPool(t) <==> CopiesCross(s, src, PushTarget(s, src, to, bound).value.0)
  {
    hide T.TransferState, PushTarget, CrossPool, ParsePointer, PoolOf, LeafOf, RenderPointer, Trim;
    var (dst, mode) := PushTarget(s, src, to, bound).value;
    if CopiesCross(s, src, dst) {
      PushKeepsCrossPool(s, src, to, bound, force, env);
    } else {
      PushTransfers(s, src, to, bound, force, env);
      FailedKeepsCopy(s, src, dst, T.Push(mode), bound, force, env, t);
      Home(t, dst);
    }
  }

  // -------------------------------------------------------------------------
  // pull
  // -------------------------------------------------------------------------

  /** The pointers an unbounded initial pull can leave. */
  lemma PulledLeft(s: State, remote: string, local: string, env: T.Env)
    requires ParsePointer(remote).Some? && ParsePointer(local).Some?
    ensures var (t, o) := PulledPointers(s, remote, local, None, env);
            var one := s.props.mirror[local := ParsePointer(remote).value];
            var both := if remote in one then one else one[remote := ParsePointer(local).value];
      && (o == B.Done ==> t.props.mirror == both)
      && (o != B.Done ==> t.props.mirror == s.props.mirror || t.props.mirror == one)
  {
    hide ParsePointer, T.Flagged;
    T.MarkersAside(WithPointer(s, local, ParsePointer(remote).value), local, false, env.soft.markDst);
  }

  lemma PulledCrosses(t: State, remote: string, local: string, bound: Option<string>, env: T.Env)
    requires CrossPool(t) && Trim(remote) == remote && Trim(local) == local
    requires bound.None? ==> PoolOf(remote) != PoolOf(local)
    ensures CrossPool(PulledPointers(t, remote, local, bound, env).0)
  {
    hide ParsePointer, PoolOf, LeafOf, RenderPointer, Trim, T.Flagged;
    if bound.None? && ParsePointer(remote).Some? && ParsePointer(local).Some? {
      ParsedPool(remote);
      ParsedPool(local);
      PulledLeft(t, remote, local, env);
    }
  }

  /** What a pull creates, with its name. */
  lemma PullNewArrives(s: State, remote: string, pool: string, name: string, bound: Option<string>, force: bool,
                       env: T.Env)
    requires s.props.mirror.Keys <= s.snaps.Keys && '/' !in pool && CanPullNew(s, remote, pool, name, bound)
    ensures var local := RenderPointer(PairPointer(pool, name));
            var (t, o) := T.TransferState(s, remote, local, T.Pull, bound, force, env);
      && remote != local && PoolOf(local) == pool && PushedPointers(s, t, remote, local, T.Pull)
      && (o == T.Sent ==> local in t.snaps && local in PullNewState(s, remote, pool, name, bound, force, env).0.snaps)
  {
    hide T.TransferState, PushedPointers, ParsePointer, PoolOf, RenderPointer;
    var local := RenderPointer(PairPointer(pool, name));
    var (t, o) := T.TransferState(s, remote, local, T.Pull, bound, force, env);
    PoolOfPath(pool, name);
    TransferPointers(s, remote, local, T.Pull, bound, force, env);
    if o == T.Sent {
      G.SentArrives(s, remote, local, T.Pull, bound, force, env, t);
    }
  }

  lemma PullNewKeepsCrossPool(s: State, remote: string, pool: string, name: string, bound: Option<string>,
                              force: bool, env: T.Env)
    requires s.props.mirror.Keys <= s.snaps.Keys && '/' !in pool && CrossPool(s) && WellNamed(s)
    requires WellNamed(PullNewState(s, remote, pool, name, bound, force, env).0)
    requires bound.None? ==> PoolOf(remote) != pool
    requires CopiesCross(s, remote, RenderPointer(PairPointer(pool, name)))
    ensures CrossPool(PullNewState(s, remote, pool, name, bound, force, env).0)
  {
    hide T.TransferState, PushedPointers, CrossPool, ParsePointer, PoolOf, RenderPointer, Trim, CopiesCross,
         PulledPointers;
    var local := RenderPointer(PairPointer(pool, name));
    if CanPullNew(s, remote, pool, name, bound) {
      var (t, o) := T.TransferState(s, remote, local, T.Pull, bound, force, env);
      PullNewArrives(s, remote, pool, name, bound, force, env);
      TransferKeepsCrossPool(s, t, remote, local, T.Pull);
      if o == T.Sent {
        PulledCrosses(t, remote, local, bound, env);
      }
    }
  }

  /** What decides for a completed initial pull: unbounded where it comes from, bounded what was copied and stayed. */
  predicate PullCrosses(s: State, remote: string, local: string, bound: Option<string>, env: T.Env) {
    if bound.Some? then env.soft.clear || CopiesCross(s, remote, local) else PoolOf(remote) != PoolOf(local)
  }

  lemma BoundedPullCrosses(s: State, t1: State, remote: string, local: string, clear: bool)
    requires CrossPool(s) && local !in s.snaps && s.props.mirror.Keys <= s.snaps.Keys
    requires t1.props.mirror == O.Landed(s, remote, local).mirror
    ensures CrossPool(T.Cleared(t1, local, clear)) <==> clear || CopiesCross(s, remote, local)
  {
    hide PoolOf;
    var t := T.Cleared(t1, local, clear);
    if !clear && remote in s.props.mirror {
      assert local in t.props.mirror && t.props.mirror[local] == s.props.mirror[remote];
    }
  }

  lemma PulledParses(s: State, remote: string, local: string, env: T.Env)
    requires PulledPointers(s, remote, local, None, env).1 == B.Done
    ensures ParsePointer(remote).Some? && ParsePointer(local).Some?
  {
    hide ParsePointer;
  }

  lemma UnboundedPullCrosses(s: State, t1: State, t: State, remote: string, local: string, env: T.Env)
    requires CrossPool(s) && local !in s.snaps && s.props.mirror.Keys <= s.snaps.Keys
    requires Trim(remote) == remote && Trim(local) == local
    requires t1.props.mirror == O.Landed(s, remote, local).mirror
    requires (t, B.Done) == PulledPointers(t1, remote, local, None, env)
    ensures CrossPool(t) <==> PoolOf(remote) != PoolOf(local)
  {
    hide ParsePointer, PoolOf, LeafOf, RenderPointer, Trim, PulledPointers;
    PulledParses(t1, remote, local, env);
    PulledLeft(t1, remote, local, env);
    ParsedPool(remote);
    ParsedPool(local);
    assert local in t.props.mirror;
  }

  lemma PulledFrom(s: State, t1: State, t: State, remote: string, local: string, bound: Option<string>, env: T.Env)
    requires CrossPool(s) && local !in s.snaps && s.props.mirror.Keys <= s.snaps.Keys
    requires Trim(remote) == remote && Trim(local) == local
    requires t1.props.mirror == O.Landed(s, remote, local).mirror
    requires (t, B.Done) == PulledPointers(t1, remote, local, bound, env)
    ensures CrossPool(t) <==> PullCrosses(s, remote, local, bound, env)
  {
    hide CrossPool, ParsePointer, PoolOf, Trim, CopiesCross;
    if bound.None? {
      UnboundedPullCrosses(s, t1, t, remote, local, env);
    } else {
      BoundedPullCrosses(s, t1, remote, local, env.soft.clear);
    }
  }

  /**
   * A completed initial pull keeps every pair across pools exactly when, unbounded, it is from another pool, and,
   * bounded, the copied pointer is cleared or at another pool.
   */
  lemma CompletedPullCrosses(s: State, remote: string, pool: string, name: string, bound: Option<string>, force: bool,
                             env: T.Env, t: State)
    requires s.props.mirror.Keys <= s.snaps.Keys && '/' !in pool && CrossPool(s) && WellNamed(s) && WellNamed(t)
    requires (t, B.Done) == PullNewState(s, remote, pool, name, bound, force, env)
    ensures CrossPool(t) <==> PullCrosses(s, remote, RenderPointer(PairPointer(pool, name)), bound, env)
  {
    hide T.TransferState, PushedPointers, CrossPool, ParsePointer, PoolOf, RenderPointer, Trim, O.Contracted;
    var local := RenderPointer(PairPointer(pool, name));
    var (t1, o) := T.TransferState(s, remote, local, T.Pull, bound, force, env);
    PullNewArrives(s, remote, pool, name, bound, force, env);
    var s1 := O.TransferOutcome(s, remote, local, T.Pull, bound, force, env, t1, T.Sent);
    PulledFrom(s, t1, t, remote, local, bound, env);
  }

  // -------------------------------------------------------------------------
  // The other verbs
  // -------------------------------------------------------------------------

  lemma PairKeepsCrossPool(s: State, a: string, b: string, force: bool, writes: nat)
    requires CrossPool(s) && WellNamed(s)
    ensures CrossPool(PairState(s, a, b, force, writes).0)
  {
    hide ParsePointer, PoolOf, LeafOf, RenderPointer, Trim, NotDiverged;
    if CanPair(s, a, b, force) {
      ParsedPool(a);
      ParsedPool(b);
    }
  }

  lemma FewerPairs(s: State, t: State)
    requires CrossPool(s) && forall d :: d in t.props.mirror ==>
      d in s.props.mirror && t.props.mirror[d] == s.props.mirror[d]
    ensures CrossPool(t)
  {}

  lemma UnpairKeepsCrossPool(s: State, be: string, env: UnpairEnv)
    requires CrossPool(s)
    ensures CrossPool(UnpairState(s, be, env).0)
  {
    hide ParsePointer, RenderPointer, CrossPool;
    FewerPairs(s, UnpairState(s, be, env).0);
  }

  lemma PullKeepsCrossPool(s: State, local: string, bound: Option<string>, force: bool, env: T.Env)
    requires s.props.mirror.Keys <= s.snaps.Keys && CrossPool(s)
    ensures CrossPool(PullState(s, local, bound, force, env).0)
  {
    hide ParsePointer, RenderPointer, T.TransferState, PushedPointers, CrossPool;
    var peer := PeerOf(s, local);
    if local in s.snaps && peer.Some? && peer.value in s.snaps {
      TransferPointers(s, peer.value, local, T.Pull, bound, force, env);
      TransferKeepsCrossPool(s, PullState(s, local, bound, force, env).0, peer.value, local, T.Pull);
    }
  }

  lemma ForkKeepsCrossPool(s: State, snap: SnapshotRef, name: string, intact: bool, lists: seq<string>, env: B.ForkEnv)
    requires CrossPool(s)
    ensures CrossPool(B.ForkState(s, snap, name, intact, lists, env).0)
  {
    hide PoolOf, LeafOf, B.Joined, B.Elements, RenderPointer;
    if B.BareName(name) {
      ForkedPool(snap, name);
    }
  }

  lemma DropKeepsCrossPool(s: State, target: string, stuck: set<string>, done: set<string>)
    requires CrossPool(s)
    ensures CrossPool(D.DroppedState(s, target, stuck, done))
  {
    hide ParsePointer, PoolOf, D.PurgedIn, CrossPool;
    FewerPairs(s, D.DroppedState(s, target, stuck, done));
  }

  lemma RewrittenHolders(s: State, was: string, incoming: seq<string>, n: nat)
    requires ParsePointer(was).Some? && Lists(incoming, D.Incoming(s, ParsePointer(was).value)) && n <= |incoming|
    ensures B.Elements(incoming[..n]) <= D.Incoming(s, ParsePointer(was).value)
  {
    hide ParsePointer, PoolOf;
    forall d | d in incoming[..n] ensures d in D.Incoming(s, ParsePointer(was).value) {
      assert d in incoming;
    }
  }

  lemma RenamedCrosses(s: State, was: string, now: string, done: set<string>)
    requires CrossPool(s) && D.Owned(s) && was in s.snaps && now !in s.snaps && PoolOf(was) == PoolOf(now)
    requires ParsePointer(was).Some? && ParsePointer(now).Some? && was !in done
    requires ParsePointer(was).value.pool == PoolOf(was) && ParsePointer(now).value.pool == PoolOf(now)
    requires done <= D.Incoming(s, ParsePointer(was).value)
    ensures CrossPool(RenamedWith(s, was, now, done))
  {
    hide ParsePointer, PoolOf;
    var t := RenamedWith(s, was, now, done);
    forall d1 | d1 in t.props.mirror ensures t.props.mirror[d1].pool != PoolOf(d1) {
      RenamedHolders(s, was, now, done, d1);
    }
  }

  lemma RenameKeepsCrossPool(s: State, was: string, name: string, incoming: seq<string>, renameOk: bool,
                             bootfsOk: bool, writes: nat)
    requires CrossPool(s) && RenameReady(s, was, name, incoming)
    ensures CrossPool(RenameState(s, was, name, incoming, renameOk, bootfsOk, writes).0)
  {
    hide ParsePointer, PoolOf, LeafOf, RenderPointer, PlainPointer, Trim, RenameState, RenamedWith, CrossPool;
    if !renameOk {
      RenameFails(s, was, name, incoming, bootfsOk, writes);
    } else {
      var now := NewName(was, name);
      var n := RenameShape(s, was, name, incoming, bootfsOk, writes);
      var done := B.Elements(incoming[..n]);
      ParsedPool(was);
      ParsedPool(now);
      CanonicalParts(PairPointer(PoolOf(was), name));
      RewrittenHolders(s, was, incoming, n);
      RenamedCrosses(s, was, now, done);
      SamePairs(RenamedWith(s, was, now, done), RenameState(s, was, name, incoming, renameOk, bootfsOk, writes).0);
    }
  }

  // -------------------------------------------------------------------------
  // Whole runs
  // -------------------------------------------------------------------------

  /**
   * No unbounded `pull --name` within one pool, and nothing new on the pool its source already points at, unless as an
   * ad-hoc copy or an initial pull that completes and gets rid of the copied pointer.
   */
  ghost predicate Crosses(s: State, c: Command) {
    match c
    case PushBe(src, to, bound, force, env) =>
      var t := PushTarget(s, src, to, bound);
      || t.None? || CopiesCross(s, src, t.value.0)
      || (!KeepsCopy(t.value.1, env) && PushState(s, src, to, bound, force, env).1 == T.Sent)
    case PullAs(remote, pool, name, bound, force, env) =>
      '/' !in pool && CanPullNew(s, remote, pool, name, bound) ==>
        && (bound.None? ==> PoolOf(remote) != pool)
        && (CopiesCross(s, remote, RenderPointer(PairPointer(pool, name))) ||
            (PullNewState(s, remote, pool, name, bound, force, env).1 == B.Done && (bound.Some? ==> env.soft.clear)))
    case _ => true
  }

  lemma PushStepCrosses(s: State, src: string, to: Option<string>, bound: Option<string>, force: bool, env: T.Env)
    requires s.props.mirror.Keys <= s.snaps.Keys && CrossPool(s) && WellNamed(s)
    requires WellNamed(PushState(s, src, to, bound, force, env).0) && Crosses(s, PushBe(src, to, bound, force, env))
    ensures CrossPool(PushState(s, src, to, bound, force, env).0)
  {
    hide WellNamed, CrossPool, PushState, PushTarget, CopiesCross;
    var (t, o) := PushState(s, src, to, bound, force, env);
    if PushTarget(s, src, to, bound).Some? && !CopiesCross(s, src, PushTarget(s, src, to, bound).value.0) {
      CompletedPushCrosses(s, src, to, bound, force, env, t);
    } else {
      PushKeepsCrossPool(s, src, to, bound, force, env);
    }
  }

  lemma PullStepCrosses(s: State, remote: string, pool: string, name: string, bound: Option<string>, force: bool,
                        env: T.Env)
    requires s.props.mirror.Keys <= s.snaps.Keys && '/' !in pool && CrossPool(s) && WellNamed(s)
    requires WellNamed(PullNewState(s, remote, pool, name, bound, force, env).0)
    requires Crosses(s, PullAs(remote, pool, name, bound, force, env))
    ensures CrossPool(PullNewState(s, remote, pool, name, bound, force, env).0)
  {
    hide WellNamed, CrossPool, PulledPointers, T.TransferState, CopiesCross, CanPullNew, PoolOf, RenderPointer;
    var (t, o) := PullNewState(s, remote, pool, name, bound, force, env);
    if CanPullNew(s, remote, pool, name, bound) {
      PoolOfPath(pool, name);
      if o == B.Done {
        CompletedPullCrosses(s, remote, pool, name, bound, force, env, t);
      } else {
        PullNewKeepsCrossPool(s, remote, pool, name, bound, force, env);
      }
    }
  }

  lemma StepKeepsCrossPool(s: State, c: Command)
    requires Sound(s) && CrossPool(s) && WellNamed(s) && WellNamed(Step(s, c)) && Permitted(s, c) && Crosses(s, c)
    ensures CrossPool(Step(s, c))
  {
    hide Sound, WellNamed, CrossPool, PairState, UnpairState, PushState, PullState, PullNewState, RenameState,
         B.ForkState, D.DroppedState, M.PromoteAll, RenameReady, CanRename, RenameHolds, PushTarget, CopiesCross,
         CanPullNew, PoolOf, RenderPointer;
    OwnPointers(s);
    match c {
      case PairUp(a, b, force, writes) => PairKeepsCrossPool(s, a, b, force, writes);
      case UnpairOne(be, env) => UnpairKeepsCrossPool(s, be, env);
      case PushBe(src, to, bound, force, env) => PushStepCrosses(s, src, to, bound, force, env);
      case PullBe(local, bound, force, env) => PullKeepsCrossPool(s, local, bound, force, env);
      case PullAs(remote, pool, name, bound, force, env) =>
        if '/' !in pool {
          PullStepCrosses(s, remote, pool, name, bound, force, env);
        }
      case ForkFrom(snap, name, intact, lists, env) => ForkKeepsCrossPool(s, snap, name, intact, lists, env);
      case DropBe(target, promoted, purged, stuck) =>
        var s1 := M.PromoteAll(s, promoted);
        M.PromotionsKeepProps(s, promoted);
        SamePairs(s, s1);
        if purged.Some? {
          DropKeepsCrossPool(s1, target, stuck, purged.value);
        }
      case RenameBe(was, name, incoming, renameOk, bootfsOk, writes) =>
        if CanRename(s, was, name) {
          RenameKeepsCrossPool(s, was, name, incoming, renameOk, bootfsOk, writes);
        }
    }
  }

  ghost predicate AllCross(s: State, cs: seq<Command>) {
    cs == [] || (AllCross(s, cs[..|cs| - 1]) && Crosses(Exec(s, cs[..|cs| - 1]), cs[|cs| - 1]))
  }

  /** Every pointer stays at another pool over runs without those steps. */
  lemma {:induction false} RunKeepsCrossPool(s: State, cs: seq<Command>)
    requires Sound(s) && WellNamed(s) && CrossPool(s) && AllPermitted(s, cs) && AllCross(s, cs)
    ensures CrossPool(Exec(s, cs))
  {
    hide Sound, WellNamed, NoDangling, CrossPool, Permitted, Crosses, Step;
    if cs != [] {
      RunLeavesNoneDangling(s, cs[..|cs| - 1]);
      RunKeepsCrossPool(s, cs[..|cs| - 1]);
      StepKeepsCrossPool(Exec(s, cs[..|cs| - 1]), cs[|cs| - 1]);
    }
  }
}
