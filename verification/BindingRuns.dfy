// Bindings over whole runs: while one root pool is active, a bound dataset is set to mount
// exactly when the active boot environment is in its list.

module BindingRuns {
  import opened Text
  import opened Snapshots
  import opened World
  import opened Clones
  import opened Default
  import opened Bindings
  import opened Drop
  import opened Promotions

  /** What the verbs keep of boot environments: they exist, in canonical form, and root pools boot nothing else. */
  ghost predicate Kempt(s: State) {
    && Owned(s)
    && (forall d :: d in s.props.bes ==> d in s.snaps && Canonical(d))
    && (forall q :: q in s.pools.roots && q in s.pools.bootfs ==> s.pools.bootfs[q] in s.props.bes)
  }

  ghost predicate AlignedFor(s: State, be: string) {
    forall d :: d in Bound(s) ==> d in s.props.canmount && s.props.canmount[d] == Desired(s, d, KeyOf(be))
  }

  /** The binding invariant. */
  ghost predicate Aligned(s: State) {
    forall be :: OnlyActive(s.pools, be) ==> AlignedFor(s, be)
  }

  datatype Command =
    | MakeDefault(target: string, stuck: set<string>)
    | CutDefault(target: string, stuck: set<string>, at: State)
    | ForkFrom(snap: SnapshotRef, name: string, intact: bool, lists: seq<string>, forkEnv: ForkEnv)
    | DropBe(be: string, promoted: seq<string>, purged: Option<set<string>>, stuck: set<string>)
    | AttachTo(d: string, text: string, listOk: bool, canmountOk: bool)
    | DetachFrom(d: string)

  /**
   * `CutDefault` is a `default` stopped at some state it passes through; a drop that gets to destroy purges some
   * lists.
   */
  ghost function Step(s: State, c: Command): State {
    match c
    case MakeDefault(target, stuck) => if target in Bes(s) then DefaultState(s, target, stuck) else s
    case CutDefault(target, stuck, at) => if target in Bes(s) && Midway(s, at, target, stuck) then at else s
    case ForkFrom(snap, name, intact, lists, env) => ForkState(s, snap, name, intact, lists, env).0
    case DropBe(be, promoted, purged, stuck) =>
      if be !in s.props.bes || IsActive(s, be) then s
      else
        var s1 := PromoteAll(s, promoted);
        if purged.Some? then DroppedState(s1, be, stuck, purged.value) else s1
    case AttachTo(d, text, listOk, canmountOk) => AttachState(s, d, text, listOk, canmountOk).0
    case DetachFrom(d) => DetachState(s, d, true).0
  }

  /** Clearing losers in some order can leave `be` alone active; the target's own pool is not cleared. */
  predicate MaySurvive(p: Pools, target: string, be: string) {
    && PoolOf(be) in p.roots && PoolOf(be) in p.bootfs && p.bootfs[PoolOf(be)] == be
    && (PoolOf(target) in p.bootfs ==> PoolOf(be) == PoolOf(target))
  }

  /**
   * The bound datasets are set for the target already, and for whatever the clearing of losers can leave active
   * alone.
   */
  ghost predicate SafeToStop(s: State, target: string) {
    AlignedFor(s, target) && forall be :: MaySurvive(s.pools, target, be) ==> AlignedFor(s, be)
  }

  /** Every bound dataset has been set for the target. */
  ghost predicate AllToggled(s: State, at: State, target: string) {
    at.props.canmount == Toggled(s, KeyOf(target), Bound(s))
  }

  /** The list the attached dataset gets asks for the `canmount` it has already. */
  ghost predicate NothingToSet(s: State, d: string, text: string) {
    forall be :: OnlyActive(s.pools, be) && OnRootPool(s, d) && ParseList(text).Ok? ==>
      d in s.props.canmount && s.props.canmount[d] == if KeyOf(be) in ParseList(text).value then On else Off
  }

  /** The boot environment forked is not itself bound, or no single pool is active. */
  ghost predicate Unbound(s: State, snap: SnapshotRef) {
    snap.dataset !in Bound(s) || forall be :: !OnlyActive(s.pools, be)
  }

  /**
   * Where it is not safe to stop it, a `default` is not stopped between setting the winner and the last toggle that
   * was needed, nor while several pools are active; an `attach` is stopped between its writes only when the second
   * had nothing to change; and no fork copies a binding list.
   */
  ghost predicate Permitted(s: State, c: Command) {
    match c
    case CutDefault(target, stuck, at) =>
      target in Bes(s) && Midway(s, at, target, stuck) ==>
        || SafeToStop(s, target)
        || ((AtMostOneActive(s.pools) || OnlyActive(at.pools, target))
            && (OnlyActive(at.pools, target) ==> AllToggled(s, at, target)))
    case AttachTo(d, text, listOk, canmountOk) =>
      listOk && d in s.snaps && AttachState(s, d, text, listOk, canmountOk).1 == Outcome.Failed ==>
        NothingToSet(s, d, text)
    case ForkFrom(snap, name, intact, lists, env) =>
      ForkState(s, snap, name, intact, lists, env).0 == s || Unbound(s, snap)
    case _ => true
  }

  ghost function Exec(s: State, cs: seq<Command>): State {
    if cs == [] then s else Step(Exec(s, cs[..|cs| - 1]), cs[|cs| - 1])
  }

  ghost predicate AllPermitted(s: State, cs: seq<Command>) {
    cs == [] || (AllPermitted(s, cs[..|cs| - 1]) && Permitted(Exec(s, cs[..|cs| - 1]), cs[|cs| - 1]))
  }

  // -------------------------------------------------------------------------
  // Each verb
  // -------------------------------------------------------------------------

  /** `default` establishes the invariant, whatever was there before. */
  lemma DefaultAligns(s: State, target: string, stuck: set<string>)
    requires Kempt(s) && target in Bes(s)
    ensures var t := DefaultState(s, target, stuck); Kempt(t) && Aligned(t) && AlignedFor(t, target)
  {
    var t := DefaultState(s, target, stuck);
    assert Bound(t) == Bound(s);
    forall be | OnlyActive(t.pools, be) ensures AlignedFor(t, be) {
      assert PoolOf(target) in t.pools.bootfs;
      assert be == target;
    }
  }

  lemma MidwayIsKempt(s: State, target: string, stuck: set<string>, u: State)
    requires Kempt(s) && target in Bes(s) && Midway(s, u, target, stuck)
    ensures Kempt(u)
  {
    hide PartlyToggled, Canonical, PoolOf;
  }

  lemma ToggledIsAligned(s: State, u: State, target: string, stuck: set<string>)
    requires Midway(s, u, target, stuck)
    ensures AlignedFor(u, target) <==> AllToggled(s, u, target)
  {
    var key := KeyOf(target);
    var done :| done <= Bound(s) && u.props.canmount == Toggled(s, key, done);
    assert Bound(u) == Bound(s);
    if AlignedFor(u, target) {
      forall d | d in Bound(s) ensures d in u.props.canmount && u.props.canmount[d] == Desired(s, d, key) {
        assert d in Bound(u);
      }
      assert Toggled(s, key, done) == Toggled(s, key, Bound(s));
    }
  }

  lemma LosersKeepAligned(s: State, u: State, target: string, stuck: set<string>)
    requires Aligned(s) && target in Bes(s) && Midway(s, u, target, stuck)
    requires AtMostOneActive(s.pools) && !OnlyActive(u.pools, target)
    ensures Aligned(u)
  {
    hide PartlyToggled, PoolOf;
    assert u.pools.bootfs != NextBootfs(s.pools, target);
    assert Bound(u) == Bound(s);
    forall be | OnlyActive(u.pools, be) ensures AlignedFor(u, be) {
      assert OnlyActive(s.pools, be);
      assert AlignedFor(s, be);
    }
  }

  /**
   * A `default` stopped on the way, from at most one active pool: until the winner is set the invariant holds, and from
   * then on exactly when every bound dataset has been set.
   */
  lemma DefaultCutShort(s: State, target: string, stuck: set<string>, u: State)
    requires Kempt(s) && Aligned(s) && target in Bes(s) && Midway(s, u, target, stuck)
    requires AtMostOneActive(s.pools) || OnlyActive(u.pools, target)
    ensures Aligned(u) <==> (OnlyActive(u.pools, target) ==> AllToggled(s, u, target))
  {
    hide Canonical;
    assert Bound(u) == Bound(s);
    if OnlyActive(u.pools, target) {
      ToggledIsAligned(s, u, target, stuck);
      assert forall be :: OnlyActive(u.pools, be) ==> be == target;
    } else {
      LosersKeepAligned(s, u, target, stuck);
    }
  }

  /** Stopped right after the winner is set, nothing is toggled yet. */
  lemma BeforeToggles(s: State, target: string, stuck: set<string>)
    requires OnRootPool(s, target)
    ensures var u := WithBootfs(s, NextBootfs(s.pools, target));
      Midway(s, u, target, stuck) && OnlyActive(u.pools, target)
  {
    hide PoolOf, KeyOf;
    var u := WithBootfs(s, NextBootfs(s.pools, target));
    assert u == WithCanmounts(WithBootfs(s.(readonly := u.readonly), u.pools.bootfs), u.props.canmount);
    NothingToggled(s, KeyOf(target));
  }

  lemma Survives(s: State, target: string, stuck: set<string>, be: string) returns (u: State)
    requires OnRootPool(s, target) && MaySurvive(s.pools, target, be)
    ensures Midway(s, u, target, stuck) && OnlyActive(u.pools, be)
    ensures u.props == s.props && u.pools.roots == s.pools.roots
  {
    hide PoolOf, KeyOf;
    var cleared := s.pools.roots - {PoolOf(target), PoolOf(be)};
    u := WithBootfs(s, s.pools.bootfs - cleared);
    assert u == WithCanmounts(WithBootfs(s.(readonly := u.readonly), u.pools.bootfs), u.props.canmount);
    NothingToggled(s, KeyOf(target));
  }

  lemma OnlySurvivors(s: State, u: State, target: string, stuck: set<string>, be: string)
    requires OnRootPool(s, target) && Midway(s, u, target, stuck) && OnlyActive(u.pools, be)
    ensures be == target || (MaySurvive(s.pools, target, be) && u.props.canmount == s.props.canmount)
  {
    hide PoolOf, KeyOf, PartlyToggled;
  }

  lemma SameAlignment(s: State, u: State, be: string)
    requires u.props.attached == s.props.attached && u.pools.roots == s.pools.roots
    requires u.props.canmount == s.props.canmount
    ensures AlignedFor(s, be) <==> AlignedFor(u, be)
  {
    SameBound(s, u);
  }

  /** Toggling towards what is set already changes nothing the invariant looks at. */
  lemma HalfwayIsAligned(s: State, u: State, target: string, stuck: set<string>)
    requires Midway(s, u, target, stuck) && AlignedFor(s, target)
    ensures AlignedFor(u, target)
  {
    hide LosersFirst;
    var done :| done <= Bound(s) && u.props.canmount == Toggled(s, KeyOf(target), done);
    SameBound(s, u);
  }

  lemma MidwayLists(s: State, u: State, target: string, stuck: set<string>)
    requires Midway(s, u, target, stuck)
    ensures u.props.attached == s.props.attached && u.pools.roots == s.pools.roots
  {}

  /**
   * No interruption of `default` breaks the invariant exactly when the bound datasets are set for the target already,
   * and for whatever boot environment the clearing of losers can leave active alone.
   */
  lemma DefaultNeverMisaligns(s: State, target: string, stuck: set<string>)
    requires OnRootPool(s, target)
    ensures (forall u :: Midway(s, u, target, stuck) ==> Aligned(u)) <==> SafeToStop(s, target)
  {
    hide Midway, MaySurvive, OnlyActive, AlignedFor, NextBootfs;
    if forall u :: Midway(s, u, target, stuck) ==> Aligned(u) {
      var first := WithBootfs(s, NextBootfs(s.pools, target));
      BeforeToggles(s, target, stuck);
      SameAlignment(s, first, target);
      forall be | MaySurvive(s.pools, target, be) ensures AlignedFor(s, be) {
        var u := Survives(s, target, stuck, be);
        SameAlignment(s, u, be);
      }
    }
    if SafeToStop(s, target) {
      forall u, be | Midway(s, u, target, stuck) && OnlyActive(u.pools, be) ensures AlignedFor(u, be) {
        OnlySurvivors(s, u, target, stuck, be);
        if be == target {
          HalfwayIsAligned(s, u, target, stuck);
        } else {
          MidwayLists(s, u, target, stuck);
          SameAlignment(s, u, be);
        }
      }
    }
  }

  /**
   * From a state with the invariant and at most one active pool, that is exactly when the bound datasets already have
   * the canmount the target asks for.
   */
  lemma SafeToInterrupt(s: State, target: string, stuck: set<string>)
    requires Aligned(s) && AtMostOneActive(s.pools) && OnRootPool(s, target)
    ensures (forall u :: Midway(s, u, target, stuck) ==> Aligned(u)) <==> AlignedFor(s, target)
  {
    hide Midway, AlignedFor, PoolOf;
    DefaultNeverMisaligns(s, target, stuck);
    forall be | MaySurvive(s.pools, target, be) ensures AlignedFor(s, be) {
      assert OnlyActive(s.pools, be);
    }
  }

  lemma DetachKeepsAligned(s: State, d: string, ok: bool)
    requires Kempt(s) && Aligned(s)
    ensures var t := DetachState(s, d, ok).0; Kempt(t) && Aligned(t)
  {
    var t := DetachState(s, d, ok).0;
    forall be | OnlyActive(t.pools, be) ensures AlignedFor(t, be) {
      assert AlignedFor(s, be);
    }
  }

  /** `attach` consults the dataset's own pool; when that is not the active one the verb refuses. */
  lemma AttachKeepsAligned(s: State, d: string, text: string, listOk: bool)
    requires Kempt(s) && Aligned(s)
    ensures var t := AttachState(s, d, text, listOk, true).0; Kempt(t) && Aligned(t)
  {
    hide ParseList, Canonical, AllBes, PoolOf, LeafOf;
    var t := AttachState(s, d, text, listOk, true).0;
    if t != s {
      forall be | OnlyActive(t.pools, be) ensures AlignedFor(t, be) {
        assert AlignedFor(s, be);
        forall c | c in Bound(t) ensures c in t.props.canmount && t.props.canmount[c] == Desired(t, c, KeyOf(be)) {
          assert c == d || c in Bound(s);
        }
      }
    }
  }

  /** An `attach` cut short between its two writes keeps the invariant exactly when the second had nothing to change. */
  lemma AttachCutShort(s: State, d: string, text: string, t: State)
    requires Kempt(s) && Aligned(s) && d in s.snaps && (t, Outcome.Failed) == AttachState(s, d, text, true, false)
    ensures Kempt(t) && (Aligned(t) <==> NothingToSet(s, d, text))
  {
    hide ParseList, Canonical, AllBes, PoolOf, LeafOf;
    assert t == WithAttached(s, s.props.attached[d := ParseList(text).value]);
    if NothingToSet(s, d, text) {
      forall be | OnlyActive(t.pools, be) ensures AlignedFor(t, be) {
        assert AlignedFor(s, be);
      }
    } else {
      var be :| OnlyActive(s.pools, be) && OnRootPool(s, d) && !(d in s.props.canmount
        && s.props.canmount[d] == if KeyOf(be) in ParseList(text).value then On else Off);
      assert OnlyActive(t.pools, be) && d in Bound(t);
      assert !AlignedFor(t, be);
    }
  }

  /** Two canonical datasets with the same key are the same. */
  lemma KeyIsInjective(c: string, d: string)
    requires Canonical(c) && Canonical(d) && KeyOf(c) == KeyOf(d)
    ensures c == d
  {}

  /** Whatever fails, a fork adds at most its own row and its own key. */
  lemma ForkEffect(s: State, snap: SnapshotRef, name: string, intact: bool, lists: seq<string>, env: ForkEnv)
    returns (joined: set<string>)
    requires Kempt(s)
    ensures var target, t := ForkTarget(snap, name), ForkState(s, snap, name, intact, lists, env).0;
      t == s || (
      && BareName(name) && target !in s.snaps && t.pools == s.pools
      && t.props.bes <= s.props.bes + {target} && s.props.bes <= t.props.bes
      && t.snaps == s.snaps[target := []] && t.props.mirror.Keys <= s.props.mirror.Keys + {target}
      && t.props.canmount == s.props.canmount[target := Noauto]
      && t.props.attached == Joined(CopyProps(s.props, snap.dataset, target).attached, KeyOf(target), joined))
  {
    hide Canonical, PoolOf, LeafOf;
    var n := if env.lists < |lists| then env.lists else |lists|;
    joined := if env.markOk then Elements(lists[..n]) else {};
    var target := ForkTarget(snap, name);
    var copied := CopyProps(s.props, snap.dataset, target).attached;
    assert Joined(copied, KeyOf(target), {}) == copied;
  }

  lemma ForkIsKempt(s: State, snap: SnapshotRef, name: string, intact: bool, lists: seq<string>, env: ForkEnv)
    requires Kempt(s)
    ensures Kempt(ForkState(s, snap, name, intact, lists, env).0)
  {
    hide ForkState, ForkTarget, Canonical;
    var joined := ForkEffect(s, snap, name, intact, lists, env);
    if ForkState(s, snap, name, intact, lists, env).0 != s {
      ForkTargetIsCanonical(snap, name);
    }
  }

  /** The old bound datasets stay as they were; a copied list makes the fork one, which never mounts by itself. */
  lemma ForkedAligned(s: State, t: State, snap: SnapshotRef, target: string, joined: set<string>, be: string)
    requires Kempt(s) && AlignedFor(s, be) && be in s.props.bes && target !in s.snaps && t.pools == s.pools
    requires Canonical(target) && PoolOf(target) == PoolOf(snap.dataset)
    requires t.props.canmount == s.props.canmount[target := Noauto]
    requires t.props.attached == Joined(CopyProps(s.props, snap.dataset, target).attached, KeyOf(target), joined)
    ensures AlignedFor(t, be) <==> snap.dataset !in Bound(s)
  {
    hide Canonical, PoolOf, LeafOf;
    if KeyOf(be) == KeyOf(target) {
      KeyIsInjective(be, target);
    }
    if snap.dataset in Bound(s) {
      assert target in Bound(t);
    } else {
      assert target !in Bound(t);
    }
  }

  lemma ForkPool(snap: SnapshotRef, name: string)
    requires BareName(name)
    ensures PoolOf(ForkTarget(snap, name)) == PoolOf(snap.dataset)
  {
    hide LeafOf;
    CanonicalParts(PairPointer(PoolOf(snap.dataset), name));
  }

  lemma ActiveIsBe(s: State, be: string)
    requires Kempt(s) && OnlyActive(s.pools, be)
    ensures be in s.props.bes
  {}

  /**
   * A fork, however far it gets, keeps the invariant exactly when it did nothing or the boot environment it forks has
   * no binding list of its own to copy.
   */
  lemma ForkKeepsAligned(s: State, snap: SnapshotRef, name: string, intact: bool, lists: seq<string>, env: ForkEnv)
    requires Kempt(s) && Aligned(s)
    ensures var t := ForkState(s, snap, name, intact, lists, env).0;
      Kempt(t) && (Aligned(t) <==> t == s || Unbound(s, snap))
  {
    hide ForkState, ForkTarget, Canonical, PoolOf, LeafOf, OnlyActive, Bound, AlignedFor, Kempt;
    var target, t := ForkTarget(snap, name), ForkState(s, snap, name, intact, lists, env).0;
    ForkIsKempt(s, snap, name, intact, lists, env);
    var joined := ForkEffect(s, snap, name, intact, lists, env);
    if t != s {
      ForkTargetIsCanonical(snap, name);
      ForkPool(snap, name);
      forall be | OnlyActive(s.pools, be) ensures AlignedFor(t, be) <==> snap.dataset !in Bound(s) {
        ActiveIsBe(s, be);
        ForkedAligned(s, t, snap, target, joined, be);
      }
    }
  }

  lemma DropEffect(s: State, be: string, stuck: set<string>, done: set<string>)
    requires Kempt(s) && be in s.props.bes && !IsActive(s, be)
    ensures var t := DroppedState(s, be, stuck, done);
      && Kempt(t) && t.pools == s.pools && t.props.canmount == s.props.canmount - {be}
      && t.props.attached == PurgedIn(s.props.attached - {be}, KeyOf(be), done)
  {
    hide ParsePointer, Canonical, PoolOf;
  }

  /** However many lists its purge gets to, the drop of an inactive boot environment keeps the invariant. */
  lemma DropKeepsAligned(s: State, be: string, stuck: set<string>, done: set<string>)
    requires Kempt(s) && Aligned(s) && be in s.props.bes && !IsActive(s, be)
    ensures var t := DroppedState(s, be, stuck, done); Kempt(t) && Aligned(t)
  {
    hide DroppedState, Orphans;
    var t := DroppedState(s, be, stuck, done);
    DropEffect(s, be, stuck, done);
    PurgeExactly(s.props.attached - {be}, KeyOf(be));
    forall active | OnlyActive(t.pools, active) ensures AlignedFor(t, active) {
      assert AlignedFor(s, active);
      assert active in s.props.bes && active != be;
      if KeyOf(active) == KeyOf(be) {
        KeyIsInjective(active, be);
      }
    }
  }

  lemma OtherColumns(s: State, t: State)
    requires Kempt(s) && Aligned(s) && t == s.(snaps := t.snaps, origin := t.origin) && t.snaps.Keys == s.snaps.Keys
    ensures Kempt(t) && Aligned(t)
  {
    forall be | OnlyActive(t.pools, be) ensures AlignedFor(t, be) {
      assert AlignedFor(s, be);
    }
  }

  lemma AttachStepKeepsAligned(s: State, d: string, text: string, listOk: bool, canmountOk: bool)
    requires Kempt(s) && Aligned(s) && Permitted(s, AttachTo(d, text, listOk, canmountOk))
    ensures var t := AttachState(s, d, text, listOk, canmountOk).0; Kempt(t) && Aligned(t)
  {
    hide Kempt, Aligned, ParseList, AllBes, PoolOf, LeafOf, NothingToSet;
    if canmountOk {
      AttachKeepsAligned(s, d, text, listOk);
    } else {
      var (t, o) := AttachState(s, d, text, listOk, canmountOk);
      if listOk && d in s.snaps && o != Outcome.Refused {
        AttachCutShort(s, d, text, t);
      }
    }
  }

  lemma StepKeepsAligned(s: State, c: Command)
    requires Kempt(s) && Aligned(s) && Permitted(s, c)
    ensures Kempt(Step(s, c)) && Aligned(Step(s, c))
  {
    hide Kempt, Aligned, DefaultState, ForkState, DroppedState, AttachState, DetachState, PromoteAll, Midway,
         AllToggled, NothingToSet, OnlyActive, AtMostOneActive, Unbound,
         SafeToStop;
    match c {
      case MakeDefault(target, stuck) =>
        if target in Bes(s) {
          DefaultAligns(s, target, stuck);
        }
      case CutDefault(target, stuck, at) =>
        if target in Bes(s) && Midway(s, at, target, stuck) {
          MidwayIsKempt(s, target, stuck, at);
          if SafeToStop(s, target) {
            DefaultNeverMisaligns(s, target, stuck);
          } else {
            DefaultCutShort(s, target, stuck, at);
          }
        }
      case ForkFrom(snap, name, intact, lists, env) =>
        ForkKeepsAligned(s, snap, name, intact, lists, env);
      case DropBe(be, promoted, purged, stuck) =>
        var s1 := PromoteAll(s, promoted);
        PromotionsKeepProps(s, promoted);
        OtherColumns(s, s1);
        if be in s.props.bes && !IsActive(s, be) && purged.Some? {
          DropKeepsAligned(s1, be, stuck, purged.value);
        }
      case AttachTo(d, text, listOk, canmountOk) =>
        AttachStepKeepsAligned(s, d, text, listOk, canmountOk);
      case DetachFrom(d) =>
        DetachKeepsAligned(s, d, true);
    }
  }

  /** The binding invariant holds after every run of default, fork, drop, attach and detach. */
  lemma {:induction false} RunKeepsAligned(s: State, cs: seq<Command>)
    requires Kempt(s) && Aligned(s) && AllPermitted(s, cs)
    ensures Kempt(Exec(s, cs)) && Aligned(Exec(s, cs))
  {
    hide Kempt, Aligned, Step, Permitted;
    if cs != [] {
      RunKeepsAligned(s, cs[..|cs| - 1]);
      StepKeepsAligned(Exec(s, cs[..|cs| - 1]), cs[|cs| - 1]);
    }
  }

  /** ... and from any state at all once `default` has run. */
  lemma AlignedSinceDefault(s: State, target: string, stuck: set<string>, cs: seq<Command>)
    requires Kempt(s) && target in Bes(s) && AllPermitted(DefaultState(s, target, stuck), cs)
    ensures Aligned(Exec(DefaultState(s, target, stuck), cs))
  {
    hide Kempt, Aligned, DefaultState, Exec, AllPermitted;
    DefaultAligns(s, target, stuck);
    RunKeepsAligned(DefaultState(s, target, stuck), cs);
  }
}
