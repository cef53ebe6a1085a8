// `default`: choose what boots next. The order of its writes, what a crash between
// any two of them leaves behind, and what running it again does.

module Default {
  import opened Text
  import opened World

  /** A listing: every member of the set once, in whatever order the tool prints it. */
  ghost predicate Lists(xs: seq<string>, all: set<string>) {
    && (forall x :: x in xs <==> x in all)
    && (forall i, j :: 0 <= i < j < |xs| ==> xs[i] != xs[j])
  }

  predicate OnRootPool(s: State, d: string) {
    PoolOf(d) in s.pools.roots
  }

  /** Datasets with a binding list on one of the root pools. */
  function Bound(s: State): set<string> {
    set d | d in s.props.attached && OnRootPool(s, d)
  }

  function KeyOf(be: string): BoundKey {
    BoundKey(PoolOf(be), LeafOf(be))
  }

  /** The `canmount` a bound dataset should have while `key` is active. */
  function Desired(s: State, d: string, key: BoundKey): Canmount
    requires d in s.props.attached
  {
    if key in s.props.attached[d] then On else Off
  }

  // -------------------------------------------------------------------------
  // Which boot environment a name means
  // -------------------------------------------------------------------------

  /** Boot environments are marked datasets on root pools. */
  function Bes(s: State): set<string> {
    set d | d in s.props.bes && OnRootPool(s, d)
  }

  function Named(bes: seq<string>, name: string): seq<string> {
    if bes == [] then []
    else
      var init, last := bes[..|bes| - 1], bes[|bes| - 1];
      if LeafOf(last) == name then Named(init, name) + [last] else Named(init, name)
  }

  /** A path names itself; a bare name must belong to exactly one boot environment. */
  function ResolveTarget(bes: seq<string>, name: string): Result<string> {
    if '/' in name then if name in bes then Ok(name) else Err("no such dataset")
    else
      var matches := Named(bes, name);
      if matches == [] then Err("no such name")
      else if |matches| == 1 then Ok(matches[0])
      else Err("ambiguous")
  }

  lemma {:induction false} NamedMembers(bes: seq<string>, name: string, d: string)
    ensures d in Named(bes, name) <==> d in bes && LeafOf(d) == name
  {
    if bes != [] {
      assert bes == bes[..|bes| - 1] + [bes[|bes| - 1]];
      NamedMembers(bes[..|bes| - 1], name, d);
    }
  }

  lemma {:induction false} NamedOnce(bes: seq<string>, name: string, all: set<string>)
    requires Lists(bes, all)
    ensures forall i, j :: 0 <= i < j < |Named(bes, name)| ==> Named(bes, name)[i] != Named(bes, name)[j]
  {
    if bes != [] {
      var init, last := bes[..|bes| - 1], bes[|bes| - 1];
      NamedOnce(init, name, all - {last});
      NamedMembers(init, name, last);
    }
  }

  /** A name resolves to `d` exactly when `d` is the one boot environment it can mean. */
  lemma ResolvesExactly(bes: seq<string>, all: set<string>, name: string, d: string)
    requires Lists(bes, all)
    ensures ResolveTarget(bes, name) == Ok(d) <==>
      d in all &&
      if '/' in name then d == name else LeafOf(d) == name && forall e :: e in all && LeafOf(e) == name ==> e == d
  {
    var matches := Named(bes, name);
    NamedOnce(bes, name, all);
    forall e ensures e in matches <==> e in all && LeafOf(e) == name {
      NamedMembers(bes, name, e);
    }
    if |matches| > 1 {
      assert matches[0] in matches && matches[1] in matches;
    }
  }

  // -------------------------------------------------------------------------
  // What a completed run leaves
  // -------------------------------------------------------------------------

  /** No root pool but the target's boots anything. */
  function NextBootfs(p: Pools, target: string): map<string, string> {
    (p.bootfs - (p.roots - {PoolOf(target)}))[PoolOf(target) := target]
  }

  function Toggled(s: State, key: BoundKey, done: set<string>): map<string, Canmount>
    requires done <= s.props.attached.Keys
  {
    map d | d in s.props.canmount.Keys + done ::
      if d in done then Desired(s, d, key) else s.props.canmount[d]
  }

  /** What other BEs are active on some root pool. */
  function ExActive(p: Pools, target: string): set<string> {
    set q | q in p.roots && q in p.bootfs && p.bootfs[q] != target :: p.bootfs[q]
  }

  /** readonly comes off the target and, best effort, goes on whatever was active and is not mounted. */
  function NextReadonly(s: State, target: string, stuck: set<string>): set<string> {
    s.readonly - {target} + (ExActive(s.pools, target) - s.mounted - stuck)
  }

  function WithBootfs(s: State, bootfs: map<string, string>): State {
    s.(pools := s.pools.(bootfs := bootfs))
  }

  function WithCanmounts(s: State, canmount: map<string, Canmount>): State {
    s.(props := s.props.(canmount := canmount))
  }

  function DefaultState(s: State, target: string, stuck: set<string>): State {
    WithCanmounts(WithBootfs(s.(readonly := NextReadonly(s, target, stuck)), NextBootfs(s.pools, target)),
                  Toggled(s, KeyOf(target), Bound(s)))
  }

  // -------------------------------------------------------------------------
  // What a run can be caught at
  // -------------------------------------------------------------------------

  ghost predicate AtMostOneActive(p: Pools) {
    forall q, r :: q in p.roots && q in p.bootfs && r in p.roots && r in p.bootfs ==> q == r
  }

  ghost predicate OnlyActive(p: Pools, be: string) {
    && PoolOf(be) in p.roots && PoolOf(be) in p.bootfs && p.bootfs[PoolOf(be)] == be
    && forall q :: q in p.roots && q in p.bootfs ==> q == PoolOf(be)
  }

  /** Losers are cleared one by one, and only once none is left is the winner set. */
  ghost predicate LosersFirst(p: Pools, bootfs: map<string, string>, target: string) {
    || bootfs == NextBootfs(p, target)
    || exists cleared :: cleared <= p.roots - {PoolOf(target)} && bootfs == p.bootfs - cleared
  }

  /** Some bound datasets already have their new `canmount`, the others still their old one. */
  ghost predicate PartlyToggled(s: State, canmount: map<string, Canmount>, key: BoundKey) {
    exists done :: done <= Bound(s) && canmount == Toggled(s, key, done)
  }

  /** A state a run from `s` passes through, and so one an interrupted run may leave. */
  ghost predicate Midway(s: State, u: State, target: string, stuck: set<string>) {
    && u == WithCanmounts(WithBootfs(s.(readonly := u.readonly), u.pools.bootfs), u.props.canmount)
    && u.readonly <= s.readonly + NextReadonly(s, target, stuck)
    && LosersFirst(s.pools, u.pools.bootfs, target)
    && PartlyToggled(s, u.props.canmount, KeyOf(target))
    && (u.props.canmount == s.props.canmount || u.pools.bootfs == NextBootfs(s.pools, target))
  }

  // -------------------------------------------------------------------------
  // Properties
  // -------------------------------------------------------------------------

  /** From at most one active root pool, an interrupted run leaves at most one. */
  lemma CrashLeavesAtMostOne(s: State, u: State, target: string, stuck: set<string>)
    requires Midway(s, u, target, stuck) && AtMostOneActive(s.pools)
    ensures AtMostOneActive(u.pools)
  {}

  /** Whatever it started from, a completed run leaves exactly the target active. */
  lemma CompletedRunActivates(s: State, target: string, stuck: set<string>)
    requires OnRootPool(s, target)
    ensures OnlyActive(DefaultState(s, target, stuck).pools, target)
    ensures target !in DefaultState(s, target, stuck).readonly
  {}

  /** The host after a completed run, column by column. */
  lemma DefaultLeaves(s: State, target: string, stuck: set<string>)
    ensures var t := DefaultState(s, target, stuck);
      && t == s.(readonly := t.readonly, pools := t.pools, props := t.props) && t.pools.roots == s.pools.roots
      && t.props == s.props.(canmount := t.props.canmount)
    ensures var t := DefaultState(s, target, stuck).pools.bootfs;
      && PoolOf(target) in t && t[PoolOf(target)] == target
      && (forall q :: q in s.pools.roots && q != PoolOf(target) ==> q !in t)
      && (forall q :: q !in s.pools.roots && q != PoolOf(target) ==> (q in t <==> q in s.pools.bootfs))
      && (forall q :: q in t && q != PoolOf(target) ==> q in s.pools.bootfs && t[q] == s.pools.bootfs[q])
    ensures var t := DefaultState(s, target, stuck).props.canmount;
      && (forall d :: d in s.props.attached && PoolOf(d) in s.pools.roots ==> d in t)
      && (forall d :: d in s.props.attached && PoolOf(d) in s.pools.roots && d in t ==>
           t[d] == if BoundKey(PoolOf(target), LeafOf(target)) in s.props.attached[d] then On else Off)
      && (forall d :: d !in s.props.attached || PoolOf(d) !in s.pools.roots ==>
           (d in t <==> d in s.props.canmount) && (d in t ==> t[d] == s.props.canmount[d]))
  {
    hide PoolOf, LeafOf;
  }

  /** What a root pool booted before, and is not mounted, becomes readonly, and nothing else does. */
  lemma DefaultDemotes(s: State, target: string, stuck: set<string>)
    ensures var t := DefaultState(s, target, stuck);
      && (forall q :: q in s.pools.roots && q in s.pools.bootfs ==> var d := s.pools.bootfs[q];
           d != target && d !in s.mounted && d !in stuck ==> d in t.readonly)
      && (forall d :: d in t.readonly && d !in s.readonly ==>
           d != target && d !in s.mounted && d !in stuck
           && exists q :: q in s.pools.roots && q in s.pools.bootfs && s.pools.bootfs[q] == d)
      && s.readonly - {target} <= t.readonly && target !in t.readonly
  {
    hide PoolOf;
  }

  lemma SameBound(s: State, u: State)
    requires u.props.attached == s.props.attached && u.pools.roots == s.pools.roots
    ensures Bound(u) == Bound(s)
  {}

  /** What was toggled already does not matter to a whole pass. */
  lemma ToggledAgain(s: State, u: State, key: BoundKey, done: set<string>)
    requires u.props.attached == s.props.attached && done <= Bound(s) && u.props.canmount == Toggled(s, key, done)
    ensures Toggled(u, key, Bound(s)) == Toggled(s, key, Bound(s))
  {
    assert u.props.canmount.Keys + Bound(s) == s.props.canmount.Keys + Bound(s);
  }

  /** Running again after a crash at any point ends where the uninterrupted run would have. */
  lemma RerunConverges(s: State, u: State, target: string, stuck: set<string>, stuckAgain: set<string>)
    requires OnRootPool(s, target) && Midway(s, u, target, stuck)
    ensures var again, whole := DefaultState(u, target, stuckAgain), DefaultState(s, target, stuck);
      again.pools == whole.pools && again.props == whole.props
  {
    hide Toggled;
    SameBound(s, u);
    var done :| done <= Bound(s) && u.props.canmount == Toggled(s, KeyOf(target), done);
    ToggledAgain(s, u, KeyOf(target), done);
  }

  /** A completed run has nothing left to do. */
  lemma DefaultIsIdempotent(s: State, target: string, stuck: set<string>, stuckAgain: set<string>)
    requires OnRootPool(s, target)
    ensures var t := DefaultState(s, target, stuck); DefaultState(t, target, stuckAgain) == t
  {
    var t := DefaultState(s, target, stuck);
    assert Bound(t) == Bound(s);
    assert ExActive(t.pools, target) == {};
    assert NextBootfs(t.pools, target) == t.pools.bootfs;
    assert Toggled(t, KeyOf(target), Bound(t)) == t.props.canmount;
  }

  // -------------------------------------------------------------------------
  // The verb
  // -------------------------------------------------------------------------

  /** Every state committed since the trace had length `from` is one a run from `s` passes through. */
  ghost predicate PassesThrough(z: Zfs, from: nat, s: State, target: string, stuck: set<string>)
    reads z
  {
    from <= |z.trace| && forall i :: from <= i < |z.trace| ==> Midway(s, z.trace[i], target, stuck)
  }

  predicate BootsFrom(p: Pools, q: string, d: string) {
    q in p.bootfs && p.bootfs[q] == d
  }

  method CollectExActive(p: Pools, target: string, pools: seq<string>) returns (ds: seq<string>)
    requires Lists(pools, p.roots)
    ensures forall d :: d in ds <==> d in ExActive(p, target)
  {
    ds := [];
    for i := 0 to |pools|
      invariant forall d :: d in ds <==> exists j :: 0 <= j < i && BootsFrom(p, pools[j], d) && d != target
    {
      if pools[i] in p.bootfs && p.bootfs[pools[i]] != target {
        ds := ds + [p.bootfs[pools[i]]];
      }
    }
    forall d ensures d in ds <==> d in ExActive(p, target) {
      if d in ExActive(p, target) {
        var q :| q in p.roots && q in p.bootfs && p.bootfs[q] != target && p.bootfs[q] == d;
        var j :| 0 <= j < |pools| && pools[j] == q;
        assert BootsFrom(p, pools[j], d);
      }
    }
  }

  lemma BootfsMidway(s: State, s1: State, cleared: set<string>, target: string, stuck: set<string>)
    requires s1 == s.(readonly := s.readonly - {target}) && cleared <= s.pools.roots - {PoolOf(target)}
    ensures Midway(s, WithBootfs(s1, s.pools.bootfs - cleared), target, stuck)
  {
    assert Toggled(s, KeyOf(target), {}) == s.props.canmount;
  }

  method ClearLosers(z: Zfs, ghost s0: State, ghost n0: nat, target: string, pools: seq<string>,
                     ghost stuck: set<string>)
    requires Lists(pools, z.s.pools.roots)
    requires z.s == s0.(readonly := s0.readonly - {target}) && PassesThrough(z, n0, s0, target, stuck)
    modifies z
    ensures z.s == WithBootfs(old(z.s), s0.pools.bootfs - (s0.pools.roots - {PoolOf(target)}))
    ensures PassesThrough(z, n0, s0, target, stuck)
  {
    ghost var s1, cleared := z.s, {};
    assert z.s.pools.bootfs - {} == z.s.pools.bootfs;
    for i := 0 to |pools|
      invariant cleared <= s0.pools.roots - {PoolOf(target)}
      invariant forall q :: q in cleared <==> q in pools[..i] && q != PoolOf(target)
      invariant z.s == WithBootfs(s1, s0.pools.bootfs - cleared)
      invariant PassesThrough(z, n0, s0, target, stuck)
    {
      var q := pools[i];
      if q != PoolOf(target) {
        cleared := cleared + {q};
        if q in z.s.pools.bootfs {
          assert z.s.pools.bootfs - {q} == s0.pools.bootfs - cleared;
          BootfsMidway(s0, s1, cleared, target, stuck);
          z.Commit(WithBootfs(z.s, z.s.pools.bootfs - {q}), true);
        } else {
          assert s0.pools.bootfs - cleared == z.s.pools.bootfs;
        }
      }
    }
    assert cleared == s0.pools.roots - {PoolOf(target)};
  }

  lemma MarkStep(ro: set<string>, done: set<string>, d: string, mounted: set<string>, stuck: set<string>)
    ensures ro + (done + {d} - mounted - stuck) ==
      ro + (done - mounted - stuck) + if d in mounted || d in stuck then {} else {d}
  {}

  lemma MarkedMidway(s: State, s1: State, target: string, stuck: set<string>, done: set<string>)
    requires s1 == WithBootfs(s.(readonly := s.readonly - {target}), s1.pools.bootfs)
    requires LosersFirst(s.pools, s1.pools.bootfs, target) && done <= ExActive(s.pools, target)
    ensures Midway(s, s1.(readonly := s.readonly - {target} + (done - s.mounted - stuck)), target, stuck)
  {
    hide LosersFirst;
    assert Toggled(s, KeyOf(target), {}) == s.props.canmount;
  }

  lemma MarkedAll(s: State, target: string, stuck: set<string>, done: set<string>)
    requires done == ExActive(s.pools, target)
    ensures s.readonly - {target} + (done - s.mounted - stuck) == NextReadonly(s, target, stuck)
  {}

  /** `readonly=on` for the BEs that lost their place, skipping mounted ones; a failed write is ignored. */
  method MarkExActive(z: Zfs, ghost s0: State, ghost n0: nat, target: string, exActive: seq<string>, stuck: set<string>)
    requires z.s == WithBootfs(s0.(readonly := s0.readonly - {target}), z.s.pools.bootfs)
    requires LosersFirst(s0.pools, z.s.pools.bootfs, target)
    requires forall d :: d in exActive <==> d in ExActive(s0.pools, target)
    requires PassesThrough(z, n0, s0, target, stuck)
    modifies z
    ensures z.s == old(z.s).(readonly := NextReadonly(s0, target, stuck))
    ensures PassesThrough(z, n0, s0, target, stuck)
  {
    hide Midway, NextReadonly, LosersFirst;
    ghost var s1, done := z.s, {};
    for i := 0 to |exActive|
      invariant done <= ExActive(s0.pools, target)
      invariant forall d :: d in done <==> d in exActive[..i]
      invariant z.s == s1.(readonly := s0.readonly - {target} + (done - s0.mounted - stuck))
      invariant PassesThrough(z, n0, s0, target, stuck)
    {
      var d := exActive[i];
      assert d in ExActive(s0.pools, target);
      MarkStep(s0.readonly - {target}, done, d, s0.mounted, stuck);
      done := done + {d};
      MarkedMidway(s0, s1, target, stuck, done);
      if d !in z.s.mounted {
        z.Commit(z.s.(readonly := z.s.readonly + {d}), d !in stuck);
      }
    }
    MarkedAll(s0, target, stuck, done);
  }

  lemma ToggledMidway(s: State, s1: State, done: set<string>, target: string, stuck: set<string>)
    requires s1 == WithBootfs(s.(readonly := s1.readonly), NextBootfs(s.pools, target))
    requires s1.readonly <= s.readonly + NextReadonly(s, target, stuck) && done <= Bound(s)
    ensures Midway(s, WithCanmounts(s1, Toggled(s, KeyOf(target), done)), target, stuck)
  {}

  lemma NothingToggled(s: State, key: BoundKey)
    ensures Toggled(s, key, {}) == s.props.canmount
  {}

  /** One more dataset set, unless it was right already. */
  lemma ToggledStep(s: State, key: BoundKey, done: set<string>, d: string)
    requires done <= Bound(s) && d in Bound(s)
    ensures var now := Toggled(s, key, done);
      Toggled(s, key, done + {d}) ==
        if d in now && now[d] == Desired(s, d, key) then now else now[d := Desired(s, d, key)]
  {}

  /** `canmount=on` for the datasets bound to the new active BE, `off` for the other bound ones. */
  method ToggleBound(z: Zfs, ghost s0: State, ghost n0: nat, target: string, bound: seq<string>,
                     ghost stuck: set<string>)
    requires z.s == WithBootfs(s0.(readonly := z.s.readonly), NextBootfs(s0.pools, target))
    requires z.s.readonly <= s0.readonly + NextReadonly(s0, target, stuck)
    requires Lists(bound, Bound(s0))
    requires PassesThrough(z, n0, s0, target, stuck)
    modifies z
    ensures z.s == WithCanmounts(old(z.s), Toggled(s0, KeyOf(target), Bound(s0)))
    ensures PassesThrough(z, n0, s0, target, stuck)
  {
    hide Midway, NextBootfs, NextReadonly, Toggled;
    ghost var s1, done := z.s, {};
    NothingToggled(s0, KeyOf(target));
    for i := 0 to |bound|
      invariant done <= Bound(s0)
      invariant forall d :: d in done <==> d in bound[..i]
      invariant z.s == WithCanmounts(s1, Toggled(s0, KeyOf(target), done))
      invariant PassesThrough(z, n0, s0, target, stuck)
    {
      var d := bound[i];
      assert d in Bound(s0);
      var desired := if KeyOf(target) in z.s.props.attached[d] then On else Off;
      ToggledStep(s0, KeyOf(target), done, d);
      done := done + {d};
      if !(d in z.s.props.canmount && z.s.props.canmount[d] == desired) {
        ToggledMidway(s0, s1, done, target, stuck);
        z.Commit(WithCanmounts(z.s, z.s.props.canmount[d := desired]), true);
      }
    }
    assert done == Bound(s0);
  }

  lemma ActivatedMidway(s: State, u: State, target: string, stuck: set<string>)
    requires u == WithBootfs(s.(readonly := NextReadonly(s, target, stuck)),
      s.pools.bootfs - (s.pools.roots - {PoolOf(target)}))
    ensures Midway(s, WithBootfs(u, u.pools.bootfs[PoolOf(target) := target]), target, stuck)
  {
    assert Toggled(s, KeyOf(target), {}) == s.props.canmount;
  }

  method RunDefault(z: Zfs, target: string, pools: seq<string>, bound: seq<string>, stuck: set<string>)
    requires OnRootPool(z.s, target)
    requires Lists(pools, z.s.pools.roots) && Lists(bound, Bound(z.s))
    modifies z
    ensures z.s == DefaultState(old(z.s), target, stuck)
    ensures PassesThrough(z, old(|z.trace|), old(z.s), target, stuck)
  {
    hide Midway, Toggled;
    ghost var s0, n0 := z.s, |z.trace|;
    if target in z.s.readonly {
      BootfsMidway(z.s, z.s.(readonly := z.s.readonly - {target}), {}, target, stuck);
      assert z.s.pools.bootfs - {} == z.s.pools.bootfs;
      z.Commit(z.s.(readonly := z.s.readonly - {target}), true);
    }
    var alreadyActive := PoolOf(target) in z.s.pools.bootfs && z.s.pools.bootfs[PoolOf(target)] == target;
    var exActive := CollectExActive(z.s.pools, target, pools);
    ClearLosers(z, s0, n0, target, pools, stuck);
    MarkExActive(z, s0, n0, target, exActive, stuck);
    if !alreadyActive {
      ActivatedMidway(s0, z.s, target, stuck);
      z.Commit(WithBootfs(z.s, z.s.pools.bootfs[PoolOf(target) := target]), true);
    }
    ToggleBound(z, s0, n0, target, bound, stuck);
  }

  /** The verb as typed: an unknown or ambiguous name changes nothing. */
  method Run(z: Zfs, name: string, bes: seq<string>, pools: seq<string>, bound: seq<string>, stuck: set<string>)
    returns (r: Result<string>)
    requires Lists(bes, Bes(z.s)) && Lists(pools, z.s.pools.roots) && Lists(bound, Bound(z.s))
    modifies z
    ensures r == if pools == [] then Err("no root pool") else ResolveTarget(bes, name)
    ensures z.s == if r.Ok? then DefaultState(old(z.s), r.value, stuck) else old(z.s)
    ensures r.Ok? ==> OnlyActive(z.s.pools, r.value)
    ensures AtMostOneActive(old(z.s.pools)) ==>
      forall i :: old(|z.trace|) <= i < |z.trace| ==> AtMostOneActive(z.trace[i].pools)
  {
    hide DefaultState, Midway, AtMostOneActive;
    r := Err("no root pool");
    if pools != [] {
      r := ResolveTarget(bes, name);
      if r.Ok? {
        ResolvesExactly(bes, Bes(z.s), name, r.value);
        CompletedRunActivates(z.s, r.value, stuck);
        RunDefault(z, r.value, pools, bound, stuck);
        if AtMostOneActive(old(z.s.pools)) {
          forall i | old(|z.trace|) <= i < |z.trace| ensures AtMostOneActive(z.trace[i].pools) {
            CrashLeavesAtMostOne(old(z.s), z.trace[i], r.value, stuck);
          }
        }
      }
    }
  }
}
