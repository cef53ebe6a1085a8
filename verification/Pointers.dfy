// The verbs that write pair pointers: `pair`, `unpair`, the targets of `push`, and `rename`.

module Pointers {
  import opened Text
  import opened Snapshots
  import opened World
  import T = Transfer
  import opened Clones
  import opened Default
  import B = Bindings
  import D = Drop

  function PeerOf(s: State, d: string): Option<string> {
    if d in s.props.mirror then Some(RenderPointer(s.props.mirror[d])) else None
  }

  // -------------------------------------------------------------------------
  // pair
  // -------------------------------------------------------------------------

  /** One side's snapshots are among the other's. */
  predicate NotDiverged(s: State, a: string, b: string) {
    OnlyOnRight(T.ListOf(s, b), T.ListOf(s, a)) == [] || OnlyOnRight(T.ListOf(s, a), T.ListOf(s, b)) == []
  }

  predicate CanPair(s: State, a: string, b: string, force: bool) {
    && PoolOf(a) != PoolOf(b)
    && a in s.snaps && b in s.snaps && a !in s.props.mirror
    && (force || NotDiverged(s, a, b))
    && ParsePointer(a).Some? && ParsePointer(b).Some?
  }

  /** `writes` is how many property writes succeed before one fails. */
  function PairState(s: State, a: string, b: string, force: bool, writes: nat): (State, B.Outcome) {
    if !CanPair(s, a, b, force) then (s, B.Refused)
    else if writes == 0 then (s, B.Failed)
    else
      var s1 := WithPointer(s, a, ParsePointer(b).value);
      if b in s.props.mirror then if writes == 1 then (s1, B.Failed) else (WithPrimary(s1, a, false), B.Done)
      else if writes == 1 then (s1, B.Failed)
      else
        var s2 := WithPointer(s1, b, ParsePointer(a).value);
        if writes == 2 then (s2, B.Failed)
        else if writes == 3 then (WithPrimary(s2, a, true), B.Failed)
        else (WithPrimary(WithPrimary(s2, a, true), b, false), B.Done)
  }

  method Pair(z: Zfs, a: string, b: string, force: bool, writes: nat) returns (o: B.Outcome)
    modifies z
    ensures (z.s, o) == PairState(old(z.s), a, b, force, writes)
  {
    if !CanPair(z.s, a, b, force) {
      return B.Refused;
    }
    var toB, toA := ParsePointer(b).value, ParsePointer(a).value;
    var bWasPaired := b in z.s.props.mirror;
    z.Commit(WithPointer(z.s, a, toB), writes > 0);
    var ok := writes > 0;
    if ok && !bWasPaired {
      ok := writes > 1;
      z.Commit(WithPointer(z.s, b, toA), ok);
      if ok {
        ok := writes > 2;
        z.Commit(WithPrimary(z.s, a, true), ok);
      }
      if ok {
        ok := writes > 3;
        z.Commit(WithPrimary(z.s, b, false), ok);
      }
    } else if ok {
      ok := writes > 1;
      z.Commit(WithPrimary(z.s, a, false), ok);
    }
    o := if ok then B.Done else B.Failed;
  }

  /** One side's operator snapshots are all on the other. */
  ghost predicate OneCovers(s: State, a: string, b: string) {
    Guids(Kept(T.ListOf(s, a))) <= Guids(Kept(T.ListOf(s, b))) ||
      Guids(Kept(T.ListOf(s, b))) <= Guids(Kept(T.ListOf(s, a)))
  }

  /** When a pairing is refused, and what a completed one leaves in every row. */
  lemma PairLeaves(s: State, a: string, b: string, force: bool, writes: nat)
    ensures var (t, o) := PairState(s, a, b, force, writes); var toA, toB := ParsePointer(a), ParsePointer(b);
      && (o == B.Refused <==>
           || PoolOf(a) == PoolOf(b) || a !in s.snaps || b !in s.snaps || a in s.props.mirror
           || toA.None? || toB.None? || !(force || OneCovers(s, a, b)))
      && (o == B.Refused ==> t == s)
      && (o == B.Done <==> o != B.Refused && writes >= if b in s.props.mirror then 2 else 4)
      && (o == B.Done && b in s.props.mirror ==>
           t == s.(props := s.props.(mirror := s.props.mirror[a := toB.value], primary := s.props.primary[a := false])))
      && (o == B.Done && b !in s.props.mirror ==>
           t == s.(props := s.props.(mirror := s.props.mirror[a := toB.value][b := toA.value],
                                     primary := s.props.primary[a := true][b := false])))
  {
    hide ParsePointer, PoolOf, OnlyOnRight, Kept, Guids;
    NoDivergence(T.ListOf(s, a), T.ListOf(s, b));
    NoDivergence(T.ListOf(s, b), T.ListOf(s, a));
  }

  // -------------------------------------------------------------------------
  // unpair
  // -------------------------------------------------------------------------

  predicate PointsBack(s: State, peer: string, be: string) {
    peer in s.snaps && peer in s.props.mirror && ParsePointer(be) == Some(s.props.mirror[peer])
  }

  function Unmarked(s: State, d: string, ok: bool): State {
    if ok then WithoutPrimary(s, d) else s
  }

  /** Which of the clears take effect; the program looks at none of their exit codes. */
  datatype UnpairEnv = UnpairEnv(clear: bool, mark: bool, peerClear: bool, peerMark: bool)

  /** Local pointer and marker, then those of a peer that points back. Whatever fails, the verb reports success. */
  function UnpairState(s: State, be: string, env: UnpairEnv): (State, B.Outcome) {
    if be !in s.props.mirror then (s, B.Refused)
    else
      var peer, s1 := RenderPointer(s.props.mirror[be]), Unmarked(T.Cleared(s, be, env.clear), be, env.mark);
      if !PointsBack(s1, peer, be) then (s1, B.Done)
      else (Unmarked(T.Cleared(s1, peer, env.peerClear), peer, env.peerMark), B.Done)
  }

  /** One side cleared: its pointer and marker go where the clears work, and every other row stays. */
  ghost predicate ClearedSide(s: State, t: State, d: string, pointer: bool, marker: bool) {
    && t == s.(props := s.props.(mirror := t.props.mirror, primary := t.props.primary))
    && t.props.mirror == (if pointer then s.props.mirror - {d} else s.props.mirror)
    && t.props.primary == (if marker then s.props.primary - {d} else s.props.primary)
  }

  /** The side named is cleared, and then its peer exactly when that exists and still points back. */
  lemma UnpairLeaves(s: State, be: string, env: UnpairEnv) returns (s1: State)
    ensures be !in s.props.mirror ==> UnpairState(s, be, env) == (s, B.Refused)
    ensures be in s.props.mirror ==>
      var (t, o) := UnpairState(s, be, env); var peer := RenderPointer(s.props.mirror[be]);
      && o == B.Done && ClearedSide(s, s1, be, env.clear, env.mark)
      && if peer in s.snaps && peer in s1.props.mirror && ParsePointer(be) == Some(s1.props.mirror[peer])
         then ClearedSide(s1, t, peer, env.peerClear, env.peerMark) else t == s1
  {
    hide ParsePointer, RenderPointer;
    s1 := Unmarked(T.Cleared(s, be, env.clear), be, env.mark);
  }

  method Unpair(z: Zfs, be: string, env: UnpairEnv) returns (o: B.Outcome)
    modifies z
    ensures (z.s, o) == UnpairState(old(z.s), be, env)
  {
    if be !in z.s.props.mirror {
      return B.Refused;
    }
    var peer := RenderPointer(z.s.props.mirror[be]);
    z.Commit(WithoutPointer(z.s, be), env.clear);
    z.Commit(WithoutPrimary(z.s, be), env.mark);
    if PointsBack(z.s, peer, be) {
      z.Commit(WithoutPointer(z.s, peer), env.peerClear);
      z.Commit(WithoutPrimary(z.s, peer), env.peerMark);
    }
    o := B.Done;
  }

  // -------------------------------------------------------------------------
  // push: where to, and with which pointers
  // -------------------------------------------------------------------------

  /** `--to`: a bare pool keeps the name and pairs; a path is an ad-hoc copy. */
  function ToTarget(src: string, spec: string): Option<(string, T.Mode)> {
    if '/' in spec then if ParsePointer(spec).None? then None else Some((spec, T.AdHocUnpaired))
    else Some((RenderPointer(PairPointer(spec, LeafOf(src))), T.BootstrapPaired))
  }

  /** Without `--to` the peer, which must exist; with it a target on a root pool. Pinned to a snapshot nothing pairs. */
  function PushTarget(s: State, src: string, to: Option<string>, bound: Option<string>): Option<(string, T.Mode)> {
    if src !in s.snaps || !OnRootPool(s, src) || (bound.Some? && bound.value !in Names(s.snaps[src])) then None
    else if to.None? then
      var peer := PeerOf(s, src);
      if peer.None? || peer.value !in s.snaps then None else Some((peer.value, T.Existing))
    else
      var t := ToTarget(src, to.value);
      if t.None? || !OnRootPool(s, t.value.0) then None
      else if bound.Some? && t.value.1.BootstrapPaired? then Some((t.value.0, T.AdHocUnpaired))
      else t
  }

  function PushState(s: State, src: string, to: Option<string>, bound: Option<string>, force: bool, env: T.Env)
    : (State, T.Outcome)
  {
    var t := PushTarget(s, src, to, bound);
    if t.None? then (s, T.Refused) else T.TransferState(s, src, t.value.0, T.Push(t.value.1), bound, force, env)
  }

  method PushTo(z: Zfs, src: string, to: Option<string>, bound: Option<string>, force: bool, env: T.Env)
    returns (o: T.Outcome)
    modifies z
    ensures (z.s, o) == PushState(old(z.s), src, to, bound, force, env)
  {
    hide T.TransferState;
    var t := PushTarget(z.s, src, to, bound);
    if t.None? {
      return T.Refused;
    }
    o := T.PushOne(z, src, t.value.0, t.value.1, bound, force, env);
  }

  // -------------------------------------------------------------------------
  // pull
  // -------------------------------------------------------------------------

  /** An initial pull creates `<booted pool>/ROOT/<name>`; it never overwrites. */
  predicate CanPullNew(s: State, remote: string, pool: string, name: string, bound: Option<string>) {
    && '/' in remote && remote in s.snaps && (bound.Some? ==> bound.value in Names(s.snaps[remote]))
    && OnRootPool(s, remote) && pool in s.pools.roots && RenderPointer(PairPointer(pool, name)) !in s.snaps
  }

  /**
   * Unbounded, the new side points at the remote, and the remote back unless it already points somewhere; bounded, the
   * new side is unpaired, best effort.
   */
  function PulledPointers(s: State, remote: string, local: string, bound: Option<string>, env: T.Env)
    : (State, B.Outcome)
  {
    var toRemote, toLocal := ParsePointer(remote), ParsePointer(local);
    if bound.Some? then (T.Cleared(s, local, env.soft.clear), B.Done)
    else if toRemote.None? || toLocal.None? || env.fault.AtDestPointer? then (s, B.Failed)
    else
      var s1 := T.Flagged(WithPointer(s, local, toRemote.value), local, false, env.soft.markDst);
      if remote in s1.props.mirror then (s1, B.Done)
      else if env.fault.AtSourcePointer? then (s1, B.Failed)
      else (WithPointer(s1, remote, toLocal.value), B.Done)
  }

  function PullNewState(s: State, remote: string, pool: string, name: string, bound: Option<string>, force: bool,
                        env: T.Env)
    : (State, B.Outcome)
  {
    var local := RenderPointer(PairPointer(pool, name));
    if !CanPullNew(s, remote, pool, name, bound) then (s, B.Refused)
    else
      var (t, o) := T.TransferState(s, remote, local, T.Pull, bound, force, env);
      if o != T.Sent then (t, B.Failed) else PulledPointers(t, remote, local, bound, env)
  }

  method WritePulledPointers(z: Zfs, remote: string, local: string, bound: Option<string>, env: T.Env)
    returns (o: B.Outcome)
    modifies z
    ensures (z.s, o) == PulledPointers(old(z.s), remote, local, bound, env)
  {
    hide ParsePointer;
    var toRemote, toLocal := ParsePointer(remote), ParsePointer(local);
    o := B.Done;
    if bound.Some? {
      z.Commit(WithoutPointer(z.s, local), env.soft.clear);
    } else if toRemote.None? || toLocal.None? || env.fault.AtDestPointer? {
      o := B.Failed;
    } else {
      z.Commit(WithPointer(z.s, local, toRemote.value), true);
      z.Commit(WithPrimary(z.s, local, false), env.soft.markDst);
      if remote !in z.s.props.mirror {
        z.Commit(WithPointer(z.s, remote, toLocal.value), !env.fault.AtSourcePointer?);
        if env.fault.AtSourcePointer? {
          o := B.Failed;
        }
      }
    }
  }

  method PullNew(z: Zfs, remote: string, pool: string, name: string, bound: Option<string>, force: bool, env: T.Env)
    returns (o: B.Outcome)
    modifies z
    ensures (z.s, o) == PullNewState(old(z.s), remote, pool, name, bound, force, env)
  {
    hide T.TransferState, ParsePointer, PoolOf;
    var local := RenderPointer(PairPointer(pool, name));
    o := B.Refused;
    if CanPullNew(z.s, remote, pool, name, bound) {
      var received := T.ReceiveInto(z, remote, local, bound, force, env);
      o := B.Failed;
      if received == T.Sent {
        o := WritePulledPointers(z, remote, local, bound, env);
      }
    }
  }

  /** An incremental pull goes to an existing side, from the peer it points at, which must exist. */
  function PullState(s: State, local: string, bound: Option<string>, force: bool, env: T.Env): (State, T.Outcome) {
    var peer := PeerOf(s, local);
    if local !in s.snaps || peer.None? || peer.value !in s.snaps then (s, T.Refused)
    else T.TransferState(s, peer.value, local, T.Pull, bound, force, env)
  }

  method Pull(z: Zfs, local: string, bound: Option<string>, force: bool, env: T.Env) returns (o: T.Outcome)
    modifies z
    ensures (z.s, o) == PullState(old(z.s), local, bound, force, env)
  {
    hide T.TransferState;
    var peer := PeerOf(z.s, local);
    if local !in z.s.snaps || peer.None? || peer.value !in z.s.snaps {
      return T.Refused;
    }
    o := T.ReceiveInto(z, peer.value, local, bound, force, env);
  }

  // -------------------------------------------------------------------------
  // rename
  // -------------------------------------------------------------------------

  function Relabel(d: string, was: string, now: string): string {
    if d == was then now else d
  }

  function RelabelKey<V>(m: map<string, V>, was: string, now: string): map<string, V> {
    if was in m then (m - {was})[now := m[was]] else m
  }

  function RelabelMember(ds: set<string>, was: string, now: string): set<string> {
    if was in ds then ds - {was} + {now} else ds
  }

  /** `zfs rename`: the row moves, and clones of its snapshots follow. */
  function Renamed(s: State, was: string, now: string): State {
    var origins := map d | d in s.origin :: SnapshotRef(Relabel(s.origin[d].dataset, was, now), s.origin[d].name);
    State(RelabelKey(s.snaps, was, now), RelabelKey(origins, was, now), s.nextGuid,
          RelabelMember(s.readonly, was, now), RelabelMember(s.mounted, was, now),
          Props(RelabelMember(s.props.bes, was, now), RelabelKey(s.props.canmount, was, now),
                RelabelKey(s.props.attached, was, now), RelabelKey(s.props.mirror, was, now),
                RelabelKey(s.props.primary, was, now)),
          s.pools)
  }

  predicate Boots(s: State, d: string) {
    PoolOf(d) in s.pools.bootfs && s.pools.bootfs[PoolOf(d)] == d
  }

  /** The pool's `bootfs` is advanced if it named the dataset. */
  function Advanced(s: State, was: string, now: string): State {
    if Boots(s, was) then WithBootfs(s, s.pools.bootfs[PoolOf(was) := now]) else s
  }

  function Redirected(s: State, ds: set<string>, p: PairPointer): State {
    s.(props := s.props.(mirror := map d | d in s.props.mirror.Keys + ds :: if d in ds then p else s.props.mirror[d]))
  }

  function NewName(was: string, name: string): string {
    RenderPointer(PairPointer(PoolOf(was), name))
  }

  predicate CanRename(s: State, was: string, name: string) {
    && was in s.snaps && '/' !in name && NewName(was, name) !in s.snaps
    && ParsePointer(was).Some? && ParsePointer(NewName(was, name)).Some?
  }

  /** Pointers are rewritten holder by holder; the first write that fails, or that misses its dataset, ends the run. */
  function Rewritable(present: set<string>, incoming: seq<string>, writes: nat): (n: nat)
    ensures n <= |incoming|
  {
    if incoming == [] then 0
    else
      var n := Rewritable(present, incoming[..|incoming| - 1], writes);
      if n == |incoming| - 1 && n < writes && incoming[n] in present then n + 1 else n
  }

  function RenameState(s: State, was: string, name: string, incoming: seq<string>, renameOk: bool, bootfsOk: bool,
                       writes: nat)
    : (State, B.Outcome)
  {
    var now := NewName(was, name);
    if !CanRename(s, was, name) then (s, B.Refused)
    else if !renameOk then (s, B.Failed)
    else
      var s1 := Renamed(s, was, now);
      if Boots(s1, was) && !bootfsOk then (s1, B.Failed)
      else
        var s2, n := Advanced(s1, was, now), Rewritable(s1.snaps.Keys, incoming, writes);
        (Redirected(s2, B.Elements(incoming[..n]), ParsePointer(now).value),
         if n == |incoming| then B.Done else B.Failed)
  }

  /** The value of one row has moved to another, and every other row has stayed. */
  ghost predicate MovedRow<V(!new)>(m: map<string, V>, n: map<string, V>, was: string, now: string) {
    n - {now} == m - {was} && (now in n <==> was in m) && (was in m && now in n ==> n[now] == m[was])
  }

  ghost predicate MovedMember(m: set<string>, n: set<string>, was: string, now: string) {
    n - {now} == m - {was} && (now in n <==> was in m)
  }

  /** The name is in no column. */
  ghost predicate Unused(s: State, d: string) {
    && d !in s.snaps && d !in s.origin && d !in s.readonly && d !in s.mounted && d !in s.props.bes
    && d !in s.props.canmount && d !in s.props.attached && d !in s.props.mirror && d !in s.props.primary
  }

  /** `zfs rename` moves the whole row, and every clone of its snapshots follows. */
  lemma RenameMovesTheRow(s: State, was: string, now: string)
    requires Unused(s, now)
    ensures var t := Renamed(s, was, now);
      && MovedRow(s.snaps, t.snaps, was, now) && t.nextGuid == s.nextGuid && t.pools == s.pools
      && MovedMember(s.readonly, t.readonly, was, now) && MovedMember(s.mounted, t.mounted, was, now)
      && MovedMember(s.props.bes, t.props.bes, was, now) && MovedRow(s.props.canmount, t.props.canmount, was, now)
      && MovedRow(s.props.attached, t.props.attached, was, now) && MovedRow(s.props.mirror, t.props.mirror, was, now)
      && MovedRow(s.props.primary, t.props.primary, was, now)
      && t.origin.Keys - {now} == s.origin.Keys - {was} && (now in t.origin <==> was in s.origin)
      && forall c :: c in s.origin ==> var o := t.origin[if c == was then now else c];
           o.name == s.origin[c].name && o.dataset == if s.origin[c].dataset == was then now else s.origin[c].dataset
  {}

  lemma {:induction false} AllRewritten(present: set<string>, incoming: seq<string>, writes: nat)
    requires |incoming| <= writes && forall d :: d in incoming ==> d in present
    ensures Rewritable(present, incoming, writes) == |incoming|
  {
    if incoming != [] {
      AllRewritten(present, incoming[..|incoming| - 1], writes);
      assert incoming[|incoming| - 1] in incoming;
    }
  }

  /** When a rename is refused, and what it does to pointers and `bootfs` when nothing fails. */
  lemma RenameLeaves(s: State, was: string, name: string, incoming: seq<string>, writes: nat)
    requires |incoming| <= writes && was !in incoming && forall d :: d in incoming ==> d in s.snaps
    ensures var (t, o) := RenameState(s, was, name, incoming, true, true, writes);
            var now := PoolOf(was) + "/ROOT/" + name;
      && (o == B.Refused <==>
           || was !in s.snaps || '/' in name || now in s.snaps || ParsePointer(was).None? || ParsePointer(now).None?)
      && (o == B.Refused ==> t == s) && (o != B.Refused ==> o == B.Done)
      && (o == B.Done ==>
           && t.pools.bootfs == (if PoolOf(was) in s.pools.bootfs && s.pools.bootfs[PoolOf(was)] == was
                                 then s.pools.bootfs[PoolOf(was) := now] else s.pools.bootfs)
           && (forall d :: d in incoming ==> d in t.props.mirror && Some(t.props.mirror[d]) == ParsePointer(now))
           && t.snaps == Renamed(s, was, now).snaps)
  {
    hide ParsePointer, PoolOf;
    if CanRename(s, was, name) {
      AllRewritten(Renamed(s, was, NewName(was, name)).snaps.Keys, incoming, writes);
      assert incoming[..|incoming|] == incoming;
    }
  }

  /** Every holder of a pointer to `p`, root pool by root pool. */
  method FindIncoming(s: State, p: PairPointer, pools: seq<string>, rows: seq<string>) returns (hits: seq<string>)
    requires Lists(pools, B.Elements(pools)) && s.pools.roots <= B.Elements(pools)
    requires Lists(rows, B.Elements(rows)) && s.props.mirror.Keys <= B.Elements(rows)
    ensures Lists(hits, D.Incoming(s, p))
  {
    hide PoolOf;
    hits := [];
    for i := 0 to |pools|
      invariant forall d :: d in hits <==> d in D.Incoming(s, p) && PoolOf(d) in pools[..i]
      invariant forall j, k :: 0 <= j < k < |hits| ==> hits[j] != hits[k]
    {
      if pools[i] in s.pools.roots {
        ghost var before := hits;
        for j := 0 to |rows|
          invariant forall d :: d in hits <==>
            d in before || (d in D.Incoming(s, p) && PoolOf(d) == pools[i] && d in rows[..j])
          invariant forall k, l :: 0 <= k < l < |hits| ==> hits[k] != hits[l]
        {
          if rows[j] in s.props.mirror && s.props.mirror[rows[j]] == p && PoolOf(rows[j]) == pools[i] {
            hits := hits + [rows[j]];
          }
        }
      }
    }
  }

  lemma RedirectedStep(s: State, ds: seq<string>, i: nat, p: PairPointer)
    requires i < |ds|
    ensures WithPointer(Redirected(s, B.Elements(ds[..i]), p), ds[i], p) == Redirected(s, B.Elements(ds[..i + 1]), p)
  {
    assert B.Elements(ds[..i + 1]) == B.Elements(ds[..i]) + {ds[i]};
    assert WithPointer(Redirected(s, B.Elements(ds[..i]), p), ds[i], p).props.mirror
        == Redirected(s, B.Elements(ds[..i + 1]), p).props.mirror;
  }

  lemma {:induction false} RewritableIs(present: set<string>, ds: seq<string>, writes: nat, i: nat)
    requires i <= |ds| && Rewritable(present, ds[..i], writes) == i
    requires i == |ds| || i >= writes || ds[i] !in present
    ensures Rewritable(present, ds, writes) == i
    decreases |ds|
  {
    if i == |ds| {
      assert ds[..i] == ds;
    } else {
      var init := ds[..|ds| - 1];
      assert init[..i] == ds[..i];
      if i < |init| {
        RewritableIs(present, init, writes, i);
      } else {
        assert init == ds[..i];
      }
    }
  }

  method RewritePointers(z: Zfs, incoming: seq<string>, p: PairPointer, writes: nat) returns (ok: bool)
    modifies z
    ensures var n := Rewritable(old(z.s).snaps.Keys, incoming, writes);
      z.s == Redirected(old(z.s), B.Elements(incoming[..n]), p) && ok == (n == |incoming|)
  {
    ghost var s0 := z.s;
    var i := 0;
    ok := true;
    assert s0.props.mirror.Keys + B.Elements(incoming[..0]) == s0.props.mirror.Keys;
    assert Redirected(s0, B.Elements(incoming[..0]), p).props.mirror == s0.props.mirror;
    while ok && i < |incoming|
      invariant 0 <= i <= |incoming| && Rewritable(s0.snaps.Keys, incoming[..i], writes) == i
      invariant ok || (i < |incoming| && (i >= writes || incoming[i] !in s0.snaps))
      invariant z.s == Redirected(s0, B.Elements(incoming[..i]), p)
      decreases |incoming| - i, ok
    {
      ok := i < writes && incoming[i] in z.s.snaps;
      RedirectedStep(s0, incoming, i, p);
      z.Commit(WithPointer(z.s, incoming[i], p), ok);
      if ok {
        assert incoming[..i + 1][..i] == incoming[..i];
        i := i + 1;
      }
    }
    RewritableIs(s0.snaps.Keys, incoming, writes, i);
  }

  method Rename(z: Zfs, was: string, name: string, pools: seq<string>, rows: seq<string>,
                renameOk: bool, bootfsOk: bool, writes: nat)
    returns (o: B.Outcome, incoming: seq<string>)
    requires Lists(pools, B.Elements(pools)) && z.s.pools.roots <= B.Elements(pools)
    requires Lists(rows, B.Elements(rows)) && z.s.props.mirror.Keys <= B.Elements(rows)
    modifies z
    ensures (z.s, o) == RenameState(old(z.s), was, name, incoming, renameOk, bootfsOk, writes)
    ensures o != B.Refused ==> ParsePointer(was).Some? && Lists(incoming, D.Incoming(old(z.s), ParsePointer(was).value))
  {
    hide ParsePointer, PoolOf, Lists;
    incoming := [];
    o := B.Refused;
    if CanRename(z.s, was, name) {
      var now := NewName(was, name);
      incoming := FindIncoming(z.s, ParsePointer(was).value, pools, rows);
      z.Commit(Renamed(z.s, was, now), renameOk);
      var ok := renameOk;
      if ok && Boots(z.s, was) {
        z.Commit(WithBootfs(z.s, z.s.pools.bootfs[PoolOf(was) := now]), bootfsOk);
        ok := bootfsOk;
      }
      if ok {
        ok := RewritePointers(z, incoming, ParsePointer(now).value, writes);
      }
      o := if ok then B.Done else B.Failed;
    }
  }
}
