// `drop`: promote whatever was cloned from a boot environment, destroy it, then clear the
// pointers and binding lists that name it.

module Drop {
  import opened Text
  import opened Snapshots
  import opened World
  import opened Clones
  import opened Default
  import opened Bindings
  import opened Promotions

  // -------------------------------------------------------------------------
  // Pointers and lists
  // -------------------------------------------------------------------------

  /** Datasets on root pools whose pair pointer names `p`. */
  function Incoming(s: State, p: PairPointer): set<string> {
    set d | d in s.props.mirror && OnRootPool(s, d) && s.props.mirror[d] == p
  }

  function WithoutPointers(s: State, ds: set<string>): State {
    s.(props := s.props.(mirror := s.props.mirror - ds))
  }

  /** Properties belong to datasets that exist. */
  ghost predicate Owned(s: State) {
    s.props.mirror.Keys <= s.snaps.Keys && s.props.attached.Keys <= s.snaps.Keys
  }

  /** Pointers at the dropped dataset are cleared where they can be; a name out of canonical form has none. */
  function Unpointed(s: State, target: string, stuck: set<string>): State {
    var p := ParsePointer(target);
    if p.None? then s else WithoutPointers(s, Incoming(s, p.value) - stuck)
  }

  method ClearIncoming(z: Zfs, target: string, rows: seq<string>, stuck: set<string>)
    requires forall d :: d in z.s.props.mirror ==> d in rows
    modifies z
    ensures z.s == Unpointed(old(z.s), target, stuck)
  {
    hide ParsePointer, PoolOf;
    var p := ParsePointer(target);
    if p.Some? {
      ghost var s0, done := z.s, {};
      assert s0.props.mirror - {} == s0.props.mirror;
      for i := 0 to |rows|
        invariant forall d :: d in done <==> d in rows[..i] && d in Incoming(s0, p.value) && d !in stuck
        invariant z.s == WithoutPointers(s0, done)
      {
        var d := rows[i];
        if d in z.s.props.mirror && OnRootPool(z.s, d) && z.s.props.mirror[d] == p.value {
          if d !in stuck {
            assert s0.props.mirror - done - {d} == s0.props.mirror - (done + {d});
            done := done + {d};
          }
          z.Commit(WithoutPointer(z.s, d), d !in stuck);
        }
      }
      assert done == Incoming(s0, p.value) - stuck;
    }
  }

  /** The lists with only those in `ds` purged so far. */
  function PurgedIn(a: Attached, key: BoundKey, ds: set<string>): Attached {
    map d | d in a.Keys - (Orphans(a, key) * ds) :: if d in ds then RemoveKey(a[d], key) else a[d]
  }

  /** With nothing left out that is the whole purge. */
  lemma PurgedEverywhere(a: Attached, key: BoundKey, ds: set<string>)
    requires Sharing(a, key) <= ds
    ensures PurgedIn(a, key, ds) == Purged(a, key)
  {
    forall d | d in a && d !in ds ensures RemoveKey(a[d], key) == a[d] {
      assert d !in Sharing(a, key);
      RemoveKeyMembers(a[d], key);
    }
  }

  lemma PurgeStep(a: Attached, key: BoundKey, rows: seq<string>, i: nat, all: set<string>)
    requires i < |rows| && Lists(rows, all)
    ensures var d, now, next := rows[i], PurgedIn(a, key, Elements(rows[..i])),
      PurgedIn(a, key, Elements(rows[..i + 1]));
      && (d in a <==> d in now) && (d in a ==> now[d] == a[d])
      && next == (if d !in Sharing(a, key) then now
                  else if RemoveKey(a[d], key) == [] then now - {d}
                  else now[d := RemoveKey(a[d], key)])
      && (d in Orphans(a, key) <==> d in Sharing(a, key) && RemoveKey(a[d], key) == [])
  {
    var d := rows[i];
    assert Elements(rows[..i + 1]) == Elements(rows[..i]) + {d} && d !in Elements(rows[..i]);
    if d in a && key !in a[d] {
      RemoveKeyMembers(a[d], key);
    }
  }

  /** Takes the key out of one list, or the property off when nothing is left. */
  method PurgeOne(z: Zfs, key: BoundKey, d: string, ok: bool) returns (emptied: bool)
    requires d in z.s.props.attached
    modifies z
    ensures var a := old(z.s).props.attached; var rest := RemoveKey(a[d], key);
      && emptied == (rest == [])
      && z.s == if !ok then old(z.s) else WithAttached(old(z.s), if emptied then a - {d} else a[d := rest])
  {
    var list := new BoundList(z.s.props.attached[d]);
    var removed := list.Remove(key);
    emptied := list.keys == [];
    z.Commit(WithAttached(z.s, if emptied then z.s.props.attached - {d} else z.s.props.attached[d := list.keys]), ok);
  }

  /** How many rows come before the first one in `bad`. */
  function Reached(rows: seq<string>, bad: set<string>): (n: nat)
    ensures n <= |rows|
  {
    if rows == [] then 0
    else
      var n := Reached(rows[..|rows| - 1], bad);
      if n == |rows| - 1 && rows[n] !in bad then n + 1 else n
  }

  lemma {:induction false} ReachedAll(rows: seq<string>, bad: set<string>)
    requires forall d :: d in rows ==> d !in bad
    ensures Reached(rows, bad) == |rows|
  {
    if rows != [] {
      ReachedAll(rows[..|rows| - 1], bad);
    }
  }

  lemma {:induction false} ReachedIs(rows: seq<string>, bad: set<string>, i: nat)
    requires i <= |rows| && (forall j :: 0 <= j < i ==> rows[j] !in bad) && (i < |rows| ==> rows[i] in bad)
    ensures Reached(rows, bad) == i
  {
    if i < |rows| {
      var init := rows[..|rows| - 1];
      if i < |init| {
        ReachedIs(init, bad, i);
      } else {
        ReachedAll(init, bad);
      }
    } else {
      ReachedAll(rows, bad);
    }
  }

  /** The lists a purge gets to before a write fails. */
  function PurgeReach(a: Attached, key: BoundKey, rows: seq<string>, stuck: set<string>): set<string> {
    Elements(rows[..Reached(rows, Sharing(a, key) * stuck)])
  }

  lemma NonePurged(a: Attached, key: BoundKey)
    ensures PurgedIn(a, key, {}) == a
  {}

  lemma SharingIs(a: Attached, key: BoundKey, d: string)
    ensures d in Sharing(a, key) <==> d in a && key in a[d]
  {}

  lemma PurgeEnds(a: Attached, key: BoundKey, rows: seq<string>, stuck: set<string>, all: set<string>, i: nat)
    requires Lists(rows, all) && a.Keys <= all && i <= |rows|
    requires forall j :: 0 <= j < i ==> rows[j] !in Sharing(a, key) * stuck
    requires i < |rows| ==> rows[i] in Sharing(a, key) * stuck
    ensures i == |rows| <==> Sharing(a, key) !! stuck
    ensures i == |rows| <==> Sharing(a, key) <= Elements(rows[..i])
  {
    if i == |rows| {
      forall d | d in Sharing(a, key) ensures d in rows[..i] && d !in stuck {
        var j :| 0 <= j < |rows| && rows[j] == d;
        assert d == rows[..i][j];
      }
    } else {
      assert rows[i] in Sharing(a, key) && rows[i] !in rows[..i];
    }
  }

  /**
   * Takes the key out of the lists, row by row, until a write fails. Lists left empty lose the property and are
   * reported.
   */
  method PurgeLists(z: Zfs, key: BoundKey, rows: seq<string>, stuck: set<string>, ghost all: set<string>)
    returns (orphans: seq<string>, ok: bool)
    requires Lists(rows, all) && z.s.props.attached.Keys <= all
    modifies z
    ensures var a := old(z.s).props.attached; var done := PurgeReach(a, key, rows, stuck);
      && z.s == WithAttached(old(z.s), PurgedIn(a, key, done))
      && (ok <==> Sharing(a, key) !! stuck) && (ok <==> Sharing(a, key) <= done)
      && forall d :: d in orphans <==> d in Orphans(a, key) && d in done
  {
    hide Lists, Orphans, Sharing, PurgedIn, RemoveKey, Reached;
    ghost var s0, a := z.s, z.s.props.attached;
    ghost var bad := Sharing(a, key) * stuck;
    orphans, ok := [], true;
    NonePurged(a, key);
    assert Elements(rows[..0]) == {};
    var i := 0;
    while ok && i < |rows|
      invariant 0 <= i <= |rows| && forall j :: 0 <= j < i ==> rows[j] !in bad
      invariant ok || (i < |rows| && rows[i] in bad)
      invariant z.s == WithAttached(s0, PurgedIn(a, key, Elements(rows[..i])))
      invariant forall d :: d in orphans <==> d in Orphans(a, key) && d in rows[..i]
      decreases |rows| - i, ok
    {
      var d := rows[i];
      PurgeStep(a, key, rows, i, all);
      SharingIs(a, key, d);
      if d in z.s.props.attached && key in z.s.props.attached[d] {
        ok := d !in stuck;
        var emptied := PurgeOne(z, key, d, ok);
        if ok && emptied {
          orphans := orphans + [d];
        }
      }
      if ok {
        i := i + 1;
      }
    }
    ReachedIs(rows, bad, i);
    PurgeEnds(a, key, rows, stuck, all, i);
  }

  // -------------------------------------------------------------------------
  // The verb
  // -------------------------------------------------------------------------

  /** Some pool, root or not, boots it next. */
  predicate IsActive(s: State, be: string) {
    exists q :: q in s.pools.bootfs && s.pools.bootfs[q] == be
  }

  /**
   * Once nothing is cloned from it: the target destroyed, pointers at it cleared, its key out of the lists of `done`.
   */
  function DroppedState(s: State, target: string, stuck: set<string>, done: set<string>): State {
    var s1 := Unpointed(Destroyed(s, target), target, stuck);
    WithAttached(s1, PurgedIn(s1.props.attached, KeyOf(target), done))
  }

  /**
   * What is answered and what fails: `live` is the dataset mounted at `/`, `typed` the confirmation line, `stuck` the
   * clones that cannot be promoted, `relistOk` whether the datasets can be listed again after the destroy.
   */
  datatype Env = Env(live: Option<string>, typed: Option<string>, stuck: set<string>, destroyOk: bool,
                     stuckPointers: set<string>, relistOk: bool, stuckLists: set<string>)

  predicate GoesAhead(s: State, target: string, env: Env) {
    !IsActive(s, target) && env.live != Some(target) && env.typed.Some? && Trim(env.typed.value) == target
  }

  /** The lists a drop gets to. */
  function DropReach(s: State, target: string, rows: seq<string>, env: Env): set<string> {
    if env.relistOk then PurgeReach(s.props.attached - {target}, KeyOf(target), rows, env.stuckLists) else {}
  }

  /** Every clean-up write goes through. */
  predicate CleansUp(s: State, target: string, env: Env) {
    env.relistOk && Sharing(s.props.attached - {target}, KeyOf(target)) !! env.stuckLists
  }

  lemma ListedDatasets(rows: seq<string>, all: set<string>, s: State)
    requires Lists(rows, all) && Owned(s) && s.snaps.Keys == all
    ensures forall d :: d in s.props.mirror ==> d in rows
    ensures s.props.attached.Keys <= all
  {}

  lemma OrphansShare(a: Attached, key: BoundKey)
    ensures Orphans(a, key) <= Sharing(a, key)
  {}

  /** The destroy, then the two clean-ups; only the second one's failures count. */
  method Finish(z: Zfs, target: string, rows: seq<string>, env: Env) returns (o: Outcome, orphans: seq<string>)
    requires Lists(rows, z.s.snaps.Keys) && Owned(z.s)
    modifies z
    ensures z.s ==
      if env.destroyOk then DroppedState(old(z.s), target, env.stuckPointers, DropReach(old(z.s), target, rows, env))
      else old(z.s)
    ensures o == if env.destroyOk && CleansUp(old(z.s), target, env) then Done else Failed
    ensures o == Done ==>
      Sharing(old(z.s).props.attached - {target}, KeyOf(target)) <= DropReach(old(z.s), target, rows, env)
    ensures o == Done ==> forall d :: d in orphans <==> d in Orphans(old(z.s).props.attached - {target}, KeyOf(target))
  {
    hide ParsePointer, PurgedIn, Orphans, PurgeReach, Lists, Sharing;
    ghost var a := z.s.props.attached - {target};
    orphans := [];
    z.Commit(Destroyed(z.s, target), env.destroyOk);
    o := Failed;
    if env.destroyOk {
      ghost var all := old(z.s).snaps.Keys;
      ListedDatasets(rows, all, old(z.s));
      ClearIncoming(z, target, rows, env.stuckPointers);
      if env.relistOk {
        var ok;
        orphans, ok := PurgeLists(z, KeyOf(target), rows, env.stuckLists, all);
        o := if ok then Done else Failed;
        if ok {
          OrphansShare(a, KeyOf(target));
        }
      } else {
        NonePurged(a, KeyOf(target));
      }
    }
  }

  lemma HistoryFrame(s: State, t: State, h: Table)
    requires IsHistory(s, h) && t.snaps == s.snaps && t.origin == s.origin
    ensures IsHistory(t, h)
  {
    hide FindName, Names;
    var inh :| HistoryVia(s, h, inh);
    forall d | d in t.snaps ensures InheritsAt(t, inh, d) {
      assert InheritsAt(s, inh, d);
    }
    assert HistoryVia(t, h, inh);
  }

  lemma DroppedKeepsHistory(s: State, s1: State, target: string, stuck: set<string>, done: set<string>)
    requires ClonesOf(s1, target) == {} && forall h :: IsHistory(s, h) ==> IsHistory(s1, h)
    ensures forall h :: IsHistory(s, h) ==> IsHistory(DroppedState(s1, target, stuck, done), h - {target})
  {
    hide IsHistory, ClonesOf;
    forall h | IsHistory(s, h) ensures IsHistory(DroppedState(s1, target, stuck, done), h - {target}) {
      DestroyKeepsHistory(s1, target, h);
      HistoryFrame(Destroyed(s1, target), DroppedState(s1, target, stuck, done), h - {target});
    }
  }

  lemma DroppedStaysRanked(s: State, target: string, stuck: set<string>, done: set<string>, rank: map<string, nat>)
    requires Grounded(s) && Ranked(s, rank) && ClonesOf(s, target) == {}
    ensures Grounded(DroppedState(s, target, stuck, done)) && Ranked(DroppedState(s, target, stuck, done), rank)
  {
    hide ParsePointer, Names, PurgedIn;
    DestroyStaysRanked(s, target, rank);
  }

  /** The promotions leave every list as it was, and so what the clean-up will find. */
  lemma SameCleanUp(s: State, s1: State, target: string, rows: seq<string>, env: Env)
    requires s1.props == s.props
    ensures CleansUp(s1, target, env) == CleansUp(s, target, env)
    ensures DropReach(s1, target, rows, env) == DropReach(s, target, rows, env)
  {}

  /** Without the fork's own row, the lists are those of the others. */
  lemma JoinedWithout(a: Attached, copied: Attached, key: BoundKey, ds: set<string>, target: string)
    requires copied - {target} == a && target !in a
    ensures Joined(copied, key, ds) - {target} == Joined(a, key, ds)
  {}

  lemma ForkedLists(s: State, snap: SnapshotRef, name: string, intact: bool, lists: seq<string>, env: ForkEnv,
                    s1: State)
    requires Lists(lists, Sharing(s.props.attached, KeyOf(snap.dataset)))
    requires (s1, Done) == ForkState(s, snap, name, intact, lists, env)
    ensures ForkTarget(snap, name) !in s.snaps
    ensures var target := ForkTarget(snap, name);
      s1.props.attached == Joined(CopyProps(s.props, snap.dataset, target).attached, KeyOf(target),
                                  Sharing(s.props.attached, KeyOf(snap.dataset)))
  {
    hide Joined, PoolOf, LeafOf, Sharing;
    assert lists[..|lists|] == lists;
    assert Elements(lists) == Sharing(s.props.attached, KeyOf(snap.dataset));
  }

  /** Forking a boot environment and dropping the fork, whatever is promoted on the way, leaves every list as it was. */
  lemma ForkThenDropRestores(s: State, snap: SnapshotRef, name: string, intact: bool, lists: seq<string>,
                             forkEnv: ForkEnv, s1: State, promoted: seq<string>, stuck: set<string>, done: set<string>)
    requires Owned(s) && Lists(lists, Sharing(s.props.attached, KeyOf(snap.dataset)))
    requires (s1, Done) == ForkState(s, snap, name, intact, lists, forkEnv)
    requires var key := KeyOf(ForkTarget(snap, name));
      Sharing(s.props.attached, key) == {} && Sharing(s1.props.attached - {ForkTarget(snap, name)}, key) <= done
    ensures var target := ForkTarget(snap, name);
      DroppedState(PromoteAll(s1, promoted), target, stuck, done).props.attached == s.props.attached
  {
    hide PromoteAll, Joined, PurgedIn, ParsePointer, PoolOf, LeafOf, Purged;
    var target, a := ForkTarget(snap, name), s.props.attached;
    PromotionsKeepProps(s1, promoted);
    ForkedLists(s, snap, name, intact, lists, forkEnv, s1);
    var joined := Joined(a, KeyOf(target), Sharing(a, KeyOf(snap.dataset)));
    JoinThenPurgeRestores(a, KeyOf(snap.dataset), KeyOf(target));
    JoinedWithout(a, CopyProps(s.props, snap.dataset, target).attached, KeyOf(target), Sharing(a, KeyOf(snap.dataset)),
                  target);
    PurgedEverywhere(joined, KeyOf(target), done);
  }

  /** The key is in no list any more; other keys stay where they were, and lists that held nothing else are gone. */
  ghost predicate Unlisted(a: Attached, b: Attached, key: BoundKey) {
    && b.Keys <= a.Keys
    && (forall d :: d in a ==> (d in b <==> key !in a[d] || exists k :: k in a[d] && k != key))
    && (forall d, k :: d in b ==> (k in b[d] <==> k in a[d] && k != key))
    && (forall d :: d in a && key !in a[d] && d in b ==> b[d] == a[d])
  }

  lemma PurgeUnlists(a: Attached, key: BoundKey, done: set<string>)
    requires Sharing(a, key) <= done
    ensures Unlisted(a, PurgedIn(a, key, done), key)
  {
    hide PurgedIn, RemoveKey, Orphans, Purged;
    PurgedEverywhere(a, key, done);
    PurgeExactly(a, key);
    forall d | d in a ensures a[d] == [] ==> key !in a[d] {}
  }

  /** What `drop` refuses: what some pool boots, what is running, and anything but the right confirmation. */
  ghost predicate Barred(s: State, target: string, env: Env) {
    || (exists q :: q in s.pools.bootfs && s.pools.bootfs[q] == target) || env.live == Some(target)
    || env.typed.None? || Trim(env.typed.value) != target
  }

  lemma AheadUnlessBarred(s: State, target: string, env: Env)
    ensures GoesAhead(s, target, env) <==> !Barred(s, target, env)
  {}

  lemma DroppedRows(s: State, target: string, stuck: set<string>, done: set<string>)
    ensures var t := DroppedState(s, target, stuck, done);
      && t.snaps.Keys == s.snaps.Keys - {target} && t.pools == s.pools
      && t.props.attached == PurgedIn(s.props.attached - {target}, KeyOf(target), done)
      && t.snaps == s.snaps - {target} && t.origin == s.origin - {target} && t.nextGuid == s.nextGuid
      && t.readonly == s.readonly - {target} && t.mounted == s.mounted - {target}
      && t.props.bes == s.props.bes - {target} && t.props.canmount == s.props.canmount - {target}
      && t.props.primary == s.props.primary - {target} && t.props.mirror.Keys <= s.props.mirror.Keys
      && (forall d :: d in t.props.mirror ==> t.props.mirror[d] == s.props.mirror[d])
      && (forall d :: d in s.props.mirror && d !in t.props.mirror && d != target ==>
           PoolOf(d) in s.pools.roots && d !in stuck && ParsePointer(target) == Some(s.props.mirror[d]))
  {
    hide ParsePointer, PurgedIn, PoolOf, LeafOf;
  }

  method Run(z: Zfs, name: string, bes: seq<string>, rows: seq<string>, env: Env, ghost rank: map<string, nat>)
    returns (o: Outcome, target: Result<string>, promoted: seq<string>, destroyed: bool, orphans: seq<string>,
             ghost rank1: map<string, nat>)
    requires Grounded(z.s) && Ranked(z.s, rank) && Owned(z.s)
    requires Lists(bes, z.s.props.bes) && z.s.props.bes <= z.s.snaps.Keys && Lists(rows, z.s.snaps.Keys)
    modifies z
    ensures target == ResolveTarget(bes, name)
    ensures o == Refused <==> target.Err? || Barred(old(z.s), target.value, env)
    ensures o == Refused ==> z.s == old(z.s)
    ensures o != Refused ==> target.value in old(z.s.snaps) && PromoteRun(old(z.s), target.value, promoted)
    ensures o != Refused ==> (destroyed <==>
      && |Records(old(z.s), target.value, rows)| < 256 && AllGo(old(z.s), target.value, env.stuck, rows)
      && env.destroyOk)
    ensures o != Refused && destroyed ==> promoted == Records(old(z.s), target.value, rows)
    ensures o != Refused ==> var s1 := PromoteAll(old(z.s), promoted);
      z.s ==
        if destroyed then DroppedState(s1, target.value, env.stuckPointers, DropReach(s1, target.value, rows, env))
        else s1
    ensures o == Done <==> o != Refused && destroyed && CleansUp(old(z.s), target.value, env)
    ensures o == Done ==> var key := KeyOf(target.value);
      Sharing(old(z.s).props.attached - {target.value}, key) <= DropReach(old(z.s), target.value, rows, env)
    ensures o == Done ==> forall d ::
      d in orphans <==> d in Orphans(old(z.s).props.attached - {target.value}, KeyOf(target.value))
    ensures o != Refused ==> forall h ::
      IsHistory(old(z.s), h) ==> IsHistory(z.s, if destroyed then h - {target.value} else h)
    ensures Grounded(z.s) && Ranked(z.s, rank1)
    ensures forall q :: q in old(z.s).pools.bootfs && old(z.s).pools.bootfs[q] in old(z.s).snaps ==>
      old(z.s).pools.bootfs[q] in z.s.snaps
    ensures env.live.Some? && env.live.value in old(z.s).snaps ==> env.live.value in z.s.snaps
    ensures o != Refused ==> target.Ok? && env.typed.Some? && Trim(env.typed.value) == target.value
    ensures z.s.pools == old(z.s).pools
    ensures destroyed ==> o != Refused && z.s.snaps.Keys == old(z.s).snaps.Keys - {target.value}
    ensures !destroyed ==> z.s.snaps.Keys == old(z.s).snaps.Keys
    ensures o == Done ==> Unlisted(old(z.s).props.attached - {target.value}, z.s.props.attached, KeyOf(target.value))
  {
    hide Grounded, Ranked, IsHistory, ClonesOf, Lists, DroppedState, SomePromoteFails, PromoteAll, PromoteRun, IsActive,
         CleansUp, DropReach, Records, AllGo, Sharing, Orphans, Unlisted, PurgedIn, GoesAhead, KeyOf;
    promoted, destroyed, orphans, rank1 := [], false, [], rank;
    o := Refused;
    target := ResolveTarget(bes, name);
    if target.Ok? {
      AheadUnlessBarred(z.s, target.value, env);
    }
    if target.Ok? && GoesAhead(z.s, target.value, env) {
      ResolvesExactly(bes, z.s.props.bes, name, target.value);
      var ok;
      promoted, ok := PromoteDependents(z, target.value, rows, env.stuck, rank);
      ghost var s1 := z.s;
      RunSummary(old(z.s), rank, target.value, promoted);
      PromotionsKeepProps(old(z.s), promoted);
      rank1 := RunFacts(old(z.s), rank, target.value, promoted);
      SameCleanUp(old(z.s), s1, target.value, rows, env);
      o := Failed;
      if ok {
        ghost var reach := DropReach(s1, target.value, rows, env);
        DroppedKeepsHistory(old(z.s), s1, target.value, env.stuckPointers, reach);
        DroppedStaysRanked(s1, target.value, env.stuckPointers, reach, rank1);
        destroyed := env.destroyOk;
        DroppedRows(s1, target.value, env.stuckPointers, reach);
        if Sharing(s1.props.attached - {target.value}, KeyOf(target.value)) <= reach {
          PurgeUnlists(s1.props.attached - {target.value}, KeyOf(target.value), reach);
        }
        o, orphans := Finish(z, target.value, rows, env);
      }
    }
  }
}
