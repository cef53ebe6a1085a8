// Binding lists over the lifecycle verbs: `attach`, `detach`, `fork`, and the purge `drop`
// ends with.

module Bindings {
  import opened Text
  import opened Snapshots
  import opened World
  import opened Clones
  import opened Default
  import opened Lineage

  type Attached = map<string, seq<BoundKey>>

  /** The canonical dataset of a key, `<pool>/ROOT/<be>`. */
  function DatasetOf(key: BoundKey): string {
    RenderPointer(PairPointer(key.pool, key.be))
  }

  predicate Canonical(d: string) {
    d == DatasetOf(KeyOf(d))
  }

  /** The datasets whose list contains the key. */
  function Sharing(a: Attached, key: BoundKey): set<string> {
    set d | d in a && key in a[d]
  }

  /** `fork` adds the new key to the given lists. */
  function Joined(a: Attached, key: BoundKey, ds: set<string>): Attached {
    map d | d in a :: if d in ds then AppendKey(a[d], key) else a[d]
  }

  /** Lists a purge would empty. */
  function Orphans(a: Attached, key: BoundKey): set<string> {
    set d | d in a && key in a[d] && RemoveKey(a[d], key) == []
  }

  /** `drop` removes the key from every list, and the property where nothing is left. */
  function Purged(a: Attached, key: BoundKey): Attached {
    map d | d in a.Keys - Orphans(a, key) :: RemoveKey(a[d], key)
  }

  // -------------------------------------------------------------------------
  // Lists
  // -------------------------------------------------------------------------

  /** A drop alone: the key is gone everywhere, everything else stays; orphans are the lists that held nothing else. */
  lemma PurgeExactly(a: Attached, key: BoundKey)
    ensures forall d :: d in Orphans(a, key) <==> d in a && a[d] != [] && forall k :: k in a[d] ==> k == key
    ensures forall d :: d in Purged(a, key) <==> d in a && d !in Orphans(a, key)
    ensures forall d, k :: d in Purged(a, key) ==> (k in Purged(a, key)[d] <==> k in a[d] && k != key)
    ensures forall d :: d in a && key !in a[d] ==> d in Purged(a, key) && Purged(a, key)[d] == a[d]
  {
    forall d | d in a ensures
      (d in Orphans(a, key) <==> a[d] != [] && forall k :: k in a[d] ==> k == key)
      && (forall k :: k in RemoveKey(a[d], key) <==> k in a[d] && k != key)
      && (key !in a[d] ==> RemoveKey(a[d], key) == a[d])
    {
      RemoveKeyMembers(a[d], key);
      if a[d] != [] && forall k :: k in a[d] ==> k == key {
        assert a[d][0] in a[d];
        if RemoveKey(a[d], key) != [] {
          assert RemoveKey(a[d], key)[0] in RemoveKey(a[d], key);
        }
      }
    }
  }

  /** Adding a new key wherever another one is and purging it again leaves every list as it was, in order. */
  lemma JoinThenPurgeRestores(a: Attached, source: BoundKey, key: BoundKey)
    requires Sharing(a, key) == {}
    ensures Purged(Joined(a, key, Sharing(a, source)), key) == a
    ensures Orphans(Joined(a, key, Sharing(a, source)), key) == {}
  {
    var joined := Joined(a, key, Sharing(a, source));
    forall d | d in a ensures RemoveKey(joined[d], key) == a[d] && d !in Orphans(joined, key) {
      assert key in a[d] ==> d in Sharing(a, key);
      if d in Sharing(a, source) {
        RemoveUndoesAppend(a[d], key);
      } else {
        RemoveKeyMembers(a[d], key);
      }
    }
  }

  // -------------------------------------------------------------------------
  // attach and detach
  // -------------------------------------------------------------------------

  datatype Outcome = Refused | Failed | Done

  function WithAttached(s: State, a: Attached): State {
    s.(props := s.props.(attached := a))
  }

  predicate AllBes(s: State, keys: seq<BoundKey>) {
    forall k :: k in keys ==> DatasetOf(k) in s.props.bes
  }

  /** `attach <d> --to <text>`: the list, then `canmount` for the BE the dataset's own pool boots. */
  function AttachState(s: State, d: string, text: string, listOk: bool, canmountOk: bool): (State, Outcome) {
    var r := ParseList(text);
    if r.Err? || !AllBes(s, r.value) || PoolOf(d) !in s.pools.bootfs then (s, Refused)
    else if !listOk || d !in s.snaps then (s, Failed)
    else
      var active := BoundKey(PoolOf(d), LeafOf(s.pools.bootfs[PoolOf(d)]));
      var s1 := WithAttached(s, s.props.attached[d := r.value]);
      if !canmountOk then (s1, Failed)
      else (WithCanmounts(s1, s1.props.canmount[d := if active in r.value then On else Off]), Done)
  }

  /** Some entry names no boot environment. */
  ghost predicate SomeUnknown(s: State, keys: seq<BoundKey>) {
    exists k :: k in keys && k.pool + "/ROOT/" + k.be !in s.props.bes
  }

  /** What an attach leaves: refused nothing, and otherwise the parsed list and then `canmount` of the one dataset. */
  lemma AttachLeaves(s: State, d: string, text: string, listOk: bool, canmountOk: bool)
    ensures var (t, o) := AttachState(s, d, text, listOk, canmountOk); var r := ParseList(text);
      && (o == Refused <==> r.Err? || PoolOf(d) !in s.pools.bootfs || SomeUnknown(s, r.value))
      && (o == Refused ==> t == s) && (o == Done <==> o != Refused && listOk && canmountOk && d in s.snaps)
      && t == s.(props := s.props.(attached := t.props.attached, canmount := t.props.canmount))
      && (o == Done ==> t.props.attached == s.props.attached[d := r.value] && PoolOf(d) in s.pools.bootfs)
      && (o == Done ==> var active := BoundKey(PoolOf(d), LeafOf(s.pools.bootfs[PoolOf(d)]));
           t.props.canmount == s.props.canmount[d := if active in r.value then On else Off])
  {
    hide ParseList, PoolOf, LeafOf;
    var r := ParseList(text);
    assert r.Ok? ==> forall k :: k in r.value ==> DatasetOf(k) == k.pool + "/ROOT/" + k.be;
  }

  /** Every entry must name a dataset marked as a boot environment. */
  method BesExist(s: State, keys: seq<BoundKey>) returns (ok: bool)
    ensures ok <==> AllBes(s, keys)
  {
    var missing: seq<BoundKey> := [];
    for i := 0 to |keys|
      invariant missing == [] <==> forall j :: 0 <= j < i ==> DatasetOf(keys[j]) in s.props.bes
    {
      if DatasetOf(keys[i]) !in s.props.bes {
        missing := missing + [keys[i]];
      }
    }
    ok := missing == [];
    if ok {
      forall k | k in keys ensures DatasetOf(k) in s.props.bes {
        var j :| 0 <= j < |keys| && keys[j] == k;
      }
    } else {
      var j :| 0 <= j < |keys| && DatasetOf(keys[j]) !in s.props.bes;
      assert keys[j] in keys;
    }
  }

  method Attach(z: Zfs, d: string, text: string, listOk: bool, canmountOk: bool) returns (o: Outcome)
    modifies z
    ensures (z.s, o) == AttachState(old(z.s), d, text, listOk, canmountOk)
  {
    var r := BoundList.Parse(text);
    var known := r.Ok?;
    if r.Ok? {
      known := BesExist(z.s, r.value);
    }
    if !known || PoolOf(d) !in z.s.pools.bootfs {
      o := Refused;
    } else {
      var active := BoundKey(PoolOf(d), LeafOf(z.s.pools.bootfs[PoolOf(d)]));
      var ok := listOk && d in z.s.snaps;
      z.Commit(WithAttached(z.s, z.s.props.attached[d := r.value]), ok);
      if ok {
        z.Commit(WithCanmounts(z.s, z.s.props.canmount[d := if active in r.value then On else Off]), canmountOk);
      }
      o := if ok && canmountOk then Done else Failed;
    }
  }

  /** `detach <d>`: the list goes. */
  function DetachState(s: State, d: string, ok: bool): (State, Outcome) {
    if !ok then (s, Failed) else (WithAttached(s, s.props.attached - {d}), Done)
  }

  lemma DetachLeaves(s: State, d: string, ok: bool)
    ensures var (t, o) := DetachState(s, d, ok);
      && (o == Done <==> ok) && (!ok ==> t == s) && t == s.(props := s.props.(attached := t.props.attached))
      && (ok ==> d !in t.props.attached && forall c :: c != d ==>
           (c in t.props.attached <==> c in s.props.attached)
           && (c in s.props.attached ==> t.props.attached[c] == s.props.attached[c]))
  {}

  method Detach(z: Zfs, d: string, ok: bool) returns (o: Outcome)
    modifies z
    ensures (z.s, o) == DetachState(old(z.s), d, ok)
  {
    z.Commit(WithAttached(z.s, z.s.props.attached - {d}), ok);
    o := if ok then Done else Failed;
  }

  // -------------------------------------------------------------------------
  // fork
  // -------------------------------------------------------------------------

  /** Which steps succeed; `lists` is how many list writes do before one fails. */
  datatype ForkEnv = ForkEnv(cloneOk: bool, markOk: bool, clearOk: bool, lists: nat)

  predicate BareName(name: string) {
    name != "" && '/' !in name && '@' !in name
  }

  function ForkTarget(snap: SnapshotRef, name: string): string {
    DatasetOf(BoundKey(PoolOf(snap.dataset), name))
  }

  /** `zfs clone -o canmount=noauto -o mountpoint=/`; the source's user properties come along. */
  function Cloned(s: State, snap: SnapshotRef, target: string): State {
    s.(snaps := s.snaps[target := []], origin := s.origin[target := snap], readonly := s.readonly - {target},
       props := CopyProps(s.props, snap.dataset, target).(canmount := s.props.canmount[target := Noauto]))
  }

  function Marked(s: State, d: string): State {
    s.(props := s.props.(bes := s.props.bes + {d}))
  }

  function Elements(xs: seq<string>): set<string> {
    set x | x in xs
  }

  /** `lists` names the datasets bound to the source, in order; the lineage check has said `intact`. */
  function ForkState(s: State, snap: SnapshotRef, name: string, intact: bool, lists: seq<string>, env: ForkEnv)
    : (State, Outcome)
  {
    var target := ForkTarget(snap, name);
    if !BareName(name) || target in s.snaps || !intact then (s, Refused)
    else if !env.cloneOk || !HasSnapshot(s, snap) then (s, Failed)
    else
      var s1 := Cloned(s, snap, target);
      if !env.markOk then (s1, Failed)
      else
        var s2 := if env.clearOk then WithoutPointer(Marked(s1, target), target) else Marked(s1, target);
        var n := if env.lists < |lists| then env.lists else |lists|;
        (WithAttached(s2, Joined(s2.props.attached, KeyOf(target), Elements(lists[..n]))),
         if n == |lists| then Done else Failed)
  }

  lemma JoinedStep(a: Attached, key: BoundKey, lists: seq<string>, i: nat)
    requires i < |lists| && lists[i] in a
    ensures var now := Joined(a, key, Elements(lists[..i]));
      now[lists[i] := AppendKey(now[lists[i]], key)] == Joined(a, key, Elements(lists[..i + 1]))
  {
    assert lists[..i + 1] == lists[..i] + [lists[i]];
    assert Elements(lists[..i + 1]) == Elements(lists[..i]) + {lists[i]};
  }

  /**
   * What a completed fork gives the new boot environment: the contract, no pointer unless the clear failed, and the
   * source's `primary` marker and binding list, which nothing takes off.
   */
  lemma ForkedProps(s: State, snap: SnapshotRef, name: string, intact: bool, lists: seq<string>, env: ForkEnv, t: State)
    requires (t, Done) == ForkState(s, snap, name, intact, lists, env)
    requires Lists(lists, Sharing(s.props.attached, KeyOf(snap.dataset))) && s.props.attached.Keys <= s.snaps.Keys
    ensures var target, from := ForkTarget(snap, name), snap.dataset;
      && target in t.snaps && target in t.props.bes && t.props.canmount == s.props.canmount[target := Noauto]
      && target !in t.readonly && t.props.bes == s.props.bes + {target}
      && t.props.mirror == CopyProps(s.props, from, target).mirror - (if env.clearOk then {target} else {})
      && t.props.primary == CopyProps(s.props, from, target).primary
      && (target in t.props.attached <==> from in s.props.attached)
      && (from in s.props.attached ==> t.props.attached[target] == s.props.attached[from])
  {
    hide PoolOf, LeafOf, AppendKey;
    assert ForkTarget(snap, name) !in Sharing(s.props.attached, KeyOf(snap.dataset));
    assert lists[..|lists|] == lists;
  }

  lemma ForkTargetIsCanonical(snap: SnapshotRef, name: string)
    requires BareName(name)
    ensures Canonical(ForkTarget(snap, name)) && KeyOf(ForkTarget(snap, name)) == BoundKey(PoolOf(snap.dataset), name)
  {
    CanonicalParts(PairPointer(PoolOf(snap.dataset), name));
  }

  /** The binding lists after a completed fork: the source's key brings the new one along, at the end. */
  ghost predicate ForkBinds(a: Attached, b: Attached, source: BoundKey, key: BoundKey, target: string) {
    forall d :: d in a && d != target ==>
      && d in b
      && (source in a[d] && key !in a[d] ==> b[d] == a[d] + [key])
      && (source !in a[d] || key in a[d] ==> b[d] == a[d])
  }

  lemma JoinedBinds(a: Attached, c: Attached, source: BoundKey, key: BoundKey, target: string, ds: set<string>)
    requires target !in a && c - {target} == a && forall d :: d in ds <==> d in a && source in a[d]
    ensures ForkBinds(a, Joined(c, key, ds), source, key, target)
  {
    forall d | d in a ensures d in c && c[d] == a[d] && (key !in a[d] ==> AppendKey(a[d], key) == a[d] + [key]) {
      assert d in c - {target};
      AppendKeyAdds(a[d], key);
    }
  }

  /** A completed fork puts the new boot environment in every list its source is in. */
  lemma ForkExtendsLists(s: State, snap: SnapshotRef, name: string, intact: bool, lists: seq<string>, env: ForkEnv,
                         t: State)
    requires (t, Done) == ForkState(s, snap, name, intact, lists, env) && s.props.attached.Keys <= s.snaps.Keys
    requires var source := BoundKey(PoolOf(snap.dataset), LeafOf(snap.dataset));
      forall d :: d in lists <==> d in s.props.attached && source in s.props.attached[d]
    ensures var source := BoundKey(PoolOf(snap.dataset), LeafOf(snap.dataset));
            var key, target := BoundKey(source.pool, name), source.pool + "/ROOT/" + name;
      ForkBinds(s.props.attached, t.props.attached, source, key, target)
  {
    hide PoolOf, LeafOf, AppendKey, Joined, ForkBinds;
    var source := BoundKey(PoolOf(snap.dataset), LeafOf(snap.dataset));
    var key, target := BoundKey(source.pool, name), source.pool + "/ROOT/" + name;
    ForkTargetIsCanonical(snap, name);
    var a, c := s.props.attached, CopyProps(s.props, snap.dataset, target).attached;
    assert lists[..|lists|] == lists && c - {target} == a;
    JoinedBinds(a, c, source, key, target, Elements(lists));
  }

  /** When a fork is refused, when it goes through, and its new row; every other row but the lists is as before. */
  lemma ForkLeaves(s: State, snap: SnapshotRef, name: string, intact: bool, lists: seq<string>, env: ForkEnv)
    ensures var (t, o) := ForkState(s, snap, name, intact, lists, env);
            var target := PoolOf(snap.dataset) + "/ROOT/" + name;
      && (o == Refused <==> name == "" || '/' in name || '@' in name || target in s.snaps || !intact)
      && (o == Refused ==> t == s)
      && (o == Done <==>
           && o != Refused && env.cloneOk && env.markOk && |lists| <= env.lists
           && snap.dataset in s.snaps && snap.name in Names(s.snaps[snap.dataset]))
      && (o == Done ==>
           && t.snaps == s.snaps[target := []] && t.origin == s.origin[target := snap] && t.nextGuid == s.nextGuid
           && t.readonly == s.readonly - {target} && t.mounted == s.mounted && t.pools == s.pools
           && t.props.bes == s.props.bes + {target} && t.props.canmount == s.props.canmount[target := Noauto]
           && t.props.mirror - {target} == s.props.mirror - {target} && (env.clearOk ==> target !in t.props.mirror)
           && t.props.primary - {target} == s.props.primary - {target})
  {
    hide PoolOf, LeafOf, AppendKey, Joined, Names;
  }

  /** Adds the key to the listed lists one by one, until a write fails. */
  method ShareLists(z: Zfs, key: BoundKey, lists: seq<string>, limit: nat) returns (ok: bool)
    requires forall d :: d in lists ==> d in z.s.props.attached
    modifies z
    ensures var n := if limit < |lists| then limit else |lists|;
      z.s == WithAttached(old(z.s), Joined(old(z.s).props.attached, key, Elements(lists[..n]))) && ok == (n == |lists|)
  {
    ghost var s0 := z.s;
    ok := true;
    var i := 0;
    assert Joined(s0.props.attached, key, Elements(lists[..0])) == s0.props.attached;
    while ok && i < |lists|
      invariant 0 <= i <= |lists| && i <= limit
      invariant ok || i == limit < |lists|
      invariant z.s == WithAttached(s0, Joined(s0.props.attached, key, Elements(lists[..i])))
      decreases |lists| - i, ok
    {
      var list := new BoundList(z.s.props.attached[lists[i]]);
      list.Append(key);
      ok := i < limit;
      JoinedStep(s0.props.attached, key, lists, i);
      z.Commit(WithAttached(z.s, z.s.props.attached[lists[i] := list.keys]), ok);
      if ok {
        i := i + 1;
      }
    }
  }

  method Fork(z: Zfs, snap: SnapshotRef, name: string, rows: seq<OriginRow>, present: seq<string>, lists: seq<string>,
              env: ForkEnv)
    returns (o: Outcome)
    requires Lists(lists, Sharing(z.s.props.attached, KeyOf(snap.dataset)))
    modifies z
    ensures (z.s, o) == ForkState(old(z.s), snap, name, Intact(rows, present, snap.dataset), lists, env)
  {
    var target := ForkTarget(snap, name);
    var ok := BareName(name) && target !in z.s.snaps;
    var intact := CheckOriginLineage(rows, present, snap.dataset);
    if !ok || !intact {
      o := Refused;
    } else {
      ok := env.cloneOk && HasSnapshot(z.s, snap);
      z.Commit(Cloned(z.s, snap, target), ok);
      if ok {
        ok := env.markOk;
        z.Commit(Marked(z.s, target), ok);
      }
      if ok {
        z.Commit(WithoutPointer(z.s, target), env.clearOk);
        ok := ShareLists(z, KeyOf(target), lists, env.lists);
      }
      o := if ok then Done else Failed;
    }
  }
}
