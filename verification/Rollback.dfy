// `rollback`: fork a boot environment from a snapshot, then make the fork the default.

module Rollback {
  import opened Text
  import opened Snapshots
  import opened World
  import opened Clones
  import opened Default
  import opened Lineage
  import opened Bindings
  import opened BindingRuns
  import opened Calendar

  /** The name given, or one made from the clock. */
  function NameFor(name: Option<string>, secs: nat): string
    requires secs < U64
  {
    if name.Some? then name.value else DefaultName("rollback-", secs)
  }

  /** Without a name, the prefix and the time, which reads back. */
  lemma NameTellsTheTime(secs: nat)
    requires secs < U64 && CivilFromUnix(secs).year <= 9999
    ensures var name, c := NameFor(None, secs), CivilFromUnix(secs);
      && |name| == 25 && name[..9] == "rollback-" && Valid(c)
      && Decimal(name[9..13]) == c.year && Decimal(name[13..15]) == c.month && Decimal(name[15..17]) == c.day
      && Decimal(name[18..20]) == c.hour && Decimal(name[20..22]) == c.minute && Decimal(name[22..24]) == c.second
    ensures forall name :: NameFor(Some(name), secs) == name
  {
    hide Decimal, CivilFromUnix, StampOf;
    CivilIsExact(secs);
    var name, c := NameFor(None, secs), CivilFromUnix(secs);
    var stamp := StampOf(c);
    StampReads(c);
    assert name == "rollback-" + stamp;
    assert name[9..13] == stamp[..4] && name[13..15] == stamp[4..6] && name[15..17] == stamp[6..8];
    assert name[18..20] == stamp[9..11] && name[20..22] == stamp[11..13] && name[22..24] == stamp[13..15];
  }

  /** `default <name>` looks the name up on every root pool; it must be the only one there. */
  ghost predicate OnlyNamed(s: State, name: string, d: string) {
    d in Bes(s) && LeafOf(d) == name && forall e :: e in Bes(s) && LeafOf(e) == name ==> e == d
  }

  ghost function Activated(s: State, name: string, stuck: set<string>): (State, Outcome) {
    if d :| OnlyNamed(s, name, d) then (DefaultState(s, d, stuck), Done) else (s, Failed)
  }

  ghost function RollbackState(s: State, to: string, name: string, intact: bool, lists: seq<string>, env: ForkEnv,
                               stuck: set<string>)
    : (State, Outcome)
  {
    var snap := ParseSnapshotRef(to);
    if snap.None? || !BareName(name) then (s, Refused)
    else
      var (s1, o) := ForkState(s, snap.value, name, intact, lists, env);
      if o != Done then (s1, Failed) else Activated(s1, name, stuck)
  }

  /** Asks for a listing of a set, in some order. */
  method List(all: set<string>) returns (xs: seq<string>)
    ensures Lists(xs, all)
  {
    xs := [];
    var rest := all;
    while rest != {}
      invariant forall x :: x in xs <==> x in all && x !in rest
      invariant forall i, j :: 0 <= i < j < |xs| ==> xs[i] != xs[j]
      invariant rest <= all
      decreases rest
    {
      var x :| x in rest;
      rest := rest - {x};
      xs := xs + [x];
    }
  }

  lemma NoRoots(s: State, name: string, pools: seq<string>)
    requires Lists(pools, s.pools.roots) && pools == []
    ensures forall d :: !OnlyNamed(s, name, d)
  {}

  method Activate(z: Zfs, name: string, stuck: set<string>) returns (o: Outcome)
    requires BareName(name)
    modifies z
    ensures (z.s, o) == Activated(old(z.s), name, stuck)
  {
    hide DefaultState, Bound;
    var bes := List(Bes(z.s));
    var pools := List(z.s.pools.roots);
    var bound := List(Bound(z.s));
    ghost var s0 := z.s;
    var r := Default.Run(z, name, bes, pools, bound, stuck);
    forall d ensures ResolveTarget(bes, name) == Ok(d) <==> OnlyNamed(s0, name, d) {
      ResolvesExactly(bes, Bes(s0), name, d);
    }
    if r.Err? && pools == [] {
      NoRoots(s0, name, pools);
    }
    o := if r.Ok? then Done else Failed;
  }

  method Run(z: Zfs, to: string, givenName: Option<string>, secs: nat, rows: seq<OriginRow>, present: seq<string>,
             env: ForkEnv, stuck: set<string>)
    returns (o: Outcome, lists: seq<string>)
    requires secs < U64
    modifies z
    ensures var start := if ParseSnapshotRef(to).Some? then ParseSnapshotRef(to).value.dataset else "";
      && Lists(lists, Sharing(old(z.s).props.attached, KeyOf(start)))
      && (z.s, o) ==
           RollbackState(old(z.s), to, NameFor(givenName, secs), Intact(rows, present, start), lists, env, stuck)
  {
    hide ParseSnapshotRef, ForkState, Activated, Sharing, Lists, Intact, NameFor;
    var snap := ParseSnapshotRef(to);
    var name := NameFor(givenName, secs);
    lists := List(Sharing(z.s.props.attached, KeyOf(if snap.Some? then snap.value.dataset else "")));
    o := Refused;
    if snap.Some? && BareName(name) {
      o := Fork(z, snap.value, name, rows, present, lists, env);
      if o == Done {
        o := Activate(z, name, stuck);
      } else {
        o := Failed;
      }
    }
  }

  // -------------------------------------------------------------------------
  // What it leaves
  // -------------------------------------------------------------------------

  lemma ForkedBes(s: State, snap: SnapshotRef, name: string, intact: bool, lists: seq<string>, env: ForkEnv, s1: State)
    requires (s1, Outcome.Done) == ForkState(s, snap, name, intact, lists, env)
    ensures s1.pools == s.pools && s1.props.bes == s.props.bes + {ForkTarget(snap, name)}
    ensures BareName(name) && ForkTarget(snap, name) !in s.snaps
  {
    hide Joined, Elements, PoolOf, LeafOf;
  }

  /**
   * Once the fork has gone through, the fork ends up as the one active boot environment exactly when its pool is a root
   * pool and no boot environment on any root pool had its name before.
   */
  lemma RollbackActivatesFork(s: State, snap: SnapshotRef, name: string, intact: bool, lists: seq<string>, env: ForkEnv,
                              stuck: set<string>, s1: State)
    requires (s1, Outcome.Done) == ForkState(s, snap, name, intact, lists, env)
    requires s.props.bes <= s.snaps.Keys
    ensures var (t, o) := Activated(s1, name, stuck); var target := ForkTarget(snap, name);
      o == Done && OnlyActive(t.pools, target) <==>
        OnRootPool(s, snap.dataset) && forall e :: e in Bes(s) ==> LeafOf(e) != name
  {
    hide Joined, Elements, Toggled, Intact, NextReadonly, PoolOf, LeafOf, RenderPointer, ForkState, DefaultState,
         BareName;
    var target := ForkTarget(snap, name);
    ForkedBes(s, snap, name, intact, lists, env, s1);
    ForkTargetIsCanonical(snap, name);
    var (t, o) := Activated(s1, name, stuck);
    if o == Done {
      var d :| OnlyNamed(s1, name, d) && t == DefaultState(s1, d, stuck);
      CompletedRunActivates(s1, d, stuck);
    }
    if OnRootPool(s, snap.dataset) && forall e :: e in Bes(s) ==> LeafOf(e) != name {
      assert OnlyNamed(s1, name, target);
    }
  }

  /** The fork's history is the source's up to the snapshot, and no other history changes. */
  lemma ForkHistory(s: State, snap: SnapshotRef, target: string, inh: Table)
    requires Inherits(s, inh) && HasSnapshot(s, snap) && target !in s.snaps && s.origin.Keys <= s.snaps.Keys
    ensures Inherits(Cloned(s, snap, target), inh[target := inh[snap.dataset] + UpTo(s, snap)])
  {
    hide FindName, Names;
    var t, inh1 := Cloned(s, snap, target), inh[target := inh[snap.dataset] + UpTo(s, snap)];
    forall d | d in t.snaps ensures InheritsAt(t, inh1, d) {
      if d != target {
        assert InheritsAt(s, inh, d);
      }
    }
  }
}
