// `primary`: make the other side of a mutual pair the one that is written to.

module Primary {
  import opened Text
  import opened Snapshots
  import opened World
  import opened Default

  /** The write that fails, if any. */
  datatype Fault =
    | NoFault | AtSnapshot | AtMarker | AtPeerMarker | AtReadonlyOff | AtReadonlyOn | AtClearBootfs | AtSetBootfs

  datatype Outcome = Refused | AlreadyPrimary | Failed | Promoted

  function PeerDataset(s: State, be: string): string
    requires be in s.props.mirror
  {
    RenderPointer(s.props.mirror[be])
  }

  /** The peer exists and points back. */
  predicate Mutual(s: State, be: string) {
    && be in s.props.mirror
    && var peer := PeerDataset(s, be);
       peer in s.snaps && peer in s.props.mirror && ParsePointer(be) == Some(s.props.mirror[peer])
  }

  function PrePrimary(stamp: string): string {
    "pre-primary-" + stamp
  }

  /** A peer that is live gets a snapshot before it is demoted. */
  function Guarded(s: State, be: string, peer: string, stamp: string, fault: Fault): (State, bool) {
    if !(Mutual(s, be) && peer in s.mounted && peer in s.snaps) then (s, true)
    else if fault.AtSnapshot? || PrePrimary(stamp) in Names(s.snaps[peer]) then (s, false)
    else (WithSnapshot(s, peer, PrePrimary(stamp)), true)
  }

  function MarkersSet(s: State, be: string, peer: string, mutual: bool, fault: Fault): (State, bool) {
    if fault.AtMarker? then (s, false)
    else if mutual && fault.AtPeerMarker? then (WithPrimary(s, be, true), false)
    else if mutual then (WithPrimary(WithPrimary(s, be, true), peer, false), true)
    else (WithPrimary(s, be, true), true)
  }

  /** The new primary becomes writable, its peer readonly unless that is what is running. */
  function Switched(s: State, be: string, peer: string, mutual: bool, fault: Fault): (State, bool) {
    if fault.AtReadonlyOff? then (s, false)
    else
      var s1 := WithReadonly(s, be, false);
      if !mutual || peer in s.mounted then (s1, true)
      else if fault.AtReadonlyOn? then (s1, false)
      else (WithReadonly(s1, peer, true), true)
  }

  /** If the peer was booted next, the new primary is. */
  function Followed(s: State, be: string, peer: string, fault: Fault): (State, bool) {
    var loses := PoolOf(peer) in s.pools.bootfs && s.pools.bootfs[PoolOf(peer)] == peer;
    if loses && fault.AtClearBootfs? then (s, false)
    else
      var b := if loses then s.pools.bootfs - {PoolOf(peer)} else s.pools.bootfs;
      var s1 := s.(pools := s.pools.(bootfs := b));
      if PoolOf(be) in b && b[PoolOf(be)] == be then (s1, true)
      else if fault.AtSetBootfs? then (s1, false)
      else (s.(pools := s.pools.(bootfs := b[PoolOf(be) := be])), true)
  }

  predicate Promotable(s: State, be: string) {
    be in s.snaps && be in s.props.mirror && ParsePointer(be).Some?
  }

  predicate IsPrimary(s: State, be: string) {
    be in s.props.primary && s.props.primary[be]
  }

  function PrimaryState(s: State, be: string, stamp: string, fault: Fault): (State, Outcome) {
    if !Promotable(s, be) then (s, Refused)
    else if IsPrimary(s, be) then (s, AlreadyPrimary)
    else
      var peer, mutual := PeerDataset(s, be), Mutual(s, be);
      var (s1, ok1) := Guarded(s, be, peer, stamp, fault);
      if !ok1 then (s1, Failed) else
      var (s2, ok2) := MarkersSet(s1, be, peer, mutual, fault);
      if !ok2 then (s2, Failed) else
      var (s3, ok3) := Switched(s2, be, peer, mutual, fault);
      if !ok3 then (s3, Failed) else
      var (s4, ok4) := Followed(s3, be, peer, fault);
      (s4, if ok4 then Promoted else Failed)
  }

  // -------------------------------------------------------------------------
  // The verb
  // -------------------------------------------------------------------------

  method Guard(z: Zfs, be: string, peer: string, stamp: string, fault: Fault) returns (ok: bool)
    modifies z
    ensures (z.s, ok) == Guarded(old(z.s), be, peer, stamp, fault)
  {
    ok := true;
    if Mutual(z.s, be) && peer in z.s.mounted && peer in z.s.snaps {
      ok := !fault.AtSnapshot? && PrePrimary(stamp) !in Names(z.s.snaps[peer]);
      z.Commit(WithSnapshot(z.s, peer, PrePrimary(stamp)), ok);
    }
  }

  method Mark(z: Zfs, be: string, peer: string, mutual: bool, fault: Fault) returns (ok: bool)
    modifies z
    ensures (z.s, ok) == MarkersSet(old(z.s), be, peer, mutual, fault)
  {
    ok := !fault.AtMarker?;
    z.Commit(WithPrimary(z.s, be, true), ok);
    if ok && mutual {
      ok := !fault.AtPeerMarker?;
      z.Commit(WithPrimary(z.s, peer, false), ok);
    }
  }

  method Switch(z: Zfs, be: string, peer: string, mutual: bool, fault: Fault) returns (ok: bool)
    modifies z
    ensures (z.s, ok) == Switched(old(z.s), be, peer, mutual, fault)
  {
    ok := !fault.AtReadonlyOff?;
    z.Commit(WithReadonly(z.s, be, false), ok);
    if ok && mutual && peer !in z.s.mounted {
      ok := !fault.AtReadonlyOn?;
      z.Commit(WithReadonly(z.s, peer, true), ok);
    }
  }

  method Follow(z: Zfs, be: string, peer: string, fault: Fault) returns (ok: bool)
    modifies z
    ensures (z.s, ok) == Followed(old(z.s), be, peer, fault)
  {
    var peerPool, bePool := PoolOf(peer), PoolOf(be);
    ok := true;
    if peerPool in z.s.pools.bootfs && z.s.pools.bootfs[peerPool] == peer {
      ok := !fault.AtClearBootfs?;
      z.Commit(z.s.(pools := z.s.pools.(bootfs := z.s.pools.bootfs - {peerPool})), ok);
    }
    if ok && !(bePool in z.s.pools.bootfs && z.s.pools.bootfs[bePool] == be) {
      ok := !fault.AtSetBootfs?;
      z.Commit(z.s.(pools := z.s.pools.(bootfs := z.s.pools.bootfs[bePool := be])), ok);
    }
  }

  method Run(z: Zfs, be: string, stamp: string, fault: Fault) returns (o: Outcome)
    modifies z
    ensures (z.s, o) == PrimaryState(old(z.s), be, stamp, fault)
  {
    if !Promotable(z.s, be) {
      o := Refused;
    } else if IsPrimary(z.s, be) {
      o := AlreadyPrimary;
    } else {
      var peer, mutual := PeerDataset(z.s, be), Mutual(z.s, be);
      var ok := Guard(z, be, peer, stamp, fault);
      if ok {
        ok := Mark(z, be, peer, mutual, fault);
      }
      if ok {
        ok := Switch(z, be, peer, mutual, fault);
      }
      if ok {
        ok := Follow(z, be, peer, fault);
      }
      o := if ok then Promoted else Failed;
    }
  }

  // -------------------------------------------------------------------------
  // What it does to the pair
  // -------------------------------------------------------------------------

  lemma GuardedEffect(s: State, be: string, peer: string, stamp: string, fault: Fault, t: State, ok: bool)
    requires (t, ok) == Guarded(s, be, peer, stamp, fault)
    ensures t == s || (
      && Mutual(s, be) && peer in s.mounted && peer in s.snaps && PrePrimary(stamp) !in Names(s.snaps[peer])
      && t == WithSnapshot(s, peer, PrePrimary(stamp)))
    ensures Mutual(s, be) && peer in s.mounted && peer in s.snaps && ok ==>
      PrePrimary(stamp) !in Names(s.snaps[peer]) && t == WithSnapshot(s, peer, PrePrimary(stamp))
  {}

  lemma MarkersEffect(s: State, be: string, peer: string, mutual: bool, fault: Fault, t: State, ok: bool)
    requires (t, ok) == MarkersSet(s, be, peer, mutual, fault)
    ensures t == s.(props := s.props.(primary := t.props.primary))
    ensures var touched := if mutual then {be, peer} else {be}; t.props.primary - touched == s.props.primary - touched
    ensures ok && mutual ==> t.props.primary == s.props.primary[be := true][peer := false]
    ensures ok && !mutual ==> t.props.primary == s.props.primary[be := true]
  {}

  lemma SwitchedEffect(s: State, be: string, peer: string, mutual: bool, fault: Fault, t: State, ok: bool)
    requires (t, ok) == Switched(s, be, peer, mutual, fault)
    ensures t == s.(readonly := t.readonly)
    ensures s.readonly - {be} <= t.readonly <= s.readonly + {peer}
    ensures !mutual || peer in s.mounted ==> t.readonly <= s.readonly
    ensures ok ==> t.readonly == s.readonly - {be} + if mutual && peer !in s.mounted then {peer} else {}
  {}

  lemma FollowedEffect(s: State, be: string, peer: string, fault: Fault, t: State, ok: bool)
    requires (t, ok) == Followed(s, be, peer, fault)
    ensures t == s.(pools := s.pools.(bootfs := t.pools.bootfs))
    ensures var rest := s.pools.bootfs - {PoolOf(be)};
      ok ==> t.pools.bootfs == (if PoolOf(peer) in s.pools.bootfs && s.pools.bootfs[PoolOf(peer)] == peer
                                then rest - {PoolOf(peer)} else rest)[PoolOf(be) := be]
  {}

  ghost predicate Snapped(s: State, t: State, peer: string, stamp: string)
    requires peer in s.snaps
  {
    && PrePrimary(stamp) !in Names(s.snaps[peer])
    && t.snaps == WithSnapshot(s, peer, PrePrimary(stamp)).snaps && t.nextGuid == s.nextGuid + 1
  }

  /** Both lists and the readonly flags of the host after any outcome; only the peer of a mutual pair can be touched. */
  ghost predicate Flipped(s: State, be: string, stamp: string, t: State, o: Outcome)
    requires be in s.props.mirror
  {
    var peer := PeerDataset(s, be);
    && t.mounted == s.mounted && t.origin == s.origin && t.pools.roots == s.pools.roots
    && t.props == s.props.(primary := t.props.primary)
    && (var touched := if Mutual(s, be) then {be, peer} else {be};
        t.props.primary - touched == s.props.primary - touched)
    && ((t.snaps == s.snaps && t.nextGuid == s.nextGuid)
        || (Mutual(s, be) && peer in s.mounted && Snapped(s, t, peer, stamp)))
    && s.readonly - {be} <= t.readonly <= s.readonly + {peer}
    && (!Mutual(s, be) || peer in s.mounted ==> t.readonly <= s.readonly)
    && (o == Promoted ==> t.readonly == s.readonly - {be} + if Mutual(s, be) && peer !in s.mounted then {peer} else {})
    && (o == Promoted && Mutual(s, be) && peer in s.mounted ==> Snapped(s, t, peer, stamp))
  }

  lemma StagesEffect(s: State, be: string, stamp: string, fault: Fault, t: State, o: Outcome)
    requires (t, o) == PrimaryState(s, be, stamp, fault) && Promotable(s, be) && !IsPrimary(s, be)
    ensures o != Refused && o != AlreadyPrimary && Flipped(s, be, stamp, t, o)
  {
    hide Guarded, MarkersSet, Switched, Followed, ParsePointer, PoolOf, RenderPointer, Names;
    var peer, mutual := PeerDataset(s, be), Mutual(s, be);
    var (s1, ok1) := Guarded(s, be, peer, stamp, fault);
    GuardedEffect(s, be, peer, stamp, fault, s1, ok1);
    if ok1 {
      var (s2, ok2) := MarkersSet(s1, be, peer, mutual, fault);
      MarkersEffect(s1, be, peer, mutual, fault, s2, ok2);
      if ok2 {
        var (s3, ok3) := Switched(s2, be, peer, mutual, fault);
        SwitchedEffect(s2, be, peer, mutual, fault, s3, ok3);
        if ok3 {
          FollowedEffect(s3, be, peer, fault, t, o == Promoted);
        }
      }
    }
  }

  lemma PrimaryEffect(s: State, be: string, stamp: string, fault: Fault, t: State, o: Outcome)
    requires (t, o) == PrimaryState(s, be, stamp, fault)
    ensures if o == Refused || o == AlreadyPrimary then t == s else Promotable(s, be) && Flipped(s, be, stamp, t, o)
  {
    if Promotable(s, be) && !IsPrimary(s, be) {
      StagesEffect(s, be, stamp, fault, t, o);
    }
  }

  /** The `bootfs` table after a completed run. */
  function BootfsAfter(s: State, be: string): map<string, string>
    requires be in s.props.mirror
  {
    var b, peer := s.pools.bootfs, PeerDataset(s, be);
    (if PoolOf(peer) in b && b[PoolOf(peer)] == peer then b - {PoolOf(peer)} else b)[PoolOf(be) := be]
  }

  lemma BootfsParts(s: State, be: string)
    requires be in s.props.mirror
    ensures var peer, rest := PeerDataset(s, be), s.pools.bootfs - {PoolOf(be)};
      BootfsAfter(s, be) == (if PoolOf(peer) in s.pools.bootfs && s.pools.bootfs[PoolOf(peer)] == peer
                             then rest - {PoolOf(peer)} else rest)[PoolOf(be) := be]
  {
    hide PoolOf, RenderPointer;
  }

  lemma PromotedBootfs(s: State, be: string, stamp: string, fault: Fault, t: State)
    requires (t, Promoted) == PrimaryState(s, be, stamp, fault)
    ensures Promotable(s, be) && t.pools == s.pools.(bootfs := BootfsAfter(s, be))
  {
    hide Guarded, MarkersSet, Switched, Followed, ParsePointer, PoolOf, RenderPointer, Names, BootfsAfter;
    var peer, mutual := PeerDataset(s, be), Mutual(s, be);
    var (s1, ok1) := Guarded(s, be, peer, stamp, fault);
    GuardedEffect(s, be, peer, stamp, fault, s1, ok1);
    var (s2, ok2) := MarkersSet(s1, be, peer, mutual, fault);
    MarkersEffect(s1, be, peer, mutual, fault, s2, ok2);
    var (s3, ok3) := Switched(s2, be, peer, mutual, fault);
    SwitchedEffect(s2, be, peer, mutual, fault, s3, ok3);
    FollowedEffect(s3, be, peer, fault, t, true);
    BootfsParts(s, be);
  }

  /** A completed flip marks one side primary and a mutual peer not, and moves no pointer. */
  lemma PromotedMarkers(s: State, be: string, stamp: string, fault: Fault, t: State)
    requires (t, Promoted) == PrimaryState(s, be, stamp, fault) && be in s.props.mirror && be != PeerDataset(s, be)
    ensures IsPrimary(t, be) && (Mutual(s, be) ==> !IsPrimary(t, PeerDataset(s, be)))
    ensures t.props.mirror == s.props.mirror && t.snaps.Keys == s.snaps.Keys && Promotable(s, be)
  {
    hide Guarded, MarkersSet, Switched, Followed;
    var peer, mutual := PeerDataset(s, be), Mutual(s, be);
    var (s1, ok1) := Guarded(s, be, peer, stamp, fault);
    GuardedEffect(s, be, peer, stamp, fault, s1, ok1);
    var (s2, ok2) := MarkersSet(s1, be, peer, mutual, fault);
    MarkersEffect(s1, be, peer, mutual, fault, s2, ok2);
    var (s3, ok3) := Switched(s2, be, peer, mutual, fault);
    SwitchedEffect(s2, be, peer, mutual, fault, s3, ok3);
    FollowedEffect(s3, be, peer, fault, t, true);
  }

  /** ... and asking again changes nothing. */
  lemma PrimaryIsIdempotent(s: State, be: string, stamp: string, fault: Fault, t: State, again: string, fault2: Fault)
    requires (t, Promoted) == PrimaryState(s, be, stamp, fault) && be in s.props.mirror && be != PeerDataset(s, be)
    ensures PrimaryState(t, be, again, fault2) == (t, AlreadyPrimary)
  {
    hide Guarded, MarkersSet, Switched, Followed, Mutual;
    PromotedMarkers(s, be, stamp, fault, t);
  }

  /** Unlike `default`, `primary` clears no pool but its peer's: one pool stays active exactly when no third one was. */
  lemma OneActiveAfterPrimary(s: State, be: string, stamp: string, fault: Fault, t: State)
    requires (t, Promoted) == PrimaryState(s, be, stamp, fault) && OnRootPool(s, be)
    ensures Promotable(s, be) && (OnlyActive(t.pools, be) <==>
      forall q :: q in s.pools.roots && q in s.pools.bootfs && q != PoolOf(be) ==>
        q == PoolOf(PeerDataset(s, be)) && s.pools.bootfs[q] == PeerDataset(s, be))
  {
    hide PrimaryState;
    PromotedBootfs(s, be, stamp, fault, t);
  }

  // -------------------------------------------------------------------------
  // The whole verb, column by column
  // -------------------------------------------------------------------------

  /** The peer's pointer reads as `be`. */
  predicate PointsAt(s: State, peer: string, be: string) {
    peer in s.snaps && peer in s.props.mirror && ParsePointer(be) == Some(s.props.mirror[peer])
  }

  /** Nothing failing, the flip goes through for every paired dataset of canonical name that is not primary yet. */
  lemma PrimarySucceedsExactly(s: State, be: string, stamp: string)
    ensures var o := PrimaryState(s, be, stamp, NoFault).1;
      && (o == Refused <==> be !in s.snaps || be !in s.props.mirror || ParsePointer(be).None?)
      && (o == AlreadyPrimary <==> o != Refused && be in s.props.primary && s.props.primary[be])
      && (o == Failed <==>
           && o != Refused && o != AlreadyPrimary && var peer := RenderPointer(s.props.mirror[be]);
           PointsAt(s, peer, be) && peer in s.mounted && "pre-primary-" + stamp in Names(s.snaps[peer]))
  {
    hide ParsePointer, PoolOf, RenderPointer, Names;
  }

  lemma SameRow<V>(m: map<string, V>, n: map<string, V>, ds: set<string>, d: string)
    requires m - ds == n - ds && d !in ds
    ensures (d in n <==> d in m) && (d in m ==> n[d] == m[d])
  {
    assert d in m <==> d in m - ds;
    assert d in n <==> d in n - ds;
  }

  /**
   * A peer that does not point back, and every third dataset, keeps its snapshots, its marker and its readonly flag.
   */
  lemma PrimarySpares(s: State, be: string, stamp: string, fault: Fault, d: string)
    requires d != be && be in s.props.mirror && !(d == RenderPointer(s.props.mirror[be]) && PointsAt(s, d, be))
    ensures var t := PrimaryState(s, be, stamp, fault).0;
      && (d in t.snaps <==> d in s.snaps) && (d in s.snaps ==> t.snaps[d] == s.snaps[d])
      && (d in t.readonly <==> d in s.readonly)
      && (d in t.props.primary <==> d in s.props.primary)
      && (d in s.props.primary ==> t.props.primary[d] == s.props.primary[d])
  {
    hide ParsePointer, PoolOf, RenderPointer, Names, PrimaryState;
    var (t, o) := PrimaryState(s, be, stamp, fault);
    PrimaryEffect(s, be, stamp, fault, t, o);
    if t != s {
      SameRow(s.props.primary, t.props.primary, if Mutual(s, be) then {be, PeerDataset(s, be)} else {be}, d);
    }
  }

  /** A completed flip: both readonly flags, both markers, the guard snapshot and `bootfs`. */
  lemma PrimaryLeaves(s: State, be: string, stamp: string, fault: Fault, t: State)
    requires (t, Promoted) == PrimaryState(s, be, stamp, fault) && be in s.props.mirror
    requires be != RenderPointer(s.props.mirror[be]) && PoolOf(be) != PoolOf(RenderPointer(s.props.mirror[be]))
    ensures var peer := RenderPointer(s.props.mirror[be]); var back := PointsAt(s, peer, be);
      && be !in t.readonly && (back && peer !in s.mounted ==> peer in t.readonly)
      && be in t.props.primary && t.props.primary[be]
      && (back ==> !(peer in t.props.primary && t.props.primary[peer]))
      && (back && peer in s.mounted ==>
           t.snaps == s.snaps[peer := s.snaps[peer] + [Snap("pre-primary-" + stamp, s.nextGuid)]])
      && (!back || peer !in s.mounted ==> t.snaps == s.snaps)
      && PoolOf(be) in t.pools.bootfs && t.pools.bootfs[PoolOf(be)] == be
      && !(PoolOf(peer) in t.pools.bootfs && t.pools.bootfs[PoolOf(peer)] == peer)
      && (forall q :: q != PoolOf(be) && !(q in s.pools.bootfs && s.pools.bootfs[q] == peer && q == PoolOf(peer)) ==>
           (q in t.pools.bootfs <==> q in s.pools.bootfs)
           && (q in s.pools.bootfs ==> t.pools.bootfs[q] == s.pools.bootfs[q]))
      && t.props == s.props.(primary := t.props.primary) && t.origin == s.origin && t.mounted == s.mounted
  {
    hide ParsePointer, PoolOf, RenderPointer, Names, PrimaryState;
    PrimaryEffect(s, be, stamp, fault, t, Promoted);
    PromotedMarkers(s, be, stamp, fault, t);
    PromotedBootfs(s, be, stamp, fault, t);
  }
}
