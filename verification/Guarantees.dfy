// The promises of a single push, pull or mirror, for every prompt answer and every
// command failure.

module Guarantees {
  import opened Text
  import opened Snapshots
  import opened World
  import opened Transfer
  import opened Safety

  ghost predicate Below(xs: seq<Snap>, n: nat) {
    forall g :: g in Guids(xs) ==> g < n
  }

  /** What ZFS guarantees of two datasets before a verb: comparable lists, fresh GUIDs ahead. */
  ghost predicate Ready(s: State, src: string, dst: string) {
    && src != dst && src in s.snaps
    && Compatible(ListOf(s, src), ListOf(s, dst))
    && Below(ListOf(s, src), s.nextGuid) && Below(ListOf(s, dst), s.nextGuid)
  }

  lemma CutEffect(s: State, src: string, dst: string, verb: Verb, xs: seq<Snap>, env: Env, t: State, kept: bool)
    requires src != dst && src in s.snaps && dst in s.snaps
    requires (t, kept) == Sealed(WithSnaps(Lifted(s, dst, verb), dst, xs), dst, env)
    ensures OnlyPairTouched(s, t, src, dst) && t.snaps[src] == s.snaps[src] && ListOf(t, dst) == xs
    ensures kept ==> dst in t.readonly
  {
    SealedEffect(WithSnaps(Lifted(s, dst, verb), dst, xs), dst, env, t, kept);
  }

  /** The list is cut after the bound, or a failure left it alone. */
  ghost predicate RolledBack(b: seq<Snap>, b1: seq<Snap>, bound: string, o: Outcome) {
    || (b1 == b && o != Rewound)
    || (bound in Names(b) && b1 == b[..FindName(b, bound) + 1])
  }

  lemma RewindEffect(s: State, src: string, dst: string, verb: Verb, bound: string, env: Env, t: State, o: Outcome)
    requires src != dst && src in s.snaps && dst in s.snaps
    requires (t, o) == RewindState(s, dst, verb, bound, env)
    ensures OnlyPairTouched(s, t, src, dst) && t.snaps[src] == s.snaps[src]
    ensures RolledBack(s.snaps[dst], ListOf(t, dst), bound, o)
    ensures o == Rewound ==> dst in t.readonly
    ensures o == Rewound || o == Failed
  {
    var b, k := s.snaps[dst], FindName(s.snaps[dst], bound);
    if k < |b| && !env.fault.AtTransfer? && !(LiftsReadonly(s, dst, verb) && env.fault.AtReadonlyOff?) {
      CutEffect(s, src, dst, verb, b[..k + 1], env, t, o == Rewound);
    }
  }

  /** What anchor, stream and prune do to two comparable lists. */
  lemma ListsAfterSend(a: seq<Snap>, a1: seq<Snap>, a2: seq<Snap>, b: seq<Snap>, b1: seq<Snap>, b2: seq<Snap>,
                       guid: nat)
    requires Compatible(a, b) && guid !in Guids(a) && guid !in Guids(b)
    requires Anchored(a, a1, guid) && Delivered(a1, b, b1) && Thinned(a1, a2) && Thinned(b1, b2)
    ensures Compatible(a2, b2) && Guids(a2) + Guids(b2) <= Guids(a) + Guids(b) + {guid}
    ensures a1 == a ==> Guids(a2) + Guids(b2) <= Guids(a) + Guids(b)
    ensures Kept(a2) == Kept(a) && Kept(b2) == Kept(b1) && Compatible(a1, b)
  {
    AnchoredFacts(a, a1, b, guid);
    DeliveredCompatible(a1, b, b1);
    ThinnedFacts(a1, a2, b1);
    SameOrderSym(a2, b1);
    ThinnedFacts(b1, b2, a2);
    SameOrderSym(b2, a2);
  }

  lemma TransferredReady(s: State, t: State, o: Outcome, src: string, dst: string, a1: seq<Snap>, b1: seq<Snap>,
                         anchor: string, env: Env)
    requires Ready(s, src, dst) && Transferred(s, t, o, src, dst, a1, b1, anchor, env)
    requires Anchored(s.snaps[src], a1, s.nextGuid) && (a1 != s.snaps[src] ==> s.nextGuid < t.nextGuid)
    ensures Ready(t, src, dst) && Kept(t.snaps[src]) == Kept(s.snaps[src])
    ensures Kept(ListOf(t, dst)) == Kept(b1) && Compatible(a1, ListOf(s, dst))
  {
    ListsAfterSend(s.snaps[src], a1, t.snaps[src], ListOf(s, dst), b1, ListOf(t, dst), s.nextGuid);
  }

  /** A transfer leaves the pair as ready for the next one as it found it. */
  lemma SendStaysReady(s: State, src: string, dst: string, verb: Verb, bound: Option<string>, env: Env, t: State,
                       o: Outcome)
    returns (a1: seq<Snap>, b1: seq<Snap>)
    requires Ready(s, src, dst) && (bound.Some? ==> bound.value in Names(s.snaps[src]))
    requires (t, o) == SendState(s, src, dst, verb, bound, env)
    ensures Ready(t, src, dst) && Kept(t.snaps[src]) == Kept(s.snaps[src])
    ensures Transferred(s, t, o, src, dst, a1, b1, AnchorName(bound, env), env)
    ensures Anchored(s.snaps[src], a1, s.nextGuid) && Kept(ListOf(t, dst)) == Kept(b1) && Compatible(a1, ListOf(s, dst))
    ensures o == Sent ==> a1 == SourceList(s, src, bound, env)
  {
    a1, b1 := SendEffect(s, src, dst, verb, bound, env, t, o);
    TransferredReady(s, t, o, src, dst, a1, b1, AnchorName(bound, env), env);
  }

  /** The three comparisons survive a transfer that found no divergence. */
  lemma NoDivergenceAfter(a: seq<Snap>, a1: seq<Snap>, b: seq<Snap>, b1: seq<Snap>, a2: seq<Snap>, b2: seq<Snap>,
                          guid: nat)
    requires Compatible(a, b) && guid !in Guids(a) && guid !in Guids(b)
    requires Anchored(a, a1, guid) && Delivered(a1, b, b1) && OnlyOnRight(a, b) == []
    requires Kept(a2) == Kept(a) && Kept(b2) == Kept(b1)
    ensures Kept(b) <= Kept(b2) && OnlyOnRight(a2, b2) == []
  {
    AnchoredFacts(a, a1, b, guid);
    DeliveredWithoutDivergence(a1, b, b1);
    NoDivergence(a2, b2);
  }

  lemma PrefixReady(s: State, t: State, src: string, dst: string, k: nat)
    requires Ready(s, src, dst) && src in t.snaps && t.snaps[src] == s.snaps[src] && s.nextGuid <= t.nextGuid
    requires k <= |ListOf(s, dst)| && ListOf(t, dst) == ListOf(s, dst)[..k]
    ensures Ready(t, src, dst)
  {
    SliceCompatible(s.snaps[src], ListOf(s, dst), 0, k);
    assert ListOf(s, dst)[0..k] == ListOf(s, dst)[..k];
  }

  lemma RewindStaysReady(s: State, src: string, dst: string, verb: Verb, bound: string, env: Env, t: State, o: Outcome)
    requires Ready(s, src, dst) && dst in s.snaps
    requires (t, o) == RewindState(s, dst, verb, bound, env)
    ensures Ready(t, src, dst) && OnlyPairTouched(s, t, src, dst) && t.snaps[src] == s.snaps[src]
  {
    RewindEffect(s, src, dst, verb, bound, env, t, o);
    var k := if ListOf(t, dst) == s.snaps[dst] then |s.snaps[dst]| else FindName(s.snaps[dst], bound) + 1;
    assert s.snaps[dst][..|s.snaps[dst]|] == s.snaps[dst];
    PrefixReady(s, t, src, dst, k);
  }

  /** Whatever is asked and answered, the source keeps the operator's snapshots and no third dataset is touched. */
  lemma TransferStaysReady(s: State, src: string, dst: string, verb: Verb, bound: Option<string>, force: bool, env: Env)
    requires Ready(s, src, dst)
    ensures var t := TransferState(s, src, dst, verb, bound, force, env).0;
      && Ready(t, src, dst) && OnlyPairTouched(s, t, src, dst)
      && Kept(t.snaps[src]) == Kept(s.snaps[src])
  {
    var (t, o) := TransferState(s, src, dst, verb, bound, force, env);
    if bound.Some? && bound.value !in Names(s.snaps[src]) {
    } else if PlanTransfer(s, src, dst, bound, force, env) == Send {
      var a1, b1 := SendStaysReady(s, src, dst, verb, bound, env, t, o);
    } else if PlanTransfer(s, src, dst, bound, force, env) == Rewind {
      RewindStaysReady(s, src, dst, verb, bound.value, env, t, o);
    }
  }

  /**
   * Without --force nothing of the operator's is ever destroyed: the destination's snapshots stay in place and at
   * most grow, the source's do not change, and unless the transfer was refused the destination ends up with nothing
   * the source lacks.
   */
  lemma UnforcedNeverDestroys(s: State, src: string, dst: string, verb: Verb, bound: Option<string>, env: Env,
                              t: State, o: Outcome)
    requires Ready(s, src, dst)
    requires (t, o) == TransferState(s, src, dst, verb, bound, false, env)
    ensures Kept(ListOf(s, dst)) <= Kept(ListOf(t, dst))
    ensures src in t.snaps && Kept(t.snaps[src]) == Kept(s.snaps[src])
    ensures o == Refused ==> t == s
    ensures o != Refused ==> OnlyOnRight(ListOf(t, src), ListOf(t, dst)) == []
  {
    if (bound.Some? ==> bound.value in Names(s.snaps[src])) && PlanTransfer(s, src, dst, bound, false, env) == Send {
      var a1, b1 := SendStaysReady(s, src, dst, verb, bound, env, t, o);
      NoDivergenceAfter(s.snaps[src], a1, ListOf(s, dst), b1, t.snaps[src], ListOf(t, dst), s.nextGuid);
    }
  }

  /** A transfer reported as sent has a destination to show for it. */
  lemma SentArrives(s: State, src: string, dst: string, verb: Verb, bound: Option<string>, force: bool, env: Env,
                    t: State)
    requires src != dst && (t, Sent) == TransferState(s, src, dst, verb, bound, force, env)
    ensures dst in t.snaps
  {
    hide SendState, RewindState, OnlyOnRight, Names, Complete, Concluded;
    if PlanTransfer(s, src, dst, bound, force, env) == Rewind {
      RewindEffect(s, src, dst, verb, bound.value, env, t, Sent);
    } else {
      var a1, b1 := SendEffect(s, src, dst, verb, bound, env, t, Sent);
    }
  }

  // -------------------------------------------------------------------------
  // --force
  // -------------------------------------------------------------------------

  /** The operator's snapshots of the source up to and including the bound. */
  function UpToBound(a: seq<Snap>, bound: string): set<nat>
    requires bound in Names(a)
  {
    Guids(Kept(a[..FindName(a, bound) + 1]))
  }

  /** What a rollback to `bound` cuts off. */
  function CutOff(b: seq<Snap>, bound: string): seq<Snap>
    requires bound in Names(b)
  {
    b[FindName(b, bound) + 1..]
  }

  /** Some of the source's snapshots up to the bound sit after `dst@bound` on the destination. */
  predicate RewindExposes(a: seq<Snap>, b: seq<Snap>, bound: string)
    requires bound in Names(a) && bound in Names(b)
  {
    !(Guids(Kept(CutOff(b, bound))) !! UpToBound(a, bound))
  }

  lemma ListedByHalves(l: seq<Snap>, r: seq<Snap>, b: seq<Snap>, x: Snap)
    requires Distinct(l + r) && x in Kept(b)
    ensures x in OnlyOnRight(l + r, b) || x in Selected(b, Guids(Kept(r)), true) <==> x.guid !in Guids(Kept(l))
  {
    DistinctConcat(l, r);
    KeptConcat(l, r);
    KeptGuids(l);
    KeptGuids(r);
    SelectedMember(b, Guids(Kept(l + r)), false, x);
    SelectedMember(b, Guids(Kept(r)), true, x);
  }

  /** Of the operator's snapshots on the destination the prompts list all but those the source has up to the bound. */
  lemma ListedByPrompts(a: seq<Snap>, b: seq<Snap>, bound: string, x: Snap)
    requires Distinct(a) && bound in Names(a) && x in Kept(b)
    ensures x in OnlyOnRight(a, b) || x in AfterBound(a, b, bound) <==> x.guid !in UpToBound(a, bound)
  {
    var n := FindName(a, bound) + 1;
    assert a == a[..n] + a[n..];
    ListedByHalves(a[..n], a[n..], b, x);
  }

  lemma LostByParts(l: seq<Snap>, r: seq<Snap>, x: Snap)
    requires Distinct(l + r)
    ensures x in Kept(l + r) && x !in Kept(l) <==> x in Kept(r)
  {
    hide Kept, Guids, Names, Distinct;
    DistinctConcat(l, r);
    KeptConcat(l, r);
    KeptGuids(l);
    KeptGuids(r);
    if x in Kept(l) {
      MemberGuid(Kept(l), x);
    }
    if x in Kept(r) {
      MemberGuid(Kept(r), x);
    }
  }

  /** The operator's snapshots that go are those of the part cut off. */
  lemma LostByCut(b: seq<Snap>, bound: string, x: Snap)
    requires Distinct(b) && bound in Names(b)
    ensures x in Kept(b) && x !in Kept(b[..FindName(b, bound) + 1]) <==> x in Kept(CutOff(b, bound))
  {
    hide Kept, Names, Distinct;
    TwoParts(b, FindName(b, bound) + 1);
    LostByParts(b[..FindName(b, bound) + 1], CutOff(b, bound), x);
  }

  /** A rollback loses only what the prompts listed exactly when the destination exposes nothing up to the bound. */
  lemma RollbackLosses(a: seq<Snap>, b: seq<Snap>, bound: string)
    requires Compatible(a, b) && bound in Names(a) && bound in Names(b)
    ensures
      (forall x :: x in Kept(b) && x !in Kept(b[..FindName(b, bound) + 1]) ==>
        x in OnlyOnRight(a, b) || x in AfterBound(a, b, bound))
      <==> !RewindExposes(a, b, bound)
  {
    hide Kept, Guids, Names, Before, Selected, AfterBound, OnlyOnRight, FindName;
    var cut := Kept(CutOff(b, bound));
    if RewindExposes(a, b, bound) {
      var g :| g in Guids(cut) && g in UpToBound(a, bound);
      var x := cut[FindGuid(cut, g)];
      LostByCut(b, bound, x);
      ListedByPrompts(a, b, bound, x);
    } else {
      forall x | x in Kept(b) && x !in Kept(b[..FindName(b, bound) + 1])
        ensures x in OnlyOnRight(a, b) || x in AfterBound(a, b, bound)
      {
        LostByCut(b, bound, x);
        MemberGuid(cut, x);
        ListedByPrompts(a, b, bound, x);
      }
    }
  }

  /** Two snapshots called `s`: rolling back to the destination's own destroys `a`, which no prompt listed. */
  lemma RollbackCanExpose() returns (src: seq<Snap>, dst: seq<Snap>, a: Snap)
    ensures Compatible(src, dst) && "s" in Names(src) && "s" in Names(dst) && AfterBound(src, dst, "s") != []
    ensures a in Kept(dst) && a !in Kept(dst[..FindName(dst, "s") + 1])
    ensures a !in OnlyOnRight(src, dst) && a !in AfterBound(src, dst, "s") && Below(src, 10) && Below(dst, 10)
  {
    hide Guids, Names, Distinct, Before, Kept, Selected;
    a := Snap("a", 1);
    var s, z, other := Snap("s", 2), Snap("z", 3), Snap("s", 9);
    src, dst := [a, s, z], [other, a, z];
    Single(a);
    Single(s);
    Single(z);
    Single(other);
    Three(a, s, z);
    Three(other, a, z);
    GuidAt(src, 1);
    GuidAt(dst, 0);
    FirstName(src, "s", 1);
    FirstName(dst, "s", 0);
    assert src[..2] == [a, s] && src[2..] == [z] && dst[..1] == [other];
    assert [a, s] == [a] + [s];
    KeptConcat([a], [s]);
    KeptConcat([a] + [s], [z]);
    ListedByPrompts(src, dst, "s", a);
    SelectedMember(dst, Guids(Kept(src)), false, z);
    ListedByPrompts(src, dst, "s", z);
  }

  lemma PastTheSameBound(a: seq<Snap>, b: seq<Snap>, n: nat, k: nat, g: nat)
    requires Compatible(a, b) && n < |a| && k < |b| && a[n].guid == b[k].guid
    requires g in Guids(b[k + 1..])
    ensures g !in Guids(a[..n + 1])
  {
    hide Guids, Before, Distinct, Names, Kept;
    BetweenHalves(b, k, g);
    Halves(b, k + 1);
    GuidAt(b[..k + 1], k);
    if g in Guids(a[..n + 1]) {
      OldestHalf(a, n, g);
    }
  }

  /** When the two snapshots called `bound` are the same snapshot, a rollback exposes nothing. */
  lemma SameBoundExposesNothing(a: seq<Snap>, b: seq<Snap>, bound: string)
    requires Compatible(a, b) && bound in Names(a) && bound in Names(b)
    requires a[FindName(a, bound)].guid == b[FindName(b, bound)].guid
    ensures !RewindExposes(a, b, bound)
  {
    var head, tail := a[..FindName(a, bound) + 1], CutOff(b, bound);
    KeptGuids(head);
    KeptGuids(tail);
    forall g | g in Guids(tail) ensures g !in Guids(head) {
      PastTheSameBound(a, b, FindName(a, bound), FindName(b, bound), g);
    }
  }

  lemma SendLosses(a: seq<Snap>, a1: seq<Snap>, b: seq<Snap>, b1: seq<Snap>, guid: nat, x: Snap)
    requires Compatible(a, b) && guid !in Guids(a) && guid !in Guids(b)
    requires Anchored(a, a1, guid) && Delivered(a1, b, b1)
    requires x in Kept(b) && x !in Kept(b1)
    ensures x in OnlyOnRight(a, b)
  {
    AnchoredFacts(a, a1, b, guid);
    DeliveredLosses(a1, b, b1, x);
  }

  /** What the prompts show: the destination's own snapshots, and for a bounded transfer what came after the bound. */
  lemma ShownExactly(s: State, src: string, dst: string, bound: Option<string>, x: Snap)
    requires src in s.snaps
    ensures var a, b := s.snaps[src], ListOf(s, dst);
      x in Shown(s, src, dst, bound) <==>
        && x in b && !IsAnchor(x.name)
        && (|| !(exists y :: y in a && !IsAnchor(y.name) && y.guid == x.guid)
            || (bound.Some? && bound.value in Names(a)
                && exists i :: FindName(a, bound.value) < i < |a| && !IsAnchor(a[i].name) && a[i].guid == x.guid))
  {
    hide IsAnchor, OnlyOnRight, AfterBound, FindName, Names;
    DivergenceListed(s.snaps[src], ListOf(s, dst), x);
    if bound.Some? {
      RewindListed(s.snaps[src], ListOf(s, dst), bound.value, x);
    }
  }

  /**
   * Whatever of the operator's a transfer destroys was listed at a prompt and confirmed under --force; for a rollback
   * this takes a destination that exposes nothing up to the bound.
   */
  lemma LossesWereConfirmed(s: State, src: string, dst: string, verb: Verb, bound: Option<string>, force: bool,
                            env: Env, t: State, o: Outcome, x: Snap)
    requires Ready(s, src, dst)
    requires (t, o) == TransferState(s, src, dst, verb, bound, force, env)
    requires x in Kept(ListOf(s, dst)) && x !in Kept(ListOf(t, dst))
    requires PlanTransfer(s, src, dst, bound, force, env) == Rewind ==>
      bound.value in Names(s.snaps[src]) && bound.value in Names(ListOf(s, dst)) ==>
      !RewindExposes(s.snaps[src], ListOf(s, dst), bound.value)
    ensures force && x in Shown(s, src, dst, bound)
    ensures env.yesDivergence || env.yesRewind
  {
    hide SendState, RewindState, Kept, Guids, Names, Before, Distinct, RewindExposes, FindName, Transferred;
    if PlanTransfer(s, src, dst, bound, force, env) == Rewind {
      RewindEffect(s, src, dst, verb, bound.value, env, t, o);
      RollbackLosses(s.snaps[src], s.snaps[dst], bound.value);
    } else {
      var a1, b1 := SendStaysReady(s, src, dst, verb, bound, env, t, o);
      SendLosses(s.snaps[src], a1, ListOf(s, dst), b1, s.nextGuid, x);
    }
  }

  lemma SendNeverRewinds(s: State, src: string, dst: string, verb: Verb, bound: Option<string>, env: Env, t: State,
                         o: Outcome)
    requires src in s.snaps && (bound.Some? ==> bound.value in Names(s.snaps[src]))
    requires (t, o) == SendState(s, src, dst, verb, bound, env)
    ensures o != Rewound && o != Refused
  {
    hide Deliver, Sealed, PointersState, PruneBoth, Lifted, LiftsReadonly, Restored;
  }

  /** After a completed rollback the confirmed lists cover the losses exactly when nothing was exposed. */
  lemma RewoundLosses(s: State, src: string, dst: string, verb: Verb, bound: string, env: Env, t: State)
    requires Ready(s, src, dst) && bound in Names(s.snaps[src])
    requires (t, Rewound) == TransferState(s, src, dst, verb, Some(bound), true, env)
    ensures bound in Names(ListOf(s, dst))
    ensures (forall x :: x in Kept(ListOf(s, dst)) && x !in Kept(ListOf(t, dst)) ==>
      x in Shown(s, src, dst, Some(bound)))
      <==> !RewindExposes(s.snaps[src], ListOf(s, dst), bound)
  {
    hide SendState, RewindState, Kept, Names, Guids, Distinct, Before, RewindExposes, FindName;
    if PlanTransfer(s, src, dst, Some(bound), true, env) == Send {
      SendNeverRewinds(s, src, dst, verb, Some(bound), env, t, Rewound);
    }
    RewindEffect(s, src, dst, verb, bound, env, t, Rewound);
    RollbackLosses(s.snaps[src], s.snaps[dst], bound);
  }

  /**
   * What a completed incremental transfer delivers: the destination up to the base, then the source up to the anchor.
   */
  ghost predicate Incremental(a: seq<Snap>, b: seq<Snap>, b2: seq<Snap>, n: nat) {
    var p := LatestShared(a, b);
    0 <= p < n < |a| && Kept(b2) == Kept(b[..FindGuid(b, a[p].guid) + 1]) + Kept(a[p + 1..n + 1])
  }

  lemma CompleteIsIncremental(a: seq<Snap>, b: seq<Snap>, b1: seq<Snap>, b2: seq<Snap>, n: nat, clone: bool)
    requires n < |a| && Complete(a, b, b1, n, clone) && LatestShared(a, b) >= 0 && Kept(b2) == Kept(b1)
    ensures Incremental(a, b, b2, n)
  {
    hide Kept, Guids, LatestShared, FindGuid;
    ReceivedKept(a, b, LatestShared(a, b), n);
  }

  lemma SentEffects(s: State, src: string, dst: string, verb: Verb, bound: Option<string>, force: bool, env: Env,
                    t: State)
    returns (a1: seq<Snap>, b1: seq<Snap>)
    requires Ready(s, src, dst)
    requires (t, Sent) == TransferState(s, src, dst, verb, bound, force, env)
    ensures Transferred(s, t, Sent, src, dst, a1, b1, AnchorName(bound, env), env)
    ensures a1 == SourceList(s, src, bound, env) && Kept(ListOf(t, dst)) == Kept(b1)
  {
    hide SendState, RewindState;
    assert PlanTransfer(s, src, dst, bound, force, env) != Rewind by {
      if PlanTransfer(s, src, dst, bound, force, env) == Rewind {
        RewindEffect(s, src, dst, verb, bound.value, env, t, Sent);
      }
    }
    a1, b1 := SendStaysReady(s, src, dst, verb, bound, env, t, Sent);
  }

  /** A completed transfer between two datasets with a common base is incremental. */
  lemma SentContents(s: State, src: string, dst: string, verb: Verb, bound: Option<string>, force: bool, env: Env,
                     t: State)
    requires Ready(s, src, dst)
    requires (t, Sent) == TransferState(s, src, dst, verb, bound, force, env)
    requires LatestShared(SourceList(s, src, bound, env), ListOf(s, dst)) >= 0
    ensures var a := SourceList(s, src, bound, env);
      Incremental(a, ListOf(s, dst), ListOf(t, dst), FindName(a, AnchorName(bound, env)))
  {
    hide TransferState;
    var a1, b1 := SentEffects(s, src, dst, verb, bound, force, env, t);
    CompleteIsIncremental(a1, ListOf(s, dst), b1, ListOf(t, dst), FindName(a1, AnchorName(bound, env)),
      src in s.origin);
  }

  /** Such a transfer settles the divergence exactly when the receiver had nothing of its own up to the base. */
  lemma OverwriteSettles(a: seq<Snap>, b: seq<Snap>, b2: seq<Snap>, n: nat)
    requires Incremental(a, b, b2, n)
    ensures OnlyOnRight(a, b2) == [] <==> OnlyOnRight(a, b[..FindGuid(b, a[LatestShared(a, b)].guid) + 1]) == []
  {
    hide Kept, Guids, LatestShared, FindGuid, OnlyOnRight;
    var p := LatestShared(a, b);
    var base := b[..FindGuid(b, a[p].guid) + 1];
    KeptSlice(a, p + 1, n + 1);
    GuidsConcat(Kept(base), Kept(a[p + 1..n + 1]));
    NoDivergence(a, b2);
    NoDivergence(a, base);
  }

  // -------------------------------------------------------------------------
  // The common base
  // -------------------------------------------------------------------------

  /** The anchor, and of the other anchors only those whose destroy failed. */
  ghost predicate OnlyAnchor(xs: seq<Snap>, x: Snap, stuck: set<string>) {
    x in xs && forall y :: y in xs && IsAnchor(y.name) ==> y.name == x.name || y.name in stuck
  }

  lemma AnchorStays(s: State, t: State, src: string, dst: string, a1: seq<Snap>, b1: seq<Snap>, anchor: string,
                    env: Env)
    returns (x: Snap)
    requires Transferred(s, t, Sent, src, dst, a1, b1, anchor, env)
    ensures OnlyAnchor(ListOf(t, src), x, env.stuckSrc) && OnlyAnchor(ListOf(t, dst), x, env.stuckDst)
    ensures x.name == anchor
  {
    hide OnlyPairTouched, Delivered, Thinned, Pruned, Names;
    x := a1[FindName(a1, anchor)];
    PrunedMembers(a1, anchor, env.stuckSrc);
    PrunedMembers(b1, anchor, env.stuckDst);
  }

  /**
   * After a completed transfer the same anchor is on both sides, with every other anchor gone, and the destination is
   * readonly.
   */
  lemma AnchorOnBothSides(s: State, src: string, dst: string, verb: Verb, bound: Option<string>, force: bool, env: Env,
                          t: State)
    returns (x: Snap)
    requires Ready(s, src, dst)
    requires (t, Sent) == TransferState(s, src, dst, verb, bound, force, env)
    ensures dst in t.readonly && x.name == AnchorName(bound, env)
    ensures OnlyAnchor(ListOf(t, src), x, env.stuckSrc) && OnlyAnchor(ListOf(t, dst), x, env.stuckDst)
  {
    hide TransferState;
    var a1, b1 := SentEffects(s, src, dst, verb, bound, force, env, t);
    x := AnchorStays(s, t, src, dst, a1, b1, AnchorName(bound, env), env);
  }

  // -------------------------------------------------------------------------
  // mirror's no-op
  // -------------------------------------------------------------------------

  lemma FreshAnchorIsLast(a: seq<Snap>, x: Snap)
    requires x.name !in Names(a)
    ensures FindName(a + [x], x.name) == |a| && (a + [x])[|a|].guid == x.guid
  {
    AppendLast(a, x);
  }

  lemma LiftedNoOp(s: State, src: string, dst: string, verb: Verb, anchor: string, lifted: bool, env: Env)
    requires src in s.snaps && anchor in Names(s.snaps[src])
    ensures LiftedState(s, src, dst, verb, anchor, lifted, env).1 == NoOp ==>
      verb.Mirror? && dst in s.snaps && s.snaps[src][FindName(s.snaps[src], anchor)].guid in Guids(s.snaps[dst])
  {
    hide Deliver, Sealed, PointersState, PruneBoth, Guids, Names;
  }

  /** A no-op is only ever reported by a dataset mirrored onto itself: the anchor just taken cannot be anywhere else. */
  lemma NoOpMeansSelf(s: State, src: string, dst: string, verb: Verb, bound: Option<string>, env: Env, t: State)
    requires src in s.snaps && s.nextGuid !in Guids(ListOf(s, dst))
    requires (bound.Some? ==> bound.value in Names(s.snaps[src])) && (verb.Mirror? ==> bound.None?)
    requires (t, NoOp) == SendState(s, src, dst, verb, bound, env)
    ensures src == dst && verb.Mirror?
  {
    hide LiftedState, Guids, Names, FindName;
    var a, anchor := s.snaps[src], AnchorName(bound, env);
    var s1 := if bound.Some? then s else WithSnapshot(s, src, anchor);
    if bound.Some? || anchor !in Names(a) {
      if bound.None? {
        FreshAnchorIsLast(a, Snap(anchor, s.nextGuid));
      }
      LiftedNoOp(Lifted(s1, dst, verb), src, dst, verb, anchor, LiftsReadonly(s1, dst, verb), env);
    }
  }

  /** With its newest snapshot as the anchor, a dataset is up to date with itself. */
  lemma SelfIsUpToDate(s: State, d: string, anchor: string, lifted: bool, env: Env)
    requires d in s.snaps && s.snaps[d] != [] && FindName(s.snaps[d], anchor) == |s.snaps[d]| - 1
    ensures LiftedState(s, d, d, Mirror, anchor, lifted, env).1 == NoOp
  {
    hide Deliver, Settle, Guids, Names, Pruned;
    var a := s.snaps[d];
    GuidAt(a, |a| - 1);
    assert LatestShared(a, a) == |a| - 1;
  }

  /** The steps of a transfer before the stream go through. */
  predicate Starts(s: State, src: string, dst: string, verb: Verb, env: Env)
    requires src in s.snaps
  {
    && !(dst in s.snaps && dst in s.mounted && dst !in s.readonly)
    && !env.fault.AtSnapshot? && AnchorName(None, env) !in Names(s.snaps[src])
    && !(LiftsReadonly(s, dst, verb) && env.fault.AtReadonlyOff?)
  }

  lemma SelfMirrorSends(s: State, d: string, env: Env)
    requires d in s.snaps
    ensures SendState(s, d, d, Mirror, None, env).1 == NoOp <==>
      && !env.fault.AtSnapshot? && AnchorName(None, env) !in Names(s.snaps[d])
      && !(LiftsReadonly(s, d, Mirror) && env.fault.AtReadonlyOff?)
  {
    hide LiftedState, Guids, Names, FindName;
    var a, anchor := s.snaps[d], AnchorName(None, env);
    if anchor !in Names(a) {
      var s1 := WithSnapshot(s, d, anchor);
      FreshAnchorIsLast(a, Snap(anchor, s.nextGuid));
      SelfIsUpToDate(Lifted(s1, d, Mirror), d, anchor, LiftsReadonly(s1, d, Mirror), env);
    }
  }

  lemma RewindIsNoNoOp(s: State, dst: string, verb: Verb, bound: string, env: Env)
    requires dst in s.snaps
    ensures RewindState(s, dst, verb, bound, env).1 != NoOp
  {
    hide FindName, Sealed;
  }

  /**
   * A transfer reports a no-op exactly when it mirrors a dataset onto itself and the steps before the stream go
   * through.
   */
  lemma NoOpExactly(s: State, src: string, dst: string, verb: Verb, bound: Option<string>, force: bool, env: Env)
    requires src in s.snaps && s.nextGuid !in Guids(ListOf(s, dst)) && (verb.Mirror? ==> bound.None?)
    ensures TransferState(s, src, dst, verb, bound, force, env).1 == NoOp <==>
      src == dst && verb.Mirror? && Starts(s, src, dst, verb, env)
  {
    hide SendState, RewindState, Guids, Names, Kept, OnlyOnRight;
    var (t, o) := TransferState(s, src, dst, verb, bound, force, env);
    NoDivergence(s.snaps[src], s.snaps[src]);
    if (bound.Some? ==> bound.value in Names(s.snaps[src])) && PlanTransfer(s, src, dst, bound, force, env) == Rewind {
      RewindIsNoNoOp(s, dst, verb, bound.value, env);
    } else if src == dst && verb.Mirror? {
      SelfMirrorSends(s, src, env);
    } else if o == NoOp {
      NoOpMeansSelf(s, src, dst, verb, bound, env, t);
    }
  }
}
