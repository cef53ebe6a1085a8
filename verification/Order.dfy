// Creation order. GUIDs are handed out in order, so a host on which every list is in GUID
// order stays one, and any two of its datasets are comparable.

module Order {
  import opened Text
  import opened Snapshots
  import opened World
  import opened Transfer
  import opened Safety
  import opened Guarantees

  /** Every snapshot is newer than the ones before it; names are not reused. */
  ghost predicate InOrder(xs: seq<Snap>) {
    xs == [] ||
    (var init, last := xs[..|xs| - 1], xs[|xs| - 1];
     InOrder(init) && Below(init, last.guid) && last.name !in Names(init))
  }

  lemma {:induction false} OrderIsDistinct(xs: seq<Snap>)
    requires InOrder(xs)
    ensures Distinct(xs)
  {
    if xs != [] {
      OrderIsDistinct(xs[..|xs| - 1]);
    }
  }

  lemma {:induction false} OlderIsSmaller(xs: seq<Snap>, g: nat, h: nat)
    requires InOrder(xs) && Before(xs, g, h)
    ensures g < h
  {
    if Before(xs[..|xs| - 1], g, h) {
      OlderIsSmaller(xs[..|xs| - 1], g, h);
    }
  }

  /** Lists in creation order always agree on what they share. */
  lemma OrderIsCompatible(a: seq<Snap>, b: seq<Snap>)
    requires InOrder(a) && InOrder(b)
    ensures Compatible(a, b)
  {
    hide InOrder, Distinct, Before;
    OrderIsDistinct(a);
    OrderIsDistinct(b);
    forall g, h | Before(a, g, h) ensures !Before(b, h, g) {
      OlderIsSmaller(a, g, h);
      if Before(b, h, g) {
        OlderIsSmaller(b, h, g);
      }
    }
  }

  /** Everything in `a` is older than everything in `b`. */
  ghost predicate AllOlder(a: seq<Snap>, b: seq<Snap>) {
    forall g, h :: g in Guids(a) && h in Guids(b) ==> g < h
  }

  lemma AllOlderLast(a: seq<Snap>, b: seq<Snap>)
    requires b != []
    ensures AllOlder(a, b) <==> AllOlder(a, b[..|b| - 1]) && Below(a, b[|b| - 1].guid)
  {
    assert Guids(b) == Guids(b[..|b| - 1]) + {b[|b| - 1].guid};
  }

  lemma BelowConcat(a: seq<Snap>, b: seq<Snap>, n: nat)
    ensures Below(a + b, n) <==> Below(a, n) && Below(b, n)
  {
    hide Guids;
    GuidsConcat(a, b);
  }

  lemma {:induction false} OrderConcat(a: seq<Snap>, b: seq<Snap>)
    ensures InOrder(a + b) <==>
      InOrder(a) && InOrder(b) && Names(a) !! Names(b) && AllOlder(a, b)
  {
    if b == [] {
      assert a + b == a;
    } else {
      hide AllOlder, Below;
      var init, last := b[..|b| - 1], b[|b| - 1];
      ConcatLast(a, b);
      OrderConcat(a, init);
      GuidsConcat(a, init);
      BelowConcat(a, init, last.guid);
      AllOlderLast(a, b);
    }
  }

  lemma OrderPart(l: seq<Snap>, m: seq<Snap>, r: seq<Snap>)
    requires InOrder(l + m + r)
    ensures InOrder(l) && InOrder(m) && InOrder(l + m)
  {
    hide InOrder;
    OrderConcat(l + m, r);
    OrderConcat(l, m);
  }

  lemma OrderSlice(xs: seq<Snap>, i: nat, j: nat)
    requires InOrder(xs) && i <= j <= |xs|
    ensures InOrder(xs[i..j])
  {
    hide InOrder;
    ThreeParts(xs, i, j);
    OrderPart(xs[..i], xs[i..j], xs[j..]);
  }

  lemma {:induction false} PrunedInOrder(xs: seq<Snap>, keep: string, stuck: set<string>)
    requires InOrder(xs)
    ensures InOrder(Pruned(xs, keep, stuck))
  {
    if xs != [] {
      PrunedInOrder(xs[..|xs| - 1], keep, stuck);
      PrunedShrinks(xs[..|xs| - 1], keep, stuck);
      AppendLast(Pruned(xs[..|xs| - 1], keep, stuck), xs[|xs| - 1]);
    }
  }

  lemma ThinnedInOrder(xs: seq<Snap>, ys: seq<Snap>)
    requires Thinned(xs, ys) && InOrder(xs)
    ensures InOrder(ys) && Guids(ys) <= Guids(xs) && Kept(ys) == Kept(xs)
  {
    hide InOrder, Pruned, Kept;
    if ys != xs {
      var keep, stuck :| ys == Pruned(xs, keep, stuck);
      PrunedInOrder(xs, keep, stuck);
      PrunedShrinks(xs, keep, stuck);
      PrunedKeeps(xs, keep, stuck);
    }
  }

  lemma AnchoredInOrder(a: seq<Snap>, a1: seq<Snap>, guid: nat)
    requires Anchored(a, a1, guid) && InOrder(a) && Below(a, guid)
    ensures InOrder(a1) && Guids(a1) <= Guids(a) + {guid}
  {}

  lemma GuidsSlice(a: seq<Snap>, i: nat, j: nat)
    requires i <= j <= |a|
    ensures Guids(a[i..j]) <= Guids(a)
  {
    hide Guids;
    ThreeParts(a, i, j);
    GuidsConcat(a[..i], a[i..j]);
    GuidsConcat(a[..i] + a[i..j], a[j..]);
  }

  lemma UpToLast(b: seq<Snap>, q: nat, g: nat)
    requires InOrder(b) && q < |b| && g in Guids(b[..q + 1])
    ensures g <= b[q].guid
  {
    hide InOrder, Guids, Before;
    if g != b[q].guid {
      OldestHalf(b, q, g);
      OlderIsSmaller(b, g, b[q].guid);
    }
  }

  lemma AfterFirst(a: seq<Snap>, p: nat, m: nat, h: nat)
    requires InOrder(a) && p <= m < |a| && h in Guids(a[p + 1..m + 1])
    ensures a[p].guid < h
  {
    hide InOrder, Guids, Before;
    ThreeParts(a, p + 1, m + 1);
    GuidsConcat(a[p + 1..m + 1], a[m + 1..]);
    BetweenHalves(a, p, h);
    OlderIsSmaller(a, a[p].guid, h);
  }

  /** What is received on top of the base is newer than anything up to the base. */
  lemma ReceivedInOrder(a: seq<Snap>, b: seq<Snap>, p: nat, m: nat)
    requires InOrder(a) && InOrder(b) && p <= m < |a| && a[p].guid in Guids(b) && NamesApart(a, b, p, m)
    ensures InOrder(Received(a, b, p, m)) && Guids(Received(a, b, p, m)) <= Guids(a) + Guids(b)
  {
    hide InOrder, Guids, Names;
    var q := FindGuid(b, a[p].guid);
    var base, stream := b[..q + 1], a[p + 1..m + 1];
    OrderSlice(b, 0, q + 1);
    OrderSlice(a, p + 1, m + 1);
    assert b[0..q + 1] == base;
    forall g, h | g in Guids(base) && h in Guids(stream) ensures g < h {
      UpToLast(b, q, g);
      AfterFirst(a, p, m, h);
    }
    OrderConcat(base, stream);
    GuidsConcat(base, stream);
    Halves(b, q + 1);
    GuidsSlice(a, p + 1, m + 1);
  }

  lemma DeliveredInOrder(a1: seq<Snap>, b: seq<Snap>, b1: seq<Snap>)
    requires Delivered(a1, b, b1) && InOrder(a1) && InOrder(b)
    ensures InOrder(b1) && Guids(b1) <= Guids(a1) + Guids(b)
  {
    hide InOrder, Guids, LatestShared, Received;
    if b1 != b {
      var p := LatestShared(a1, b);
      if p >= 0 {
        var m :| IncrementalUpTo(a1, b, b1, p, m);
        ReceivedInOrder(a1, b, p, m);
      } else {
        var n: nat :| FullUpTo(a1, b1, n);
        var i := if b1 == [a1[n]] then n else 0;
        assert a1[i..n + 1] == b1;
        OrderSlice(a1, i, n + 1);
        GuidsSlice(a1, i, n + 1);
      }
    }
  }

  // -------------------------------------------------------------------------
  // Hosts
  // -------------------------------------------------------------------------

  ghost predicate DatedAt(s: State, d: string)
    requires d in s.snaps
  {
    InOrder(s.snaps[d]) && Below(s.snaps[d], s.nextGuid)
  }

  /** Every dataset's snapshots are in creation order, and fresh GUIDs are ahead of all of them. */
  ghost predicate Dated(s: State) {
    forall d :: d in s.snaps ==> DatedAt(s, d)
  }

  lemma NothingInOrder()
    ensures InOrder([]) && forall n :: Below([], n)
  {}

  /** On such a host any two datasets are ready for a transfer. */
  lemma DatedIsReady(s: State, src: string, dst: string)
    requires Dated(s) && src != dst && src in s.snaps
    ensures Ready(s, src, dst)
  {
    hide InOrder, Distinct, Before;
    assert DatedAt(s, src);
    assert InOrder([]) by { NothingInOrder(); }
    if dst in s.snaps {
      assert DatedAt(s, dst);
    }
    OrderIsCompatible(s.snaps[src], ListOf(s, dst));
  }

  lemma BelowMore(xs: seq<Snap>, ys: seq<Snap>, m: nat, n: nat)
    requires Below(xs, m) && Guids(ys) <= Guids(xs) && m <= n
    ensures Below(ys, n)
  {}

  lemma AllBelow(a: seq<Snap>, a1: seq<Snap>, n: nat, m: nat)
    requires Below(a, n) && Guids(a1) <= Guids(a) + {n} && n <= m && (a1 != a ==> n < m)
    ensures Below(a1, m)
  {}

  lemma BelowEither(a: seq<Snap>, b: seq<Snap>, xs: seq<Snap>, n: nat)
    requires Below(a, n) && Below(b, n) && Guids(xs) <= Guids(a) + Guids(b)
    ensures Below(xs, n)
  {}

  lemma TransferredDated(s: State, t: State, o: Outcome, src: string, dst: string, a1: seq<Snap>, b1: seq<Snap>,
                         anchor: string, env: Env)
    requires Dated(s) && src != dst && src in s.snaps && Transferred(s, t, o, src, dst, a1, b1, anchor, env)
    requires Anchored(s.snaps[src], a1, s.nextGuid) && (a1 != s.snaps[src] ==> s.nextGuid < t.nextGuid)
    ensures Dated(t)
  {
    hide InOrder, Guids, Delivered, Thinned, Concluded, Complete, Anchored;
    assert DatedAt(s, src);
    NothingInOrder();
    if dst in s.snaps {
      assert DatedAt(s, dst);
    }
    AnchoredInOrder(s.snaps[src], a1, s.nextGuid);
    DeliveredInOrder(a1, ListOf(s, dst), b1);
    ThinnedInOrder(a1, t.snaps[src]);
    ThinnedInOrder(b1, ListOf(t, dst));
    AllBelow(s.snaps[src], a1, s.nextGuid, t.nextGuid);
    forall d | d in t.snaps ensures DatedAt(t, d) {
      if d == src {
        BelowMore(a1, t.snaps[src], t.nextGuid, t.nextGuid);
      } else if d == dst {
        BelowEither(a1, ListOf(s, dst), ListOf(t, dst), t.nextGuid);
      } else {
        assert DatedAt(s, d);
        BelowMore(s.snaps[d], s.snaps[d], s.nextGuid, t.nextGuid);
      }
    }
  }

  lemma RewoundDated(s: State, src: string, dst: string, verb: Verb, bound: string, env: Env, t: State, o: Outcome)
    requires Dated(s) && src != dst && src in s.snaps && dst in s.snaps &&
      (t, o) == RewindState(s, dst, verb, bound, env)
    ensures Dated(t)
  {
    hide InOrder, Guids, RewindState, FindName;
    RewindEffect(s, src, dst, verb, bound, env, t, o);
    var b := s.snaps[dst];
    assert DatedAt(s, dst);
    var k := if ListOf(t, dst) == b then |b| else FindName(b, bound) + 1;
    assert b[0..k] == b[..k] && b[..|b|] == b;
    OrderSlice(b, 0, k);
    GuidsSlice(b, 0, k);
    forall d | d in t.snaps ensures DatedAt(t, d) {
      assert DatedAt(s, d);
      BelowMore(s.snaps[d], t.snaps[d], s.nextGuid, t.nextGuid);
    }
  }

  /** A transfer between any two datasets, forced or not, keeps the host dated. */
  lemma TransferKeepsDated(s: State, src: string, dst: string, verb: Verb, bound: Option<string>, force: bool, env: Env)
    requires Dated(s) && src != dst
    ensures Dated(TransferState(s, src, dst, verb, bound, force, env).0)
  {
    hide SendState, RewindState, Dated, Names;
    var (t, o) := TransferState(s, src, dst, verb, bound, force, env);
    if src in s.snaps && (bound.Some? ==> bound.value in Names(s.snaps[src])) {
      match PlanTransfer(s, src, dst, bound, force, env) {
        case Refuse =>
        case Rewind => RewoundDated(s, src, dst, verb, bound.value, env, t, o);
        case Send =>
          var a1, b1 := SendEffect(s, src, dst, verb, bound, env, t, o);
          TransferredDated(s, t, o, src, dst, a1, b1, AnchorName(bound, env), env);
      }
    }
  }

  // -------------------------------------------------------------------------
  // A dataset mirrored onto itself
  // -------------------------------------------------------------------------

  ghost predicate SelfAnchored(s: State, t: State, d: string, a1: seq<Snap>)
    requires d in s.snaps && d in t.snaps
  {
    && Anchored(s.snaps[d], a1, s.nextGuid) && a1 != s.snaps[d] && s.nextGuid < t.nextGuid
    && exists a2 :: Thinned(a1, a2) && Thinned(a2, t.snaps[d])
  }

  /** Only anchors come and go, and only its own. */
  ghost predicate SelfMirrored(s: State, t: State, d: string)
    requires d in s.snaps
  {
    && t.snaps.Keys == s.snaps.Keys && (forall e :: e in s.snaps && e != d ==> t.snaps[e] == s.snaps[e])
    && s.nextGuid <= t.nextGuid
    && (t.snaps[d] == s.snaps[d] || exists a1 :: SelfAnchored(s, t, d, a1))
  }

  /** The anchor just taken is its own newest shared snapshot, so nothing is sent. */
  lemma SelfLifted(s: State, d: string, anchor: string, lifted: bool, env: Env, t: State, o: Outcome)
    requires d in s.snaps && s.snaps[d] != [] && FindName(s.snaps[d], anchor) == |s.snaps[d]| - 1
    requires (t, o) == LiftedState(s, d, d, Mirror, anchor, lifted, env)
    ensures t == WithSnaps(s, d, Pruned(Pruned(s.snaps[d], anchor, env.stuckSrc), anchor, env.stuckDst))
  {
    hide Deliver, Settle, Guids, Names, Pruned;
    var a := s.snaps[d];
    GuidAt(a, |a| - 1);
    assert LatestShared(a, a) == |a| - 1;
    WithSnapsTwice(s, d, Pruned(a, anchor, env.stuckSrc),
      Pruned(Pruned(a, anchor, env.stuckSrc), anchor, env.stuckDst));
  }

  lemma ThinnedOnce(xs: seq<Snap>, keep: string, stuck: set<string>)
    ensures Thinned(xs, Pruned(xs, keep, stuck))
  {}

  lemma ThinnedNot(xs: seq<Snap>)
    ensures Thinned(xs, xs)
  {}

  lemma SelfSent(s: State, d: string, env: Env, t: State, o: Outcome)
    requires d in s.snaps && (t, o) == SendState(s, d, d, Mirror, None, env)
    ensures SelfMirrored(s, t, d)
  {
    hide LiftedState, Guids, Names, Thinned, Pruned, FindName;
    var a, anchor := s.snaps[d], AnchorName(None, env);
    if !env.fault.AtSnapshot? && anchor !in Names(a) {
      var s1 := WithSnapshot(s, d, anchor);
      var a1 := s1.snaps[d];
      FreshAnchorIsLast(a, Snap(anchor, s.nextGuid));
      AppendLast(a, Snap(anchor, s.nextGuid));
      ThinnedNot(a1);
      ThinnedOnce(a1, anchor, env.stuckSrc);
      ThinnedOnce(Pruned(a1, anchor, env.stuckSrc), anchor, env.stuckDst);
      var lifted := LiftsReadonly(s1, d, Mirror);
      if !(lifted && env.fault.AtReadonlyOff?) {
        SelfLifted(Lifted(s1, d, Mirror), d, anchor, lifted, env, t, o);
      }
      assert SelfAnchored(s, t, d, a1);
    }
  }

  lemma SelfMirrorEffect(s: State, d: string, force: bool, env: Env, t: State, o: Outcome)
    requires d in s.snaps && (t, o) == TransferState(s, d, d, Mirror, None, force, env)
    ensures SelfMirrored(s, t, d)
  {
    hide SendState, RewindState, Guids, Names, OnlyOnRight;
    if PlanTransfer(s, d, d, None, force, env) == Send {
      SelfSent(s, d, env, t, o);
    }
  }

  lemma AnchoredKept(a: seq<Snap>, a1: seq<Snap>, guid: nat)
    requires Anchored(a, a1, guid)
    ensures Kept(a1) == Kept(a)
  {}

  lemma SelfMirrorIsHarmless(s: State, d: string, force: bool, env: Env)
    requires Dated(s) && d in s.snaps
    ensures var t := TransferState(s, d, d, Mirror, None, force, env).0;
      Dated(t) && t.snaps.Keys == s.snaps.Keys && forall e :: e in s.snaps ==> Kept(t.snaps[e]) == Kept(s.snaps[e])
  {
    hide TransferState, Guids, InOrder, Thinned, Kept;
    var (t, o) := TransferState(s, d, d, Mirror, None, force, env);
    SelfMirrorEffect(s, d, force, env, t, o);
    if t.snaps[d] != s.snaps[d] {
      var a1 :| SelfAnchored(s, t, d, a1);
      var a2 :| Thinned(a1, a2) && Thinned(a2, t.snaps[d]);
      assert DatedAt(s, d);
      AnchoredInOrder(s.snaps[d], a1, s.nextGuid);
      AnchoredKept(s.snaps[d], a1, s.nextGuid);
      ThinnedInOrder(a1, a2);
      ThinnedInOrder(a2, t.snaps[d]);
      AllBelow(s.snaps[d], a1, s.nextGuid, t.nextGuid);
      BelowMore(a1, t.snaps[d], t.nextGuid, t.nextGuid);
    }
    forall e | e in t.snaps ensures DatedAt(t, e) {
      assert DatedAt(s, e);
      if t.snaps[e] == s.snaps[e] {
        BelowMore(s.snaps[e], s.snaps[e], s.nextGuid, t.nextGuid);
      }
    }
  }

  // -------------------------------------------------------------------------
  // Any source, any destination
  // -------------------------------------------------------------------------

  /** A stream onto its own source has nothing newer than its base to send. */
  lemma OntoItself(a: seq<Snap>, n: nat, verb: Verb, fault: Fault, clone: bool)
    requires n < |a|
    ensures Stream(a, a, n, clone, verb, fault) == (a, false)
  {
    GuidAt(a, |a| - 1);
  }

  /** A push or pull of a dataset onto itself never gets past the send. */
  lemma SelfMoveFails(s: State, d: string, verb: Verb, anchor: string, lifted: bool, env: Env, t: State, o: Outcome)
    requires d in s.snaps && anchor in Names(s.snaps[d]) && !verb.Mirror?
    requires (t, o) == LiftedState(s, d, d, verb, anchor, lifted, env)
    ensures t.snaps == s.snaps && t.nextGuid == s.nextGuid
  {
    hide ReceiveIncremental, Settle, Guids, Names;
    OntoItself(s.snaps[d], FindName(s.snaps[d], anchor), verb, env.fault, d in s.origin);
    WithSnapsTwice(s, d, s.snaps[d], s.snaps[d]);
  }

  lemma SelfSendIsHarmless(s: State, d: string, verb: Verb, bound: Option<string>, env: Env, t: State, o: Outcome)
    requires d in s.snaps && (bound.Some? ==> bound.value in Names(s.snaps[d])) && !verb.Mirror?
    requires (t, o) == SendState(s, d, d, verb, bound, env)
    ensures t.snaps == s.snaps || t.snaps == s.snaps[d := s.snaps[d] + [Snap(AnchorName(bound, env), s.nextGuid)]]
    ensures t.snaps != s.snaps ==> bound.None?
  {
    hide LiftedState, Guids, Names;
    var anchor, a := AnchorName(bound, env), s.snaps[d];
    var s1 := if bound.Some? then s else WithSnapshot(s, d, anchor);
    if bound.Some? || (!env.fault.AtSnapshot? && anchor !in Names(a)) {
      if bound.None? {
        GuidAt(s1.snaps[d], |a|);
      }
      var lifted := LiftsReadonly(s1, d, verb);
      if !(lifted && env.fault.AtReadonlyOff?) {
        SelfMoveFails(Lifted(s1, d, verb), d, verb, anchor, lifted, env, t, o);
      }
    }
  }

  lemma SelfMoveIsHarmless(s: State, d: string, verb: Verb, bound: Option<string>, env: Env)
    requires d in s.snaps && !verb.Mirror?
    ensures var t := TransferState(s, d, d, verb, bound, false, env).0;
      t.snaps.Keys == s.snaps.Keys && forall e :: e in s.snaps ==> Kept(t.snaps[e]) == Kept(s.snaps[e])
  {
    hide SendState, RewindState, Names, Guids;
    var (t, o) := TransferState(s, d, d, verb, bound, false, env);
    if (bound.Some? ==> bound.value in Names(s.snaps[d])) && PlanTransfer(s, d, d, bound, false, env) == Send {
      SelfSendIsHarmless(s, d, verb, bound, env, t, o);
      AppendLast(s.snaps[d], Snap(AnchorName(bound, env), s.nextGuid));
    }
  }

  lemma NoSource(s: State, src: string, dst: string, verb: Verb, bound: Option<string>, env: Env)
    requires src !in s.snaps
    ensures TransferState(s, src, dst, verb, bound, false, env).0 == s
  {}

  /**
   * Without --force, no push, pull or mirror between any two datasets, or from one to itself, ever costs any dataset of
   * the host an operator snapshot, whatever is answered and whatever fails.
   */
  lemma UnforcedLosesNothing(s: State, src: string, dst: string, verb: Verb, bound: Option<string>, env: Env)
    requires Dated(s) && (verb.Mirror? ==> bound.None?)
    ensures var t := TransferState(s, src, dst, verb, bound, false, env).0;
      forall d :: d in s.snaps ==> d in t.snaps && Kept(s.snaps[d]) <= Kept(t.snaps[d])
  {
    hide TransferState, Dated, Kept;
    var (t, o) := TransferState(s, src, dst, verb, bound, false, env);
    if src !in s.snaps {
      NoSource(s, src, dst, verb, bound, env);
    } else if src == dst {
      if verb.Mirror? {
        SelfMirrorIsHarmless(s, src, false, env);
      } else {
        SelfMoveIsHarmless(s, src, verb, bound, env);
      }
    } else {
      DatedIsReady(s, src, dst);
      UnforcedNeverDestroys(s, src, dst, verb, bound, env, t, o);
      TransferStaysReady(s, src, dst, verb, bound, false, env);
    }
  }
}
