// What one transfer can and cannot do to the two snapshot lists.

module Safety {
  import opened Text
  import opened Snapshots
  import opened World
  import opened Transfer

  // -------------------------------------------------------------------------
  // The effect of a transfer on lists
  // -------------------------------------------------------------------------

  /** `a1` is `a`, or `a` with the fresh anchor on top. */
  ghost predicate Anchored(a: seq<Snap>, a1: seq<Snap>, guid: nat) {
    || a1 == a
    || (|a1| == |a| + 1 && a1[..|a|] == a && a1[|a|].guid == guid
        && IsAnchor(a1[|a|].name) && a1[|a|].name !in Names(a))
  }

  ghost predicate IncrementalUpTo(a1: seq<Snap>, b: seq<Snap>, b1: seq<Snap>, p: nat, m: nat)
    requires p < |a1| && a1[p].guid in Guids(b)
  {
    p <= m < |a1| && NamesApart(a1, b, p, m) && b1 == Received(a1, b, p, m)
  }

  ghost predicate FullUpTo(a1: seq<Snap>, b1: seq<Snap>, n: nat) {
    n < |a1| && (b1 == a1[..n + 1] || b1 == [a1[n]])
  }

  /** `b1` is `b`, or what a whole or interrupted stream from `a1` makes of it. */
  ghost predicate Delivered(a1: seq<Snap>, b: seq<Snap>, b1: seq<Snap>) {
    || b1 == b
    || (var p := LatestShared(a1, b);
        if p >= 0 then exists m :: IncrementalUpTo(a1, b, b1, p, m) else exists n :: FullUpTo(a1, b1, n))
  }

  ghost predicate Thinned(xs: seq<Snap>, ys: seq<Snap>) {
    ys == xs || exists keep, stuck :: ys == Pruned(xs, keep, stuck)
  }

  lemma ThinnedFacts(xs: seq<Snap>, ys: seq<Snap>, other: seq<Snap>)
    requires Thinned(xs, ys) && Compatible(xs, other)
    ensures Kept(ys) == Kept(xs) && Compatible(ys, other) && Guids(ys) <= Guids(xs)
  {
    if ys != xs {
      var keep, stuck :| ys == Pruned(xs, keep, stuck);
      PrunedKeeps(xs, keep, stuck);
      PrunedCompatible(xs, other, keep, stuck);
      PrunedShrinks(xs, keep, stuck);
    }
  }

  lemma AnchoredFacts(a: seq<Snap>, a1: seq<Snap>, b: seq<Snap>, guid: nat)
    requires Anchored(a, a1, guid) && Compatible(a, b) && guid !in Guids(a) && guid !in Guids(b)
    ensures Kept(a1) == Kept(a) && Compatible(a1, b)
    ensures Guids(a1) <= Guids(a) + {guid}
  {
    if a1 != a {
      forall g, h | Before(a1, g, h) ensures !Before(b, h, g) {
        if Before(b, h, g) {
          BeforeMembers(b, h, g);
        }
      }
    }
  }

  /** Any contiguous part of a list is comparable with whatever the list is comparable with. */
  lemma PartCompatible(a: seq<Snap>, l: seq<Snap>, m: seq<Snap>, r: seq<Snap>)
    requires Compatible(a, l + m + r)
    ensures Compatible(a, m) && Guids(m) <= Guids(l + m + r)
  {
    DistinctConcat(l + m, r);
    DistinctConcat(l, m);
    GuidsConcat(l + m, r);
    GuidsConcat(l, m);
    forall g, h | Before(a, g, h) ensures !Before(m, h, g) {
      BeforeConcat(l + m, r, h, g);
      BeforeConcat(l, m, h, g);
    }
  }

  lemma SliceCompatible(a: seq<Snap>, b: seq<Snap>, i: nat, j: nat)
    requires Compatible(a, b) && i <= j <= |b|
    ensures Compatible(a, b[i..j]) && Guids(b[i..j]) <= Guids(b)
  {
    ThreeParts(b, i, j);
    PartCompatible(a, b[..i], b[i..j], b[j..]);
  }

  lemma {:induction false} SelfOrdered(a: seq<Snap>, g: nat, h: nat)
    requires Distinct(a) && Before(a, g, h)
    ensures !Before(a, h, g)
  {
    var init, last := a[..|a| - 1], a[|a| - 1];
    if Before(init, g, h) {
      SelfOrdered(init, g, h);
      BeforeMembers(init, g, h);
    } else if Before(init, h, g) {
      BeforeMembers(init, h, g);
    }
  }

  lemma SelfCompatible(a: seq<Snap>)
    requires Distinct(a)
    ensures Compatible(a, a)
  {
    forall g, h | Before(a, g, h) ensures !Before(a, h, g) {
      SelfOrdered(a, g, h);
    }
  }

  lemma FullCompatible(a: seq<Snap>, b: seq<Snap>, n: nat)
    requires Distinct(a) && FullUpTo(a, b, n)
    ensures Compatible(a, b) && Guids(b) <= Guids(a)
  {
    SelfCompatible(a);
    assert a[0..n + 1] == a[..n + 1] && a[n..n + 1] == [a[n]];
    SliceCompatible(a, a, if b == [a[n]] then n else 0, n + 1);
  }

  lemma ConcatCompatible(a: seq<Snap>, base: seq<Snap>, stream: seq<Snap>)
    requires Compatible(a, base) && Compatible(a, stream)
    requires Guids(base) !! Guids(stream) && Names(base) !! Names(stream)
    requires forall g, h :: g in Guids(base) && h in Guids(stream) ==> !Before(a, h, g)
    ensures Compatible(a, base + stream)
  {
    DistinctConcat(base, stream);
    forall g, h | Before(a, g, h) ensures !Before(base + stream, h, g) {
      BeforeConcat(base, stream, h, g);
    }
  }

  lemma BaseFacts(a1: seq<Snap>, b: seq<Snap>, p: nat, base: seq<Snap>)
    requires Compatible(a1, b) && p < |a1| && a1[p].guid in Guids(b) && base == b[..FindGuid(b, a1[p].guid) + 1]
    ensures Compatible(a1, base) && Guids(base) <= Guids(b)
  {
    var n := FindGuid(b, a1[p].guid) + 1;
    SliceCompatible(a1, b, 0, n);
    assert b[0..n] == base;
  }

  lemma NewerHalf(l: seq<Snap>, r: seq<Snap>, g: nat, h: nat)
    requires Distinct(l + r) && h in Guids(r) && g !in Guids(r)
    ensures !Before(l + r, h, g)
  {
    DistinctConcat(l, r);
    BeforeConcat(l, r, h, g);
    if Before(l, h, g) {
      BeforeMembers(l, h, g);
    } else if Before(r, h, g) {
      BeforeMembers(r, h, g);
    }
  }

  lemma MiddleFacts(l: seq<Snap>, m: seq<Snap>, r: seq<Snap>, others: set<nat>)
    requires Distinct(l + m + r) && Guids(m + r) !! others
    ensures Compatible(l + m + r, m) && Guids(m) <= Guids(l + m + r) && Guids(m) !! others
    ensures forall g, h :: g in others && h in Guids(m) ==> !Before(l + m + r, h, g)
  {
    SelfCompatible(l + m + r);
    PartCompatible(l + m + r, l, m, r);
    GuidsConcat(m, r);
    assert l + m + r == l + (m + r);
    forall g, h | g in others && h in Guids(m) ensures !Before(l + m + r, h, g) {
      NewerHalf(l, m + r, g, h);
    }
  }

  lemma StreamFacts(a1: seq<Snap>, b: seq<Snap>, p: nat, m: nat, stream: seq<Snap>)
    requires Distinct(a1) && p == LatestShared(a1, b) && p <= m < |a1| && stream == a1[p + 1..m + 1]
    ensures Compatible(a1, stream) && Guids(stream) <= Guids(a1) && Guids(stream) !! Guids(b)
    ensures forall g, h :: g in Guids(b) && h in Guids(stream) ==> !Before(a1, h, g)
  {
    ThreeParts(a1, p + 1, m + 1);
    AfterLatestShared(a1, b);
    MiddleFacts(a1[..p + 1], stream, a1[m + 1..], Guids(b));
  }

  lemma ReceivedCompatible(a1: seq<Snap>, b: seq<Snap>, p: nat, m: nat)
    requires Compatible(a1, b) && p == LatestShared(a1, b) && p <= m < |a1| && NamesApart(a1, b, p, m)
    ensures Compatible(a1, Received(a1, b, p, m))
    ensures Guids(Received(a1, b, p, m)) <= Guids(a1) + Guids(b)
  {
    hide Guids, Names, Compatible, LatestShared, FindGuid, Before;
    var base, stream := b[..FindGuid(b, a1[p].guid) + 1], a1[p + 1..m + 1];
    BaseFacts(a1, b, p, base);
    StreamFacts(a1, b, p, m, stream);
    ConcatCompatible(a1, base, stream);
    GuidsConcat(base, stream);
  }

  /** A stream keeps the two sides comparable and leaves nothing on the destination that neither side had. */
  lemma DeliveredCompatible(a1: seq<Snap>, b: seq<Snap>, b1: seq<Snap>)
    requires Delivered(a1, b, b1) && Compatible(a1, b)
    ensures Compatible(a1, b1) && Guids(b1) <= Guids(a1) + Guids(b)
  {
    if b1 != b {
      var p := LatestShared(a1, b);
      if p >= 0 {
        var m :| IncrementalUpTo(a1, b, b1, p, m);
        ReceivedCompatible(a1, b, p, m);
      } else {
        var n :| FullUpTo(a1, b1, n);
        FullCompatible(a1, b1, n);
      }
    }
  }

  lemma KeptSlice(xs: seq<Snap>, i: nat, j: nat)
    requires i <= j <= |xs|
    ensures Guids(Kept(xs[i..j])) <= Guids(Kept(xs))
  {
    Halves(xs, j);
    Halves(xs[..j], i);
    assert xs[..j][i..] == xs[i..j];
  }

  lemma GrownBy(b: seq<Snap>, base: seq<Snap>, stream: seq<Snap>, known: set<nat>)
    requires Kept(base) == Kept(b) && Guids(Kept(b)) <= known && Guids(Kept(stream)) <= known
    ensures Kept(b) <= Kept(base + stream) && Guids(Kept(base + stream)) <= known
  {
    KeptConcat(base, stream);
  }

  lemma ReceivedWithoutDivergence(a1: seq<Snap>, b: seq<Snap>, p: nat, m: nat)
    requires Compatible(a1, b) && OnlyOnRight(a1, b) == []
    requires p == LatestShared(a1, b) && p <= m < |a1|
    ensures Kept(b) <= Kept(Received(a1, b, p, m))
    ensures Guids(Kept(Received(a1, b, p, m))) <= Guids(Kept(a1))
  {
    hide Kept, Guids, Compatible, OnlyOnRight, LatestShared, FindGuid;
    KeptSlice(a1, p + 1, m + 1);
    NothingPastTheBase(a1, b);
    NoDivergence(a1, b);
    GrownBy(b, b[..FindGuid(b, a1[p].guid) + 1], a1[p + 1..m + 1], Guids(Kept(a1)));
  }

  lemma FullWithoutDivergence(a1: seq<Snap>, b: seq<Snap>, n: nat, b1: seq<Snap>)
    requires OnlyOnRight(a1, b) == [] && LatestShared(a1, b) == -1
    requires FullUpTo(a1, b1, n)
    ensures Kept(b) == [] && Guids(Kept(b1)) <= Guids(Kept(a1))
  {
    NothingAtAll(a1, b);
    KeptSlice(a1, 0, n + 1);
    KeptSlice(a1, n, n + 1);
    assert a1[0..n + 1] == a1[..n + 1] && a1[n..n + 1] == [a1[n]];
  }

  /** Without divergence the operator's snapshots on the destination stay where they are, and all are on the source. */
  lemma DeliveredWithoutDivergence(a1: seq<Snap>, b: seq<Snap>, b1: seq<Snap>)
    requires Delivered(a1, b, b1) && Compatible(a1, b) && OnlyOnRight(a1, b) == []
    ensures Kept(b) <= Kept(b1) && Guids(Kept(b1)) <= Guids(Kept(a1))
  {
    hide Kept, Guids, Compatible, OnlyOnRight, LatestShared;
    if b1 == b {
      NoDivergence(a1, b);
    } else {
      var p := LatestShared(a1, b);
      if p >= 0 {
        var m :| IncrementalUpTo(a1, b, b1, p, m);
        ReceivedWithoutDivergence(a1, b, p, m);
      } else {
        var n :| FullUpTo(a1, b1, n);
        FullWithoutDivergence(a1, b, n, b1);
      }
    }
  }

  /** The operator's view of a receive: what was at or before the base, then the stream. */
  lemma ReceivedKept(a1: seq<Snap>, b: seq<Snap>, p: nat, m: nat)
    requires p <= m < |a1| && a1[p].guid in Guids(b)
    ensures var base, stream := b[..FindGuid(b, a1[p].guid) + 1], a1[p + 1..m + 1];
      && Kept(Received(a1, b, p, m)) == Kept(base) + Kept(stream)
      && Guids(Kept(Received(a1, b, p, m))) == Guids(Kept(base)) + Guids(Kept(stream))
  {
    KeptConcat(b[..FindGuid(b, a1[p].guid) + 1], a1[p + 1..m + 1]);
  }

  lemma LostIsPastTheBase(a1: seq<Snap>, b: seq<Snap>, b1: seq<Snap>, x: Snap)
    requires Delivered(a1, b, b1) && LatestShared(a1, b) >= 0
    requires x in Kept(b) && x !in Kept(b1)
    ensures x in Kept(b[FindGuid(b, a1[LatestShared(a1, b)].guid) + 1..])
  {
    var p := LatestShared(a1, b);
    var m :| IncrementalUpTo(a1, b, b1, p, m);
    ReceivedKept(a1, b, p, m);
    Halves(b, FindGuid(b, a1[p].guid) + 1);
  }

  lemma LostIsUnknown(a1: seq<Snap>, b: seq<Snap>, b1: seq<Snap>, x: Snap)
    requires Delivered(a1, b, b1) && Compatible(a1, b) && x in Kept(b) && x !in Kept(b1)
    ensures x.guid !in Guids(a1)
  {
    if LatestShared(a1, b) >= 0 {
      LostIsPastTheBase(a1, b, b1, x);
      TailIsDestOnly(a1, b);
      var tail := b[FindGuid(b, a1[LatestShared(a1, b)].guid) + 1..];
      MemberGuid(Kept(tail), x);
      KeptGuids(tail);
    } else {
      AfterLatestShared(a1, b);
      assert a1[0..] == a1;
      MemberGuid(Kept(b), x);
      KeptGuids(b);
    }
  }

  /** Whatever is lost was not on the source. */
  lemma DeliveredLosses(a1: seq<Snap>, b: seq<Snap>, b1: seq<Snap>, x: Snap)
    requires Delivered(a1, b, b1) && Compatible(a1, b)
    requires x in Kept(b) && x !in Kept(b1)
    ensures x in OnlyOnRight(a1, b)
  {
    LostIsUnknown(a1, b, b1, x);
    KeptGuids(a1);
    SelectedMember(b, Guids(Kept(a1)), false, x);
  }

  // -------------------------------------------------------------------------
  // The effect of a transfer on the state
  // -------------------------------------------------------------------------

  /** Nothing but the two datasets, and no readonly flag but the destination's, has changed. */
  ghost predicate OnlyPairTouched(s: State, t: State, src: string, dst: string) {
    && (forall d :: d != dst ==> (d in t.snaps <==> d in s.snaps)) && (dst in s.snaps ==> dst in t.snaps)
    && (forall d :: d in s.snaps && d != src && d != dst ==> t.snaps[d] == s.snaps[d])
    && (forall d :: d != dst ==> (d in t.readonly <==> d in s.readonly))
    && t.mounted == s.mounted && t.origin == s.origin && t.pools == s.pools
    && s.nextGuid <= t.nextGuid
  }

  /** To a dataset that does not exist, a stream that fails delivers nothing. */
  lemma StreamFails(a: seq<Snap>, b: seq<Snap>, n: nat, clone: bool, verb: Verb, fault: Fault)
    requires n < |a|
    ensures b == [] && !Stream(a, b, n, clone, verb, fault).1 ==> Stream(a, b, n, clone, verb, fault).0 == []
  {
    hide Names;
    AfterLatestShared(a, b);
  }

  lemma DeliverFrame(s: State, src: string, dst: string, verb: Verb, anchor: string, fault: Fault, t: State, ok: bool)
    requires src != dst && src in s.snaps && anchor in Names(s.snaps[src])
    requires (t, ok) == Deliver(s, src, dst, verb, anchor, fault)
    ensures OnlyPairTouched(s, t, src, dst) && t.snaps[src] == s.snaps[src] && t.nextGuid == s.nextGuid
    ensures ok ==> dst in t.snaps
    ensures !ok || dst in s.snaps ==> t.readonly == s.readonly
    ensures (ListOf(t, dst), ok) ==
      Stream(s.snaps[src], ListOf(s, dst), FindName(s.snaps[src], anchor), src in s.origin, verb, fault)
  {
    hide Names, Guids, Stream;
    StreamFails(s.snaps[src], ListOf(s, dst), FindName(s.snaps[src], anchor), src in s.origin, verb, fault);
  }

  /**
   * A stream that arrived whole: incremental from the base when there is one, else all of the source up to the anchor,
   * or of a clone the anchor alone.
   */
  ghost predicate Complete(a: seq<Snap>, b: seq<Snap>, b1: seq<Snap>, n: nat, clone: bool)
    requires n < |a|
  {
    && a[n] in b1
    && (LatestShared(a, b) >= 0 ==> LatestShared(a, b) < n && b1 == Received(a, b, LatestShared(a, b), n))
    && (LatestShared(a, b) < 0 ==> b1 == if clone then [a[n]] else a[..n + 1])
  }

  lemma ReceiveEffect(a: seq<Snap>, b: seq<Snap>, p: nat, n: nat, clone: bool, fault: Fault)
    requires p == LatestShared(a, b) && n < |a|
    ensures var (b1, ok) := ReceiveIncremental(a, b, p, n, fault);
      Delivered(a, b, b1) && (ok ==> Complete(a, b, b1, n, clone))
  {
    var (b1, ok) := ReceiveIncremental(a, b, p, n, fault);
    if b1 != b {
      var m := if ok then n else p + fault.partial.value;
      assert IncrementalUpTo(a, b, b1, p, m);
    }
    if ok {
      assert a[p + 1..n + 1][n - p - 1] == a[n];
    }
  }

  lemma FullEffect(a: seq<Snap>, b: seq<Snap>, n: nat, standalone: bool)
    requires LatestShared(a, b) == -1 && n < |a|
    ensures Delivered(a, b, FullStream(a, n, standalone)) && Complete(a, b, FullStream(a, n, standalone), n, standalone)
  {
    assert FullUpTo(a, FullStream(a, n, standalone), n);
    assert a[..n + 1][n] == a[n];
  }

  lemma StreamEffect(a: seq<Snap>, b: seq<Snap>, n: nat, clone: bool, verb: Verb, fault: Fault, b1: seq<Snap>, ok: bool)
    requires n < |a| && (b1, ok) == Stream(a, b, n, clone, verb, fault)
    ensures Delivered(a, b, b1)
    ensures ok ==> Complete(a, b, b1, n, clone)
  {
    if LatestShared(a, b) >= 0 {
      ReceiveEffect(a, b, LatestShared(a, b), n, clone, fault);
    } else if ok {
      FullEffect(a, b, n, clone);
    }
  }

  lemma PointersEffect(s: State, src: string, dst: string, mode: Mode, env: Env)
    ensures var t := PointersState(s, src, dst, mode, env).0;
      t == s.(props := t.props)
  {}

  lemma PruneEffect(s: State, src: string, dst: string, anchor: string, env: Env, t: State)
    requires src != dst && src in s.snaps && dst in s.snaps
    requires t == PruneBoth(s, src, dst, anchor, env)
    ensures t == s.(snaps := t.snaps) && OnlyPairTouched(s, t, src, dst)
    ensures t.snaps[src] == Pruned(s.snaps[src], anchor, env.stuckSrc)
    ensures t.snaps[dst] == Pruned(s.snaps[dst], anchor, env.stuckDst)
  {}

  lemma SealedEffect(s: State, dst: string, env: Env, t: State, kept: bool)
    requires (t, kept) == Sealed(s, dst, env)
    ensures t == s.(props := t.props, readonly := t.readonly)
    ensures forall d :: d != dst ==> (d in t.readonly <==> d in s.readonly)
    ensures kept ==> dst in t.readonly
  {}

  lemma SettleEffect(s: State, src: string, dst: string, verb: Verb, anchor: string, env: Env, t: State, o: Outcome)
    requires src != dst && src in s.snaps && dst in s.snaps
    requires (t, o) == Settle(s, src, dst, verb, anchor, env)
    ensures OnlyPairTouched(s, t, src, dst) && t.nextGuid == s.nextGuid
    ensures Thinned(s.snaps[src], t.snaps[src]) && Thinned(s.snaps[dst], t.snaps[dst])
    ensures o == Sent || o == Failed
    ensures o == Failed ==> t.snaps == s.snaps
    ensures o == Sent ==> dst in t.readonly && t.snaps[src] == Pruned(s.snaps[src], anchor, env.stuckSrc)
    ensures o == Sent ==> t.snaps[dst] == Pruned(s.snaps[dst], anchor, env.stuckDst)
  {
    var (s1, kept) := Sealed(s, dst, env);
    SealedEffect(s, dst, env, s1, kept);
    if kept {
      var (s2, ok) := if verb.Push? then PointersState(s1, src, dst, verb.mode, env) else (s1, true);
      if verb.Push? {
        PointersEffect(s1, src, dst, verb.mode, env);
      }
      if ok {
        PruneEffect(s2, src, dst, anchor, env, t);
      }
    }
  }

  ghost predicate Concluded(a1: seq<Snap>, b1: seq<Snap>, t: State, src: string, dst: string, anchor: string, env: Env)
    requires src in t.snaps && dst in t.snaps
  {
    && anchor in Names(a1)
    && t.snaps[src] == Pruned(a1, anchor, env.stuckSrc)
    && t.snaps[dst] == Pruned(b1, anchor, env.stuckDst)
  }

  /** What a transfer that goes ahead does: from `a1` on the source it delivers `b1`, then thins out anchors. */
  ghost predicate Transferred(s: State, t: State, o: Outcome, src: string, dst: string,
                              a1: seq<Snap>, b1: seq<Snap>, anchor: string, env: Env)
  {
    && o != Refused && src in t.snaps && OnlyPairTouched(s, t, src, dst)
    && Delivered(a1, ListOf(s, dst), b1)
    && Thinned(a1, t.snaps[src]) && Thinned(b1, ListOf(t, dst))
    && (o == Failed ==> t.snaps[src] == a1 && ListOf(t, dst) == b1)
    && (o == Sent ==> dst in t.readonly && dst in t.snaps && Concluded(a1, b1, t, src, dst, anchor, env))
    && (o == Sent ==> Complete(a1, ListOf(s, dst), b1, FindName(a1, anchor), src in s.origin))
  }

  lemma TouchedTwice(s: State, s1: State, t: State, src: string, dst: string)
    requires OnlyPairTouched(s, s1, src, dst) && OnlyPairTouched(s1, t, src, dst)
    ensures OnlyPairTouched(s, t, src, dst)
  {}

  lemma SentEffect(s: State, src: string, dst: string, verb: Verb, anchor: string, lifted: bool, env: Env,
                   s1: State, ok: bool, t: State, o: Outcome)
    returns (b1: seq<Snap>)
    requires src != dst && src in s.snaps && anchor in Names(s.snaps[src])
    requires (s1, ok) == Deliver(s, src, dst, verb, anchor, env.fault)
    requires if !ok then (t, o) == (Restored(s1, dst, lifted, env), Failed)
             else (t, o) == Settle(s1, src, dst, verb, anchor, env)
    ensures Transferred(s, t, o, src, dst, s.snaps[src], b1, anchor, env) && t.nextGuid == s.nextGuid
  {
    b1 := ListOf(s1, dst);
    DeliverFrame(s, src, dst, verb, anchor, env.fault, s1, ok);
    StreamEffect(s.snaps[src], ListOf(s, dst), FindName(s.snaps[src], anchor), src in s.origin, verb, env.fault, b1,
      ok);
    if ok {
      SettleEffect(s1, src, dst, verb, anchor, env, t, o);
      TouchedTwice(s, s1, t, src, dst);
    } else {
      TouchedTwice(s, s1, t, src, dst);
    }
  }

  lemma LiftedEffect(s: State, src: string, dst: string, verb: Verb, anchor: string, lifted: bool, env: Env, t: State,
                     o: Outcome)
    returns (b1: seq<Snap>)
    requires src != dst && src in s.snaps && anchor in Names(s.snaps[src])
    requires (t, o) == LiftedState(s, src, dst, verb, anchor, lifted, env)
    ensures Transferred(s, t, o, src, dst, s.snaps[src], b1, anchor, env) && t.nextGuid == s.nextGuid
  {
    b1 := ListOf(s, dst);
    if verb.Mirror? && dst in s.snaps && LatestShared(s.snaps[src], s.snaps[dst]) == FindName(s.snaps[src], anchor) {
      PruneEffect(s, src, dst, anchor, env, t);
    } else {
      var (s1, ok) := Deliver(s, src, dst, verb, anchor, env.fault);
      b1 := SentEffect(s, src, dst, verb, anchor, lifted, env, s1, ok, t, o);
    }
  }

  lemma TransmitEffect(s: State, src: string, dst: string, verb: Verb, anchor: string, env: Env, t: State, o: Outcome)
    returns (b1: seq<Snap>)
    requires src != dst && src in s.snaps && anchor in Names(s.snaps[src])
    requires (t, o) == TransmitState(s, src, dst, verb, anchor, env)
    ensures Transferred(s, t, o, src, dst, s.snaps[src], b1, anchor, env) && t.nextGuid == s.nextGuid
  {
    b1 := ListOf(s, dst);
    var lifted := LiftsReadonly(s, dst, verb);
    if !(lifted && env.fault.AtReadonlyOff?) {
      b1 := LiftedEffect(Lifted(s, dst, verb), src, dst, verb, anchor, lifted, env, t, o);
      assert ListOf(Lifted(s, dst, verb), dst) == ListOf(s, dst);
    }
  }

  /** The source's list as it is sent: with its fresh anchor unless the transfer is bounded. */
  function SourceList(s: State, src: string, bound: Option<string>, env: Env): seq<Snap>
    requires src in s.snaps
  {
    if bound.Some? then s.snaps[src] else WithSnapshot(s, src, AnchorName(bound, env)).snaps[src]
  }

  lemma UnboundedEffect(s: State, src: string, dst: string, verb: Verb, anchor: string, env: Env, t: State, o: Outcome)
    returns (a1: seq<Snap>, b1: seq<Snap>)
    requires src != dst && src in s.snaps && anchor !in Names(s.snaps[src]) && IsAnchor(anchor)
    requires anchor in Names(WithSnapshot(s, src, anchor).snaps[src])
    requires (t, o) == TransmitState(WithSnapshot(s, src, anchor), src, dst, verb, anchor, env)
    ensures Transferred(s, t, o, src, dst, a1, b1, anchor, env)
    ensures Anchored(s.snaps[src], a1, s.nextGuid) && s.nextGuid < t.nextGuid
    ensures a1 == WithSnapshot(s, src, anchor).snaps[src]
  {
    hide Names, TransmitState, Delivered, Thinned, Concluded, Complete;
    var s1 := WithSnapshot(s, src, anchor);
    a1 := s1.snaps[src];
    b1 := TransmitEffect(s1, src, dst, verb, anchor, env, t, o);
    assert a1[..|s.snaps[src]|] == s.snaps[src];
    assert ListOf(s1, dst) == ListOf(s, dst);
  }

  /** The whole effect of a transfer that goes ahead: anchor, stream, prune. */
  lemma SendEffect(s: State, src: string, dst: string, verb: Verb, bound: Option<string>, env: Env, t: State,
                   o: Outcome)
    returns (a1: seq<Snap>, b1: seq<Snap>)
    requires src != dst && src in s.snaps && (bound.Some? ==> bound.value in Names(s.snaps[src]))
    requires (t, o) == SendState(s, src, dst, verb, bound, env)
    ensures Transferred(s, t, o, src, dst, a1, b1, AnchorName(bound, env), env)
    ensures Anchored(s.snaps[src], a1, s.nextGuid) && (a1 != s.snaps[src] ==> s.nextGuid < t.nextGuid)
    ensures o == Sent ==> a1 == SourceList(s, src, bound, env)
  {
    var anchor, a := AnchorName(bound, env), s.snaps[src];
    if bound.Some? {
      a1 := a;
      b1 := TransmitEffect(s, src, dst, verb, anchor, env, t, o);
    } else if !env.fault.AtSnapshot? && anchor !in Names(a) {
      a1, b1 := UnboundedEffect(s, src, dst, verb, anchor, env, t, o);
    } else {
      a1, b1 := a, ListOf(s, dst);
    }
  }
}
