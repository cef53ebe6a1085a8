// What `status` says about a pair and what a push would then do; which boot environment
// `snapshot` takes for the active one.

module Status {
  import opened Text
  import opened Snapshots
  import opened World
  import opened Transfer
  import opened Safety
  import opened Guarantees
  import opened Progress
  import opened Default

  datatype PairStatus =
    | InSync | Ahead(ahead: nat) | Behind(behind: nat) | Diverged(both: nat, peerOnly: nat)
    | TargetMissing | PoolNotImported

  lemma NoneLeft(a: set<nat>, b: set<nat>)
    ensures |a - b| == 0 <==> a <= b
  {
    if a <= b {
      assert a - b == {};
    } else {
      var x :| x in a && x !in b;
      assert x in a - b;
    }
  }

  function FromGuids(local: set<nat>, peer: Option<set<nat>>, peerExists: bool): (r: PairStatus)
    ensures r.PoolNotImported? <==> peer.None?
    ensures r.TargetMissing? <==> peer.Some? && !peerExists
    ensures peer.Some? && peerExists ==> (r.InSync? <==> local == peer.value)
    ensures peer.Some? && peerExists ==> (r.Ahead? <==> peer.value < local) && (r.Behind? <==> local < peer.value)
  {
    if peer.None? then PoolNotImported
    else if !peerExists then TargetMissing
    else
      var ahead, behind := |local - peer.value|, |peer.value - local|;
      assert (ahead == 0 <==> local <= peer.value) && (behind == 0 <==> peer.value <= local) by {
        NoneLeft(local, peer.value);
        NoneLeft(peer.value, local);
      }
      if ahead == 0 && behind == 0 then InSync
      else if behind == 0 then Ahead(ahead)
      else if ahead == 0 then Behind(behind)
      else Diverged(ahead, behind)
  }

  /** The marker for two existing sides, anchors left out. */
  function StatusOf(a: seq<Snap>, b: seq<Snap>): PairStatus {
    FromGuids(Guids(Kept(a)), Some(Guids(Kept(b))), true)
  }

  lemma KeptLast(init: seq<Snap>, last: Snap, xs: seq<Snap>)
    requires xs != [] && init == xs[..|xs| - 1] && last == xs[|xs| - 1]
    ensures Guids(Kept(xs)) == Guids(Kept(init)) + if IsAnchor(last.name) then {} else {last.guid}
  {
    AppendLast(Kept(init), last);
  }

  lemma OneMore(a: set<nat>, x: nat, others: set<nat>)
    requires x !in a
    ensures |a + {x} - others| == |a - others| + if x in others then 0 else 1
  {
    assert a + {x} - others == if x in others then a - others else (a - others) + {x};
  }

  /** The numbers are those of the snapshots a divergence prompt would list. */
  lemma {:induction false} SelectedCount(xs: seq<Snap>, guids: set<nat>)
    requires Distinct(xs)
    ensures |Selected(xs, guids, false)| == |Guids(Kept(xs)) - guids|
  {
    if xs != [] {
      var init, last := xs[..|xs| - 1], xs[|xs| - 1];
      SelectedCount(init, guids);
      KeptGuids(init);
      KeptLast(init, last, xs);
      OneMore(Guids(Kept(init)), last.guid, guids);
    }
  }

  lemma StatusCounts(a: seq<Snap>, b: seq<Snap>)
    requires Distinct(a) && Distinct(b)
    ensures var ahead, behind := |OnlyOnRight(b, a)|, |OnlyOnRight(a, b)|;
      StatusOf(a, b) ==
        if ahead == 0 && behind == 0 then InSync else if behind == 0 then Ahead(ahead)
        else if ahead == 0 then Behind(behind) else Diverged(ahead, behind)
  {
    hide Kept, Guids, Distinct, Selected;
    SelectedCount(a, Guids(Kept(b)));
    SelectedCount(b, Guids(Kept(a)));
  }

  /** An unforced push is refused for divergence exactly when the marker shows the peer has something of its own. */
  lemma StatusPredictsDivergence(a: seq<Snap>, b: seq<Snap>)
    requires Distinct(a) && Distinct(b)
    ensures OnlyOnRight(a, b) == [] <==> StatusOf(a, b).InSync? || StatusOf(a, b).Ahead?
    ensures OnlyOnRight(b, a) == [] <==> StatusOf(a, b).InSync? || StatusOf(a, b).Behind?
  {
    hide StatusOf, OnlyOnRight, Distinct;
    StatusCounts(a, b);
  }

  /**
   * ... so the marker decides, with the anchor's name free and no name clash in the stream, whether a plain push
   * arrives.
   */
  lemma StatusPredictsPush(s: State, src: string, dst: string, env: Env)
    requires Ready(s, src, dst) && dst in s.snaps && env.fault.NoFault? && !Live(s, dst)
    requires AnchorName(None, env) !in Names(s.snaps[src])
    requires var a := s.snaps[src] + [Snap(AnchorName(None, env), s.nextGuid)];
      Streamable(a, s.snaps[dst], |a| - 1, src in s.origin, Push(Existing))
    ensures TransferState(s, src, dst, Push(Existing), None, false, env).1 == Sent <==>
      StatusOf(s.snaps[src], s.snaps[dst]).InSync? || StatusOf(s.snaps[src], s.snaps[dst]).Ahead?
  {
    hide StatusOf, OnlyOnRight, Distinct, TransferState, Streamable, Names;
    StatusPredictsDivergence(s.snaps[src], s.snaps[dst]);
    UnboundedSucceedsExactly(s, src, dst, Push(Existing), false, env);
  }

  /** What the receiver holds up to the newest snapshot the two share. */
  function UpToBase(a: seq<Snap>, b: seq<Snap>): seq<Snap>
    requires LatestShared(a, b) >= 0
  {
    b[..FindGuid(b, a[LatestShared(a, b)].guid) + 1]
  }

  /** Sent whole on top of the base, the two sides compare as they did up to it. */
  lemma SentWhole(a: seq<Snap>, b: seq<Snap>, b2: seq<Snap>)
    requires a != [] && Distinct(a) && Incremental(a, b, b2, |a| - 1)
    ensures StatusOf(a, b2) == StatusOf(a[..LatestShared(a, b) + 1], UpToBase(a, b))
  {
    hide Kept, Guids, LatestShared, FindGuid, Distinct;
    var p, base := LatestShared(a, b), UpToBase(a, b);
    var sent := a[p + 1..];
    assert a[p + 1..|a|] == sent;
    Halves(a, p + 1);
    Halves(b, |base|);
    GuidsConcat(Kept(base), Kept(sent));
    KeptGuids(a[..p + 1]);
    KeptGuids(sent);
    KeptGuids(base);
    AfterLatestShared(a, b);
    assert Guids(Kept(a)) - Guids(Kept(b2)) == Guids(Kept(a[..p + 1])) - Guids(Kept(base));
    assert Guids(Kept(b2)) - Guids(Kept(a)) == Guids(Kept(base)) - Guids(Kept(a[..p + 1]));
  }

  lemma InSyncExactly(a: seq<Snap>, b: seq<Snap>)
    ensures StatusOf(a, b).InSync? <==> Guids(Kept(a)) == Guids(Kept(b))
  {
    hide Guids, Kept;
  }

  lemma SameStatus(a: seq<Snap>, a2: seq<Snap>, b: seq<Snap>)
    requires Kept(a) == Kept(a2)
    ensures StatusOf(a, b) == StatusOf(a2, b)
  {}

  lemma FreshIsDistinct(a: seq<Snap>, b: seq<Snap>, x: Snap)
    requires Compatible(a, b) && Below(a, x.guid) && x.name !in Names(a)
    ensures Distinct(a + [x])
  {
    hide Names, Guids;
    AppendLast(a, x);
  }

  /**
   * After a completed unbounded transfer on a common base the marker is what it would have been for the two sides up to
   * the base alone: in sync exactly when they held the same operator snapshots so far.
   */
  lemma StatusAfterTransfer(s: State, src: string, dst: string, verb: Verb, force: bool, env: Env, t: State)
    requires Ready(s, src, dst) && (t, Sent) == TransferState(s, src, dst, verb, None, force, env)
    requires LatestShared(s.snaps[src], ListOf(s, dst)) >= 0
    ensures var a, b := s.snaps[src], ListOf(s, dst);
      var sent, kept := a[..LatestShared(a, b) + 1], UpToBase(a, b);
      && src in t.snaps && StatusOf(t.snaps[src], ListOf(t, dst)) == StatusOf(sent, kept)
      && (StatusOf(t.snaps[src], ListOf(t, dst)).InSync? <==> Guids(Kept(sent)) == Guids(Kept(kept)))
  {
    hide TransferState, Names, Guids, Kept, Compatible, LatestShared, FindName, FindGuid, Pruned, AnchorName, StatusOf,
         Incremental, Delivered, Complete, Thinned;
    var a, b, x := s.snaps[src], ListOf(s, dst), Snap(AnchorName(None, env), s.nextGuid);
    SentIsFresh(s, src, dst, verb, force, env, t);
    FreshKeepsBase(a, x, b);
    var a1, b1 := SentEffects(s, src, dst, verb, None, force, env, t);
    assert a1 == a + [x];
    PrunedKeeps(a1, x.name, env.stuckSrc);
    SameStatus(t.snaps[src], a1, ListOf(t, dst));
    CompleteIsIncremental(a1, b, b1, ListOf(t, dst), |a|, src in s.origin);
    FreshIsDistinct(a, b, x);
    SentWhole(a1, b, ListOf(t, dst));
    assert a1[..LatestShared(a, b) + 1] == a[..LatestShared(a, b) + 1];
    InSyncExactly(a[..LatestShared(a, b) + 1], UpToBase(a, b));
  }

  // -------------------------------------------------------------------------
  // The active boot environment
  // -------------------------------------------------------------------------

  /** The pool boots one of its own boot environments. */
  predicate Booting(s: State, q: string) {
    q in s.pools.bootfs && s.pools.bootfs[q] in s.props.bes && PoolOf(s.pools.bootfs[q]) == q
  }

  /** The first pool listed that does decides. */
  function FindActive(s: State, pools: seq<string>): Option<string> {
    if pools == [] then None
    else
      var r := FindActive(s, pools[..|pools| - 1]);
      if r.Some? then r
      else if Booting(s, pools[|pools| - 1]) then Some(s.pools.bootfs[pools[|pools| - 1]]) else None
  }

  lemma {:induction false} FoundFirst(s: State, pools: seq<string>, n: nat)
    requires n <= |pools| && FindActive(s, pools[..n]).Some?
    ensures FindActive(s, pools) == FindActive(s, pools[..n])
    decreases |pools|
  {
    if n == |pools| {
      assert pools[..n] == pools;
    } else {
      assert pools[..|pools| - 1][..n] == pools[..n];
      FoundFirst(s, pools[..|pools| - 1], n);
    }
  }

  lemma {:induction false} FoundAmong(s: State, pools: seq<string>)
    ensures match FindActive(s, pools)
      case Some(be) => exists q :: q in pools && Booting(s, q) && s.pools.bootfs[q] == be
      case None => forall q :: q in pools ==> !Booting(s, q)
  {
    hide Booting;
    if pools != [] {
      FoundAmong(s, pools[..|pools| - 1]);
      assert pools == pools[..|pools| - 1] + [pools[|pools| - 1]];
    }
  }

  /** No pool of these boots one of its own boot environments. */
  ghost predicate NoneBoots(s: State, pools: seq<string>) {
    forall q :: q in pools && q in s.pools.bootfs ==>
      s.pools.bootfs[q] !in s.props.bes || PoolOf(s.pools.bootfs[q]) != q
  }

  method FindActiveBe(s: State, pools: seq<string>) returns (r: Option<string>)
    ensures r == FindActive(s, pools)
    ensures r.Some? ==> r.value in s.props.bes && PoolOf(r.value) in pools
    ensures r.Some? ==> PoolOf(r.value) in s.pools.bootfs && s.pools.bootfs[PoolOf(r.value)] == r.value
    ensures r.Some? ==> exists i :: 0 <= i < |pools| && pools[i] == PoolOf(r.value) && NoneBoots(s, pools[..i])
    ensures r.None? ==> NoneBoots(s, pools)
  {
    hide PoolOf;
    FoundAmong(s, pools);
    for i := 0 to |pools|
      invariant FindActive(s, pools[..i]) == None
    {
      assert pools[..i + 1][..i] == pools[..i];
      if Booting(s, pools[i]) {
        FoundFirst(s, pools, i + 1);
        FoundAmong(s, pools[..i]);
        return Some(s.pools.bootfs[pools[i]]);
      }
    }
    assert pools[..|pools|] == pools;
    r := None;
  }

  /** Some listing starts with any given pool. */
  lemma {:induction false} ListingFrom(all: set<string>, q: string) returns (xs: seq<string>)
    requires q in all
    ensures Lists(xs, all) && xs != [] && xs[0] == q
    decreases |all|
  {
    xs := [q];
    if all != {q} {
      var r :| r in all && r != q;
      var rest := ListingFrom(all - {r}, q);
      xs := rest + [r];
    } else {
      assert forall x :: x in all <==> x == q;
    }
  }

  lemma StartsActive(s: State, xs: seq<string>)
    requires xs != [] && Booting(s, xs[0])
    ensures FindActive(s, xs) == Some(s.pools.bootfs[xs[0]])
  {
    assert xs[..1][..0] == [];
    assert FindActive(s, xs[..1]) == Some(s.pools.bootfs[xs[0]]);
    FoundFirst(s, xs, 1);
  }

  /**
   * Which boot environment is taken for active does not hang on the order pools are listed in exactly when at most
   * one boots.
   */
  lemma ActiveIsUnambiguous(s: State, all: set<string>)
    ensures (forall xs, ys :: Lists(xs, all) && Lists(ys, all) ==> FindActive(s, xs) == FindActive(s, ys)) <==>
      forall q, r :: q in all && r in all && Booting(s, q) && Booting(s, r) ==> q == r
  {
    hide FindActive;
    if q, r :| q in all && r in all && Booting(s, q) && Booting(s, r) && q != r {
      var xs := ListingFrom(all, q);
      var ys := ListingFrom(all, r);
      StartsActive(s, xs);
      StartsActive(s, ys);
      assert FindActive(s, xs) != FindActive(s, ys);
    } else {
      forall xs, ys | Lists(xs, all) && Lists(ys, all) ensures FindActive(s, xs) == FindActive(s, ys) {
        FoundAmong(s, xs);
        FoundAmong(s, ys);
      }
    }
  }
}
