// The common base: once a transfer has completed, the two sides of a pair never lose it,
// and every later unbounded transfer is incremental.

module Links {
  import opened Text
  import opened Snapshots
  import opened World
  import opened Transfer
  import opened Safety
  import opened Guarantees
  import opened Default
  import opened PairRuns
  import P = Primary

  ghost predicate Linked(s: State, a: string, b: string) {
    !(Guids(ListOf(s, a)) !! Guids(ListOf(s, b)))
  }

  /** Two lists share a snapshot exactly when the base search finds one. */
  lemma BaseIsFound(a: seq<Snap>, b: seq<Snap>)
    ensures LatestShared(a, b) >= 0 <==> !(Guids(a) !! Guids(b))
  {
    var p := LatestShared(a, b);
    if p >= 0 {
      GuidAt(a, p);
      assert a[p].guid in Guids(a) * Guids(b);
    } else {
      AfterLatestShared(a, b);
      assert a[0..] == a;
    }
  }

  ghost predicate Meet(xs: seq<Snap>, ys: seq<Snap>) {
    !(Guids(xs) !! Guids(ys))
  }

  lemma MeetAt(xs: seq<Snap>, ys: seq<Snap>, g: nat)
    requires g in Guids(xs) && g in Guids(ys)
    ensures Meet(xs, ys)
  {
    hide Guids;
    assert g in Guids(xs) * Guids(ys);
  }

  /** A stream, whole or cut short, keeps what the two sides share. */
  lemma DeliveredMeets(a1: seq<Snap>, b: seq<Snap>, b1: seq<Snap>)
    requires Delivered(a1, b, b1) && Meet(a1, b)
    ensures Meet(a1, b1)
  {
    hide Guids, LatestShared, FindGuid;
    BaseIsFound(a1, b);
    if b1 != b {
      var p := LatestShared(a1, b);
      var m :| IncrementalUpTo(a1, b, b1, p, m);
      var q := FindGuid(b, a1[p].guid);
      GuidAt(a1, p);
      assert b1[q] == b[q];
      GuidAt(b1, q);
      MeetAt(a1, b1, a1[p].guid);
    }
  }

  lemma AnchoredMeets(a: seq<Snap>, a1: seq<Snap>, b: seq<Snap>, guid: nat)
    requires Anchored(a, a1, guid) && Meet(a, b)
    ensures Meet(a1, b)
  {
    hide Guids;
    PrefixGuids(a, a1);
  }

  lemma SendFails(s: State, src: string, dst: string, verb: Verb, bound: Option<string>, env: Env, t: State, o: Outcome)
    requires Ready(s, src, dst)
    requires (bound.Some? ==> bound.value in Names(s.snaps[src])) && (verb.Mirror? ==> bound.None?)
    requires (t, o) == SendState(s, src, dst, verb, bound, env) && o != Sent
    ensures o == Failed
  {
    hide Guids, SendState, Names, Compatible;
    SendNeverRewinds(s, src, dst, verb, bound, env, t, o);
    if o == NoOp {
      NoOpMeansSelf(s, src, dst, verb, bound, env, t);
    }
  }

  lemma SendKeepsLink(s: State, src: string, dst: string, verb: Verb, bound: Option<string>, env: Env, t: State,
                      o: Outcome)
    requires Ready(s, src, dst)
    requires (bound.Some? ==> bound.value in Names(s.snaps[src])) && (verb.Mirror? ==> bound.None?)
    requires (t, o) == SendState(s, src, dst, verb, bound, env)
    requires Linked(s, src, dst)
    ensures Linked(t, src, dst)
  {
    hide Guids, Kept, SendState, Names;
    var a1, b1 := SendStaysReady(s, src, dst, verb, bound, env, t, o);
    if o == Sent {
      var x := AnchorStays(s, t, src, dst, a1, b1, AnchorName(bound, env), env);
      MemberGuid(t.snaps[src], x);
      MemberGuid(t.snaps[dst], x);
      MeetAt(t.snaps[src], t.snaps[dst], x.guid);
    } else {
      SendFails(s, src, dst, verb, bound, env, t, o);
      AnchoredMeets(s.snaps[src], a1, ListOf(s, dst), s.nextGuid);
      DeliveredMeets(a1, ListOf(s, dst), b1);
    }
  }

  // -------------------------------------------------------------------------
  // Each step
  // -------------------------------------------------------------------------

  /** The snapshot a rewind would go back to is one the other side has too. */
  predicate BoundIsShared(s: State, src: string, dst: string, bound: string) {
    bound in Names(ListOf(s, dst)) ==> ListOf(s, dst)[FindName(ListOf(s, dst), bound)].guid in Guids(ListOf(s, src))
  }

  /** On the rail every operator snapshot of a readonly side is such a snapshot. */
  lemma RailSharesBound(s: State, src: string, dst: string, bound: string)
    requires Rail(s, src, dst) && dst in s.readonly && !IsAnchor(bound)
    ensures BoundIsShared(s, src, dst, bound)
  {
    hide Guids, Kept, Names, Before, Distinct;
    var b := s.snaps[dst];
    if bound in Names(b) {
      var x := b[FindName(b, bound)];
      KeptMembers(b);
      MemberGuid(Kept(b), x);
      KeptGuids(s.snaps[src]);
    }
  }

  lemma RewindKeepsLink(s: State, src: string, dst: string, verb: Verb, bound: string, env: Env, t: State, o: Outcome)
    requires Ready(s, src, dst) && dst in s.snaps && BoundIsShared(s, src, dst, bound) && Linked(s, src, dst)
    requires (t, o) == RewindState(s, dst, verb, bound, env)
    ensures Linked(t, src, dst)
  {
    hide Guids, RewindState, Names, Compatible, FindName;
    RewindEffect(s, src, dst, verb, bound, env, t, o);
    var b := s.snaps[dst];
    if ListOf(t, dst) != b {
      var k := FindName(b, bound);
      assert b[..k + 1][k] == b[k];
      GuidAt(b[..k + 1], k);
      MeetAt(s.snaps[src], b[..k + 1], b[k].guid);
    }
  }

  lemma MoveKeepsLink(s: State, src: string, dst: string, verb: Verb, bound: Option<string>, force: bool, env: Env)
    requires Ready(s, src, dst) && (verb.Mirror? ==> bound.None?) && Linked(s, src, dst)
    requires force && bound.Some? ==> BoundIsShared(s, src, dst, bound.value)
    ensures Linked(TransferState(s, src, dst, verb, bound, force, env).0, src, dst)
  {
    hide Guids, SendState, RewindState, Names, Compatible, BoundIsShared;
    var (t, o) := TransferState(s, src, dst, verb, bound, force, env);
    if bound.Some? && bound.value !in Names(s.snaps[src]) {
    } else if PlanTransfer(s, src, dst, bound, force, env) == Send {
      SendKeepsLink(s, src, dst, verb, bound, env, t, o);
    } else if PlanTransfer(s, src, dst, bound, force, env) == Rewind {
      RewindKeepsLink(s, src, dst, verb, bound.value, env, t, o);
    }
  }

  lemma GrownListsKeepLink(s: State, t: State, a: string, b: string)
    requires Linked(s, a, b) && ListOf(s, a) <= ListOf(t, a) && ListOf(s, b) <= ListOf(t, b)
    ensures Linked(t, a, b)
  {
    hide Guids;
    PrefixGuids(ListOf(s, a), ListOf(t, a));
    PrefixGuids(ListOf(s, b), ListOf(t, b));
  }

  /** Permitted, with mirror unbounded as the verb is, and rewinds only to shared snapshots. */
  ghost predicate LinkPermitted(s: State, c: Command, a: string, b: string) {
    && Permitted(s, c, a, b)
    && (c.Move? ==>
         && (c.verb.Mirror? ==> c.bound.None?)
         && (c.force && c.bound.Some? && IsAnchor(c.bound.value) ==> BoundIsShared(s, c.src, c.dst, c.bound.value)))
  }

  lemma SameLists(s: State, target: string, stuck: set<string>)
    ensures DefaultState(s, target, stuck).snaps == s.snaps
    ensures forall u :: Midway(s, u, target, stuck) ==> u.snaps == s.snaps
  {
    hide LosersFirst, PartlyToggled;
  }

  lemma StepKeepsLink(s: State, c: Command, a: string, b: string)
    requires Rail(s, a, b) && LinkPermitted(s, c, a, b) && Linked(s, a, b)
    ensures Linked(Step(s, c), a, b)
  {
    hide Guids, Kept, Names, TransferState, DefaultState, P.PrimaryState, P.Mutual, BoundIsShared, InSync,
         Midway;
    RailSym(s, a, b);
    match c {
      case Move(verb, src, dst, bound, force, env) =>
        if force && bound.Some? && !IsAnchor(bound.value) {
          RailSharesBound(s, src, dst, bound.value);
        }
        MoveKeepsLink(s, src, dst, verb, bound, force, env);
      case MakePrimary(be, stamp, fault) =>
        var (t, o) := P.PrimaryState(s, be, stamp, fault);
        P.PrimaryEffect(s, be, stamp, fault, t, o);
        GrownListsKeepLink(s, t, a, b);
      case MakeDefault(target, stuck) =>
        if target in Bes(s) {
          SameLists(s, target, stuck);
        }
      case CutDefault(target, stuck, at) =>
        SameLists(s, target, stuck);
      case _ =>
        GrownListsKeepLink(s, Step(s, c), a, b);
    }
  }

  // -------------------------------------------------------------------------
  // Whole runs
  // -------------------------------------------------------------------------

  ghost predicate AllLinkPermitted(s: State, cs: seq<Command>, a: string, b: string) {
    cs == [] ||
    (AllLinkPermitted(s, cs[..|cs| - 1], a, b) && LinkPermitted(Exec(s, cs[..|cs| - 1]), cs[|cs| - 1], a, b))
  }

  lemma {:induction false} RunKeepsLink(s: State, cs: seq<Command>, a: string, b: string)
    requires Rail(s, a, b) && Linked(s, a, b) && AllLinkPermitted(s, cs, a, b)
    ensures Rail(Exec(s, cs), a, b) && Linked(Exec(s, cs), a, b)
  {
    hide Rail, Permitted, Step, Linked;
    if cs != [] {
      var before := Exec(s, cs[..|cs| - 1]);
      RunKeepsLink(s, cs[..|cs| - 1], a, b);
      StepKeepsRail(before, cs[|cs| - 1], a, b);
      StepKeepsLink(before, cs[|cs| - 1], a, b);
    }
  }

  /** A completed transfer links the two sides. */
  lemma CompletedTransferLinks(s: State, src: string, dst: string, verb: Verb, bound: Option<string>, force: bool,
                               env: Env, t: State)
    requires Ready(s, src, dst) && (t, Sent) == TransferState(s, src, dst, verb, bound, force, env)
    ensures Linked(t, src, dst) && Linked(t, dst, src)
  {
    hide Guids, TransferState;
    var x := AnchorOnBothSides(s, src, dst, verb, bound, force, env, t);
    MemberGuid(ListOf(t, src), x);
    MemberGuid(ListOf(t, dst), x);
    MeetAt(ListOf(t, src), ListOf(t, dst), x.guid);
  }

  /** A snapshot of the source the prune leaves there. */
  predicate Outlives(x: Snap, bound: Option<string>, env: Env) {
    IsAnchor(x.name) ==> x.name == AnchorName(bound, env) || x.name in env.stuckSrc
  }

  lemma MeetsWith(xs: seq<Snap>, ys: seq<Snap>)
    ensures Meet(xs, ys) <==> exists x :: x in xs && x.guid in Guids(ys)
  {
    hide Guids;
    if Meet(xs, ys) {
      var g :| g in Guids(xs) && g in Guids(ys);
      assert xs[FindGuid(xs, g)] in xs;
    } else if x :| x in xs && x.guid in Guids(ys) {
      MemberGuid(xs, x);
      MeetAt(xs, ys, x.guid);
    }
  }

  /** The fresh anchor is on no other dataset. */
  lemma SourceMembers(s: State, src: string, bound: Option<string>, env: Env, ys: seq<Snap>)
    requires src in s.snaps && Below(ys, s.nextGuid)
    ensures forall x: Snap :: x.guid in Guids(ys) ==> (x in SourceList(s, src, bound, env) <==> x in s.snaps[src])
  {
    hide Guids, AnchorName;
    assert bound.None? ==> SourceList(s, src, bound, env) == s.snaps[src] + [Snap(AnchorName(bound, env), s.nextGuid)];
  }

  /**
   * A primary with several targets: a completed transfer to one of them leaves the source a snapshot it shares with
   * another exactly when one of those they shared is no anchor, is the bound, or could not be destroyed.
   */
  lemma OtherBaseSurvives(s: State, src: string, dst: string, other: string, verb: Verb, bound: Option<string>,
                          force: bool, env: Env, t: State)
    requires Ready(s, src, dst) && other != src && other != dst && Below(ListOf(s, other), s.nextGuid)
    requires (t, Sent) == TransferState(s, src, dst, verb, bound, force, env)
    ensures Linked(t, src, other) <==>
      exists x :: x in s.snaps[src] && x.guid in Guids(ListOf(s, other)) && Outlives(x, bound, env)
  {
    hide TransferState, Guids, Names, Pruned, Delivered, Complete, Thinned, FindName, IsAnchor, AnchorName, Compatible,
         SourceList, Below;
    var a1, b1 := SentEffects(s, src, dst, verb, bound, force, env, t);
    var ys := ListOf(s, other);
    MeetsWith(t.snaps[src], ys);
    PrunedMembers(a1, AnchorName(bound, env), env.stuckSrc);
    SourceMembers(s, src, bound, env, ys);
  }

  /** Between linked datasets a completed unbounded transfer is incremental. */
  lemma LinkedTransferIsIncremental(s: State, src: string, dst: string, verb: Verb, force: bool, env: Env, t: State)
    requires Ready(s, src, dst) && Linked(s, src, dst)
    requires (t, Sent) == TransferState(s, src, dst, verb, None, force, env)
    ensures var a := SourceList(s, src, None, env);
      Incremental(a, ListOf(s, dst), ListOf(t, dst), FindName(a, AnchorName(None, env)))
  {
    hide Guids, TransferState, LatestShared;
    var a := SourceList(s, src, None, env);
    PrefixGuids(s.snaps[src], a);
    BaseIsFound(a, ListOf(s, dst));
    SentContents(s, src, dst, verb, None, force, env, t);
  }

  /**
   * The common base always survives: after one completed transfer between the two sides, whatever permitted run
   * follows, the next completed unbounded transfer in either direction is incremental.
   */
  lemma BaseAlwaysSurvives(s: State, src: string, dst: string, verb: Verb, bound: Option<string>, env: Env, s1: State,
                           cs: seq<Command>, from: string, to: string, verb2: Verb, force: bool, env2: Env, t: State)
    requires Rail(s, src, dst) && (s1, Sent) == TransferState(s, src, dst, verb, bound, false, env)
    requires AllLinkPermitted(s1, cs, src, dst) && IsPair(from, to, src, dst)
    requires (t, Sent) == TransferState(Exec(s1, cs), from, to, verb2, None, force, env2)
    ensures var a := SourceList(Exec(s1, cs), from, None, env2);
      Incremental(a, ListOf(Exec(s1, cs), to), ListOf(t, to), FindName(a, AnchorName(None, env2)))
  {
    hide Guids, TransferState, Exec, AllLinkPermitted, Incremental;
    MoveKeepsRail(s, src, dst, verb, bound, env);
    CompletedTransferLinks(s, src, dst, verb, bound, false, env, s1);
    RunKeepsLink(s1, cs, src, dst);
    RailSym(Exec(s1, cs), src, dst);
    LinkedTransferIsIncremental(Exec(s1, cs), from, to, verb2, force, env2, t);
  }
}
