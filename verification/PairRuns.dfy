// Whole runs over one pair: what stays true of two datasets that only replicate with
// each other, whatever is run, in whatever order, and whatever fails.

module PairRuns {
  import opened Text
  import opened Snapshots
  import opened World
  import opened Transfer
  import opened Safety
  import opened Guarantees
  import opened Default
  import P = Primary

  /** Everything the operator kept on `d` is also on `peer`. */
  ghost predicate Covered(s: State, d: string, peer: string) {
    Guids(Kept(ListOf(s, d))) <= Guids(Kept(ListOf(s, peer)))
  }

  /** The readonly rail: a readonly side has no snapshot of its own. */
  ghost predicate Rail(s: State, a: string, b: string) {
    && Ready(s, a, b) && b in s.snaps
    && (a in s.readonly ==> Covered(s, a, b))
    && (b in s.readonly ==> Covered(s, b, a))
  }

  /** What can happen to a host with such a pair; `CutDefault` is a `default` stopped at a state it passes through. */
  datatype Command =
    | Snapshot(d: string, name: string)
    | Move(verb: Verb, src: string, dst: string, bound: Option<string>, force: bool, env: Env)
    | MakePrimary(be: string, stamp: string, fault: P.Fault)
    | MakeDefault(target: string, stuck: set<string>)
    | CutDefault(target: string, stuck: set<string>, at: State)
    | Elsewhere(next: State)

  ghost function Step(s: State, c: Command): State {
    match c
    case Snapshot(d, name) => if d in s.snaps && name !in Names(s.snaps[d]) then WithSnapshot(s, d, name) else s
    case Move(verb, src, dst, bound, force, env) => TransferState(s, src, dst, verb, bound, force, env).0
    case MakePrimary(be, stamp, fault) => P.PrimaryState(s, be, stamp, fault).0
    case MakeDefault(target, stuck) => if target in Bes(s) then DefaultState(s, target, stuck) else s
    case CutDefault(target, stuck, at) => if target in Bes(s) && Midway(s, at, target, stuck) then at else s
    case Elsewhere(next) => next
  }

  ghost function Exec(s: State, cs: seq<Command>): State {
    if cs == [] then s else Step(Exec(s, cs[..|cs| - 1]), cs[|cs| - 1])
  }

  ghost predicate IsPair(c: string, d: string, a: string, b: string) {
    (c == a && d == b) || (c == b && d == a)
  }

  /** The two sides hold the same operator snapshots. */
  ghost predicate InSync(s: State, a: string, b: string) {
    Covered(s, a, b) && Covered(s, b, a)
  }

  ghost predicate OutsidePair(s: State, t: State, a: string, b: string) {
    && a in s.snaps && b in s.snaps && a in t.snaps && b in t.snaps
    && t.snaps[a] == s.snaps[a] && t.snaps[b] == s.snaps[b] && s.nextGuid <= t.nextGuid
    && (a in t.readonly ==> a in s.readonly) && (b in t.readonly ==> b in s.readonly)
  }

  /**
   * The discipline of a one-to-one pair. A snapshot is taken on a writable side; --force only where a writable side
   * rewinds a readonly one; the writable side changes hands only in sync, and a mounted side about to be demoted, which
   * `primary` snapshots, is not readonly; nothing else touches the two datasets.
   */
  ghost predicate Permitted(s: State, c: Command, a: string, b: string) {
    match c
    case Snapshot(d, _) => (d == a || d == b) && d !in s.readonly
    case Move(_, src, dst, _, force, _) => IsPair(src, dst, a, b) && (force ==> dst in s.readonly && src !in s.readonly)
    case MakePrimary(be, _, _) =>
      P.Mutual(s, be) ==> IsPair(be, P.PeerDataset(s, be), a, b) && InSync(s, a, b)
                          && !(P.PeerDataset(s, be) in s.mounted && P.PeerDataset(s, be) in s.readonly)
    case MakeDefault(_, _) => InSync(s, a, b)
    case CutDefault(_, _, _) => InSync(s, a, b)
    case Elsewhere(next) => OutsidePair(s, next, a, b)
  }

  ghost predicate AllPermitted(s: State, cs: seq<Command>, a: string, b: string) {
    cs == [] ||
    (AllPermitted(s, cs[..|cs| - 1], a, b) && Permitted(Exec(s, cs[..|cs| - 1]), cs[|cs| - 1], a, b))
  }

  // -------------------------------------------------------------------------
  // Each step
  // -------------------------------------------------------------------------

  lemma RailSym(s: State, a: string, b: string)
    requires Rail(s, a, b)
    ensures Rail(s, b, a)
  {
    hide Guids, Kept, Distinct, Before;
  }

  /** Two unchanged lists and no new readonly flag keep the rail. */
  lemma SameListsKeepRail(s: State, t: State, a: string, b: string)
    requires Rail(s, a, b) && a in t.snaps && b in t.snaps
    requires t.snaps[a] == s.snaps[a] && t.snaps[b] == s.snaps[b] && s.nextGuid <= t.nextGuid
    requires InSync(s, a, b) || ((a in t.readonly ==> a in s.readonly) && (b in t.readonly ==> b in s.readonly))
    ensures Rail(t, a, b)
  {
    hide Guids, Kept, Distinct, Before;
  }

  lemma SnapshotOnTop(xs: seq<Snap>, ys: seq<Snap>, x: Snap)
    requires Compatible(xs, ys) && Below(xs, x.guid) && Below(ys, x.guid) && x.name !in Names(xs)
    ensures Compatible(xs + [x], ys) && Below(xs + [x], x.guid + 1) && Below(ys, x.guid + 1)
    ensures Guids(Kept(xs)) <= Guids(Kept(xs + [x]))
    ensures !IsAnchor(x.name) ==> x.guid in Guids(Kept(xs + [x])) && x.guid !in Guids(Kept(ys))
  {
    hide Guids, Names, Distinct, Before, Kept;
    Single(x);
    GuidsConcat(xs, [x]);
    DistinctConcat(xs, [x]);
    KeptConcat(xs, [x]);
    KeptGuids(ys);
    forall g, h | Before(xs + [x], g, h) ensures !Before(ys, h, g) {
      BeforeConcat(xs, [x], g, h);
      if Before(ys, h, g) {
        BeforeMembers(ys, h, g);
      }
    }
  }

  lemma SnapshotKeepsRail(s: State, d: string, peer: string, name: string)
    requires Rail(s, d, peer) && d !in s.readonly && name !in Names(s.snaps[d])
    ensures Rail(WithSnapshot(s, d, name), d, peer)
  {
    hide Guids, Kept, Distinct, Before;
    SnapshotOnTop(s.snaps[d], s.snaps[peer], Snap(name, s.nextGuid));
  }

  lemma PrefixGuids(xs: seq<Snap>, ys: seq<Snap>)
    requires xs <= ys
    ensures Guids(xs) <= Guids(ys)
  {
    assert ys == xs + ys[|xs|..];
    GuidsConcat(xs, ys[|xs|..]);
  }

  lemma MoveKeepsRail(s: State, src: string, dst: string, verb: Verb, bound: Option<string>, env: Env)
    requires Rail(s, src, dst)
    ensures Rail(TransferState(s, src, dst, verb, bound, false, env).0, src, dst)
  {
    hide Guids, Kept, Distinct, Before, SendState, RewindState;
    var (t, o) := TransferState(s, src, dst, verb, bound, false, env);
    UnforcedNeverDestroys(s, src, dst, verb, bound, env, t, o);
    TransferStaysReady(s, src, dst, verb, bound, false, env);
    if o != Refused {
      NoDivergence(t.snaps[src], t.snaps[dst]);
      PrefixGuids(Kept(s.snaps[dst]), Kept(t.snaps[dst]));
    }
  }

  lemma RolledBackKeepsLess(b: seq<Snap>, b1: seq<Snap>, bound: string, o: Outcome)
    requires RolledBack(b, b1, bound, o)
    ensures Guids(Kept(b1)) <= Guids(Kept(b))
  {
    if b1 != b {
      KeptSlice(b, 0, FindName(b, bound) + 1);
      assert b[0..FindName(b, bound) + 1] == b1;
    }
  }

  lemma RewindKeepsRail(s: State, src: string, dst: string, verb: Verb, bound: string, env: Env, t: State, o: Outcome)
    requires Rail(s, src, dst) && dst in s.readonly && src !in s.readonly
    requires (t, o) == RewindState(s, dst, verb, bound, env)
    ensures Rail(t, src, dst)
  {
    hide Guids, Kept, Distinct, Before, RewindState;
    RewindStaysReady(s, src, dst, verb, bound, env, t, o);
    RewindEffect(s, src, dst, verb, bound, env, t, o);
    RolledBackKeepsLess(s.snaps[dst], t.snaps[dst], bound, o);
  }

  /** Forced, from the writable side to the readonly one: a rewind at most shortens the readonly side. */
  lemma ForcedMoveKeepsRail(s: State, src: string, dst: string, verb: Verb, bound: Option<string>, env: Env)
    requires Rail(s, src, dst) && dst in s.readonly && src !in s.readonly
    ensures Rail(TransferState(s, src, dst, verb, bound, true, env).0, src, dst)
  {
    hide Guids, Kept, Distinct, Before, SendState, RewindState, AfterBound;
    NoDivergence(s.snaps[src], s.snaps[dst]);
    var (t, o) := TransferState(s, src, dst, verb, bound, true, env);
    if (bound.Some? ==> bound.value in Names(s.snaps[src])) && PlanTransfer(s, src, dst, bound, true, env) == Rewind {
      RewindKeepsRail(s, src, dst, verb, bound.value, env, t, o);
    } else {
      MoveKeepsRail(s, src, dst, verb, bound, env);
    }
  }

  lemma FlipKeepsRail(s: State, be: string, peer: string, stamp: string, t: State, o: P.Outcome)
    requires Rail(s, be, peer) && be in s.props.mirror && P.Flipped(s, be, stamp, t, o)
    requires P.Mutual(s, be) ==>
      P.PeerDataset(s, be) == peer && InSync(s, be, peer) && !(peer in s.mounted && peer in s.readonly)
    ensures Rail(t, be, peer)
  {
    hide Guids, Kept, Distinct, Before, P.Mutual;
    if P.Mutual(s, be) && t.snaps != s.snaps {
      var s1 := WithSnapshot(s, peer, P.PrePrimary(stamp));
      RailSym(s, be, peer);
      SnapshotKeepsRail(s, peer, be, P.PrePrimary(stamp));
      RailSym(s1, peer, be);
      SameListsKeepRail(s1, t, be, peer);
    } else {
      SameListsKeepRail(s, t, be, peer);
    }
  }

  lemma PrimaryKeepsRail(s: State, be: string, peer: string, stamp: string, fault: P.Fault)
    requires Rail(s, be, peer)
    requires P.Mutual(s, be) ==>
      P.PeerDataset(s, be) == peer && InSync(s, be, peer) && !(peer in s.mounted && peer in s.readonly)
    ensures Rail(P.PrimaryState(s, be, stamp, fault).0, be, peer)
  {
    hide Guids, Kept, Distinct, Before, P.PrimaryState, P.Flipped;
    var (t, o) := P.PrimaryState(s, be, stamp, fault);
    P.PrimaryEffect(s, be, stamp, fault, t, o);
    if o != P.Refused && o != P.AlreadyPrimary {
      FlipKeepsRail(s, be, peer, stamp, t, o);
    }
  }

  /**
   * A completed flip keeps the rail exactly when the demoted side has nothing of its own; if it is mounted, and so gets
   * a snapshot and keeps its flag, exactly when it is not readonly.
   */
  lemma PrimaryKeepsRailExactly(s: State, be: string, peer: string, stamp: string, fault: P.Fault, t: State)
    requires Rail(s, be, peer) && P.Mutual(s, be) && P.PeerDataset(s, be) == peer
    requires (t, P.Promoted) == P.PrimaryState(s, be, stamp, fault)
    ensures Rail(t, be, peer) <==> if peer in s.mounted then peer !in s.readonly else Covered(s, peer, be)
  {
    hide Guids, Kept, Distinct, Before, P.PrimaryState, P.Mutual;
    P.PrimaryEffect(s, be, stamp, fault, t, P.Promoted);
    if peer in s.mounted {
      RailSym(s, be, peer);
      SameOrderSym(s.snaps[be], s.snaps[peer]);
      var s1 := WithSnapshot(s, peer, P.PrePrimary(stamp));
      SnapshotOnTop(s.snaps[peer], s.snaps[be], Snap(P.PrePrimary(stamp), s.nextGuid));
      assert P.PrePrimary(stamp)[0] == 'p';
      if peer !in s.readonly {
        SnapshotKeepsRail(s, peer, be, P.PrePrimary(stamp));
        RailSym(s1, peer, be);
        SameListsKeepRail(s1, t, be, peer);
      }
    }
  }

  lemma DefaultKeepsRail(s: State, target: string, stuck: set<string>, a: string, b: string)
    requires Rail(s, a, b) && InSync(s, a, b)
    ensures Rail(DefaultState(s, target, stuck), a, b)
  {
    hide Guids, Kept, Distinct, Before, NextReadonly, NextBootfs, Toggled;
    SameListsKeepRail(s, DefaultState(s, target, stuck), a, b);
  }

  lemma MidwayKeepsRail(s: State, target: string, stuck: set<string>, u: State, a: string, b: string)
    requires Rail(s, a, b) && InSync(s, a, b) && Midway(s, u, target, stuck)
    ensures Rail(u, a, b)
  {
    hide Guids, Kept, Distinct, Before, NextReadonly, LosersFirst, PartlyToggled;
    SameListsKeepRail(s, u, a, b);
  }

  lemma PrimaryStepKeepsRail(s: State, be: string, stamp: string, fault: P.Fault, a: string, b: string)
    requires Rail(s, a, b) && Permitted(s, MakePrimary(be, stamp, fault), a, b)
    ensures Rail(P.PrimaryState(s, be, stamp, fault).0, a, b)
  {
    hide Guids, Kept, Distinct, Before, P.PrimaryState;
    RailSym(s, a, b);
    var (t, o) := P.PrimaryState(s, be, stamp, fault);
    if P.Mutual(s, be) {
      PrimaryKeepsRail(s, be, P.PeerDataset(s, be), stamp, fault);
      RailSym(t, be, P.PeerDataset(s, be));
    } else {
      P.PrimaryEffect(s, be, stamp, fault, t, o);
      SameListsKeepRail(s, t, a, b);
    }
  }

  lemma StepKeepsRail(s: State, c: Command, a: string, b: string)
    requires Rail(s, a, b) && Permitted(s, c, a, b)
    ensures Rail(Step(s, c), a, b)
  {
    hide Guids, Kept, Distinct, Before, TransferState, DefaultState, P.PrimaryState, P.Mutual, WithSnapshot, Midway;
    RailSym(s, a, b);
    match c {
      case Snapshot(d, name) =>
        if name !in Names(s.snaps[d]) {
          SnapshotKeepsRail(s, d, if d == a then b else a, name);
          RailSym(Step(s, c), d, if d == a then b else a);
        }
      case Move(verb, src, dst, bound, force, env) =>
        if force {
          ForcedMoveKeepsRail(s, src, dst, verb, bound, env);
        } else {
          MoveKeepsRail(s, src, dst, verb, bound, env);
        }
        RailSym(Step(s, c), src, dst);
      case MakePrimary(be, stamp, fault) =>
        PrimaryStepKeepsRail(s, be, stamp, fault, a, b);
      case MakeDefault(target, stuck) =>
        if target in Bes(s) {
          DefaultKeepsRail(s, target, stuck, a, b);
        }
      case CutDefault(target, stuck, at) =>
        if target in Bes(s) && Midway(s, at, target, stuck) {
          MidwayKeepsRail(s, target, stuck, at, a, b);
        }
      case Elsewhere(next) =>
        SameListsKeepRail(s, next, a, b);
    }
  }

  // -------------------------------------------------------------------------
  // Whole runs
  // -------------------------------------------------------------------------

  /** The rail holds in every state a permitted run can reach. */
  lemma {:induction false} RunKeepsRail(s: State, cs: seq<Command>, a: string, b: string)
    requires Rail(s, a, b) && AllPermitted(s, cs, a, b)
    ensures Rail(Exec(s, cs), a, b)
  {
    hide Rail, Permitted, Step;
    if cs != [] {
      RunKeepsRail(s, cs[..|cs| - 1], a, b);
      StepKeepsRail(Exec(s, cs[..|cs| - 1]), cs[|cs| - 1], a, b);
    }
  }

  lemma KeptCompatible(x: seq<Snap>, y: seq<Snap>)
    requires Compatible(x, y)
    ensures Compatible(Kept(x), Kept(y))
  {
    hide Guids, Kept, Before, Distinct;
    KeptIsPruned(x);
    KeptIsPruned(y);
    PrunedCompatible(x, y, "", {});
    SameOrderSym(Kept(x), y);
    PrunedCompatible(y, Kept(x), "", {});
    SameOrderSym(Kept(y), Kept(x));
  }

  /** On the rail a readonly side's snapshots are a subsequence of its peer's: same GUIDs, same order. */
  lemma ReadonlySideIsSubsequence(s: State, d: string, peer: string)
    requires Rail(s, d, peer) && d in s.readonly
    ensures IsSubsequence(Kept(s.snaps[d]), Kept(s.snaps[peer]))
  {
    hide Guids, Kept, Before, Distinct, IsSubsequence;
    var x, y := s.snaps[d], s.snaps[peer];
    KeptCompatible(x, y);
    SubsetIsSubsequence(Kept(x), Kept(y));
  }

  /** The readonly invariant over whole runs. */
  lemma ReadonlyInvariant(s: State, cs: seq<Command>, a: string, b: string)
    requires Rail(s, a, b) && AllPermitted(s, cs, a, b)
    ensures var t := Exec(s, cs);
      && (a in t.readonly ==> IsSubsequence(Kept(ListOf(t, a)), Kept(ListOf(t, b))))
      && (b in t.readonly ==> IsSubsequence(Kept(ListOf(t, b)), Kept(ListOf(t, a))))
  {
    hide Exec, AllPermitted, Kept, IsSubsequence;
    RunKeepsRail(s, cs, a, b);
    var t := Exec(s, cs);
    RailSym(t, a, b);
    if a in t.readonly {
      ReadonlySideIsSubsequence(t, a, b);
    }
    if b in t.readonly {
      ReadonlySideIsSubsequence(t, b, a);
    }
  }

  /** ... and so, along such runs, a push towards the readonly side never meets divergence. */
  lemma AlwaysFastForward(s: State, cs: seq<Command>, a: string, b: string)
    requires Rail(s, a, b) && AllPermitted(s, cs, a, b) && b in Exec(s, cs).readonly
    ensures OnlyOnRight(ListOf(Exec(s, cs), a), ListOf(Exec(s, cs), b)) == []
  {
    hide Exec, AllPermitted, Kept, OnlyOnRight;
    RunKeepsRail(s, cs, a, b);
    NoDivergence(ListOf(Exec(s, cs), a), ListOf(Exec(s, cs), b));
  }
}
