// The graph of pair pointers: what `rename` does to it, and over whole runs that no
// pointer is left dangling.

module PointerRuns {
  import opened Text
  import opened Snapshots
  import opened World
  import opened Clones
  import opened Default
  import opened Pointers
  import B = Bindings
  import D = Drop
  import M = Promotions
  import T = Transfer
  import G = Guarantees
  import O = Order

  /** Dataset names carry no white space at their ends, so a name and its pointer read the same. */
  ghost predicate WellNamed(s: State) {
    forall d :: d in s.snaps ==> Trim(d) == d
  }

  ghost predicate Plain(s: State) {
    forall d :: d in s.props.mirror ==> PlainPointer(s.props.mirror[d])
  }

  /** A plain pointer names a dataset exactly when it is what the dataset's name parses to. */
  lemma PointsAt(p: PairPointer, d: string)
    requires PlainPointer(p) && Trim(d) == d
    ensures RenderPointer(p) == d <==> ParsePointer(d) == Some(p)
  {
    hide PlainPointer, RenderPointer, ParsePointer, Trim;
    PointerRoundTrip(p);
    if ParsePointer(d) == Some(p) {
      ParsedPointer(d);
    }
  }

  // -------------------------------------------------------------------------
  // rename is a relabelling
  // -------------------------------------------------------------------------

  function RelabelPeer(p: Option<string>, was: string, now: string): Option<string> {
    if p.None? then None else Some(Relabel(p.value, was, now))
  }

  ghost predicate RelabelledAt(s: State, t: State, was: string, now: string, d: string) {
    PeerOf(t, Relabel(d, was, now)) == RelabelPeer(PeerOf(s, d), was, now)
  }

  /** `t` is `s` with one node of the pointer graph renamed, and `bootfs` with it. */
  ghost predicate IsRelabelling(s: State, t: State, was: string, now: string) {
    && t.snaps.Keys == RelabelMember(s.snaps.Keys, was, now)
    && (forall d :: d in s.snaps ==> RelabelledAt(s, t, was, now, d))
    && t.pools.bootfs.Keys == s.pools.bootfs.Keys
    && (forall q :: q in s.pools.bootfs ==> t.pools.bootfs[q] == Relabel(s.pools.bootfs[q], was, now))
  }

  /** Every pointer at the dataset is held by another dataset, on a root pool. */
  ghost predicate HeldOnRoots(s: State, was: string) {
    forall d :: d in s.props.mirror && PeerOf(s, d) == Some(was) ==> OnRootPool(s, d) && d != was
  }

  lemma {:induction false} MissingNotRewritable(present: set<string>, incoming: seq<string>, writes: nat, i: nat)
    requires i < |incoming| && incoming[i] !in present
    ensures Rewritable(present, incoming, writes) <= i
  {
    if i < |incoming| - 1 {
      MissingNotRewritable(present, incoming[..|incoming| - 1], writes, i);
    }
  }

  /** What the verb may assume of its host. */
  ghost predicate RenameReady(s: State, was: string, name: string, incoming: seq<string>) {
    && CanRename(s, was, name) && D.Owned(s) && Plain(s)
    && Trim(was) == was && Trim(NewName(was, name)) == NewName(was, name)
    && (forall q :: q in s.pools.bootfs ==> PoolOf(s.pools.bootfs[q]) == q)
    && Lists(incoming, D.Incoming(s, ParsePointer(was).value))
  }

  /** The state after a rename whose every write succeeded. */
  function RenameDone(s: State, was: string, now: string): State
    requires ParsePointer(was).Some? && ParsePointer(now).Some?
  {
    Redirected(Advanced(Renamed(s, was, now), was, now), D.Incoming(s, ParsePointer(was).value),
      ParsePointer(now).value)
  }

  lemma RenameRuns(s: State, was: string, name: string, incoming: seq<string>, writes: nat)
    requires RenameReady(s, was, name, incoming) && |incoming| <= writes
    ensures var (t, o) := RenameState(s, was, name, incoming, true, true, writes);
      && (o == B.Done <==> was !in incoming)
      && (o == B.Done ==> t == RenameDone(s, was, NewName(was, name)))
  {
    hide ParsePointer, PoolOf, RenderPointer;
    var now := NewName(was, name);
    var present := Renamed(s, was, now).snaps.Keys;
    if was in incoming {
      var i :| 0 <= i < |incoming| && incoming[i] == was;
      MissingNotRewritable(present, incoming, writes, i);
    } else {
      forall d | d in incoming ensures d in present {
        assert d in D.Incoming(s, ParsePointer(was).value);
      }
      AllRewritten(present, incoming, writes);
      assert incoming[..|incoming|] == incoming;
      assert B.Elements(incoming) == D.Incoming(s, ParsePointer(was).value);
    }
  }

  lemma RelabelsAt(s: State, was: string, now: string, d: string)
    requires ParsePointer(was).Some? && ParsePointer(now).Some? && Trim(was) == was && Trim(now) == now
    requires was in s.snaps && now !in s.snaps && was !in D.Incoming(s, ParsePointer(was).value)
    requires D.Owned(s) && Plain(s) && d in s.snaps
    ensures RelabelledAt(s, RenameDone(s, was, now), was, now, d) <==>
      (PeerOf(s, d) == Some(was) ==> OnRootPool(s, d) && d != was)
  {
    hide ParsePointer, PoolOf, RenderPointer, PlainPointer;
    ParsedPointer(now);
    if d in s.props.mirror {
      PointsAt(s.props.mirror[d], was);
    }
  }

  lemma BootfsRelabels(s: State, was: string, now: string)
    requires ParsePointer(was).Some? && ParsePointer(now).Some? && was in s.snaps && now !in s.snaps
    requires forall q :: q in s.pools.bootfs ==> PoolOf(s.pools.bootfs[q]) == q
    ensures var t := RenameDone(s, was, now);
      && t.snaps.Keys == RelabelMember(s.snaps.Keys, was, now)
      && t.pools.bootfs.Keys == s.pools.bootfs.Keys
      && forall q :: q in s.pools.bootfs ==> t.pools.bootfs[q] == Relabel(s.pools.bootfs[q], was, now)
  {
    hide ParsePointer, PoolOf, RenderPointer;
  }

  /**
   * A rename whose writes succeed relabels one node, of the graph and in `bootfs`, exactly when the pointers at it
   * allow.
   */
  lemma DoneIsRelabelling(s: State, was: string, name: string, incoming: seq<string>, writes: nat, t: State,
                          o: B.Outcome)
    requires RenameReady(s, was, name, incoming) && |incoming| <= writes
    requires (t, o) == RenameState(s, was, name, incoming, true, true, writes)
    ensures o == B.Done && IsRelabelling(s, t, was, NewName(was, name)) <==> HeldOnRoots(s, was)
  {
    hide ParsePointer, PoolOf, RenderPointer, PlainPointer, RenameState, RelabelledAt, Trim;
    var now := NewName(was, name);
    RenameRuns(s, was, name, incoming, writes);
    if was in incoming {
      assert was in D.Incoming(s, ParsePointer(was).value);
      PointsAt(s.props.mirror[was], was);
    } else {
      assert was !in D.Incoming(s, ParsePointer(was).value);
      forall d | d in s.snaps
        ensures RelabelledAt(s, t, was, now, d) <==> (PeerOf(s, d) == Some(was) ==> OnRootPool(s, d) && d != was)
      {
        RelabelsAt(s, was, now, d);
      }
      BootfsRelabels(s, was, now);
    }
  }

  lemma {:induction false} FewRewritable(present: set<string>, incoming: seq<string>, writes: nat)
    ensures Rewritable(present, incoming, writes) <= writes
  {
    if incoming != [] {
      FewRewritable(present, incoming[..|incoming| - 1], writes);
    }
  }

  /** With enough writes, and `bootfs` written where it must be, nothing is cut short. */
  lemma WritesSuffice(s: State, was: string, name: string, incoming: seq<string>, renameOk: bool, bootfsOk: bool,
                      writes: nat)
    ensures renameOk && (Boots(s, was) ==> bootfsOk) ==>
      RenameState(s, was, name, incoming, renameOk, bootfsOk, writes) ==
        RenameState(s, was, name, incoming, true, true, writes)
    ensures !(renameOk && (Boots(s, was) ==> bootfsOk) && |incoming| <= writes) ==>
      RenameState(s, was, name, incoming, renameOk, bootfsOk, writes).1 != B.Done
  {
    hide ParsePointer, RenderPointer, PoolOf;
    var now := NewName(was, name);
    FewRewritable(Renamed(s, was, now).snaps.Keys, incoming, writes);
  }

  /**
   * A rename relabels one node, of the graph and in `bootfs`, exactly when each of its writes succeeds and every
   * pointer at the dataset is held by another one on a root pool.
   */
  lemma RenameIsRelabelling(s: State, was: string, name: string, incoming: seq<string>, renameOk: bool, bootfsOk: bool,
                            writes: nat, t: State, o: B.Outcome)
    requires RenameReady(s, was, name, incoming)
    requires (t, o) == RenameState(s, was, name, incoming, renameOk, bootfsOk, writes)
    ensures o == B.Done && IsRelabelling(s, t, was, NewName(was, name)) <==>
      renameOk && (Boots(s, was) ==> bootfsOk) && |incoming| <= writes && HeldOnRoots(s, was)
  {
    hide ParsePointer, PoolOf, RenderPointer, PlainPointer, RenameState, RelabelledAt, Trim, RenameReady, HeldOnRoots,
         IsRelabelling;
    WritesSuffice(s, was, name, incoming, renameOk, bootfsOk, writes);
    if renameOk && (Boots(s, was) ==> bootfsOk) && |incoming| <= writes {
      DoneIsRelabelling(s, was, name, incoming, writes, t, o);
    }
  }

  // -------------------------------------------------------------------------
  // What a push writes
  // -------------------------------------------------------------------------

  /** A pointer a bootstrap writes. */
  ghost predicate PointerBetween(src: string, dst: string, verb: T.Verb, d: string, p: PairPointer) {
    && verb == T.Push(T.BootstrapPaired) && ParsePointer(src).Some? && ParsePointer(dst).Some?
    && ((d == src && ParsePointer(dst) == Some(p)) || (d == dst && ParsePointer(src) == Some(p)))
  }

  /** Where a pointer present afterwards comes from: only a bootstrap writes any, a new dataset gets a copy. */
  ghost predicate PointerFrom(s: State, t: State, src: string, dst: string, verb: T.Verb, d: string)
    requires d in t.props.mirror
  {
    var p := t.props.mirror[d];
    || (d in s.props.mirror && p == s.props.mirror[d])
    || (src != dst && dst in t.snaps && PointerBetween(src, dst, verb, d, p))
    || (d == dst && dst !in s.snaps && dst in t.snaps && src in s.props.mirror && p == s.props.mirror[src])
  }

  /** A transfer adds at most its destination, and pointers only between the two. */
  ghost predicate PushedPointers(s: State, t: State, src: string, dst: string, verb: T.Verb) {
    && s.snaps.Keys <= t.snaps.Keys <= s.snaps.Keys + {dst} && t.pools == s.pools
    && forall d :: d in t.props.mirror ==> PointerFrom(s, t, src, dst, verb, d)
  }

  lemma SamePointers(s: State, t: State, src: string, dst: string, verb: T.Verb)
    requires t.snaps.Keys == s.snaps.Keys && t.props.mirror == s.props.mirror && t.pools == s.pools
    ensures PushedPointers(s, t, src, dst, verb)
  {}

  lemma DeliveredPointers(s: State, src: string, dst: string, verb: T.Verb, anchor: string, fault: T.Fault, t: State,
                          ok: bool)
    requires src in s.snaps && anchor in Names(s.snaps[src]) && (t, ok) == T.Deliver(s, src, dst, verb, anchor, fault)
    ensures t.pools == s.pools && t.snaps.Keys == s.snaps.Keys + (if ok then {dst} else {})
    ensures ok && dst !in s.snaps ==> t.props.mirror == CopyProps(s.props, src, dst).mirror
    ensures !ok || dst in s.snaps ==> t.props.mirror == s.props.mirror
    ensures src == dst ==> !ok
  {
    hide T.ReceiveIncremental, Guids, Names;
    var a := s.snaps[src];
    if src == dst {
      O.OntoItself(a, FindName(a, anchor), verb, fault, src in s.origin);
    }
  }

  ghost predicate Written(s: State, t: State, src: string, dst: string, verb: T.Verb) {
    && t.snaps == s.snaps && t.pools == s.pools
    && forall d :: d in t.props.mirror ==>
      || (d in s.props.mirror && t.props.mirror[d] == s.props.mirror[d])
      || PointerBetween(src, dst, verb, d, t.props.mirror[d])
  }

  /** The pointers a push can leave: as they were, without the copy, or with one or both of a bootstrap's. */
  lemma PointersLeft(s: State, src: string, dst: string, mode: T.Mode, env: T.Env)
    ensures var t, toDst, toSrc := T.PointersState(s, src, dst, mode, env).0, ParsePointer(dst), ParsePointer(src);
      && t.snaps == s.snaps && t.pools == s.pools
      && (|| t.props.mirror == s.props.mirror || t.props.mirror == s.props.mirror - {dst}
          || (mode.BootstrapPaired? && toDst.Some? && toSrc.Some? &&
            t.props.mirror == s.props.mirror[src := toDst.value])
          || (mode.BootstrapPaired? && toDst.Some? && toSrc.Some?
              && t.props.mirror == s.props.mirror[src := toDst.value][dst := toSrc.value]))
  {
    hide ParsePointer, T.Flagged;
    var toDst, toSrc := ParsePointer(dst), ParsePointer(src);
    if mode.BootstrapPaired? && toDst.Some? && toSrc.Some? {
      var s1 := WithPointer(s, src, toDst.value);
      T.MarkersAside(s1, src, true, env.soft.markSrc);
      T.MarkersAside(WithPointer(T.Flagged(s1, src, true, env.soft.markSrc), dst, toSrc.value), dst, false,
        env.soft.markDst);
    }
  }

  lemma PointersWritten(s: State, src: string, dst: string, mode: T.Mode, env: T.Env)
    ensures Written(s, T.PointersState(s, src, dst, mode, env).0, src, dst, T.Push(mode))
  {
    hide ParsePointer, T.PointersState;
    PointersLeft(s, src, dst, mode, env);
  }

  lemma SealedPointers(s: State, dst: string, env: T.Env)
    ensures var t := T.Sealed(s, dst, env).0;
      t.snaps == s.snaps && t.pools == s.pools && t.props.mirror == s.props.mirror
  {}

  lemma SettledPointers(s: State, src: string, dst: string, verb: T.Verb, anchor: string, env: T.Env, t: State,
                        o: T.Outcome)
    requires src in s.snaps && dst in s.snaps && (t, o) == T.Settle(s, src, dst, verb, anchor, env)
    ensures t.snaps.Keys == s.snaps.Keys && Written(s, t.(snaps := s.snaps), src, dst, verb)
  {
    hide ParsePointer, Pruned, T.PointersState, T.Sealed;
    var (s1, kept) := T.Sealed(s, dst, env);
    SealedPointers(s, dst, env);
    if kept && verb.Push? {
      PointersWritten(s1, src, dst, verb.mode, env);
    }
  }

  /** The copy a delivery makes, then the pointers written on top of it. */
  lemma WrittenPushes(s: State, s1: State, t: State, src: string, dst: string, verb: T.Verb)
    requires src != dst && s.props.mirror.Keys <= s.snaps.Keys
    requires s1.pools == s.pools && s1.snaps.Keys == s.snaps.Keys + {dst} && t.snaps.Keys == s1.snaps.Keys
    requires s1.props.mirror == if dst in s.snaps then s.props.mirror else CopyProps(s.props, src, dst).mirror
    requires Written(s1, t.(snaps := s1.snaps), src, dst, verb)
    ensures PushedPointers(s, t, src, dst, verb)
  {
    hide ParsePointer;
  }

  lemma PrunedPointers(s: State, src: string, dst: string, anchor: string, env: T.Env)
    requires src in s.snaps && dst in s.snaps
    ensures var t := T.PruneBoth(s, src, dst, anchor, env);
      t.snaps.Keys == s.snaps.Keys && t.props == s.props && t.pools == s.pools
  {}

  lemma LiftedPointers(s: State, src: string, dst: string, verb: T.Verb, anchor: string, lifted: bool, env: T.Env,
                       t: State, o: T.Outcome)
    requires src in s.snaps && anchor in Names(s.snaps[src]) && s.props.mirror.Keys <= s.snaps.Keys
    requires (t, o) == T.LiftedState(s, src, dst, verb, anchor, lifted, env)
    ensures PushedPointers(s, t, src, dst, verb)
  {
    hide T.Deliver, T.Settle, ParsePointer, Names, LatestShared, FindName, PushedPointers, T.PruneBoth;
    if verb.Mirror? && dst in s.snaps && LatestShared(s.snaps[src], s.snaps[dst]) == FindName(s.snaps[src], anchor) {
      PrunedPointers(s, src, dst, anchor, env);
      SamePointers(s, t, src, dst, verb);
    } else {
      var (s1, ok) := T.Deliver(s, src, dst, verb, anchor, env.fault);
      DeliveredPointers(s, src, dst, verb, anchor, env.fault, s1, ok);
      if ok {
        SettledPointers(s1, src, dst, verb, anchor, env, t, o);
        WrittenPushes(s, s1, t, src, dst, verb);
      } else {
        SamePointers(s, t, src, dst, verb);
      }
    }
  }

  lemma SentPointers(s: State, src: string, dst: string, verb: T.Verb, bound: Option<string>, env: T.Env, t: State,
                     o: T.Outcome)
    requires src in s.snaps && s.props.mirror.Keys <= s.snaps.Keys
    requires bound.Some? ==> bound.value in Names(s.snaps[src])
    requires (t, o) == T.SendState(s, src, dst, verb, bound, env)
    ensures PushedPointers(s, t, src, dst, verb)
  {
    hide T.LiftedState, ParsePointer, Guids;
    var anchor, a := T.AnchorName(bound, env), s.snaps[src];
    if bound.None? && (env.fault.AtSnapshot? || anchor in Names(a)) {
      SamePointers(s, t, src, dst, verb);
    } else {
      var s1 := if bound.Some? then s else WithSnapshot(s, src, anchor);
      if bound.None? {
        GuidAt(s1.snaps[src], |a|);
      }
      var lifted := T.LiftsReadonly(s1, dst, verb);
      if lifted && env.fault.AtReadonlyOff? {
        SamePointers(s, t, src, dst, verb);
      } else {
        LiftedPointers(T.Lifted(s1, dst, verb), src, dst, verb, anchor, lifted, env, t, o);
      }
    }
  }

  lemma RewoundPointers(s: State, src: string, dst: string, verb: T.Verb, bound: string, env: T.Env, t: State,
                        o: T.Outcome)
    requires dst in s.snaps && (t, o) == T.RewindState(s, dst, verb, bound, env)
    ensures PushedPointers(s, t, src, dst, verb)
  {
    hide FindName, Names, ParsePointer, T.Sealed, PushedPointers;
    var b := s.snaps[dst];
    if FindName(b, bound) < |b| {
      SealedPointers(WithSnaps(T.Lifted(s, dst, verb), dst, b[..FindName(b, bound) + 1]), dst, env);
    }
    SamePointers(s, t, src, dst, verb);
  }

  lemma TransferPointers(s: State, src: string, dst: string, verb: T.Verb, bound: Option<string>, force: bool,
                         env: T.Env)
    requires s.props.mirror.Keys <= s.snaps.Keys
    ensures PushedPointers(s, T.TransferState(s, src, dst, verb, bound, force, env).0, src, dst, verb)
  {
    hide T.SendState, T.RewindState, OnlyOnRight, Names, ParsePointer;
    var (t, o) := T.TransferState(s, src, dst, verb, bound, force, env);
    if src !in s.snaps || (bound.Some? && bound.value !in Names(s.snaps[src])) {
      SamePointers(s, t, src, dst, verb);
    } else {
      match T.PlanTransfer(s, src, dst, bound, force, env) {
        case Refuse => SamePointers(s, t, src, dst, verb);
        case Rewind => RewoundPointers(s, src, dst, verb, bound.value, env, t, o);
        case Send => SentPointers(s, src, dst, verb, bound, env, t, o);
      }
    }
  }

  // -------------------------------------------------------------------------
  // No dangling pointers
  // -------------------------------------------------------------------------

  /** A pointer between two different datasets that exist, both on root pools. */
  ghost predicate SoundAt(s: State, d: string, p: PairPointer) {
    && d in s.snaps && RenderPointer(p) in s.snaps && RenderPointer(p) != d && PlainPointer(p)
    && OnRootPool(s, d) && OnRootPool(s, RenderPointer(p))
  }

  ghost predicate Sound(s: State) {
    forall d :: d in s.props.mirror ==> SoundAt(s, d, s.props.mirror[d])
  }

  lemma OwnPointers(s: State)
    requires Sound(s)
    ensures s.props.mirror.Keys <= s.snaps.Keys
  {
    forall d | d in s.props.mirror ensures d in s.snaps {
      assert SoundAt(s, d, s.props.mirror[d]);
    }
  }

  /** Parsing a well-named dataset on a root pool gives a sound pointer for any other one. */
  lemma ParsedIsSound(s: State, d: string, peer: string)
    requires d in s.snaps && peer in s.snaps && d != peer && OnRootPool(s, d) && OnRootPool(s, peer)
    requires Trim(peer) == peer && ParsePointer(peer).Some?
    ensures SoundAt(s, d, ParsePointer(peer).value)
  {
    hide ParsePointer, PoolOf, Trim;
    ParsedPointer(peer);
  }

  /** A sound pointer stays sound while no dataset or root pool goes. */
  lemma StaysSound(s: State, t: State, d: string, p: PairPointer)
    requires SoundAt(s, d, p) && s.snaps.Keys <= t.snaps.Keys && t.pools.roots == s.pools.roots
    ensures SoundAt(t, d, p)
  {
    hide PlainPointer, RenderPointer, PoolOf;
  }

  /** Whatever fails, a pair writes at most the two pointers, and overwrites none. */
  lemma PairPointers(s: State, a: string, b: string, force: bool, writes: nat)
    ensures var t := PairState(s, a, b, force, writes).0;
      t == s || (
      && CanPair(s, a, b, force) && t.snaps == s.snaps && t.pools == s.pools
      && forall d :: d in t.props.mirror ==>
        || (d in s.props.mirror && t.props.mirror[d] == s.props.mirror[d])
        || (d == a && d !in s.props.mirror && Some(t.props.mirror[d]) == ParsePointer(b))
        || (d == b && d !in s.props.mirror && Some(t.props.mirror[d]) == ParsePointer(a)))
  {
    hide ParsePointer, PoolOf, NotDiverged;
  }

  lemma PairKeepsSound(s: State, a: string, b: string, force: bool, writes: nat)
    requires Sound(s) && WellNamed(s) && OnRootPool(s, a) && OnRootPool(s, b)
    ensures Sound(PairState(s, a, b, force, writes).0)
  {
    hide ParsePointer, PoolOf, SoundAt, Trim, NotDiverged, PairState;
    var t := PairState(s, a, b, force, writes).0;
    PairPointers(s, a, b, force, writes);
    if t != s {
      ParsedIsSound(t, a, b);
      ParsedIsSound(t, b, a);
      forall d | d in t.props.mirror ensures SoundAt(t, d, t.props.mirror[d]) {
        if d in s.props.mirror {
          StaysSound(s, t, d, s.props.mirror[d]);
        }
      }
    }
  }

  lemma UnpairKeepsSound(s: State, be: string, env: UnpairEnv)
    requires Sound(s)
    ensures Sound(UnpairState(s, be, env).0)
  {
    hide ParsePointer, RenderPointer, PlainPointer, PoolOf;
  }

  lemma PushedKeepsSound(s: State, t: State, src: string, dst: string, verb: T.Verb)
    requires Sound(s) && PushedPointers(s, t, src, dst, verb) && WellNamed(t)
    requires src in s.snaps && OnRootPool(s, src) && OnRootPool(s, dst)
    ensures Sound(t)
  {
    hide ParsePointer, RenderPointer, PlainPointer, PoolOf, Trim;
    forall d | d in t.props.mirror ensures SoundAt(t, d, t.props.mirror[d]) {
      assert PointerFrom(s, t, src, dst, verb, d);
      if d in s.props.mirror && t.props.mirror[d] == s.props.mirror[d] {
        StaysSound(s, t, d, s.props.mirror[d]);
      } else if d == src && ParsePointer(dst) == Some(t.props.mirror[d]) {
        ParsedIsSound(t, src, dst);
      } else if d == dst && ParsePointer(src) == Some(t.props.mirror[d]) {
        ParsedIsSound(t, dst, src);
      }
    }
  }

  lemma PushKeepsSound(s: State, src: string, to: Option<string>, bound: Option<string>, force: bool, env: T.Env)
    requires Sound(s) && WellNamed(PushState(s, src, to, bound, force, env).0)
    ensures Sound(PushState(s, src, to, bound, force, env).0)
  {
    hide ParsePointer, RenderPointer, PlainPointer, PoolOf, Trim, T.TransferState, PushedPointers, ToTarget;
    var target := PushTarget(s, src, to, bound);
    OwnPointers(s);
    if target.Some? {
      TransferPointers(s, src, target.value.0, T.Push(target.value.1), bound, force, env);
      assert to.None? ==> SoundAt(s, src, s.props.mirror[src]);
      PushedKeepsSound(s, PushState(s, src, to, bound, force, env).0, src, target.value.0, T.Push(target.value.1));
    }
  }

  lemma ForkedPool(snap: SnapshotRef, name: string)
    requires B.BareName(name)
    ensures PoolOf(B.ForkTarget(snap, name)) == PoolOf(snap.dataset)
  {
    CanonicalParts(PairPointer(PoolOf(snap.dataset), name));
  }

  /** A clone may keep its source's pointer, never one of its own. */
  lemma ForkKeepsSound(s: State, snap: SnapshotRef, name: string, intact: bool, lists: seq<string>, env: B.ForkEnv)
    requires Sound(s)
    ensures Sound(B.ForkState(s, snap, name, intact, lists, env).0)
  {
    hide RenderPointer, PlainPointer, LeafOf, B.Joined, B.Elements;
    var target, t := B.ForkTarget(snap, name), B.ForkState(s, snap, name, intact, lists, env).0;
    OwnPointers(s);
    if t != s {
      ForkedPool(snap, name);
      forall d | d in t.props.mirror ensures SoundAt(t, d, t.props.mirror[d]) {
        if d == target {
          assert SoundAt(s, snap.dataset, s.props.mirror[snap.dataset]);
        } else {
          StaysSound(s, t, d, s.props.mirror[d]);
        }
      }
    }
  }

  lemma PoolOfPath(pool: string, name: string)
    requires '/' !in pool
    ensures PoolOf(RenderPointer(PairPointer(pool, name))) == pool
  {
    FindAfter(pool, '/', "ROOT/" + name);
    assert RenderPointer(PairPointer(pool, name)) == pool + ['/'] + ("ROOT/" + name);
  }

  lemma PulledKeepsSound(s: State, t: State, o: T.Outcome, remote: string, local: string, bound: Option<string>,
                         env: T.Env)
    requires Sound(s) && PushedPointers(s, t, remote, local, T.Pull) && remote in s.snaps && remote != local
    requires OnRootPool(s, remote) && OnRootPool(s, local)
    requires o == T.Sent ==> local in t.snaps
    requires WellNamed(if o != T.Sent then t else PulledPointers(t, remote, local, bound, env).0)
    ensures Sound(if o != T.Sent then t else PulledPointers(t, remote, local, bound, env).0)
  {
    hide ParsePointer, PlainPointer, PoolOf, Trim, SoundAt, RenderPointer;
    var u := if o != T.Sent then t else PulledPointers(t, remote, local, bound, env).0;
    assert u.snaps == t.snaps && u.pools == t.pools;
    PushedKeepsSound(s, t, remote, local, T.Pull);
    if o == T.Sent && bound.None? && ParsePointer(remote).Some? && ParsePointer(local).Some? {
      ParsedIsSound(t, local, remote);
      ParsedIsSound(t, remote, local);
    }
    forall d | d in u.props.mirror ensures SoundAt(u, d, u.props.mirror[d]) {
      StaysSound(t, u, d, u.props.mirror[d]);
    }
  }

  lemma PullNewKeepsSound(s: State, remote: string, pool: string, name: string, bound: Option<string>, force: bool,
                          env: T.Env)
    requires Sound(s) && '/' !in pool && WellNamed(PullNewState(s, remote, pool, name, bound, force, env).0)
    ensures Sound(PullNewState(s, remote, pool, name, bound, force, env).0)
  {
    hide ParsePointer, PlainPointer, PoolOf, Trim, T.TransferState, PushedPointers, Sound, PulledPointers;
    var local := RenderPointer(PairPointer(pool, name));
    if CanPullNew(s, remote, pool, name, bound) {
      var (t, o) := T.TransferState(s, remote, local, T.Pull, bound, force, env);
      PoolOfPath(pool, name);
      OwnPointers(s);
      TransferPointers(s, remote, local, T.Pull, bound, force, env);
      if o == T.Sent {
        G.SentArrives(s, remote, local, T.Pull, bound, force, env, t);
      }
      PulledKeepsSound(s, t, o, remote, local, bound, env);
    }
  }

  lemma PullKeepsSound(s: State, local: string, bound: Option<string>, force: bool, env: T.Env)
    requires Sound(s) && WellNamed(PullState(s, local, bound, force, env).0)
    ensures Sound(PullState(s, local, bound, force, env).0)
  {
    hide ParsePointer, RenderPointer, PlainPointer, PoolOf, Trim, T.TransferState, PushedPointers;
    var peer := PeerOf(s, local);
    if local in s.snaps && peer.Some? && peer.value in s.snaps {
      assert SoundAt(s, local, s.props.mirror[local]);
      OwnPointers(s);
      TransferPointers(s, peer.value, local, T.Pull, bound, force, env);
      PushedKeepsSound(s, PullState(s, local, bound, force, env).0, peer.value, local, T.Pull);
    }
  }

  ghost predicate Resolves(s: State, d: string)
    requires d in s.props.mirror
  {
    RenderPointer(s.props.mirror[d]) in s.snaps
  }

  ghost predicate NoDangling(s: State) {
    forall d :: d in s.props.mirror ==> Resolves(s, d)
  }

  /** What is left of a pointer after a drop. */
  lemma DroppedPointer(s: State, target: string, stuck: set<string>, done: set<string>, d: string)
    requires WellNamed(s) && target in s.snaps && d in s.props.mirror && d != target && PlainPointer(s.props.mirror[d])
    ensures var t := D.DroppedState(s, target, stuck, done);
      && (d in t.props.mirror <==> !(PeerOf(s, d) == Some(target) && OnRootPool(s, d) && d !in stuck))
      && (d in t.props.mirror ==> t.props.mirror[d] == s.props.mirror[d])
  {
    hide ParsePointer, RenderPointer, PlainPointer, PoolOf, Trim, D.PurgedIn;
    PointsAt(s.props.mirror[d], target);
  }

  /**
   * A drop leaves nothing dangling exactly when every other pointer at the target is on a root pool and could be
   * cleared.
   */
  lemma DropDangles(s: State, target: string, stuck: set<string>, done: set<string>)
    requires NoDangling(s) && Plain(s) && WellNamed(s) && target in s.snaps
    ensures NoDangling(D.DroppedState(s, target, stuck, done)) <==>
      forall d :: d in s.props.mirror && d != target && PeerOf(s, d) == Some(target) ==> OnRootPool(s, d) && d !in stuck
  {
    hide ParsePointer, RenderPointer, PlainPointer, PoolOf, Trim, D.PurgedIn;
    var t := D.DroppedState(s, target, stuck, done);
    forall d | d in s.props.mirror && d != target
      ensures d in t.props.mirror <==> !(PeerOf(s, d) == Some(target) && OnRootPool(s, d) && d !in stuck)
      ensures d in t.props.mirror ==> (Resolves(t, d) <==> PeerOf(s, d) != Some(target))
    {
      DroppedPointer(s, target, stuck, done, d);
      assert Resolves(s, d);
    }
  }

  /** Every pointer at the target could be cleared. */
  ghost predicate AllCleared(s: State, target: string, stuck: set<string>) {
    forall d :: d in s.props.mirror && d != target && PeerOf(s, d) == Some(target) ==> d !in stuck
  }

  lemma DropKeepsSound(s: State, target: string, stuck: set<string>, done: set<string>)
    requires Sound(s) && WellNamed(s) && target in s.snaps && AllCleared(s, target, stuck)
    ensures Sound(D.DroppedState(s, target, stuck, done))
  {
    hide ParsePointer, RenderPointer, PlainPointer, PoolOf, Trim, D.PurgedIn;
    var t := D.DroppedState(s, target, stuck, done);
    forall d | d in t.props.mirror ensures SoundAt(t, d, t.props.mirror[d]) {
      assert SoundAt(s, d, s.props.mirror[d]);
      DroppedPointer(s, target, stuck, done, d);
    }
  }

  // -------------------------------------------------------------------------
  // A rename cut short
  // -------------------------------------------------------------------------

  /** The graph after `zfs rename` and the pointer writes of `done`. */
  function RenamedWith(s: State, was: string, now: string, done: set<string>): State
    requires ParsePointer(now).Some?
  {
    Redirected(Renamed(s, was, now), done, ParsePointer(now).value)
  }

  lemma SameBoots(s: State, was: string, now: string)
    ensures Boots(Renamed(s, was, now), was) == Boots(s, was)
  {
    hide PoolOf;
  }

  lemma HoldersPresent(s: State, was: string, now: string, incoming: seq<string>)
    requires D.Owned(s) && ParsePointer(was).Some? && was !in incoming &&
      Lists(incoming, D.Incoming(s, ParsePointer(was).value))
    ensures forall d :: d in incoming ==> d in Renamed(s, was, now).snaps
  {
    hide ParsePointer, PoolOf;
    forall d | d in incoming ensures d in Renamed(s, was, now).snaps {
      assert d in D.Incoming(s, ParsePointer(was).value);
    }
  }

  /** However the rename ends, its first `n` pointer writes are done. */
  lemma RenameShape(s: State, was: string, name: string, incoming: seq<string>, bootfsOk: bool, writes: nat)
    returns (n: nat)
    requires RenameReady(s, was, name, incoming)
    ensures n <= |incoming| && was !in incoming[..n]
    ensures var t := RenameState(s, was, name, incoming, true, bootfsOk, writes).0;
            var u := RenamedWith(s, was, NewName(was, name), B.Elements(incoming[..n]));
      t.snaps == u.snaps && t.props.mirror == u.props.mirror
    ensures n == |incoming| ==> incoming == [] || ((Boots(s, was) ==> bootfsOk) && |incoming| <= writes)
    ensures (Boots(s, was) ==> bootfsOk) && |incoming| <= writes && was !in incoming ==> n == |incoming|
  {
    hide ParsePointer, PoolOf, RenderPointer, PlainPointer, Trim, Boots;
    var now := NewName(was, name);
    var present := Renamed(s, was, now).snaps.Keys;
    n := if Boots(s, was) && !bootfsOk then 0 else Rewritable(present, incoming, writes);
    SameBoots(s, was, now);
    if Boots(s, was) && !bootfsOk {
      assert Renamed(s, was, now).props.mirror == RenamedWith(s, was, now, {}).props.mirror;
      assert B.Elements(incoming[..0]) == {};
    }
    FewRewritable(present, incoming, writes);
    if i :| 0 <= i < |incoming| && incoming[i] == was {
      MissingNotRewritable(present, incoming, writes, i);
      forall j | 0 <= j < n ensures incoming[j] != was {}
    } else {
      HoldersPresent(s, was, now, incoming);
      if |incoming| <= writes {
        AllRewritten(present, incoming, writes);
      }
    }
  }

  /** After the writes of `done` a pointer resolves unless it was at the renamed dataset and has not been rewritten. */
  lemma RenamedResolves(s: State, was: string, now: string, done: set<string>, d: string)
    requires NoDangling(s) && Plain(s) && Trim(was) == was && Trim(now) == now && was in s.snaps && now !in s.snaps
    requires ParsePointer(was).Some? && ParsePointer(now).Some? && D.Owned(s)
    requires was !in done && done <= D.Incoming(s, ParsePointer(was).value) && d in s.props.mirror
    ensures var t, d1 := RenamedWith(s, was, now, done), Relabel(d, was, now);
      d1 in t.props.mirror && (Resolves(t, d1) <==> PeerOf(s, d) != Some(was) || d in done)
  {
    hide ParsePointer, PoolOf, RenderPointer, PlainPointer, Trim;
    assert Resolves(s, d);
    ParsedPointer(now);
    PointsAt(s.props.mirror[d], was);
  }

  lemma RenamedHolders(s: State, was: string, now: string, done: set<string>, d1: string)
    requires D.Owned(s) && was in s.snaps && now !in s.snaps && ParsePointer(was).Some? && ParsePointer(now).Some?
    requires was !in done && done <= D.Incoming(s, ParsePointer(was).value)
    requires d1 in RenamedWith(s, was, now, done).props.mirror
    ensures var d := if d1 == now then was else d1; d in s.props.mirror && Relabel(d, was, now) == d1
  {
    hide ParsePointer, PoolOf;
  }

  /** The graph is left without a dangling pointer exactly when every pointer at the dataset has been rewritten. */
  lemma RenamedDangles(s: State, was: string, now: string, done: set<string>)
    requires NoDangling(s) && Plain(s) && Trim(was) == was && Trim(now) == now && was in s.snaps && now !in s.snaps
    requires ParsePointer(was).Some? && ParsePointer(now).Some? && D.Owned(s)
    requires was !in done && done <= D.Incoming(s, ParsePointer(was).value)
    ensures NoDangling(RenamedWith(s, was, now, done)) <==>
      forall d :: d in s.props.mirror && PeerOf(s, d) == Some(was) ==> d in done
  {
    hide ParsePointer, PoolOf, RenderPointer, PlainPointer, Trim, Plain, D.Owned, RenamedWith, Resolves;
    var t := RenamedWith(s, was, now, done);
    forall d | d in s.props.mirror
      ensures var d1 := Relabel(d, was, now);
        d1 in t.props.mirror && (Resolves(t, d1) <==> PeerOf(s, d) != Some(was) || d in done)
    {
      RenamedResolves(s, was, now, done, d);
    }
    forall d1 | d1 in t.props.mirror
      ensures var d := if d1 == now then was else d1; d in s.props.mirror && Relabel(d, was, now) == d1
    {
      RenamedHolders(s, was, now, done, d1);
    }
  }

  /** All holders are rewritten exactly when they are others on root pools and the writes get through them. */
  lemma AllHoldersDone(s: State, was: string, incoming: seq<string>, n: nat)
    requires Plain(s) && Trim(was) == was && ParsePointer(was).Some? && n <= |incoming| && was !in incoming[..n]
    requires Lists(incoming, D.Incoming(s, ParsePointer(was).value))
    ensures B.Elements(incoming[..n]) <= D.Incoming(s, ParsePointer(was).value)
    ensures (forall d :: d in s.props.mirror && PeerOf(s, d) == Some(was) ==> d in incoming[..n]) <==>
      HeldOnRoots(s, was) && n == |incoming|
  {
    hide ParsePointer, PoolOf, RenderPointer, PlainPointer, Trim;
    forall d | d in s.props.mirror ensures PeerOf(s, d) == Some(was) && OnRootPool(s, d) <==> d in incoming {
      PointsAt(s.props.mirror[d], was);
      assert d in incoming <==> d in D.Incoming(s, ParsePointer(was).value);
    }
    if n < |incoming| {
      assert incoming[n] in incoming && incoming[n] in D.Incoming(s, ParsePointer(was).value);
      assert incoming[n] !in incoming[..n];
    } else {
      assert incoming[..n] == incoming;
    }
  }

  /** A listing has as many entries as there is to list. */
  lemma {:induction false} ListedOnce(xs: seq<string>, all: set<string>)
    requires Lists(xs, all)
    ensures |xs| == |all|
  {
    if xs == [] {
      assert all == {};
    } else {
      var init, last := xs[..|xs| - 1], xs[|xs| - 1];
      assert xs == init + [last];
      assert last !in init;
      ListedOnce(init, all - {last});
    }
  }

  lemma NoHolders(s: State, was: string, incoming: seq<string>)
    requires Plain(s) && Trim(was) == was && ParsePointer(was).Some?
    requires Lists(incoming, D.Incoming(s, ParsePointer(was).value))
    requires forall d :: d in s.props.mirror ==> PeerOf(s, d) != Some(was)
    ensures incoming == [] && D.Incoming(s, ParsePointer(was).value) == {}
  {
    hide ParsePointer, RenderPointer, PlainPointer, PoolOf, Trim;
    var holders := D.Incoming(s, ParsePointer(was).value);
    forall d ensures d !in holders {
      if d in s.props.mirror {
        PointsAt(s.props.mirror[d], was);
      }
    }
    assert holders == {};
    ListedOnce(incoming, holders);
  }

  lemma HoldersAreIncoming(s: State, was: string, incoming: seq<string>)
    requires Plain(s) && Trim(was) == was && ParsePointer(was).Some?
    requires Lists(incoming, D.Incoming(s, ParsePointer(was).value))
    ensures HeldOnRoots(s, was) && incoming == [] ==> forall d :: d in s.props.mirror ==> PeerOf(s, d) != Some(was)
    ensures HeldOnRoots(s, was) ==> was !in incoming
    ensures (forall d :: d in s.props.mirror ==> PeerOf(s, d) != Some(was)) ==> incoming == [] && HeldOnRoots(s, was)
  {
    hide ParsePointer, PoolOf, RenderPointer, PlainPointer, Trim;
    forall d | d in s.props.mirror ensures PeerOf(s, d) == Some(was) && OnRootPool(s, d) <==> d in incoming {
      PointsAt(s.props.mirror[d], was);
      assert d in incoming <==> d in D.Incoming(s, ParsePointer(was).value);
    }
    assert was in incoming ==> was in D.Incoming(s, ParsePointer(was).value);
    if forall d :: d in s.props.mirror ==> PeerOf(s, d) != Some(was) {
      NoHolders(s, was, incoming);
    }
  }

  lemma SameResolves(s: State, t: State)
    requires t.snaps == s.snaps && t.props.mirror == s.props.mirror
    ensures NoDangling(t) <==> NoDangling(s)
  {
    hide RenderPointer;
    assert forall d :: d in s.props.mirror ==> (Resolves(s, d) <==> Resolves(t, d));
  }

  lemma RenameFails(s: State, was: string, name: string, incoming: seq<string>, bootfsOk: bool, writes: nat)
    ensures RenameState(s, was, name, incoming, false, bootfsOk, writes).0 == s
  {}

  /**
   * A rename, wherever it stops, leaves no dangling pointer exactly when `zfs rename` itself failed, nothing pointed at
   * the dataset, or every write went through and every pointer at it was held by another dataset on a root pool.
   */
  lemma RenameDangles(s: State, was: string, name: string, incoming: seq<string>, renameOk: bool, bootfsOk: bool,
                      writes: nat)
    requires NoDangling(s) && RenameReady(s, was, name, incoming)
    ensures NoDangling(RenameState(s, was, name, incoming, renameOk, bootfsOk, writes).0) <==>
      || !renameOk
      || (forall d :: d in s.props.mirror ==> PeerOf(s, d) != Some(was))
      || ((Boots(s, was) ==> bootfsOk) && |incoming| <= writes && HeldOnRoots(s, was))
  {
    hide ParsePointer, PoolOf, RenderPointer, PlainPointer, Trim, RenameState, Boots, RenamedWith, NoDangling,
         HeldOnRoots;
    if !renameOk {
      RenameFails(s, was, name, incoming, bootfsOk, writes);
    } else {
      var now := NewName(was, name);
      var n := RenameShape(s, was, name, incoming, bootfsOk, writes);
      var done := B.Elements(incoming[..n]);
      AllHoldersDone(s, was, incoming, n);
      RenamedDangles(s, was, now, done);
      SameResolves(RenamedWith(s, was, now, done), RenameState(s, was, name, incoming, renameOk, bootfsOk, writes).0);
      HoldersAreIncoming(s, was, incoming);
    }
  }

  ghost predicate BootsExist(s: State) {
    forall q :: q in s.pools.bootfs ==> s.pools.bootfs[q] in s.snaps
  }

  /** `bootfs` is left naming a missing dataset exactly when it named the renamed one and its write failed. */
  lemma RenameKeepsBootfs(s: State, was: string, name: string, incoming: seq<string>, renameOk: bool, bootfsOk: bool,
                          writes: nat)
    requires BootsExist(s) && RenameReady(s, was, name, incoming)
    ensures BootsExist(RenameState(s, was, name, incoming, renameOk, bootfsOk, writes).0) <==>
      !renameOk || !Boots(s, was) || bootfsOk
  {
    hide ParsePointer, PoolOf, RenderPointer, PlainPointer, Trim;
  }

  lemma RenamedEntry(s: State, was: string, now: string, d: string)
    requires Sound(s) && was in s.snaps && now !in s.snaps && PoolOf(now) == PoolOf(was)
    requires ParsePointer(was).Some? && ParsePointer(now).Some? && Trim(was) == was && Trim(now) == now
    requires d in s.props.mirror
    ensures var t, d1 := RenameDone(s, was, now), Relabel(d, was, now);
      d1 in t.props.mirror && SoundAt(t, d1, t.props.mirror[d1])
  {
    hide ParsePointer, RenderPointer, PlainPointer, PoolOf, Trim;
    ParsedPointer(now);
    OwnPointers(s);
    assert SoundAt(s, d, s.props.mirror[d]);
    PointsAt(s.props.mirror[d], was);
  }

  lemma RenameCompletes(s: State, was: string, name: string, incoming: seq<string>, writes: nat)
    requires Sound(s) && RenameReady(s, was, name, incoming) && |incoming| <= writes
    ensures RenameState(s, was, name, incoming, true, true, writes) == (RenameDone(s, was, NewName(was, name)), B.Done)
    ensures was !in D.Incoming(s, ParsePointer(was).value)
  {
    hide ParsePointer, RenderPointer, PoolOf, Trim, RenameState;
    RenameRuns(s, was, name, incoming, writes);
    assert was in incoming <==> was in D.Incoming(s, ParsePointer(was).value);
    if was in incoming {
      assert SoundAt(s, was, s.props.mirror[was]);
      PointsAt(s.props.mirror[was], was);
    }
  }

  lemma HolderRelabels(s: State, was: string, now: string, d1: string)
    requires s.props.mirror.Keys <= s.snaps.Keys && was in s.snaps && now !in s.snaps
    requires ParsePointer(was).Some? && ParsePointer(now).Some? && was !in D.Incoming(s, ParsePointer(was).value)
    requires d1 in RenameDone(s, was, now).props.mirror
    ensures (if d1 == now then was else d1) in s.props.mirror && d1 != was
  {
    hide ParsePointer, PoolOf;
  }

  lemma CompletedRenameIsSound(s: State, was: string, name: string, incoming: seq<string>, writes: nat)
    requires Sound(s) && RenameReady(s, was, name, incoming) && |incoming| <= writes
    ensures Sound(RenameState(s, was, name, incoming, true, true, writes).0)
  {
    hide ParsePointer, RenderPointer, PlainPointer, PoolOf, Trim, RenameState, SoundAt;
    RenameCompletes(s, was, name, incoming, writes);
    var now := NewName(was, name);
    var t := RenameDone(s, was, now);
    CanonicalParts(PairPointer(PoolOf(was), name));
    OwnPointers(s);
    forall d1 | d1 in t.props.mirror ensures SoundAt(t, d1, t.props.mirror[d1]) {
      var d := if d1 == now then was else d1;
      HolderRelabels(s, was, now, d1);
      RenamedEntry(s, was, now, d);
    }
  }

  /** The writes of a rename do not stop between the first and the last pointer at it. */
  ghost predicate RenameHolds(s: State, was: string, incoming: seq<string>, renameOk: bool, bootfsOk: bool,
                              writes: nat) {
    || !renameOk
    || (forall d :: d in s.props.mirror ==> PeerOf(s, d) != Some(was))
    || ((Boots(s, was) ==> bootfsOk) && |incoming| <= writes)
  }

  /** Stopped before `bootfs`, with no pointer to rewrite: the graph is that of the completed rename. */
  lemma SameGraphCutShort(s: State, was: string, name: string, writes: nat)
    ensures var t, u := RenameState(s, was, name, [], true, true, writes).0,
      RenameState(s, was, name, [], true, false, writes).0;
      u.snaps == t.snaps && u.props == t.props && u.pools.roots == t.pools.roots
  {
    hide ParsePointer, RenderPointer, PoolOf;
    var now := NewName(was, name);
    assert Redirected(Renamed(s, was, now), {}, PairPointer("", "")).props.mirror == Renamed(s, was, now).props.mirror;
  }

  lemma RenameKeepsSound(s: State, was: string, name: string, incoming: seq<string>, renameOk: bool, bootfsOk: bool,
                         writes: nat)
    requires Sound(s) && RenameReady(s, was, name, incoming)
    requires RenameHolds(s, was, incoming, renameOk, bootfsOk, writes)
    ensures Sound(RenameState(s, was, name, incoming, renameOk, bootfsOk, writes).0)
  {
    hide ParsePointer, RenderPointer, PlainPointer, PoolOf, Trim, RenameState, SoundAt, Boots;
    if !renameOk {
      RenameFails(s, was, name, incoming, bootfsOk, writes);
    } else {
      if forall d :: d in s.props.mirror ==> PeerOf(s, d) != Some(was) {
        NoHolders(s, was, incoming);
      }
      CompletedRenameIsSound(s, was, name, incoming, writes);
      WritesSuffice(s, was, name, incoming, renameOk, bootfsOk, writes);
      if Boots(s, was) && !bootfsOk {
        SameGraphCutShort(s, was, name, writes);
        var t, u := RenameState(s, was, name, [], true, true, writes).0,
          RenameState(s, was, name, [], true, false, writes).0;
        forall d | d in u.props.mirror ensures SoundAt(u, d, u.props.mirror[d]) {
          StaysSound(t, u, d, t.props.mirror[d]);
        }
      }
    }
  }

  // -------------------------------------------------------------------------
  // Whole runs
  // -------------------------------------------------------------------------

  datatype Command =
    | PairUp(a: string, b: string, force: bool, writes: nat)
    | UnpairOne(be: string, unpairEnv: UnpairEnv)
    | PushBe(src: string, to: Option<string>, bound: Option<string>, force: bool, env: T.Env)
    | PullBe(local: string, bound: Option<string>, force: bool, env: T.Env)
    | PullAs(remote: string, pool: string, name: string, bound: Option<string>, force: bool, env: T.Env)
    | ForkFrom(snap: SnapshotRef, forkName: string, intact: bool, lists: seq<string>, forkEnv: B.ForkEnv)
    | DropBe(target: string, promoted: seq<string>, purged: Option<set<string>>, stuck: set<string>)
    | RenameBe(was: string, newName: string, incoming: seq<string>, renameOk: bool, bootfsOk: bool, rewrites: nat)

  function Step(s: State, c: Command): State {
    match c
    case PairUp(a, b, force, writes) => PairState(s, a, b, force, writes).0
    case UnpairOne(be, env) => UnpairState(s, be, env).0
    case PushBe(src, to, bound, force, env) => PushState(s, src, to, bound, force, env).0
    case PullBe(local, bound, force, env) => PullState(s, local, bound, force, env).0
    case PullAs(remote, pool, name, bound, force, env) =>
      if '/' in pool then s else PullNewState(s, remote, pool, name, bound, force, env).0
    case ForkFrom(snap, name, intact, lists, env) => B.ForkState(s, snap, name, intact, lists, env).0
    case DropBe(target, promoted, purged, stuck) =>
      if target !in s.props.bes || target !in s.snaps || D.IsActive(s, target) then s
      else
        var s1 := M.PromoteAll(s, promoted);
        if purged.Some? then D.DroppedState(s1, target, stuck, purged.value) else s1
    case RenameBe(was, name, incoming, renameOk, bootfsOk, writes) =>
      if CanRename(s, was, name) then RenameState(s, was, name, incoming, renameOk, bootfsOk, writes).0 else s
  }

  /**
   * Pairs are made on root pools, which `pair` itself does not check; a drop can clear every pointer at its target; and
   * a rename of a dataset with pointers at it is not stopped between `zfs rename` and the last of them.
   */
  ghost predicate Permitted(s: State, c: Command) {
    match c
    case PairUp(a, b, force, writes) => OnRootPool(s, a) && OnRootPool(s, b)
    case DropBe(target, promoted, purged, stuck) => purged.Some? ==> AllCleared(s, target, stuck)
    case RenameBe(was, name, incoming, renameOk, bootfsOk, writes) =>
      CanRename(s, was, name) ==>
        RenameReady(s, was, name, incoming) && RenameHolds(s, was, incoming, renameOk, bootfsOk, writes)
    case _ => true
  }

  function Exec(s: State, cs: seq<Command>): State {
    if cs == [] then s else Step(Exec(s, cs[..|cs| - 1]), cs[|cs| - 1])
  }

  ghost predicate AllPermitted(s: State, cs: seq<Command>) {
    cs == [] ||
    (AllPermitted(s, cs[..|cs| - 1]) && Permitted(Exec(s, cs[..|cs| - 1]), cs[|cs| - 1]) && WellNamed(Exec(s, cs)))
  }

  lemma SameGraphIsSound(s: State, t: State)
    requires Sound(s) && WellNamed(s)
    requires t.snaps.Keys == s.snaps.Keys && t.props == s.props && t.pools == s.pools
    ensures Sound(t) && WellNamed(t)
  {
    hide PlainPointer, RenderPointer, PoolOf, Trim;
    forall d | d in t.props.mirror ensures SoundAt(t, d, t.props.mirror[d]) {
      StaysSound(s, t, d, s.props.mirror[d]);
    }
  }

  lemma StepKeepsSound(s: State, c: Command)
    requires Sound(s) && WellNamed(s) && Permitted(s, c) && WellNamed(Step(s, c))
    ensures Sound(Step(s, c))
  {
    hide Sound, WellNamed, PairState, UnpairState, PushState, PullState, PullNewState, RenameState, B.ForkState,
         D.DroppedState, M.PromoteAll, RenameReady, CanRename, RenameHolds;
    match c {
      case PairUp(a, b, force, writes) => PairKeepsSound(s, a, b, force, writes);
      case UnpairOne(be, env) => UnpairKeepsSound(s, be, env);
      case PushBe(src, to, bound, force, env) => PushKeepsSound(s, src, to, bound, force, env);
      case PullBe(local, bound, force, env) => PullKeepsSound(s, local, bound, force, env);
      case PullAs(remote, pool, name, bound, force, env) =>
        if '/' !in pool {
          PullNewKeepsSound(s, remote, pool, name, bound, force, env);
        }
      case ForkFrom(snap, name, intact, lists, env) => ForkKeepsSound(s, snap, name, intact, lists, env);
      case DropBe(target, promoted, purged, stuck) =>
        var s1 := M.PromoteAll(s, promoted);
        M.PromotionsKeepProps(s, promoted);
        SameGraphIsSound(s, s1);
        if target in s.snaps && purged.Some? {
          DropKeepsSound(s1, target, stuck, purged.value);
        }
      case RenameBe(was, name, incoming, renameOk, bootfsOk, writes) =>
        if CanRename(s, was, name) {
          RenameKeepsSound(s, was, name, incoming, renameOk, bootfsOk, writes);
        }
    }
  }

  lemma SoundIsNotDangling(s: State)
    requires Sound(s)
    ensures NoDangling(s)
  {
    forall d | d in s.props.mirror ensures Resolves(s, d) {
      assert SoundAt(s, d, s.props.mirror[d]);
    }
  }

  /** No run of pair, unpair, push, pull, fork, drop and rename leaves a dangling pointer. */
  lemma {:induction false} RunLeavesNoneDangling(s: State, cs: seq<Command>)
    requires Sound(s) && WellNamed(s) && AllPermitted(s, cs)
    ensures Sound(Exec(s, cs)) && NoDangling(Exec(s, cs)) && WellNamed(Exec(s, cs))
  {
    hide Sound, WellNamed, NoDangling, Permitted, Step;
    if cs != [] {
      RunLeavesNoneDangling(s, cs[..|cs| - 1]);
      StepKeepsSound(Exec(s, cs[..|cs| - 1]), cs[|cs| - 1]);
    }
    SoundIsNotDangling(Exec(s, cs));
  }
}
