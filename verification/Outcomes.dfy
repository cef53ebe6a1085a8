// What completed verbs leave in the properties: the contract of a received boot
// environment, the pointers of each way to push, and what undoes what.

module Outcomes {
  import opened Text
  import opened Snapshots
  import opened World
  import opened Transfer
  import P = Primary
  import Q = Pointers
  import B = Bindings
  import G = Guarantees

  // -------------------------------------------------------------------------
  // After a transfer
  // -------------------------------------------------------------------------

  /** `canmount=noauto`, marked as a boot environment, readonly. */
  ghost predicate Contracted(s: State, d: string) {
    d in s.props.bes && d in s.props.canmount && s.props.canmount[d] == Noauto && d in s.readonly
  }

  /** Of the other properties only the contract's two are written, on the receiver. */
  ghost predicate OnlyContract(p: Props, q: Props, dst: string) {
    q.bes == p.bes + {dst} && q.canmount == p.canmount[dst := Noauto] && q.attached == p.attached
  }

  lemma SealedContract(s: State, dst: string, env: Env, t: State)
    requires (t, true) == Sealed(s, dst, env)
    ensures Contracted(t, dst) && t.props.mirror == s.props.mirror && t.props.primary == s.props.primary
    ensures OnlyContract(s.props, t.props, dst)
  {}

  lemma PointersKeepContract(s: State, src: string, dst: string, mode: Mode, env: Env)
    requires Contracted(s, dst)
    ensures Contracted(PointersState(s, src, dst, mode, env).0, dst)
  {
    hide ParsePointer, Flagged;
    var toDst, toSrc := ParsePointer(dst), ParsePointer(src);
    if mode.BootstrapPaired? && toDst.Some? && toSrc.Some? {
      var s1 := WithPointer(s, src, toDst.value);
      var s2 := Flagged(s1, src, true, env.soft.markSrc);
      MarkersAside(s1, src, true, env.soft.markSrc);
      MarkersAside(WithPointer(s2, dst, toSrc.value), dst, false, env.soft.markDst);
    }
  }

  function Set<V>(m: map<string, V>, d: string, v: V, ok: bool): map<string, V> {
    if ok then m[d := v] else m
  }

  /** The pointers and markers a completed transfer leaves, given those the stream left. */
  ghost predicate Pointed(s: State, t: State, src: string, dst: string, verb: Verb, soft: Soft) {
    var marked := Set(s.props.primary, src, true, soft.markSrc);
    match verb
    case Push(BootstrapPaired) =>
      && ParsePointer(dst).Some? && ParsePointer(src).Some?
      && (dst in s.props.mirror ==>
           && t.props.mirror == s.props.mirror[src := ParsePointer(dst).value]
           && t.props.primary == marked)
      && (dst !in s.props.mirror ==>
           && t.props.mirror == s.props.mirror[src := ParsePointer(dst).value][dst := ParsePointer(src).value]
           && t.props.primary == Set(marked, dst, false, soft.markDst))
    case Push(AdHocUnpaired) =>
      && t.props.mirror == (if soft.clear then s.props.mirror - {dst} else s.props.mirror)
      && t.props.primary == s.props.primary
    case _ => t.props.mirror == s.props.mirror && t.props.primary == s.props.primary
  }

  lemma PointersPointed(s: State, src: string, dst: string, mode: Mode, env: Env)
    requires src != dst && PointersState(s, src, dst, mode, env).1
    ensures Pointed(s, PointersState(s, src, dst, mode, env).0, src, dst, Push(mode), env.soft)
  {
    hide ParsePointer;
  }

  lemma PointersOnly(s: State, src: string, dst: string, mode: Mode, env: Env)
    ensures var t := PointersState(s, src, dst, mode, env).0;
      t == s.(props := s.props.(mirror := t.props.mirror, primary := t.props.primary))
  {
    hide ParsePointer, Flagged;
    var toDst, toSrc := ParsePointer(dst), ParsePointer(src);
    if mode.BootstrapPaired? && toDst.Some? && toSrc.Some? {
      var s1 := WithPointer(s, src, toDst.value);
      var s2 := Flagged(s1, src, true, env.soft.markSrc);
      MarkersAside(s1, src, true, env.soft.markSrc);
      MarkersAside(WithPointer(s2, dst, toSrc.value), dst, false, env.soft.markDst);
    }
  }

  lemma ContractFrame(s: State, t: State, d: string)
    requires Contracted(s, d) && t.props == s.props && t.readonly == s.readonly
    ensures Contracted(t, d)
  {}

  lemma SettledOutcome(s: State, src: string, dst: string, verb: Verb, anchor: string, env: Env, t: State)
    requires src != dst && src in s.snaps && dst in s.snaps && (t, Sent) == Settle(s, src, dst, verb, anchor, env)
    ensures Contracted(t, dst) && Pointed(s, t, src, dst, verb, env.soft) && OnlyContract(s.props, t.props, dst)
  {
    hide ParsePointer, Pruned, Sealed, Contracted, PointersState;
    var (s1, kept) := Sealed(s, dst, env);
    SealedContract(s, dst, env, s1);
    if verb.Push? {
      PointersOnly(s1, src, dst, verb.mode, env);
      PointersKeepContract(s1, src, dst, verb.mode, env);
      PointersPointed(s1, src, dst, verb.mode, env);
      ContractFrame(PointersState(s1, src, dst, verb.mode, env).0, t, dst);
    } else {
      ContractFrame(s1, t, dst);
    }
  }

  /** The properties once the stream has landed: a new dataset gets a copy of the source's. */
  function Landed(s: State, src: string, dst: string): Props {
    if dst in s.snaps then s.props else CopyProps(s.props, src, dst)
  }

  lemma LiftedOutcome(s: State, src: string, dst: string, verb: Verb, anchor: string, lifted: bool, env: Env, t: State)
    returns (s1: State)
    requires src != dst && src in s.snaps && anchor in Names(s.snaps[src])
    requires (t, Sent) == LiftedState(s, src, dst, verb, anchor, lifted, env)
    ensures Contracted(t, dst) && Pointed(s1, t, src, dst, verb, env.soft) && s1.props == Landed(s, src, dst)
    ensures OnlyContract(s1.props, t.props, dst)
  {
    hide Stream, Settle, Names, LatestShared, FindName, Pointed, Contracted, OnlyContract;
    var (u, ok) := Deliver(s, src, dst, verb, anchor, env.fault);
    s1 := u;
    if ok {
      SettledOutcome(s1, src, dst, verb, anchor, env, t);
    }
  }

  lemma SentOutcome(s: State, src: string, dst: string, verb: Verb, bound: Option<string>, env: Env, t: State)
    returns (s1: State)
    requires src != dst && src in s.snaps && (bound.Some? ==> bound.value in Names(s.snaps[src]))
    requires (t, Sent) == SendState(s, src, dst, verb, bound, env)
    ensures Contracted(t, dst) && Pointed(s1, t, src, dst, verb, env.soft) && s1.props == Landed(s, src, dst)
    ensures OnlyContract(s1.props, t.props, dst)
  {
    hide LiftedState, Names, Guids, Pointed, Contracted, OnlyContract;
    var anchor, a := AnchorName(bound, env), s.snaps[src];
    var s0 := if bound.Some? then s else WithSnapshot(s, src, anchor);
    if bound.None? {
      GuidAt(s0.snaps[src], |a|);
    }
    s1 := LiftedOutcome(Lifted(s0, dst, verb), src, dst, verb, anchor, LiftsReadonly(s0, dst, verb), env, t);
  }

  lemma RewoundContract(s: State, dst: string, verb: Verb, bound: string, env: Env, t: State, o: Outcome)
    requires dst in s.snaps && (t, o) == RewindState(s, dst, verb, bound, env)
    ensures o == Rewound ==>
      && Contracted(t, dst) && OnlyContract(s.props, t.props, dst)
      && t.props.mirror == s.props.mirror && t.props.primary == s.props.primary
    ensures o == Rewound || o == Failed
  {
    hide FindName;
  }

  /**
   * A completed transfer leaves the receiving side contracted, and the pointers of its verb and mode: a bootstrap
   * makes the source primary and points it at the destination, which points back unless it already points somewhere;
   * an ad-hoc copy ends unpaired; everything else leaves the pointers as the stream left them.
   */
  lemma TransferOutcome(s: State, src: string, dst: string, verb: Verb, bound: Option<string>, force: bool, env: Env,
                        t: State, o: Outcome)
    returns (s1: State)
    requires src != dst && (o == Sent || o == Rewound) && (t, o) == TransferState(s, src, dst, verb, bound, force, env)
    ensures Contracted(t, dst)
    ensures o == Sent ==> Pointed(s1, t, src, dst, verb, env.soft) && s1.props == Landed(s, src, dst)
    ensures OnlyContract(if o == Sent then s1.props else s.props, t.props, dst)
    ensures o == Rewound ==> t.props.mirror == s.props.mirror && t.props.primary == s.props.primary
  {
    hide SendState, RewindState, Names, Pointed, Contracted, OnlyContract;
    s1 := s;
    if PlanTransfer(s, src, dst, bound, force, env) == Rewind {
      RewoundContract(s, dst, verb, bound.value, env, t, o);
    } else {
      G.SendNeverRewinds(s, src, dst, verb, bound, env, t, o);
      s1 := SentOutcome(s, src, dst, verb, bound, env, t);
    }
  }

  /**
   * A completed bootstrap is mutual exactly when what the destination pointed at before, or for a new one what the
   * source did, was nothing or the source itself.
   */
  lemma BootstrapPairsExactly(s: State, src: string, dst: string, bound: Option<string>, force: bool, env: Env,
                              t: State)
    requires s.props.mirror.Keys <= s.snaps.Keys
    requires src != dst && (t, Sent) == TransferState(s, src, dst, Push(BootstrapPaired), bound, force, env)
    ensures ParsePointer(src).Some? && ParsePointer(dst).Some?
    ensures src in t.props.mirror && t.props.mirror[src] == ParsePointer(dst).value
    ensures var before := if dst in s.snaps then dst else src;
      dst in t.props.mirror && t.props.mirror[dst] == ParsePointer(src).value <==>
        before !in s.props.mirror || s.props.mirror[before] == ParsePointer(src).value
  {
    hide TransferState, ParsePointer, Contracted;
    var s1 := TransferOutcome(s, src, dst, Push(BootstrapPaired), bound, force, env, t, Sent);
  }

  // -------------------------------------------------------------------------
  // pair and unpair
  // -------------------------------------------------------------------------

  /** A completed `pair`: mutual with the first as primary, or one-way when the second was paired already. */
  lemma PairOutcome(s: State, a: string, b: string, force: bool, writes: nat, t: State)
    requires (t, B.Done) == Q.PairState(s, a, b, force, writes) && Trim(a) == a && Trim(b) == b
    ensures Q.PeerOf(t, a) == Some(b)
    ensures b !in s.props.mirror ==>
      Q.PeerOf(t, b) == Some(a) && P.IsPrimary(t, a) && !P.IsPrimary(t, b) && P.Mutual(t, a)
    ensures b in s.props.mirror ==>
      Q.PeerOf(t, b) == Q.PeerOf(s, b) && !P.IsPrimary(t, a) && P.IsPrimary(t, b) == P.IsPrimary(s, b)
    ensures forall d :: d != a && d != b ==> Q.PeerOf(t, d) == Q.PeerOf(s, d)
  {
    hide ParsePointer, RenderPointer, PoolOf, Trim, Q.NotDiverged;
    ParsedPointer(a);
    ParsedPointer(b);
  }

  /** The sides whose clear took effect. */
  function Those(be: string, ok: bool, peer: string, peerOk: bool): set<string> {
    (if ok then {be} else {}) + if peerOk then {peer} else {}
  }

  lemma UnpairMutual(s: State, be: string, peer: string, env: Q.UnpairEnv)
    requires be != peer && Q.PeerOf(s, be) == Some(peer) && Q.PointsBack(s, peer, be)
    ensures var (u, o) := Q.UnpairState(s, be, env);
      && o == B.Done && u.snaps == s.snaps && u.readonly == s.readonly
      && u.props.mirror == s.props.mirror - Those(be, env.clear, peer, env.peerClear)
      && u.props.primary == s.props.primary - Those(be, env.mark, peer, env.peerMark)
  {
    hide ParsePointer, RenderPointer;
  }

  lemma PairShape(s: State, a: string, b: string, force: bool, writes: nat, t: State)
    requires (t, B.Done) == Q.PairState(s, a, b, force, writes) && b !in s.props.mirror
    ensures a != b && a in s.snaps && b in s.snaps && a !in s.props.mirror && ParsePointer(a).Some? &&
      ParsePointer(b).Some?
    ensures t.snaps == s.snaps && t.readonly == s.readonly
    ensures t.props.mirror == s.props.mirror[a := ParsePointer(b).value][b := ParsePointer(a).value]
    ensures t.props.primary == s.props.primary[a := true][b := false]
  {
    hide ParsePointer, PoolOf, Q.NotDiverged;
  }

  /**
   * `unpair` of either side of a mutual `pair` always reports success; the pointers are as before exactly when both
   * clears took effect, and the markers are gone where theirs did.
   */
  lemma UnpairUndoesPair(s: State, a: string, b: string, force: bool, writes: nat, t: State, side: string,
                         env: Q.UnpairEnv)
    requires (t, B.Done) == Q.PairState(s, a, b, force, writes) && Trim(a) == a && Trim(b) == b
    requires b !in s.props.mirror && (side == a || side == b)
    ensures var (u, o) := Q.UnpairState(t, side, env);
      && o == B.Done && u.snaps == s.snaps && u.readonly == s.readonly
      && (u.props.mirror == s.props.mirror <==> env.clear && env.peerClear)
      && u.props.primary == t.props.primary - Those(side, env.mark, if side == a then b else a, env.peerMark)
  {
    hide ParsePointer, RenderPointer, PoolOf, Trim, Q.PairState, Q.UnpairState;
    PairShape(s, a, b, force, writes, t);
    ParsedPointer(a);
    ParsedPointer(b);
    var other := if side == a then b else a;
    UnpairMutual(t, side, other, env);
    assert t.props.mirror - {a, b} == s.props.mirror;
    assert !env.clear ==> side in t.props.mirror - Those(side, env.clear, other, env.peerClear);
    assert !env.peerClear ==> other in t.props.mirror - Those(side, env.clear, other, env.peerClear);
  }
}
