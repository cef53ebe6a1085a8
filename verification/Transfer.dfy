// push, pull and mirror: moving snapshots from a source dataset to a destination.
// The specification functions say what each verb leaves behind for every answer at
// the prompts and every command failure; the methods are the verbs step by step.

module Transfer {
  import opened Text
  import opened Snapshots
  import opened World

  /** Which pair pointers a push writes. */
  datatype Mode = Existing | BootstrapPaired | AdHocUnpaired

  datatype Verb = Push(mode: Mode) | Pull | Mirror

  /** The command that fails, if any; an interrupted stream may leave its first snapshots behind. */
  datatype Fault =
    | NoFault | AtSnapshot | AtReadonlyOff | AtTransfer(partial: Option<nat>)
    | AtContract | AtReadonlyOn | AtSourcePointer | AtDestPointer

  /** Which of the writes take effect whose failure is ignored: clearing a copied pointer, the two `primary` markers. */
  datatype Soft = Soft(clear: bool, markSrc: bool, markDst: bool)

  /** Everything a transfer takes from outside: the clock, the typed answers, failures. */
  datatype Env = Env(
    stamp: string,
    yesDivergence: bool,
    yesRewind: bool,
    fault: Fault,
    restoreOk: bool,
    stuckSrc: set<string>,
    stuckDst: set<string>,
    soft: Soft)

  datatype Outcome = Refused | Failed | Rewound | Sent | NoOp

  datatype Plan = Refuse | Rewind | Send

  function ListOf(s: State, d: string): seq<Snap> {
    if d in s.snaps then s.snaps[d] else []
  }

  function AnchorName(bound: Option<string>, env: Env): string {
    if bound.Some? then bound.value else "mirror-" + env.stamp
  }

  /** The refusals, in the order they are checked. Without a destination there is nothing to refuse. */
  function PlanTransfer(s: State, src: string, dst: string, bound: Option<string>, force: bool, env: Env): Plan {
    if dst in s.snaps && dst in s.mounted && dst !in s.readonly then Refuse
    else if OnlyOnRight(ListOf(s, src), ListOf(s, dst)) != [] && !(force && env.yesDivergence) then Refuse
    else if bound.Some? && AfterBound(ListOf(s, src), ListOf(s, dst), bound.value) != [] then
      if force && env.yesRewind then Rewind else Refuse
    else Send
  }

  /** What the prompts listed by the time the transfer goes ahead. */
  function Shown(s: State, src: string, dst: string, bound: Option<string>): seq<Snap> {
    OnlyOnRight(ListOf(s, src), ListOf(s, dst)) +
    if bound.Some? then AfterBound(ListOf(s, src), ListOf(s, dst), bound.value) else []
  }

  /** readonly is lifted for the transfer, except where it protects a live mount (not checked by pull). */
  predicate LiftsReadonly(s: State, dst: string, verb: Verb) {
    dst in s.snaps && dst in s.readonly && (dst !in s.mounted || verb.Pull?)
  }

  function Lifted(s: State, dst: string, verb: Verb): State {
    if LiftsReadonly(s, dst, verb) then WithReadonly(s, dst, false) else s
  }

  /** No snapshot of the stream carries a name the truncated destination already uses. */
  predicate NamesApart(src: seq<Snap>, dst: seq<Snap>, p: nat, n: nat)
    requires p <= n < |src| && src[p].guid in Guids(dst)
  {
    Names(dst[..FindGuid(dst, src[p].guid) + 1]) !! Names(src[p + 1..n + 1])
  }

  /** `send -I src[p] src[n] | receive -F`: the list it leaves, and whether it succeeded. */
  function ReceiveIncremental(src: seq<Snap>, dst: seq<Snap>, p: nat, n: nat, fault: Fault): (seq<Snap>, bool)
    requires p < |src| && n < |src| && src[p].guid in Guids(dst)
  {
    if p >= n then (dst, false)
    else if fault.AtTransfer? then
      if fault.partial.Some? && p + fault.partial.value < n && NamesApart(src, dst, p, p + fault.partial.value)
      then (Received(src, dst, p, p + fault.partial.value), false)
      else (dst, false)
    else if NamesApart(src, dst, p, n) then (Received(src, dst, p, n), true)
    else (dst, false)
  }

  /** A full stream: everything up to the anchor, or for a cloned source pushed `-p` the anchor alone. */
  function FullStream(src: seq<Snap>, n: nat, standalone: bool): seq<Snap>
    requires n < |src|
  {
    if standalone then [src[n]] else src[..n + 1]
  }

  /** What the stream makes of the destination's list. A `-R` stream of a clone is rejected by the receiver. */
  function Stream(a: seq<Snap>, b: seq<Snap>, n: nat, clone: bool, verb: Verb, fault: Fault): (seq<Snap>, bool)
    requires n < |a|
  {
    var p := LatestShared(a, b);
    if p >= 0 then ReceiveIncremental(a, b, p, n, fault)
    else if fault.AtTransfer? || (clone && !verb.Push?) then (b, false)
    else (FullStream(a, n, clone), true)
  }

  /** The send itself: into the existing destination, or creating it. */
  function Deliver(s: State, src: string, dst: string, verb: Verb, anchor: string, fault: Fault): (State, bool)
    requires src in s.snaps && anchor in Names(s.snaps[src])
  {
    var r := Stream(s.snaps[src], ListOf(s, dst), FindName(s.snaps[src], anchor), src in s.origin, verb, fault);
    if dst in s.snaps then (WithSnaps(s, dst, r.0), r.1)
    else if r.1 then (WithCopy(s, src, dst, r.0), true)
    else (s, false)
  }

  function Restored(s: State, dst: string, lifted: bool, env: Env): State {
    if lifted && env.restoreOk then WithReadonly(s, dst, true) else s
  }

  /** `zfs inherit zboot:mirror`, whose exit status nobody looks at. */
  function Cleared(s: State, d: string, ok: bool): State {
    if ok then WithoutPointer(s, d) else s
  }

  /** A `primary` marker whose write may fail unnoticed. */
  function Flagged(s: State, d: string, on: bool, ok: bool): State {
    if ok then WithPrimary(s, d, on) else s
  }

  /** A marker is no pointer, whether its write takes effect or not. */
  lemma MarkersAside(s: State, d: string, on: bool, ok: bool)
    ensures Flagged(s, d, on, ok) == s.(props := s.props.(primary := Flagged(s, d, on, ok).props.primary))
  {}

  /** The pointer writes of a push. Pointers only exist in the canonical `<pool>/ROOT/<be>` form. */
  function PointersState(s: State, src: string, dst: string, mode: Mode, env: Env): (State, bool) {
    match mode
    case Existing => (s, true)
    case AdHocUnpaired => (Cleared(s, dst, env.soft.clear), true)
    case BootstrapPaired =>
      var toDst, toSrc := ParsePointer(dst), ParsePointer(src);
      if toDst.None? || toSrc.None? || env.fault.AtSourcePointer? then (s, false)
      else
        var s1 := Flagged(WithPointer(s, src, toDst.value), src, true, env.soft.markSrc);
        if dst in s1.props.mirror then (s1, true)
        else if env.fault.AtDestPointer? then (s1, false)
        else (Flagged(WithPointer(s1, dst, toSrc.value), dst, false, env.soft.markDst), true)
  }

  function PruneBoth(s: State, src: string, dst: string, anchor: string, env: Env): State
    requires src in s.snaps && dst in s.snaps
  {
    var s1 := WithSnaps(s, src, Pruned(s.snaps[src], anchor, env.stuckSrc));
    WithSnaps(s1, dst, Pruned(s1.snaps[dst], anchor, env.stuckDst))
  }

  /** The contract of a received BE, then the readonly safety rail. */
  function Sealed(s: State, dst: string, env: Env): (State, bool) {
    if env.fault.AtContract? then (s, false)
    else if env.fault.AtReadonlyOn? then (WithContract(s, dst), false)
    else (WithReadonly(WithContract(s, dst), dst, true), true)
  }

  /** After the bytes have landed: contract, readonly, pointers, prune. */
  function Settle(s: State, src: string, dst: string, verb: Verb, anchor: string, env: Env): (State, Outcome)
    requires src in s.snaps && dst in s.snaps
  {
    var (s1, kept) := Sealed(s, dst, env);
    if !kept then (s1, Failed)
    else
      var (s2, ok) := if verb.Push? then PointersState(s1, src, dst, verb.mode, env) else (s1, true);
      if !ok then (s2, Failed) else (PruneBoth(s2, src, dst, anchor, env), Sent)
  }

  /** The transfer once readonly is out of the way. Only mirror stops when the anchor is already the common base. */
  function LiftedState(s: State, src: string, dst: string, verb: Verb, anchor: string, lifted: bool, env: Env)
    : (State, Outcome)
    requires src in s.snaps && anchor in Names(s.snaps[src])
  {
    if verb.Mirror? && dst in s.snaps && LatestShared(s.snaps[src], s.snaps[dst]) == FindName(s.snaps[src], anchor)
    then (PruneBoth(s, src, dst, anchor, env), NoOp)
    else
      var (s1, ok) := Deliver(s, src, dst, verb, anchor, env.fault);
      if !ok then (Restored(s1, dst, lifted, env), Failed) else Settle(s1, src, dst, verb, anchor, env)
  }

  /** The transfer once the source carries the anchor. */
  function TransmitState(s: State, src: string, dst: string, verb: Verb, anchor: string, env: Env): (State, Outcome)
    requires src in s.snaps && anchor in Names(s.snaps[src])
  {
    var lifted := LiftsReadonly(s, dst, verb);
    if lifted && env.fault.AtReadonlyOff? then (s, Failed)
    else LiftedState(Lifted(s, dst, verb), src, dst, verb, anchor, lifted, env)
  }

  function SendState(s: State, src: string, dst: string, verb: Verb, bound: Option<string>, env: Env): (State, Outcome)
    requires src in s.snaps
    requires bound.Some? ==> bound.value in Names(s.snaps[src])
  {
    var anchor := AnchorName(bound, env);
    if bound.Some? then TransmitState(s, src, dst, verb, anchor, env)
    else if env.fault.AtSnapshot? || anchor in Names(s.snaps[src]) then (s, Failed)
    else
      var s1 := WithSnapshot(s, src, anchor);
      GuidAt(s1.snaps[src], |s.snaps[src]|);
      TransmitState(s1, src, dst, verb, anchor, env)
  }

  /** `zfs rollback -r <dst>@<bound>`, then contract and readonly; no pointers, no prune. */
  function RewindState(s: State, dst: string, verb: Verb, bound: string, env: Env): (State, Outcome)
    requires dst in s.snaps
  {
    var lifted := LiftsReadonly(s, dst, verb);
    if lifted && env.fault.AtReadonlyOff? then (s, Failed)
    else
      var s1, k := Lifted(s, dst, verb), FindName(s.snaps[dst], bound);
      if env.fault.AtTransfer? || k == |s.snaps[dst]| then (Restored(s1, dst, lifted, env), Failed)
      else
        var (s2, kept) := Sealed(WithSnaps(s1, dst, s.snaps[dst][..k + 1]), dst, env);
        (s2, if kept then Rewound else Failed)
  }

  /** One transfer from `src` to `dst`. A bound that does not exist on the source is refused. */
  function TransferState(s: State, src: string, dst: string, verb: Verb, bound: Option<string>, force: bool, env: Env)
    : (State, Outcome)
  {
    if src !in s.snaps || (bound.Some? && bound.value !in Names(s.snaps[src])) then (s, Refused)
    else match PlanTransfer(s, src, dst, bound, force, env)
      case Refuse => (s, Refused)
      case Rewind => RewindState(s, dst, verb, bound.value, env)
      case Send => SendState(s, src, dst, verb, bound, env)
  }

  // -------------------------------------------------------------------------
  // The verbs
  // -------------------------------------------------------------------------

  method PreviousAnchorOnDest(src: seq<Snap>, dst: seq<Snap>) returns (latest: int)
    ensures latest == LatestShared(src, dst)
  {
    latest := -1;
    for i := 0 to |src|
      invariant -1 <= latest < i
      invariant latest >= 0 ==> src[latest].guid in Guids(dst)
      invariant forall j :: latest < j < i ==> src[j].guid !in Guids(dst)
    {
      if src[i].guid in Guids(dst) {
        latest := i;
      }
    }
    LatestSharedIs(src, dst, latest);
  }

  /** Destroys every `mirror-*` snapshot of `d` except `keep`; a destroy that fails is skipped over. */
  method PruneOldAnchors(z: Zfs, d: string, keep: string, stuck: set<string>)
    requires d in z.s.snaps
    modifies z
    ensures z.s == WithSnaps(old(z.s), d, Pruned(old(z.s).snaps[d], keep, stuck))
  {
    hide Pruned, RemoveName;
    var xs := z.s.snaps[d];
    ghost var s0 := z.s;
    WithSnapsTwice(s0, d, xs, xs);
    PrunedEnds(xs, keep, stuck);
    for i := 0 to |xs|
      invariant z.s == WithSnaps(s0, d, Pruned(xs[..i], keep, stuck) + xs[i..])
    {
      var name := xs[i].name;
      PrunedStep(xs, i, keep, stuck);
      if IsAnchor(name) && name != keep {
        WithSnapsTwice(s0, d, z.s.snaps[d], RemoveName(z.s.snaps[d], name));
        z.Commit(WithoutSnapshot(z.s, d, name), name !in stuck);
      }
    }
  }

  /** `zfs send | zfs receive -F -u`, incremental when the two sides share a snapshot. */
  method SendReceive(z: Zfs, src: string, dst: string, verb: Verb, anchor: string, fault: Fault) returns (ok: bool)
    requires src in z.s.snaps && anchor in Names(z.s.snaps[src])
    modifies z
    ensures (z.s, ok) == Deliver(old(z.s), src, dst, verb, anchor, fault)
  {
    var a, b := z.s.snaps[src], ListOf(z.s, dst);
    var n := FindName(a, anchor);
    var prev := PreviousAnchorOnDest(a, b);
    if prev >= 0 {
      var r := ReceiveIncremental(a, b, prev, n, fault);
      z.Commit(WithSnaps(z.s, dst, r.0), true);
      ok := r.1;
    } else {
      ok := !fault.AtTransfer? && (src in z.s.origin ==> verb.Push?);
      var stream := FullStream(a, n, src in z.s.origin);
      WithSnapsTwice(z.s, dst, b, b);
      z.Commit(if dst in z.s.snaps then WithSnaps(z.s, dst, stream) else WithCopy(z.s, src, dst, stream), ok);
    }
  }

  method Seal(z: Zfs, dst: string, env: Env) returns (ok: bool)
    modifies z
    ensures (z.s, ok) == Sealed(old(z.s), dst, env) && z.s.snaps == old(z.s).snaps
  {
    z.Commit(WithContract(z.s, dst), !env.fault.AtContract?);
    if env.fault.AtContract? {
      return false;
    }
    z.Commit(WithReadonly(z.s, dst, true), !env.fault.AtReadonlyOn?);
    return !env.fault.AtReadonlyOn?;
  }

  method PruneSides(z: Zfs, src: string, dst: string, anchor: string, env: Env)
    requires src in z.s.snaps && dst in z.s.snaps
    modifies z
    ensures z.s == PruneBoth(old(z.s), src, dst, anchor, env)
  {
    PruneOldAnchors(z, src, anchor, env.stuckSrc);
    PruneOldAnchors(z, dst, anchor, env.stuckDst);
  }

  lemma FlaggedTwice(s: State, d: string, on: bool)
    ensures d in s.props.primary && s.props.primary[d] == on ==> WithPrimary(s, d, on) == s
  {
    assert d in s.props.primary && s.props.primary[d] == on ==> s.props.primary[d := on] == s.props.primary;
  }

  method WritePointers(z: Zfs, src: string, dst: string, mode: Mode, env: Env) returns (ok: bool)
    modifies z
    ensures (z.s, ok) == PointersState(old(z.s), src, dst, mode, env) && z.s.snaps == old(z.s).snaps
  {
    ok := true;
    match mode {
      case Existing =>
      case AdHocUnpaired =>
        z.Commit(WithoutPointer(z.s, dst), env.soft.clear);
      case BootstrapPaired =>
        var toDst, toSrc := ParsePointer(dst), ParsePointer(src);
        if toDst.None? || toSrc.None? || env.fault.AtSourcePointer? {
          return false;
        }
        z.Commit(WithPointer(z.s, src, toDst.value), true);
        z.Commit(WithPrimary(z.s, src, true), env.soft.markSrc);
        if dst !in z.s.props.mirror {
          z.Commit(WithPointer(z.s, dst, toSrc.value), !env.fault.AtDestPointer?);
          if env.fault.AtDestPointer? {
            return false;
          }
          z.Commit(WithPrimary(z.s, dst, false), env.soft.markDst);
        } else {
          FlaggedTwice(z.s, src, true);
          z.Commit(WithPrimary(z.s, src, true), env.soft.markSrc);
        }
    }
  }

  method Conclude(z: Zfs, src: string, dst: string, verb: Verb, anchor: string, env: Env) returns (o: Outcome)
    requires src in z.s.snaps && dst in z.s.snaps
    modifies z
    ensures (z.s, o) == Settle(old(z.s), src, dst, verb, anchor, env)
  {
    hide PruneBoth, Sealed, PointersState;
    var ok := Seal(z, dst, env);
    if ok && verb.Push? {
      ok := WritePointers(z, src, dst, verb.mode, env);
    }
    if ok {
      PruneSides(z, src, dst, anchor, env);
    }
    o := if ok then Sent else Failed;
  }

  method TransmitLifted(z: Zfs, src: string, dst: string, verb: Verb, anchor: string, wasReadonly: bool, env: Env)
    returns (o: Outcome)
    requires src in z.s.snaps && anchor in Names(z.s.snaps[src])
    modifies z
    ensures (z.s, o) == LiftedState(old(z.s), src, dst, verb, anchor, wasReadonly, env)
  {
    var upToDate := false;
    if verb.Mirror? && dst in z.s.snaps {
      var prev := PreviousAnchorOnDest(z.s.snaps[src], z.s.snaps[dst]);
      upToDate := prev == FindName(z.s.snaps[src], anchor);
    }
    if upToDate {
      PruneSides(z, src, dst, anchor, env);
      o := NoOp;
    } else {
      var received := SendReceive(z, src, dst, verb, anchor, env.fault);
      if received {
        o := Conclude(z, src, dst, verb, anchor, env);
      } else {
        z.Commit(WithReadonly(z.s, dst, true), wasReadonly && env.restoreOk);
        o := Failed;
      }
    }
  }

  /** From lifting readonly on the destination to pruning both sides. */
  method Transmit(z: Zfs, src: string, dst: string, verb: Verb, anchor: string, env: Env) returns (o: Outcome)
    requires src in z.s.snaps && anchor in Names(z.s.snaps[src])
    modifies z
    ensures (z.s, o) == TransmitState(old(z.s), src, dst, verb, anchor, env)
  {
    var wasReadonly := LiftsReadonly(z.s, dst, verb);
    if wasReadonly {
      z.Commit(WithReadonly(z.s, dst, false), !env.fault.AtReadonlyOff?);
      if env.fault.AtReadonlyOff? {
        return Failed;
      }
    }
    o := TransmitLifted(z, src, dst, verb, anchor, wasReadonly, env);
  }

  method RollBack(z: Zfs, dst: string, verb: Verb, bound: string, env: Env) returns (o: Outcome)
    requires dst in z.s.snaps
    modifies z
    ensures (z.s, o) == RewindState(old(z.s), dst, verb, bound, env)
  {
    var xs := z.s.snaps[dst];
    var wasReadonly := LiftsReadonly(z.s, dst, verb);
    if wasReadonly {
      z.Commit(WithReadonly(z.s, dst, false), !env.fault.AtReadonlyOff?);
      if env.fault.AtReadonlyOff? {
        return Failed;
      }
    }
    var k := FindName(xs, bound);
    if !env.fault.AtTransfer? && k < |xs| {
      z.Commit(WithSnaps(z.s, dst, xs[..k + 1]), true);
      var ok := Seal(z, dst, env);
      o := if ok then Rewound else Failed;
    } else {
      z.Commit(WithReadonly(z.s, dst, true), wasReadonly && env.restoreOk);
      o := Failed;
    }
  }

  /** The bound itself serves as the anchor; without one a fresh `mirror-*` snapshot is taken. */
  method SendFromAnchor(z: Zfs, src: string, dst: string, verb: Verb, bound: Option<string>, env: Env)
    returns (o: Outcome)
    requires src in z.s.snaps && (bound.Some? ==> bound.value in Names(z.s.snaps[src]))
    modifies z
    ensures (z.s, o) == SendState(old(z.s), src, dst, verb, bound, env)
  {
    if bound.Some? {
      o := Transmit(z, src, dst, verb, bound.value, env);
    } else {
      var anchor := AnchorName(bound, env);
      if env.fault.AtSnapshot? || anchor in Names(z.s.snaps[src]) {
        return Failed;
      }
      ghost var n := |z.s.snaps[src]|;
      z.Commit(WithSnapshot(z.s, src, anchor), true);
      GuidAt(z.s.snaps[src], n);
      o := Transmit(z, src, dst, verb, anchor, env);
    }
  }

  /** The divergence and rewind checks, the anchor, then the transfer or the rollback. */
  method CheckAndTransfer(z: Zfs, src: string, dst: string, verb: Verb, bound: Option<string>, force: bool, env: Env)
    returns (o: Outcome)
    requires src in z.s.snaps && (bound.Some? ==> bound.value in Names(z.s.snaps[src]))
    requires !(dst in z.s.snaps && dst in z.s.mounted && dst !in z.s.readonly)
    modifies z
    ensures (z.s, o) == TransferState(old(z.s), src, dst, verb, bound, force, env)
  {
    var extras := OnlyOnRight(z.s.snaps[src], ListOf(z.s, dst));
    if extras != [] && !(force && env.yesDivergence) {
      return Refused;
    }
    if bound.Some? {
      var toDestroy := AfterBound(z.s.snaps[src], ListOf(z.s, dst), bound.value);
      if toDestroy != [] {
        if !(force && env.yesRewind) {
          return Refused;
        }
        o := RollBack(z, dst, verb, bound.value, env);
        return;
      }
    }
    o := SendFromAnchor(z, src, dst, verb, bound, env);
  }

  /** `push`, from one dataset to another, bounded by a named snapshot or not. */
  method PushOne(z: Zfs, src: string, dst: string, mode: Mode, bound: Option<string>, force: bool, env: Env)
    returns (o: Outcome)
    modifies z
    ensures (z.s, o) == TransferState(old(z.s), src, dst, Push(mode), bound, force, env)
  {
    if src !in z.s.snaps || (bound.Some? && bound.value !in Names(z.s.snaps[src])) {
      return Refused;
    }
    if dst in z.s.snaps && dst in z.s.mounted && dst !in z.s.readonly {
      return Refused;
    }
    o := CheckAndTransfer(z, src, dst, Push(mode), bound, force, env);
  }

  /** `pull`: the same transfer towards the local side. */
  method ReceiveInto(z: Zfs, remote: string, local: string, bound: Option<string>, force: bool, env: Env)
    returns (o: Outcome)
    modifies z
    ensures (z.s, o) == TransferState(old(z.s), remote, local, Pull, bound, force, env)
  {
    if remote !in z.s.snaps || (bound.Some? && bound.value !in Names(z.s.snaps[remote])) {
      return Refused;
    }
    if local in z.s.snaps && local in z.s.mounted && local !in z.s.readonly {
      return Refused;
    }
    o := CheckAndTransfer(z, remote, local, Pull, bound, force, env);
  }

  /** One pair of a `mirror` walk: never bounded, no pointer writes. */
  method PushOnePair(z: Zfs, src: string, dst: string, force: bool, env: Env) returns (o: Outcome)
    modifies z
    ensures (z.s, o) == TransferState(old(z.s), src, dst, Mirror, None, force, env)
  {
    if src !in z.s.snaps || (dst in z.s.snaps && dst in z.s.mounted && dst !in z.s.readonly) {
      return Refused;
    }
    o := CheckAndTransfer(z, src, dst, Mirror, None, force, env);
  }
}
