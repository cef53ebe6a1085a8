// When a transfer goes through: with no command failing, the exact condition for success.

module Progress {
  import opened Text
  import opened Snapshots
  import opened World
  import opened Transfer
  import opened Safety
  import opened Guarantees

  /** A bootstrap writes pointers, which only canonical names have. */
  predicate CanPoint(verb: Verb, src: string, dst: string) {
    verb == Push(BootstrapPaired) ==> ParsePointer(src).Some? && ParsePointer(dst).Some?
  }

  /**
   * The stream up to the `n`th snapshot lands: on a base older than that and without a name clash, or in full, which
   * for a clone only push sends.
   */
  predicate Streamable(a: seq<Snap>, b: seq<Snap>, n: nat, clone: bool, verb: Verb)
    requires n < |a|
  {
    var p := LatestShared(a, b);
    if p >= 0 then p < n && NamesApart(a, b, p, n) else clone ==> verb.Push?
  }

  /** The destination is what is running, and written to. */
  predicate Live(s: State, d: string) {
    d in s.snaps && d in s.mounted && d !in s.readonly
  }

  lemma SettleSucceeds(s: State, src: string, dst: string, verb: Verb, anchor: string, env: Env)
    requires src in s.snaps && dst in s.snaps && env.fault.NoFault?
    ensures Settle(s, src, dst, verb, anchor, env).1 == Sent <==> CanPoint(verb, src, dst)
  {
    hide Pruned, ParsePointer;
  }

  lemma LiftedSucceeds(s: State, src: string, dst: string, verb: Verb, anchor: string, lifted: bool, env: Env)
    requires src in s.snaps && env.fault.NoFault? && anchor in Names(s.snaps[src])
    requires verb.Mirror? ==> LatestShared(s.snaps[src], ListOf(s, dst)) < FindName(s.snaps[src], anchor)
    ensures LiftedState(s, src, dst, verb, anchor, lifted, env).1 == Sent <==>
      && Streamable(s.snaps[src], ListOf(s, dst), FindName(s.snaps[src], anchor), src in s.origin, verb)
      && CanPoint(verb, src, dst)
  {
    hide Settle, Names, NamesApart, LatestShared, FindName, Received, Guids, CanPoint;
    var (s1, ok) := Deliver(s, src, dst, verb, anchor, env.fault);
    if ok {
      SettleSucceeds(s1, src, dst, verb, anchor, env);
    }
  }

  lemma TransmitSucceeds(s: State, src: string, dst: string, verb: Verb, anchor: string, env: Env)
    requires src in s.snaps && env.fault.NoFault? && anchor in Names(s.snaps[src])
    requires verb.Mirror? ==> LatestShared(s.snaps[src], ListOf(s, dst)) < FindName(s.snaps[src], anchor)
    ensures TransmitState(s, src, dst, verb, anchor, env).1 == Sent <==>
      && Streamable(s.snaps[src], ListOf(s, dst), FindName(s.snaps[src], anchor), src in s.origin, verb)
      && CanPoint(verb, src, dst)
  {
    hide LiftedState, Names, Streamable, LatestShared, FindName, Guids, CanPoint;
    LiftedSucceeds(Lifted(s, dst, verb), src, dst, verb, anchor, LiftsReadonly(s, dst, verb), env);
  }

  /** A fresh anchor does not change the base, and lies past it. */
  lemma {:induction false} FreshKeepsBase(a: seq<Snap>, x: Snap, b: seq<Snap>)
    requires x.guid !in Guids(b) && x.name !in Names(a)
    ensures LatestShared(a + [x], b) == LatestShared(a, b) < |a| == FindName(a + [x], x.name)
    ensures x.name in Names(a + [x])
  {
    AppendLast(a, x);
    FreshAnchorIsLast(a, x);
    assert (a + [x])[|a|] == x;
  }

  /**
   * An unbounded transfer between any two datasets, nothing failing, completes if and only if the destination is not
   * live, a divergence was forced and confirmed, the anchor's name is free on the source, the stream lands, and a
   * bootstrap can write its pointers.
   */
  lemma UnboundedSucceedsExactly(s: State, src: string, dst: string, verb: Verb, force: bool, env: Env)
    requires Ready(s, src, dst) && env.fault.NoFault?
    ensures var a, b, x := s.snaps[src], ListOf(s, dst), Snap(AnchorName(None, env), s.nextGuid);
      TransferState(s, src, dst, verb, None, force, env).1 == Sent <==>
        && !Live(s, dst) && (OnlyOnRight(a, b) == [] || (force && env.yesDivergence))
        && x.name !in Names(a) && Streamable(a + [x], b, |a|, src in s.origin, verb) && CanPoint(verb, src, dst)
  {
    hide TransmitState, Names, Streamable, LatestShared, FindName, Guids, OnlyOnRight, Compatible, CanPoint;
    var a, b, x := s.snaps[src], ListOf(s, dst), Snap(AnchorName(None, env), s.nextGuid);
    if x.name !in Names(a) {
      FreshKeepsBase(a, x, b);
      TransmitSucceeds(WithSnapshot(s, src, x.name), src, dst, verb, x.name, env);
    }
  }

  /** The same for a transfer bounded by a snapshot of the source, which must not ask for a rewind. */
  lemma BoundedSucceedsExactly(s: State, src: string, dst: string, verb: Verb, bound: string, force: bool, env: Env)
    requires Ready(s, src, dst) && env.fault.NoFault? && bound in Names(s.snaps[src]) && !verb.Mirror?
    ensures var a, b := s.snaps[src], ListOf(s, dst);
      TransferState(s, src, dst, verb, Some(bound), force, env).1 == Sent <==>
        && !Live(s, dst) && (OnlyOnRight(a, b) == [] || (force && env.yesDivergence)) && AfterBound(a, b, bound) == []
        && Streamable(a, b, FindName(a, bound), src in s.origin, verb) && CanPoint(verb, src, dst)
  {
    hide TransmitState, Names, Streamable, LatestShared, FindName, Guids, OnlyOnRight, AfterBound, Compatible, CanPoint;
    TransmitSucceeds(s, src, dst, verb, bound, env);
  }

  lemma NothingOnRight(a: seq<Snap>)
    ensures OnlyOnRight(a, []) == [] && LatestShared(a, []) == -1
  {
    AfterLatestShared(a, []);
  }

  /**
   * To a dataset that does not exist yet, the bootstrap of a pair included: the anchor's name is free, of a clone it is
   * a push, and a bootstrap has two canonical names.
   */
  lemma FirstTransferSucceedsExactly(s: State, src: string, dst: string, verb: Verb, force: bool, env: Env)
    requires Ready(s, src, dst) && dst !in s.snaps && env.fault.NoFault?
    ensures TransferState(s, src, dst, verb, None, force, env).1 == Sent <==>
      AnchorName(None, env) !in Names(s.snaps[src]) && (src in s.origin ==> verb.Push?) && CanPoint(verb, src, dst)
  {
    hide TransferState, Names, Compatible, LatestShared, OnlyOnRight, CanPoint;
    var x := Snap(AnchorName(None, env), s.nextGuid);
    NothingOnRight(s.snaps[src]);
    NothingOnRight(s.snaps[src] + [x]);
    UnboundedSucceedsExactly(s, src, dst, verb, force, env);
  }

  /**
   * A transfer bounded by a snapshot the destination is past, nothing failing, cuts the destination at its own
   * snapshot of that name if and only if it has one, is not live, and the rewind, and any divergence, was forced and
   * confirmed.
   */
  lemma RewindSucceedsExactly(s: State, src: string, dst: string, verb: Verb, bound: string, force: bool, env: Env)
    requires src in s.snaps && dst in s.snaps && env.fault.NoFault?
    requires bound in Names(s.snaps[src]) && AfterBound(s.snaps[src], s.snaps[dst], bound) != []
    ensures var (t, o) := TransferState(s, src, dst, verb, Some(bound), force, env);
      && (o == Rewound <==>
           && !Live(s, dst) && bound in Names(s.snaps[dst])
           && force && env.yesRewind && (OnlyOnRight(s.snaps[src], s.snaps[dst]) == [] || env.yesDivergence))
      && (o == Rewound ==> t.snaps == s.snaps[dst := s.snaps[dst][..FindName(s.snaps[dst], bound) + 1]])
  {
    hide SendState, OnlyOnRight, AfterBound, Names;
  }

  lemma SentIsFresh(s: State, src: string, dst: string, verb: Verb, force: bool, env: Env, t: State)
    requires src in s.snaps && (t, Sent) == TransferState(s, src, dst, verb, None, force, env)
    ensures AnchorName(None, env) !in Names(s.snaps[src])
  {
    hide TransmitState, Names, OnlyOnRight;
  }
}
