// The promote loop of `drop`: it promotes the first clone listed until none is left, and
// which clones that will be, and so whether the loop ends, can be told beforehand.

module Promotions {
  import opened Text
  import opened Snapshots
  import opened World
  import opened Clones
  import opened Default

  // -------------------------------------------------------------------------
  // The promote loop
  // -------------------------------------------------------------------------

  /** The promotions of a run, one after the other. */
  function PromoteAll(s: State, cs: seq<string>): State {
    if cs == [] then s
    else
      var s1 := PromoteAll(s, cs[..|cs| - 1]);
      if CanPromote(s1, cs[|cs| - 1]) then Promote(s1, cs[|cs| - 1]) else s1
  }

  /** Each one promotes a clone the target still had. */
  ghost predicate PromoteRun(s: State, target: string, cs: seq<string>) {
    cs == [] ||
    (var s1, c := PromoteAll(s, cs[..|cs| - 1]), cs[|cs| - 1];
     PromoteRun(s, target, cs[..|cs| - 1]) && c in ClonesOf(s1, target) && CanPromote(s1, c))
  }

  lemma Smaller(a: set<string>, b: set<string>)
    requires a < b
    ensures |a| < |b|
  {
    assert b == a + (b - a);
    assert b - a != {};
  }

  /** Each promotion leaves the target with strictly fewer clones. */
  lemma CloneCount(s: State, rank: map<string, nat>, target: string, c: string)
    requires Ranked(s, rank) && CanPromote(s, c) && c in ClonesOf(s, target)
    ensures ClonesOf(Promote(s, c), target) < ClonesOf(s, target)
    ensures |ClonesOf(Promote(s, c), target)| < |ClonesOf(s, target)|
  {
    hide Promote, Moves;
    var before, after := ClonesOf(s, target), ClonesOf(Promote(s, c), target);
    PromoteShrinksClones(s, rank, c);
    assert c in before && c !in after && after <= before;
    Smaller(after, before);
  }

  lemma PromoteOnlyMoves(s: State, c: string)
    requires CanPromote(s, c)
    ensures var t := Promote(s, c); t == s.(snaps := t.snaps, origin := t.origin) && t.snaps.Keys == s.snaps.Keys
  {
    hide NewOrigin, UpTo;
  }

  /** What a run of promotions keeps, and how it shortens the list of clones. */
  lemma {:induction false} RunFacts(s: State, rank: map<string, nat>, target: string, cs: seq<string>)
    returns (rank1: map<string, nat>)
    requires Grounded(s) && Ranked(s, rank) && PromoteRun(s, target, cs)
    ensures var t := PromoteAll(s, cs);
      && Grounded(t) && Ranked(t, rank1)
      && t == s.(snaps := t.snaps, origin := t.origin) && t.snaps.Keys == s.snaps.Keys
      && ClonesOf(t, target) <= ClonesOf(s, target)
      && |cs| + |ClonesOf(t, target)| <= |ClonesOf(s, target)|
  {
    hide Grounded, CanPromote, Promote, ClonesOf;
    rank1 := rank;
    if cs != [] {
      var s1, c := PromoteAll(s, cs[..|cs| - 1]), cs[|cs| - 1];
      var r := RunFacts(s, rank, target, cs[..|cs| - 1]);
      PromoteStaysGrounded(s1, r, c);
      PromoteStaysRanked(s1, r, c);
      CloneCount(s1, r, target, c);
      PromoteOnlyMoves(s1, c);
      rank1 := PromotedRank(s1, c, r);
    }
  }

  /** Only snapshots and origins move in a promotion. */
  lemma {:induction false} PromotionsKeepProps(s: State, cs: seq<string>)
    ensures var t := PromoteAll(s, cs); t == s.(snaps := t.snaps, origin := t.origin) && t.snaps.Keys == s.snaps.Keys
  {
    hide CanPromote;
    if cs != [] {
      PromotionsKeepProps(s, cs[..|cs| - 1]);
      var s1 := PromoteAll(s, cs[..|cs| - 1]);
      if CanPromote(s1, cs[|cs| - 1]) {
        PromoteOnlyMoves(s1, cs[|cs| - 1]);
      }
    }
  }

  /** No promotion of a run changes any dataset's history. */
  lemma {:induction false} RunKeepsHistory(s: State, rank: map<string, nat>, target: string, cs: seq<string>, h: Table)
    requires Grounded(s) && Ranked(s, rank) && PromoteRun(s, target, cs) && IsHistory(s, h)
    ensures IsHistory(PromoteAll(s, cs), h)
  {
    hide Grounded, Ranked, CanPromote, IsHistory;
    if cs != [] {
      RunKeepsHistory(s, rank, target, cs[..|cs| - 1], h);
      var r := RunFacts(s, rank, target, cs[..|cs| - 1]);
      PromoteKeepsHistory(PromoteAll(s, cs[..|cs| - 1]), r, cs[|cs| - 1], h);
    }
  }

  /** The first listed dataset cloned from the target. */
  function FirstClone(rows: seq<string>, s: State, target: string): Option<string> {
    if rows == [] then None
    else
      var c := FirstClone(rows[..|rows| - 1], s, target);
      if c.Some? then c
      else if rows[|rows| - 1] in ClonesOf(s, target) then Some(rows[|rows| - 1]) else None
  }

  lemma {:induction false} FirstCloneFinds(rows: seq<string>, s: State, target: string)
    ensures match FirstClone(rows, s, target)
      case Some(c) => c in ClonesOf(s, target)
      case None => forall c :: c in rows ==> c !in ClonesOf(s, target)
  {
    hide ClonesOf;
    if rows != [] {
      FirstCloneFinds(rows[..|rows| - 1], s, target);
      assert rows == rows[..|rows| - 1] + [rows[|rows| - 1]];
    }
  }

  /** The promotion of some clone would fail: on its own, or because a snapshot name is taken on it. */
  ghost predicate SomePromoteFails(s: State, target: string, stuck: set<string>) {
    exists c :: c in ClonesOf(s, target) && (c in stuck || !CanPromote(s, c))
  }

  // -------------------------------------------------------------------------
  // Which clones the loop promotes
  // -------------------------------------------------------------------------

  /** Where a clone's origin stands among the target's snapshots. */
  function Position(s: State, target: string, c: string): nat
    requires target in s.snaps && c in ClonesOf(s, target)
  {
    FindName(s.snaps[target], s.origin[c].name)
  }

  /** The listed clones whose origin is newer than that of every clone listed before them. */
  function Records(s: State, target: string, rows: seq<string>): (r: seq<string>)
    requires target in s.snaps
    ensures forall i :: 0 <= i < |r| ==> r[i] in ClonesOf(s, target)
  {
    if rows == [] then []
    else
      var r, c := Records(s, target, rows[..|rows| - 1]), rows[|rows| - 1];
      if c in ClonesOf(s, target) && (r == [] || Position(s, target, r[|r| - 1]) < Position(s, target, c)) then r + [c]
      else r
  }

  lemma KeepsOrigin(s: State, rank: map<string, nat>, target: string, c: string, r: string)
    requires Grounded(s) && Ranked(s, rank) && CanPromote(s, c) && c in ClonesOf(s, target)
    requires r in ClonesOf(Promote(s, c), target)
    ensures r in s.origin && Promote(s, c).origin[r] == s.origin[r]
  {
    hide Names, FindName;
    PromoteShrinksClones(s, rank, c);
  }

  /** A promotion leaves the clones of newer snapshots, at positions counted from what is left. */
  lemma PositionAfter(s: State, rank: map<string, nat>, target: string, c: string, r: string)
    requires Grounded(s) && Ranked(s, rank) && CanPromote(s, c) && c in ClonesOf(s, target)
    ensures target in s.snaps && Promote(s, c).snaps.Keys == s.snaps.Keys
    ensures r in ClonesOf(Promote(s, c), target) <==>
      r in ClonesOf(s, target) && Position(s, target, c) < Position(s, target, r)
    ensures r in ClonesOf(Promote(s, c), target) ==>
      Position(Promote(s, c), target, r) == Position(s, target, r) - Position(s, target, c) - 1
  {
    hide Names, Promote;
    PromoteShrinksClones(s, rank, c);
    PromotedLists(s, c);
    if r in ClonesOf(Promote(s, c), target) {
      KeepsOrigin(s, rank, target, c, r);
      StaysName(UpTo(s, s.origin[c]), Promote(s, c).snaps[target], s.origin[r].name);
    }
  }

  /** Promoting the first clone listed leaves the remaining records. */
  lemma {:induction false} RecordsStep(s: State, rank: map<string, nat>, target: string, rows: seq<string>, c: string)
    requires Grounded(s) && Ranked(s, rank) && CanPromote(s, c) && c in ClonesOf(s, target) && target in s.snaps
    requires target in Promote(s, c).snaps
    requires FirstClone(rows, s, target).None? || FirstClone(rows, s, target) == Some(c)
    ensures FirstClone(rows, s, target).None? ==>
      Records(s, target, rows) == [] && Records(Promote(s, c), target, rows) == []
    ensures FirstClone(rows, s, target).Some? ==>
      Records(s, target, rows) == [c] + Records(Promote(s, c), target, rows)
  {
    hide ClonesOf, Promote, CanPromote, Position, Grounded, Ranked;
    if rows != [] {
      var init, last, t := rows[..|rows| - 1], rows[|rows| - 1], Promote(s, c);
      RecordsStep(s, rank, target, init, c);
      PositionAfter(s, rank, target, c, last);
      var r := Records(t, target, init);
      if r != [] {
        PositionAfter(s, rank, target, c, r[|r| - 1]);
      }
    }
  }

  /** The snapshots the `i`th record takes over: those past the record before it, up to its own origin. */
  function Share(s: State, target: string, recs: seq<string>, i: nat): seq<Snap>
    requires target in s.snaps && i < |recs| && forall j :: 0 <= j < |recs| ==> recs[j] in ClonesOf(s, target)
  {
    var all := s.snaps[target];
    var from := if i == 0 then 0 else Position(s, target, recs[i - 1]) + 1;
    var to := Position(s, target, recs[i]) + 1;
    if from <= to <= |all| then all[from..to] else []
  }

  /** The `i`th record's promotion goes through: it does not fail by itself, and no snapshot name is taken on it. */
  predicate Goes(s: State, target: string, stuck: set<string>, recs: seq<string>, i: nat)
    requires target in s.snaps && i < |recs| && forall j :: 0 <= j < |recs| ==> recs[j] in ClonesOf(s, target)
  {
    recs[i] !in stuck && recs[i] in s.snaps && Names(Share(s, target, recs, i)) !! Names(s.snaps[recs[i]])
  }

  predicate AllGo(s: State, target: string, stuck: set<string>, rows: seq<string>)
    requires target in s.snaps
  {
    forall i :: 0 <= i < |Records(s, target, rows)| ==> Goes(s, target, stuck, Records(s, target, rows), i)
  }

  /** For the first record this is the test `zfs promote` makes now. */
  lemma FirstGoes(s: State, rank: map<string, nat>, target: string, stuck: set<string>, recs: seq<string>)
    requires Grounded(s) && Ranked(s, rank) && target in s.snaps && recs != []
    requires forall j :: 0 <= j < |recs| ==> recs[j] in ClonesOf(s, target)
    ensures Goes(s, target, stuck, recs, 0) <==> recs[0] !in stuck && CanPromote(s, recs[0])
  {
    hide Names, FindName;
    var c := recs[0];
    assert HasSnapshot(s, s.origin[c]);
    assert Share(s, target, recs, 0) == UpTo(s, s.origin[c]);
  }

  lemma CloneListKept(s: State, rank: map<string, nat>, target: string, c: string, r: string)
    requires Grounded(s) && Ranked(s, rank) && CanPromote(s, c) && c in ClonesOf(s, target)
    requires r in ClonesOf(Promote(s, c), target)
    ensures r in s.snaps && r in Promote(s, c).snaps && Promote(s, c).snaps[r] == s.snaps[r]
  {
    hide Names, FindName;
    PromoteShrinksClones(s, rank, c);
    PromotedLists(s, c);
  }

  lemma OriginsList(s: State, target: string, c: string)
    requires CanPromote(s, c) && c in ClonesOf(s, target)
    ensures target in s.snaps && Promote(s, c).snaps.Keys == s.snaps.Keys
    ensures Position(s, target, c) < |s.snaps[target]|
    ensures s.snaps[target] == s.snaps[target][..Position(s, target, c) + 1] + Promote(s, c).snaps[target]
  {
    hide Names;
    PromotedLists(s, c);
  }

  lemma DropThenSlice(l: seq<Snap>, r: seq<Snap>, all: seq<Snap>)
    requires all == l + r
    ensures forall i, j :: 0 <= i <= j <= |r| ==> r[i..j] == all[|l| + i..|l| + j]
  {}

  lemma ShareStep(s: State, rank: map<string, nat>, target: string, c: string, recs: seq<string>, i: nat)
    requires Grounded(s) && Ranked(s, rank) && CanPromote(s, c) && c in ClonesOf(s, target) && target in s.snaps
    requires target in Promote(s, c).snaps
    requires i < |recs| && forall j :: 0 <= j < |recs| ==> recs[j] in ClonesOf(Promote(s, c), target)
    requires forall j :: 0 <= j < |[c] + recs| ==> ([c] + recs)[j] in ClonesOf(s, target)
    ensures Share(Promote(s, c), target, recs, i) == Share(s, target, [c] + recs, i + 1)
  {
    hide Names, Promote, ClonesOf, Position, Grounded, Ranked;
    var t, both := Promote(s, c), [c] + recs;
    PositionAfter(s, rank, target, c, recs[i]);
    if i > 0 {
      PositionAfter(s, rank, target, c, recs[i - 1]);
      assert both[i] == recs[i - 1];
    }
    assert both[i + 1] == recs[i];
    OriginsList(s, target, c);
    var n := Position(s, target, c) + 1;
    DropThenSlice(s.snaps[target][..n], t.snaps[target], s.snaps[target]);
  }

  /** For the later ones it is unchanged by the first promotion. */
  lemma GoesStep(s: State, rank: map<string, nat>, target: string, stuck: set<string>, c: string, recs: seq<string>,
                 i: nat)
    requires Grounded(s) && Ranked(s, rank) && CanPromote(s, c) && c in ClonesOf(s, target) && target in s.snaps
    requires target in Promote(s, c).snaps
    requires i < |recs| && forall j :: 0 <= j < |recs| ==> recs[j] in ClonesOf(Promote(s, c), target)
    ensures forall j :: 0 <= j < |recs| ==> recs[j] in ClonesOf(s, target)
    ensures forall j :: 0 <= j < |[c] + recs| ==> ([c] + recs)[j] in ClonesOf(s, target)
    ensures Goes(Promote(s, c), target, stuck, recs, i) <==> Goes(s, target, stuck, [c] + recs, i + 1)
  {
    hide Names, Promote, ClonesOf, Position, Grounded, Ranked;
    var t := Promote(s, c);
    forall j | 0 <= j < |recs| ensures recs[j] in ClonesOf(s, target) {
      PositionAfter(s, rank, target, c, recs[j]);
    }
    PositionAfter(s, rank, target, c, recs[i]);
    if i > 0 {
      PositionAfter(s, rank, target, c, recs[i - 1]);
    }
    ShareStep(s, rank, target, c, recs, i);
    CloneListKept(s, rank, target, c, recs[i]);
  }

  /** One turn of the loop: the records but the first remain, and so does the answer whether they go through. */
  lemma AllGoStep(s: State, rank: map<string, nat>, target: string, stuck: set<string>, rows: seq<string>, c: string)
    requires Grounded(s) && Ranked(s, rank) && CanPromote(s, c) && target in s.snaps && c !in stuck
    requires FirstClone(rows, s, target) == Some(c)
    ensures target in Promote(s, c).snaps
    ensures Records(s, target, rows) == [c] + Records(Promote(s, c), target, rows)
    ensures AllGo(s, target, stuck, rows) <==> AllGo(Promote(s, c), target, stuck, rows)
  {
    hide ClonesOf, Promote, CanPromote, Position, Grounded, Ranked, Goes, Records;
    var t := Promote(s, c);
    FirstCloneFinds(rows, s, target);
    PositionAfter(s, rank, target, c, c);
    RecordsStep(s, rank, target, rows, c);
    var recs, rest := Records(s, target, rows), Records(t, target, rows);
    FirstGoes(s, rank, target, stuck, recs);
    forall i | 0 <= i < |rest| ensures Goes(t, target, stuck, rest, i) <==> Goes(s, target, stuck, recs, i + 1) {
      GoesStep(s, rank, target, stuck, c, rest, i);
    }
    if AllGo(t, target, stuck, rows) {
      forall i | 0 <= i < |recs| ensures Goes(s, target, stuck, recs, i) {
        if i > 0 {
          assert Goes(t, target, stuck, rest, i - 1);
        }
      }
    } else {
      var i :| 0 <= i < |rest| && !Goes(t, target, stuck, rest, i);
      assert !Goes(s, target, stuck, recs, i + 1);
    }
  }

  lemma {:induction false} FirstRecord(s: State, target: string, rows: seq<string>, c: string)
    requires target in s.snaps
    ensures FirstClone(rows, s, target).None? <==> Records(s, target, rows) == []
    ensures FirstClone(rows, s, target) == Some(c) ==>
      Records(s, target, rows) != [] && Records(s, target, rows)[0] == c
  {
    hide ClonesOf, Position;
    if rows != [] {
      FirstRecord(s, target, rows[..|rows| - 1], c);
    }
  }

  /** A clone that cannot be promoted when its turn comes is a record that does not go through. */
  lemma StopsAtFirst(s: State, rank: map<string, nat>, target: string, stuck: set<string>, rows: seq<string>, c: string)
    requires Grounded(s) && Ranked(s, rank) && target in s.snaps && FirstClone(rows, s, target) == Some(c)
    requires c in stuck || !CanPromote(s, c)
    ensures !AllGo(s, target, stuck, rows)
  {
    hide ClonesOf, CanPromote, Position, Grounded, Ranked, Goes;
    FirstRecord(s, target, rows, c);
    FirstGoes(s, rank, target, stuck, Records(s, target, rows));
  }

  // -------------------------------------------------------------------------
  // The loop
  // -------------------------------------------------------------------------

  const ROUNDS := 256

  /** After any number of promotions: no history has changed, and no more were needed than there were clones. */
  lemma RunSummary(s: State, rank: map<string, nat>, target: string, cs: seq<string>)
    requires Grounded(s) && Ranked(s, rank) && PromoteRun(s, target, cs)
    ensures var t := PromoteAll(s, cs);
      && Grounded(t) && t.snaps.Keys == s.snaps.Keys
      && |cs| + |ClonesOf(t, target)| <= |ClonesOf(s, target)|
      && forall h :: IsHistory(s, h) ==> IsHistory(t, h)
  {
    hide Ranked, CanPromote, IsHistory, ClonesOf;
    var r := RunFacts(s, rank, target, cs);
    forall h | IsHistory(s, h) ensures IsHistory(PromoteAll(s, cs), h) {
      RunKeepsHistory(s, rank, target, cs, h);
    }
  }

  lemma NoClones(rows: seq<string>, s: State, target: string)
    requires Grounded(s) && Lists(rows, s.snaps.Keys)
    requires forall c :: c in rows ==> c !in ClonesOf(s, target)
    ensures ClonesOf(s, target) == {}
  {
    forall c ensures c !in ClonesOf(s, target) {
      assert c in s.origin ==> c in rows;
    }
  }

  lemma PromotedOneMore(s: State, cs: seq<string>, c: string)
    ensures PromoteAll(s, cs + [c]) ==
      if CanPromote(PromoteAll(s, cs), c) then Promote(PromoteAll(s, cs), c) else PromoteAll(s, cs)
  {
    hide CanPromote;
    assert (cs + [c])[..|cs|] == cs;
  }

  /**
   * Where the loop has got to: the records promoted so far, and what is left of the question whether all go through.
   */
  ghost predicate Along(s: State, t: State, target: string, stuck: set<string>, rows: seq<string>,
                        promoted: seq<string>)
    requires target in s.snaps
  {
    && t == PromoteAll(s, promoted) && PromoteRun(s, target, promoted) && target in t.snaps
    && Records(s, target, rows) == promoted + Records(t, target, rows)
    && (AllGo(s, target, stuck, rows) <==> AllGo(t, target, stuck, rows))
  }

  lemma StartsAlong(s: State, target: string, stuck: set<string>, rows: seq<string>)
    requires target in s.snaps
    ensures Along(s, s, target, stuck, rows, [])
  {
    hide Records, AllGo;
  }

  lemma AlongStep(s: State, rank: map<string, nat>, t: State, target: string, stuck: set<string>, rows: seq<string>,
                  promoted: seq<string>, c: string)
    requires Grounded(s) && Ranked(s, rank) && target in s.snaps && Along(s, t, target, stuck, rows, promoted)
    requires FirstClone(rows, t, target) == Some(c) && c !in stuck && CanPromote(t, c)
    ensures Along(s, Promote(t, c), target, stuck, rows, promoted + [c])
  {
    hide Grounded, Ranked, CanPromote, Promote, ClonesOf, Records, AllGo, FirstClone;
    var rank1 := RunFacts(s, rank, target, promoted);
    FirstCloneFinds(rows, t, target);
    PromotedOneMore(s, promoted, c);
    AllGoStep(t, rank1, target, stuck, rows, c);
    assert (promoted + [c])[..|promoted + [c]| - 1] == promoted;
  }

  lemma NothingLeft(s: State, target: string, stuck: set<string>, rows: seq<string>)
    requires target in s.snaps && FirstClone(rows, s, target).None?
    ensures Records(s, target, rows) == [] && AllGo(s, target, stuck, rows)
  {
    hide ClonesOf, Position;
    FirstRecord(s, target, rows, "");
  }

  /** What the loop reports is decided by the records of the state it started from. */
  lemma AlongEnds(s: State, rank: map<string, nat>, t: State, target: string, stuck: set<string>, rows: seq<string>,
                  promoted: seq<string>)
    requires Grounded(s) && Ranked(s, rank) && target in s.snaps && Along(s, t, target, stuck, rows, promoted)
    requires Lists(rows, s.snaps.Keys)
    ensures match FirstClone(rows, t, target)
      case None => ClonesOf(t, target) == {} && promoted == Records(s, target, rows) && AllGo(s, target, stuck, rows)
      case Some(c) =>
        && c in ClonesOf(t, target)
        && (c in stuck || !CanPromote(t, c) ==> SomePromoteFails(t, target, stuck) && !AllGo(s, target, stuck, rows))
  {
    hide Grounded, Ranked, CanPromote, Promote, ClonesOf, Records, AllGo, FirstClone, Lists;
    var rank1 := RunFacts(s, rank, target, promoted);
    FirstCloneFinds(rows, t, target);
    match FirstClone(rows, t, target) {
      case None =>
        NoClones(rows, t, target);
        NothingLeft(t, target, stuck, rows);
      case Some(c) =>
        if c in stuck || !CanPromote(t, c) {
          StopsAtFirst(t, rank1, target, stuck, rows, c);
        }
    }
  }

  /** Promote the first dependent clone and list again, at most ROUNDS times. */
  method PromoteDependents(z: Zfs, target: string, rows: seq<string>, stuck: set<string>, ghost rank: map<string, nat>)
    returns (promoted: seq<string>, ok: bool)
    requires Grounded(z.s) && Ranked(z.s, rank) && target in z.s.snaps && Lists(rows, z.s.snaps.Keys)
    modifies z
    ensures z.s == PromoteAll(old(z.s), promoted) && PromoteRun(old(z.s), target, promoted)
    ensures promoted <= Records(old(z.s), target, rows)
    ensures ok <==> |Records(old(z.s), target, rows)| < ROUNDS && AllGo(old(z.s), target, stuck, rows)
    ensures ok ==> promoted == Records(old(z.s), target, rows)
    ensures ok ==> ClonesOf(z.s, target) == {} && |promoted| < ROUNDS
    ensures !ok && ClonesOf(z.s, target) == {} <==>
      |Records(old(z.s), target, rows)| == ROUNDS && AllGo(old(z.s), target, stuck, rows)
    ensures !ok ==> |promoted| == ROUNDS || SomePromoteFails(z.s, target, stuck)
    ensures |promoted| <= |ClonesOf(old(z.s), target)|
    ensures forall h :: IsHistory(old(z.s), h) ==> IsHistory(z.s, h)
  {
    hide Grounded, Ranked, CanPromote, Promote, IsHistory, ClonesOf, Records, AllGo, FirstClone, SomePromoteFails,
         PromoteAll, PromoteRun;
    ghost var s0 := z.s;
    promoted := [];
    StartsAlong(s0, target, stuck, rows);
    for i := 0 to ROUNDS
      invariant |promoted| == i && Along(s0, z.s, target, stuck, rows, promoted)
    {
      AlongEnds(s0, rank, z.s, target, stuck, rows, promoted);
      RunSummary(s0, rank, target, promoted);
      var candidate := FirstClone(rows, z.s, target);
      if candidate.None? {
        ok := true;
        return;
      }
      if candidate.value in stuck || !CanPromote(z.s, candidate.value) {
        ok := false;
        return;
      }
      AlongStep(s0, rank, z.s, target, stuck, rows, promoted, candidate.value);
      z.Commit(Promote(z.s, candidate.value), true);
      promoted := promoted + [candidate.value];
    }
    RunSummary(s0, rank, target, promoted);
    AlongEnds(s0, rank, z.s, target, stuck, rows, promoted);
    FirstRecord(z.s, target, rows, "");
    ok := false;
  }

  /** When all records go through, promoting them leaves nothing cloned from the target. */
  lemma {:induction false} RecordsSuffice(s: State, rank: map<string, nat>, t: State, target: string,
                                          stuck: set<string>, rows: seq<string>, promoted: seq<string>)
    requires Grounded(s) && Ranked(s, rank) && target in s.snaps && Along(s, t, target, stuck, rows, promoted)
    requires Lists(rows, s.snaps.Keys) && AllGo(s, target, stuck, rows)
    ensures PromoteRun(s, target, Records(s, target, rows))
    ensures ClonesOf(PromoteAll(s, Records(s, target, rows)), target) == {}
    decreases |Records(t, target, rows)|
  {
    hide Grounded, Ranked, CanPromote, Promote, ClonesOf, Records, AllGo, FirstClone, PromoteAll, PromoteRun, Lists;
    AlongEnds(s, rank, t, target, stuck, rows, promoted);
    if FirstClone(rows, t, target).Some? {
      var c := FirstClone(rows, t, target).value;
      AlongStep(s, rank, t, target, stuck, rows, promoted, c);
      RecordsSuffice(s, rank, Promote(t, c), target, stuck, rows, promoted + [c]);
    }
  }

  // -------------------------------------------------------------------------
  // How many records a listing can have
  // -------------------------------------------------------------------------

  /** The snapshots the given datasets are cloned from, as far as they are the target's. */
  function Origins(s: State, target: string, ds: set<string>): set<SnapshotRef> {
    set d | d in ds && d in ClonesOf(s, target) :: s.origin[d]
  }

  /** Two clones start from the same snapshot exactly when their origins stand at the same place. */
  lemma SamePosition(s: State, target: string, c: string, d: string)
    requires Grounded(s) && target in s.snaps && c in ClonesOf(s, target) && d in ClonesOf(s, target)
    ensures Position(s, target, c) == Position(s, target, d) <==> s.origin[c] == s.origin[d]
  {
    hide FindName, Names;
    assert HasSnapshot(s, s.origin[c]) && HasSnapshot(s, s.origin[d]);
  }

  /** The records' origins are pairwise different. */
  lemma {:induction false} RecordsAreFew(s: State, target: string, rows: seq<string>, all: set<string>)
    returns (origins: set<SnapshotRef>)
    requires Grounded(s) && target in s.snaps && forall d :: d in rows ==> d in all
    ensures origins <= Origins(s, target, all) && |origins| == |Records(s, target, rows)|
    ensures var r := Records(s, target, rows);
      forall d :: d in ClonesOf(s, target) && s.origin[d] in origins ==>
        r != [] && Position(s, target, d) <= Position(s, target, r[|r| - 1])
  {
    hide Position, Grounded;
    if rows == [] {
      origins := {};
    } else {
      var init, c := rows[..|rows| - 1], rows[|rows| - 1];
      var before := RecordsAreFew(s, target, init, all);
      origins := before;
      if |Records(s, target, rows)| > |Records(s, target, init)| {
        origins := before + {s.origin[c]};
        assert c in all && s.origin[c] in Origins(s, target, all);
        forall d | d in ClonesOf(s, target) && s.origin[d] == s.origin[c]
          ensures Position(s, target, d) == Position(s, target, c)
        {
          SamePosition(s, target, c, d);
        }
      }
    }
  }

  lemma NoMore<T>(a: set<T>, b: set<T>)
    requires a <= b
    ensures |a| <= |b|
  {
    assert b == a + (b - a);
  }

  /** The clone with the newest origin. */
  lemma {:induction false} NewestClone(s: State, target: string, ds: set<string>) returns (c: string)
    requires target in s.snaps && ds <= ClonesOf(s, target) && ds != {}
    ensures c in ds && forall d :: d in ds ==> Position(s, target, d) <= Position(s, target, c)
    decreases |ds|
  {
    hide Position, ClonesOf;
    c :| c in ds;
    if ds != {c} {
      var best := NewestClone(s, target, ds - {c});
      if Position(s, target, c) < Position(s, target, best) {
        c := best;
      }
    }
  }

  lemma {:induction false} NoRecords(s: State, target: string, rows: seq<string>)
    requires target in s.snaps && forall d :: d in rows ==> d !in ClonesOf(s, target)
    ensures Records(s, target, rows) == []
  {
    hide ClonesOf, Position;
    if rows != [] {
      var init, last := rows[..|rows| - 1], rows[|rows| - 1];
      assert rows == init + [last];
      assert last in rows && forall d :: d in init ==> d in rows;
      NoRecords(s, target, init);
    }
  }

  lemma {:induction false} SomeListing(all: set<string>) returns (rows: seq<string>)
    ensures Lists(rows, all)
    decreases |all|
  {
    rows := [];
    if all != {} {
      var d :| d in all;
      var rest := SomeListing(all - {d});
      rows := rest + [d];
    }
  }

  lemma {:induction false} RecordsAreListed(s: State, target: string, rows: seq<string>)
    requires target in s.snaps
    ensures forall c :: c in Records(s, target, rows) ==> c in rows
  {
    hide ClonesOf, Position;
    if rows != [] {
      RecordsAreListed(s, target, rows[..|rows| - 1]);
      assert rows == rows[..|rows| - 1] + [rows[|rows| - 1]];
    }
  }

  /** The last record has the newest origin of all. */
  ghost predicate EndsNewest(s: State, target: string, rows: seq<string>, all: set<string>)
    requires target in s.snaps
  {
    var r := Records(s, target, rows);
    forall d :: d in all && d in ClonesOf(s, target) ==>
      r != [] && Position(s, target, d) <= Position(s, target, r[|r| - 1])
  }

  ghost predicate IsNewest(s: State, target: string, all: set<string>, c: string)
    requires target in s.snaps && c in ClonesOf(s, target)
  {
    forall d :: d in all && d in ClonesOf(s, target) ==> Position(s, target, d) <= Position(s, target, c)
  }

  /** The newest one is a record exactly when its origin is new among the listed ones. */
  lemma NewestAdds(s: State, target: string, all: set<string>, rows: seq<string>, c: string)
    requires Grounded(s) && target in s.snaps && c in ClonesOf(s, target) && Lists(rows, all)
    requires EndsNewest(s, target, rows, all) && IsNewest(s, target, all, c)
    ensures var r := Records(s, target, rows);
      (r == [] || Position(s, target, r[|r| - 1]) < Position(s, target, c)) <==> s.origin[c] !in Origins(s, target, all)
  {
    hide Position, Grounded;
    var r := Records(s, target, rows);
    if r != [] {
      RecordsAreListed(s, target, rows);
      var last := r[|r| - 1];
      assert last in rows;
      SamePosition(s, target, c, last);
      if s.origin[c] in Origins(s, target, all) {
        var d :| d in all && d in ClonesOf(s, target) && s.origin[d] == s.origin[c];
        SamePosition(s, target, c, d);
      }
    }
  }

  lemma MoreOrigins(s: State, target: string, all: set<string>, c: string)
    requires c in ClonesOf(s, target)
    ensures var now, more := Origins(s, target, all), Origins(s, target, all + {c});
      more == now + {s.origin[c]} && |more| == |now| + if s.origin[c] in now then 0 else 1
  {
    var now := Origins(s, target, all);
    assert Origins(s, target, all + {c}) == now + {s.origin[c]};
    assert s.origin[c] in now ==> now + {s.origin[c]} == now;
  }

  lemma ListOneMore(rows: seq<string>, all: set<string>, c: string)
    requires Lists(rows, all) && c !in all
    ensures Lists(rows + [c], all + {c})
  {
    forall x ensures x in rows + [c] <==> x in all + {c} {
      assert x in rows <==> x in all;
    }
    forall i | 0 <= i < |rows| ensures rows[i] != c {
      assert rows[i] in rows;
    }
  }

  lemma RecordsOneMore(s: State, target: string, rows: seq<string>, c: string)
    requires target in s.snaps && c in ClonesOf(s, target)
    ensures var r := Records(s, target, rows);
      Records(s, target, rows + [c]) ==
        if r == [] || Position(s, target, r[|r| - 1]) < Position(s, target, c) then r + [c] else r
  {
    hide Position, ClonesOf;
    assert (rows + [c])[..|rows + [c]| - 1] == rows;
  }

  /** Listing the newest one last adds its origin, to the records as to the origins. */
  lemma AddNewest(s: State, target: string, all: set<string>, rows: seq<string>, c: string)
    requires Grounded(s) && target in s.snaps && c in ClonesOf(s, target) && c !in all && Lists(rows, all)
    requires EndsNewest(s, target, rows, all) && IsNewest(s, target, all, c)
    requires |Records(s, target, rows)| == |Origins(s, target, all)|
    ensures Lists(rows + [c], all + {c}) && EndsNewest(s, target, rows + [c], all + {c})
    ensures |Records(s, target, rows + [c])| == |Origins(s, target, all + {c})|
  {
    hide Position, Grounded, Origins, ClonesOf, Lists, Records;
    ListOneMore(rows, all, c);
    NewestAdds(s, target, all, rows, c);
    RecordsOneMore(s, target, rows, c);
    MoreOrigins(s, target, all, c);
  }

  lemma NoOrigins(s: State, target: string, all: set<string>)
    requires all !! ClonesOf(s, target)
    ensures Origins(s, target, all) == {}
  {}

  lemma ListedExist(rows: seq<string>, all: set<string>)
    requires Lists(rows, all)
    ensures forall d :: d in rows ==> d in all
  {}

  /** Listed from the oldest origin to the newest, every snapshot cloned from makes a record. */
  lemma {:induction false} WorstListing(s: State, target: string, all: set<string>) returns (rows: seq<string>)
    requires Grounded(s) && target in s.snaps
    ensures Lists(rows, all) && |Records(s, target, rows)| == |Origins(s, target, all)|
    ensures EndsNewest(s, target, rows, all)
    decreases |all|
  {
    hide Position, Grounded, ClonesOf, Origins, Lists, Records;
    var clones := all * ClonesOf(s, target);
    if clones == {} {
      rows := SomeListing(all);
      ListedExist(rows, all);
      forall d | d in rows ensures d !in ClonesOf(s, target) {
        assert d in all && d !in clones;
      }
      NoRecords(s, target, rows);
      NoOrigins(s, target, all);
    } else {
      var c := NewestClone(s, target, clones);
      var init := WorstListing(s, target, all - {c});
      AddNewest(s, target, all - {c}, init, c);
      assert all - {c} + {c} == all;
      rows := init + [c];
    }
  }

  /**
   * No listing makes the loop run out of rounds exactly when fewer than that many of the target's snapshots have
   * clones.
   */
  lemma NoListingRunsOut(s: State, target: string)
    requires Grounded(s) && target in s.snaps
    ensures (forall rows :: Lists(rows, s.snaps.Keys) ==> |Records(s, target, rows)| < 256) <==>
      |Origins(s, target, s.snaps.Keys)| < 256
  {
    hide Records, Origins, Grounded, Lists, Position, ClonesOf;
    var worst := WorstListing(s, target, s.snaps.Keys);
    if |Origins(s, target, s.snaps.Keys)| < ROUNDS {
      forall rows | Lists(rows, s.snaps.Keys) ensures |Records(s, target, rows)| < ROUNDS {
        assert forall d :: d in rows ==> d in s.snaps.Keys by {
          ListedExist(rows, s.snaps.Keys);
        }
        var origins := RecordsAreFew(s, target, rows, s.snaps.Keys);
        NoMore(origins, Origins(s, target, s.snaps.Keys));
      }
    }
  }
}
