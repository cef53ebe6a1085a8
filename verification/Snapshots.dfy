// Snapshot lists of single datasets: oldest first, the way `zfs list -s creation`
// prints them, and the comparisons replication makes between two of them.

module Snapshots {

  datatype Snap = Snap(name: string, guid: nat)

  /** `mirror-*` snapshots belong to the replication verbs, not to the operator. */
  predicate IsAnchor(name: string) {
    "mirror-" <= name
  }

  /** What the program tests: the part after the last `@` when there is one. */
  predicate IsReplicationAnchor(snapOrName: string) {
    if '@' in snapOrName then IsReplicationAnchor(snapOrName[1..]) else IsAnchor(snapOrName)
  }

  /** On a full path the test looks at the snapshot's own name only. */
  lemma {:induction false} AnchorOfFullName(dataset: string, name: string)
    requires '@' !in name
    ensures IsReplicationAnchor(dataset + ['@'] + name) <==> |name| >= 7 && name[..7] == "mirror-"
  {
    var full := dataset + ['@'] + name;
    assert full[|dataset|] == '@';
    if dataset == "" {
      assert full[1..] == name;
    } else {
      assert full[1..] == dataset[1..] + ['@'] + name;
      AnchorOfFullName(dataset[1..], name);
    }
  }

  // -------------------------------------------------------------------------
  // Lists
  // -------------------------------------------------------------------------

  function Guids(xs: seq<Snap>): set<nat> {
    if xs == [] then {} else Guids(xs[..|xs| - 1]) + {xs[|xs| - 1].guid}
  }

  function Names(xs: seq<Snap>): set<string> {
    if xs == [] then {} else Names(xs[..|xs| - 1]) + {xs[|xs| - 1].name}
  }

  /** No two snapshots of a dataset share a name or a GUID. */
  ghost predicate Distinct(xs: seq<Snap>) {
    xs == [] ||
    (var init, last := xs[..|xs| - 1], xs[|xs| - 1];
     Distinct(init) && last.guid !in Guids(init) && last.name !in Names(init))
  }

  /** `g` is older than `h` in the list. */
  ghost predicate Before(xs: seq<Snap>, g: nat, h: nat) {
    xs != [] &&
    (var init, last := xs[..|xs| - 1], xs[|xs| - 1];
     Before(init, g, h) || (last.guid == h && g in Guids(init)))
  }

  /** GUIDs present on both sides come in the same order on both. */
  ghost predicate SameOrder(a: seq<Snap>, b: seq<Snap>) {
    forall g, h :: Before(a, g, h) ==> !Before(b, h, g)
  }

  /** Two lists a transfer may find: GUIDs and names distinct, common GUIDs in a common order. */
  ghost predicate Compatible(a: seq<Snap>, b: seq<Snap>) {
    Distinct(a) && Distinct(b) && SameOrder(a, b)
  }

  /** The operator's snapshots, in order: the list without its anchors. */
  function Kept(xs: seq<Snap>): seq<Snap> {
    if xs == [] then []
    else
      var init, last := xs[..|xs| - 1], xs[|xs| - 1];
      if IsAnchor(last.name) then Kept(init) else Kept(init) + [last]
  }

  /** The oldest snapshot of that name, or the length when there is none. */
  function FindName(xs: seq<Snap>, name: string): (n: nat)
    ensures n <= |xs|
    ensures n < |xs| ==> xs[n].name == name
    ensures n < |xs| <==> name in Names(xs)
  {
    if xs == [] then 0
    else
      var m := |xs| - 1;
      var n := FindName(xs[..m], name);
      if n < m || xs[m].name == name then n else |xs|
  }

  function FindGuid(xs: seq<Snap>, guid: nat): (n: nat)
    ensures n <= |xs|
    ensures n < |xs| ==> xs[n].guid == guid
    ensures n < |xs| <==> guid in Guids(xs)
  {
    if xs == [] then 0
    else
      var m := |xs| - 1;
      var n := FindGuid(xs[..m], guid);
      if n < m || xs[m].guid == guid then n else |xs|
  }

  /** The newest source snapshot also on the destination, or -1. */
  function LatestShared(src: seq<Snap>, dst: seq<Snap>): (p: int)
    ensures -1 <= p < |src|
    ensures p >= 0 ==> src[p].guid in Guids(dst)
  {
    if src == [] then -1
    else
      var n := |src| - 1;
      if src[n].guid in Guids(dst) then n else LatestShared(src[..n], dst)
  }

  /** The operator's snapshots whose GUID is, or is not, among the given ones. */
  function Selected(xs: seq<Snap>, guids: set<nat>, among: bool): seq<Snap> {
    if xs == [] then []
    else
      var init, last := xs[..|xs| - 1], xs[|xs| - 1];
      if !IsAnchor(last.name) && (last.guid in guids) == among then Selected(init, guids, among) + [last]
      else Selected(init, guids, among)
  }

  /** Destination snapshots the source does not have, anchors excluded on both sides. */
  function OnlyOnRight(left: seq<Snap>, right: seq<Snap>): seq<Snap> {
    Selected(right, Guids(Kept(left)), false)
  }

  /** Destination snapshots matching something the source took after the bound. */
  function AfterBound(src: seq<Snap>, dst: seq<Snap>, bound: string): seq<Snap> {
    var n := FindName(src, bound);
    if n == |src| then [] else Selected(dst, Guids(Kept(src[n + 1..])), true)
  }

  /** What `send -I src[p] src[n] | receive -F` leaves: cut after the base, then the stream. */
  function Received(src: seq<Snap>, dst: seq<Snap>, p: nat, n: nat): seq<Snap>
    requires p <= n < |src| && src[p].guid in Guids(dst)
  {
    dst[..FindGuid(dst, src[p].guid) + 1] + src[p + 1..n + 1]
  }

  /** Anchors other than `keep` go, except those whose destroy fails. */
  function Pruned(xs: seq<Snap>, keep: string, stuck: set<string>): seq<Snap> {
    if xs == [] then []
    else
      var init, last := xs[..|xs| - 1], xs[|xs| - 1];
      if IsAnchor(last.name) && last.name != keep && last.name !in stuck then Pruned(init, keep, stuck)
      else Pruned(init, keep, stuck) + [last]
  }

  function RemoveName(xs: seq<Snap>, name: string): seq<Snap> {
    var n := FindName(xs, name);
    if n == |xs| then xs else xs[..n] + xs[n + 1..]
  }

  // -------------------------------------------------------------------------
  // Concatenation
  // -------------------------------------------------------------------------

  lemma ConcatLast(a: seq<Snap>, b: seq<Snap>)
    requires b != []
    ensures (a + b)[..|a + b| - 1] == a + b[..|b| - 1] && (a + b)[|a + b| - 1] == b[|b| - 1]
  {}

  lemma ThreeParts(xs: seq<Snap>, i: nat, j: nat)
    requires i <= j <= |xs|
    ensures xs == xs[..i] + xs[i..j] + xs[j..] && xs[i..] == xs[i..j] + xs[j..]
  {}

  lemma AppendLast(a: seq<Snap>, x: Snap)
    ensures (a + [x])[..|a|] == a
  {}

  lemma {:induction false} GuidsConcat(a: seq<Snap>, b: seq<Snap>)
    ensures Guids(a + b) == Guids(a) + Guids(b)
    ensures Names(a + b) == Names(a) + Names(b)
  {
    if b == [] {
      assert a + b == a;
    } else {
      ConcatLast(a, b);
      GuidsConcat(a, b[..|b| - 1]);
    }
  }

  lemma {:induction false} DistinctConcat(a: seq<Snap>, b: seq<Snap>)
    ensures Distinct(a + b) <==> Distinct(a) && Distinct(b) && Guids(a) !! Guids(b) && Names(a) !! Names(b)
  {
    if b == [] {
      assert a + b == a;
    } else {
      ConcatLast(a, b);
      DistinctConcat(a, b[..|b| - 1]);
      GuidsConcat(a, b[..|b| - 1]);
    }
  }

  lemma {:induction false} BeforeConcat(a: seq<Snap>, b: seq<Snap>, g: nat, h: nat)
    ensures Before(a + b, g, h) <==> Before(a, g, h) || Before(b, g, h) || (g in Guids(a) && h in Guids(b))
  {
    if b == [] {
      assert a + b == a;
    } else {
      ConcatLast(a, b);
      BeforeConcat(a, b[..|b| - 1], g, h);
      GuidsConcat(a, b[..|b| - 1]);
    }
  }

  lemma {:induction false} BeforeMembers(xs: seq<Snap>, g: nat, h: nat)
    requires Before(xs, g, h)
    ensures g in Guids(xs) && h in Guids(xs)
  {
    if Before(xs[..|xs| - 1], g, h) {
      BeforeMembers(xs[..|xs| - 1], g, h);
    }
  }

  lemma {:induction false} KeptConcat(a: seq<Snap>, b: seq<Snap>)
    ensures Kept(a + b) == Kept(a) + Kept(b)
    ensures Guids(Kept(a + b)) == Guids(Kept(a)) + Guids(Kept(b))
  {
    if b == [] {
      assert a + b == a;
    } else {
      ConcatLast(a, b);
      KeptConcat(a, b[..|b| - 1]);
    }
    GuidsConcat(Kept(a), Kept(b));
  }

  lemma TwoParts(xs: seq<Snap>, n: nat)
    requires n <= |xs|
    ensures xs == xs[..n] + xs[n..]
  {}

  /** A list split in two: everything known about the whole follows from the halves. */
  lemma Halves(xs: seq<Snap>, n: nat)
    requires n <= |xs|
    ensures Guids(xs) == Guids(xs[..n]) + Guids(xs[n..]) && Names(xs) == Names(xs[..n]) + Names(xs[n..])
    ensures Kept(xs) == Kept(xs[..n]) + Kept(xs[n..])
    ensures Guids(Kept(xs)) == Guids(Kept(xs[..n])) + Guids(Kept(xs[n..]))
    ensures Distinct(xs) ==> Distinct(xs[..n]) && Distinct(xs[n..]) && Guids(xs[..n]) !! Guids(xs[n..])
  {
    hide Guids, Names, Kept, Distinct;
    TwoParts(xs, n);
    GuidsConcat(xs[..n], xs[n..]);
    DistinctConcat(xs[..n], xs[n..]);
    KeptConcat(xs[..n], xs[n..]);
  }

  // -------------------------------------------------------------------------
  // Members
  // -------------------------------------------------------------------------

  lemma GuidAt(xs: seq<Snap>, i: nat)
    requires i < |xs|
    ensures xs[i].guid in Guids(xs) && xs[i].name in Names(xs)
  {
    var init := xs[..i + 1];
    assert init[|init| - 1] == xs[i];
    Halves(xs, i + 1);
  }

  lemma {:induction false} MemberGuid(xs: seq<Snap>, x: Snap)
    requires x in xs
    ensures x.guid in Guids(xs)
  {
    var i :| 0 <= i < |xs| && xs[i] == x;
    GuidAt(xs, i);
  }

  lemma {:induction false} KeptMembers(xs: seq<Snap>)
    ensures forall x :: x in Kept(xs) <==> x in xs && !IsAnchor(x.name)
  {
    if xs != [] {
      var init, last := xs[..|xs| - 1], xs[|xs| - 1];
      assert xs == init + [last];
      KeptMembers(init);
    }
  }

  lemma {:induction false} KeptGuids(xs: seq<Snap>)
    ensures Guids(Kept(xs)) <= Guids(xs)
  {
    if xs != [] {
      KeptGuids(xs[..|xs| - 1]);
      AppendLast(Kept(xs[..|xs| - 1]), xs[|xs| - 1]);
    }
  }

  lemma NoGuids(xs: seq<Snap>)
    requires Guids(xs) == {}
    ensures xs == []
  {}

  /** A selection is empty exactly when no kept GUID qualifies. */
  lemma {:induction false} SelectedNone(xs: seq<Snap>, guids: set<nat>, among: bool)
    ensures Selected(xs, guids, among) == [] <==> forall g :: g in Guids(Kept(xs)) ==> (g in guids) != among
  {
    if xs != [] {
      SelectedNone(xs[..|xs| - 1], guids, among);
      AppendLast(Kept(xs[..|xs| - 1]), xs[|xs| - 1]);
    }
  }

  lemma {:induction false} SelectedMember(xs: seq<Snap>, guids: set<nat>, among: bool, x: Snap)
    ensures x in Selected(xs, guids, among) <==> x in Kept(xs) && (x.guid in guids) == among
  {
    if xs != [] {
      SelectedMember(xs[..|xs| - 1], guids, among, x);
    }
  }

  lemma GuidsOfKept(xs: seq<Snap>, g: nat)
    ensures g in Guids(Kept(xs)) <==> exists y :: y in xs && !IsAnchor(y.name) && y.guid == g
  {
    hide IsAnchor, Kept, Guids;
    KeptMembers(xs);
    if g in Guids(Kept(xs)) {
      var k := FindGuid(Kept(xs), g);
      assert Kept(xs)[k] in Kept(xs);
    }
    if y :| y in xs && !IsAnchor(y.name) && y.guid == g {
      MemberGuid(Kept(xs), y);
    }
  }

  /** The divergence prompt lists what the operator took on the destination and the source does not have. */
  lemma DivergenceListed(left: seq<Snap>, right: seq<Snap>, x: Snap)
    ensures x in OnlyOnRight(left, right) <==>
      x in right && !IsAnchor(x.name) && !exists y :: y in left && !IsAnchor(y.name) && y.guid == x.guid
  {
    hide IsAnchor, Kept, Guids, Selected;
    SelectedMember(right, Guids(Kept(left)), false, x);
    KeptMembers(right);
    GuidsOfKept(left, x.guid);
  }

  lemma LaterMembers(src: seq<Snap>, n: nat, g: nat)
    requires n < |src|
    ensures (exists y :: y in src[n + 1..] && !IsAnchor(y.name) && y.guid == g) <==>
      exists i :: n < i < |src| && !IsAnchor(src[i].name) && src[i].guid == g
  {
    hide IsAnchor;
    var later := src[n + 1..];
    if y :| y in later && !IsAnchor(y.name) && y.guid == g {
      var k :| 0 <= k < |later| && later[k] == y;
      assert src[n + 1 + k] == y;
    }
    if i :| n < i < |src| && !IsAnchor(src[i].name) && src[i].guid == g {
      assert later[i - n - 1] == src[i];
    }
  }

  /** The rewind prompt lists what the destination has of what the source's operator took after the bound. */
  lemma RewindListed(src: seq<Snap>, dst: seq<Snap>, bound: string, x: Snap)
    ensures x in AfterBound(src, dst, bound) <==>
      && bound in Names(src) && x in dst && !IsAnchor(x.name)
      && exists i :: FindName(src, bound) < i < |src| && !IsAnchor(src[i].name) && src[i].guid == x.guid
  {
    hide IsAnchor, Names, Guids, Kept, Selected, FindName;
    var n := FindName(src, bound);
    if n < |src| {
      SelectedMember(dst, Guids(Kept(src[n + 1..])), true, x);
      KeptMembers(dst);
      GuidsOfKept(src[n + 1..], x.guid);
      LaterMembers(src, n, x.guid);
    }
  }

  /** No divergence is the same as the destination's snapshots being among the source's. */
  lemma NoDivergence(a: seq<Snap>, b: seq<Snap>)
    ensures OnlyOnRight(a, b) == [] <==> Guids(Kept(b)) <= Guids(Kept(a))
  {
    SelectedNone(b, Guids(Kept(a)), false);
  }

  /** Nothing after the newest shared snapshot is on the destination. */
  lemma {:induction false} AfterLatestShared(src: seq<Snap>, dst: seq<Snap>)
    ensures Guids(src[LatestShared(src, dst) + 1..]) !! Guids(dst)
  {
    var p := LatestShared(src, dst);
    if src != [] && p < |src| - 1 {
      var init := src[..|src| - 1];
      AfterLatestShared(init, dst);
      assert src[p + 1..][..|init| - p - 1] == init[p + 1..];
    } else {
      assert src[p + 1..] == [];
    }
  }

  /** Being the newest shared snapshot determines it. */
  lemma LatestSharedIs(src: seq<Snap>, dst: seq<Snap>, p: int)
    requires -1 <= p < |src|
    requires p >= 0 ==> src[p].guid in Guids(dst)
    requires forall i :: p < i < |src| ==> src[i].guid !in Guids(dst)
    ensures LatestShared(src, dst) == p
  {
    hide Guids;
    var r := LatestShared(src, dst);
    AfterLatestShared(src, dst);
    if r < p {
      GuidAt(src[r + 1..], p - r - 1);
    }
  }

  lemma Single(x: Snap)
    ensures Guids([x]) == {x.guid} && Names([x]) == {x.name} && Distinct([x])
    ensures !IsAnchor(x.name) ==> Kept([x]) == [x]
    ensures forall g, h :: !Before([x], g, h)
  {
    assert [x][..|[x]| - 1] == [];
    forall g, h ensures !Before([x], g, h) {
      assert !Before([], g, h);
    }
  }

  /** Everything about a list of two. */
  lemma Two(x: Snap, y: Snap)
    requires x.guid != y.guid && x.name != y.name
    ensures Guids([x, y]) == {x.guid, y.guid} && Names([x, y]) == {x.name, y.name} && Distinct([x, y])
    ensures forall g, h :: Before([x, y], g, h) <==> g == x.guid && h == y.guid
    ensures Kept([x, y]) == Kept([x]) + Kept([y])
  {
    hide Guids, Names, Distinct, Before, Kept;
    assert [x, y] == [x] + [y];
    Single(x);
    Single(y);
    GuidsConcat([x], [y]);
    DistinctConcat([x], [y]);
    KeptConcat([x], [y]);
    forall g, h ensures Before([x] + [y], g, h) <==> g == x.guid && h == y.guid {
      BeforeConcat([x], [y], g, h);
    }
  }

  /** Everything about a list of three. */
  lemma Three(x: Snap, y: Snap, z: Snap)
    requires x.guid != y.guid && x.guid != z.guid && y.guid != z.guid
    requires x.name != y.name && x.name != z.name && y.name != z.name
    ensures Guids([x, y, z]) == {x.guid, y.guid, z.guid} && Names([x, y, z]) == {x.name, y.name, z.name}
    ensures Distinct([x, y, z])
    ensures forall g, h :: Before([x, y, z], g, h) <==>
      (g == x.guid && (h == y.guid || h == z.guid)) || (g == y.guid && h == z.guid)
    ensures Kept([x, y, z]) == Kept([x]) + Kept([y]) + Kept([z])
  {
    hide Guids, Names, Distinct, Before, Kept;
    assert [x, y, z] == [x, y] + [z];
    Two(x, y);
    Single(z);
    GuidsConcat([x, y], [z]);
    DistinctConcat([x, y], [z]);
    KeptConcat([x, y], [z]);
    forall g, h ensures Before([x, y] + [z], g, h) <==>
      (g == x.guid && (h == y.guid || h == z.guid)) || (g == y.guid && h == z.guid)
    {
      BeforeConcat([x, y], [z], g, h);
    }
  }

  // -------------------------------------------------------------------------
  // Pruning
  // -------------------------------------------------------------------------

  lemma {:induction false} FirstName(xs: seq<Snap>, name: string, i: nat)
    requires i < |xs| && xs[i].name == name
    ensures FindName(xs, name) <= i
  {
    if i < |xs| - 1 {
      FirstName(xs[..|xs| - 1], name, i);
    }
  }

  lemma RemoveNameAfter(a: seq<Snap>, x: Snap, b: seq<Snap>)
    requires x.name !in Names(a)
    ensures RemoveName(a + [x] + b, x.name) == a + b
  {
    hide Guids, Names;
    var all := a + [x] + b;
    var n := FindName(all, x.name);
    assert all[|a|] == x;
    GuidAt(all, |a|);
    FirstName(all, x.name, |a|);
    if n < |a| {
      GuidAt(a, n);
      assert false;
    }
  }

  /** Pruning leaves the operator's snapshots alone, in order. */
  lemma {:induction false} PrunedKeeps(xs: seq<Snap>, keep: string, stuck: set<string>)
    ensures Kept(Pruned(xs, keep, stuck)) == Kept(xs)
  {
    if xs != [] {
      PrunedKeeps(xs[..|xs| - 1], keep, stuck);
      AppendLast(Pruned(xs[..|xs| - 1], keep, stuck), xs[|xs| - 1]);
    }
  }

  /** ... and only leaves out: no new GUID or name, nothing doubled. */
  lemma {:induction false} PrunedShrinks(xs: seq<Snap>, keep: string, stuck: set<string>)
    ensures Guids(Pruned(xs, keep, stuck)) <= Guids(xs) && Names(Pruned(xs, keep, stuck)) <= Names(xs)
    ensures Distinct(xs) ==> Distinct(Pruned(xs, keep, stuck))
  {
    if xs != [] {
      PrunedShrinks(xs[..|xs| - 1], keep, stuck);
      AppendLast(Pruned(xs[..|xs| - 1], keep, stuck), xs[|xs| - 1]);
    }
  }

  lemma {:induction false} PrunedMembers(xs: seq<Snap>, keep: string, stuck: set<string>)
    ensures forall x :: x in Pruned(xs, keep, stuck) <==>
      x in xs && (IsAnchor(x.name) ==> x.name == keep || x.name in stuck)
  {
    if xs != [] {
      var init, last := xs[..|xs| - 1], xs[|xs| - 1];
      assert xs == init + [last];
      PrunedMembers(init, keep, stuck);
    }
  }

  lemma {:induction false} PrunedNames(xs: seq<Snap>, keep: string, stuck: set<string>, name: string)
    requires IsAnchor(name) && name != keep && name !in stuck
    ensures name !in Names(Pruned(xs, keep, stuck))
  {
    if xs != [] {
      PrunedNames(xs[..|xs| - 1], keep, stuck, name);
      AppendLast(Pruned(xs[..|xs| - 1], keep, stuck), xs[|xs| - 1]);
    }
  }

  lemma {:induction false} PrunedBefore(xs: seq<Snap>, keep: string, stuck: set<string>, g: nat, h: nat)
    requires Before(Pruned(xs, keep, stuck), g, h)
    ensures Before(xs, g, h)
  {
    var init, last := xs[..|xs| - 1], xs[|xs| - 1];
    AppendLast(Pruned(init, keep, stuck), last);
    PrunedShrinks(init, keep, stuck);
    if Before(Pruned(init, keep, stuck), g, h) {
      PrunedBefore(init, keep, stuck, g, h);
    }
  }

  lemma SameOrderSym(a: seq<Snap>, b: seq<Snap>)
    requires SameOrder(a, b)
    ensures SameOrder(b, a)
  {}

  /** Dropping anchors keeps the common order with any other list. */
  lemma PrunedCompatible(a: seq<Snap>, b: seq<Snap>, keep: string, stuck: set<string>)
    requires Compatible(a, b)
    ensures Compatible(Pruned(a, keep, stuck), b)
  {
    PrunedShrinks(a, keep, stuck);
    forall g, h | Before(Pruned(a, keep, stuck), g, h) ensures !Before(b, h, g) {
      PrunedBefore(a, keep, stuck, g, h);
    }
  }

  /** Before its first turn nothing has been pruned, after its last everything. */
  lemma PrunedEnds(xs: seq<Snap>, keep: string, stuck: set<string>)
    ensures Pruned(xs[..0], keep, stuck) + xs[0..] == xs
    ensures Pruned(xs[..|xs|], keep, stuck) + xs[|xs|..] == Pruned(xs, keep, stuck)
  {
    assert xs[..|xs|] == xs;
  }

  /** One turn of the prune loop: the prefix already pruned, the rest still as listed. */
  lemma PrunedStep(xs: seq<Snap>, i: nat, keep: string, stuck: set<string>)
    requires i < |xs|
    ensures var now, next := Pruned(xs[..i], keep, stuck) + xs[i..], Pruned(xs[..i + 1], keep, stuck) + xs[i + 1..];
      next ==
        if IsAnchor(xs[i].name) && xs[i].name != keep && xs[i].name !in stuck then RemoveName(now, xs[i].name) else now
  {
    var x, done, rest := xs[i], Pruned(xs[..i], keep, stuck), xs[i + 1..];
    assert xs[..i + 1][..i] == xs[..i];
    assert xs[i..] == [x] + rest;
    assert done + xs[i..] == done + [x] + rest;
    if IsAnchor(x.name) && x.name != keep && x.name !in stuck {
      PrunedNames(xs[..i], keep, stuck, x.name);
      RemoveNameAfter(done, x, rest);
    }
  }

  /** The operator's snapshots are what a full prune would leave. */
  lemma {:induction false} KeptIsPruned(xs: seq<Snap>)
    ensures Kept(xs) == Pruned(xs, "", {})
  {
    if xs != [] {
      KeptIsPruned(xs[..|xs| - 1]);
    }
  }

  // -------------------------------------------------------------------------
  // What truncation after the common base can destroy
  // -------------------------------------------------------------------------

  /** Anything in the second half comes after the last element of the first. */
  lemma BetweenHalves(xs: seq<Snap>, q: nat, g: nat)
    requires q < |xs| && g in Guids(xs[q + 1..])
    ensures Before(xs, xs[q].guid, g)
  {
    hide Guids, Before;
    assert xs == xs[..q + 1] + xs[q + 1..];
    GuidAt(xs[..q + 1], q);
    BeforeConcat(xs[..q + 1], xs[q + 1..], xs[q].guid, g);
  }

  /** Anything in the first half but its last element comes before that element. */
  lemma OldestHalf(xs: seq<Snap>, p: nat, g: nat)
    requires p < |xs| && g in Guids(xs[..p + 1]) && g != xs[p].guid
    ensures Before(xs, g, xs[p].guid)
  {
    assert xs == xs[..p + 1] + xs[p + 1..];
    assert xs[..p + 1][..p] == xs[..p];
    BeforeConcat(xs[..p + 1], xs[p + 1..], g, xs[p].guid);
  }

  lemma TailUnknown(src: seq<Snap>, dst: seq<Snap>, p: nat, g: nat)
    requires Compatible(src, dst) && p < |src| && src[p].guid in Guids(dst)
    requires Guids(src[p + 1..]) !! Guids(dst)
    requires g in Guids(dst[FindGuid(dst, src[p].guid) + 1..])
    ensures g !in Guids(src)
  {
    hide Guids, Names, Kept, Distinct, Before;
    var q := FindGuid(dst, src[p].guid);
    Halves(src, p + 1);
    Halves(dst, q + 1);
    GuidAt(dst[..q + 1], q);
    BetweenHalves(dst, q, g);
    if g in Guids(src[..p + 1]) {
      OldestHalf(src, p, g);
    }
  }

  /** Everything newer than the common base on the destination is unknown to the source. */
  lemma TailIsDestOnly(src: seq<Snap>, dst: seq<Snap>)
    requires Compatible(src, dst) && LatestShared(src, dst) >= 0
    ensures Guids(dst[FindGuid(dst, src[LatestShared(src, dst)].guid) + 1..]) !! Guids(src)
  {
    var p := LatestShared(src, dst);
    AfterLatestShared(src, dst);
    forall g | g in Guids(dst[FindGuid(dst, src[p].guid) + 1..]) ensures g !in Guids(src) {
      TailUnknown(src, dst, p, g);
    }
  }

  /** Without divergence nothing of the operator's lies past the base. */
  lemma NothingPastTheBase(src: seq<Snap>, dst: seq<Snap>)
    requires Compatible(src, dst) && OnlyOnRight(src, dst) == [] && LatestShared(src, dst) >= 0
    ensures Kept(dst[..FindGuid(dst, src[LatestShared(src, dst)].guid) + 1]) == Kept(dst)
  {
    hide Guids, Kept, Compatible, LatestShared, FindGuid, OnlyOnRight;
    var n := FindGuid(dst, src[LatestShared(src, dst)].guid) + 1;
    TailIsDestOnly(src, dst);
    NoDivergence(src, dst);
    KeptGuids(src);
    KeptGuids(dst[n..]);
    Halves(dst, n);
    NoGuids(Kept(dst[n..]));
  }

  /** Without divergence and with nothing shared, the destination holds only anchors. */
  lemma NothingAtAll(src: seq<Snap>, dst: seq<Snap>)
    requires OnlyOnRight(src, dst) == [] && LatestShared(src, dst) == -1
    ensures Kept(dst) == []
  {
    AfterLatestShared(src, dst);
    assert src[0..] == src;
    NoDivergence(src, dst);
    KeptGuids(src);
    KeptGuids(dst);
    NoGuids(Kept(dst));
  }

  // -------------------------------------------------------------------------
  // Subsequences
  // -------------------------------------------------------------------------

  /** `a` can be obtained from `b` by leaving snapshots out: same GUIDs, same order. */
  ghost predicate IsSubsequence(a: seq<Snap>, b: seq<Snap>)
    decreases |b|
  {
    || a == []
    || (b != [] &&
        if a[|a| - 1].guid == b[|b| - 1].guid then IsSubsequence(a[..|a| - 1], b[..|b| - 1])
        else IsSubsequence(a, b[..|b| - 1]))
  }

  /** With a common order, being a subsequence is just having no GUID of one's own. */
  lemma {:induction false} SubsetIsSubsequence(a: seq<Snap>, b: seq<Snap>)
    requires Compatible(a, b) && Guids(a) <= Guids(b)
    ensures IsSubsequence(a, b)
    decreases |b|
  {
    if a != [] {
      var ai, al, bi, bl := a[..|a| - 1], a[|a| - 1].guid, b[..|b| - 1], b[|b| - 1].guid;
      forall g, h | Before(ai, g, h) || Before(a, g, h) ensures !Before(bi, h, g) {
        assert Before(a, g, h);
      }
      if al == bl {
        SubsetIsSubsequence(ai, bi);
      } else {
        assert bl in Guids(ai) ==> Before(a, bl, al) && Before(b, al, bl);
        SubsetIsSubsequence(a, bi);
      }
    }
  }
}
