// The orphaned-origin guard of `fork`: a walk along origins over a bag of property
// rows that may be incomplete, repeated or cyclic.

module Lineage {
  import opened Text

  /** One row of `zfs get` output; only origin rows matter here. */
  datatype OriginRow = OriginRow(dataset: string, origin: Option<SnapshotRef>) | OtherRow(dataset: string)

  /** The origin in the first row that has one for the dataset; no row counts as no origin. */
  function FirstOrigin(rows: seq<OriginRow>, d: string): Option<SnapshotRef> {
    if rows == [] then None
    else if rows[0].OriginRow? && rows[0].dataset == d then rows[0].origin
    else FirstOrigin(rows[1..], d)
  }

  /** The dataset `n` origins up from `start`, if the chain is that long. */
  function Ancestor(rows: seq<OriginRow>, start: string, n: nat): Option<string> {
    if n == 0 then Some(start)
    else
      var d := Ancestor(rows, start, n - 1);
      if d.None? then None
      else
        var o := FirstOrigin(rows, d.value);
        if o.None? then None else Some(o.value.dataset)
  }

  ghost predicate AncestorPresent(rows: seq<OriginRow>, present: seq<string>, start: string, n: nat) {
    Ancestor(rows, start, n).Some? ==> Ancestor(rows, start, n).value in present
  }

  /** Every dataset reachable along origins, the start included, is present. */
  ghost predicate Intact(rows: seq<OriginRow>, present: seq<string>, start: string) {
    forall n: nat :: AncestorPresent(rows, present, start, n)
  }

  lemma {:induction false} EndsThere(rows: seq<OriginRow>, start: string, n: nat, m: nat)
    requires Ancestor(rows, start, n).None? && n <= m
    ensures Ancestor(rows, start, m).None?
    decreases m
  {
    if n < m {
      EndsThere(rows, start, n, m - 1);
    }
  }

  /** Once a dataset repeats, the chain goes round: every ancestor is among the first ones. */
  lemma {:induction false} GoesRound(rows: seq<OriginRow>, start: string, j: nat, i: nat, n: nat) returns (m: nat)
    requires j < i && Ancestor(rows, start, i) == Ancestor(rows, start, j)
    ensures m < i && Ancestor(rows, start, n) == Ancestor(rows, start, m)
    decreases n
  {
    if n < i {
      m := n;
    } else if n == i {
      m := j;
    } else {
      m := GoesRound(rows, start, j, i, n - 1);
      if m + 1 < i {
        m := m + 1;
      } else {
        m := j;
      }
    }
  }

  /** The walk so far: `visited` are the first ancestors, all present. */
  ghost predicate Walked(rows: seq<OriginRow>, present: seq<string>, start: string, visited: seq<string>) {
    forall j :: 0 <= j < |visited| ==> Ancestor(rows, start, j) == Some(visited[j]) && visited[j] in present
  }

  lemma RoundIsIntact(rows: seq<OriginRow>, present: seq<string>, start: string, visited: seq<string>, current: string)
    requires Walked(rows, present, start, visited) && current in visited
    requires Ancestor(rows, start, |visited|) == Some(current)
    ensures Intact(rows, present, start)
  {
    var j :| 0 <= j < |visited| && visited[j] == current;
    forall n: nat ensures AncestorPresent(rows, present, start, n) {
      var m := GoesRound(rows, start, j, |visited|, n);
    }
  }

  lemma RootIsIntact(rows: seq<OriginRow>, present: seq<string>, start: string, visited: seq<string>)
    requires Walked(rows, present, start, visited) && Ancestor(rows, start, |visited|).None?
    ensures Intact(rows, present, start)
  {
    forall n: nat ensures AncestorPresent(rows, present, start, n) {
      if n >= |visited| {
        EndsThere(rows, start, |visited|, n);
      }
    }
  }

  lemma MissingIsBroken(rows: seq<OriginRow>, present: seq<string>, start: string, n: nat)
    requires Ancestor(rows, start, n).Some? && Ancestor(rows, start, n).value !in present
    ensures !Intact(rows, present, start)
  {
    assert !AncestorPresent(rows, present, start, n);
  }

  /** The walk ends on every input, and accepts exactly the intact lineages. */
  method CheckOriginLineage(rows: seq<OriginRow>, present: seq<string>, start: string) returns (ok: bool)
    ensures ok <==> Intact(rows, present, start)
  {
    hide Intact;
    assert Ancestor(rows, start, 0) == Some(start);
    if start !in present {
      MissingIsBroken(rows, present, start, 0);
      return false;
    }
    var current, visited: seq<string> := start, [];
    ghost var unseen := set d | d in present;
    while current !in visited
      invariant Ancestor(rows, start, |visited|) == Some(current) && current in present
      invariant Walked(rows, present, start, visited)
      invariant forall d :: d in unseen <==> d in present && d !in visited
      decreases unseen
    {
      var n := |visited|;
      visited := visited + [current];
      unseen := unseen - {current};
      var origin := FirstOrigin(rows, current);
      assert Ancestor(rows, start, n + 1) == if origin.None? then None else Some(origin.value.dataset);
      if origin.None? {
        RootIsIntact(rows, present, start, visited);
        return true;
      }
      if origin.value.dataset !in present {
        MissingIsBroken(rows, present, start, n + 1);
        return false;
      }
      current := origin.value.dataset;
    }
    RoundIsIntact(rows, present, start, visited, current);
    ok := true;
  }

  // -------------------------------------------------------------------------
  // What the guard means
  // -------------------------------------------------------------------------

  /** No dataset has two different origins. */
  ghost predicate OneOriginEach(rows: seq<OriginRow>) {
    forall r, q :: r in rows && q in rows && r.OriginRow? && q.OriginRow? && r.dataset == q.dataset ==>
      r.origin == q.origin
  }

  /** The rows say that `d` is a clone of a snapshot of `e`. */
  ghost predicate ClonedFrom(rows: seq<OriginRow>, d: string, e: string) {
    exists r :: r in rows && r.OriginRow? && r.dataset == d && r.origin.Some? && r.origin.value.dataset == e
  }

  lemma {:induction false} FirstOriginIs(rows: seq<OriginRow>, d: string)
    ensures match FirstOrigin(rows, d)
      case Some(o) => OriginRow(d, Some(o)) in rows
      case None => (forall r :: r in rows && r.OriginRow? ==> r.dataset != d) || OriginRow(d, None) in rows
  {
    if rows != [] && !(rows[0].OriginRow? && rows[0].dataset == d) {
      FirstOriginIs(rows[1..], d);
      assert rows == [rows[0]] + rows[1..];
    }
  }

  lemma OriginIsClonedFrom(rows: seq<OriginRow>, d: string, e: string)
    requires OneOriginEach(rows)
    ensures FirstOrigin(rows, d).Some? && FirstOrigin(rows, d).value.dataset == e <==> ClonedFrom(rows, d, e)
  {
    FirstOriginIs(rows, d);
    var o := FirstOrigin(rows, d);
    if o.Some? && o.value.dataset == e {
      assert OriginRow(d, o) in rows;
    }
    if ClonedFrom(rows, d, e) {
      var r :| r in rows && r.OriginRow? && r.dataset == d && r.origin.Some? && r.origin.value.dataset == e;
      if o.None? {
        assert false;
      }
      assert OriginRow(d, o) in rows;
    }
  }

  /** A chain of clones from `start` up. */
  ghost predicate Upward(rows: seq<OriginRow>, path: seq<string>, start: string) {
    path != [] && path[0] == start && forall i :: 0 < i < |path| ==> ClonedFrom(rows, path[i - 1], path[i])
  }

  lemma {:induction false} AncestorsAreUpward(rows: seq<OriginRow>, start: string, n: nat) returns (path: seq<string>)
    requires OneOriginEach(rows) && Ancestor(rows, start, n).Some?
    ensures Upward(rows, path, start) && |path| == n + 1 && Ancestor(rows, start, n) == Some(path[n])
  {
    hide OneOriginEach, FirstOrigin, ClonedFrom;
    if n == 0 {
      path := [start];
    } else {
      var up := AncestorsAreUpward(rows, start, n - 1);
      var o := FirstOrigin(rows, up[n - 1]);
      OriginIsClonedFrom(rows, up[n - 1], o.value.dataset);
      path := up + [o.value.dataset];
    }
  }

  lemma {:induction false} UpwardIsAncestor(rows: seq<OriginRow>, start: string, path: seq<string>)
    requires OneOriginEach(rows) && Upward(rows, path, start)
    ensures Ancestor(rows, start, |path| - 1) == Some(path[|path| - 1])
    decreases |path|
  {
    hide OneOriginEach, FirstOrigin, ClonedFrom;
    var n := |path| - 1;
    if n > 0 {
      UpwardIsAncestor(rows, start, path[..n]);
      OriginIsClonedFrom(rows, path[n - 1], path[n]);
    }
  }

  /** With one origin to a dataset, a lineage is intact exactly when every chain of clones up from it stays present. */
  lemma IntactExactly(rows: seq<OriginRow>, present: seq<string>, start: string)
    requires OneOriginEach(rows)
    ensures Intact(rows, present, start) <==>
      forall path :: Upward(rows, path, start) ==> path[|path| - 1] in present
  {
    hide OneOriginEach, Ancestor, ClonedFrom;
    if Intact(rows, present, start) {
      forall path | Upward(rows, path, start) ensures path[|path| - 1] in present {
        UpwardIsAncestor(rows, start, path);
        assert AncestorPresent(rows, present, start, |path| - 1);
      }
    }
    if forall path :: Upward(rows, path, start) ==> path[|path| - 1] in present {
      forall n: nat ensures AncestorPresent(rows, present, start, n) {
        if Ancestor(rows, start, n).Some? {
          var path := AncestorsAreUpward(rows, start, n);
        }
      }
    }
  }
}
