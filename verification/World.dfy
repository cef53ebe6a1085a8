// The ZFS state zboot reads and writes, and the commands it issues. The state is
// a table with one column per property; a dataset exists when it has a row in `snaps`.

module World {
  import opened Text
  import opened Snapshots

  datatype Canmount = On | Off | Noauto

  /** Per-dataset properties, each absent where unset. */
  datatype Props = Props(
    bes: set<string>,                       // zboot:be=true
    canmount: map<string, Canmount>,
    attached: map<string, seq<BoundKey>>,   // zboot:attached-to
    mirror: map<string, PairPointer>,       // zboot:mirror
    primary: map<string, bool>)             // zboot:primary

  datatype Pools = Pools(
    roots: set<string>,                     // tagged zboot:role=root
    bootfs: map<string, string>)            // by pool, where set

  datatype State = State(
    snaps: map<string, seq<Snap>>,          // every dataset, its snapshots oldest first
    origin: map<string, SnapshotRef>,       // clones only
    nextGuid: nat,                          // every GUID ever handed out is smaller
    readonly: set<string>,                  // readonly=on
    mounted: set<string>,
    props: Props,
    pools: Pools)

  function WithSnapshot(s: State, d: string, name: string): State
    requires d in s.snaps
  {
    s.(snaps := s.snaps[d := s.snaps[d] + [Snap(name, s.nextGuid)]], nextGuid := s.nextGuid + 1)
  }

  function WithReadonly(s: State, d: string, on: bool): State {
    s.(readonly := if on then s.readonly + {d} else s.readonly - {d})
  }

  /** `canmount=noauto`, `mountpoint=/` and `zboot:be=true`. */
  function WithContract(s: State, d: string): State {
    s.(props := s.props.(canmount := s.props.canmount[d := Noauto], bes := s.props.bes + {d}))
  }

  function WithSnaps(s: State, d: string, xs: seq<Snap>): State {
    s.(snaps := s.snaps[d := xs])
  }

  /** `zfs destroy <d>@<name>` of one snapshot. */
  function WithoutSnapshot(s: State, d: string, name: string): State
    requires d in s.snaps
  {
    WithSnaps(s, d, RemoveName(s.snaps[d], name))
  }

  lemma WithSnapsTwice(s: State, d: string, xs: seq<Snap>, ys: seq<Snap>)
    ensures WithSnaps(WithSnaps(s, d, xs), d, ys) == WithSnaps(s, d, ys)
    ensures d in s.snaps && s.snaps[d] == ys ==> WithSnaps(s, d, ys) == s
  {
    assert s.snaps[d := xs][d := ys] == s.snaps[d := ys];
  }

  function CopyProps(p: Props, src: string, dst: string): Props {
    p.(bes := if src in p.bes then p.bes + {dst} else p.bes,
       attached := if src in p.attached then p.attached[dst := p.attached[src]] else p.attached,
       mirror := if src in p.mirror then p.mirror[dst := p.mirror[src]] else p.mirror,
       primary := if src in p.primary then p.primary[dst := p.primary[src]] else p.primary)
  }

  ghost predicate SameRows<V(!new)>(m: map<string, V>, n: map<string, V>, src: string, dst: string) {
    && n - {dst} == m - {dst} && (dst in n <==> src in m) && (src in m && dst in n ==> n[dst] == m[src])
  }

  /** The columns of a copy: its own row is the source's where that is set, every other row is as before. */
  lemma CopiedRows(p: Props, src: string, dst: string)
    requires src != dst && dst !in p.bes && dst !in p.attached && dst !in p.mirror && dst !in p.primary
    ensures var q := CopyProps(p, src, dst);
      && (forall d :: d != dst ==> (d in q.bes <==> d in p.bes)) && (dst in q.bes <==> src in p.bes)
      && q.canmount == p.canmount && SameRows(p.attached, q.attached, src, dst)
      && SameRows(p.mirror, q.mirror, src, dst) && SameRows(p.primary, q.primary, src, dst)
  {}

  /** A full `send -p`/`-R` stream also carries the source's user properties to a new dataset. */
  function WithCopy(s: State, src: string, dst: string, xs: seq<Snap>): State
  {
    WithReadonly(WithSnaps(s, dst, xs), dst, src in s.readonly).(props := CopyProps(s.props, src, dst))
  }

  function WithPointer(s: State, d: string, p: PairPointer): State {
    s.(props := s.props.(mirror := s.props.mirror[d := p]))
  }

  function WithoutPointer(s: State, d: string): State {
    s.(props := s.props.(mirror := s.props.mirror - {d}))
  }

  function WithPrimary(s: State, d: string, on: bool): State {
    s.(props := s.props.(primary := s.props.primary[d := on]))
  }

  function WithoutPrimary(s: State, d: string): State {
    s.(props := s.props.(primary := s.props.primary - {d}))
  }

  /** The pools and datasets of the host. Every command appends the state it leaves to `trace`. */
  class Zfs {
    var s: State
    ghost var trace: seq<State>

    constructor (s: State)
      ensures this.s == s && trace == [s]
    {
      this.s := s;
      trace := [s];
    }

    /** One property write, snapshot, receive, ...: all of it or, when `ok` is false, nothing. */
    method Commit(next: State, ok: bool)
      modifies this
      ensures s == if ok then next else old(s)
      ensures trace == old(trace) + [s]
    {
      if ok {
        s := next;
      }
      trace := trace + [s];
    }
  }
}
