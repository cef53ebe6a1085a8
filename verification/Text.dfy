// Text forms of the properties zboot stores in ZFS: `pool:be` binding lists,
// `<pool>/ROOT/<be>` pair pointers and `dataset@name` snapshot references.

module Text {
  const U32 := 0x1_0000_0000

  datatype Option<+T> = None | Some(value: T)

  datatype Result<+T> = Ok(value: T) | Err(what: string)

  datatype BoundKey = BoundKey(pool: string, be: string)

  datatype PairPointer = PairPointer(pool: string, be: string)

  datatype SnapshotRef = SnapshotRef(dataset: string, name: string)

  // -------------------------------------------------------------------------
  // Strings
  // -------------------------------------------------------------------------

  /** The characters removed by trimming: Unicode's White_Space property. */
  predicate IsSpace(c: char) {
    || '\t' <= c <= '\r'
    || c == ' '
    || c == '\U{85}' || c == '\U{A0}' || c == '\U{1680}'
    || '\U{2000}' <= c <= '\U{200A}'
    || c == '\U{2028}' || c == '\U{2029}' || c == '\U{202F}' || c == '\U{205F}' || c == '\U{3000}'
  }

  function TrimLeft(s: string): (r: string)
    ensures r == "" || !IsSpace(r[0])
  {
    if s != "" && IsSpace(s[0]) then TrimLeft(s[1..]) else s
  }

  function TrimRight(s: string): (r: string)
    ensures r == "" || (!IsSpace(r[|r| - 1]) && s != "" && r[0] == s[0])
  {
    if s != "" && IsSpace(s[|s| - 1]) then TrimRight(s[..|s| - 1]) else s
  }

  function Trim(s: string): string {
    TrimRight(TrimLeft(s))
  }

  /** No white space at either end. */
  predicate Trimmed(s: string) {
    s == "" || (!IsSpace(s[0]) && !IsSpace(s[|s| - 1]))
  }

  lemma TrimIsTrimmed(s: string)
    ensures Trimmed(Trim(s))
    ensures Trimmed(s) ==> Trim(s) == s
  {}

  lemma {:induction false} TrimLeftCuts(s: string) returns (n: nat)
    ensures n <= |s| && TrimLeft(s) == s[n..] && forall i :: 0 <= i < n ==> IsSpace(s[i])
  {
    if s != "" && IsSpace(s[0]) {
      n := TrimLeftCuts(s[1..]);
      n := n + 1;
    } else {
      n := 0;
    }
  }

  lemma {:induction false} TrimRightCuts(s: string) returns (n: nat)
    ensures n <= |s| && TrimRight(s) == s[..n] && forall i :: n <= i < |s| ==> IsSpace(s[i])
  {
    if s != "" && IsSpace(s[|s| - 1]) {
      n := TrimRightCuts(s[..|s| - 1]);
      assert s[..|s| - 1][..n] == s[..n];
    } else {
      n := |s|;
    }
  }

  /** Trimming takes white space off the two ends, and nothing else. */
  lemma TrimCuts(s: string) returns (i: nat, j: nat)
    ensures i <= j <= |s| && Trim(s) == s[i..j] && Trimmed(Trim(s))
    ensures forall k :: 0 <= k < i || j <= k < |s| ==> IsSpace(s[k])
  {
    i := TrimLeftCuts(s);
    var n := TrimRightCuts(s[i..]);
    j := i + n;
    assert s[i..][..n] == s[i..j];
    forall k | j <= k < |s| ensures IsSpace(s[k]) {
      assert s[k] == s[i..][k - i];
    }
    TrimIsTrimmed(s);
  }

  /** Strings in lexicographic order, as sorting and listings compare them. */
  predicate NameLess(a: string, b: string) {
    b != "" && (a == "" || a[0] < b[0] || (a[0] == b[0] && NameLess(a[1..], b[1..])))
  }

  lemma {:induction false} NameLessAsymmetric(a: string, b: string)
    requires NameLess(a, b)
    ensures !NameLess(b, a)
  {
    if a != "" && a[0] == b[0] {
      NameLessAsymmetric(a[1..], b[1..]);
    }
  }

  lemma {:induction false} NameLessTotal(a: string, b: string)
    ensures a == b || NameLess(a, b) || NameLess(b, a)
  {
    if a != "" && b != "" && a[0] == b[0] {
      NameLessTotal(a[1..], b[1..]);
      assert a == [a[0]] + a[1..] && b == [b[0]] + b[1..];
    }
  }

  lemma {:induction false} NameLessTransitive(a: string, b: string, c: string)
    requires NameLess(a, b) && NameLess(b, c)
    ensures NameLess(a, c)
  {
    if a != "" && a[0] == b[0] && b[0] == c[0] {
      NameLessTransitive(a[1..], b[1..], c[1..]);
    }
  }

  /** The position of the first `c`, or the length when there is none. */
  function Find(s: string, c: char): (n: nat)
    ensures n <= |s| && c !in s[..n]
    ensures n < |s| ==> s[n] == c
  {
    if s == "" then 0
    else
      var m := |s| - 1;
      var n := Find(s[..m], c);
      assert s == s[..m] + [s[m]];
      if n < m || s[m] == c then n else |s|
  }

  lemma FindAfter(a: string, c: char, b: string)
    requires c !in a
    ensures Find(a + [c] + b, c) == |a|
  {
    var s := a + [c] + b;
    assert s[|a|] == c;
    assert forall i :: 0 <= i < |a| ==> s[i] == a[i];
  }

  /** Everything between separators, in order; the empty string has one part. */
  function Split(s: string, c: char): (parts: seq<string>)
    ensures parts != []
  {
    if s == "" then [""]
    else
      var parts, last := Split(s[..|s| - 1], c), s[|s| - 1];
      if last == c then parts + [""] else parts[..|parts| - 1] + [parts[|parts| - 1] + [last]]
  }

  lemma LastPart(parts: seq<string>, init: string, last: char, b: string)
    requires b != "" && init == b[..|b| - 1] && last == b[|b| - 1]
    ensures var all := parts + [init]; all[..|all| - 1] + [all[|all| - 1] + [last]] == parts + [b]
  {
    assert init + [last] == b;
  }

  /** A separator and a separator-free tail add one part. */
  lemma {:induction false} SplitAfter(a: string, c: char, b: string)
    requires c !in b
    ensures Split(a + [c] + b, c) == Split(a, c) + [b]
  {
    var s := a + [c] + b;
    if b == "" {
      assert s[..|s| - 1] == a;
    } else {
      var init, last := b[..|b| - 1], b[|b| - 1];
      assert s[..|s| - 1] == a + [c] + init && s[|s| - 1] == last;
      SplitAfter(a, c, init);
      LastPart(Split(a, c), init, last, b);
    }
  }

  lemma {:induction false} SplitWithout(b: string, c: char)
    requires c !in b
    ensures Split(b, c) == [b]
  {
    if b != "" {
      SplitWithout(b[..|b| - 1], c);
      assert b[..|b| - 1] + [b[|b| - 1]] == b;
    }
  }

  function Join(parts: seq<string>, c: char): string {
    if parts == [] then ""
    else if |parts| == 1 then parts[0]
    else Join(parts[..|parts| - 1], c) + [c] + parts[|parts| - 1]
  }

  lemma {:induction false} SplitJoin(parts: seq<string>, c: char)
    requires parts != [] && forall i :: 0 <= i < |parts| ==> c !in parts[i]
    ensures Split(Join(parts, c), c) == parts
  {
    hide Split;
    var n := |parts| - 1;
    if n == 0 {
      SplitWithout(parts[0], c);
    } else {
      SplitJoin(parts[..n], c);
      SplitAfter(Join(parts[..n], c), c, parts[n]);
    }
    assert parts[..n] + [parts[n]] == parts;
  }

  lemma {:induction false} SplitParts(s: string, c: char)
    ensures forall i :: 0 <= i < |Split(s, c)| ==> c !in Split(s, c)[i]
  {
    if s != "" {
      SplitParts(s[..|s| - 1], c);
    }
  }

  // -------------------------------------------------------------------------
  // Binding lists: `pool:be,pool:be`
  // -------------------------------------------------------------------------

  function RenderKey(k: BoundKey): string {
    k.pool + [':'] + k.be
  }

  function ParseKey(part: string): Result<BoundKey> {
    var n := Find(part, ':');
    if n == |part| || n == 0 || n + 1 == |part| then Err(part)
    else Ok(BoundKey(part[..n], part[n + 1..]))
  }

  function ParseParts(parts: seq<string>): Result<seq<BoundKey>> {
    if parts == [] then Ok([])
    else
      var init := ParseParts(parts[..|parts| - 1]);
      if init.Err? then init
      else
        var k := ParseKey(Trim(parts[|parts| - 1]));
        if k.Err? then Err(k.what) else Ok(init.value + [k.value])
  }

  /** The first malformed part decides the error. */
  lemma {:induction false} FirstErrorWins(parts: seq<string>, n: nat)
    requires n <= |parts| && ParseParts(parts[..n]).Err?
    ensures ParseParts(parts) == ParseParts(parts[..n])
    decreases |parts| - n
  {
    if n < |parts| {
      assert parts[..n + 1][..n] == parts[..n];
      FirstErrorWins(parts, n + 1);
    } else {
      assert parts[..n] == parts;
    }
  }

  function ParseList(s: string): Result<seq<BoundKey>> {
    var t := Trim(s);
    if t == "" || t == "-" then Ok([]) else ParseParts(Split(t, ','))
  }

  /** A property that is not set reads as an empty list. */
  lemma UnsetIsEmpty()
    ensures ParseList("") == Ok([]) && ParseList("-") == Ok([])
  {
    TrimIsTrimmed("-");
  }

  function RenderKeys(keys: seq<BoundKey>): (parts: seq<string>)
    ensures |parts| == |keys| && forall i :: 0 <= i < |keys| ==> parts[i] == RenderKey(keys[i])
  {
    if keys == [] then [] else RenderKeys(keys[..|keys| - 1]) + [RenderKey(keys[|keys| - 1])]
  }

  function RenderList(keys: seq<BoundKey>): string {
    Join(RenderKeys(keys), ',')
  }

  /** The keys a list can carry through its text form unchanged. */
  predicate PlainKey(k: BoundKey) {
    && k.pool != "" && ':' !in k.pool && ',' !in k.pool && !IsSpace(k.pool[0])
    && k.be != "" && ',' !in k.be && !IsSpace(k.be[|k.be| - 1])
  }

  predicate PlainList(keys: seq<BoundKey>) {
    forall i :: 0 <= i < |keys| ==> PlainKey(keys[i])
  }

  lemma ParseKeyOfRender(k: BoundKey)
    requires PlainKey(k)
    ensures Trim(RenderKey(k)) == RenderKey(k) && ParseKey(RenderKey(k)) == Ok(k)
  {
    var r := RenderKey(k);
    assert r[0] == k.pool[0] && r[|r| - 1] == k.be[|k.be| - 1];
    TrimIsTrimmed(r);
    FindAfter(k.pool, ':', k.be);
    assert r[..|k.pool|] == k.pool && r[|k.pool| + 1..] == k.be;
  }

  lemma {:induction false} ParsePartsOfRender(keys: seq<BoundKey>)
    requires PlainList(keys)
    ensures ParseParts(RenderKeys(keys)) == Ok(keys)
  {
    hide ParseKey, RenderKey, Trim, PlainKey;
    if keys != [] {
      var n := |keys| - 1;
      ParseKeyOfRender(keys[n]);
      ParsePartsOfRender(keys[..n]);
      assert RenderKeys(keys) == RenderKeys(keys[..n]) + [RenderKey(keys[n])];
      assert RenderKeys(keys)[..n] == RenderKeys(keys[..n]);
      assert keys[..n] + [keys[n]] == keys;
    }
  }

  lemma TrimLeftKeeps(s: string, c: char)
    requires c !in s
    ensures c !in TrimLeft(s)
  {}

  lemma TrimRightKeeps(s: string, c: char)
    requires c !in s
    ensures c !in TrimRight(s)
  {}

  lemma TrimKeeps(s: string, c: char)
    requires c !in s
    ensures c !in Trim(s)
  {
    TrimLeftKeeps(s, c);
    TrimRightKeeps(TrimLeft(s), c);
  }

  lemma ParseKeyIsPlain(part: string)
    requires ',' !in part && ParseKey(Trim(part)).Ok?
    ensures PlainKey(ParseKey(Trim(part)).value)
  {
    TrimIsTrimmed(part);
    TrimKeeps(part, ',');
  }

  lemma {:induction false} ParsePartsIsPlain(parts: seq<string>)
    requires forall i :: 0 <= i < |parts| ==> ',' !in parts[i]
    requires ParseParts(parts).Ok?
    ensures PlainList(ParseParts(parts).value)
  {
    if parts != [] {
      var n := |parts| - 1;
      ParsePartsIsPlain(parts[..n]);
      ParseKeyIsPlain(parts[n]);
    }
  }

  lemma {:induction false} JoinEnds(parts: seq<string>, c: char)
    requires parts != [] && forall i :: 0 <= i < |parts| ==> parts[i] != ""
    ensures var s, z := Join(parts, c), parts[|parts| - 1];
      && |parts[0]| <= |s| && s[0] == parts[0][0] && s[|s| - 1] == z[|z| - 1]
  {
    if |parts| > 1 {
      JoinEnds(parts[..|parts| - 1], c);
    }
  }

  /** What the parser returns is always plain, so re-parsing its rendering gives it back. */
  lemma ParsedIsPlain(s: string)
    requires ParseList(s).Ok?
    ensures PlainList(ParseList(s).value)
  {
    var t := Trim(s);
    if t != "" && t != "-" {
      SplitParts(t, ',');
      ParsePartsIsPlain(Split(t, ','));
    }
  }

  lemma PlainListText(keys: seq<BoundKey>)
    requires keys != [] && PlainList(keys)
    ensures forall i :: 0 <= i < |keys| ==> ',' !in RenderKeys(keys)[i]
    ensures Trim(RenderList(keys)) == RenderList(keys) && |RenderList(keys)| >= 3
  {
    var parts, z := RenderKeys(keys), keys[|keys| - 1];
    JoinEnds(parts, ',');
    assert parts[0][0] == keys[0].pool[0];
    assert RenderKey(z)[|RenderKey(z)| - 1] == z.be[|z.be| - 1];
    TrimIsTrimmed(RenderList(keys));
  }

  lemma PlainListSurvives(keys: seq<BoundKey>)
    requires PlainList(keys)
    ensures ParseList(RenderList(keys)) == Ok(keys)
  {
    if keys != [] {
      PlainListText(keys);
      SplitJoin(RenderKeys(keys), ',');
      ParsePartsOfRender(keys);
    }
  }

  /** A binding list survives being written and read back exactly when every key is plain. */
  lemma ListRoundTrip(keys: seq<BoundKey>)
    ensures ParseList(RenderList(keys)) == Ok(keys) <==> PlainList(keys)
  {
    if ParseList(RenderList(keys)) == Ok(keys) {
      ParsedIsPlain(RenderList(keys));
    }
    if PlainList(keys) {
      PlainListSurvives(keys);
    }
  }

  /** Re-parsing the rendering of any list the parser returned gives the same list. */
  lemma ParseRenderParse(s: string)
    requires ParseList(s).Ok?
    ensures ParseList(RenderList(ParseList(s).value)) == ParseList(s)
  {
    ParsedIsPlain(s);
    ListRoundTrip(ParseList(s).value);
  }

  function AppendKey(keys: seq<BoundKey>, key: BoundKey): seq<BoundKey> {
    if key in keys then keys else keys + [key]
  }

  /** The key is in the list afterwards, at the end if it was not there, and nothing else has changed. */
  lemma AppendKeyAdds(keys: seq<BoundKey>, key: BoundKey)
    ensures var r := AppendKey(keys, key);
      && keys <= r && key in r && (key !in keys ==> r[|keys|..] == [key]) && (key in keys ==> |r| == |keys|)
  {
    assert (keys + [key])[|keys|] == key;
  }

  function RemoveKey(keys: seq<BoundKey>, key: BoundKey): seq<BoundKey> {
    if keys == [] then []
    else
      var init, last := keys[..|keys| - 1], keys[|keys| - 1];
      if last == key then RemoveKey(init, key) else RemoveKey(init, key) + [last]
  }

  /** Exactly the removed key goes; lists without it are untouched. */
  lemma {:induction false} RemoveKeyMembers(keys: seq<BoundKey>, key: BoundKey)
    ensures forall k :: k in RemoveKey(keys, key) <==> k in keys && k != key
    ensures key !in keys ==> RemoveKey(keys, key) == keys
    ensures |RemoveKey(keys, key)| <= |keys|
    ensures key in keys ==> |RemoveKey(keys, key)| < |keys|
  {
    if keys != [] {
      var init, last := keys[..|keys| - 1], keys[|keys| - 1];
      RemoveKeyMembers(init, key);
      assert keys == init + [last];
    }
  }

  /** Removing a key just appended restores the list, in order. */
  lemma RemoveUndoesAppend(keys: seq<BoundKey>, key: BoundKey)
    requires key !in keys
    ensures RemoveKey(AppendKey(keys, key), key) == keys
  {
    RemoveKeyMembers(keys, key);
    assert (keys + [key])[..|keys|] == keys;
  }

  /** The list as the program holds it: a vector edited in place. */
  class BoundList {
    var keys: seq<BoundKey>

    constructor (keys: seq<BoundKey>)
      ensures this.keys == keys
    {
      this.keys := keys;
    }

    static method Parse(s: string) returns (r: Result<seq<BoundKey>>)
      ensures r == ParseList(s)
    {
      var t := Trim(s);
      if t == "" || t == "-" {
        return Ok([]);
      }
      var parts := Split(t, ',');
      var entries: seq<BoundKey> := [];
      for i := 0 to |parts|
        invariant ParseParts(parts[..i]) == Ok(entries)
      {
        assert parts[..i + 1][..i] == parts[..i];
        var k := ParseKey(Trim(parts[i]));
        if k.Err? {
          FirstErrorWins(parts, i + 1);
          return Err(k.what);
        }
        entries := entries + [k.value];
      }
      assert parts[..|parts|] == parts;
      return Ok(entries);
    }

    method Append(key: BoundKey)
      modifies this
      ensures keys == AppendKey(old(keys), key)
    {
      if key !in keys {
        keys := keys + [key];
      }
    }

    method Remove(key: BoundKey) returns (removed: bool)
      modifies this
      ensures keys == RemoveKey(old(keys), key)
      ensures removed <==> key in old(keys)
    {
      var kept: seq<BoundKey> := [];
      for i := 0 to |keys|
        invariant keys == old(keys)
        invariant kept == RemoveKey(keys[..i], key)
      {
        assert keys[..i + 1][..i] == keys[..i];
        if keys[i] != key {
          kept := kept + [keys[i]];
        }
      }
      assert keys[..|keys|] == keys;
      RemoveKeyMembers(keys, key);
      removed := |kept| != |keys|;
      keys := kept;
    }
  }

  // -------------------------------------------------------------------------
  // Dataset paths, pair pointers, snapshot references
  // -------------------------------------------------------------------------

  /** `rpool/ROOT/be1` -> `rpool`; a path without `/` is its own pool. */
  function PoolOf(dataset: string): (pool: string)
    ensures '/' !in pool
  {
    dataset[..Find(dataset, '/')]
  }

  /** `rpool/ROOT/be1` -> `be1`. */
  function LeafOf(dataset: string): (leaf: string)
    ensures '/' !in leaf
  {
    if '/' in dataset then LeafOf(dataset[1..]) else dataset
  }

  function RenderPointer(p: PairPointer): string {
    p.pool + "/ROOT/" + p.be
  }

  function ParsePointer(s: string): Option<PairPointer> {
    var t := Trim(s);
    if t == "" || t == "-" then None
    else
      var n := Find(t, '/');
      if n == |t| then None
      else
        var rest := t[n + 1..];
        if !("ROOT/" <= rest) then None
        else
          var be := rest[5..];
          if n == 0 || be == "" || '/' in be then None else Some(PairPointer(t[..n], be))
  }

  predicate PlainPointer(p: PairPointer) {
    && p.pool != "" && '/' !in p.pool && !IsSpace(p.pool[0])
    && p.be != "" && '/' !in p.be && !IsSpace(p.be[|p.be| - 1])
  }

  lemma PlainPointerSurvives(p: PairPointer)
    requires PlainPointer(p)
    ensures ParsePointer(RenderPointer(p)) == Some(p)
  {
    var s, rest := RenderPointer(p), "ROOT/" + p.be;
    assert s == p.pool + ['/'] + rest;
    FindAfter(p.pool, '/', rest);
    assert Trim(s) == s by {
      assert s[0] == p.pool[0] && s[|s| - 1] == p.be[|p.be| - 1];
      TrimIsTrimmed(s);
    }
    assert s[|p.pool| + 1..] == rest && s[..|p.pool|] == p.pool;
    assert rest[5..] == p.be;
  }

  lemma PathParts(t: string, n: nat)
    requires n < |t| && t[n] == '/' && "ROOT/" <= t[n + 1..] && t[n + 1..][5..] != ""
    ensures var be := t[n + 1..][5..];
      && t == t[..n] + "/ROOT/" + be && be[|be| - 1] == t[|t| - 1]
  {
    var rest := t[n + 1..];
    assert rest == "ROOT/" + rest[5..];
    assert t == t[..n] + ['/'] + rest;
    assert t[..n] + ['/'] + ("ROOT/" + rest[5..]) == t[..n] + "/ROOT/" + rest[5..];
  }

  /** A pointer that parses is plain and renders to its trimmed input. */
  lemma ParsedPointer(s: string)
    requires ParsePointer(s).Some?
    ensures PlainPointer(ParsePointer(s).value)
    ensures RenderPointer(ParsePointer(s).value) == Trim(s)
  {
    hide Trim;
    var t := Trim(s);
    TrimIsTrimmed(s);
    var n := Find(t, '/');
    PathParts(t, n);
  }

  /** A pointer survives being written and read back exactly when it is plain. */
  lemma PointerRoundTrip(p: PairPointer)
    ensures ParsePointer(RenderPointer(p)) == Some(p) <==> PlainPointer(p)
  {
    var s := RenderPointer(p);
    if ParsePointer(s) == Some(p) {
      ParsedPointer(s);
    }
    if PlainPointer(p) {
      PlainPointerSurvives(p);
    }
  }

  lemma {:induction false} LeafAfter(a: string, b: string)
    requires '/' !in b
    ensures LeafOf(a + ['/'] + b) == b
  {
    var s := a + ['/'] + b;
    assert s[|a|] == '/';
    if a == "" {
      assert s[1..] == b;
    } else {
      assert s[1..] == a[1..] + ['/'] + b;
      LeafAfter(a[1..], b);
    }
  }

  /** The pool and leaf of a canonical path are the two halves of its pointer. */
  lemma CanonicalParts(p: PairPointer)
    requires '/' !in p.pool && '/' !in p.be
    ensures PoolOf(RenderPointer(p)) == p.pool && LeafOf(RenderPointer(p)) == p.be
  {
    var s := RenderPointer(p);
    assert s == p.pool + ['/'] + ("ROOT/" + p.be);
    FindAfter(p.pool, '/', "ROOT/" + p.be);
    LeafAfter(p.pool + "/ROOT", p.be);
    assert s == p.pool + "/ROOT" + ['/'] + p.be;
  }

  function RenderSnapshotRef(r: SnapshotRef): string {
    r.dataset + ['@'] + r.name
  }

  function ParseSnapshotRef(s: string): Option<SnapshotRef> {
    var n := Find(s, '@');
    if n == |s| || n == 0 || n + 1 == |s| then None
    else Some(SnapshotRef(s[..n], s[n + 1..]))
  }

  /** A snapshot reference survives its text form exactly when its dataset has no `@` and neither half is empty. */
  lemma SnapshotRefRoundTrip(r: SnapshotRef)
    ensures ParseSnapshotRef(RenderSnapshotRef(r)) == Some(r) <==>
      r.dataset != "" && r.name != "" && '@' !in r.dataset
  {
    var s := RenderSnapshotRef(r);
    if '@' !in r.dataset {
      FindAfter(r.dataset, '@', r.name);
      assert s[..|r.dataset|] == r.dataset && s[|r.dataset| + 1..] == r.name;
    }
  }
}
