// The cpio overlay that carries `/etc/hostid` into an initramfs: the writer, a reader that
// follows the newc grammar (section "New ASCII Format" of cpio(5)), and the append.

module Cpio {
  import opened Text

  type Byte = b: int | 0 <= b < 256
  type Bytes = seq<Byte>

  /** The bytes of an ASCII literal. */
  function Ascii(s: string): Bytes {
    if s == "" then []
    else Ascii(s[..|s| - 1]) + [if (s[|s| - 1] as int) < 128 then s[|s| - 1] as int else 63]
  }

  // -------------------------------------------------------------------------
  // Hexadecimal fields
  // -------------------------------------------------------------------------

  function HexDigit(n: nat): Byte
    requires n < 16
  {
    if n < 10 then 48 + n else 87 + n
  }

  /** `{n:0wx}` for a number that fits in `w` digits. */
  function Hex(n: nat, w: nat): Bytes {
    if w == 0 then [] else Hex(n / 16, w - 1) + [HexDigit(n % 16)]
  }

  function DigitValue(b: Byte): Option<nat> {
    if 48 <= b <= 57 then Some(b - 48)
    else if 97 <= b <= 102 then Some(b - 87)
    else if 65 <= b <= 70 then Some(b - 55)
    else None
  }

  function HexValue(bs: Bytes): Option<nat> {
    if bs == [] then Some(0)
    else
      var n, d := HexValue(bs[..|bs| - 1]), DigitValue(bs[|bs| - 1]);
      if n.Some? && d.Some? then Some(16 * n.value + d.value) else None
  }

  function Pow16(w: nat): nat {
    if w == 0 then 1 else 16 * Pow16(w - 1)
  }

  lemma {:induction false} HexRoundTrip(n: nat, w: nat)
    requires n < Pow16(w)
    ensures |Hex(n, w)| == w && HexValue(Hex(n, w)) == Some(n)
  {
    if w > 0 {
      HexRoundTrip(n / 16, w - 1);
      assert (Hex(n / 16, w - 1) + [HexDigit(n % 16)])[..w - 1] == Hex(n / 16, w - 1);
    }
  }

  lemma {:induction false} HexBound(bs: Bytes)
    requires HexValue(bs).Some?
    ensures HexValue(bs).value < Pow16(|bs|)
  {
    if bs != [] {
      HexBound(bs[..|bs| - 1]);
    }
  }

  lemma EightDigits()
    ensures Pow16(8) == U32
  {
    assert Pow16(4) == 65_536;
  }

  /** Numbers written one after the other, eight digits each. */
  function Fields(ns: seq<nat>): Bytes {
    if ns == [] then [] else Fields(ns[..|ns| - 1]) + Hex(ns[|ns| - 1], 8)
  }

  function FieldValues(bs: Bytes): Option<seq<nat>> {
    if |bs| < 8 then if bs == [] then Some([]) else None
    else
      var init, last := FieldValues(bs[..|bs| - 8]), HexValue(bs[|bs| - 8..]);
      if init.Some? && last.Some? then Some(init.value + [last.value]) else None
  }

  lemma FieldRoundTrip(n: nat)
    requires n < U32
    ensures |Hex(n, 8)| == 8 && HexValue(Hex(n, 8)) == Some(n)
  {
    hide Hex, HexValue;
    EightDigits();
    HexRoundTrip(n, 8);
  }

  lemma OneMoreField(bs: Bytes, digits: Bytes)
    requires |digits| == 8 && FieldValues(bs).Some? && HexValue(digits).Some?
    ensures FieldValues(bs + digits) == Some(FieldValues(bs).value + [HexValue(digits).value])
  {
    hide HexValue;
    var all := bs + digits;
    assert all[..|all| - 8] == bs && all[|all| - 8..] == digits;
  }

  lemma {:induction false} FieldsRoundTrip(ns: seq<nat>)
    requires forall i :: 0 <= i < |ns| ==> ns[i] < U32
    ensures |Fields(ns)| == 8 * |ns| && FieldValues(Fields(ns)) == Some(ns)
  {
    if ns != [] {
      hide Hex, HexValue, FieldValues, Pow16;
      var init, last := ns[..|ns| - 1], ns[|ns| - 1];
      FieldRoundTrip(last);
      FieldsRoundTrip(init);
      OneMoreField(Fields(init), Hex(last, 8));
      assert init + [last] == ns;
    }
  }

  lemma {:induction false} FieldsBound(bs: Bytes)
    requires FieldValues(bs).Some?
    ensures 8 * |FieldValues(bs).value| == |bs|
    ensures forall i :: 0 <= i < |FieldValues(bs).value| ==> FieldValues(bs).value[i] < U32
  {
    if |bs| >= 8 {
      FieldsBound(bs[..|bs| - 8]);
      HexBound(bs[|bs| - 8..]);
      EightDigits();
    }
  }

  // -------------------------------------------------------------------------
  // The writer
  // -------------------------------------------------------------------------

  function Zeros(n: nat): Bytes {
    seq(n, _ => 0)
  }

  /** How many bytes bring a length to a multiple of four. */
  function Gap(n: nat): nat {
    (4 - n % 4) % 4
  }

  function ZeroPadded(bs: Bytes): Bytes {
    bs + Zeros(Gap(|bs|))
  }

  function HeaderFields(ino: nat, mode: nat, nlink: nat, filesize: nat, namesize: nat): seq<nat> {
    [ino, mode, 0, 0, nlink, 0, filesize, 0, 0, 0, 0, namesize, 0]
  }

  function Header(fields: seq<nat>): Bytes {
    Ascii("070701") + Fields(fields)
  }

  /** One record: header, name and NUL, padding, content, padding. */
  function Record(fields: seq<nat>, name: Bytes, content: Bytes): Bytes {
    ZeroPadded(ZeroPadded(Header(fields) + name + [0]) + content)
  }

  const REGULAR := 0x81A4    // S_IFREG | 0644

  /** The length is written as a 32-bit number. */
  function FileFields(content: Bytes): seq<nat> {
    HeaderFields(1, REGULAR, 1, |content| % U32, 11)
  }

  function TrailerFields(): seq<nat> {
    HeaderFields(0, 0, 1, 0, 11)
  }

  function Overlay(content: Bytes): Bytes {
    Record(FileFields(content), Ascii("etc/hostid"), content) + Record(TrailerFields(), Ascii("TRAILER!!!"), [])
  }

  /** The archive as the program builds it: a buffer appended to. */
  class Buffer {
    var bytes: Bytes

    constructor ()
      ensures bytes == []
    {
      bytes := [];
    }

    method Extend(bs: Bytes)
      modifies this
      ensures bytes == old(bytes) + bs
    {
      bytes := bytes + bs;
    }

    method WriteNewcHeader(fields: seq<nat>)
      modifies this
      ensures bytes == old(bytes) + Header(fields)
    {
      Extend(Ascii("070701"));
      for i := 0 to |fields|
        invariant bytes == old(bytes) + Ascii("070701") + Fields(fields[..i])
      {
        assert fields[..i + 1][..i] == fields[..i];
        Extend(Hex(fields[i], 8));
      }
      assert fields[..|fields|] == fields;
    }

    method PadTo4()
      modifies this
      ensures bytes == ZeroPadded(old(bytes))
    {
      var pad := Gap(|bytes|);
      for i := 0 to pad
        invariant bytes == old(bytes) + Zeros(i)
      {
        Extend([0]);
        assert Zeros(i) + [0] == Zeros(i + 1);
      }
    }
  }

  lemma PaddedAfter(a: Bytes, b: Bytes)
    requires |a| % 4 == 0
    ensures ZeroPadded(a + b) == a + ZeroPadded(b)
  {
    assert Gap(|a + b|) == Gap(|b|);
  }

  lemma PaddedLength(bs: Bytes)
    ensures |ZeroPadded(bs)| % 4 == 0 && |bs| <= |ZeroPadded(bs)| < |bs| + 4
  {}

  lemma PaddedTwice(bs: Bytes)
    ensures ZeroPadded(ZeroPadded(bs)) == ZeroPadded(bs)
  {
    PaddedLength(bs);
    assert Zeros(0) == [];
  }

  lemma TrailerPadded(first: Bytes, content: Bytes)
    requires first == Record(FileFields(content), Ascii("etc/hostid"), content)
    ensures var trailer := Header(TrailerFields()) + Ascii("TRAILER!!!") + [0];
      ZeroPadded(first + trailer) == first + Record(TrailerFields(), Ascii("TRAILER!!!"), [])
  {
    hide ZeroPadded, Header;
    var trailer := Header(TrailerFields()) + Ascii("TRAILER!!!") + [0];
    PaddedLength(ZeroPadded(Header(FileFields(content)) + Ascii("etc/hostid") + [0]) + content);
    PaddedAfter(first, trailer);
    PaddedTwice(trailer);
    assert ZeroPadded(trailer) + [] == ZeroPadded(trailer);
  }

  /** Padding the whole buffer pads each record: all of them start at a multiple of four. */
  method BuildOverlay(content: Bytes) returns (bs: Bytes)
    ensures bs == Overlay(content)
  {
    hide Header, ZeroPadded;
    var buf := new Buffer();
    buf.WriteNewcHeader(FileFields(content));
    buf.Extend(Ascii("etc/hostid") + [0]);
    buf.PadTo4();
    buf.Extend(content);
    buf.PadTo4();
    ghost var first := Record(FileFields(content), Ascii("etc/hostid"), content);
    assert [] + Header(FileFields(content)) + (Ascii("etc/hostid") + [0]) ==
      Header(FileFields(content)) + Ascii("etc/hostid") + [0];
    assert buf.bytes == first;
    buf.WriteNewcHeader(TrailerFields());
    buf.Extend(Ascii("TRAILER!!!") + [0]);
    buf.PadTo4();
    TrailerPadded(first, content);
    ghost var trailer := Header(TrailerFields()) + Ascii("TRAILER!!!") + [0];
    assert first + Header(TrailerFields()) + (Ascii("TRAILER!!!") + [0]) == first + trailer;
    bs := buf.bytes;
  }

  // -------------------------------------------------------------------------
  // The reader
  // -------------------------------------------------------------------------

  datatype Entry = Entry(mode: nat, name: Bytes, content: Bytes)

  function RoundedUp(n: nat): nat {
    n + Gap(n)
  }

  /** The record at the start of `b`, and where the next one begins. */
  function ReadRecord(b: Bytes): Option<(Entry, nat)> {
    if |b| < 110 || b[..6] != Ascii("070701") then None
    else
      var fields := FieldValues(b[6..110]);
      if fields.None? then None
      else
        FieldsBound(b[6..110]);
        var mode, filesize, namesize := fields.value[1], fields.value[6], fields.value[11];
        var nameEnd := 110 + namesize;
        var start := RoundedUp(nameEnd);
        var next := RoundedUp(start + filesize);
        if namesize == 0 || next > |b| || b[nameEnd - 1] != 0 then None
        else Some((Entry(mode, b[110..nameEnd - 1], b[start..start + filesize]), next))
  }

  lemma RecordsAdvance(b: Bytes)
    requires ReadRecord(b).Some?
    ensures 110 <= ReadRecord(b).value.1 <= |b| && |ReadRecord(b).value.0.content| < U32
  {
    FieldsBound(b[6..110]);
  }

  /** Every entry up to the trailer. */
  function ReadArchive(b: Bytes): Option<seq<Entry>> {
    var r := ReadRecord(b);
    if r.None? then None
    else if r.value.0.name == Ascii("TRAILER!!!") then Some([])
    else
      RecordsAdvance(b);
      var rest := ReadArchive(b[r.value.1..]);
      if rest.None? then None else Some([r.value.0] + rest.value)
  }

  // -------------------------------------------------------------------------
  // Round trip
  // -------------------------------------------------------------------------

  /** What a header must say for its record to be readable. */
  ghost predicate Describes(fields: seq<nat>, name: Bytes, content: Bytes) {
    && |fields| == 13 && (forall i :: 0 <= i < 13 ==> fields[i] < U32)
    && fields[6] == |content| && fields[11] == |name| + 1
  }

  lemma {:induction false} AsciiLength(s: string)
    ensures |Ascii(s)| == |s|
  {
    if s != "" {
      AsciiLength(s[..|s| - 1]);
    }
  }

  lemma HeaderReads(fields: seq<nat>, rest: Bytes)
    requires |fields| == 13 && forall i :: 0 <= i < 13 ==> fields[i] < U32
    ensures var b := Header(fields) + rest;
      |Header(fields)| == 110 && b[..6] == Ascii("070701") && FieldValues(b[6..110]) == Some(fields)
  {
    hide FieldValues, Fields, Ascii;
    AsciiLength("070701");
    FieldsRoundTrip(fields);
    var b := Header(fields) + rest;
    assert b[6..110] == Fields(fields);
  }

  /** A record in its parts: header, name, NUL, gap, content, gap. */
  lemma RecordParts(fields: seq<nat>, name: Bytes, content: Bytes)
    requires |Header(fields)| == 110
    ensures var g := Zeros(Gap(110 + |name| + 1));
      var body := Header(fields) + name + [0] + g + content;
      Record(fields, name, content) == body + Zeros(Gap(|body|)) &&
        |Header(fields) + name + [0] + g| == RoundedUp(111 + |name|)
  {
    hide Header;
  }

  lemma PartsOf(h: Bytes, name: Bytes, g: Bytes, content: Bytes, rest: Bytes, b: Bytes)
    requires |h| == 110 && b == h + (name + [0] + g + content + rest)
    ensures b[110..110 + |name|] == name && b[110 + |name|] == 0
    ensures b[111 + |name| + |g|..111 + |name| + |g| + |content|] == content
  {}

  lemma RecordReads(fields: seq<nat>, name: Bytes, content: Bytes, rest: Bytes)
    requires Describes(fields, name, content)
    ensures ReadRecord(Record(fields, name, content) + rest) ==
      Some((Entry(fields[1], name, content), |Record(fields, name, content)|))
  {
    hide Header, FieldValues, Ascii, Record;
    HeaderReads(fields, []);
    RecordParts(fields, name, content);
    var h := Header(fields);
    var g := Zeros(Gap(110 + |name| + 1));
    var g2 := Zeros(Gap(|h + name + [0] + g + content|));
    var tail := name + [0] + g + content + g2 + rest;
    HeaderReads(fields, tail);
    var b := Record(fields, name, content) + rest;
    assert b == h + tail;
    PartsOf(h, name, g, content, g2 + rest, b);
  }

  lemma FirstEntryFits(b: Bytes)
    requires ReadArchive(b).Some? && ReadArchive(b).value != []
    ensures |ReadArchive(b).value[0].content| < U32
  {
    hide ReadRecord;
    RecordsAdvance(b);
  }

  lemma NamesDiffer()
    ensures |Ascii("etc/hostid")| == 10 && |Ascii("TRAILER!!!")| == 10 && Ascii("etc/hostid") != Ascii("TRAILER!!!")
  {
    AsciiLength("etc/hostid");
    AsciiLength("TRAILER!!!");
    var a, b := "etc/hostid", "TRAILER!!!";
    assert Ascii(a)[9] == 'd' as int && Ascii(b)[9] == '!' as int;
  }

  lemma OverlayReads(content: Bytes)
    requires |content| < U32
    ensures ReadArchive(Overlay(content)) == Some([Entry(REGULAR, Ascii("etc/hostid"), content)])
  {
    hide Record, ReadRecord, Ascii;
    var first := Record(FileFields(content), Ascii("etc/hostid"), content);
    var last := Record(TrailerFields(), Ascii("TRAILER!!!"), []);
    NamesDiffer();
    RecordReads(FileFields(content), Ascii("etc/hostid"), content, last);
    RecordReads(TrailerFields(), Ascii("TRAILER!!!"), [], []);
    assert last + [] == last;
    assert (first + last)[|first|..] == last;
    var e := Entry(REGULAR, Ascii("etc/hostid"), content);
    assert [e] + [] == [e];
    assert ReadArchive(last) == Some([]);
  }

  /** The overlay reads back as the one file with its content exactly when the length fits the header's 32 bits. */
  lemma OverlayRoundTrip(content: Bytes)
    ensures ReadArchive(Overlay(content)) == Some([Entry(REGULAR, Ascii("etc/hostid"), content)]) <==> |content| < U32
  {
    hide Record, ReadRecord, Ascii;
    if |content| < U32 {
      OverlayReads(content);
    } else if ReadArchive(Overlay(content)) == Some([Entry(REGULAR, Ascii("etc/hostid"), content)]) {
      FirstEntryFits(Overlay(content));
    }
  }

  // -------------------------------------------------------------------------
  // Byte by byte
  // -------------------------------------------------------------------------

  lemma {:induction false} AsciiIs(s: string)
    requires forall i :: 0 <= i < |s| ==> (s[i] as int) < 128
    ensures |Ascii(s)| == |s| && forall i :: 0 <= i < |s| ==> Ascii(s)[i] == s[i] as int
  {
    if s != "" {
      AsciiIs(s[..|s| - 1]);
    }
  }

  /** The digits are those of lower-case hexadecimal. */
  lemma HexDigitIs(n: nat)
    requires n < 16
    ensures HexDigit(n) == "0123456789abcdef"[n] as int
  {}

  lemma {:induction false} HexLength(n: nat, w: nat)
    ensures |Hex(n, w)| == w
  {
    if w > 0 {
      HexLength(n / 16, w - 1);
    }
  }

  lemma {:induction false} FieldAt(ns: seq<nat>, i: nat)
    requires i < |ns|
    ensures |Fields(ns)| == 8 * |ns| && Fields(ns)[8 * i..8 * i + 8] == Hex(ns[i], 8)
  {
    hide Hex;
    var init, last := ns[..|ns| - 1], ns[|ns| - 1];
    HexLength(last, 8);
    if i < |init| {
      FieldAt(init, i);
      assert Fields(ns)[8 * i..8 * i + 8] == Fields(init)[8 * i..8 * i + 8];
    } else if init != [] {
      FieldAt(init, 0);
    } else {
      assert Fields(init) == [];
    }
  }

  /** Where the fields of a header lie, counted from its start. */
  lemma HeaderAt(fields: seq<nat>, i: nat)
    requires |fields| == 13 && i < 13
    ensures |Header(fields)| == 110 && Header(fields)[..6] == Ascii("070701")
    ensures Header(fields)[6 + 8 * i..14 + 8 * i] == Hex(fields[i], 8)
  {
    hide Fields, Hex, Ascii;
    AsciiLength("070701");
    FieldAt(fields, i);
    assert Header(fields)[6 + 8 * i..14 + 8 * i] == Fields(fields)[8 * i..8 * i + 8];
  }

  lemma Regrouped(h: Bytes, name: Bytes, g: Bytes, content: Bytes, pad: Bytes, rest: Bytes)
    ensures h + name + [0] + g + content + pad + rest == h + (name + [0] + g + content + (pad + rest))
  {}

  lemma ZerosLength(n: nat)
    ensures |Zeros(n)| == n
  {}

  /** A record read from its start: header, name, NUL, and after the gap the content. */
  lemma RecordStarts(fields: seq<nat>, name: Bytes, content: Bytes, rest: Bytes)
    requires |Header(fields)| == 110
    ensures var b, start := Record(fields, name, content) + rest, 111 + |name| + Gap(111 + |name|);
      && |b| >= start + |content| && b[..110] == Header(fields) && b[110..110 + |name|] == name
      && b[110 + |name|] == 0 && b[start..start + |content|] == content
  {
    hide Header, Record, Zeros, Gap;
    RecordParts(fields, name, content);
    var h, g := Header(fields), Zeros(Gap(111 + |name|));
    var pad := Zeros(Gap(|h + name + [0] + g + content|));
    ZerosLength(Gap(111 + |name|));
    Regrouped(h, name, g, content, pad, rest);
    PartsOf(h, name, g, content, pad + rest, Record(fields, name, content) + rest);
  }

  lemma FileStarts(content: Bytes)
    ensures var b := Overlay(content);
      && |b| >= 124 + |content| && b[..110] == Header(FileFields(content)) && b[110..120] == Ascii("etc/hostid")
      && b[120] == 0 && b[124..124 + |content|] == content
  {
    hide Header, Ascii, TrailerFields, Record;
    NamesDiffer();
    HeaderAt(FileFields(content), 0);
    assert Gap(121) == 3;
    RecordStarts(FileFields(content), Ascii("etc/hostid"), content, Record(TrailerFields(), Ascii("TRAILER!!!"), []));
  }

  lemma Shifted(a: Bytes, b: Bytes)
    requires |b| >= 121
    ensures (a + b)[|a|..|a| + 110] == b[..110] && (a + b)[|a| + 110..|a| + 120] == b[110..120]
    ensures (a + b)[|a| + 120] == b[120]
  {}

  lemma RecordLength(fields: seq<nat>, name: Bytes, content: Bytes)
    requires |fields| == 13 && |name| == 10
    ensures |Record(fields, name, content)| == RoundedUp(124 + |content|)
  {
    hide Header;
    HeaderAt(fields, 0);
    RecordParts(fields, name, content);
    assert Gap(121) == 3;
  }

  lemma TrailerRecord()
    ensures var b := Record(TrailerFields(), Ascii("TRAILER!!!"), []);
      && |b| == 124 && b[..110] == Header(TrailerFields()) && b[110..120] == Ascii("TRAILER!!!") && b[120] == 0
  {
    hide Header, Ascii, Record;
    NamesDiffer();
    HeaderAt(TrailerFields(), 0);
    RecordLength(TrailerFields(), Ascii("TRAILER!!!"), []);
    RecordStarts(TrailerFields(), Ascii("TRAILER!!!"), [], []);
    assert Record(TrailerFields(), Ascii("TRAILER!!!"), []) + [] == Record(TrailerFields(), Ascii("TRAILER!!!"), []);
  }

  lemma GapAligns(n: nat)
    ensures (n + Gap(n)) % 4 == 0
  {}

  /** The second record starts at the next multiple of four, and is the archive's last. */
  lemma TrailerStarts(content: Bytes)
    ensures var b, at := Overlay(content), RoundedUp(124 + |content|);
      && at % 4 == 0 && at + 124 == |b| && b[at..at + 110] == Header(TrailerFields())
      && b[at + 110..at + 120] == Ascii("TRAILER!!!") && b[at + 120] == 0
  {
    hide Header, Ascii, Record, TrailerFields;
    NamesDiffer();
    RecordLength(FileFields(content), Ascii("etc/hostid"), content);
    TrailerRecord();
    GapAligns(124 + |content|);
    Shifted(Record(FileFields(content), Ascii("etc/hostid"), content),
      Record(TrailerFields(), Ascii("TRAILER!!!"), []));
  }

  lemma Within(b: Bytes, at: nat, n: nat, i: nat, j: nat)
    requires i <= j <= n && at + n <= |b|
    ensures b[at..at + n][i..j] == b[at + i..at + j]
  {
    var whole, part := b[at..at + n], b[at + i..at + j];
    forall k | 0 <= k < j - i ensures whole[i..j][k] == part[k] {
      assert whole[i + k] == b[at + i + k];
    }
  }

  lemma TrailerLayout(content: Bytes)
    ensures var b, at := Overlay(content), RoundedUp(124 + |content|);
      && at % 4 == 0 && |b| == at + 124 && b[at..at + 6] == [48, 55, 48, 55, 48, 49]
      && FieldValues(b[at + 6..at + 110]) == Some([0, 0, 0, 0, 1, 0, 0, 0, 0, 0, 0, 11, 0])
      && b[at + 54..at + 62] == Hex(0, 8) && b[at + 94..at + 102] == Hex(11, 8)
      && b[at + 110..at + 121] == [84, 82, 65, 73, 76, 69, 82, 33, 33, 33, 0]
  {
    hide Overlay, Header, Hex, Ascii, RoundedUp, FieldValues;
    var b, at, fields := Overlay(content), RoundedUp(124 + |content|), TrailerFields();
    TrailerStarts(content);
    HeaderReads(fields, []);
    assert Header(fields) + [] == Header(fields);
    AsciiIs("070701");
    AsciiIs("TRAILER!!!");
    HeaderAt(fields, 6);
    HeaderAt(fields, 11);
    Within(b, at, 110, 0, 6);
    Within(b, at, 110, 6, 110);
    Within(b, at, 110, 54, 62);
    Within(b, at, 110, 94, 102);
    assert b[at..at + 110][0..6] == b[at..at + 110][..6];
    assert b[at + 110..at + 121] == b[at + 110..at + 120] + [b[at + 120]];
  }

  /**
   * The overlay starts with a new-ASCII header of a regular file of mode 644 with one link, whose size and name length
   * are where cpio(5) has them, then the name `etc/hostid`, a NUL, and at byte 124 the content; it ends with the record
   * named `TRAILER!!!`, without content.
   */
  lemma OverlayLayout(content: Bytes)
    ensures var b := Overlay(content);
      && |b| >= 124 + |content| && b[..6] == [48, 55, 48, 55, 48, 49]
      && FieldValues(b[6..110]) == Some([1, 33_188, 0, 0, 1, 0, |content| % U32, 0, 0, 0, 0, 11, 0])
      && b[6..14] == Hex(1, 8) && b[14..22] == Hex(0x8000 + 6 * 64 + 4 * 8 + 4, 8) && b[38..46] == Hex(1, 8)
      && b[54..62] == Hex(|content| % U32, 8) && b[94..102] == Hex(11, 8)
      && b[110..121] == [101, 116, 99, 47, 104, 111, 115, 116, 105, 100, 0]
      && b[124..124 + |content|] == content
    ensures var b, at := Overlay(content), RoundedUp(124 + |content|);
      && at % 4 == 0 && |b| == at + 124 && b[at..at + 6] == [48, 55, 48, 55, 48, 49]
      && FieldValues(b[at + 6..at + 110]) == Some([0, 0, 0, 0, 1, 0, 0, 0, 0, 0, 0, 11, 0])
      && b[at + 54..at + 62] == Hex(0, 8) && b[at + 94..at + 102] == Hex(11, 8)
      && b[at + 110..at + 121] == [84, 82, 65, 73, 76, 69, 82, 33, 33, 33, 0]
  {
    hide Overlay, Header, Hex, Ascii, RoundedUp, FieldValues;
    var b, fields := Overlay(content), FileFields(content);
    TrailerLayout(content);
    FileStarts(content);
    HeaderReads(fields, []);
    assert Header(fields) + [] == Header(fields) && b[6..110] == b[..110][6..110];
    AsciiIs("070701");
    AsciiIs("etc/hostid");
    HeaderAt(fields, 0);
    HeaderAt(fields, 1);
    HeaderAt(fields, 4);
    HeaderAt(fields, 6);
    HeaderAt(fields, 11);
    var h := Header(fields);
    assert b[..6] == h[..6] && b[6..14] == h[6..14] && b[14..22] == h[14..22] && b[38..46] == h[38..46];
    assert b[54..62] == h[54..62] && b[94..102] == h[94..102];
    assert b[110..121] == b[110..120] + [b[120]];
  }

  // -------------------------------------------------------------------------
  // Appending
  // -------------------------------------------------------------------------

  /** What the program makes of an initrd: zeros up to a multiple of four, then the overlay. */
  function Appended(initrd: Bytes, content: Bytes): Bytes {
    initrd + Zeros(Gap(|initrd|)) + Overlay(content)
  }

  lemma RecordAligned(fields: seq<nat>, name: Bytes, content: Bytes)
    ensures |Record(fields, name, content)| % 4 == 0
  {
    hide Header;
    PaddedLength(ZeroPadded(Header(fields) + name + [0]) + content);
  }

  lemma OverlayAligned(content: Bytes)
    ensures |Overlay(content)| % 4 == 0
  {
    hide Record;
    RecordAligned(FileFields(content), Ascii("etc/hostid"), content);
    RecordAligned(TrailerFields(), Ascii("TRAILER!!!"), []);
  }

  /** Whatever its size was, the appended archive starts and ends on a multiple of four, and the rest is as it was. */
  lemma AppendIsAligned(initrd: Bytes, content: Bytes)
    ensures var start := |initrd| + Gap(|initrd|);
      && start % 4 == 0 && |Appended(initrd, content)| % 4 == 0
      && Appended(initrd, content)[..|initrd|] == initrd && Appended(initrd, content)[start..] == Overlay(content)
      && forall i :: |initrd| <= i < start ==> Appended(initrd, content)[i] == 0
  {
    hide Overlay, Gap;
    GapAligns(|initrd|);
    OverlayAligned(content);
    assert Appended(initrd, content) == initrd + Zeros(Gap(|initrd|)) + Overlay(content);
  }

  lemma OverlayNotEmpty(content: Bytes)
    ensures |Overlay(content)| > 0
  {}

  /** Appending again always appends again: there is no check for an overlay already present. */
  lemma AppendIsNotIdempotent(initrd: Bytes, content: Bytes)
    ensures |Appended(Appended(initrd, content), content)| == |Appended(initrd, content)| + |Overlay(content)|
    ensures |Overlay(content)| > 0
  {
    hide Overlay;
    AppendIsAligned(initrd, content);
    OverlayNotEmpty(content);
  }

  predicate IsInitrd(name: string) {
    "initrd.img-" <= name
  }

  function Overlaid(files: map<string, Bytes>, content: Bytes, done: set<string>): map<string, Bytes> {
    map f | f in files :: if f in done && IsInitrd(f) then Appended(files[f], content) else files[f]
  }

  lemma OverlaidStep(files: map<string, Bytes>, content: Bytes, done: set<string>, f: string)
    ensures Overlaid(files, content, done + {f}) ==
      if f in files && f !in done && IsInitrd(f) then Overlaid(files, content, done)[f := Appended(files[f], content)]
      else Overlaid(files, content, done)
  {
    hide Appended;
  }

  lemma OverlaidNone(files: map<string, Bytes>, content: Bytes)
    ensures Overlaid(files, content, {}) == files
  {}

  lemma OverlaidAll(files: map<string, Bytes>, content: Bytes, done: set<string>)
    requires files.Keys <= done
    ensures Overlaid(files, content, done) == Overlaid(files, content, files.Keys)
  {
    hide Appended;
  }

  lemma AppendGrows(initrd: Bytes, content: Bytes)
    ensures initrd < Appended(initrd, content)
  {
    hide Overlay, Gap, Zeros;
    OverlayNotEmpty(content);
  }

  lemma OverlaidFiles(files: map<string, Bytes>, content: Bytes)
    ensures var out := Overlaid(files, content, files.Keys);
      && out.Keys == files.Keys && (forall f :: f in files && !("initrd.img-" <= f) ==> out[f] == files[f])
      && forall f :: f in files && "initrd.img-" <= f ==> files[f] < out[f] && |out[f]| % 4 == 0
  {
    hide Appended;
    forall f | f in files && "initrd.img-" <= f
      ensures files[f] < Appended(files[f], content) && |Appended(files[f], content)| % 4 == 0
    {
      AppendIsAligned(files[f], content);
      AppendGrows(files[f], content);
    }
  }

  /** Every initrd in `/boot` gets the overlay; other files are left alone. */
  method OverlayInitrds(files: map<string, Bytes>, names: seq<string>, content: Bytes) returns (out: map<string, Bytes>)
    requires forall f :: f in files ==> f in names
    requires forall i, j :: 0 <= i < j < |names| ==> names[i] != names[j]
    ensures out == Overlaid(files, content, files.Keys)
    ensures out.Keys == files.Keys && forall f :: f in files && !("initrd.img-" <= f) ==> out[f] == files[f]
    ensures forall f :: f in files && "initrd.img-" <= f ==> files[f] < out[f] && |out[f]| % 4 == 0
  {
    hide Overlay, Zeros, Gap, Overlaid;
    var overlay := BuildOverlay(content);
    ghost var done := {};
    out := files;
    OverlaidNone(files, content);
    for i := 0 to |names|
      invariant forall f :: f in done <==> f in names[..i]
      invariant out == Overlaid(files, content, done)
    {
      var f := names[i];
      OverlaidStep(files, content, done, f);
      if f in files && IsInitrd(f) {
        out := out[f := files[f] + Zeros(Gap(|files[f]|)) + overlay];
      }
      done := done + {f};
    }
    OverlaidAll(files, content, done);
    OverlaidFiles(files, content);
  }
}
