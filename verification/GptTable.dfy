/** The GPT structures of gpt_image.py, and a reader that follows the checks of
    tests/image_layout_test.py and of section 5.3.2 of the UEFI specification. */
module GptTable {
  import opened Bytes
  import opened Text
  import opened Regions

  const ENTRIES := 128
  const ENTRY_SIZE := 128
  const ARRAY_SIZE := 16384
  const LIMIT64 := 0x1_0000_0000_0000_0000

  type word32 = x: int | 0 <= x < 0x1_0000_0000
  type word64 = x: int | 0 <= x < 0x1_0000_0000_0000_0000
  type Guid = s: seq<byte> | |s| == 16 witness seq(16, _ => 0)

  /** `binascii.crc32`, of which nothing is assumed. */
  type Crc = seq<byte> -> word32

  // ----- partition entries -----

  datatype Info = Info(
    typeGuid: Guid, uniqueGuid: Guid, start: word64, end: word64, attributes: word64, name: string)

  predicate ValidInfo(p: Info) { |EncodeUtf16(p.name)| <= 36 }

  function NameField(name: string): (r: seq<byte>)
    requires |EncodeUtf16(name)| <= 36
    ensures |r| == 72
  {
    var us := EncodeUtf16(name);
    PackUnits(us) + Zeros(72 - 2 * |us|)
  }

  function Lbas3(a: word64, b: word64, c: word64): (r: seq<byte>)
    ensures |r| == 24
    ensures GetLe64(r, 0) == a && GetLe64(r, 8) == b && GetLe64(r, 16) == c
  {
    var r := Le64(a) + Le64(b) + Le64(c);
    assert r[0..8] == Le64(a) && r[8..16] == Le64(b) && r[16..24] == Le64(c);
    Le64RoundTrip(r, 0, a);
    Le64RoundTrip(r, 8, b);
    Le64RoundTrip(r, 16, c);
    r
  }

  /** The 128-byte record `_partition_entries` fills in. */
  function EntryBytes(p: Info): (r: seq<byte>)
    requires ValidInfo(p)
    ensures |r| == 128
    ensures r[..16] == p.typeGuid && r[16..32] == p.uniqueGuid
    ensures r[32..56] == Lbas3(p.start, p.end, p.attributes) && r[56..] == NameField(p.name)
  {
    p.typeGuid + p.uniqueGuid + Lbas3(p.start, p.end, p.attributes) + NameField(p.name)
  }

  function NameUnits(field: seq<byte>): (us: seq<unit>)
    requires |field| == 72
    ensures |us| == 36
  {
    seq(36, i requires 0 <= i < 36 => GetLe16(field, 2 * i))
  }

  /** `rstrip("\0")` */
  function RStrip(s: string): (r: string)
    ensures r <= s && (r == "" || r[|r| - 1] != '\0')
    ensures forall i :: |r| <= i < |s| ==> s[i] == '\0'
  {
    if s != "" && s[|s| - 1] == '\0' then RStrip(s[..|s| - 1]) else s
  }

  function ReadName(field: seq<byte>): Option<string>
    requires |field| == 72
  {
    var text := DecodeUtf16(NameUnits(field));
    if text.None? then None else Some(RStrip(text.value))
  }

  function ReadEntry(r: seq<byte>): Option<Info>
    requires |r| == 128
  {
    var name := ReadName(r[56..]);
    if name.None? then None
    else Some(Info(r[..16], r[16..32], GetLe64(r, 32), GetLe64(r, 40), GetLe64(r, 48), name.value))
  }

  lemma {:induction false} EncodeAppendZeros(s: string, k: nat)
    ensures EncodeUtf16(s + Repeat('\0', k)) == EncodeUtf16(s) + Repeat(0, k)
    decreases |s|, k
  {
    var z: seq<char> := Repeat('\0', k);
    if s != [] {
      EncodeAppendZeros(s[1..], k);
      assert (s + z)[1..] == s[1..] + z;
      var head, rest := EncodeChar(s[0]), EncodeUtf16(s[1..]);
      assert head + (rest + Repeat(0, k)) == (head + rest) + Repeat(0, k);
    } else if k > 0 {
      EncodeAppendZeros(s, k - 1);
      assert (s + z)[1..] == s + Repeat('\0', k - 1);
      assert EncodeChar('\0') == [0];
      assert [0] + Repeat(0, k - 1) == Repeat(0, k);
    }
  }

  lemma {:induction false} RStripZeros(s: string, k: nat)
    ensures RStrip(s + Repeat('\0', k)) == RStrip(s)
  {
    var t := s + Repeat('\0', k);
    if k > 0 {
      RStripZeros(s, k - 1);
      assert t[..|t| - 1] == s + Repeat('\0', k - 1);
    } else {
      assert t == s;
    }
  }

  lemma {:induction false} FieldUnits(name: string)
    requires |EncodeUtf16(name)| <= 36
    ensures NameUnits(NameField(name)) == EncodeUtf16(name) + Repeat(0, 36 - |EncodeUtf16(name)|)
  {
    var us, field := EncodeUtf16(name), NameField(name);
    forall i | 0 <= i < 36 ensures GetLe16(field, 2 * i) == if i < |us| then us[i] else 0 {
      if i < |us| { assert GetLe16(PackUnits(us), 2 * i) == us[i]; }
    }
  }

  lemma {:induction false} NameRoundTrip(name: string)
    requires |EncodeUtf16(name)| <= 36
    ensures ReadName(NameField(name)) == Some(RStrip(name))
  {
    var k := 36 - |EncodeUtf16(name)|;
    hide NameField, NameUnits, EncodeUtf16, DecodeUtf16, RStrip, Repeat;
    FieldUnits(name);
    EncodeAppendZeros(name, k);
    Utf16RoundTrip(name + Repeat('\0', k));
    RStripZeros(name, k);
  }

  lemma {:induction false} SliceLe64(s: seq<byte>, lo: nat, hi: nat, k: nat)
    requires lo + k + 8 <= hi <= |s|
    ensures GetLe64(s, lo + k) == GetLe64(s[lo..hi], k)
  {
  }

  lemma {:induction false} SliceLe32(s: seq<byte>, lo: nat, hi: nat, k: nat)
    requires lo + k + 4 <= hi <= |s|
    ensures GetLe32(s, lo + k) == GetLe32(s[lo..hi], k)
  {
  }

  /** An entry reads back, its name without trailing NUL characters. */
  lemma {:induction false} EntryReadsBack(p: Info)
    requires ValidInfo(p)
    ensures ReadEntry(EntryBytes(p)) == Some(p.(name := RStrip(p.name)))
  {
    var r := EntryBytes(p);
    hide EntryBytes, GetLe64, NameField, ReadName, Lbas3;
    SliceLe64(r, 32, 56, 0);
    SliceLe64(r, 32, 56, 8);
    SliceLe64(r, 32, 56, 16);
    NameRoundTrip(p.name);
  }

  // ----- the entry array -----

  predicate ValidInfos(ps: seq<Info>)
  {
    |ps| <= ENTRIES && forall i :: 0 <= i < |ps| ==> ValidInfo(ps[i])
  }

  function EntryRegions(ps: seq<Info>): (rs: seq<Region>)
    requires ValidInfos(ps)
    ensures |rs| == |ps| && Fits(ARRAY_SIZE, rs)
    ensures forall i :: 0 <= i < |ps| ==> rs[i] == Region(i * 128, EntryBytes(ps[i]))
  {
    seq(|ps|, i requires 0 <= i < |ps| => Region(i * 128, EntryBytes(ps[i])))
  }

  function EntryArray(ps: seq<Info>): (r: seq<byte>)
    requires ValidInfos(ps)
    ensures |r| == ARRAY_SIZE
  {
    WriteAll(Zeros(ARRAY_SIZE), EntryRegions(ps))
  }

  method PartitionEntries(ps: seq<Info>) returns (r: Option<seq<byte>>)
    requires |ps| <= ENTRIES
    ensures r.Some? <==> ValidInfos(ps)
    ensures r.Some? ==> r.value == EntryArray(ps)
  {
    hide EntryBytes, ValidInfo, WriteAll, Splice;
    var a := NewZeros(ARRAY_SIZE);
    WriteNone(Zeros(ARRAY_SIZE));
    assert EntryRegions(ps[..0]) == [];
    for i := 0 to |ps|
      invariant ValidInfos(ps[..i]) && a[..] == EntryArray(ps[..i])
    {
      if !FitsName(ps[i]) {
        return None;
      }
      EntryNext(ps, i);
      WriteAt(a, i * 128, EntryBytes(ps[i]));
    }
    assert ps[..|ps|] == ps;
    return Some(a[..]);
  }

  predicate FitsName(p: Info)
    ensures FitsName(p) <==> ValidInfo(p)
  {
    2 * |EncodeUtf16(p.name)| <= 72
  }

  lemma {:induction false} RegionsNext(ps: seq<Info>, p: Info)
    requires |ps| < ENTRIES && ValidInfos(ps) && ValidInfo(p)
    ensures ValidInfos(ps + [p])
    ensures EntryRegions(ps + [p]) == EntryRegions(ps) + [Region(|ps| * 128, EntryBytes(p))]
  {
    hide EntryBytes, ValidInfo, EntryRegions;
    var qs, n := ps + [p], |ps|;
    var a, b := EntryRegions(qs), EntryRegions(ps) + [Region(n * 128, EntryBytes(p))];
    assert |a| == n + 1 == |b|;
    forall i | 0 <= i < |a| ensures a[i] == b[i] {
      if i < n { assert qs[i] == ps[i]; } else { assert qs[n] == p; }
    }
  }

  lemma {:induction false} EntryNext(ps: seq<Info>, i: nat)
    requires i < |ps| <= ENTRIES && ValidInfos(ps[..i]) && ValidInfo(ps[i])
    ensures ValidInfos(ps[..i + 1])
    ensures EntryArray(ps[..i + 1]) == Splice(EntryArray(ps[..i]), i * 128, EntryBytes(ps[i]))
  {
    hide EntryBytes, ValidInfo, WriteAll, Splice;
    var r := Region(i * 128, EntryBytes(ps[i]));
    assert ps[..i + 1] == ps[..i] + [ps[i]];
    RegionsNext(ps[..i], ps[i]);
    hide EntryRegions;
    WriteOneMore(Zeros(ARRAY_SIZE), EntryRegions(ps[..i]), r);
  }

  function EntryAt(table: seq<byte>, i: nat): (r: seq<byte>)
    requires |table| == ARRAY_SIZE && i < ENTRIES
    ensures |r| == 128
  {
    table[i * 128..i * 128 + 128]
  }

  /** The slot of a partition holds its record; the other slots are zero. */
  lemma {:induction false} ArrayReadsBack(ps: seq<Info>, i: nat)
    requires ValidInfos(ps) && i < ENTRIES
    ensures i < |ps| ==> EntryAt(EntryArray(ps), i) == EntryBytes(ps[i])
    ensures i >= |ps| ==> EntryAt(EntryArray(ps), i) == Zeros(128)
  {
    hide EntryBytes, ValidInfo, WriteAll;
    var rs := EntryRegions(ps);
    if i < |ps| {
      ReadsBack(Zeros(ARRAY_SIZE), rs, i);
    } else {
      Untouched(Zeros(ARRAY_SIZE), rs, i * 128, i * 128 + 128);
      assert Zeros(ARRAY_SIZE)[i * 128..i * 128 + 128] == Zeros(128);
    }
  }

  // ----- the header -----

  datatype Header = Header(
    current: word64, backup: word64, first: word64, last: word64, guid: Guid, entriesLba: word64, entriesCrc: word32)

  function HeaderStart(): (r: seq<byte>)
    ensures |r| == 16 && r[..8] == Signature() && GetLe32(r, 12) == 92
  {
    Signature() + Le32(0x0001_0000) + Le32(92)
  }

  /** `b"EFI PART"` */
  function Signature(): (r: seq<byte>)
    ensures |r| == 8
  {
    [0x45, 0x46, 0x49, 0x20, 0x50, 0x41, 0x52, 0x54]
  }

  function Lbas4(a: word64, b: word64, c: word64, d: word64): (r: seq<byte>)
    ensures |r| == 32
    ensures GetLe64(r, 0) == a && GetLe64(r, 8) == b && GetLe64(r, 16) == c && GetLe64(r, 24) == d
  {
    var r := Lbas3(a, b, c) + Le64(d);
    assert r[0..24] == Lbas3(a, b, c) && r[24..32] == Le64(d);
    Le64RoundTrip(r, 24, d);
    SliceLe64(r, 0, 24, 0);
    SliceLe64(r, 0, 24, 8);
    SliceLe64(r, 0, 24, 16);
    r
  }

  function HeaderEnd(lba: word64, crc: word32): (r: seq<byte>)
    ensures |r| == 20
    ensures GetLe64(r, 0) == lba && GetLe32(r, 8) == 128 && GetLe32(r, 12) == 128 && GetLe32(r, 16) == crc
  {
    var r := Le64(lba) + Le32(128) + Le32(128) + Le32(crc);
    assert r[0..8] == Le64(lba) && r[8..12] == Le32(128) && r[12..16] == Le32(128) && r[16..20] == Le32(crc);
    Le64RoundTrip(r, 0, lba);
    Le32RoundTrip(r, 8, 128);
    Le32RoundTrip(r, 12, 128);
    Le32RoundTrip(r, 16, crc);
    r
  }

  /** The first 92 bytes, with `crc` in the checksum field. */
  function HeaderFields(h: Header, crc: word32): (r: seq<byte>)
    ensures |r| == 92
    ensures r[..16] == HeaderStart() && r[16..20] == Le32(crc) && r[20..24] == Zeros(4)
    ensures r[24..56] == Lbas4(h.current, h.backup, h.first, h.last)
    ensures r[56..72] == h.guid && r[72..] == HeaderEnd(h.entriesLba, h.entriesCrc)
  {
    HeaderStart() + Le32(crc) + Zeros(4) + Lbas4(h.current, h.backup, h.first, h.last) + h.guid
    + HeaderEnd(h.entriesLba, h.entriesCrc)
  }

  function HeaderSector(crc: Crc, h: Header): (r: seq<byte>)
    ensures |r| == 512
  {
    HeaderFields(h, crc(HeaderFields(h, 0))) + Zeros(420)
  }

  lemma {:induction false} CrcField(h: Header, c: word32, d: word32)
    ensures Splice(HeaderFields(h, c) + Zeros(420), 16, Le32(d)) == HeaderFields(h, d) + Zeros(420)
  {
    var a, b := HeaderFields(h, c), HeaderFields(h, d);
    hide HeaderStart, Lbas4, HeaderEnd, Le32, HeaderFields;
    HeadTail(a, b, Le32(d));
    SpliceFront(a, 16, Le32(d), Zeros(420));
  }

  lemma {:induction false} HeadTail(a: seq<byte>, b: seq<byte>, field: seq<byte>)
    requires |a| == |b| == 92 && |field| == 4 && b[16..20] == field
    requires a[..16] == b[..16] && a[20..24] == b[20..24] && a[24..56] == b[24..56] && a[56..72] == b[56..72]
    requires a[72..] == b[72..]
    ensures Splice(a, 16, field) == b
  {
    var r := Splice(a, 16, field);
    assert r == a[..16] + field + a[20..];
    assert a[20..] == a[20..24] + a[24..56] + a[56..72] + a[72..];
    assert b == b[..16] + b[16..20] + b[20..24] + b[24..56] + b[56..72] + b[72..];
  }

  /** `_gpt_header`: pack with a zero checksum, then patch the checksum in. */
  method GptHeader(crc: Crc, h: Header) returns (r: seq<byte>)
    ensures r == HeaderSector(crc, h)
  {
    hide HeaderFields, Splice, Le32;
    var a := NewZeros(512);
    FrontOfZeros(HeaderFields(h, 0));
    WriteAt(a, 0, HeaderFields(h, 0));
    assert a[..92] == HeaderFields(h, 0) by { assert a[..][..92] == a[..92]; }
    var headerCrc := crc(a[..92]);
    CrcField(h, 0, headerCrc);
    WriteAt(a, 16, Le32(headerCrc));
    return a[..];
  }

  lemma {:induction false} FrontOfZeros(fields: seq<byte>)
    requires |fields| == 92
    ensures Splice(Zeros(512), 0, fields) == fields + Zeros(420)
    ensures Splice(Zeros(512), 0, fields)[..92] == fields
  {
  }

  // ----- the reader -----

  function Sector(disk: seq<byte>, lba: nat): (r: seq<byte>)
    requires (lba + 1) * 512 <= |disk|
    ensures |r| == 512
  {
    disk[lba * 512..(lba + 1) * 512]
  }

  /** Signature, size, checksum over the header with a zeroed field, and the header's own LBA. */
  function ReadHeader(crc: Crc, disk: seq<byte>, lba: nat): Option<Header>
  {
    if (lba + 1) * 512 > |disk| then None
    else
      var s := Sector(disk, lba);
      if s[..8] != Signature() || GetLe32(s, 12) != 92 then None
      else if crc(Splice(s, 16, Zeros(4))[..92]) != GetLe32(s, 16) || GetLe64(s, 24) != lba then None
      else Some(Header(GetLe64(s, 24), GetLe64(s, 32), GetLe64(s, 40), GetLe64(s, 48), s[56..72], GetLe64(s, 72),
                       GetLe32(s, 88)))
  }

  /** The header at `lba` and the entry array it points to, if both checksums agree. */
  function ReadTable(crc: Crc, disk: seq<byte>, lba: nat): Option<(Header, seq<byte>)>
  {
    var h := ReadHeader(crc, disk, lba);
    if h.None? then None
    else
      var count, size := GetLe32(Sector(disk, lba), 80), GetLe32(Sector(disk, lba), 84);
      var at := h.value.entriesLba * 512;
      if count != ENTRIES || size != ENTRY_SIZE || at + ARRAY_SIZE > |disk| then None
      else
        var table := disk[at..at + ARRAY_SIZE];
        if crc(table) != h.value.entriesCrc then None else Some((h.value, table))
  }

  ghost predicate SectorHolds(s: seq<byte>, h: Header, c: word32)
  {
    && |s| == 512 && s[..8] == Signature() && GetLe32(s, 12) == 92 && GetLe32(s, 16) == c
    && GetLe64(s, 24) == h.current && GetLe64(s, 32) == h.backup && GetLe64(s, 40) == h.first
    && GetLe64(s, 48) == h.last && s[56..72] == h.guid && GetLe64(s, 72) == h.entriesLba
    && GetLe32(s, 80) == 128 && GetLe32(s, 84) == 128 && GetLe32(s, 88) == h.entriesCrc
  }

  lemma {:induction false} SectorFields(s: seq<byte>, h: Header, c: word32)
    requires |s| == 512 && s[..92] == HeaderFields(h, c)
    ensures SectorHolds(s, h, c)
  {
    var f := HeaderFields(h, c);
    hide HeaderFields, HeaderStart, Signature, Lbas4, HeaderEnd, Le32, GetLe64, GetLe32;
    assert s[..16] == f[..16] && s[16..20] == f[16..20] && s[24..56] == f[24..56];
    assert s[56..72] == f[56..72] && s[72..92] == f[72..];
    assert s[..8] == s[..16][..8] && s[0..16] == s[..16];
    SliceLe32(s, 0, 16, 12);
    Le32RoundTrip(s, 16, c);
    SliceLe64(s, 24, 56, 0);
    SliceLe64(s, 24, 56, 8);
    SliceLe64(s, 24, 56, 16);
    SliceLe64(s, 24, 56, 24);
    SliceLe64(s, 72, 92, 0);
    SliceLe32(s, 72, 92, 8);
    SliceLe32(s, 72, 92, 12);
    SliceLe32(s, 72, 92, 16);
  }

  /** A written header passes every check and reads back. */
  lemma {:induction false} HeaderReadsBack(crc: Crc, disk: seq<byte>, h: Header)
    requires (h.current + 1) * 512 <= |disk| && Sector(disk, h.current) == HeaderSector(crc, h)
    ensures ReadHeader(crc, disk, h.current) == Some(h)
    ensures SectorHolds(Sector(disk, h.current), h, crc(HeaderFields(h, 0)))
  {
    var s, c := HeaderSector(crc, h), crc(HeaderFields(h, 0));
    CrcField(h, c, 0);
    assert s[..92] == HeaderFields(h, c);
    assert Le32(0) == Zeros(4);
    assert (HeaderFields(h, 0) + Zeros(420))[..92] == HeaderFields(h, 0);
    hide HeaderFields, HeaderSector, Splice, GetLe64, GetLe32, Signature, Sector;
    SectorFields(s, h, c);
  }

  lemma {:induction false} TableReadsBack(crc: Crc, disk: seq<byte>, h: Header, table: seq<byte>)
    requires (h.current + 1) * 512 <= |disk| && Sector(disk, h.current) == HeaderSector(crc, h)
    requires |table| == ARRAY_SIZE && h.entriesLba * 512 + ARRAY_SIZE <= |disk|
    requires disk[h.entriesLba * 512..h.entriesLba * 512 + ARRAY_SIZE] == table && h.entriesCrc == crc(table)
    ensures ReadTable(crc, disk, h.current) == Some((h, table))
  {
    HeaderReadsBack(crc, disk, h);
    hide ReadHeader, HeaderSector, GetLe64, HeaderFields;
  }
}
