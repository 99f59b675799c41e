/** Directory entries: `_short_entry`, `_lfn_checksum`, `_lfn_entries`, `_directory_data`,
    and the reader's `directory` that undoes them. */
module FatDirectory {
  import opened Bytes
  import opened Text
  import opened FatNames

  type Record = r: seq<byte> | |r| == 32 witness Repeat<byte>(0, 32)

  const ATTR_VOLUME: byte := 0x08
  const ATTR_DIRECTORY: byte := 0x10
  const ATTR_ARCHIVE: byte := 0x20
  const ATTR_LFN: byte := 0x0F

  // ----- writing -----

  /** `_fat_date()`: 1980-01-01. */
  const FAT_DATE: seq<byte> := Le16(33)

  function ShortEntry(raw: Alias, attr: byte, first: nat, size: nat): (r: Record)
    requires first < 0x1_0000_0000 && size < 0x1_0000_0000
    ensures r[..11] == raw && r[11] == attr
    ensures GetLe16(r, 20) == first / 0x1_0000 && GetLe16(r, 26) == first % 0x1_0000
    ensures GetLe32(r, 28) == size
  {
    var r := raw + [attr] + [0, 0, 0, 0] + FAT_DATE + FAT_DATE + Le16(first / 0x1_0000)
             + [0, 0] + FAT_DATE + Le16(first % 0x1_0000) + Le32(size);
    assert r[..11] == raw;
    assert r[20..22] == Le16(first / 0x1_0000) && r[26..28] == Le16(first % 0x1_0000) && r[28..32] == Le32(size);
    Le16RoundTrip(r, 20, first / 0x1_0000);
    Le16RoundTrip(r, 26, first % 0x1_0000);
    Le32RoundTrip(r, 28, size);
    r
  }

  /** The checksum's rotate-right-and-add step, on 8 bits. */
  function ChecksumStep(checksum: byte, value: byte): byte
  {
    (checksum % 2 * 128 + checksum / 2 + value as int) % 256
  }

  function Checksum(raw: seq<byte>): byte
  {
    if raw == [] then 0 else ChecksumStep(Checksum(raw[..|raw| - 1]), raw[|raw| - 1])
  }

  method LfnChecksum(raw: seq<byte>) returns (checksum: byte)
    ensures checksum == Checksum(raw)
  {
    checksum := 0;
    for i := 0 to |raw|
      invariant checksum == Checksum(raw[..i])
    {
      assert raw[..i + 1][..i] == raw[..i];
      checksum := ChecksumStep(checksum, raw[i]);
    }
    assert raw[..|raw|] == raw;
  }

  /** The name's units, a terminator, and padding to whole entries. */
  function PaddedUnits(name: string): (us: seq<unit>)
    ensures |us| == 13 * CeilDiv(|EncodeUtf16(name)| + 1, 13)
    ensures EncodeUtf16(name) + [0] <= us
  {
    var us := EncodeUtf16(name) + [0];
    var n := CeilDiv(|us|, 13);
    us + Repeat(0xFFFF, n * 13 - |us|)
  }

  function LfnOrdinal(k: nat, n: nat): (b: byte)
    requires 1 <= k <= n <= 20
    ensures b % 32 == k && 1 <= b <= 84
    ensures b == k + 64 <==> k == n
  {
    if k == n then k + 64 else k
  }

  function LfnEntry(ordinal: byte, checksum: byte, chunk: seq<unit>): (r: Record)
    requires |chunk| == 13
    ensures r[0] == ordinal && r[11] == ATTR_LFN && r[13] == checksum
    ensures r[1..11] == PackUnits(chunk[..5]) && r[14..26] == PackUnits(chunk[5..11])
    ensures r[28..32] == PackUnits(chunk[11..])
  {
    [ordinal] + PackUnits(chunk[..5]) + [ATTR_LFN, 0, checksum] + PackUnits(chunk[5..11]) + [0, 0]
    + PackUnits(chunk[11..])
  }

  lemma {:induction false} LfnUnitsReadBack(r: Record, chunk: seq<unit>)
    requires |chunk| == 13
    requires r[1..11] == PackUnits(chunk[..5]) && r[14..26] == PackUnits(chunk[5..11])
    requires r[28..32] == PackUnits(chunk[11..])
    ensures LfnUnits(r) == chunk
  {
    UnitsAt(r, 1, chunk[..5]);
    UnitsAt(r, 14, chunk[5..11]);
    UnitsAt(r, 28, chunk[11..]);
    var us := LfnUnits(r);
    assert forall i :: 0 <= i < 5 ==> us[i] == chunk[..5][i];
    assert forall i :: 5 <= i < 11 ==> us[i] == chunk[5..11][i - 5];
    assert forall i :: 11 <= i < 13 ==> us[i] == chunk[11..][i - 11];
  }

  function Chunk(us: seq<unit>, k: nat): (c: seq<unit>)
    requires 1 <= k && 13 * k <= |us|
    ensures |c| == 13
  {
    us[13 * (k - 1)..13 * k]
  }

  function LfnEntryFor(us: seq<unit>, n: nat, checksum: byte, k: nat): Record
    requires |us| == 13 * n && 1 <= k <= n <= 20
  {
    LfnEntry(LfnOrdinal(k, n), checksum, Chunk(us, k))
  }

  /** Entries `k`, `k - 1`, ..., 1 of a name with `n` entries. */
  function LfnEntriesFrom(us: seq<unit>, n: nat, checksum: byte, k: nat): (rs: seq<Record>)
    requires |us| == 13 * n && k <= n <= 20
    ensures |rs| == k
  {
    if k == 0 then [] else [LfnEntryFor(us, n, checksum, k)] + LfnEntriesFrom(us, n, checksum, k - 1)
  }

  function LfnCount(name: string): (n: nat)
    requires |EncodeUtf16(name)| <= 255
    ensures 1 <= n <= 20 && |PaddedUnits(name)| == 13 * n
  {
    CeilDiv(|EncodeUtf16(name)| + 1, 13)
  }

  function LfnEntries(name: string, raw: Alias): seq<Record>
    requires |EncodeUtf16(name)| <= 255
  {
    LfnEntriesFrom(PaddedUnits(name), LfnCount(name), Checksum(raw), LfnCount(name))
  }

  method DescendLfnEntries(us: seq<unit>, n: nat, checksum: byte) returns (rs: seq<Record>)
    requires |us| == 13 * n && n <= 20
    ensures rs == LfnEntriesFrom(us, n, checksum, n)
  {
    hide LfnEntryFor;
    rs := [];
    for k := n downto 0
      invariant rs + LfnEntriesFrom(us, n, checksum, k) == LfnEntriesFrom(us, n, checksum, n)
    {
      ghost var rest := LfnEntriesFrom(us, n, checksum, k);
      var r := LfnEntryFor(us, n, checksum, k + 1);
      assert LfnEntriesFrom(us, n, checksum, k + 1) == [r] + rest;
      hide LfnEntriesFrom;
      assert rs + ([r] + rest) == rs + [r] + rest;
      rs := rs + [r];
    }
  }

  method MakeLfnEntries(name: string, raw: Alias) returns (rs: seq<Record>)
    requires |EncodeUtf16(name)| <= 255
    ensures rs == LfnEntries(name, raw)
  {
    var checksum := LfnChecksum(raw);
    rs := DescendLfnEntries(PaddedUnits(name), LfnCount(name), checksum);
  }

  /** The fields of a child node that its directory entries record. */
  datatype Child = Child(name: string, raw: Alias, lfn: bool, attr: byte, first: nat, size: nat)

  ghost predicate ValidChild(c: Child)
  {
    && c.name != "" && c.name != "." && c.name != ".."
    && (forall x :: x in c.name ==> x as int != 0) && |EncodeUtf16(c.name)| <= 255
    && (forall b :: b in c.raw ==> 32 <= b < 127) && c.raw[0] != 32
    && c.attr in {ATTR_DIRECTORY, ATTR_ARCHIVE}
    && c.first < 0x1_0000_0000 && c.size < 0x1_0000_0000
    && (!c.lfn ==> c.name == DisplayName(c.raw))
  }

  predicate PackableChild(c: Child)
  {
    |EncodeUtf16(c.name)| <= 255 && c.first < 0x1_0000_0000 && c.size < 0x1_0000_0000
  }

  function ChildRecords(c: Child): seq<Record>
    requires PackableChild(c)
  {
    (if c.lfn then LfnEntries(c.name, c.raw) else []) + [ShortEntry(c.raw, c.attr, c.first, c.size)]
  }

  // ----- reading -----

  datatype Info = Info(attr: byte, cluster: nat, size: nat)

  /** The loop state of `directory`: pending long-name parts and the entries found so far. */
  datatype Scan = Scan(parts: map<int, seq<unit>>, result: map<string, Info>)

  function LfnUnits(r: Record): (us: seq<unit>)
    ensures |us| == 13
  {
    seq(13, i requires 0 <= i < 13 =>
      GetLe16(r, if i < 5 then 1 + 2 * i else if i < 11 then 14 + 2 * (i - 5) else 28 + 2 * (i - 11)))
  }

  /** The parts in ascending order; ordinals are masked to 5 bits. */
  function JoinParts(parts: map<int, seq<unit>>, k: nat): seq<unit>
    requires k <= 32
    decreases 32 - k
  {
    if k == 32 then [] else (if k in parts then parts[k] else []) + JoinParts(parts, k + 1)
  }

  function BeforeZero(us: seq<unit>): seq<unit>
  {
    if us == [] || us[0] == 0 then [] else [us[0]] + BeforeZero(us[1..])
  }

  function WithoutFill(us: seq<unit>): seq<unit>
  {
    if us == [] then [] else (if us[0] == 0xFFFF then [] else [us[0]]) + WithoutFill(us[1..])
  }

  function LongName(parts: map<int, seq<unit>>): Option<string>
  {
    var us := JoinParts(parts, 0);
    DecodeUtf16(if 0 in us then BeforeZero(us) else WithoutFill(us))
  }

  /** `decode("ascii")` raises on a byte above 127. */
  function ShortName(raw: Alias): Option<string>
  {
    if exists b :: b in raw && b >= 128 then None else Some(DisplayName(raw))
  }

  function EntryName(parts: map<int, seq<unit>>, raw: Alias): Option<string>
  {
    if parts != map[] then LongName(parts) else ShortName(raw)
  }

  function EntryInfo(r: Record): Info
  {
    Info(r[11], GetLe16(r, 20) * 0x1_0000 + GetLe16(r, 26), GetLe32(r, 28))
  }

  /** One round of the loop for an entry that does not end the directory; `None` is an exception. */
  function Step(s: Scan, r: Record): Option<Scan>
  {
    if r[0] == 0xE5 then Some(s.(parts := map[]))
    else if r[11] == ATTR_LFN then Some(s.(parts := s.parts[r[0] % 32 := LfnUnits(r)]))
    else if r[11] / 8 % 2 == 1 then Some(s.(parts := map[]))
    else
      var name := EntryName(s.parts, r[..11]);
      if name.None? then None else Some(Scan(map[], s.result[name.value := EntryInfo(r)]))
  }

  function Run(rs: seq<Record>, s: Scan): Option<Scan>
  {
    if rs == [] || rs[0][0] == 0 then Some(s)
    else
      var next := Step(s, rs[0]);
      if next.None? then None else Run(rs[1..], next.value)
  }

  // ----- one child round-trips -----

  lemma {:induction false} BeforeZeroReadsBack(us: seq<unit>, tail: seq<unit>)
    requires 0 !in us
    ensures BeforeZero(us + [0] + tail) == us
  {
    if us != [] {
      assert us[0] in us && forall x :: x in us[1..] ==> x in us;
      BeforeZeroReadsBack(us[1..], tail);
      assert (us + [0] + tail)[1..] == us[1..] + [0] + tail;
    }
  }

  /** The parts left once entries `n` down to `k + 1` have been read. */
  function PartsAbove(us: seq<unit>, n: nat, k: nat): map<int, seq<unit>>
    requires |us| == 13 * n
  {
    map i | k < i <= n :: Chunk(us, i)
  }

  lemma {:induction false} StepLfn(us: seq<unit>, n: nat, checksum: byte, k: nat, result: map<string, Info>)
    requires |us| == 13 * n && 1 <= k <= n <= 20
    ensures var r := LfnEntryFor(us, n, checksum, k);
            r[0] != 0 && Step(Scan(PartsAbove(us, n, k), result), r) == Some(Scan(PartsAbove(us, n, k - 1), result))
  {
    var r := LfnEntryFor(us, n, checksum, k);
    LfnUnitsReadBack(r, Chunk(us, k));
    assert PartsAbove(us, n, k)[k as int := Chunk(us, k)] == PartsAbove(us, n, k - 1);
  }

  lemma {:induction false} RunOne(r: Record, rest: seq<Record>, s: Scan, s': Scan)
    requires r[0] != 0 && Step(s, r) == Some(s')
    ensures Run([r] + rest, s) == Run(rest, s')
  {
    assert ([r] + rest)[1..] == rest;
  }

  lemma {:induction false} RunLfnEntries(
      us: seq<unit>, n: nat, checksum: byte, k: nat, result: map<string, Info>, rest: seq<Record>)
    requires |us| == 13 * n && k <= n <= 20
    ensures Run(LfnEntriesFrom(us, n, checksum, k) + rest, Scan(PartsAbove(us, n, k), result)) ==
            Run(rest, Scan(PartsAbove(us, n, 0), result))
  {
    if k == 0 {
      assert LfnEntriesFrom(us, n, checksum, 0) + rest == rest;
    } else {
      var r, more := LfnEntryFor(us, n, checksum, k), LfnEntriesFrom(us, n, checksum, k - 1) + rest;
      assert LfnEntriesFrom(us, n, checksum, k) + rest == [r] + more;
      hide Run, Step, LfnEntryFor, LfnEntriesFrom, PartsAbove;
      StepLfn(us, n, checksum, k, result);
      RunOne(r, more, Scan(PartsAbove(us, n, k), result), Scan(PartsAbove(us, n, k - 1), result));
      RunLfnEntries(us, n, checksum, k - 1, result, rest);
    }
  }

  lemma {:induction false} JoinReadsBack(us: seq<unit>, n: nat, k: nat)
    requires |us| == 13 * n && n <= 20 && 1 <= k <= 32
    ensures JoinParts(PartsAbove(us, n, 0), k) == if k - 1 <= n then us[13 * (k - 1)..] else []
    decreases 32 - k
  {
    if k < 32 {
      JoinReadsBack(us, n, k + 1);
      if k <= n {
        assert us[13 * (k - 1)..] == Chunk(us, k) + us[13 * k..];
      }
    }
  }

  lemma {:induction false} LongNameReadsBack(name: string)
    requires name != "" && |EncodeUtf16(name)| <= 255 && forall x :: x in name ==> x as int != 0
    ensures PartsAbove(PaddedUnits(name), LfnCount(name), 0) != map[]
    ensures LongName(PartsAbove(PaddedUnits(name), LfnCount(name), 0)) == Some(name)
  {
    var us, encoded, n := PaddedUnits(name), EncodeUtf16(name), LfnCount(name);
    hide EncodeUtf16, DecodeUtf16, PaddedUnits, JoinParts, PartsAbove, BeforeZero, WithoutFill;
    JoinAll(us, n);
    var tail := Terminated(encoded, us);
    BeforeZeroReadsBack(encoded, tail);
    Utf16RoundTrip(name);
  }

  lemma {:induction false} JoinAll(us: seq<unit>, n: nat)
    requires |us| == 13 * n && 1 <= n <= 20
    ensures PartsAbove(us, n, 0) != map[] && JoinParts(PartsAbove(us, n, 0), 0) == us
  {
    var parts := PartsAbove(us, n, 0);
    assert 1 in parts && 0 !in parts;
    hide PartsAbove, JoinParts;
    JoinReadsBack(us, n, 1);
    JoinFirst(parts);
    assert us[13 * 0..] == us;
  }

  lemma {:induction false} JoinFirst(parts: map<int, seq<unit>>)
    requires 0 !in parts
    ensures JoinParts(parts, 0) == JoinParts(parts, 1)
  {
    assert [] + JoinParts(parts, 1) == JoinParts(parts, 1);
  }

  lemma {:induction false} Terminated(encoded: seq<unit>, us: seq<unit>) returns (tail: seq<unit>)
    requires encoded + [0] <= us
    ensures us == encoded + [0] + tail && 0 in us
  {
    tail := us[|encoded| + 1..];
    assert us[..|encoded| + 1] == encoded + [0] && us[|encoded|] == 0;
  }

  function InfoOf(c: Child): Info { Info(c.attr, c.first, c.size) }

  /** What a child's short entry must hold, however its bytes are laid out. */
  ghost predicate RecordsChild(r: Record, c: Child)
  {
    && r[..11] == c.raw && r[11] == c.attr && GetLe32(r, 28) == c.size
    && GetLe16(r, 20) == c.first / 0x1_0000 && GetLe16(r, 26) == c.first % 0x1_0000
  }

  lemma {:induction false} ShortEntryRecords(c: Child)
    requires c.first < 0x1_0000_0000 && c.size < 0x1_0000_0000
    ensures RecordsChild(ShortEntry(c.raw, c.attr, c.first, c.size), c)
  {
  }

  lemma {:induction false} RunShort(c: Child, s: Scan, r: Record, rest: seq<Record>)
    requires RecordsChild(r, c) && 32 < c.raw[0] < 127 && c.attr in {ATTR_DIRECTORY, ATTR_ARCHIVE}
    requires EntryName(s.parts, c.raw) == Some(c.name)
    ensures Run([r] + rest, s) == Run(rest, Scan(map[], s.result[c.name := InfoOf(c)]))
  {
    assert r[0] == c.raw[0];
    assert EntryInfo(r) == InfoOf(c);
    RunOne(r, rest, s, Scan(map[], s.result[c.name := InfoOf(c)]));
  }

  lemma {:induction false} RunLong(c: Child, r: Record, result: map<string, Info>, rest: seq<Record>)
    requires ValidChild(c) && RecordsChild(r, c) && 32 < c.raw[0] < 127
    ensures Run(LfnEntries(c.name, c.raw) + ([r] + rest), Scan(map[], result)) ==
            Run(rest, Scan(map[], result[c.name := InfoOf(c)]))
  {
    var us, n := PaddedUnits(c.name), LfnCount(c.name);
    LongNameReadsBack(c.name);
    assert PartsAbove(us, n, n) == map[];
    RunLfnEntries(us, n, Checksum(c.raw), n, result, [r] + rest);
    RunShort(c, Scan(PartsAbove(us, n, 0), result), r, rest);
  }

  lemma {:induction false} ChildThenRest(c: Child, rest: seq<Record>)
    requires PackableChild(c)
    ensures var r := ShortEntry(c.raw, c.attr, c.first, c.size);
            ChildRecords(c) + rest == if c.lfn then LfnEntries(c.name, c.raw) + ([r] + rest) else [r] + rest
  {
  }

  /** Whatever follows, reading a child's records adds exactly that child. */
  lemma {:induction false} ChildRoundTrip(c: Child, result: map<string, Info>, rest: seq<Record>)
    requires ValidChild(c)
    ensures Run(ChildRecords(c) + rest, Scan(map[], result)) ==
            Run(rest, Scan(map[], result[c.name := InfoOf(c)]))
  {
    var r := ShortEntry(c.raw, c.attr, c.first, c.size);
    ShortEntryRecords(c);
    ChildThenRest(c, rest);
    assert c.raw[0] in c.raw;
    if c.lfn {
      RunLong(c, r, result, rest);
    } else {
      RunShort(c, Scan(map[], result), r, rest);
    }
  }

  /** A long-name run counts down from `n | 0x40` to 1 and carries the checksum of its alias. */
  lemma {:induction false} LfnRunShape(us: seq<unit>, n: nat, checksum: byte, k: nat, i: nat)
    requires |us| == 13 * n && i < k <= n <= 20
    ensures var r := LfnEntriesFrom(us, n, checksum, k)[i];
            && r[0] == LfnOrdinal(k - i, n) && r[11] == ATTR_LFN && r[13] == checksum
            && LfnUnits(r) == Chunk(us, k - i)
  {
    hide PackUnits, LfnUnits;
    if i == 0 {
      LfnUnitsReadBack(LfnEntryFor(us, n, checksum, k), Chunk(us, k));
    } else {
      LfnRunShape(us, n, checksum, k - 1, i - 1);
    }
  }
}
