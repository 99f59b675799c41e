/** The byte image: boot sector, FSInfo, both FATs and the node data, and what a reader
    finds in it. */
module FatVolume {
  import opened Bytes
  import opened FatNames
  import opened FatLayout
  import opened Ranges
  import opened Regions
  import opened FatBlocks
  import opened FatReader
  import opened FatDirectoryData

  function BootHead(): (r: seq<byte>)
    ensures |r| == 28
    ensures GetLe16(r, 11) == SECTOR_SIZE && r[13] == 1 && GetLe16(r, 14) == RESERVED_SECTORS && r[16] == 2
  {
    [0xEB, 0x58, 0x90] + Ascii("OSTEST  ") + Le16(512) + [1] + Le16(32) + [2] + Le16(0) + Le16(0) + [0xF8]
    + Le16(0) + Le16(63) + Le16(255)
  }

  function BootTail(total: nat, fat: nat): (r: seq<byte>)
    requires total < 0x1_0000_0000 && fat < 0x1_0000_0000
    ensures |r| == 32
    ensures GetLe32(r, 4) == fat && GetLe32(r, 12) == 2 && GetLe16(r, 18) == 6
  {
    var r := Le32(total) + Le32(fat) + Le16(0) + Le16(0) + Le32(2) + Le16(1) + Le16(6) + Zeros(12);
    assert r[4..8] == Le32(fat) && r[12..16] == Le32(2) && r[18..20] == Le16(6);
    Le32RoundTrip(r, 4, fat);
    Le32RoundTrip(r, 12, 2);
    Le16RoundTrip(r, 18, 6);
    r
  }

  function BootEnd(volume: string, volumeId: nat): (r: seq<byte>)
    requires ValidLabel(volume) && volumeId < 0x1_0000_0000
    ensures |r| == 448
    ensures r[7..18] == LabelBytes(volume) && r[446] == 0x55 && r[447] == 0xAA
  {
    [0x80, 0, 0x29] + Le32(volumeId) + LabelBytes(volume) + Ascii("FAT32   ") + Zeros(420) + [0x55, 0xAA]
  }

  /** `_boot_sector`; the hidden-sector count at offset 28 is left to whoever embeds the image. */
  function BootSector(total: nat, fat: nat, volume: string, volumeId: nat, hidden: nat): (r: seq<byte>)
    requires total < 0x1_0000_0000 && fat < 0x1_0000_0000 && volumeId < 0x1_0000_0000 && hidden < 0x1_0000_0000
    requires ValidLabel(volume)
    ensures |r| == 512
    ensures r[..28] == BootHead() && r[28..32] == Le32(hidden) && r[32..64] == BootTail(total, fat)
    ensures r[64..] == BootEnd(volume, volumeId)
  {
    BootHead() + Le32(hidden) + BootTail(total, fat) + BootEnd(volume, volumeId)
  }

  function FsInfoSector(free: nat, next: nat): (r: seq<byte>)
    requires free < 0x1_0000_0000 && next < 0x1_0000_0000
    ensures |r| == 512
    ensures r[488..492] == Le32(free) && r[492..496] == Le32(next)
  {
    Le32(0x4161_5252) + Zeros(480) + Le32(0x6141_7272) + Le32(free) + Le32(next) + Zeros(12) + Le32(0xAA55_0000)
  }

  // ----- the sequence of writes -----

  function DataStart(fat: nat): nat { (RESERVED_SECTORS + FAT_COUNT * fat) * SECTOR_SIZE }

  function Prologue(fat: nat, boot: seq<byte>, fsinfo: seq<byte>, table: seq<byte>): (rs: seq<Region>)
    ensures |rs| == 6
  {
    [Region(0, boot), Region(512, fsinfo), Region(6 * 512, boot), Region(7 * 512, fsinfo),
     Region(32 * 512, table), Region((32 + fat) * 512, table)]
  }

  lemma {:induction false} PrologueFits(size: nat, fat: nat, boot: seq<byte>, fsinfo: seq<byte>, table: seq<byte>)
    requires |boot| == |fsinfo| == 512 && |table| == fat * 512 && DataStart(fat) <= size
    ensures Fits(size, Prologue(fat, boot, fsinfo, table)) && Disjoint(Prologue(fat, boot, fsinfo, table))
    ensures forall i :: 0 <= i < 6 ==> Prologue(fat, boot, fsinfo, table)[i].End() <= DataStart(fat)
  {
  }

  function VolumeRegions(
      fat: nat, boot: seq<byte>, fsinfo: seq<byte>, table: seq<byte>, sizes: seq<nat>, blocks: seq<seq<byte>>)
    : seq<Region>
    requires |blocks| == |sizes|
  {
    Prologue(fat, boot, fsinfo, table) + NodeRegions(DataStart(fat), sizes, blocks)
  }

  lemma {:induction false} VolumeRegionsFit(
      size: nat, fat: nat, boot: seq<byte>, fsinfo: seq<byte>, table: seq<byte>, sizes: seq<nat>,
      blocks: seq<seq<byte>>)
    requires |boot| == |fsinfo| == 512 && |table| == fat * 512 && BlocksFit(size, DataStart(fat), sizes, blocks)
    ensures Fits(size, VolumeRegions(fat, boot, fsinfo, table, sizes, blocks))
    ensures Disjoint(VolumeRegions(fat, boot, fsinfo, table, sizes, blocks))
  {
    PrologueFits(size, fat, boot, fsinfo, table);
    NodeRegionsFit(size, DataStart(fat), sizes, blocks);
    var a, b := Prologue(fat, boot, fsinfo, table), NodeRegions(DataStart(fat), sizes, blocks);
    forall i, j | 0 <= i < j < |a + b| ensures Apart((a + b)[i], (a + b)[j]) {
      if i < 6 <= j { assert a[i].End() <= DataStart(fat) <= b[j - 6].at; }
      if 6 <= i { assert Apart(b[i - 6], b[j - 6]); }
    }
  }

  /** The image file: zeros of the requested size, then every write in order. */
  function VolumeBytes(
      size: nat, fat: nat, boot: seq<byte>, fsinfo: seq<byte>, table: seq<byte>, sizes: seq<nat>,
      blocks: seq<seq<byte>>)
    : (img: seq<byte>)
    requires |boot| == |fsinfo| == 512 && |table| == fat * 512 && BlocksFit(size, DataStart(fat), sizes, blocks)
    ensures |img| == size
  {
    VolumeRegionsFit(size, fat, boot, fsinfo, table, sizes, blocks);
    WriteAll(Zeros(size), VolumeRegions(fat, boot, fsinfo, table, sizes, blocks))
  }

  lemma {:induction false} VolumeRegionReads(
      size: nat, fat: nat, boot: seq<byte>, fsinfo: seq<byte>, table: seq<byte>, sizes: seq<nat>,
      blocks: seq<seq<byte>>,
      i: nat)
    requires |boot| == |fsinfo| == 512 && |table| == fat * 512 && BlocksFit(size, DataStart(fat), sizes, blocks)
    requires i < 6 + |sizes|
    ensures var r := VolumeRegions(fat, boot, fsinfo, table, sizes, blocks)[i];
            r.End() <= size && VolumeBytes(size, fat, boot, fsinfo, table, sizes, blocks)[r.at..r.End()] == r.data
  {
    VolumeRegionsFit(size, fat, boot, fsinfo, table, sizes, blocks);
    var rs := VolumeRegions(fat, boot, fsinfo, table, sizes, blocks);
    forall j | i < j < |rs| ensures Apart(rs[i], rs[j]) {}
    ReadsBack(Zeros(size), rs, i);
  }

  // ----- what a reader needs -----

  ghost predicate BootsAs(img: seq<byte>, fat: nat)
  {
    && |img| >= 512
    && GetLe16(img, 11) == 512 && img[13] == 1 && GetLe16(img, 14) == 32 && img[16] == 2
    && GetLe32(img, 36) == fat && GetLe32(img, 44) == 2
  }

  ghost predicate HoldsBlock(img: seq<byte>, base: nat, sizes: seq<nat>, blocks: seq<seq<byte>>, i: nat)
  {
    && i < |sizes| == |blocks|
    && |blocks[i]| <= sizes[i] * 512
    && BlockAt(base, sizes, i) + sizes[i] * 512 <= |img|
    && img[BlockAt(base, sizes, i)..BlockAt(base, sizes, i) + |blocks[i]|] == blocks[i]
  }

  ghost predicate HoldsTable(img: seq<byte>, fat: nat, table: seq<byte>)
  {
    (32 + fat) * 512 <= |img| && img[32 * 512..(32 + fat) * 512] == table
  }

  /** Everything the reader looks at; hidden-sector fields and FSInfo are not part of it. */
  ghost predicate Readable(img: seq<byte>, fat: nat, sizes: seq<nat>, blocks: seq<seq<byte>>)
  {
    && |sizes| == |blocks| && FatFits(128 * fat, sizes)
    && BootsAs(img, fat)
    && HoldsTable(img, fat, Pack(FatWords(128 * fat, sizes)))
    && forall i :: 0 <= i < |sizes| ==> HoldsBlock(img, DataStart(fat), sizes, blocks, i)
  }

  ghost function FsOf(img: seq<byte>, fat: nat): Fs { Fs(img, 512, 32 * 512, DataStart(fat), 2) }

  lemma {:induction false} MountReadable(img: seq<byte>, fat: nat)
    requires BootsAs(img, fat)
    ensures Mount(img) == Some(FsOf(img, fat))
  {
  }

  lemma {:induction false} WordAt(img: seq<byte>, at: nat, ws: seq<word>, c: nat)
    requires c < |ws| && at + 4 * |ws| <= |img| && img[at..at + 4 * |ws|] == Pack(ws)
    ensures GetLe32(img, at + 4 * c) == ws[c]
  {
    var table, k := img[at..at + 4 * |ws|], 4 * c;
    PackedEntry(ws, c);
    assert img[at + k] == table[k] && img[at + k + 1] == table[k + 1];
    assert img[at + k + 2] == table[k + 2] && img[at + k + 3] == table[k + 3];
  }

  lemma {:induction false} NextClusterReads(img: seq<byte>, fat: nat, ws: seq<word>, c: nat)
    requires |ws| == 128 * fat && HoldsTable(img, fat, Pack(ws)) && c < |ws|
    ensures NextCluster(FsOf(img, fat), c) == Some(ws[c] % 0x1000_0000)
  {
    WordAt(img, 32 * 512, ws, c);
  }

  lemma {:induction false} FatWordsIsFatAfter(entries: nat, sizes: seq<nat>)
    requires FatFits(entries, sizes)
    ensures FatWords(entries, sizes) == FatAfter(entries, sizes, |sizes|)
  {
  }

  lemma {:induction false} NodeHasLink(img: seq<byte>, fat: nat, sizes: seq<nat>, i: nat, o: nat)
    requires FatFits(128 * fat, sizes) && HoldsTable(img, fat, Pack(FatWords(128 * fat, sizes)))
    requires i < |sizes| && o < sizes[i]
    ensures HasLink(FsOf(img, fat), Start(sizes, i), sizes[i], o)
  {
    hide FatWords, Pack, HoldsTable, FatAfter, Start, NextCluster, FsOf;
    RangeBounds(sizes, i);
    var c := Start(sizes, i) + o;
    FatWordsIsFatAfter(128 * fat, sizes);
    EntryLinked(128 * fat, sizes, |sizes|, i, c);
    NextClusterReads(img, fat, FatWords(128 * fat, sizes), c);
    LinkValue(Start(sizes, i), sizes[i], o);
  }

  lemma {:induction false} LinkValue(first: nat, n: nat, o: nat)
    requires o < n && first + n <= 0x1000_0000 - 8
    ensures Link(first, n, o) % 0x1000_0000 == if o == n - 1 then 0x0FFF_FFFF else first + o + 1
  {
  }

  lemma {:induction false} NodeHasChain(img: seq<byte>, fat: nat, sizes: seq<nat>, i: nat)
    requires FatFits(128 * fat, sizes) && HoldsTable(img, fat, Pack(FatWords(128 * fat, sizes))) && i < |sizes|
    ensures HasChain(FsOf(img, fat), Start(sizes, i), sizes[i])
  {
    var fs, first, n := FsOf(img, fat), Start(sizes, i), sizes[i];
    RangeBounds(sizes, i);
    forall o | 0 <= o < n ensures HasLink(fs, first, n, o) { NodeHasLink(img, fat, sizes, i, o); }
  }

  lemma {:induction false} NodeHasData(img: seq<byte>, fat: nat, sizes: seq<nat>, blocks: seq<seq<byte>>, i: nat)
    requires HoldsBlock(img, DataStart(fat), sizes, blocks, i)
    ensures HasData(FsOf(img, fat), Start(sizes, i), sizes[i])
    ensures ClusterOffset(FsOf(img, fat), Start(sizes, i)) == BlockAt(DataStart(fat), sizes, i)
  {
    StartMonotone(sizes, 0, i);
  }

  /** The chain of every node with clusters is read back as exactly its block, then padding. */
  lemma {:induction false} NodeChainReads(img: seq<byte>, fat: nat, sizes: seq<nat>, blocks: seq<seq<byte>>, i: nat)
    returns (data: seq<byte>)
    requires Readable(img, fat, sizes, blocks) && i < |sizes| && sizes[i] > 0
    ensures Chain(FsOf(img, fat), Start(sizes, i), {}) == Some(data)
    ensures |blocks[i]| <= |data| == sizes[i] * 512 && data[..|blocks[i]|] == blocks[i]
  {
    hide Pack, FatWords, BootsAs, HoldsTable, FatFits, BlockAt, DataStart, Start, Chain;
    assert HoldsBlock(img, DataStart(fat), sizes, blocks, i);
    ChainIsRange(img, fat, sizes, blocks, i);
    data := SlicePrefix(img, BlockAt(DataStart(fat), sizes, i), |blocks[i]|, sizes[i] * 512);
  }

  /** The chain of a node is the range of its clusters. */
  lemma {:induction false} ChainIsRange(img: seq<byte>, fat: nat, sizes: seq<nat>, blocks: seq<seq<byte>>, i: nat)
    requires FatFits(128 * fat, sizes) && HoldsTable(img, fat, Pack(FatWords(128 * fat, sizes)))
    requires i < |sizes| && sizes[i] > 0 && HoldsBlock(img, DataStart(fat), sizes, blocks, i)
    ensures var at := BlockAt(DataStart(fat), sizes, i);
            Chain(FsOf(img, fat), Start(sizes, i), {}) == Some(img[at..at + sizes[i] * 512])
  {
    hide Pack, FatWords, HoldsTable, FatFits, BlockAt, DataStart, Start, Chain, HasChain, HasData, ClusterOffset;
    var at := BlockAt(DataStart(fat), sizes, i);
    NodeHasChain(img, fat, sizes, i);
    NodeHasData(img, fat, sizes, blocks, i);
    ContiguousChain(FsOf(img, fat), Start(sizes, i), sizes[i], at);
  }

  lemma {:induction false} SlicePrefix(s: seq<byte>, at: nat, short: nat, long: nat) returns (data: seq<byte>)
    requires short <= long && at + long <= |s|
    ensures data == s[at..at + long] && data[..short] == s[at..at + short]
  {
    data := s[at..at + long];
  }

  /** The written image is readable. */
  lemma {:induction false} VolumeReadable(
      total: nat, fat: nat, boot: seq<byte>, fsinfo: seq<byte>, sizes: seq<nat>, blocks: seq<seq<byte>>)
    requires |boot| == |fsinfo| == 512 && BootsAs(boot, fat) && FatFits(128 * fat, sizes)
    requires BlocksFit(total, DataStart(fat), sizes, blocks)
    ensures var table := Pack(FatWords(128 * fat, sizes));
            Readable(VolumeBytes(total, fat, boot, fsinfo, table, sizes, blocks), fat, sizes, blocks)
  {
    var table := Pack(FatWords(128 * fat, sizes));
    var img := VolumeBytes(total, fat, boot, fsinfo, table, sizes, blocks);
    VolumeHeads(total, fat, boot, fsinfo, table, sizes, blocks);
    PrologueParts(img, fat, boot, fsinfo, table);
    BootsAlike(img, boot, fat);
    hide HoldsBlock, HoldsTable, BootsAs, VolumeBytes, Pack, FatWords;
    forall i | 0 <= i < |sizes| ensures HoldsBlock(img, DataStart(fat), sizes, blocks, i) {
      VolumeBlock(total, fat, boot, fsinfo, table, sizes, blocks, i);
    }
  }

  lemma {:induction false} PrologueReads(
      total: nat, fat: nat, boot: seq<byte>, fsinfo: seq<byte>, table: seq<byte>, sizes: seq<nat>,
      blocks: seq<seq<byte>>,
      i: nat)
    requires |boot| == |fsinfo| == 512 && |table| == 512 * fat && BlocksFit(total, DataStart(fat), sizes, blocks)
    requires i < 6
    ensures HoldsRegion(VolumeBytes(total, fat, boot, fsinfo, table, sizes, blocks),
                        Prologue(fat, boot, fsinfo, table)[i])
  {
    hide VolumeBytes;
    VolumeRegionReads(total, fat, boot, fsinfo, table, sizes, blocks, i);
  }

  lemma {:induction false} VolumeHeads(
      total: nat, fat: nat, boot: seq<byte>, fsinfo: seq<byte>, table: seq<byte>, sizes: seq<nat>,
      blocks: seq<seq<byte>>)
    requires |boot| == |fsinfo| == 512 && |table| == 512 * fat && BlocksFit(total, DataStart(fat), sizes, blocks)
    ensures HoldsPrologue(VolumeBytes(total, fat, boot, fsinfo, table, sizes, blocks), fat, boot, fsinfo, table)
  {
    hide VolumeBytes, VolumeRegions, Prologue, BlocksFit;
    forall i | 0 <= i < 6
      ensures HoldsRegion(VolumeBytes(total, fat, boot, fsinfo, table, sizes, blocks),
                          Prologue(fat, boot, fsinfo, table)[i])
    {
      PrologueReads(total, fat, boot, fsinfo, table, sizes, blocks, i);
    }
  }

  /** Both boot sectors, both FSInfo sectors and both FATs are in place. */
  ghost predicate HoldsPrologue(img: seq<byte>, fat: nat, boot: seq<byte>, fsinfo: seq<byte>, table: seq<byte>)
  {
    forall i :: 0 <= i < 6 ==> HoldsRegion(img, Prologue(fat, boot, fsinfo, table)[i])
  }

  lemma {:induction false} PrologueParts(img: seq<byte>, fat: nat, boot: seq<byte>, fsinfo: seq<byte>, table: seq<byte>)
    requires HoldsPrologue(img, fat, boot, fsinfo, table) && |boot| == |fsinfo| == 512 && |table| == 512 * fat
    ensures HoldsRegion(img, Region(0, boot)) && HoldsRegion(img, Region(6 * 512, boot))
    ensures HoldsRegion(img, Region(512, fsinfo)) && HoldsRegion(img, Region(7 * 512, fsinfo))
    ensures HoldsTable(img, fat, table) && HoldsRegion(img, Region((32 + fat) * 512, table))
  {
    var rs := Prologue(fat, boot, fsinfo, table);
    hide HoldsRegion;
    assert HoldsRegion(img, rs[0]) && HoldsRegion(img, rs[1]) && HoldsRegion(img, rs[2]) && HoldsRegion(img, rs[3]);
    assert HoldsRegion(img, rs[4]) && HoldsRegion(img, rs[5]);
    TableRegion(img, fat, table);
  }

  lemma {:induction false} TableRegion(img: seq<byte>, fat: nat, table: seq<byte>)
    requires HoldsRegion(img, Region(32 * 512, table)) && |table| == 512 * fat
    ensures HoldsTable(img, fat, table)
  {
    assert Region(32 * 512, table).End() == (32 + fat) * 512;
  }

  lemma {:induction false} VolumeBlock(
      total: nat, fat: nat, boot: seq<byte>, fsinfo: seq<byte>, table: seq<byte>, sizes: seq<nat>,
      blocks: seq<seq<byte>>,
      i: nat)
    requires |boot| == |fsinfo| == 512 && |table| == 512 * fat && BlocksFit(total, DataStart(fat), sizes, blocks)
    requires i < |sizes|
    ensures HoldsBlock(VolumeBytes(total, fat, boot, fsinfo, table, sizes, blocks), DataStart(fat), sizes, blocks, i)
  {
    hide VolumeBytes, DataStart;
    VolumeRegionReads(total, fat, boot, fsinfo, table, sizes, blocks, 6 + i);
    BlockBounds(total, DataStart(fat), sizes, blocks, i);
  }

  lemma {:induction false} BootsAlike(img: seq<byte>, boot: seq<byte>, fat: nat)
    requires |boot| == 512 <= |img| && img[0..512] == boot && BootsAs(boot, fat)
    ensures BootsAs(img, fat)
  {
    assert forall k :: 0 <= k < 512 ==> img[k] == img[0..512][k];
  }

  /** The fields a reader mounts by, whatever the hidden-sector count. */
  lemma {:induction false} BootFields(boot: seq<byte>, total: nat, fat: nat, volume: string, volumeId: nat, hidden: nat)
    requires total < 0x1_0000_0000 && fat < 0x1_0000_0000 && volumeId < 0x1_0000_0000 && hidden < 0x1_0000_0000
    requires ValidLabel(volume) && boot == BootSector(total, fat, volume, volumeId, hidden)
    ensures BootsAs(boot, fat)
    ensures GetLe16(boot, 50) == 6 && boot[510] == 0x55 && boot[511] == 0xAA && GetLe32(boot, 28) == hidden
  {
    var head, tail, end := boot[..28], boot[32..64], boot[64..];
    assert forall k :: 0 <= k < 28 ==> boot[k] == head[k];
    assert forall k :: 0 <= k < 32 ==> boot[32 + k] == tail[k];
    assert boot[510] == end[446] && boot[511] == end[447];
    Le32RoundTrip(boot, 28, hidden);
  }
}
