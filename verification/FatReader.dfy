/** The black-box reader of tests/image_layout_test.py: class `Fat32`.  `None` stands for
    any exception it raises. */
module FatReader {
  import opened Bytes
  import opened Text
  import opened FatDirectory
  import opened FatDirectoryData

  const CHAIN_END := 0x0FFF_FFF8

  /** The fields `__init__` computes from the boot sector. */
  datatype Fs = Fs(data: seq<byte>, clusterSize: nat, fatOffset: nat, dataOffset: nat, rootCluster: nat)

  function Times(a: nat, b: nat): nat { a * b }

  function Mount(data: seq<byte>): Option<Fs>
  {
    if |data| < 48 then None
    else
      var bytesPerSector, reserved := GetLe16(data, 11), GetLe16(data, 14);
      Some(Fs(data, Times(bytesPerSector, data[13]), Times(reserved, bytesPerSector),
              Times(reserved + Times(data[16], GetLe32(data, 36)), bytesPerSector), GetLe32(data, 44)))
  }

  function ClusterOffset(fs: Fs, c: nat): nat
    requires c >= 2
  {
    fs.dataOffset + (c - 2) * fs.clusterSize
  }

  function Cluster(fs: Fs, c: nat): seq<byte>
    requires c >= 2
  {
    Slice(fs.data, ClusterOffset(fs, c), ClusterOffset(fs, c) + fs.clusterSize)
  }

  predicate InChain(c: nat) { 2 <= c < CHAIN_END }

  /** The next link; `unpack_from` raises outside the image. */
  function NextCluster(fs: Fs, c: nat): Option<nat>
  {
    var at := fs.fatOffset + c * 4;
    if at + 4 > |fs.data| then None else Some(GetLe32(fs.data, at) % 0x1000_0000)
  }

  ghost function Unseen(seen: set<nat>): set<nat> { (set c: nat | c < CHAIN_END && InChain(c)) - seen }

  function Prepend(head: seq<byte>, rest: Option<seq<byte>>): Option<seq<byte>>
  {
    if rest.None? then None else Some(head + rest.value)
  }

  lemma {:induction false} PrependTwice(a: seq<byte>, b: seq<byte>, rest: Option<seq<byte>>)
    ensures Prepend(a, Prepend(b, rest)) == Prepend(a + b, rest)
    ensures Prepend([], rest) == rest && Prepend(a, Some([])) == Some(a)
  {
    assert rest.Some? ==> a + (b + rest.value) == (a + b) + rest.value && [] + rest.value == rest.value;
    assert a + [] == a;
  }

  function Chain(fs: Fs, c: nat, seen: set<nat>): Option<seq<byte>>
    decreases Unseen(seen)
  {
    if !InChain(c) then Some([])
    else if c in seen then None
    else
      assert c in Unseen(seen);
      var next := NextCluster(fs, c);
      if next.None? then None
      else
        Prepend(Cluster(fs, c), Chain(fs, next.value, seen + {c}))
  }

  method ReadChain(fs: Fs, first: nat) returns (r: Option<seq<byte>>)
    ensures r == Chain(fs, first, {})
  {
    var chunks: seq<byte> := [];
    var cluster := first;
    var seen: set<nat> := {};
    PrependTwice([], [], Chain(fs, first, {}));
    while InChain(cluster)
      invariant Chain(fs, first, {}) == Prepend(chunks, Chain(fs, cluster, seen))
      decreases Unseen(seen)
    {
      if cluster in seen { return None; }
      assert cluster in Unseen(seen);
      seen := seen + {cluster};
      var next := NextCluster(fs, cluster);
      if next.None? { return None; }
      PrependTwice(chunks, Cluster(fs, cluster), Chain(fs, next.value, seen));
      chunks := chunks + Cluster(fs, cluster);
      cluster := next.value;
    }
    PrependTwice(chunks, [], None);
    return Some(chunks);
  }

  function Directory(fs: Fs, first: nat): Option<map<string, Info>>
  {
    var data := Chain(fs, first, {});
    if data.None? then None else ScanBytes(data.value, 0, Scan(map[], map[]))
  }

  predicate IsDirectory(attr: byte) { attr / 16 % 2 == 1 }

  function Lookup(fs: Fs, cluster: nat, name: string): Option<Info>
  {
    var entries := Directory(fs, cluster);
    if entries.None? || name !in entries.value then None else Some(entries.value[name])
  }

  function ReadFile(fs: Fs, info: Info): Option<seq<byte>>
  {
    if info.size == 0 then Some([])
    else
      var data := Chain(fs, info.cluster, {});
      if data.None? then None else Some(Slice(data.value, 0, info.size))
  }

  function ReadFrom(fs: Fs, cluster: nat, components: seq<string>): Option<seq<byte>>
    requires components != []
    decreases |components|
  {
    var found := Lookup(fs, cluster, components[0]);
    if found.None? then None
    else if |components| == 1 then
      if IsDirectory(found.value.attr) then None else ReadFile(fs, found.value)
    else
      if !IsDirectory(found.value.attr) then None else ReadFrom(fs, found.value.cluster, components[1..])
  }

  function ReadPath(fs: Fs, path: string): Option<seq<byte>>
  {
    ReadFrom(fs, fs.rootCluster, Split(path))
  }

  method ReadDirectory(fs: Fs, first: nat) returns (r: Option<map<string, Info>>)
    ensures r == Directory(fs, first)
  {
    var data := ReadChain(fs, first);
    if data.None? { return None; }
    r := ScanDirectory(data.value);
  }

  method ReadStored(fs: Fs, path: string) returns (r: Option<seq<byte>>)
    ensures r == ReadPath(fs, path)
  {
    var components := Split(path);
    var cluster := fs.rootCluster;
    for i := 0 to |components| - 1
      invariant ReadPath(fs, path) == ReadFrom(fs, cluster, components[i..])
    {
      var entries := ReadDirectory(fs, cluster);
      if entries.None? || components[i] !in entries.value { return None; }
      var found := entries.value[components[i]];
      if !IsDirectory(found.attr) { return None; }
      cluster := found.cluster;
      assert components[i..][1..] == components[i + 1..];
    }
    var entries := ReadDirectory(fs, cluster);
    var name := components[|components| - 1];
    if entries.None? || name !in entries.value { return None; }
    var found := entries.value[name];
    if IsDirectory(found.attr) { return None; }
    if found.size == 0 { return Some([]); }
    var data := ReadChain(fs, found.cluster);
    return if data.None? then None else Some(Slice(data.value, 0, found.size));
  }

  // ----- contiguous chains read back -----

  /** The FAT links `first`, `first + 1`, ..., `first + n - 1` and ends there. */
  ghost predicate HasChain(fs: Fs, first: nat, n: nat)
  {
    && 2 <= first && first + n <= CHAIN_END
    && forall i :: 0 <= i < n ==> HasLink(fs, first, n, i)
  }

  ghost predicate HasLink(fs: Fs, first: nat, n: nat, i: nat)
  {
    NextCluster(fs, first + i) == Some(if i == n - 1 then 0x0FFF_FFFF else first + i + 1)
  }

  ghost predicate HasData(fs: Fs, first: nat, n: nat)
  {
    first >= 2 && fs.clusterSize == 512 && ClusterOffset(fs, first) + n * 512 <= |fs.data|
  }

  lemma {:induction false} SplitSlice(s: seq<byte>, a: nat, b: nat, c: nat)
    requires a <= b <= c <= |s|
    ensures s[a..b] + s[b..c] == s[a..c]
  {
  }

  function Offset(base: nat, i: nat): nat { base + i * 512 }

  lemma {:induction false} ClusterAt(fs: Fs, first: nat, n: nat, base: nat, i: nat)
    requires HasData(fs, first, n) && base == ClusterOffset(fs, first) && i < n
    ensures Cluster(fs, first + i) == fs.data[Offset(base, i)..Offset(base, i + 1)]
  {
    assert ClusterOffset(fs, first + i) == Offset(base, i);
  }

  lemma {:induction false} ChainStep(fs: Fs, first: nat, n: nat, i: nat, seen: set<nat>)
    requires HasChain(fs, first, n) && i < n && first + i !in seen
    ensures i < n - 1 ==>
              Chain(fs, first + i, seen) ==
              Prepend(Cluster(fs, first + i), Chain(fs, first + i + 1, seen + {first + i}))
    ensures i == n - 1 ==> Chain(fs, first + i, seen) == Some(Cluster(fs, first + i))
  {
    assert HasLink(fs, first, n, i);
    PrependTwice(Cluster(fs, first + i), [], None);
  }

  lemma {:induction false} OffsetsInside(fs: Fs, first: nat, n: nat, base: nat, i: nat)
    requires HasData(fs, first, n) && base == ClusterOffset(fs, first) && i < n
    ensures Offset(base, i) <= Offset(base, i + 1) <= Offset(base, n) <= |fs.data|
  {
  }

  lemma {:induction false} ChainReads(fs: Fs, first: nat, n: nat, base: nat, i: nat, seen: set<nat>)
    requires HasChain(fs, first, n) && HasData(fs, first, n) && base == ClusterOffset(fs, first) && i < n
    requires forall c :: c in seen ==> c < first + i
    ensures Offset(base, i) <= Offset(base, n) <= |fs.data|
    ensures Chain(fs, first + i, seen) == Some(fs.data[Offset(base, i)..Offset(base, n)])
    decreases n - i
  {
    hide Chain, Cluster, HasChain, HasData, ClusterOffset, Offset;
    ChainStep(fs, first, n, i, seen);
    ClusterAt(fs, first, n, base, i);
    OffsetsInside(fs, first, n, base, i);
    if i < n - 1 {
      ChainReads(fs, first, n, base, i + 1, seen + {first + i});
      SplitSlice(fs.data, Offset(base, i), Offset(base, i + 1), Offset(base, n));
    }
  }

  /** Following the FAT from `first` visits exactly the range and returns its bytes. */
  lemma {:induction false} ContiguousChain(fs: Fs, first: nat, n: nat, base: nat)
    requires HasChain(fs, first, n) && HasData(fs, first, n) && n > 0 && base == ClusterOffset(fs, first)
    ensures base <= Offset(base, n) <= |fs.data|
    ensures Chain(fs, first, {}) == Some(fs.data[base..Offset(base, n)])
  {
    ChainReads(fs, first, n, base, 0, {});
    assert Offset(base, 0) == base;
  }
}
