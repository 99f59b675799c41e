/** The two loops of `create_fat32_image` over the walk: linking every node's clusters in
    the FAT, and writing every node's data.  Both depend on the nodes only through their
    cluster counts and their bytes. */
module FatBlocks {
  import opened Bytes
  import opened Ranges
  import opened Regions

  type word = x: int | 0 <= x < 0x1_0000_0000

  const END_OF_CHAIN: word := 0x0FFF_FFFF

  // ----- the FAT -----

  /** The `o`-th of `n` links of a node that starts at `first`. */
  function Link(first: nat, n: nat, o: nat): (w: nat)
    ensures w > 0
  {
    if o == n - 1 then END_OF_CHAIN else first + o + 1
  }

  predicate FatFits(entries: nat, sizes: seq<nat>)
  {
    Start(sizes, |sizes|) <= entries < 0x1000_0000
  }

  function LinkNode(fat: seq<word>, first: nat, n: nat, o: nat): (r: seq<word>)
    requires o <= n && first + n <= |fat| < 0x1000_0000
    ensures |r| == |fat|
    ensures forall c :: 0 <= c < |fat| ==> r[c] == if first <= c < first + o then Link(first, n, c - first) else fat[c]
  {
    if o == 0 then fat else LinkNode(fat, first, n, o - 1)[first + o - 1 := Link(first, n, o - 1)]
  }

  function EmptyFat(entries: nat): (r: seq<word>)
    requires entries >= 2
    ensures |r| == entries
  {
    [0x0FFF_FFF8, 0xFFFF_FFFF] + Repeat<word>(0, entries - 2)
  }

  function FatAfter(entries: nat, sizes: seq<nat>, n: nat): (r: seq<word>)
    requires FatFits(entries, sizes) && n <= |sizes|
    ensures |r| == entries
  {
    if n == 0 then EmptyFat(entries)
    else
      RangeBounds(sizes, n - 1);
      LinkNode(FatAfter(entries, sizes, n - 1), Start(sizes, n - 1), sizes[n - 1], sizes[n - 1])
  }

  /** The entries of the finished FAT. */
  function FatWords(entries: nat, sizes: seq<nat>): (r: seq<word>)
    requires FatFits(entries, sizes)
    ensures |r| == entries
  {
    FatAfter(entries, sizes, |sizes|)
  }

  lemma {:induction false} EntryFree(entries: nat, sizes: seq<nat>, n: nat, c: nat)
    requires FatFits(entries, sizes) && n <= |sizes| && Start(sizes, n) <= c < entries
    ensures FatAfter(entries, sizes, n)[c] == 0
  {
    if n > 0 {
      RangeBounds(sizes, n - 1);
      EntryFree(entries, sizes, n - 1, c);
    }
  }

  lemma {:induction false} EntryReserved(entries: nat, sizes: seq<nat>, n: nat)
    requires FatFits(entries, sizes) && n <= |sizes| && entries >= 2
    ensures FatAfter(entries, sizes, n)[0] == 0x0FFF_FFF8 && FatAfter(entries, sizes, n)[1] == 0xFFFF_FFFF
  {
    if n > 0 {
      RangeBounds(sizes, n - 1);
      EntryReserved(entries, sizes, n - 1);
    }
  }

  lemma {:induction false} EntryLinked(entries: nat, sizes: seq<nat>, n: nat, i: nat, c: nat)
    requires FatFits(entries, sizes) && i < n <= |sizes| && InRange(sizes, i, c)
    ensures c < entries && FatAfter(entries, sizes, n)[c] == Link(Start(sizes, i), sizes[i], c - Start(sizes, i))
  {
    RangeBounds(sizes, i);
    RangeBounds(sizes, n - 1);
    if i < n - 1 {
      EntryLinked(entries, sizes, n - 1, i, c);
      RangesApart(sizes, i, n - 1);
    }
  }

  lemma {:induction false} EntryInUse(entries: nat, sizes: seq<nat>, c: nat)
    requires FatFits(entries, sizes) && 2 <= c < entries
    ensures FatWords(entries, sizes)[c] == 0 <==> Start(sizes, |sizes|) <= c
  {
    if c < Start(sizes, |sizes|) {
      CoveredBelow(sizes, |sizes|, c);
      var i :| InRange(sizes, i, c);
      EntryLinked(entries, sizes, |sizes|, i, c);
    } else {
      EntryFree(entries, sizes, |sizes|, c);
    }
  }

  // ----- free space -----

  /** The number of zero entries among clusters `lo`, ..., `hi - 1`. */
  function FreeEntries(fat: seq<word>, lo: nat, hi: nat): nat
    requires lo <= hi <= |fat|
    decreases hi - lo
  {
    if lo == hi then 0 else (if fat[lo] == 0 then 1 else 0) + FreeEntries(fat, lo + 1, hi)
  }

  lemma {:induction false} FreeEntriesFrom(entries: nat, sizes: seq<nat>, lo: nat, hi: nat)
    requires FatFits(entries, sizes) && 2 <= lo <= hi <= entries && Start(sizes, |sizes|) <= hi
    ensures FreeEntries(FatWords(entries, sizes), lo, hi) == hi - Max(lo, Start(sizes, |sizes|))
    decreases hi - lo
  {
    if lo < hi {
      FreeEntriesFrom(entries, sizes, lo + 1, hi);
      EntryInUse(entries, sizes, lo);
    }
  }

  /** FSInfo's count is the number of free clusters, and its hint is the first of them. */
  lemma {:induction false} FreeCount(entries: nat, sizes: seq<nat>, clusters: nat)
    requires FatFits(entries, sizes) && clusters + 2 <= entries && Start(sizes, |sizes|) <= clusters + 2
    ensures var next, fat := Start(sizes, |sizes|), FatWords(entries, sizes);
            && FreeEntries(fat, 2, clusters + 2) == clusters - (next - 2)
            && (forall c :: 2 <= c < next ==> fat[c] != 0)
            && (next < clusters + 2 ==> fat[next] == 0)
  {
    FreeEntriesFrom(entries, sizes, 2, clusters + 2);
    forall c | 2 <= c < entries ensures FatWords(entries, sizes)[c] == 0 <==> Start(sizes, |sizes|) <= c {
      EntryInUse(entries, sizes, c);
    }
  }

  // ----- the FAT as bytes -----

  function Pack(ws: seq<word>): (bs: seq<byte>)
    ensures |bs| == 4 * |ws|
    ensures forall c :: 0 <= c < |ws| ==> bs[4 * c..4 * c + 4] == Le32(ws[c])
  {
    if ws == [] then []
    else
      var n := |ws| - 1;
      var before := Pack(ws[..n]);
      var bs := before + Le32(ws[n]);
      assert forall c :: 0 <= c < n ==> bs[4 * c..4 * c + 4] == before[4 * c..4 * c + 4];
      bs
  }

  lemma {:induction false} PackedEntry(ws: seq<word>, c: nat)
    requires c < |ws|
    ensures GetLe32(Pack(ws), 4 * c) == ws[c]
  {
    Le32RoundTrip(Pack(ws), 4 * c, ws[c]);
  }

  lemma {:induction false} PackUpdate(ws: seq<word>, c: nat, w: word)
    requires c < |ws|
    ensures Splice(Pack(ws), 4 * c, Le32(w)) == Pack(ws[c := w])
  {
    var n := |ws| - 1;
    PackLast(ws, n);
    PackLast(ws[c := w], n);
    hide Le32, Pack, Splice;
    if c == n {
      assert ws[c := w][..n] == ws[..n];
      SpliceBack(Pack(ws[..n]), Le32(ws[n]), Le32(w));
    } else {
      PackUpdate(ws[..n], c, w);
      assert ws[c := w][..n] == ws[..n][c := w];
      SpliceFront(Pack(ws[..n]), 4 * c, Le32(w), Le32(ws[n]));
    }
  }

  lemma {:induction false} PackLast(ws: seq<word>, n: nat)
    requires |ws| == n + 1
    ensures Pack(ws) == Pack(ws[..n]) + Le32(ws[n])
  {
    hide Le32;
  }

  lemma {:induction false} LinkStep(fat: seq<word>, first: nat, n: nat, o: nat)
    requires o < n && first + n <= |fat| < 0x1000_0000
    ensures Splice(Pack(LinkNode(fat, first, n, o)), 4 * (first + o), Le32(Link(first, n, o))) ==
            Pack(LinkNode(fat, first, n, o + 1))
  {
    PackUpdate(LinkNode(fat, first, n, o), first + o, Link(first, n, o));
  }

  method LinkClusters(a: array<byte>, ghost fat: seq<word>, first: nat, n: nat)
    requires first + n <= |fat| < 0x1000_0000 && a[..] == Pack(fat)
    modifies a
    ensures a[..] == Pack(LinkNode(fat, first, n, n))
  {
    for o := 0 to n
      invariant a[..] == Pack(LinkNode(fat, first, n, o))
    {
      LinkStep(fat, first, n, o);
      WriteAt(a, 4 * (first + o), Le32(Link(first, n, o)));
    }
  }

  lemma {:induction false} PackZeros(n: nat)
    ensures Pack(Repeat<word>(0, n)) == Zeros(4 * n)
  {
    if n > 0 {
      PackZeros(n - 1);
      PackLast(Repeat<word>(0, n), n - 1);
      ZeroParts(n);
      hide *;
    }
  }

  lemma {:induction false} ZeroParts(n: nat)
    requires n > 0
    ensures Repeat<word>(0, n)[..n - 1] == Repeat<word>(0, n - 1)
    ensures Le32(0) == Zeros(4) && Zeros(4 * (n - 1)) + Zeros(4) == Zeros(4 * n)
  {
  }

  lemma {:induction false} BlankFat(entries: nat)
    requires entries >= 2
    ensures Splice(Splice(Zeros(4 * entries), 0, Le32(0x0FFF_FFF8)), 4, Le32(0xFFFF_FFFF)) == Pack(EmptyFat(entries))
  {
    var blank := Repeat<word>(0, entries);
    PackZeros(entries);
    PackUpdate(blank, 0, 0x0FFF_FFF8);
    PackUpdate(blank[0 := 0x0FFF_FFF8], 1, 0xFFFF_FFFF);
    assert blank[0 := 0x0FFF_FFF8][1 := 0xFFFF_FFFF] == EmptyFat(entries);
  }

  method NewFat(entries: nat) returns (a: array<byte>)
    requires entries >= 2
    ensures fresh(a) && a[..] == Pack(EmptyFat(entries))
  {
    a := NewZeros(4 * entries);
    BlankFat(entries);
    WriteAt(a, 0, Le32(0x0FFF_FFF8));
    WriteAt(a, 4, Le32(0xFFFF_FFFF));
  }

  method FillFat(entries: nat, sizes: seq<nat>) returns (fat: seq<byte>)
    requires FatFits(entries, sizes)
    ensures fat == Pack(FatWords(entries, sizes))
  {
    hide LinkNode, Pack, EmptyFat;
    StartMonotone(sizes, 0, |sizes|);
    var a := NewFat(entries);
    var first := 2;
    for i := 0 to |sizes|
      invariant first == Start(sizes, i)
      invariant a[..] == Pack(FatAfter(entries, sizes, i))
    {
      RangeBounds(sizes, i);
      LinkClusters(a, FatAfter(entries, sizes, i), first, sizes[i]);
      first := first + sizes[i];
    }
    return a[..];
  }

  // ----- node data -----

  ghost predicate BlocksFit(size: nat, base: nat, sizes: seq<nat>, blocks: seq<seq<byte>>)
  {
    && |blocks| == |sizes|
    && base + (Start(sizes, |sizes|) - 2) * 512 <= size
    && forall i :: 0 <= i < |sizes| ==> |blocks[i]| <= sizes[i] * 512
  }

  function BlockAt(base: nat, sizes: seq<nat>, i: nat): nat
    requires i <= |sizes|
  {
    base + (Start(sizes, i) - 2) * 512
  }

  lemma {:induction false} BlockBounds(size: nat, base: nat, sizes: seq<nat>, blocks: seq<seq<byte>>, i: nat)
    requires BlocksFit(size, base, sizes, blocks) && i < |sizes|
    ensures base <= BlockAt(base, sizes, i)
    ensures BlockAt(base, sizes, i) + |blocks[i]| <= BlockAt(base, sizes, i + 1) <= size
  {
    RangeBounds(sizes, i);
  }

  lemma {:induction false} BlocksApart(size: nat, base: nat, sizes: seq<nat>, blocks: seq<seq<byte>>, i: nat, j: nat)
    requires BlocksFit(size, base, sizes, blocks) && i < j < |sizes|
    ensures BlockAt(base, sizes, i) + |blocks[i]| <= BlockAt(base, sizes, j)
  {
    BlockBounds(size, base, sizes, blocks, i);
    StartMonotone(sizes, i + 1, j);
  }

  /** One write per node, at its first cluster. */
  function NodeRegions(base: nat, sizes: seq<nat>, blocks: seq<seq<byte>>): (rs: seq<Region>)
    requires |blocks| == |sizes|
    ensures |rs| == |sizes|
    ensures forall i :: 0 <= i < |rs| ==> rs[i] == Region(BlockAt(base, sizes, i), blocks[i])
  {
    seq(|sizes|, i requires 0 <= i < |sizes| => Region(BlockAt(base, sizes, i), blocks[i]))
  }

  lemma {:induction false} NodeRegionsFit(size: nat, base: nat, sizes: seq<nat>, blocks: seq<seq<byte>>)
    requires BlocksFit(size, base, sizes, blocks)
    ensures Fits(size, NodeRegions(base, sizes, blocks)) && Disjoint(NodeRegions(base, sizes, blocks))
    ensures forall i :: 0 <= i < |sizes| ==> base <= NodeRegions(base, sizes, blocks)[i].at
  {
    var rs := NodeRegions(base, sizes, blocks);
    forall i | 0 <= i < |rs| ensures rs[i].End() <= size && base <= rs[i].at {
      BlockBounds(size, base, sizes, blocks, i);
    }
    forall i, j | 0 <= i < j < |rs| ensures Apart(rs[i], rs[j]) { BlocksApart(size, base, sizes, blocks, i, j); }
  }
}
