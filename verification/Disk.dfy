/** What `create_gpt_image` and `create_mbr_image` share: tables before and behind a run of
    placed partitions. */
module Disk {
  import opened Bytes
  import opened Regions
  import opened Placement
  import opened FatPatch

  /** A partition's logical image, and whether its hidden-sector fields are to be patched. */
  datatype Volume = Volume(bytes: seq<byte>, patch: bool)

  function TotalLbas(sizeMb: int): int { sizeMb * 1024 * 1024 / 512 }

  predicate VolumeReady(v: Volume, start: nat) { PartitionReady(v.bytes, v.patch, start) }

  predicate AllReady(vs: seq<Volume>, starts: seq<nat>)
  {
    |vs| == |starts| && forall i :: 0 <= i < |vs| ==> VolumeReady(vs[i], starts[i])
  }

  function PartRegion(v: Volume, start: nat): (r: Region)
    requires VolumeReady(v, start)
    ensures r.at == start * 512 && |r.data| == |v.bytes|
  {
    Region(start * 512, Content(v.bytes, v.patch, start))
  }

  function PartRegions(vs: seq<Volume>, starts: seq<nat>): (rs: seq<Region>)
    requires AllReady(vs, starts)
    ensures |rs| == |vs|
  {
    seq(|vs|, i requires 0 <= i < |vs| => PartRegion(vs[i], starts[i]))
  }

  ghost predicate Describes(slots: seq<Slot>, vs: seq<Volume>)
  {
    |slots| == |vs| && forall i :: 0 <= i < |vs| ==> slots[i].size == |vs[i].bytes|
  }

  // ----- where the partitions end up -----

  ghost predicate Within(lo: int, hi: int, rs: seq<Region>)
  {
    forall i :: 0 <= i < |rs| ==> lo <= rs[i].at && rs[i].End() <= hi
  }

  lemma {:induction false} SlotBytes(slots: seq<Slot>, starts: seq<nat>, first: nat, last: int, i: nat)
    requires Placed(slots, starts, first, last) && i < |slots|
    ensures slots[i].size == slots[i].Sectors() * 512 >= 512
    ensures first * 512 <= starts[i] * 512 && starts[i] * 512 + slots[i].size <= (last + 1) * 512
  {
    assert PlacedAt(slots, starts, first, last, i);
    PlacedInside(slots, starts, first, last, i);
  }

  lemma {:induction false} PartsInside(vs: seq<Volume>, slots: seq<Slot>, starts: seq<nat>, first: nat, last: int)
    requires Placed(slots, starts, first, last) && Describes(slots, vs) && AllReady(vs, starts)
    ensures Within(first * 512, (last + 1) * 512, PartRegions(vs, starts))
  {
    var rs := PartRegions(vs, starts);
    hide Placed, PartitionReady, Content;
    forall i | 0 <= i < |rs| ensures first * 512 <= rs[i].at && rs[i].End() <= (last + 1) * 512 {
      SlotBytes(slots, starts, first, last, i);
    }
  }

  lemma {:induction false} PartsApart(vs: seq<Volume>, slots: seq<Slot>, starts: seq<nat>, first: nat, last: int)
    requires Placed(slots, starts, first, last) && Describes(slots, vs) && AllReady(vs, starts)
    ensures Disjoint(PartRegions(vs, starts))
  {
    var rs := PartRegions(vs, starts);
    hide Placed, PartitionReady, Content;
    forall i, j | 0 <= i < j < |rs| ensures Apart(rs[i], rs[j]) {
      SlotBytes(slots, starts, first, last, i);
      PlacedApart(slots, starts, first, last, i, j);
    }
  }

  /** Three groups of writes in three ranges of the disk. */
  lemma {:induction false} Sandwich(
      size: nat, head: seq<Region>, parts: seq<Region>, tail: seq<Region>, lo: nat, hi: nat)
    requires lo <= hi <= size && Within(0, lo, head) && Within(lo, hi, parts) && Within(hi, size, tail)
    requires Disjoint(head) && Disjoint(parts) && Disjoint(tail)
    ensures Fits(size, head + parts + tail) && Disjoint(head + parts + tail)
  {
    var rs, n, m := head + parts + tail, |head|, |head| + |parts|;
    forall i | 0 <= i < |rs|
      ensures rs[i].End() <= size && (i < n ==> rs[i].End() <= lo) && (i < m ==> rs[i].End() <= hi)
      ensures (i >= n ==> lo <= rs[i].at) && (i >= m ==> hi <= rs[i].at)
    {
      assert rs[i] == if i < n then head[i] else if i < m then parts[i - n] else tail[i - m];
    }
    forall i, j | 0 <= i < j < |rs| ensures Apart(rs[i], rs[j]) {
      if j < n { assert Apart(head[i], head[j]); }
      else if n <= i && j < m { assert Apart(parts[i - n], parts[j - n]); }
      else if m <= i { assert Apart(tail[i - m], tail[j - m]); }
    }
  }

  /** Every one of a set of disjoint writes reads back. */
  lemma {:induction false} DisjointReadsBack(img: seq<byte>, rs: seq<Region>, i: nat)
    requires Fits(|img|, rs) && Disjoint(rs) && i < |rs|
    ensures rs[i].End() <= |img| && WriteAll(img, rs)[rs[i].at..rs[i].End()] == rs[i].data
  {
    forall j | i < j < |rs| ensures Apart(rs[i], rs[j]) {}
    hide WriteAll, Apart;
    ReadsBack(img, rs, i);
  }

  // ----- the writing loop -----

  method WritePartitions(a: array<byte>, vs: seq<Volume>, starts: seq<nat>) returns (ok: bool)
    requires |vs| == |starts|
    requires forall i :: 0 <= i < |vs| ==> |vs[i].bytes| >= 512 && starts[i] * 512 + |vs[i].bytes| <= a.Length
    modifies a
    ensures ok <==> AllReady(vs, starts)
    ensures ok ==> Fits(a.Length, PartRegions(vs, starts)) && a[..] == WriteAll(old(a[..]), PartRegions(vs, starts))
  {
    hide PartitionReady, Content, WriteAll, Splice;
    ghost var was := a[..];
    assert PartRegions(vs[..0], starts[..0]) == [];
    WriteNone(was);
    for i := 0 to |vs|
      invariant AllReady(vs[..i], starts[..i])
      invariant Fits(a.Length, PartRegions(vs[..i], starts[..i]))
      invariant a[..] == WriteAll(was, PartRegions(vs[..i], starts[..i]))
    {
      var done := WritePartition(a, starts[i] * 512, vs[i].bytes, vs[i].patch, starts[i]);
      if !done {
        assert !VolumeReady(vs[i], starts[i]);
        return false;
      }
      NextPartition(was, vs, starts, i);
    }
    assert vs[..|vs|] == vs && starts[..|vs|] == starts;
    return true;
  }

  lemma {:induction false} ReadyExtends(vs: seq<Volume>, starts: seq<nat>, v: Volume, start: nat)
    requires AllReady(vs, starts) && VolumeReady(v, start)
    ensures AllReady(vs + [v], starts + [start])
    ensures PartRegions(vs + [v], starts + [start]) == PartRegions(vs, starts) + [PartRegion(v, start)]
  {
    hide PartitionReady, Content, PartRegion, VolumeReady;
  }

  lemma {:induction false} NextPartition(img: seq<byte>, vs: seq<Volume>, starts: seq<nat>, i: nat)
    requires |vs| == |starts| && i < |vs| && AllReady(vs[..i], starts[..i]) && VolumeReady(vs[i], starts[i])
    requires Fits(|img|, PartRegions(vs[..i], starts[..i])) && starts[i] * 512 + |vs[i].bytes| <= |img|
    ensures AllReady(vs[..i + 1], starts[..i + 1]) && Fits(|img|, PartRegions(vs[..i + 1], starts[..i + 1]))
    ensures WriteAll(img, PartRegions(vs[..i + 1], starts[..i + 1]))
         == Splice(WriteAll(img, PartRegions(vs[..i], starts[..i])),
                   starts[i] * 512, Content(vs[i].bytes, vs[i].patch, starts[i]))
  {
    hide PartitionReady, Content, WriteAll, Splice, PartRegions, AllReady;
    assert vs[..i + 1] == vs[..i] + [vs[i]] && starts[..i + 1] == starts[..i] + [starts[i]];
    ReadyExtends(vs[..i], starts[..i], vs[i], starts[i]);
    WriteOneMore(img, PartRegions(vs[..i], starts[..i]), PartRegion(vs[i], starts[i]));
  }

  lemma {:induction false} AllReadyEarlier(vs: seq<Volume>, starts: seq<nat>, earlier: seq<nat>)
    requires AllReady(vs, starts) && |earlier| == |starts| && forall i :: 0 <= i < |vs| ==> earlier[i] <= starts[i]
    ensures AllReady(vs, earlier)
  {
    hide VolumeReady;
    forall i | 0 <= i < |vs| ensures VolumeReady(vs[i], earlier[i]) { ReadyEarlier(vs[i], starts[i], earlier[i]); }
  }

  /** A volume that may be patched at one LBA may be patched at any earlier one. */
  lemma {:induction false} ReadyEarlier(v: Volume, start: nat, earlier: nat)
    requires VolumeReady(v, start) && earlier <= start
    ensures VolumeReady(v, earlier)
  {
  }
}
