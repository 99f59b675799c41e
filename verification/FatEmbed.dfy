/** A FAT image placed in a partition and patched there still reads as it did. */
module FatEmbed {
  import opened Bytes
  import opened FatEntries
  import opened FatNames
  import opened FatImage
  import opened FatCreate
  import opened FatVolume
  import opened FatBlocks
  import opened FatDirectoryData
  import opened FatReader
  import opened FatRoundTrip
  import opened FatPatch

  // ----- readers that see the same FAT and data -----

  const HEAD := 32 * 512

  /** Same geometry and same bytes behind the reserved sectors. */
  ghost predicate SameBehind(a: Fs, b: Fs)
  {
    && a.clusterSize == b.clusterSize && a.fatOffset == b.fatOffset >= HEAD
    && a.dataOffset == b.dataOffset >= HEAD && a.rootCluster == b.rootCluster
    && |a.data| == |b.data| && forall k :: HEAD <= k < |a.data| ==> a.data[k] == b.data[k]
  }

  lemma {:induction false} SameSlice(s: seq<byte>, t: seq<byte>, lo: nat, hi: nat)
    requires |s| == |t| && HEAD <= lo <= hi && forall k :: HEAD <= k < |s| ==> s[k] == t[k]
    ensures Slice(s, lo, hi) == Slice(t, lo, hi)
  {
  }

  lemma {:induction false} SameCluster(a: Fs, b: Fs, c: nat)
    requires SameBehind(a, b) && c >= 2
    ensures Cluster(a, c) == Cluster(b, c)
  {
    hide Slice;
    SameOffset(a, b, c);
    hide ClusterOffset;
    var at := ClusterOffset(a, c);
    SameSlice(a.data, b.data, at, at + a.clusterSize);
  }

  lemma {:induction false} SameOffset(a: Fs, b: Fs, c: nat)
    requires SameBehind(a, b) && c >= 2
    ensures HEAD <= ClusterOffset(a, c) == ClusterOffset(b, c)
  {
  }

  lemma {:induction false} SameNext(a: Fs, b: Fs, c: nat)
    requires SameBehind(a, b)
    ensures NextCluster(a, c) == NextCluster(b, c)
  {
  }

  lemma {:induction false} SameChain(a: Fs, b: Fs, c: nat, seen: set<nat>)
    requires SameBehind(a, b)
    ensures Chain(a, c, seen) == Chain(b, c, seen)
    decreases Unseen(seen)
  {
    hide SameBehind, Cluster, NextCluster;
    if InChain(c) && c !in seen {
      assert c in Unseen(seen);
      SameCluster(a, b, c);
      SameNext(a, b, c);
      if NextCluster(a, c).Some? { SameChain(a, b, NextCluster(a, c).value, seen + {c}); }
    }
  }

  lemma {:induction false} SameReads(a: Fs, b: Fs, cluster: nat, names: seq<string>)
    requires SameBehind(a, b) && names != []
    ensures ReadFrom(a, cluster, names) == ReadFrom(b, cluster, names)
    decreases |names|
  {
    hide SameBehind, Chain, ScanBytes;
    SameChain(a, b, cluster, {});
    var found := Lookup(a, cluster, names[0]);
    if found.Some? {
      SameChain(a, b, found.value.cluster, {});
      if |names| > 1 { SameReads(a, b, found.value.cluster, names[1..]); }
    }
  }

  // ----- patched images -----

  ghost predicate BootCopies(img: seq<byte>, boot: seq<byte>)
  {
    |img| >= HEAD && |boot| == 512 && img[..512] == boot && img[3072..3584] == boot
  }

  lemma {:induction false} BootCopiesPatchable(img: seq<byte>, boot: seq<byte>)
    requires BootCopies(img, boot)
    requires GetLe16(boot, 11) == 512 && GetLe16(boot, 50) == 6 && boot[510] == 0x55 && boot[511] == 0xAA
    ensures Patchable(img) && BackupSector(img) == 6
  {
    BootPrefix(img);
  }

  /** Patching writes the same boot sector twice and leaves the rest. */
  lemma {:induction false} PatchedCopies(img: seq<byte>, boot: seq<byte>, start: nat)
    requires BootCopies(img, boot) && Patchable(img) && BackupSector(img) == 6 && start < LBA_LIMIT
    ensures BootCopies(Patched(img, start), Splice(boot, 28, Le32(start)))
    ensures forall k :: HEAD <= k < |img| ==> Patched(img, start)[k] == img[k]
  {
    hide Le32;
    var r, want := Patched(img, start), Splice(boot, 28, Le32(start));
    hide Patchable;
    forall k | 0 <= k < 512 ensures r[k] == want[k] && r[3072 + k] == want[k] {
      assert img[..512][k] == boot[k] && img[3072..3584][k] == boot[k];
    }
    assert r[..512] == want && r[3072..3584] == want;
  }

  lemma {:induction false} BootSectorPatched(total: nat, fat: nat, volume: string, volumeId: nat, start: nat)
    requires total < LIMIT && fat < LIMIT && volumeId < LIMIT && start < LIMIT && ValidLabel(volume)
    ensures Splice(BootSector(total, fat, volume, volumeId, 0), 28, Le32(start))
         == BootSector(total, fat, volume, volumeId, start)
  {
    var a, b := BootSector(total, fat, volume, volumeId, 0), BootSector(total, fat, volume, volumeId, start);
    hide Le32, BootHead, BootTail, BootEnd, ValidLabel, BootSector;
    SplicedParts(a, b, Le32(start));
  }

  lemma {:induction false} SplicedParts(a: seq<byte>, b: seq<byte>, field: seq<byte>)
    requires |a| == |b| == 512 && |field| == 4
    requires a[..28] == b[..28] && a[32..64] == b[32..64] && a[64..] == b[64..] && b[28..32] == field
    ensures Splice(a, 28, field) == b
  {
    var r := Splice(a, 28, field);
    assert a == a[..28] + a[28..32] + a[32..64] + a[64..];
    assert b == b[..28] + b[28..32] + b[32..64] + b[64..];
    assert r == a[..28] + field + (a[32..64] + a[64..]);
  }

  lemma {:induction false} BootCopiesMount(img: seq<byte>, boot: seq<byte>, fat: nat)
    requires BootCopies(img, boot) && BootsAs(boot, fat)
    ensures Mount(img) == Some(FsOf(img, fat))
  {
    assert img[0..512] == img[..512];
    BootsAlike(img, boot, fat);
    MountReadable(img, fat);
  }

  lemma {:induction false} ImageBootCopies(u: Unicode, plan: Plan, g: Geometry, volume: string, volumeId: nat)
    requires Ready(u, plan, g, volume) && volumeId < LIMIT
    ensures BootCopies(ImageBytes(u, plan, g, volume, volumeId), BootSector(g.total, g.fat, volume, volumeId, 0))
  {
    ImagePrologue(u, plan, g, volume, volumeId);
    var img := ImageBytes(u, plan, g, volume, volumeId);
    var boot, info := BootSector(g.total, g.fat, volume, volumeId, 0), FsInfoOf(plan, g.clusters);
    hide PlanOk, BootSector, Pack, FatWords, FsInfoSector, HoldsPrologue, ImageBytes, ValidLabel;
    PrologueParts(img, g.fat, boot, info, Pack(FatWords(128 * g.fat, plan.sizes)));
  }

  /** Two mounted images of one geometry that differ only in the reserved sectors. */
  lemma {:induction false} SameMounted(img: seq<byte>, other: seq<byte>, fat: nat)
    requires |img| == |other| && forall k :: HEAD <= k < |img| ==> img[k] == other[k]
    ensures forall path :: ReadPath(FsOf(img, fat), path) == ReadPath(FsOf(other, fat), path)
  {
    var a, b := FsOf(img, fat), FsOf(other, fat);
    assert SameBehind(a, b);
    hide ReadFrom, SameBehind;
    forall path ensures ReadPath(a, path) == ReadPath(b, path) {
      SameReads(a, b, 2, Text.Split(path));
    }
  }

  lemma {:induction false} EmbeddedBytes(
      img: seq<byte>, total: nat, fat: nat, volume: string, volumeId: nat, start: nat)
    requires total < LIMIT && fat < LIMIT && volumeId < LIMIT && start < LIMIT && ValidLabel(volume)
    requires BootCopies(img, BootSector(total, fat, volume, volumeId, 0))
    ensures Patchable(img) && BackupSector(img) == 6
    ensures BootCopies(Patched(img, start), BootSector(total, fat, volume, volumeId, start))
    ensures Mount(img) == Some(FsOf(img, fat)) && Mount(Patched(img, start)) == Some(FsOf(Patched(img, start), fat))
    ensures forall path :: ReadPath(FsOf(img, fat), path) == ReadPath(FsOf(Patched(img, start), fat), path)
  {
    var boot, want := BootSector(total, fat, volume, volumeId, 0), BootSector(total, fat, volume, volumeId, start);
    BootFields(boot, total, fat, volume, volumeId, 0);
    BootFields(want, total, fat, volume, volumeId, start);
    BootSectorPatched(total, fat, volume, volumeId, start);
    hide BootSector, Le32, Splice, BootCopies, Patchable, Patched, Mount, ReadPath, FsOf, ValidLabel;
    BootCopiesPatchable(img, boot);
    hide BootsAs, GetLe16, GetLe32;
    PatchedCopies(img, boot, start);
    BootCopiesMount(img, boot, fat);
    BootCopiesMount(Patched(img, start), want, fat);
    SameMounted(img, Patched(img, start), fat);
  }

  /** Wherever a created image is placed and patched, its two boot sectors stay equal and name
      the placement, and every path reads as it does in the image itself. */
  lemma {:induction false} EmbeddedFatReads(
      u: Unicode, entries: seq<Entry>, sizeMb: int, volume: string, volumeId: int, start: nat)
    requires sizeMb <= MAX_MIB && CreateImage(u, entries, sizeMb, volume, volumeId).Some? && start < LBA_LIMIT
    ensures var img := CreateImage(u, entries, sizeMb, volume, volumeId).value;
            && Patchable(img)
            && var r := Patched(img, start);
               && |r| >= HEAD && r[..512] == r[3072..3584] && GetLe32(r, 28) == start
               && Mount(img).Some? && Mount(r).Some?
               && forall path :: ReadPath(Mount(r).value, path) == ReadPath(Mount(img).value, path)
  {
    hide CreateImage, Holds, Layout, Build, ReadPath, Mount;
    hide Patchable, Patched, ImageBytes, BootCopies, PlanOk, GetLe32;
    var plan, g := CreatedImageHolds(u, entries, sizeMb, volume, volumeId);
    ImageBootCopies(u, plan, g, volume, volumeId);
    hide ValidLabel, BootSector;
    var img := ImageBytes(u, plan, g, volume, volumeId);
    EmbeddedBytes(img, g.total, g.fat, volume, volumeId, start);
    PatchedFields(img, start);
    CopiesEqual(Patched(img, start), BootSector(g.total, g.fat, volume, volumeId, start));
  }

  lemma {:induction false} CopiesEqual(img: seq<byte>, boot: seq<byte>)
    requires BootCopies(img, boot)
    ensures |img| >= HEAD && img[..512] == img[3072..3584]
  {
  }
}
