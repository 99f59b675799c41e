/** From manifest to partitioned disk: the files are still there. */
module FatOnDisk {
  import opened Bytes
  import opened FatNames
  import opened FatEntries
  import opened FatCreate
  import opened FatReader
  import opened FatPatch
  import opened FatEmbed
  import GptTable
  import GptImage
  import MbrImage

  /** `part` is `img` as its reader sees it, with equal boot sectors that name `start`. */
  ghost predicate ReadsAs(part: seq<byte>, img: seq<byte>, start: nat)
  {
    && |part| == |img| >= HEAD && part[..512] == part[3072..3584] && GetLe32(part, 28) == start
    && Mount(part).Some? && Mount(img).Some?
    && forall path :: ReadPath(Mount(part).value, path) == ReadPath(Mount(img).value, path)
  }

  lemma {:induction false} PatchedReadsAs(
      u: Unicode, entries: seq<Entry>, fatMb: int, volume: string, volumeId: int, img: seq<byte>, start: nat)
    requires fatMb <= MAX_MIB && CreateImage(u, entries, fatMb, volume, volumeId) == Some(img)
    requires PartitionReady(img, true, start)
    ensures ReadsAs(Content(img, true, start), img, start)
  {
    hide CreateImage, Patchable, Patched, ReadPath, Mount, GetLe32;
    EmbeddedFatReads(u, entries, fatMb, volume, volumeId, start);
  }

  lemma {:induction false} FatOnGpt(
      crc: GptTable.Crc, specs: seq<GptImage.Spec>, sizeMb: int, guid: GptTable.Guid, i: nat,
      u: Unicode, entries: seq<Entry>, fatMb: int, volume: string, volumeId: int)
    requires GptImage.GptDisk(crc, specs, sizeMb, guid).Some? && i < |specs| && specs[i].patch
    requires fatMb <= MAX_MIB && CreateImage(u, entries, fatMb, volume, volumeId) == Some(specs[i].image)
    ensures GptImage.Layout(specs, sizeMb).Some?
    ensures var at := GptImage.Layout(specs, sizeMb).value[i];
            var disk := GptImage.GptDisk(crc, specs, sizeMb, guid).value;
            && at * 512 + |specs[i].image| <= |disk|
            && ReadsAs(disk[at * 512..at * 512 + |specs[i].image|], specs[i].image, at)
  {
    hide GptImage.GptDisk, GptImage.Layout, CreateImage, PartitionReady, Content, ReadsAs;
    GptImage.GptPartitionReads(crc, specs, sizeMb, guid, i);
    PatchedReadsAs(u, entries, fatMb, volume, volumeId, specs[i].image, GptImage.Layout(specs, sizeMb).value[i]);
  }

  lemma {:induction false} FatOnMbr(
      specs: seq<MbrImage.Spec>, sizeMb: int, i: nat,
      u: Unicode, entries: seq<Entry>, fatMb: int, volume: string, volumeId: int)
    requires MbrImage.MbrDisk(specs, sizeMb).Some? && i < |specs| && specs[i].patch
    requires fatMb <= MAX_MIB && CreateImage(u, entries, fatMb, volume, volumeId) == Some(specs[i].image)
    ensures MbrImage.Layout(specs, sizeMb).Some?
    ensures var at := MbrImage.Layout(specs, sizeMb).value[i]; var disk := MbrImage.MbrDisk(specs, sizeMb).value;
            && at * 512 + |specs[i].image| <= |disk|
            && ReadsAs(disk[at * 512..at * 512 + |specs[i].image|], specs[i].image, at)
  {
    hide MbrImage.MbrDisk, MbrImage.Layout, CreateImage, PartitionReady, Content, ReadsAs;
    MbrImage.MbrPartitionReads(specs, sizeMb, i);
    PatchedReadsAs(u, entries, fatMb, volume, volumeId, specs[i].image, MbrImage.Layout(specs, sizeMb).value[i]);
  }
}
