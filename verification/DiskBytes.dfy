/** Partitions of a finished disk, byte by byte. */
module DiskBytes {
  import opened Bytes
  import opened FatPatch
  import opened Disk

  /** The 16-bit field at 50 of a boot sector, which names its backup. */
  function BackupOf(img: seq<byte>): int
    requires |img| >= 512
  {
    (img[50] as int) + 256 * (img[51] as int)
  }

  /** A signed boot sector of 512-byte sectors, whose backup lies inside the image. */
  ghost predicate BootOk(img: seq<byte>)
  {
    && |img| >= 512 && img[510] == 0x55 && img[511] == 0xAA && img[11] == 0 && img[12] == 2
    && (BackupOf(img) == 0 || (BackupOf(img) + 1) * 512 <= |img|)
  }

  lemma {:induction false} BootReady(img: seq<byte>, patch: bool, start: nat)
    ensures VolumeReady(Volume(img, patch), start) <==> (patch ==> start < 0x1_0000_0000 && BootOk(img))
  {
  }

  /** Byte `k` of a patched image is one of the hidden-sector fields. */
  predicate Hidden(img: seq<byte>, k: nat)
    requires |img| >= 512
  {
    28 <= k < 32 || (BackupOf(img) != 0 && BackupOf(img) * 512 + 28 <= k < BackupOf(img) * 512 + 32)
  }

  /** The partition at `start` holds its image, but for the fields that patching sets to `start`. */
  ghost predicate PartitionIs(d: seq<byte>, img: seq<byte>, patch: bool, start: nat)
    requires start * 512 + |img| <= |d|
  {
    if !patch then forall k :: 0 <= k < |img| ==> d[start * 512 + k] == img[k]
    else
      && BootOk(img) && (forall k :: 0 <= k < |img| && !Hidden(img, k) ==> d[start * 512 + k] == img[k])
      && GetLe32(d, start * 512 + 28) == start
      && (BackupOf(img) != 0 ==> GetLe32(d, start * 512 + BackupOf(img) * 512 + 28) == start)
  }

  lemma {:induction false} ContentIs(d: seq<byte>, img: seq<byte>, patch: bool, start: nat)
    requires PartitionReady(img, patch, start) && start * 512 + |img| <= |d|
    requires d[start * 512..start * 512 + |img|] == Content(img, patch, start)
    ensures PartitionIs(d, img, patch, start)
  {
    var c := Content(img, patch, start);
    assert forall k :: 0 <= k < |c| ==> d[start * 512 + k] == c[k];
    if patch {
      BootReady(img, patch, start);
      PatchedFields(img, start);
      assert BackupOf(img) == BackupSector(img);
      hide Patched, Patchable, BootOk, BackupSector;
      forall k | 0 <= k < |c| && !Hidden(img, k) ensures d[start * 512 + k] == img[k] {
        PatchedElsewhere(img, start, k);
      }
    }
  }
}
