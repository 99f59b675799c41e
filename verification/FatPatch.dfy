/** `_patch_fat_hidden_sectors`, shared by the GPT and MBR composers. */
module FatPatch {
  import opened Bytes

  const LBA_LIMIT := 0x1_0000_0000

  function BackupSector(img: seq<byte>): nat
    requires |img| >= 512
  {
    GetLe16(img, 50)
  }

  /** The partition has a signed 512-byte boot sector, and its backup lies inside. */
  predicate Patchable(img: seq<byte>)
  {
    && |img| >= 512 && img[510] == 0x55 && img[511] == 0xAA && GetLe16(img, 11) == 512
    && (BackupSector(img) == 0 || (BackupSector(img) + 1) * 512 <= |img|)
  }

  function Patched(img: seq<byte>, start: nat): (r: seq<byte>)
    requires Patchable(img) && start < LBA_LIMIT
    ensures |r| == |img|
  {
    var one := Splice(img, 28, Le32(start));
    var backup := BackupSector(img);
    if backup == 0 then one else Splice(one, backup * 512 + 28, Le32(start))
  }

  /** The bytes patching may change. */
  predicate HiddenField(img: seq<byte>, k: nat)
    requires |img| >= 512
  {
    28 <= k < 32 || (BackupSector(img) != 0 && BackupSector(img) * 512 + 28 <= k < BackupSector(img) * 512 + 32)
  }

  lemma {:induction false} PatchedElsewhere(img: seq<byte>, start: nat, k: nat)
    requires Patchable(img) && start < LBA_LIMIT && k < |img| && !HiddenField(img, k)
    ensures Patched(img, start)[k] == img[k]
  {
  }

  lemma {:induction false} PatchedFields(img: seq<byte>, start: nat)
    requires Patchable(img) && start < LBA_LIMIT
    ensures GetLe32(Patched(img, start), 28) == start
    ensures var b := BackupSector(img); b != 0 ==> GetLe32(Patched(img, start), b * 512 + 28) == start
  {
    var r, b := Patched(img, start), BackupSector(img);
    assert r[28..32] == Le32(start);
    Le32RoundTrip(r, 28, start);
    if b != 0 {
      assert r[b * 512 + 28..b * 512 + 32] == Le32(start);
      Le32RoundTrip(r, b * 512 + 28, start);
    }
  }

  lemma {:induction false} SpliceInside(s: seq<byte>, at: nat, img: seq<byte>, off: nat, data: seq<byte>)
    requires at + |img| <= |s| && off + |data| <= |img|
    ensures Splice(Splice(s, at, img), at + off, data) == Splice(s, at, Splice(img, off, data))
  {
  }

  lemma {:induction false} SpliceOwn(s: seq<byte>, at: nat, size: nat)
    requires at + size <= |s|
    ensures Splice(s, at, s[at..at + size]) == s
  {
  }

  lemma {:induction false} BootPrefix(img: seq<byte>)
    requires |img| >= 512
    ensures var boot := img[..512];
            && boot[510] == img[510] && boot[511] == img[511]
            && GetLe16(boot, 11) == GetLe16(img, 11) && GetLe16(boot, 50) == GetLe16(img, 50)
  {
  }

  lemma {:induction false} PatchOnce(s: seq<byte>, at: nat, img: seq<byte>, off: nat, data: seq<byte>)
    requires off + |data| <= |img| && at + |img| <= |s| && s[at..at + |img|] == img
    ensures Splice(s, at + off, data) == Splice(s, at, Splice(img, off, data))
  {
    SpliceOwn(s, at, |img|);
    SpliceInside(s, at, img, off, data);
  }

  /** The second write lands in the already patched copy. */
  lemma {:induction false} PatchTwice(s: seq<byte>, at: nat, img: seq<byte>, off: nat, back: nat, data: seq<byte>)
    requires off + |data| <= |img| && back + |data| <= |img|
    requires at + |img| <= |s| && s[at..at + |img|] == img
    ensures Splice(Splice(s, at + off, data), at + back, data)
         == Splice(s, at, Splice(Splice(img, off, data), back, data))
  {
    PatchOnce(s, at, img, off, data);
    SpliceInside(s, at, Splice(img, off, data), back, data);
  }

  /** The reads: whether the boot sector may be patched, and where its backup is. */
  method CheckBoot(boot: seq<byte>) returns (ok: bool, backup: nat)
    requires |boot| == 512
    ensures ok <==> boot[510] == 0x55 && boot[511] == 0xAA && GetLe16(boot, 11) == 512
    ensures backup == GetLe16(boot, 50)
  {
    ok := boot[510] == 0x55 && boot[511] == 0xAA && GetLe16(boot, 11) == 512;
    backup := GetLe16(boot, 50);
  }

  /** The two `seek` and `write` pairs. */
  method WriteHidden(a: array<byte>, at: nat, backup: nat, data: seq<byte>)
    requires at + 28 + |data| <= a.Length && at + backup * 512 + 28 + |data| <= a.Length
    modifies a
    ensures a[..] == var one := Splice(old(a[..]), at + 28, data);
                     if backup == 0 then one else Splice(one, at + backup * 512 + 28, data)
  {
    hide Splice;
    WriteAt(a, at + 28, data);
    if backup != 0 { WriteAt(a, at + backup * 512 + 28, data); }
  }

  lemma {:induction false} PatchableBoot(img: seq<byte>, boot: seq<byte>)
    requires |img| >= 512 && boot == img[..512]
    ensures Patchable(img) <==>
            && boot[510] == 0x55 && boot[511] == 0xAA && GetLe16(boot, 11) == 512
            && (GetLe16(boot, 50) == 0 || (GetLe16(boot, 50) + 1) * 512 <= |img|)
    ensures BackupSector(img) == GetLe16(boot, 50)
  {
    BootPrefix(img);
  }

  lemma {:induction false} PatchedIs(img: seq<byte>, start: nat)
    requires Patchable(img) && start < LBA_LIMIT
    ensures var b, one := BackupSector(img), Splice(img, 28, Le32(start));
            Patched(img, start) == if b == 0 then one else Splice(one, b * 512 + 28, Le32(start))
  {
    hide Splice, Le32, GetLe16;
  }

  lemma {:induction false} PatchWrites(s: seq<byte>, at: nat, img: seq<byte>, start: nat)
    requires Patchable(img) && start < LBA_LIMIT && at + |img| <= |s| && s[at..at + |img|] == img
    ensures var b := BackupSector(img);
            var one := Splice(s, at + 28, Le32(start));
            Splice(s, at, Patched(img, start)) == if b == 0 then one else Splice(one, at + b * 512 + 28, Le32(start))
  {
    var b, data := BackupSector(img), Le32(start);
    PatchedIs(img, start);
    hide Splice, Le32, Patched, BackupSector;
    if b == 0 { PatchOnce(s, at, img, 28, data); } else { PatchTwice(s, at, img, 28, b * 512 + 28, data); }
  }

  method PatchFatHiddenSectors(a: array<byte>, at: nat, size: nat, start: nat) returns (ok: bool)
    requires size >= 512 && at + size <= a.Length
    modifies a
    ensures ok <==> Patchable(old(a[at..at + size])) && start < LBA_LIMIT
    ensures ok ==> a[..] == Splice(old(a[..]), at, Patched(old(a[at..at + size]), start))
  {
    hide Splice, Le32, Patched, GetLe16, Patchable, BackupSector;
    ghost var was := a[..];
    ghost var img := a[at..at + size];
    assert img == was[at..at + size];
    var boot := a[at..at + 512];
    PatchableBoot(img, boot);
    var signed, backup := CheckBoot(boot);
    if !signed || start >= LBA_LIMIT { return false; }
    if backup != 0 && (backup + 1) * 512 > size {
      WriteAt(a, at + 28, Le32(start));
      return false;
    }
    PatchWrites(was, at, img, start);
    WriteHidden(a, at, backup, Le32(start));
    return true;
  }

  // ----- one partition of a composed disk -----

  predicate PartitionReady(img: seq<byte>, patch: bool, start: nat)
  {
    patch ==> Patchable(img) && start < LBA_LIMIT
  }

  /** The bytes a partition holds on the finished disk. */
  function Content(img: seq<byte>, patch: bool, start: nat): (r: seq<byte>)
    requires PartitionReady(img, patch, start)
    ensures |r| == |img|
  {
    if patch then Patched(img, start) else img
  }

  /** Copy an image into place, then patch it there. */
  method WritePartition(a: array<byte>, at: nat, img: seq<byte>, patch: bool, start: nat) returns (ok: bool)
    requires |img| >= 512 && at + |img| <= a.Length
    modifies a
    ensures ok <==> PartitionReady(img, patch, start)
    ensures ok ==> a[..] == Splice(old(a[..]), at, Content(img, patch, start))
  {
    ghost var before := a[..];
    WriteAt(a, at, img);
    if patch {
      SpliceReadsBack(before, at, img);
      assert a[at..at + |img|] == a[..][at..at + |img|] == img;
      ok := PatchFatHiddenSectors(a, at, |img|, start);
      if ok { SpliceTwice(before, at, img, Patched(img, start)); }
    } else {
      ok := true;
    }
  }

  lemma {:induction false} SpliceTwice(s: seq<byte>, at: nat, x: seq<byte>, y: seq<byte>)
    requires |x| == |y| && at + |x| <= |s|
    ensures Splice(Splice(s, at, x), at, y) == Splice(s, at, y)
  {
  }
}
