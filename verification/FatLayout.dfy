/** `_calculate_layout`: sizing the two FATs. */
module FatLayout {
  import opened Bytes

  const SECTOR_SIZE := 512
  const RESERVED_SECTORS := 32
  const FAT_COUNT := 2
  const FAT32_MIN_CLUSTERS := 65_525

  function DataSectors(total: int, fat: int): int { total - RESERVED_SECTORS - FAT_COUNT * fat }

  /** A FAT of `fat` sectors has an entry for every data cluster and the two reserved ones. */
  predicate Addresses(total: int, fat: int) { fat * SECTOR_SIZE / 4 >= DataSectors(total, fat) + 2 }

  function LeastFat(total: int): int { Max(1, (total - 30 + 129) / 130) }

  lemma {:induction false} LeastFatIsLeast(total: int)
    ensures LeastFat(total) >= 1 && Addresses(total, LeastFat(total))
    ensures forall fat :: 1 <= fat ==> (Addresses(total, fat) <==> LeastFat(total) <= fat)
  {
    assert forall fat :: Addresses(total, fat) <==> 130 * fat >= total - 30;
  }

  method CalculateLayout(total: int) returns (r: Option<(int, int)>)
    ensures r == if DataSectors(total, LeastFat(total)) < FAT32_MIN_CLUSTERS then None
                 else Some((LeastFat(total), DataSectors(total, LeastFat(total))))
  {
    LeastFatIsLeast(total);
    var low := 1;
    var high := -(-((total - RESERVED_SECTORS) * 4) / SECTOR_SIZE) + 1;
    while low < high
      invariant 1 <= low <= LeastFat(total)
      invariant LeastFat(total) <= high || (high <= 1 && low == LeastFat(total))
    {
      var candidate := (low + high) / 2;
      if candidate * SECTOR_SIZE / 4 >= DataSectors(total, candidate) + 2 {
        assert Addresses(total, candidate);
        high := candidate;
      } else {
        assert !Addresses(total, candidate);
        low := candidate + 1;
      }
    }
    var clusters := DataSectors(total, low);
    if clusters < FAT32_MIN_CLUSTERS { return None; }
    return Some((low, clusters));
  }

  /** An accepted layout tiles the image, and the FAT covers every cluster; images are accepted
      from 66,581 sectors on, hence at every size from 34 MiB. */
  lemma {:induction false} LayoutFacts(total: int)
    ensures DataSectors(total, LeastFat(total)) >= FAT32_MIN_CLUSTERS <==> total >= 66_581
    ensures total >= 66_581 ==>
              var fat, clusters := LeastFat(total), DataSectors(total, LeastFat(total));
              && RESERVED_SECTORS + FAT_COUNT * fat + clusters == total
              && clusters + 2 <= fat * SECTOR_SIZE / 4
    ensures forall mib :: 34 <= mib ==> mib * 1024 * 1024 / SECTOR_SIZE >= 66_581
  {
    LeastFatIsLeast(total);
  }
}
