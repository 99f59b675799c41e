/** Sequences of `seek` and `write` calls on one image. */
module Regions {
  import opened Bytes

  datatype Region = Region(at: nat, data: seq<byte>)
  {
    function End(): nat { at + |data| }
  }

  predicate Fits(size: nat, rs: seq<Region>) { forall i :: 0 <= i < |rs| ==> rs[i].End() <= size }

  predicate Apart(a: Region, b: Region) { a.End() <= b.at || b.End() <= a.at }

  ghost predicate Disjoint(rs: seq<Region>)
  {
    forall i, j :: 0 <= i < j < |rs| ==> Apart(rs[i], rs[j])
  }

  /** The region is in place. */
  ghost predicate HoldsRegion(img: seq<byte>, r: Region) { r.End() <= |img| && img[r.at..r.End()] == r.data }

  /** The image after all the writes, in order. */
  function WriteAll(img: seq<byte>, rs: seq<Region>): (r: seq<byte>)
    requires Fits(|img|, rs)
    ensures |r| == |img|
  {
    if rs == [] then img
    else
      var n := |rs| - 1;
      assert rs[n].End() <= |img|;
      Splice(WriteAll(img, rs[..n]), rs[n].at, rs[n].data)
  }

  lemma {:induction false} WriteNone(img: seq<byte>)
    ensures Fits(|img|, []) && WriteAll(img, []) == img
  {
  }

  lemma {:induction false} WriteOneMore(img: seq<byte>, rs: seq<Region>, r: Region)
    requires Fits(|img|, rs) && r.End() <= |img|
    ensures Fits(|img|, rs + [r])
    ensures WriteAll(img, rs + [r]) == Splice(WriteAll(img, rs), r.at, r.data)
  {
    assert (rs + [r])[..|rs|] == rs;
  }

  method WriteRegions(a: array<byte>, rs: seq<Region>)
    requires Fits(a.Length, rs)
    modifies a
    ensures a[..] == WriteAll(old(a[..]), rs)
  {
    for i := 0 to |rs|
      invariant a[..] == WriteAll(old(a[..]), rs[..i])
    {
      assert rs[..i + 1] == rs[..i] + [rs[i]];
      assert rs[i].End() <= a.Length;
      WriteOneMore(old(a[..]), rs[..i], rs[i]);
      WriteAt(a, rs[i].at, rs[i].data);
    }
    assert rs[..|rs|] == rs;
  }

  /** Bytes that no write covers stay as they were. */
  lemma {:induction false} Untouched(img: seq<byte>, rs: seq<Region>, lo: nat, hi: nat)
    requires Fits(|img|, rs) && lo <= hi <= |img|
    requires forall i :: 0 <= i < |rs| ==> hi <= rs[i].at || rs[i].End() <= lo
    ensures WriteAll(img, rs)[lo..hi] == img[lo..hi]
  {
    if rs != [] {
      var n := |rs| - 1;
      assert rs[n].End() <= |img|;
      Untouched(img, rs[..n], lo, hi);
      SpliceKeeps(WriteAll(img, rs[..n]), rs[n].at, rs[n].data, lo, hi);
    }
  }

  /** A region that no later write touches reads back. */
  lemma {:induction false} ReadsBack(img: seq<byte>, rs: seq<Region>, i: nat)
    requires Fits(|img|, rs) && i < |rs|
    requires forall j :: i < j < |rs| ==> Apart(rs[i], rs[j])
    ensures rs[i].End() <= |img| && WriteAll(img, rs)[rs[i].at..rs[i].End()] == rs[i].data
  {
    var n := |rs| - 1;
    assert rs[n].End() <= |img| && rs[i].End() <= |img|;
    if i < n {
      assert Apart(rs[i], rs[n]);
      ReadsBack(img, rs[..n], i);
      SpliceKeeps(WriteAll(img, rs[..n]), rs[n].at, rs[n].data, rs[i].at, rs[i].End());
    } else {
      SpliceReadsBack(WriteAll(img, rs[..n]), rs[n].at, rs[n].data);
    }
  }

  lemma {:induction false} WriteTwo(img: seq<byte>, a: seq<Region>, b: seq<Region>)
    requires Fits(|img|, a) && Fits(|img|, b)
    ensures Fits(|img|, a + b) && WriteAll(WriteAll(img, a), b) == WriteAll(img, a + b)
    decreases |b|
  {
    if b == [] {
      assert a + b == a;
    } else {
      hide WriteAll, Splice;
      var n := |b| - 1;
      var front, last := b[..n], b[n];
      assert b == front + [last] && a + b == a + front + [last] && last.End() <= |img|;
      WriteTwo(img, a, front);
      WriteOneMore(img, a + front, last);
      WriteOneMore(WriteAll(img, a), front, last);
    }
  }

  lemma {:induction false} WriteInParts(img: seq<byte>, a: seq<Region>, b: seq<Region>, c: seq<Region>)
    requires Fits(|img|, a) && Fits(|img|, b) && Fits(|img|, c)
    ensures Fits(|img|, a + b + c) && WriteAll(WriteAll(WriteAll(img, a), b), c) == WriteAll(img, a + b + c)
  {
    hide WriteAll;
    WriteTwo(img, a, b);
    WriteTwo(img, a + b, c);
  }
}
