/** Which bytes are a PPM image, written out, and that the validator accepts exactly these. */
module PpmFormat {
  import opened Bytes
  import opened Ppm

  // ----- the format -----

  /** Tab, newline, vertical tab, form feed, carriage return or blank. */
  predicate Blank(b: byte) { b == 9 || b == 10 || b == 11 || b == 12 || b == 13 || b == 32 }

  /** Bytes `a` to `b` are blanks and comments, each from `#` to the end of its line. */
  ghost predicate Gap(data: Data, a: int, b: int)
    decreases b - a
  {
    && 0 <= a <= b <= |data|
    && (|| a == b
        || (Blank(data[a]) && Gap(data, a + 1, b))
        || (data[a] == 35 && exists k :: a < k < b && LineEnds(data, a, k) && Gap(data, k + 1, b)))
  }

  /** `k` is the first newline behind `a`. */
  ghost predicate LineEnds(data: Data, a: int, k: int)
  {
    0 <= a < k < |data| && data[k] == 10 && forall j :: a < j < k ==> data[j] != 10
  }

  /** From `a` on there is nothing more, save a gap whose last comment may lack its newline. */
  ghost predicate EndGap(data: Data, a: int)
  {
    exists k :: Gap(data, a, k) && (k == |data| || (data[k] == 35 && forall j :: k < j < |data| ==> data[j] != 10))
  }

  predicate Inky(b: byte) { !Blank(b) && b != 35 }

  /** Bytes `s` to `e` are a word that a blank, a comment or the end of the data ends. */
  ghost predicate Word(data: Data, s: int, e: int)
  {
    && 0 <= s < e <= |data| && (forall k :: s <= k < e ==> Inky(data[k])) && (e < |data| ==> !Inky(data[e]))
  }

  /** ... and the decimal numeral of `n`. */
  ghost predicate Numeral(data: Data, s: int, e: int, n: nat)
  {
    Word(data, s, e) && IsNumeral(data[s..e]) && Value(data[s..e]) == n
  }

  /** Bytes `a` to `b` are gaps and the numerals of `ns`. */
  ghost predicate Numbers(data: Data, a: int, ns: seq<nat>, b: int)
    decreases |ns|
  {
    if ns == [] then a == b
    else exists s, e :: Gap(data, a, s) && Numeral(data, s, e, ns[0]) && Numbers(data, e, ns[1..], b)
  }

  /** The magic word `P3` or `P6`, width, height and maximum; `at` is the end of the last one. */
  ghost predicate HeaderIs(data: Data, magic: byte, r: Raster, at: int)
  {
    exists s :: Gap(data, 0, s) && Word(data, s, s + 2) && data[s] == 80 && data[s + 1] == magic
                && Numbers(data, s + 2, [r.width, r.height, r.maximum], at)
  }

  /** A text image: the samples are numerals. */
  ghost predicate IsP3(data: Data, r: Raster)
  {
    ValidRaster(r) && exists at, b :: HeaderIs(data, 51, r, at) && Numbers(data, at, r.samples, b) && EndGap(data, b)
  }

  /** Where the samples start: behind one blank, or behind CR LF. */
  function BodyStart(data: Data, at: int): int
    requires 0 <= at < |data|
  {
    if data[at] == 13 && at + 1 < |data| && data[at + 1] == 10 then at + 2 else at + 1
  }

  ghost predicate BodyIs(data: Data, at: int, r: Raster)
  {
    && 0 <= at < |data| && Blank(data[at])
    && var start := BodyStart(data, at);
       if r.maximum < 256 then
         |data| == start + |r.samples| && forall i :: 0 <= i < |r.samples| ==> data[start + i] == r.samples[i]
       else
         && |data| == start + 2 * |r.samples|
         && forall i :: 0 <= i < |r.samples| ==> WordAt(data, start + 2 * i) == r.samples[i]
  }

  function WordAt(data: Data, k: int): int
    requires 0 <= k && k + 1 < |data|
  {
    256 * (data[k] as int) + data[k + 1] as int
  }

  /** A binary image: the samples are bytes, or two bytes each, the high one first. */
  ghost predicate IsP6(data: Data, r: Raster)
  {
    ValidRaster(r) && exists at :: HeaderIs(data, 54, r, at) && BodyIs(data, at, r)
  }

  // ----- gaps -----

  lemma {:induction false} LineEndIs(data: Data, from: nat, k: nat)
    requires from <= k <= |data| && (forall j :: from <= j < k ==> data[j] != 10) && (k < |data| ==> data[k] == 10)
    ensures LineEnd(data, from) == k
    decreases k - from
  {
    if from < k { LineEndIs(data, from + 1, k); }
  }

  lemma {:induction false} LineEndFinds(data: Data, from: nat)
    requires from <= |data|
    ensures var k := LineEnd(data, from);
            (forall j :: from <= j < k ==> data[j] != 10) && (k < |data| ==> data[k] == 10)
    decreases |data| - from
  {
    if from < |data| && data[from] != 10 { LineEndFinds(data, from + 1); }
  }

  /** A gap that something inky or the end follows is skipped. */
  lemma {:induction false} SkipsGap(data: Data, a: nat, b: nat)
    requires Gap(data, a, b) && (b < |data| ==> Inky(data[b]))
    ensures Skip(data, a) == b
    decreases b - a
  {
    if a < b {
      if Blank(data[a]) && Gap(data, a + 1, b) {
        SkipsGap(data, a + 1, b);
      } else {
        var k :| a < k < b && LineEnds(data, a, k) && Gap(data, k + 1, b);
        LineEndIs(data, a + 1, k);
        SkipsGap(data, k + 1, b);
      }
    }
  }

  /** What is skipped is a gap, but that the data may end within a comment. */
  lemma {:induction false} SkippedIsGap(data: Data, a: nat)
    requires a <= |data|
    ensures Skip(data, a) < |data| ==> Gap(data, a, Skip(data, a))
    ensures Skip(data, a) == |data| ==> EndGap(data, a)
    decreases |data| - a
  {
    var b := Skip(data, a);
    if a == |data| {
      assert Gap(data, a, a);
    } else if Blank(data[a]) {
      SkippedIsGap(data, a + 1);
      if b == |data| { EndGapGrows(data, a, a + 1); }
    } else if data[a] == 35 {
      LineEndFinds(data, a + 1);
      var k := LineEnd(data, a + 1);
      if k == |data| {
        assert Gap(data, a, a);
      } else {
        assert LineEnds(data, a, k);
        SkippedIsGap(data, k + 1);
        if b == |data| { EndGapGrows(data, a, k + 1); }
      }
    } else {
      assert Gap(data, a, a);
    }
  }

  lemma {:induction false} EndGapGrows(data: Data, a: nat, b: nat)
    requires a < b <= |data| && EndGap(data, b)
    requires (Blank(data[a]) && b == a + 1) || (data[a] == 35 && LineEnds(data, a, b - 1))
    ensures EndGap(data, a)
  {
    var k :| Gap(data, b, k) && (k == |data| || (data[k] == 35 && forall j :: k < j < |data| ==> data[j] != 10));
    if data[a] == 35 { assert LineEnds(data, a, b - 1) && Gap(data, b - 1 + 1, k); }
    assert Gap(data, a, k);
  }

  lemma {:induction false} SkipsEnd(data: Data, a: nat, k: nat)
    requires Gap(data, a, k) && k < |data| && data[k] == 35 && forall j :: k < j < |data| ==> data[j] != 10
    ensures Skip(data, a) == |data|
    decreases k - a
  {
    if a == k {
      LineEndIs(data, a + 1, |data|);
    } else if Blank(data[a]) && Gap(data, a + 1, k) {
      SkipsEnd(data, a + 1, k);
    } else {
      var m :| a < m < k && LineEnds(data, a, m) && Gap(data, m + 1, k);
      LineEndIs(data, a + 1, m);
      SkipsEnd(data, m + 1, k);
    }
  }

  lemma {:induction false} EndIff(data: Data, a: nat)
    requires a <= |data|
    ensures Skip(data, a) == |data| <==> EndGap(data, a)
  {
    SkippedIsGap(data, a);
    if EndGap(data, a) {
      var k :| Gap(data, a, k) && (k == |data| || (data[k] == 35 && forall j :: k < j < |data| ==> data[j] != 10));
      if k == |data| { SkipsGap(data, a, k); } else { SkipsEnd(data, a, k); }
    }
  }

  // ----- words and numbers -----

  lemma {:induction false} TokenEndIs(data: Data, pos: nat, e: nat)
    requires pos <= e <= |data| && (forall k :: pos <= k < e ==> Inky(data[k])) && (e < |data| ==> !Inky(data[e]))
    ensures TokenEnd(data, pos) == e
    decreases e - pos
  {
    if pos < e { TokenEndIs(data, pos + 1, e); }
  }

  lemma {:induction false} TokenEndFinds(data: Data, pos: nat)
    requires pos <= |data|
    ensures var e := TokenEnd(data, pos);
            (forall k :: pos <= k < e ==> Inky(data[k])) && (e < |data| ==> !Inky(data[e]))
    decreases |data| - pos
  {
    if pos < |data| && Inky(data[pos]) { TokenEndFinds(data, pos + 1); }
  }

  lemma {:induction false} WordReads(data: Data, pos: nat, s: nat, e: nat)
    requires Gap(data, pos, s) && Word(data, s, e)
    ensures Token(data, pos) == Some((data[s..e], e))
  {
    SkipsGap(data, pos, s);
    TokenEndIs(data, s, e);
  }

  lemma {:induction false} ReadWord(data: Data, pos: nat) returns (s: nat)
    requires pos <= |data| && Token(data, pos).Some?
    ensures var e := Token(data, pos).value.1;
            Gap(data, pos, s) && Word(data, s, e) && Token(data, pos).value.0 == data[s..e]
  {
    s := Skip(data, pos);
    SkippedIsGap(data, pos);
    TokenEndFinds(data, s);
  }

  lemma {:induction false} NumeralReads(data: Data, pos: nat, s: nat, e: nat, n: nat)
    requires Gap(data, pos, s) && Numeral(data, s, e, n)
    ensures Number(data, pos) == Some((n, e))
  {
    hide Gap, Token;
    WordReads(data, pos, s, e);
  }

  lemma {:induction false} ReadNumeral(data: Data, pos: nat) returns (s: nat)
    requires pos <= |data| && Number(data, pos).Some?
    ensures var (n, e) := Number(data, pos).value; Gap(data, pos, s) && Numeral(data, s, e, n)
  {
    hide Gap, Token, Word;
    s := ReadWord(data, pos);
  }

  lemma {:induction false} NumbersRead(data: Data, pos: nat, ns: seq<nat>, b: int, maximum: nat)
    requires pos <= |data| && Numbers(data, pos, ns, b) && AllWithin(ns, |ns|, maximum)
    ensures 0 <= b <= |data| && PlainSamples(data, pos, |ns|, maximum) == Some((ns, b as nat))
    decreases |ns|
  {
    if ns != [] {
      var s, e :| Gap(data, pos, s) && Numeral(data, s, e, ns[0]) && Numbers(data, e, ns[1..], b);
      NumeralReads(data, pos, s, e, ns[0]);
      hide Gap, Numeral, Number;
      NumbersRead(data, e, ns[1..], b, maximum);
      assert [ns[0]] + ns[1..] == ns;
    }
  }

  lemma {:induction false} NumbersCons(data: Data, a: int, s: int, e: int, n: nat, ns: seq<nat>, b: int)
    requires Gap(data, a, s) && Numeral(data, s, e, n) && Numbers(data, e, ns, b)
    ensures Numbers(data, a, [n] + ns, b)
  {
    assert ([n] + ns)[1..] == ns;
    hide Gap, Numeral;
  }

  lemma {:induction false} PlainFirst(data: Data, pos: nat, count: nat, maximum: nat)
    requires pos <= |data| && count > 0 && PlainSamples(data, pos, count, maximum).Some?
    ensures Number(data, pos).Some? && Number(data, pos).value.0 <= maximum
    ensures var x := Number(data, pos).value; var rest := PlainSamples(data, x.1, count - 1, maximum);
            rest.Some? && PlainSamples(data, pos, count, maximum) == Some(([x.0] + rest.value.0, rest.value.1))
  {
    hide Number;
  }

  lemma {:induction false} ReadNumbers(data: Data, pos: nat, count: nat, maximum: nat) returns (ns: seq<nat>)
    requires pos <= |data| && PlainSamples(data, pos, count, maximum).Some?
    ensures var p := PlainSamples(data, pos, count, maximum).value;
            |ns| == count && ns == p.0 && AllWithin(ns, |ns|, maximum) && Numbers(data, pos, ns, p.1)
    decreases count
  {
    if count == 0 {
      ns := [];
    } else {
      PlainFirst(data, pos, count, maximum);
      var x := Number(data, pos).value;
      var s := ReadNumeral(data, pos);
      hide Gap, Numeral, Number, PlainSamples, Numbers;
      var rest := ReadNumbers(data, x.1, count - 1, maximum);
      NumbersCons(data, pos, s, x.1, x.0, rest, PlainSamples(data, pos, count, maximum).value.1);
      ns := [x.0] + rest;
    }
  }

  ghost predicate ThreeRead(data: Data, a: nat, w: nat, p: nat, h: nat, q: nat, m: nat, at: int)
    requires a <= |data| && p <= |data| && q <= |data|
  {
    && 0 <= at && Number(data, a) == Some((w, p)) && Number(data, p) == Some((h, q))
    && Number(data, q) == Some((m, at as nat))
  }

  lemma {:induction false} ThreeNumbers(data: Data, a: nat, w: nat, h: nat, m: nat, at: int)
    requires a <= |data| && Numbers(data, a, [w, h, m], at)
    ensures 0 <= at <= |data|
    ensures exists p: nat, q: nat ::
              p <= |data| && q <= |data| && ThreeRead(data, a, w, p, h, q, m, at)
  {
    hide Gap, Numeral, Number;
    assert [w, h, m][1..] == [h, m] && [h, m][1..] == [m] && [m][1..] == [];
    var s, p :| Gap(data, a, s) && Numeral(data, s, p, w) && Numbers(data, p, [h, m], at);
    var t, q :| Gap(data, p, t) && Numeral(data, t, q, h) && Numbers(data, q, [m], at);
    var v, x :| Gap(data, q, v) && Numeral(data, v, x, m) && Numbers(data, x, [], at);
    NumeralBounds(data, a, s, p, w);
    NumeralBounds(data, p, t, q, h);
    NumeralBounds(data, q, v, x, m);
    NumeralReads(data, a, s, p, w);
    NumeralReads(data, p, t, q, h);
    NumeralReads(data, q, v, x, m);
    assert ThreeRead(data, a, w, p, h, q, m, at);
  }

  lemma {:induction false} NumeralBounds(data: Data, a: int, s: int, e: int, n: nat)
    requires Gap(data, a, s) && Numeral(data, s, e, n)
    ensures 0 <= a <= s < e <= |data|
  {
  }

  lemma {:induction false} NumbersFrom(data: Data, a: nat, w: nat, p: nat, h: nat, q: nat, m: nat, at: nat)
    requires a <= |data| && p <= |data| && q <= |data|
    requires ThreeRead(data, a, w, p, h, q, m, at)
    ensures Numbers(data, a, [w, h, m], at)
  {
    var s := ReadNumeral(data, a);
    var t := ReadNumeral(data, p);
    var v := ReadNumeral(data, q);
    assert Numbers(data, at, [], at);
    assert [m] + [] == [m] && [h] + [m] == [h, m] && [w] + [h, m] == [w, h, m];
    hide Gap, Numeral, Number, Numbers;
    NumbersCons(data, q, v, at, m, [], at);
    NumbersCons(data, p, t, q, h, [m], at);
    NumbersCons(data, a, s, p, w, [h, m], at);
  }

  // ----- the header -----

  lemma {:induction false} MagicIs(data: Data, s: nat, magic: byte)
    requires s + 2 <= |data|
    ensures data[s..s + 2] == [80, magic] <==> data[s] == 80 && data[s + 1] == magic
  {
    assert data[s..s + 2] == [data[s], data[s + 1]];
  }

  /** A header is read back, and refused if and only if it has too many pixels. */
  lemma {:induction false} HeaderReads(data: Data, magic: byte, r: Raster, at: int, maxPixels: int)
    requires HeaderIs(data, magic, r, at) && (magic == 51 || magic == 54)
    requires r.width > 0 && r.height > 0 && 0 < r.maximum <= 65535
    ensures 0 <= at <= |data|
    ensures ReadHeader(data, maxPixels) ==
            if r.width * r.height > maxPixels then None
            else Some(Header(magic == 54, r.width, r.height, r.maximum, at))
  {
    var s :| Gap(data, 0, s) && Word(data, s, s + 2) && data[s] == 80 && data[s + 1] == magic
             && Numbers(data, s + 2, [r.width, r.height, r.maximum], at);
    WordReads(data, 0, s, s + 2);
    MagicIs(data, s, magic);
    hide Gap, Numbers, Number, Token;
    ThreeNumbers(data, s + 2, r.width, r.height, r.maximum, at);
    var p: nat, q: nat :|
      p <= |data| && q <= |data| && ThreeRead(data, s + 2, r.width, p, r.height, q, r.maximum, at);
    hide Word;
    HeaderFrom(data, magic, s + 2, r.width, p, r.height, q, r.maximum, at, maxPixels);
  }

  lemma {:induction false} HeaderFrom(
      data: Data, magic: byte, a: nat, w: nat, p: nat, h: nat, q: nat, m: nat, t: nat, maxPixels: int)
    requires a <= |data| && p <= |data| && q <= |data| && w > 0 && h > 0 && 0 < m <= 65535
    requires magic == 51 || magic == 54
    requires Token(data, 0) == Some(([80, magic], a)) && ThreeRead(data, a, w, p, h, q, m, t)
    ensures ReadHeader(data, maxPixels) == if w * h <= maxPixels then Some(Header(magic == 54, w, h, m, t)) else None
  {
    hide Token, Number;
    MulLe(1, h, w);
    MulLe(1, w, h);
    assert [80, magic][1] == magic && [80, 51][1] == 51 && [80, 54][1] == 54;
    assert [80, magic] == [80, 54] <==> magic == 54;
  }

  lemma {:induction false} HeaderParts(data: Data, maxPixels: int) returns (a: nat, p: nat, q: nat)
    requires ReadHeader(data, maxPixels).Some?
    ensures var h := ReadHeader(data, maxPixels).value;
            && a <= |data| && p <= |data| && q <= |data|
            && Token(data, 0) == Some(([80, if h.binary then 54 else 51], a))
            && ThreeRead(data, a, h.width, p, h.height, q, h.maximum, h.at)
            && h.width > 0 && h.height > 0 && 0 < h.maximum <= 65535 && h.width * h.height <= maxPixels
  {
    a := Token(data, 0).value.1;
    p := Number(data, a).value.1;
    q := Number(data, p).value.1;
    hide Token, Number;
  }

  /** What is read as a header is one. */
  lemma {:induction false} ReadHeaderIs(data: Data, maxPixels: int, samples: seq<nat>)
    requires ReadHeader(data, maxPixels).Some?
    ensures var h := ReadHeader(data, maxPixels).value;
            && HeaderIs(data, if h.binary then 54 else 51, Raster(h.width, h.height, h.maximum, samples), h.at)
            && h.width > 0 && h.height > 0 && 0 < h.maximum <= 65535 && h.width * h.height <= maxPixels
  {
    var h := ReadHeader(data, maxPixels).value;
    var magic := if h.binary then 54 else 51;
    var a, p, q := HeaderParts(data, maxPixels);
    var s := ReadWord(data, 0);
    hide Token, Number, Gap, ReadHeader, ThreeRead, Numbers;
    MagicWord(data, s, a, magic);
    NumbersFrom(data, a, h.width, p, h.height, q, h.maximum, h.at);
  }

  lemma {:induction false} MagicWord(data: Data, s: nat, a: nat, magic: byte)
    requires s <= a <= |data| && data[s..a] == [80, magic]
    ensures a == s + 2 && data[s] == 80 && data[s + 1] == magic
  {
    assert |data[s..a]| == 2;
    MagicIs(data, s, magic);
  }

  // ----- the samples -----

  lemma {:induction false} BodyReads(data: Data, at: nat, r: Raster)
    requires 0 < r.maximum <= 65535 && AllWithin(r.samples, |r.samples|, r.maximum) && BodyIs(data, at, r)
    ensures Binary(data, at, |r.samples|, r.maximum) == Some(r.samples)
  {
    var start, n, w := BodyStart(data, at), |r.samples|, Width(r.maximum);
    RasterStartIs(data, at);
    assert n * 1 == n && n * 2 == 2 * n;
    assert |data| - start == n * w;
    var got := BinarySamples(data, start, n, w);
    forall i | 0 <= i < n ensures got[i] == r.samples[i] { BinaryAt(data, start, n, w, i); }
    assert got == r.samples;
    hide BinarySamples;
  }

  lemma {:induction false} RasterStartIs(data: Data, at: nat)
    requires at < |data|
    ensures RasterStart(data, at) == BodyStart(data, at)
  {
    if at + 2 <= |data| { assert data[at..at + 2] == [data[at], data[at + 1]]; }
    assert [13, 10][0] == 13 && [13, 10][1] == 10;
  }

  lemma {:induction false} BinaryAt(data: Data, start: nat, n: nat, w: nat, i: nat)
    requires 1 <= w <= 2 && start + n * w == |data| && i < n
    ensures w == 1 ==> start + i < |data| && BinarySamples(data, start, n, w)[i] == data[start + i]
    ensures w == 2 ==> start + 2 * i + 1 < |data| && BinarySamples(data, start, n, w)[i] == WordAt(data, start + 2 * i)
  {
    MulLe(i + 1, n, w);
    assert i * 1 == i && i * 2 == 2 * i;
  }

  lemma {:induction false} ReadBody(data: Data, at: nat, count: nat, maximum: nat, r: Raster)
    requires at <= |data| && 0 < maximum <= 65535 && Binary(data, at, count, maximum).Some?
    requires |r.samples| == count && r.maximum == maximum
    requires forall i :: 0 <= i < count ==> r.samples[i] == Binary(data, at, count, maximum).value[i]
    ensures BodyIs(data, at, r) && AllWithin(r.samples, count, maximum)
  {
    var start, w := BodyStart(data, at), Width(maximum);
    RasterStartIs(data, at);
    assert count * 1 == count && count * 2 == 2 * count;
    var got := BinarySamples(data, start, count, w);
    assert Binary(data, at, count, maximum) == Some(got);
    hide BinarySamples, Binary;
    forall i | 0 <= i < count
      ensures w == 1 ==> start + i < |data| && got[i] == data[start + i]
      ensures w == 2 ==> start + 2 * i + 1 < |data| && got[i] == WordAt(data, start + 2 * i)
    {
      BinaryAt(data, start, count, w, i);
    }
  }

  // ----- the verdict -----

  /** What an image of raster `r` must yield. */
  ghost function Expected(r: Raster, binary: bool, threshold: nat, maxPixels: int): Option<Info>
    requires ValidRaster(r)
  {
    var pixels := r.width * r.height;
    var colours := |Colours(r.samples, pixels)|;
    if pixels > maxPixels || colours < threshold then None
    else Some(Info(binary, r.width, r.height, r.maximum, pixels, Min(threshold, colours)))
  }

  /** A text image is judged by its size and its number of colours alone ... */
  lemma {:induction false} P3IsJudged(data: Data, r: Raster, threshold: int, maxBytes: int, maxPixels: int)
    requires IsP3(data, r) && threshold > 0 && maxPixels > 0 && 0 < |data| <= maxBytes
    ensures Validate(data, threshold, maxBytes, maxPixels) == Expected(r, false, threshold, maxPixels)
  {
    var at, b :| HeaderIs(data, 51, r, at) && Numbers(data, at, r.samples, b) && EndGap(data, b);
    HeaderReads(data, 51, r, at, maxPixels);
    NumbersRead(data, at, r.samples, b, r.maximum);
    EndIff(data, b);
    assert Plain(data, at, |r.samples|, r.maximum) == Some(r.samples);
    hide ReadHeader, HeaderIs, Numbers, EndGap, Colours, Plain, Skip, AllWithin;
  }

  /** ... and so is a binary one. */
  lemma {:induction false} P6IsJudged(data: Data, r: Raster, threshold: int, maxBytes: int, maxPixels: int)
    requires IsP6(data, r) && threshold > 0 && maxPixels > 0 && 0 < |data| <= maxBytes
    ensures Validate(data, threshold, maxBytes, maxPixels) == Expected(r, true, threshold, maxPixels)
  {
    var at :| HeaderIs(data, 54, r, at) && BodyIs(data, at, r);
    HeaderReads(data, 54, r, at, maxPixels);
    BodyReads(data, at, r);
    hide ReadHeader, HeaderIs, BodyIs, Colours, Binary, AllWithin;
  }

  lemma {:induction false} NatSamples(data: Data, h: Header) returns (ns: seq<nat>)
    requires h.at <= |data| && Samples(data, h).Some? && 0 < h.maximum <= 65535
    ensures ns == Samples(data, h).value && |ns| == h.width * h.height * 3 && AllWithin(ns, |ns|, h.maximum)
    ensures h.binary ==> BodyIs(data, h.at, Raster(h.width, h.height, h.maximum, ns))
    ensures !h.binary ==> exists b :: Numbers(data, h.at, ns, b) && EndGap(data, b)
  {
    var count := h.width * h.height * 3;
    hide Gap, Numbers, BodyIs, EndGap;
    if h.binary {
      var got := Binary(data, h.at, count, h.maximum).value;
      SamplesAreNat(data, h.at, count, h.maximum);
      ns := got;
      hide Binary;
      ReadBody(data, h.at, count, h.maximum, Raster(h.width, h.height, h.maximum, ns));
    } else {
      var p := PlainSamples(data, h.at, count, h.maximum).value;
      hide PlainSamples;
      ns := ReadNumbers(data, h.at, count, h.maximum);
      EndIff(data, p.1);
    }
  }

  lemma {:induction false} SamplesAreNat(data: Data, at: nat, count: nat, maximum: nat)
    requires at <= |data| && Binary(data, at, count, maximum).Some?
    ensures forall i :: 0 <= i < count ==> Binary(data, at, count, maximum).value[i] >= 0
  {
  }

  /** Whatever is accepted is such an image. */
  lemma {:induction false} OnlyImages(data: Data, threshold: int, maxBytes: int, maxPixels: int) returns (r: Raster)
    requires Validate(data, threshold, maxBytes, maxPixels).Some?
    ensures threshold > 0 && maxPixels > 0 && |data| <= maxBytes
    ensures var info := Validate(data, threshold, maxBytes, maxPixels).value;
            && (if info.binary then IsP6(data, r) else IsP3(data, r))
            && Some(info) == Expected(r, info.binary, threshold, maxPixels)
  {
    var h := ReadHeader(data, maxPixels).value;
    hide ReadHeader, Samples, Colours;
    var ns := NatSamples(data, h);
    r := Raster(h.width, h.height, h.maximum, ns);
    ReadHeaderIs(data, maxPixels, ns);
    hide AllWithin, HeaderIs, BodyIs, EndGap, Numbers;
  }

  // ----- renderings -----

  function Digits(n: nat): (r: Data)
    ensures r != [] && IsNumeral(r)
  {
    if n < 10 then [n + 48] else Digits(n / 10) + [n % 10 + 48]
  }

  lemma {:induction false} DigitsValue(n: nat)
    ensures Value(Digits(n)) == n
  {
    var r := Digits(n);
    if n >= 10 {
      DigitsValue(n / 10);
      assert r[..|r| - 1] == Digits(n / 10);
    } else {
      assert r[..0] == [];
    }
  }

  function Line(n: nat): Data { [10] + Digits(n) }

  function Lines(ns: seq<nat>): Data { if ns == [] then [] else Line(ns[0]) + Lines(ns[1..]) }

  function HeaderText(magic: byte, r: Raster): Data { [80, magic] + Lines([r.width, r.height, r.maximum]) }

  /** Every number on a line of its own. */
  function RenderP3(r: Raster): Data { HeaderText(51, r) + Lines(r.samples) }

  function BodyBytes(r: Raster): (body: Data)
    requires ValidRaster(r)
  {
    if r.maximum < 256 then seq(|r.samples|, i requires 0 <= i < |r.samples| => SampleOf8(r, i))
    else seq(2 * |r.samples|, k requires 0 <= k < 2 * |r.samples| => SampleOf16(r, k))
  }

  function SampleOf8(r: Raster, i: nat): byte
    requires ValidRaster(r) && i < |r.samples| && r.maximum < 256
  {
    r.samples[i]
  }

  function SampleOf16(r: Raster, k: nat): byte
    requires ValidRaster(r) && k < 2 * |r.samples|
  {
    if k % 2 == 0 then r.samples[k / 2] / 256 else r.samples[k / 2] % 256
  }

  function RenderP6(r: Raster): Data
    requires ValidRaster(r)
  {
    HeaderText(54, r) + ([10] + BodyBytes(r))
  }

  lemma {:induction false} LineIs(data: Data, a: nat, e: nat, n: nat)
    requires a <= e <= |data| && data[a..e] == Line(n) && (e < |data| ==> !Inky(data[e]))
    ensures a + 1 <= e && Gap(data, a, a + 1) && Numeral(data, a + 1, e, n)
  {
    var d := Digits(n);
    DigitsValue(n);
    assert data[a] == data[a..e][0] == 10 && Gap(data, a + 1, a + 1);
    assert data[a + 1..e] == data[a..e][1..] == d;
    forall k | a + 1 <= k < e ensures Inky(data[k]) { assert data[k] == d[k - a - 1]; }
  }

  lemma {:induction false} LinesSplit(data: Data, a: nat, ns: seq<nat>)
    requires ns != [] && a + |Lines(ns)| <= |data| && data[a..a + |Lines(ns)|] == Lines(ns)
    ensures var e, b := a + |Line(ns[0])|, a + |Lines(ns)|;
            && e <= b && data[a..e] == Line(ns[0]) && data[e..b] == Lines(ns[1..]) && b == e + |Lines(ns[1..])|
            && (e < b ==> data[e] == 10)
  {
    var all, line, rest := Lines(ns), Line(ns[0]), Lines(ns[1..]);
    assert all == line + rest;
    var e, b := a + |line|, a + |all|;
    SubSlice(data, a, all, 0, |line|);
    SubSlice(data, a, all, |line|, |all|);
    assert all[0..|line|] == line && all[|line|..|all|] == rest;
    if |ns| > 1 { assert rest[0] == 10 && data[e] == data[e..b][0]; }
  }

  lemma {:induction false} LinesAre(data: Data, a: nat, ns: seq<nat>)
    requires a + |Lines(ns)| <= |data| && data[a..a + |Lines(ns)|] == Lines(ns)
    requires a + |Lines(ns)| < |data| ==> !Inky(data[a + |Lines(ns)|])
    ensures Numbers(data, a, ns, a + |Lines(ns)|)
    decreases |ns|
  {
    if ns != [] {
      LinesSplit(data, a, ns);
      var e, b := a + |Line(ns[0])|, a + |Lines(ns)|;
      hide Lines, Line, Numbers, Gap, Numeral;
      LineIs(data, a, e, ns[0]);
      LinesAre(data, e, ns[1..]);
      NumbersCons(data, a, a + 1, e, ns[0], ns[1..], b);
      assert [ns[0]] + ns[1..] == ns;
    }
  }

  lemma {:induction false} MagicFirst(data: Data, magic: byte, r: Raster, at: int)
    requires Inky(magic) && |data| > 2 && data[0] == 80 && data[1] == magic && data[2] == 10
    requires Numbers(data, 2, [r.width, r.height, r.maximum], at)
    ensures HeaderIs(data, magic, r, at)
  {
    hide Numbers;
    assert Gap(data, 0, 0) && Word(data, 0, 0 + 2);
  }

  lemma {:induction false} HeaderTextIs(data: Data, magic: byte, r: Raster)
    requires Inky(magic)
    requires HeaderText(magic, r) <= data && (|HeaderText(magic, r)| < |data| ==> !Inky(data[|HeaderText(magic, r)|]))
    ensures HeaderIs(data, magic, r, |HeaderText(magic, r)|)
  {
    var fields := [r.width, r.height, r.maximum];
    assert Lines(fields)[0] == 10;
    hide Lines, Line, HeaderIs, Numbers;
    var head, n := HeaderText(magic, r), |Lines(fields)|;
    assert head[0] == 80 && head[1] == magic && head[2] == 10 && head[2..] == Lines(fields) && |head| == n + 2;
    assert data[..n + 2] == head;
    assert data[0] == head[0] && data[1] == head[1] && data[2] == head[2] && data[2..2 + n] == head[2..];
    LinesAre(data, 2, fields);
    MagicFirst(data, magic, r, n + 2);
  }

  /** Every raster has a text rendering ... */
  lemma {:induction false} RenderedP3(r: Raster)
    requires ValidRaster(r)
    ensures IsP3(RenderP3(r), r)
  {
    var data, head, tail := RenderP3(r), HeaderText(51, r), Lines(r.samples);
    assert tail[0] == 10 by { assert r.width * r.height > 0; }
    hide HeaderIs, Numbers, Lines, HeaderText, AllWithin;
    assert data[|head|] == tail[0] && data[|head|..|head| + |tail|] == tail;
    HeaderTextIs(data, 51, r);
    LinesAre(data, |head|, r.samples);
    assert Gap(data, |data|, |data|);
    hide Gap;
    assert EndGap(data, |data|);
  }

  /** ... and a binary one. */
  lemma {:induction false} RenderedP6(r: Raster)
    requires ValidRaster(r)
    ensures IsP6(RenderP6(r), r)
  {
    var data, head, body := RenderP6(r), HeaderText(54, r), BodyBytes(r);
    hide HeaderIs, HeaderText, BodyBytes, AllWithin;
    var at := |head|;
    assert data[at] == 10;
    HeaderTextIs(data, 54, r);
    BodyBytesAre(data, at, r);
  }

  lemma {:induction false} BodyBytesAre(data: Data, at: nat, r: Raster)
    requires ValidRaster(r) && at < |data| && data[at] == 10 && data[at + 1..] == BodyBytes(r)
    ensures BodyIs(data, at, r)
  {
    var body, n := BodyBytes(r), |r.samples|;
    assert forall k :: 0 <= k < |body| ==> data[at + 1 + k] == body[k];
    if r.maximum >= 256 {
      forall i | 0 <= i < n ensures WordAt(data, at + 1 + 2 * i) == r.samples[i] {
        PairAt(r, i);
      }
    }
  }

  lemma {:induction false} PairAt(r: Raster, i: nat)
    requires ValidRaster(r) && r.maximum >= 256 && i < |r.samples|
    ensures |BodyBytes(r)| == 2 * |r.samples|
    ensures BodyBytes(r)[2 * i] == r.samples[i] / 256 && BodyBytes(r)[2 * i + 1] == r.samples[i] % 256
  {
    assert 2 * i / 2 == i && 2 * i % 2 == 0 && (2 * i + 1) / 2 == i && (2 * i + 1) % 2 == 1;
  }

  /** A text and a binary image of one raster get one verdict and the same metadata. */
  lemma {:induction false} RenderingsAgree(
      p3: Data, p6: Data, r: Raster, threshold: int, maxBytes: int, maxPixels: int)
    requires IsP3(p3, r) && IsP6(p6, r) && threshold > 0 && maxPixels > 0
    requires 0 < |p3| <= maxBytes && 0 < |p6| <= maxBytes
    ensures var a := Validate(p3, threshold, maxBytes, maxPixels);
            var b := Validate(p6, threshold, maxBytes, maxPixels);
            && (a.Some? <==> r.width * r.height <= maxPixels && |Colours(r.samples, r.width * r.height)| >= threshold)
            && (a.Some? <==> b.Some?) && (a.Some? ==> a.value == b.value.(binary := false) && b.value.binary)
  {
    hide Validate, IsP3, IsP6, Colours;
    P3IsJudged(p3, r, threshold, maxBytes, maxPixels);
    P6IsJudged(p6, r, threshold, maxBytes, maxPixels);
    assert ValidRaster(r) by { RasterOf(p3, r); }
  }

  lemma {:induction false} RasterOf(data: Data, r: Raster)
    requires IsP3(data, r)
    ensures ValidRaster(r)
  {
  }

  lemma {:induction false} SmallLines(ns: seq<nat>)
    requires forall i :: 0 <= i < |ns| ==> ns[i] < 10
    ensures |Lines(ns)| == 2 * |ns|
  {
    if ns != [] { SmallLines(ns[1..]); }
  }

  /** A black and a white pixel are two colours. */
  lemma {:induction false} TwoPixels() returns (image: Data)
    ensures Validate(image, 2, 64 * 1024 * 1024, 16 * 1024 * 1024).Some?
  {
    var r := Raster(2, 1, 1, [0, 0, 0, 1, 1, 1]);
    assert ValidRaster(r);
    image := RenderP3(r);
    SmallLines(r.samples);
    SmallLines([2, 1, 1]);
    assert |image| == 20 by { hide Lines; }
    RenderedP3(r);
    hide Validate, RenderP3, ValidRaster, IsP3;
    P3IsJudged(image, r, 2, 64 * 1024 * 1024, 16 * 1024 * 1024);
    TwoColours(r.samples);
  }

  lemma {:induction false} TwoColours(samples: seq<int>)
    requires samples == [0, 0, 0, 1, 1, 1]
    ensures |Colours(samples, 2)| == 2
  {
    assert Colours(samples, 1) == Colours(samples, 0) + {PixelAt(samples, 0)} == {(0, 0, 0)};
    assert Colours(samples, 2) == {(0, 0, 0), (1, 1, 1)};
  }
}
