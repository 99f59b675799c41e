/** `validate_ppm_distinct_pixels`: a bounded P3/P6 parser that counts colours. */
module Ppm {
  import opened Bytes

  /** " \t\r\n\v\f" */
  predicate IsSpace(b: byte) { b == 32 || 9 <= b <= 13 }

  const HASH: byte := 35
  const NEWLINE: byte := 10

  // ----- tokens -----

  /** `data.find(b"\n", from)`, or the length when there is none. */
  function LineEnd(data: Data, from: nat): (r: nat)
    requires from <= |data|
    ensures from <= r <= |data|
    decreases |data| - from
  {
    if from == |data| || data[from] == NEWLINE then from else LineEnd(data, from + 1)
  }

  /** `_skip_ppm_space_and_comments` */
  function Skip(data: Data, pos: nat): (r: nat)
    requires pos <= |data|
    ensures pos <= r <= |data| && (r < |data| ==> !IsSpace(data[r]) && data[r] != HASH)
    decreases |data| - pos
  {
    if pos == |data| then pos
    else if IsSpace(data[pos]) then Skip(data, pos + 1)
    else if data[pos] != HASH then pos
    else
      var line := LineEnd(data, pos + 1);
      if line == |data| then line else Skip(data, line + 1)
  }

  predicate IsPlain(b: byte) { !IsSpace(b) && b != HASH }

  function TokenEnd(data: Data, pos: nat): (r: nat)
    requires pos <= |data|
    ensures pos <= r <= |data|
    decreases |data| - pos
  {
    if pos == |data| || !IsPlain(data[pos]) then pos else TokenEnd(data, pos + 1)
  }

  /** `_ppm_token`: the token and the position behind it. */
  function Token(data: Data, pos: nat): (r: Option<(Data, nat)>)
    requires pos <= |data|
    ensures r.Some? ==> pos < r.value.1 <= |data| && r.value.0 != []
  {
    var start := Skip(data, pos);
    var end := TokenEnd(data, start);
    if start == end then None else Some((data[start..end], end))
  }

  predicate IsNumeral(token: Data) { forall i :: 0 <= i < |token| ==> 48 <= token[i] <= 57 }

  function Value(token: Data): nat
    requires IsNumeral(token)
  {
    if token == [] then 0
    else
      var n := |token| - 1;
      10 * Value(token[..n]) + (token[n] as int - 48)
  }

  /** `_ppm_integer` on the next token. */
  function Number(data: Data, pos: nat): (r: Option<(nat, nat)>)
    requires pos <= |data|
    ensures r.Some? ==> pos < r.value.1 <= |data|
  {
    var token := Token(data, pos);
    if token.None? || !IsNumeral(token.value.0) then None else Some((Value(token.value.0), token.value.1))
  }

  method SkipSpace(data: Data, from: nat) returns (pos: nat)
    requires from <= |data|
    ensures pos == Skip(data, from)
  {
    pos := from;
    while true
      invariant pos <= |data| && Skip(data, pos) == Skip(data, from)
      decreases |data| - pos
    {
      while pos < |data| && IsSpace(data[pos])
        invariant pos <= |data| && Skip(data, pos) == Skip(data, from)
      {
        pos := pos + 1;
      }
      if pos >= |data| || data[pos] != HASH { return; }
      var line := LineEnd(data, pos + 1);
      if line == |data| { return |data|; }
      pos := line + 1;
    }
  }

  method ReadToken(data: Data, from: nat) returns (r: Option<(Data, nat)>)
    requires from <= |data|
    ensures r == Token(data, from)
  {
    var start := SkipSpace(data, from);
    var pos := start;
    while pos < |data| && !IsSpace(data[pos]) && data[pos] != HASH
      invariant start <= pos <= |data| && TokenEnd(data, pos) == TokenEnd(data, start)
    {
      pos := pos + 1;
    }
    if start == pos { return None; }
    return Some((data[start..pos], pos));
  }

  method ReadNumber(data: Data, from: nat) returns (r: Option<(nat, nat)>)
    requires from <= |data|
    ensures r == Number(data, from)
  {
    var token := ReadToken(data, from);
    if token.None? || !IsNumeral(token.value.0) { return None; }
    return Some((Value(token.value.0), token.value.1));
  }

  // ----- the header -----

  datatype Header = Header(binary: bool, width: nat, height: nat, maximum: nat, at: nat)

  function ReadHeader(data: Data, maxPixels: int): (r: Option<Header>)
    ensures r.Some? ==> r.value.at <= |data|
  {
    var magic := Token(data, 0);
    if magic.None? then None
    else
      var w := Number(data, magic.value.1);
      if w.None? then None
      else
        var h := Number(data, w.value.1);
        if h.None? then None
        else
          var m := Number(data, h.value.1);
          if m.None? then None
          else if magic.value.0 != [80, 51] && magic.value.0 != [80, 54] then None
          else if w.value.0 == 0 || h.value.0 == 0 || !(0 < m.value.0 <= 65535) then None
          else if w.value.0 > maxPixels || h.value.0 > maxPixels || w.value.0 * h.value.0 > maxPixels then None
          else Some(Header(magic.value.0 == [80, 54], w.value.0, h.value.0, m.value.0, m.value.1))
  }

  method ParseHeader(data: Data, maxPixels: int) returns (r: Option<Header>)
    ensures r == ReadHeader(data, maxPixels)
  {
    var magic := ReadToken(data, 0);
    if magic.None? || (magic.value.0 != [80, 51] && magic.value.0 != [80, 54]) { return None; }
    var w := ReadNumber(data, magic.value.1);
    if w.None? { return None; }
    var h := ReadNumber(data, w.value.1);
    if h.None? { return None; }
    var m := ReadNumber(data, h.value.1);
    if m.None? { return None; }
    if w.value.0 <= 0 || h.value.0 <= 0 || m.value.0 <= 0 || m.value.0 > 65535 { return None; }
    if w.value.0 > maxPixels || h.value.0 > maxPixels || w.value.0 * h.value.0 > maxPixels { return None; }
    return Some(Header(magic.value.0 == [80, 54], w.value.0, h.value.0, m.value.0, m.value.1));
  }

  // ----- the raster -----

  type Pixel = (int, int, int)

  function PixelAt(samples: seq<int>, i: nat): Pixel
    requires 3 * i + 3 <= |samples|
  {
    (samples[3 * i], samples[3 * i + 1], samples[3 * i + 2])
  }

  /** The colours of the first `n` pixels. */
  ghost function Colours(samples: seq<int>, n: nat): (r: set<Pixel>)
    requires 3 * n <= |samples|
  {
    if n == 0 then {} else Colours(samples, n - 1) + {PixelAt(samples, n - 1)}
  }

  /** `count` decimal samples from `pos`, and the position behind them. */
  function PlainSamples(data: Data, pos: nat, count: nat, maximum: nat): (r: Option<(seq<int>, nat)>)
    requires pos <= |data|
    ensures r.Some? ==> |r.value.0| == count && r.value.1 <= |data|
    decreases count
  {
    if count == 0 then Some(([], pos))
    else
      var x := Number(data, pos);
      if x.None? || x.value.0 > maximum then None
      else
        var rest := PlainSamples(data, x.value.1, count - 1, maximum);
        if rest.None? then None else Some(([x.value.0] + rest.value.0, rest.value.1))
  }

  function Plain(data: Data, at: nat, count: nat, maximum: nat): (r: Option<seq<int>>)
    requires at <= |data|
    ensures r.Some? ==> |r.value| == count
  {
    var s := PlainSamples(data, at, count, maximum);
    if s.None? || Skip(data, s.value.1) != |data| then None else Some(s.value.0)
  }

  function Width(maximum: nat): (r: nat)
    ensures 1 <= r <= 2
  {
    if maximum < 256 then 1 else 2
  }

  /** The big-endian sample at `at`. */
  function Sample(data: Data, at: nat, width: nat): int
    requires 1 <= width <= 2 && at + width <= |data|
  {
    if width == 1 then data[at] else 256 * (data[at] as int) + data[at + 1] as int
  }

  function RasterStart(data: Data, at: nat): nat
    requires at < |data|
  {
    if at + 2 <= |data| && data[at..at + 2] == [13, 10] then at + 2 else at + 1
  }

  function BinarySamples(data: Data, start: nat, count: nat, width: nat): (r: seq<int>)
    requires 1 <= width <= 2 && start + count * width == |data|
    ensures |r| == count
  {
    seq(count, i requires 0 <= i < count =>
      assert (i + 1) * width <= count * width by { MulLe(i + 1, count, width); }
      Sample(data, start + i * width, width))
  }

  lemma {:induction false} MulLe(a: nat, b: nat, w: nat)
    requires a <= b
    ensures a * w <= b * w
  {
  }

  function Binary(data: Data, at: nat, count: nat, maximum: nat): (r: Option<seq<int>>)
    requires at <= |data|
    ensures r.Some? ==> |r.value| == count
  {
    if at >= |data| || !IsSpace(data[at]) then None
    else
      var start := RasterStart(data, at);
      if |data| - start != count * Width(maximum) then None
      else
        var samples := BinarySamples(data, start, count, Width(maximum));
        if AllWithin(samples, count, maximum) then Some(samples) else None
  }

  predicate AllWithin(samples: seq<int>, n: nat, maximum: nat)
    requires n <= |samples|
  {
    forall i :: 0 <= i < n ==> samples[i] <= maximum
  }

  // ----- the verdict -----

  datatype Info = Info(binary: bool, width: nat, height: nat, maximum: nat, pixels: nat, distinct: nat)

  function Samples(data: Data, h: Header): (r: Option<seq<int>>)
    requires h.at <= |data|
    ensures r.Some? ==> |r.value| == h.width * h.height * 3
  {
    var count := h.width * h.height * 3;
    if h.binary then Binary(data, h.at, count, h.maximum) else Plain(data, h.at, count, h.maximum)
  }

  /** What the validator must answer: `None` is an error. */
  ghost function Validate(data: Data, threshold: int, maxBytes: int, maxPixels: int): Option<Info>
  {
    if threshold <= 0 || maxPixels <= 0 || maxBytes <= 0 || |data| > maxBytes then None
    else
      var header := ReadHeader(data, maxPixels);
      if header.None? then None
      else
        var h := header.value;
        var samples := Samples(data, h);
        if samples.None? then None else Verdict(h, samples.value, threshold)
  }

  ghost function Verdict(h: Header, samples: seq<int>, threshold: nat): Option<Info>
    requires |samples| == h.width * h.height * 3
  {
    var pixels := h.width * h.height;
    var colours := |Colours(samples, pixels)|;
    if colours < threshold then None
    else Some(Info(h.binary, h.width, h.height, h.maximum, pixels, Min(threshold, colours)))
  }

  // ----- counting with a capped set -----

  /** `distinct` holds all the colours seen, or as many of them as the threshold asks for. */
  ghost predicate Capped(distinct: set<Pixel>, all: set<Pixel>, threshold: nat)
  {
    distinct <= all && |distinct| <= threshold && (|distinct| < threshold ==> distinct == all)
  }

  lemma {:induction false} SubsetSize<T>(a: set<T>, b: set<T>)
    requires a <= b
    ensures |a| <= |b|
  {
    assert b == a + (b - a);
  }

  lemma {:induction false} CappedCount(distinct: set<Pixel>, all: set<Pixel>, threshold: nat)
    requires Capped(distinct, all, threshold)
    ensures |distinct| == Min(threshold, |all|)
  {
    SubsetSize(distinct, all);
  }

  method Observe(distinct: set<Pixel>, pixel: Pixel, threshold: nat, ghost all: set<Pixel>) returns (r: set<Pixel>)
    requires Capped(distinct, all, threshold)
    ensures Capped(r, all + {pixel}, threshold)
  {
    r := distinct;
    if |distinct| < threshold { r := r + {pixel}; }
  }

  lemma {:induction false} ColoursPrefix(samples: seq<int>, more: seq<int>, n: nat)
    requires 3 * n <= |samples|
    ensures Colours(samples + more, n) == Colours(samples, n)
  {
    if n > 0 { ColoursPrefix(samples, more, n - 1); }
  }

  ghost function Joined(done: seq<int>, rest: Option<(seq<int>, nat)>): Option<(seq<int>, nat)>
  {
    if rest.None? then None else Some((done + rest.value.0, rest.value.1))
  }

  lemma {:induction false} JoinedOne(done: seq<int>, x: int, rest: Option<(seq<int>, nat)>)
    ensures Joined(done, Joined([x], rest)) == Joined(done + [x], rest) && Joined([], rest) == rest
  {
    if rest.Some? {
      assert done + ([x] + rest.value.0) == done + [x] + rest.value.0 && [] + rest.value.0 == rest.value.0;
    }
  }

  lemma {:induction false} PlainStep(data: Data, pos: nat, count: nat, maximum: nat, done: seq<int>)
    requires pos <= |data| && count > 0
    ensures var x := Number(data, pos);
            Joined(done, PlainSamples(data, pos, count, maximum)) ==
            if x.None? || x.value.0 > maximum then None
            else Joined(done + [x.value.0], PlainSamples(data, x.value.1, count - 1, maximum))
  {
    hide Number;
    var x := Number(data, pos);
    if x.Some? { JoinedOne(done, x.value.0, PlainSamples(data, x.value.1, count - 1, maximum)); }
  }

  lemma {:induction false} LastPixel(done: seq<int>, n: nat)
    requires |done| == 3 * n + 3
    ensures Colours(done, n + 1) == Colours(done, n) + {(done[3 * n..][0], done[3 * n..][1], done[3 * n..][2])}
  {
  }

  method CountPlain(data: Data, at: nat, pixels: nat, maximum: nat, threshold: nat) returns (r: Option<nat>)
    requires at <= |data|
    ensures r.Some? <==> Plain(data, at, pixels * 3, maximum).Some?
    ensures r.Some? ==> r.value == Min(threshold, |Colours(Plain(data, at, pixels * 3, maximum).value, pixels)|)
  {
    hide Capped, Number, Colours, Skip;
    var distinct: set<Pixel> := {};
    var pos: nat := at;
    var samples: seq<int> := [];
    ghost var done: seq<int> := [];
    ghost var n: nat := 0;
    ghost var all := PlainSamples(data, at, pixels * 3, maximum);
    JoinedOne([], 0, all);
    NothingSeen(threshold);
    for k := 0 to pixels * 3
      invariant pos <= |data| && |done| == k && all == Joined(done, PlainSamples(data, pos, pixels * 3 - k, maximum))
      invariant |samples| < 3 && k == 3 * n + |samples| && samples == done[3 * n..]
      invariant Capped(distinct, Colours(done, n), threshold)
    {
      PlainStep(data, pos, pixels * 3 - k, maximum, done);
      hide PlainSamples, Joined;
      var x := ReadNumber(data, pos);
      if x.None? || x.value.0 > maximum { return None; }
      ColoursPrefix(done, [x.value.0], n);
      pos := x.value.1;
      done := done + [x.value.0];
      samples := samples + [x.value.0];
      if |samples| == 3 {
        LastPixel(done, n);
        distinct := Observe(distinct, (samples[0], samples[1], samples[2]), threshold, Colours(done, n));
        samples := [];
        n := n + 1;
      }
    }
    assert done + [] == done && n == pixels;
    var end := SkipSpace(data, pos);
    if end != |data| { return None; }
    CappedCount(distinct, Colours(done, pixels), threshold);
    return Some(|distinct|);
  }

  lemma {:induction false} NothingSeen(threshold: nat)
    ensures Capped({}, Colours([], 0), threshold)
  {
  }

  method CountBinary(data: Data, at: nat, pixels: nat, maximum: nat, threshold: nat) returns (r: Option<nat>)
    requires at <= |data|
    ensures r.Some? <==> Binary(data, at, pixels * 3, maximum).Some?
    ensures r.Some? ==> r.value == Min(threshold, |Colours(Binary(data, at, pixels * 3, maximum).value, pixels)|)
  {
    if at >= |data| || !IsSpace(data[at]) { return None; }
    var start := RasterStart(data, at);
    var width := Width(maximum);
    if |data| - start != pixels * 3 * width { return None; }
    ghost var samples := BinarySamples(data, start, pixels * 3, width);
    assert Binary(data, at, pixels * 3, maximum) ==
           if AllWithin(samples, pixels * 3, maximum) then Some(samples) else None;
    hide Binary, BinarySamples, Width, RasterStart;
    r := CountSamples(data, start, pixels, width, maximum, threshold, samples);
  }

  lemma {:induction false} OnePixel(samples: seq<int>, i: nat, pixels: nat, maximum: nat)
    requires i < pixels && |samples| == pixels * 3
    ensures var p := PixelAt(samples, i); var ok := p.0 <= maximum && p.1 <= maximum && p.2 <= maximum;
            && (AllWithin(samples, 3 * i, maximum) && ok ==> AllWithin(samples, 3 * (i + 1), maximum))
            && (!ok ==> !AllWithin(samples, pixels * 3, maximum))
            && Colours(samples, i + 1) == Colours(samples, i) + {p}
  {
  }

  method CountSamples(
      data: Data, start: nat, pixels: nat, width: nat, maximum: nat, threshold: nat, ghost samples: seq<int>)
    returns (r: Option<nat>)
    requires 1 <= width <= 2 && start + pixels * 3 * width == |data|
    requires samples == BinarySamples(data, start, pixels * 3, width)
    ensures r.Some? <==> AllWithin(samples, pixels * 3, maximum)
    ensures r.Some? ==> r.value == Min(threshold, |Colours(samples, pixels)|)
  {
    var distinct: set<Pixel> := {};
    NothingSeen(threshold);
    assert Colours([], 0) == Colours(samples, 0);
    assert AllWithin(samples, 0, maximum);
    hide Capped, BinarySamples, AllWithin, Colours;
    for i := 0 to pixels
      invariant AllWithin(samples, 3 * i, maximum) && Capped(distinct, Colours(samples, i), threshold)
    {
      var red := SampleOf(data, start, pixels * 3, width, 3 * i);
      var green := SampleOf(data, start, pixels * 3, width, 3 * i + 1);
      var blue := SampleOf(data, start, pixels * 3, width, 3 * i + 2);
      OnePixel(samples, i, pixels, maximum);
      if red > maximum || green > maximum || blue > maximum { return None; }
      distinct := Observe(distinct, (red, green, blue), threshold, Colours(samples, i));
    }
    CappedCount(distinct, Colours(samples, pixels), threshold);
    return Some(|distinct|);
  }

  method SampleOf(data: Data, start: nat, count: nat, width: nat, i: nat) returns (x: int)
    requires 1 <= width <= 2 && start + count * width == |data| && i < count
    ensures x == BinarySamples(data, start, count, width)[i]
  {
    MulLe(i + 1, count, width);
    x := Sample(data, start + i * width, width);
  }

  method CountColours(data: Data, h: Header, threshold: nat) returns (r: Option<nat>)
    requires h.at <= |data|
    ensures r.Some? <==> Samples(data, h).Some?
    ensures r.Some? ==> r.value == Min(threshold, |Colours(Samples(data, h).value, h.width * h.height)|)
  {
    hide Binary, Plain, Colours;
    var pixels := h.width * h.height;
    if h.binary {
      r := CountBinary(data, h.at, pixels, h.maximum, threshold);
    } else {
      r := CountPlain(data, h.at, pixels, h.maximum, threshold);
    }
  }

  method ValidatePpm(data: Data, threshold: int, maxBytes: int, maxPixels: int) returns (r: Option<Info>)
    ensures r == Validate(data, threshold, maxBytes, maxPixels)
  {
    if threshold <= 0 || maxPixels <= 0 || maxBytes <= 0 || |data| > maxBytes { return None; }
    var header := ParseHeader(data, maxPixels);
    if header.None? { return None; }
    hide ReadHeader, Samples, Colours;
    var h := header.value;
    var count := CountColours(data, h, threshold);
    if count.None? || count.value < threshold { return None; }
    return Some(Info(h.binary, h.width, h.height, h.maximum, h.width * h.height, count.value));
  }

  // ----- rasters -----

  /** A raster by its samples, three to a pixel. */
  datatype Raster = Raster(width: nat, height: nat, maximum: nat, samples: seq<nat>)

  predicate ValidRaster(r: Raster)
  {
    && r.width > 0 && r.height > 0 && 0 < r.maximum <= 65535 && |r.samples| == r.width * r.height * 3
    && AllWithin(r.samples, |r.samples|, r.maximum)
  }
}
