/** Bytes, the little- and big-endian integers that Python's `struct` packs, and
    in-place writes into a fixed-size image. */
module Bytes {

  type byte = x: int | 0 <= x < 256

  /** What a file, a stream or a marker holds. */
  type Data = seq<byte>

  datatype Option<+T> = None | Some(value: T)

  function Min(a: int, b: int): int { if a <= b then a else b }
  function Max(a: int, b: int): int { if a <= b then b else a }

  /** `math.ceil(a / b)` for a non-negative numerator. */
  function CeilDiv(a: nat, b: nat): (r: nat)
    requires b > 0
    ensures (r - 1) * b < a <= r * b
  {
    var q := (a + b - 1) / b;
    assert q * b <= a + b - 1 < q * b + b;
    assert (q - 1) * b == q * b - b;
    q
  }

  function Zeros(n: nat): (s: seq<byte>)
    ensures |s| == n
    ensures forall i :: 0 <= i < n ==> s[i] == 0
  {
    seq(n, _ => 0)
  }

  function Repeat<T>(x: T, n: nat): (s: seq<T>)
    ensures |s| == n
    ensures forall i :: 0 <= i < n ==> s[i] == x
  {
    seq(n, _ => x)
  }

  // ----- struct.pack -----

  function Le16(n: int): (s: seq<byte>)
    requires 0 <= n < 0x1_0000
    ensures |s| == 2
  {
    [n % 256, n / 256]
  }

  function Le32(n: int): (s: seq<byte>)
    requires 0 <= n < 0x1_0000_0000
    ensures |s| == 4
  {
    [n % 256, n / 256 % 256, n / 0x1_0000 % 256, n / 0x100_0000]
  }

  function Le64(n: int): (s: seq<byte>)
    requires 0 <= n < 0x1_0000_0000_0000_0000
    ensures |s| == 8
  {
    Le32(n % 0x1_0000_0000) + Le32(n / 0x1_0000_0000)
  }

  function GetLe16(s: seq<byte>, at: nat): (n: int)
    requires at + 2 <= |s|
    ensures 0 <= n < 0x1_0000
  {
    s[at] as int + 256 * (s[at + 1] as int)
  }

  function GetLe32(s: seq<byte>, at: nat): (n: int)
    requires at + 4 <= |s|
    ensures 0 <= n < 0x1_0000_0000
  {
    s[at] as int + 256 * (s[at + 1] as int) + 0x1_0000 * (s[at + 2] as int) + 0x100_0000 * (s[at + 3] as int)
  }

  function GetLe64(s: seq<byte>, at: nat): (n: int)
    requires at + 8 <= |s|
    ensures 0 <= n < 0x1_0000_0000_0000_0000
  {
    GetLe32(s, at) + 0x1_0000_0000 * GetLe32(s, at + 4)
  }

  lemma {:induction false} Le16RoundTrip(s: seq<byte>, at: nat, n: int)
    requires 0 <= n < 0x1_0000
    requires at + 2 <= |s| && s[at..at + 2] == Le16(n)
    ensures GetLe16(s, at) == n
  {
    var w := s[at..at + 2];
    assert s[at] == w[0] && s[at + 1] == w[1];
  }

  lemma {:induction false} Le32Sum(n: int)
    requires 0 <= n < 0x1_0000_0000
    ensures n == n % 256 + 256 * (n / 256 % 256) + 0x1_0000 * (n / 0x1_0000 % 256) + 0x100_0000 * (n / 0x100_0000)
  {
    assert n / 256 / 256 == n / 0x1_0000 && n / 0x1_0000 / 256 == n / 0x100_0000;
  }

  lemma {:induction false} Le32RoundTrip(s: seq<byte>, at: nat, n: int)
    requires 0 <= n < 0x1_0000_0000
    requires at + 4 <= |s| && s[at..at + 4] == Le32(n)
    ensures GetLe32(s, at) == n
  {
    var w := s[at..at + 4];
    assert s[at] == w[0] && s[at + 1] == w[1] && s[at + 2] == w[2] && s[at + 3] == w[3];
    Le32Sum(n);
  }

  lemma {:induction false} Le64RoundTrip(s: seq<byte>, at: nat, n: int)
    requires 0 <= n < 0x1_0000_0000_0000_0000
    requires at + 8 <= |s| && s[at..at + 8] == Le64(n)
    ensures GetLe64(s, at) == n
  {
    var w := s[at..at + 8];
    assert s[at..at + 4] == w[..4] == Le32(n % 0x1_0000_0000);
    assert s[at + 4..at + 8] == w[4..] == Le32(n / 0x1_0000_0000);
    Le32RoundTrip(s, at, n % 0x1_0000_0000);
    Le32RoundTrip(s, at + 4, n / 0x1_0000_0000);
  }

  // ----- seek and write -----

  /** The file after `seek(at); write(data)`, for a write that does not extend it. */
  function Splice(s: seq<byte>, at: nat, data: seq<byte>): (r: seq<byte>)
    requires at + |data| <= |s|
    ensures |r| == |s|
    ensures forall i :: 0 <= i < |s| ==> r[i] == if at <= i < at + |data| then data[i - at] else s[i]
  {
    s[..at] + data + s[at + |data|..]
  }

  lemma {:induction false} SpliceReadsBack(s: seq<byte>, at: nat, data: seq<byte>)
    requires at + |data| <= |s|
    ensures Splice(s, at, data)[at..at + |data|] == data
  {
  }

  lemma {:induction false} SpliceKeeps(s: seq<byte>, at: nat, data: seq<byte>, lo: nat, hi: nat)
    requires at + |data| <= |s| && lo <= hi <= |s|
    requires hi <= at || at + |data| <= lo
    ensures Splice(s, at, data)[lo..hi] == s[lo..hi]
  {
  }

  lemma {:induction false} SpliceFront(a: seq<byte>, at: nat, data: seq<byte>, rest: seq<byte>)
    requires at + |data| <= |a|
    ensures Splice(a + rest, at, data) == Splice(a, at, data) + rest
  {
  }

  lemma {:induction false} SpliceBack(front: seq<byte>, a: seq<byte>, data: seq<byte>)
    requires |a| == |data|
    ensures Splice(front + a, |front|, data) == front + data
  {
  }

  /** `output.truncate(size)` on a new file. */
  method NewZeros(size: nat) returns (a: array<byte>)
    ensures fresh(a) && a.Length == size && a[..] == Zeros(size)
  {
    a := new byte[size](_ => 0);
  }

  method WriteAt(a: array<byte>, at: nat, data: seq<byte>)
    requires at + |data| <= a.Length
    modifies a
    ensures a[..] == Splice(old(a[..]), at, data)
  {
    for i := 0 to |data|
      invariant forall k :: 0 <= k < a.Length ==>
        a[k] == if at <= k < at + i then data[k - at] else old(a[k])
    {
      a[at + i] := data[i];
    }
  }

  /** Equal slices agree on every sub-slice. */
  lemma {:induction false} SubSlice<T>(s: seq<T>, at: nat, data: seq<T>, lo: nat, hi: nat)
    requires at + |data| <= |s| && s[at..at + |data|] == data
    requires lo <= hi <= |data|
    ensures s[at + lo..at + hi] == data[lo..hi]
  {
    forall i | 0 <= i < hi - lo ensures s[at + lo..at + hi][i] == data[lo..hi][i] {
      assert s[at..at + |data|][lo + i] == data[lo + i];
    }
  }
}
