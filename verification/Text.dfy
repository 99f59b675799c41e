/** The Python string operations that the image builders rely on: splitting and
    joining paths, UTF-16LE, decimal numerals and sorting by code point.  A Dafny
    `char` is a Unicode scalar value, so a `string` is exactly a Python `str` that
    `encode("utf-16le")` accepts. */
module Text {
  import opened Bytes

  // ----- str.split("/") and "/".join -----

  function Split(s: string): (parts: seq<string>)
    ensures |parts| >= 1
    ensures forall p :: p in parts ==> '/' !in p
  {
    if s == [] then [""]
    else
      var rest := Split(s[1..]);
      if s[0] == '/' then [""] + rest else [[s[0]] + rest[0]] + rest[1..]
  }

  function Join(parts: seq<string>): string
    requires |parts| >= 1
  {
    if |parts| == 1 then parts[0] else parts[0] + "/" + Join(parts[1..])
  }

  lemma {:induction false} SplitFirst(p: string, s: string)
    requires '/' !in p
    ensures Split(p) == [p]
    ensures Split(p + "/" + s) == [p] + Split(s)
  {
    if p == [] {
      assert (p + "/" + s)[1..] == s;
    } else {
      SplitFirst(p[1..], s);
      assert (p + "/" + s)[1..] == p[1..] + "/" + s;
      assert [p[0]] + p[1..] == p;
    }
  }

  lemma {:induction false} SplitJoin(parts: seq<string>)
    requires |parts| >= 1
    requires forall p :: p in parts ==> '/' !in p
    ensures Split(Join(parts)) == parts
  {
    if |parts| == 1 {
      SplitFirst(parts[0], "");
    } else {
      SplitJoin(parts[1..]);
      SplitFirst(parts[0], Join(parts[1..]));
    }
  }

  lemma {:induction false} JoinSplit(s: string)
    ensures Join(Split(s)) == s
  {
    if s != [] {
      JoinSplit(s[1..]);
      var rest := Split(s[1..]);
      assert [s[0]] + s[1..] == s;
      if s[0] == '/' {
        assert ([""] + rest)[1..] == rest;
      } else {
        assert ([[s[0]] + rest[0]] + rest[1..])[1..] == rest[1..];
        if |rest| > 1 {
          assert [s[0]] + (rest[0] + "/" + Join(rest[1..])) == ([s[0]] + rest[0]) + "/" + Join(rest[1..]);
        }
      }
    }
  }

  // ----- UTF-16LE -----

  type unit = x: int | 0 <= x < 0x1_0000

  function EncodeChar(c: char): (us: seq<unit>)
    ensures 1 <= |us| <= 2
    ensures c as int != 0 ==> 0 !in us
  {
    var n := c as int;
    if n < 0x1_0000 then [n]
    else [0xD800 + (n - 0x1_0000) / 0x400, 0xDC00 + (n - 0x1_0000) % 0x400]
  }

  function EncodeUtf16(s: string): (us: seq<unit>)
    ensures |s| <= |us|
    ensures (forall c :: c in s ==> c as int != 0) ==> 0 !in us
  {
    if s == [] then []
    else
      assert s[0] in s && forall c :: c in s[1..] ==> c in s;
      EncodeChar(s[0]) + EncodeUtf16(s[1..])
  }

  /** `bytes.decode("utf-16le")`, which raises on an unpaired surrogate. */
  function DecodeUtf16(us: seq<unit>): Option<string>
  {
    if us == [] then Some("")
    else if 0xDC00 <= us[0] < 0xE000 then None
    else if 0xD800 <= us[0] < 0xDC00 then
      if |us| < 2 || !(0xDC00 <= us[1] < 0xE000) then None
      else
        var rest := DecodeUtf16(us[2..]);
        if rest.None? then None
        else Some([(0x1_0000 + (us[0] as int - 0xD800) * 0x400 + (us[1] as int - 0xDC00)) as char] + rest.value)
    else
      var rest := DecodeUtf16(us[1..]);
      if rest.None? then None else Some([us[0] as char] + rest.value)
  }

  lemma {:induction false} Utf16RoundTrip(s: string)
    ensures DecodeUtf16(EncodeUtf16(s)) == Some(s)
  {
    if s != [] {
      Utf16RoundTrip(s[1..]);
      var us := EncodeUtf16(s);
      var k := |EncodeChar(s[0])|;
      assert us[k..] == EncodeUtf16(s[1..]);
      assert [s[0]] + s[1..] == s;
    }
  }

  function PackUnits(us: seq<unit>): (bs: seq<byte>)
    ensures |bs| == 2 * |us|
    ensures forall i :: 0 <= i < |us| ==> GetLe16(bs, 2 * i) == us[i]
  {
    if us == [] then []
    else
      var n := |us| - 1;
      PackUnits(us[..n]) + Le16(us[n])
  }

  lemma {:induction false} UnitsAt(r: seq<byte>, at: nat, us: seq<unit>)
    requires at + 2 * |us| <= |r| && r[at..at + 2 * |us|] == PackUnits(us)
    ensures forall i :: 0 <= i < |us| ==> GetLe16(r, at + 2 * i) == us[i]
  {
    var w := r[at..at + 2 * |us|];
    forall i | 0 <= i < |us| ensures GetLe16(r, at + 2 * i) == us[i] {
      assert GetLe16(w, 2 * i) == us[i];
      assert w[2 * i] == r[at + 2 * i] && w[2 * i + 1] == r[at + 2 * i + 1];
    }
  }

  // ----- decimal numerals -----

  function Digit(d: nat): (c: char)
    requires d < 10
    ensures '0' <= c <= '9'
  {
    (d + 48) as char
  }

  predicate IsDigit(c: char) { '0' <= c <= '9' }

  function Decimal(n: nat): (s: string)
    ensures |s| >= 1
    ensures forall c :: c in s ==> IsDigit(c)
  {
    if n < 10 then [Digit(n)] else Decimal(n / 10) + [Digit(n % 10)]
  }

  /** `int(s)` for a string of decimal digits. */
  function DecimalValue(s: string): nat
    requires forall c :: c in s ==> IsDigit(c)
  {
    if s == [] then 0
    else
      assert IsDigit(s[|s| - 1]);
      10 * DecimalValue(s[..|s| - 1]) + (s[|s| - 1] as int - 48)
  }

  lemma {:induction false} DecimalRoundTrip(n: nat)
    ensures DecimalValue(Decimal(n)) == n
  {
    if n >= 10 {
      DecimalRoundTrip(n / 10);
      var s := Decimal(n);
      assert s[..|s| - 1] == Decimal(n / 10);
    } else {
      var s := Decimal(n);
      assert s[..0] == [];
    }
  }

  function Pow10(k: nat): nat { if k == 0 then 1 else 10 * Pow10(k - 1) }

  lemma {:induction false} DecimalLength(n: nat, k: nat)
    requires n < Pow10(k) && k >= 1
    ensures |Decimal(n)| <= k
  {
    if n >= 10 {
      assert Pow10(1) == 10 * Pow10(0);
      DecimalLength(n / 10, k - 1);
    }
  }

  // ----- sorted() on strings -----

  /** Code-point lexicographic order, as Python compares `str`. */
  predicate LexLe(a: string, b: string)
  {
    a == [] || (b != [] && (a[0] < b[0] || (a[0] == b[0] && LexLe(a[1..], b[1..]))))
  }

  /** `a` is a prefix of `b`, or has the smaller code point where they first differ. */
  ghost predicate CodePointLe(a: string, b: string)
  {
    || (|a| <= |b| && b[..|a|] == a)
    || exists k :: 0 <= k < |a| && k < |b| && a[..k] == b[..k] && a[k] as int < b[k] as int
  }

  lemma {:induction false} LexIsCodePoint(a: string, b: string)
    ensures LexLe(a, b) <==> CodePointLe(a, b)
  {
    if a != [] && b != [] && a[0] == b[0] {
      LexIsCodePoint(a[1..], b[1..]);
      CodePointCons(a, b);
    } else if a != [] && b != [] {
      if CodePointLe(a, b) { CodePointHead(a, b); }
      if a[0] < b[0] { assert a[..0] == b[..0] && a[0] as int < b[0] as int; }
    } else if a == [] {
      assert b[..0] == a;
    }
  }

  lemma {:induction false} CodePointHead(a: string, b: string)
    requires a != [] && b != [] && CodePointLe(a, b)
    ensures a[0] <= b[0]
  {
    if |a| <= |b| && b[..|a|] == a {
      assert b[..|a|][0] == a[0];
    } else {
      var k :| 0 <= k < |a| && k < |b| && a[..k] == b[..k] && a[k] as int < b[k] as int;
      if k > 0 { assert a[..k][0] == b[..k][0]; }
    }
  }

  lemma {:induction false} CodePointCons(a: string, b: string)
    requires a != [] && b != [] && a[0] == b[0]
    ensures CodePointLe(a, b) <==> CodePointLe(a[1..], b[1..])
  {
    assert a == [a[0]] + a[1..] && b == [b[0]] + b[1..];
    if |a| <= |b| {
      assert b[..|a|] == [b[0]] + b[1..][..|a| - 1];
      if b[..|a|] == a { assert b[1..][..|a| - 1] == b[..|a|][1..] == a[1..]; }
    }
    if k :| 0 <= k < |a| && k < |b| && a[..k] == b[..k] && a[k] as int < b[k] as int {
      assert k > 0 && a[1..][..k - 1] == a[..k][1..] == b[..k][1..] == b[1..][..k - 1];
      assert a[1..][k - 1] == a[k] && b[1..][k - 1] == b[k];
    }
    if k :| 0 <= k < |a[1..]| && k < |b[1..]| && a[1..][..k] == b[1..][..k] && a[1..][k] as int < b[1..][k] as int {
      assert a[..k + 1] == [a[0]] + a[1..][..k] && b[..k + 1] == [b[0]] + b[1..][..k];
      assert a[k + 1] as int < b[k + 1] as int;
    }
  }

  lemma {:induction false} LexAntisymmetric(a: string, b: string)
    requires LexLe(a, b) && LexLe(b, a)
    ensures a == b
  {
    if a != [] {
      LexAntisymmetric(a[1..], b[1..]);
      assert a == [a[0]] + a[1..] && b == [b[0]] + b[1..];
    }
  }

  lemma {:induction false} LexTransitive(a: string, b: string, c: string)
    requires LexLe(a, b) && LexLe(b, c)
    ensures LexLe(a, c)
  {
    if a != [] && a[0] == b[0] && b[0] == c[0] {
      LexTransitive(a[1..], b[1..], c[1..]);
    }
  }

  lemma {:induction false} LexTotal(a: string, b: string)
    ensures LexLe(a, b) || LexLe(b, a)
  {
    if a != [] && b != [] && a[0] == b[0] {
      LexTotal(a[1..], b[1..]);
    }
  }

  predicate IsLeast(s: set<string>, x: string)
  {
    x in s && forall y :: y in s ==> LexLe(x, y)
  }

  lemma {:induction false} LeastExists(s: set<string>)
    requires s != {}
    ensures exists x :: IsLeast(s, x)
  {
    var z :| z in s;
    if s == {z} {
      LexTotal(z, z);
      assert IsLeast(s, z);
    } else {
      var rest := s - {z};
      LeastExists(rest);
      var m :| IsLeast(rest, m);
      LexTotal(m, z);
      var x := if LexLe(m, z) then m else z;
      forall y | y in s ensures LexLe(x, y) {
        LexTotal(z, z);
        if y != z && x == z { LexTransitive(z, m, y); }
      }
      assert IsLeast(s, x);
    }
  }

  ghost predicate StrictlySorted(r: seq<string>)
  {
    forall i, j :: 0 <= i < j < |r| ==> r[i] != r[j] && LexLe(r[i], r[j])
  }

  /** `sorted(s)` for a set of distinct keys. */
  function SortedKeys(s: set<string>): (r: seq<string>)
    ensures forall k :: k in r <==> k in s
    ensures StrictlySorted(r)
    ensures |r| == |s|
  {
    if s == {} then []
    else
      LeastExists(s);
      LeastIsUnique(s);
      var x :| x in s && IsLeast(s, x);
      var rest := SortedKeys(s - {x});
      SortedCons(s, x, rest);
      [x] + rest
  }

  lemma {:induction false} LeastIsUnique(s: set<string>)
    ensures forall x, y :: IsLeast(s, x) && IsLeast(s, y) ==> x == y
  {
    forall x, y | IsLeast(s, x) && IsLeast(s, y) ensures x == y { LexAntisymmetric(x, y); }
  }

  lemma {:induction false} SortedCons(s: set<string>, x: string, rest: seq<string>)
    requires IsLeast(s, x) && StrictlySorted(rest) && forall k :: k in rest <==> k in s - {x}
    ensures StrictlySorted([x] + rest) && forall k :: k in [x] + rest <==> k in s
  {
    var r := [x] + rest;
    hide LexLe;
    forall i, j | 0 <= i < j < |r| ensures r[i] != r[j] && LexLe(r[i], r[j]) {
      assert r[j] == rest[j - 1] && rest[j - 1] in rest;
      if i > 0 { assert r[i] == rest[i - 1]; }
    }
  }
}
