/** 8.3 aliases (`_split_filename`, `_sanitize_short_part`, `_short_display_name` and
    the loop of `_assign_short_names`).  Python's Unicode tables are parameters: every
    statement holds for any `casefold` and any per-character `upper`. */
module FatNames {
  import opened Bytes
  import opened Text

  datatype Unicode = Unicode(casefold: string -> string, upper: char -> string)

  type Alias = raw: seq<byte> | |raw| == 11 witness Repeat<byte>(32, 11)

  const ALIAS_LIMIT := 1_000_000

  function Take<T>(s: seq<T>, n: nat): (r: seq<T>)
    ensures r <= s && |r| == Min(n, |s|)
  {
    if n <= |s| then s[..n] else s
  }

  // ----- the alphabet -----

  predicate ValidShortChar(c: char)
  {
    || '0' <= c <= '9' || '@' <= c <= 'Z'
    || c == '!' || '#' <= c <= ')' || c == '-' || '^' <= c <= '`' || c == '{' || c == '}' || c == '~'
  }

  predicate ValidShort(s: string) { forall c :: c in s ==> ValidShortChar(c) }

  predicate ReservedShortName(s: string)
  {
    || s in ["CON", "PRN", "AUX", "NUL"]
    || (|s| == 4 && s[..3] in ["COM", "LPT"] && '1' <= s[3] <= '9')
  }

  // ----- splitting and cleaning a name -----

  function LastDot(name: string): (i: nat)
    requires '.' in name
    ensures i < |name| && name[i] == '.' && '.' !in name[i + 1..]
  {
    if name[|name| - 1] == '.' then |name| - 1
    else
      assert name == name[..|name| - 1] + [name[|name| - 1]];
      var i := LastDot(name[..|name| - 1]);
      assert name[i + 1..] == name[..|name| - 1][i + 1..] + [name[|name| - 1]];
      i
  }

  /** `_split_filename`: the text before and after the last dot. */
  function SplitFilename(name: string): (string, string)
  {
    if '.' in name && name[0] != '.' then
      var i := LastDot(name);
      (name[..i], name[i + 1..])
    else (name, "")
  }

  function Upper(u: Unicode, s: string): string
  {
    if s == [] then [] else u.upper(s[0]) + Upper(u, s[1..])
  }

  function KeepShort(s: string): (r: string)
    ensures ValidShort(r)
  {
    if s == [] then []
    else
      (if ValidShortChar(s[0]) then [s[0]] else if s[0] in " ." then [] else "_") + KeepShort(s[1..])
  }

  function Sanitize(u: Unicode, s: string): (r: string)
    ensures ValidShort(r)
  {
    KeepShort(Upper(u, s))
  }

  // ----- the 11 raw bytes -----

  function LJust(s: string, n: nat): (r: string)
    ensures |s| <= n ==> |r| == n
    ensures s <= r && forall i :: |s| <= i < |r| ==> r[i] == ' '
  {
    if |s| < n then s + Repeat(' ', n - |s|) else s
  }

  predicate IsAscii(s: string) { forall c :: c in s ==> c as int < 128 }

  function CharByte(c: char): byte
    requires c as int < 128
  {
    c as int
  }

  function Ascii(s: string): (r: seq<byte>)
    requires IsAscii(s)
    ensures |r| == |s|
    ensures forall i :: 0 <= i < |s| ==> r[i] == s[i] as int
  {
    seq(|s|, i requires 0 <= i < |s| => assert s[i] in s; CharByte(s[i]))
  }

  predicate IsShort(base: string, ext: string)
  {
    |base| <= 8 && |ext| <= 3 && ValidShort(base) && ValidShort(ext)
  }

  function ShortRaw(base: string, ext: string): (raw: Alias)
    requires IsShort(base, ext)
    ensures forall b :: b in raw ==> 32 <= b < 127
    ensures base != "" ==> raw[0] != 32
    ensures AsciiText(raw[..8]) == LJust(base, 8)
  {
    PaddedIsAscii(base, 8);
    PaddedIsAscii(ext, 3);
    var (x, y) := (Ascii(LJust(base, 8)), Ascii(LJust(ext, 3)));
    assert base != "" ==> LJust(base, 8)[0] == base[0] && base[0] in base;
    assert (x + y)[..8] == x;
    assert AsciiText(x) == LJust(base, 8);
    assert forall i :: 0 <= i < 8 ==> x[i] == LJust(base, 8)[i] as int && LJust(base, 8)[i] in LJust(base, 8);
    assert forall i :: 0 <= i < 3 ==> y[i] == LJust(ext, 3)[i] as int && LJust(ext, 3)[i] in LJust(ext, 3);
    x + y
  }

  lemma {:induction false} PaddedIsAscii(s: string, n: nat)
    requires ValidShort(s) && |s| <= n
    ensures forall c :: c in LJust(s, n) ==> 32 <= c as int < 127
  {
    forall i | 0 <= i < n ensures 32 <= LJust(s, n)[i] as int < 127 {
      if i < |s| { assert LJust(s, n)[i] == s[i] && s[i] in s; }
    }
  }

  /** What the reader and `_short_display_name` see; both sides use `rstrip`. */
  predicate IsSpace(c: char) { c == ' ' || '\t' <= c <= '\r' || 0x1C <= c as int <= 0x1F }

  function RStrip(s: string): (r: string)
    ensures r <= s
  {
    if s != [] && IsSpace(s[|s| - 1]) then RStrip(s[..|s| - 1]) else s
  }

  function ByteChar(b: byte): char { b as int as char }

  function AsciiText(raw: seq<byte>): (s: string)
    ensures |s| == |raw|
    ensures forall i :: 0 <= i < |raw| ==> s[i] == ByteChar(raw[i])
  {
    seq(|raw|, i requires 0 <= i < |raw| => ByteChar(raw[i]))
  }

  function DisplayName(raw: Alias): string
  {
    var base := RStrip(AsciiText(raw[..8]));
    var ext := RStrip(AsciiText(raw[8..]));
    if ext != "" then base + "." + ext else base
  }

  // ----- choosing an alias -----

  function CleanExtension(u: Unicode, name: string): (r: string)
    ensures ValidShort(r) && |r| <= 3
  {
    Take(Sanitize(u, SplitFilename(name).1), 3)
  }

  function DirectAlias(u: Unicode, name: string): Alias
  {
    ShortRaw(Take(Sanitize(u, SplitFilename(name).0), 8), CleanExtension(u, name))
  }

  predicate UppersToShort(u: Unicode, c: char)
  {
    |u.upper(c)| == 1 && ValidShortChar(u.upper(c)[0])
  }

  predicate DirectlyRepresentable(u: Unicode, name: string, used: set<Alias>)
  {
    var (base, ext) := SplitFilename(name);
    && Take(Sanitize(u, base), 8) != ""
    && |base| <= 8
    && |ext| <= 3
    && (forall c :: c in base + ext ==> UppersToShort(u, c))
    && !ReservedShortName(Upper(u, base))
    && DirectAlias(u, name) !in used
  }

  function Suffix(n: nat): (s: string)
    requires 1 <= n < ALIAS_LIMIT
    ensures 2 <= |s| <= 7 && ValidShort(s)
    ensures s[0] == '~' && forall i :: 1 <= i < |s| ==> IsDigit(s[i])
  {
    assert n < Pow10(6) by { assert Pow10(3) == 1000; }
    DecimalLength(n, 6);
    assert forall i :: 1 <= i < |"~" + Decimal(n)| ==> ("~" + Decimal(n))[i] in Decimal(n);
    "~" + Decimal(n)
  }

  function CandidateBase(stem: string, n: nat): (b: string)
    requires ValidShort(stem) && 1 <= n < ALIAS_LIMIT
    ensures ValidShort(b) && 2 <= |b| <= 8
    ensures b == Take(stem, 8 - |Suffix(n)|) + Suffix(n)
    ensures !ReservedShortName(b)
  {
    var b := Take(Take(stem, 8 - |Suffix(n)|) + Suffix(n), 8);
    assert b[|b| - |Suffix(n)|] == '~';
    b
  }

  function Candidate(stem: string, ext: string, n: nat): Alias
    requires ValidShort(stem) && ValidShort(ext) && |ext| <= 3 && 1 <= n < ALIAS_LIMIT
  {
    ShortRaw(CandidateBase(stem, n), ext)
  }

  /** The `for suffix_number in range(1, 1_000_000)` search, from `n` on. */
  function FirstFree(stem: string, ext: string, used: set<Alias>, n: nat): Option<Alias>
    requires ValidShort(stem) && ValidShort(ext) && |ext| <= 3 && 1 <= n <= ALIAS_LIMIT
    decreases ALIAS_LIMIT - n
  {
    if n == ALIAS_LIMIT then None
    else if Candidate(stem, ext, n) !in used && !ReservedShortName(CandidateBase(stem, n)) then
      Some(Candidate(stem, ext, n))
    else FirstFree(stem, ext, used, n + 1)
  }

  function Stem(u: Unicode, name: string): (s: string)
    ensures ValidShort(s) && s != ""
  {
    var clean := Sanitize(u, SplitFilename(name).0);
    if clean != "" then clean else "_"
  }

  function AliasFor(u: Unicode, name: string, used: set<Alias>): Option<Alias>
  {
    if DirectlyRepresentable(u, name, used) then Some(DirectAlias(u, name))
    else FirstFree(Stem(u, name), CleanExtension(u, name), used, 1)
  }

  function Elements<T>(s: seq<T>): set<T> { set x | x in s }

  /** The aliases of one directory's children, in `sorted_children` order. */
  function AliasList(u: Unicode, names: seq<string>): (r: Option<seq<Alias>>)
    ensures r.Some? ==> |r.value| == |names|
  {
    if names == [] then Some([])
    else
      var k := |names| - 1;
      var before := AliasList(u, names[..k]);
      if before.None? then None
      else
        var a := AliasFor(u, names[k], Elements(before.value));
        if a.None? then None else Some(before.value + [a.value])
  }

  method SearchSuffix(stem: string, ext: string, used: set<Alias>) returns (raw: Option<Alias>)
    requires ValidShort(stem) && ValidShort(ext) && |ext| <= 3
    ensures raw == FirstFree(stem, ext, used, 1)
  {
    for n := 1 to ALIAS_LIMIT
      invariant FirstFree(stem, ext, used, 1) == FirstFree(stem, ext, used, n)
    {
      var candidate := Candidate(stem, ext, n);
      if candidate !in used && !ReservedShortName(CandidateBase(stem, n)) {
        return Some(candidate);
      }
    }
    return None;
  }

  method ChooseAlias(u: Unicode, name: string, used: set<Alias>) returns (raw: Option<Alias>)
    ensures raw == AliasFor(u, name, used)
  {
    if DirectlyRepresentable(u, name, used) {
      raw := Some(DirectAlias(u, name));
    } else {
      raw := SearchSuffix(Stem(u, name), CleanExtension(u, name), used);
    }
  }

  method AssignShortNames(u: Unicode, names: seq<string>) returns (r: Option<seq<Alias>>)
    ensures r == AliasList(u, names)
  {
    hide AliasFor;
    var raws: seq<Alias> := [];
    var used: set<Alias> := {};
    for i := 0 to |names|
      invariant AliasList(u, names[..i]) == Some(raws)
      invariant used == Elements(raws)
    {
      assert names[..i + 1][..i] == names[..i];
      var raw := ChooseAlias(u, names[i], used);
      if raw.None? {
        assert AliasList(u, names[..i + 1]) == None;
        if AliasList(u, names).Some? { AliasListPrefix(u, names, i + 1); assert false; }
        return None;
      }
      used := used + {raw.value};
      raws := raws + [raw.value];
    }
    assert names[..|names|] == names;
    return Some(raws);
  }

  lemma {:induction false} AliasListPrefix(u: Unicode, names: seq<string>, k: nat)
    requires k <= |names| && AliasList(u, names).Some?
    ensures AliasList(u, names[..k]).Some?
    decreases |names|
  {
    if k < |names| {
      var m := |names| - 1;
      AliasListPrefix(u, names[..m], k);
      assert names[..m][..k] == names[..k];
    } else {
      assert names[..k] == names;
    }
  }

  // ----- every alias is legal and no two coincide -----

  /** A non-blank 8.3 name over the legal alphabet that is not a device name. */
  ghost predicate LegalAlias(raw: Alias)
  {
    exists base, ext :: IsShort(base, ext) && base != "" && !ReservedShortName(base) && raw == ShortRaw(base, ext)
  }

  lemma {:induction false} SanitizeShort(u: Unicode, s: string)
    requires forall c :: c in s ==> UppersToShort(u, c)
    ensures Sanitize(u, s) == Upper(u, s) && |Upper(u, s)| == |s|
  {
    if s != [] {
      assert s[0] in s && forall c :: c in s[1..] ==> c in s;
      SanitizeShort(u, s[1..]);
      assert Upper(u, s) == [u.upper(s[0])[0]] + Upper(u, s[1..]);
    }
  }

  lemma {:induction false} FirstFreeScans(stem: string, ext: string, used: set<Alias>, n: nat) returns (m: nat)
    requires ValidShort(stem) && ValidShort(ext) && |ext| <= 3 && 1 <= n <= ALIAS_LIMIT
    ensures n <= m <= ALIAS_LIMIT
    ensures forall j :: n <= j < m ==> Candidate(stem, ext, j) in used
    ensures m == ALIAS_LIMIT ==> FirstFree(stem, ext, used, n) == None
    ensures m < ALIAS_LIMIT ==>
              FirstFree(stem, ext, used, n) == Some(Candidate(stem, ext, m)) && Candidate(stem, ext, m) !in used
    decreases ALIAS_LIMIT - n
  {
    hide Candidate, CandidateBase;
    if n == ALIAS_LIMIT || Candidate(stem, ext, n) !in used {
      m := n;
    } else {
      m := FirstFreeScans(stem, ext, used, n + 1);
    }
  }

  lemma {:induction false} AliasForIsLegal(u: Unicode, name: string, used: set<Alias>)
    requires AliasFor(u, name, used).Some?
    ensures LegalAlias(AliasFor(u, name, used).value)
    ensures AliasFor(u, name, used).value !in used
  {
    var (base, ext) := SplitFilename(name);
    if DirectlyRepresentable(u, name, used) {
      forall c | c in base ensures UppersToShort(u, c) { assert c in base + ext; }
      SanitizeShort(u, base);
      assert Take(Sanitize(u, base), 8) == Upper(u, base);
    } else {
      var m := FirstFreeScans(Stem(u, name), CleanExtension(u, name), used, 1);
      assert IsShort(CandidateBase(Stem(u, name), m), CleanExtension(u, name));
    }
  }

  lemma {:induction false} AliasesAreLegalAndDistinct(u: Unicode, names: seq<string>)
    requires AliasList(u, names).Some?
    ensures forall i :: 0 <= i < |names| ==> LegalAlias(AliasList(u, names).value[i])
    ensures forall i, j :: 0 <= i < j < |names| ==> AliasList(u, names).value[i] != AliasList(u, names).value[j]
  {
    if names != [] {
      var k := |names| - 1;
      var raw := LastAlias(u, names, k);
      hide AliasList, LegalAlias;
      AliasesAreLegalAndDistinct(u, names[..k]);
    }
  }

  lemma {:induction false} LastAlias(u: Unicode, names: seq<string>, k: nat) returns (raw: Alias)
    requires |names| == k + 1 && AliasList(u, names).Some?
    ensures AliasList(u, names[..k]).Some? && AliasList(u, names).value == AliasList(u, names[..k]).value + [raw]
    ensures LegalAlias(raw) && raw !in AliasList(u, names[..k]).value
  {
    hide AliasFor, LegalAlias;
    var before := AliasList(u, names[..k]).value;
    raw := AliasFor(u, names[k], Elements(before)).value;
    AliasForIsLegal(u, names[k], Elements(before));
  }

  // ----- the search cannot run out -----

  lemma {:induction false} StripUndoesPadding(s: string, k: nat)
    requires s != [] ==> !IsSpace(s[|s| - 1])
    ensures RStrip(s + Repeat(' ', k)) == s
  {
    if k == 0 {
      assert s + Repeat(' ', 0) == s;
    } else {
      StripUndoesPadding(s, k - 1);
      assert (s + Repeat(' ', k))[..|s| + k - 1] == s + Repeat(' ', k - 1);
    }
  }

  lemma {:induction false} RawBaseReadsBack(base: string, ext: string)
    requires IsShort(base, ext)
    ensures RStrip(AsciiText(ShortRaw(base, ext)[..8])) == base
  {
    assert base != [] ==> base[|base| - 1] in base;
    StripUndoesPadding(base, 8 - |base|);
    assert LJust(base, 8) == base + Repeat(' ', 8 - |base|);
  }

  /** The text after the last `~`. */
  function AfterTilde(s: string): string
  {
    if s == [] || s[|s| - 1] == '~' then [] else AfterTilde(s[..|s| - 1]) + [s[|s| - 1]]
  }

  lemma {:induction false} AfterTildeReadsBack(s: string, d: string)
    requires '~' !in d
    ensures AfterTilde(s + "~" + d) == d
  {
    if d == [] {
      assert s + "~" + d == s + "~";
    } else {
      var k := |d| - 1;
      AfterTildeReadsBack(s, d[..k]);
      assert (s + "~" + d)[..|s| + 1 + k] == s + "~" + d[..k];
      assert (s + "~" + d)[|s| + 1 + k] == d[k];
      assert d[k] in d;
    }
  }

  /** The number of a candidate can be read back from its eleven bytes. */
  lemma {:induction false} CandidateReadsBack(stem: string, ext: string, n: nat)
    requires ValidShort(stem) && ValidShort(ext) && |ext| <= 3 && 1 <= n < ALIAS_LIMIT
    ensures AfterTilde(RStrip(AsciiText(Candidate(stem, ext, n)[..8]))) == Decimal(n)
    ensures DecimalValue(Decimal(n)) == n
  {
    var head := Take(stem, 8 - |Suffix(n)|);
    var base := CandidateBase(stem, n);
    assert base == head + "~" + Decimal(n);
    RawBaseReadsBack(base, ext);
    hide CandidateBase, ShortRaw, RStrip, AsciiText, Take, Decimal, DecimalValue, AfterTilde;
    NoTilde(n);
    AfterTildeReadsBack(head, Decimal(n));
    DecimalRoundTrip(n);
  }

  lemma {:induction false} NoTilde(n: nat)
    ensures '~' !in Decimal(n)
  {
    hide Decimal;
  }

  lemma {:induction false} Pigeonhole<T>(cs: seq<T>, used: set<T>)
    requires forall i, j :: 0 <= i < j < |cs| ==> cs[i] != cs[j]
    requires forall i :: 0 <= i < |cs| ==> cs[i] in used
    ensures |cs| <= |used|
  {
    if cs != [] {
      Pigeonhole(cs[1..], used - {cs[0]});
    }
  }

  lemma {:induction false} CandidatesDiffer(stem: string, ext: string, m: nat, n: nat)
    requires ValidShort(stem) && ValidShort(ext) && |ext| <= 3
    requires 1 <= m < n < ALIAS_LIMIT
    ensures Candidate(stem, ext, m) != Candidate(stem, ext, n)
  {
    CandidateReadsBack(stem, ext, m);
    CandidateReadsBack(stem, ext, n);
  }

  lemma {:induction false} Candidates(stem: string, ext: string, k: nat) returns (cs: seq<Alias>)
    requires ValidShort(stem) && ValidShort(ext) && |ext| <= 3 && k < ALIAS_LIMIT
    ensures |cs| == k
    ensures forall i :: 0 <= i < k ==> cs[i] == Candidate(stem, ext, i + 1)
    ensures forall i, j :: 0 <= i < j < k ==> cs[i] != cs[j]
  {
    hide Candidate;
    if k == 0 {
      cs := [];
    } else {
      var before := Candidates(stem, ext, k - 1);
      forall i | 0 <= i < k - 1 ensures before[i] != Candidate(stem, ext, k) {
        CandidatesDiffer(stem, ext, i + 1, k);
      }
      cs := before + [Candidate(stem, ext, k)];
    }
  }

  /** The search stops within `|used| + 1` tries. */
  lemma {:induction false} SearchIsShort(stem: string, ext: string, used: set<Alias>)
    requires ValidShort(stem) && ValidShort(ext) && |ext| <= 3
    requires |used| + 1 < ALIAS_LIMIT
    ensures exists m :: 1 <= m <= |used| + 1 && FirstFree(stem, ext, used, 1) == Some(Candidate(stem, ext, m))
  {
    hide Candidate;
    var m := FirstFreeScans(stem, ext, used, 1);
    var cs := Candidates(stem, ext, m - 1);
    Pigeonhole(cs, used);
  }

  lemma {:induction false} ElementsSize<T>(s: seq<T>)
    ensures |Elements(s)| <= |s|
  {
    if s != [] {
      var k := |s| - 1;
      ElementsSize(s[..k]);
      assert Elements(s) == Elements(s[..k]) + {s[k]};
    }
  }

  /** A directory of at most 999,999 children always gets its aliases. */
  lemma {:induction false} AliasesExist(u: Unicode, names: seq<string>)
    requires |names| < ALIAS_LIMIT
    ensures AliasList(u, names).Some?
  {
    if names != [] {
      var k := |names| - 1;
      AliasesExist(u, names[..k]);
      var used := Elements(AliasList(u, names[..k]).value);
      ElementsSize(AliasList(u, names[..k]).value);
      SearchIsShort(Stem(u, names[k]), CleanExtension(u, names[k]), used);
    }
  }
}
