/** What an alias has to do with the name it stands for, with the alphabet and the device names
    written out. */
module FatAliases {
  import opened Bytes
  import opened Text
  import opened FatNames

  const LETTERS := {
    'A', 'B', 'C', 'D', 'E', 'F', 'G', 'H', 'I', 'J', 'K', 'L', 'M',
    'N', 'O', 'P', 'Q', 'R', 'S', 'T', 'U', 'V', 'W', 'X', 'Y', 'Z'}

  const DIGITS := {'0', '1', '2', '3', '4', '5', '6', '7', '8', '9'}

  const MARKS := {'$', '%', '\'', '-', '_', '@', '~', '`', '!', '(', ')', '{', '}', '^', '#', '&'}

  predicate Legal(c: char) { c in LETTERS || c in DIGITS || c in MARKS }

  const DEVICES := {
    "CON", "PRN", "AUX", "NUL",
    "COM1", "COM2", "COM3", "COM4", "COM5", "COM6", "COM7", "COM8", "COM9",
    "LPT1", "LPT2", "LPT3", "LPT4", "LPT5", "LPT6", "LPT7", "LPT8", "LPT9"}

  /** `b` and `x` are the text before and after the last dot; a name that has none, or starts with
      one, is all base. */
  ghost predicate SplitsAs(name: string, b: string, x: string)
  {
    if '.' in name && name[0] != '.' then name == b + "." + x && '.' !in x else name == b && x == ""
  }

  /** One string after the other. */
  function Flat(parts: seq<string>): string { if parts == [] then "" else parts[0] + Flat(parts[1..]) }

  function UpperText(u: Unicode, s: string): string { Flat(seq(|s|, i requires 0 <= i < |s| => u.upper(s[i]))) }

  /** The upper-case text without blanks and dots, and `_` for every other illegal character. */
  function CleanText(u: Unicode, s: string): string
  {
    var t := UpperText(u, s);
    Flat(seq(|t|, i requires 0 <= i < |t| => if Legal(t[i]) then [t[i]] else if t[i] in " ." then "" else "_"))
  }

  /** The eleven bytes of a base and an extension, padded with blanks. */
  ghost predicate RawIs(raw: Alias, base: string, ext: string)
  {
    && |base| <= 8 && |ext| <= 3
    && (forall k :: 0 <= k < 8 ==> raw[k] == if k < |base| then base[k] as int else 32)
    && forall k :: 0 <= k < 3 ==> raw[8 + k] == if k < |ext| then ext[k] as int else 32
  }

  ghost predicate LegalUpper(u: Unicode, s: string)
  {
    forall c :: c in s ==> |u.upper(c)| == 1 && Legal(u.upper(c)[0])
  }

  /** The name fits 8.3 as it is, in upper case. */
  ghost predicate IsDirect(u: Unicode, b: string, x: string, used: set<Alias>)
  {
    && 1 <= |b| <= 8 && |x| <= 3 && LegalUpper(u, b) && LegalUpper(u, x) && UpperText(u, b) !in DEVICES
    && forall raw: Alias :: RawIs(raw, UpperText(u, b), UpperText(u, x)) ==> raw !in used
  }

  /** The base with the number `n`: as much of the cleaned base as fits before `~n`. */
  function Numbered(stem: string, n: nat): string
  {
    var tail := "~" + Decimal(n);
    (if |stem| <= 8 - |tail| then stem else if |tail| <= 8 then stem[..8 - |tail|] else "") + tail
  }

  function StemOf(u: Unicode, b: string): string { if CleanText(u, b) == "" then "_" else CleanText(u, b) }

  function ShortExt(u: Unicode, x: string): string
  {
    var e := CleanText(u, x);
    if |e| <= 3 then e else e[..3]
  }

  ghost predicate IsNumbered(u: Unicode, b: string, x: string, n: nat, raw: Alias)
  {
    RawIs(raw, Numbered(StemOf(u, b), n), ShortExt(u, x))
  }

  ghost predicate Taken(u: Unicode, b: string, x: string, used: set<Alias>, n: nat)
  {
    forall raw :: IsNumbered(u, b, x, n, raw) ==> raw in used
  }

  /** The alias of a name: its upper-case self, or the first number that is free. */
  ghost predicate AliasIs(u: Unicode, b: string, x: string, used: set<Alias>, raw: Alias)
  {
    && raw !in used
    && if IsDirect(u, b, x, used) then RawIs(raw, UpperText(u, b), UpperText(u, x))
       else exists n: nat :: 1 <= n < 1_000_000 && IsNumbered(u, b, x, n, raw)
                               && forall m :: 1 <= m < n ==> Taken(u, b, x, used, m)
  }

  // ----- the pieces of the computation -----

  lemma {:induction false} LastDotOf(b: string, x: string)
    requires '.' !in x
    ensures LastDot(b + "." + x) == |b|
  {
    var name := b + "." + x;
    if x == "" {
      assert name == b + ".";
    } else {
      var k := |x| - 1;
      assert name[|name| - 1] == x[k] && x[k] in x;
      assert name[..|name| - 1] == b + "." + x[..k];
      LastDotOf(b, x[..k]);
    }
  }

  lemma {:induction false} SplitIs(name: string, b: string, x: string)
    requires SplitsAs(name, b, x)
    ensures SplitFilename(name) == (b, x)
  {
    if '.' in name && name[0] != '.' {
      LastDotOf(b, x);
      assert name[..|b|] == b && name[|b| + 1..] == x;
    }
  }

  lemma {:induction false} FlatCons(p: string, parts: seq<string>)
    ensures Flat([p] + parts) == p + Flat(parts)
  {
    assert ([p] + parts)[1..] == parts;
  }

  lemma {:induction false} UpperIs(u: Unicode, s: string)
    ensures Upper(u, s) == UpperText(u, s)
  {
    if s != [] {
      UpperIs(u, s[1..]);
      var rest := seq(|s| - 1, i requires 0 <= i < |s| - 1 => u.upper(s[1..][i]));
      FlatCons(u.upper(s[0]), rest);
      assert seq(|s|, i requires 0 <= i < |s| => u.upper(s[i])) == [u.upper(s[0])] + rest;
    }
  }

  lemma {:induction false} LetterChar(c: char)
    ensures c in LETTERS <==> 'A' <= c <= 'Z'
  {
  }

  lemma {:induction false} DigitChar(c: char)
    ensures c in DIGITS <==> '0' <= c <= '9'
  {
  }

  lemma {:induction false} MarkChar(c: char)
    ensures c in MARKS <==> ValidShortChar(c) && !('A' <= c <= 'Z') && !('0' <= c <= '9')
  {
  }

  lemma {:induction false} LegalChar(c: char)
    ensures ValidShortChar(c) <==> Legal(c)
  {
    LetterChar(c);
    DigitChar(c);
    MarkChar(c);
    hide LETTERS, DIGITS, MARKS;
  }

  function KeptPart(c: char): string { if Legal(c) then [c] else if c in " ." then "" else "_" }

  lemma {:induction false} KeepIs(t: string)
    ensures KeepShort(t) == Flat(seq(|t|, i requires 0 <= i < |t| => KeptPart(t[i])))
  {
    if t != [] {
      KeepIs(t[1..]);
      LegalChar(t[0]);
      var rest := seq(|t| - 1, i requires 0 <= i < |t| - 1 => KeptPart(t[1..][i]));
      hide Legal;
      FlatCons(KeptPart(t[0]), rest);
      assert seq(|t|, i requires 0 <= i < |t| => KeptPart(t[i])) == [KeptPart(t[0])] + rest;
    }
  }

  lemma {:induction false} CleanIs(u: Unicode, s: string)
    ensures Sanitize(u, s) == CleanText(u, s)
  {
    UpperIs(u, s);
    var t := UpperText(u, s);
    KeepIs(t);
    assert seq(|t|, i requires 0 <= i < |t| => KeptPart(t[i])) ==
           seq(|t|, i requires 0 <= i < |t| => if Legal(t[i]) then [t[i]] else if t[i] in " ." then "" else "_");
  }

  lemma {:induction false} Port(s: string, kind: string)
    requires |kind| == 3
    ensures |s| == 4 && s[..3] == kind && '1' <= s[3] <= '9' <==>
            s in {kind + "1", kind + "2", kind + "3", kind + "4", kind + "5", kind + "6", kind + "7",
                  kind + "8", kind + "9"}
  {
    if |s| == 4 { assert s == s[..3] + [s[3]]; }
  }

  lemma {:induction false} DeviceIs(s: string)
    ensures ReservedShortName(s) <==> s in DEVICES
  {
    Port(s, "COM");
    Port(s, "LPT");
    forall d | d in {"1", "2", "3", "4", "5", "6", "7", "8", "9"} ensures "COM" + d in DEVICES && "LPT" + d in DEVICES {
      assert "COM" + "1" == "COM1" && "COM" + "2" == "COM2" && "COM" + "3" == "COM3" && "COM" + "4" == "COM4";
      assert "COM" + "5" == "COM5" && "COM" + "6" == "COM6" && "COM" + "7" == "COM7" && "COM" + "8" == "COM8";
      assert "LPT" + "1" == "LPT1" && "LPT" + "2" == "LPT2" && "LPT" + "3" == "LPT3" && "LPT" + "4" == "LPT4";
      assert "LPT" + "5" == "LPT5" && "LPT" + "6" == "LPT6" && "LPT" + "7" == "LPT7" && "LPT" + "8" == "LPT8";
      assert "COM" + "9" == "COM9" && "LPT" + "9" == "LPT9";
    }
  }

  lemma {:induction false} RawOf(base: string, ext: string, raw: Alias)
    requires IsShort(base, ext)
    ensures raw == ShortRaw(base, ext) <==> RawIs(raw, base, ext)
  {
    PaddedIsAscii(base, 8);
    PaddedIsAscii(ext, 3);
    var r := ShortRaw(base, ext);
    assert r == Ascii(LJust(base, 8)) + Ascii(LJust(ext, 3));
    assert forall k :: 0 <= k < 8 ==> r[k] == LJust(base, 8)[k] as int;
    assert forall k :: 0 <= k < 3 ==> r[8 + k] == LJust(ext, 3)[k] as int;
    hide ShortRaw, Ascii;
    assert RawIs(r, base, ext);
    if RawIs(raw, base, ext) {
      forall k | 0 <= k < 11 ensures raw[k] == r[k] { if k >= 8 { assert raw[8 + (k - 8)] == r[8 + (k - 8)]; } }
    }
  }

  // ----- the alias -----

  lemma {:induction false} UpperLegal(u: Unicode, s: string)
    requires LegalUpper(u, s)
    ensures Sanitize(u, s) == Upper(u, s) == UpperText(u, s) && |UpperText(u, s)| == |s|
    ensures ValidShort(UpperText(u, s))
  {
    forall c | c in s ensures UppersToShort(u, c) { LegalChar(u.upper(c)[0]); }
    SanitizeShort(u, s);
    UpperIs(u, s);
  }

  lemma {:induction false} LegalUpperIs(u: Unicode, b: string, x: string)
    ensures (forall c :: c in b + x ==> UppersToShort(u, c)) <==> LegalUpper(u, b) && LegalUpper(u, x)
  {
    forall c | |u.upper(c)| == 1 ensures ValidShortChar(u.upper(c)[0]) <==> Legal(u.upper(c)[0]) {
      LegalChar(u.upper(c)[0]);
    }
    hide ValidShortChar, Legal;
    assert forall c :: c in b + x <==> c in b || c in x;
  }

  lemma {:induction false} DirectRaw(u: Unicode, name: string, b: string, x: string)
    requires SplitsAs(name, b, x) && LegalUpper(u, b) && LegalUpper(u, x) && |b| <= 8 && |x| <= 3
    ensures forall raw: Alias :: RawIs(raw, UpperText(u, b), UpperText(u, x)) <==> raw == DirectAlias(u, name)
  {
    SplitIs(name, b, x);
    UpperLegal(u, b);
    UpperLegal(u, x);
    hide SplitFilename, LegalUpper, UpperText, Sanitize, RawIs, ShortRaw;
    forall raw: Alias ensures RawIs(raw, UpperText(u, b), UpperText(u, x)) <==> raw == DirectAlias(u, name) {
      RawOf(UpperText(u, b), UpperText(u, x), raw);
    }
  }

  lemma {:induction false} DirectIs(u: Unicode, name: string, b: string, x: string, used: set<Alias>)
    requires SplitsAs(name, b, x)
    ensures DirectlyRepresentable(u, name, used) <==> IsDirect(u, b, x, used)
  {
    SplitIs(name, b, x);
    LegalUpperIs(u, b, x);
    if LegalUpper(u, b) && LegalUpper(u, x) && |b| <= 8 && |x| <= 3 {
      DirectRaw(u, name, b, x);
      UpperLegal(u, b);
      DeviceIs(UpperText(u, b));
    }
    hide SplitFilename, LegalUpper, UpperText, Sanitize, RawIs, DirectAlias, ReservedShortName, DEVICES, UppersToShort;
  }

  lemma {:induction false} PartsAre(u: Unicode, name: string, b: string, x: string)
    requires SplitsAs(name, b, x)
    ensures Stem(u, name) == StemOf(u, b) && CleanExtension(u, name) == ShortExt(u, x)
  {
    SplitIs(name, b, x);
    CleanIs(u, b);
    CleanIs(u, x);
    hide SplitFilename, CleanText, Sanitize;
  }

  lemma {:induction false} BaseIs(stem: string, n: nat)
    requires ValidShort(stem) && 1 <= n < ALIAS_LIMIT
    ensures CandidateBase(stem, n) == Numbered(stem, n)
  {
    hide Decimal;
  }

  lemma {:induction false} CandidateIs(u: Unicode, name: string, b: string, x: string, n: nat, raw: Alias)
    requires SplitsAs(name, b, x) && 1 <= n < ALIAS_LIMIT
    ensures raw == Candidate(Stem(u, name), CleanExtension(u, name), n) <==> IsNumbered(u, b, x, n, raw)
  {
    PartsAre(u, name, b, x);
    BaseIs(Stem(u, name), n);
    hide SplitsAs, RawIs, CandidateBase, Numbered, ShortRaw, Stem, CleanExtension, StemOf, ShortExt;
    RawOf(CandidateBase(Stem(u, name), n), CleanExtension(u, name), raw);
  }

  /** Every alias is the one its name, and what was used before, determine. */
  lemma {:induction false} AliasForIs(u: Unicode, name: string, b: string, x: string, used: set<Alias>)
    requires SplitsAs(name, b, x)
    ensures AliasFor(u, name, used).Some? ==> AliasIs(u, b, x, used, AliasFor(u, name, used).value)
    ensures AliasFor(u, name, used).None? <==>
            !IsDirect(u, b, x, used) && forall n: nat :: 1 <= n < 1_000_000 ==> Taken(u, b, x, used, n)
  {
    DirectIs(u, name, b, x, used);
    if DirectlyRepresentable(u, name, used) {
      assert LegalUpper(u, b) && LegalUpper(u, x);
      DirectRaw(u, name, b, x);
      hide DirectlyRepresentable, DirectAlias, RawIs;
    } else {
      var stem, ext := Stem(u, name), CleanExtension(u, name);
      var m := FirstFreeScans(stem, ext, used, 1);
      hide DirectlyRepresentable, Stem, CleanExtension, IsNumbered, Candidate, IsDirect, FirstFree;
      forall n: nat | 1 <= n < 1_000_000 ensures Taken(u, b, x, used, n) <==> Candidate(stem, ext, n) in used {
        forall raw ensures raw == Candidate(stem, ext, n) <==> IsNumbered(u, b, x, n, raw) {
          CandidateIs(u, name, b, x, n, raw);
        }
      }
      if m < ALIAS_LIMIT { CandidateIs(u, name, b, x, m, Candidate(stem, ext, m)); }
    }
  }

  lemma {:induction false} AliasAt(u: Unicode, names: seq<string>, i: nat)
    requires AliasList(u, names).Some? && i < |names|
    ensures AliasFor(u, names[i], Elements(AliasList(u, names).value[..i])) == Some(AliasList(u, names).value[i])
  {
    hide AliasFor, Elements;
    var k := |names| - 1;
    var before := AliasList(u, names[..k]).value;
    if i < k {
      AliasAt(u, names[..k], i);
      assert AliasList(u, names).value[..i] == before[..i];
    } else {
      assert AliasList(u, names).value[..i] == before;
    }
  }

  /** In a directory each child is given its alias in turn. */
  lemma {:induction false} AliasesAre(u: Unicode, names: seq<string>, i: nat, b: string, x: string)
    requires AliasList(u, names).Some? && i < |names| && SplitsAs(names[i], b, x)
    ensures var raws := AliasList(u, names).value; AliasIs(u, b, x, set k | 0 <= k < i :: raws[k], raws[i])
  {
    var raws := AliasList(u, names).value;
    hide AliasList, AliasIs, AliasFor;
    AliasAt(u, names, i);
    assert Elements(raws[..i]) == set k | 0 <= k < i :: raws[k] by { FirstOnes(raws, i); }
    AliasForIs(u, names[i], b, x, Elements(raws[..i]));
  }

  lemma {:induction false} FirstOnes(raws: seq<Alias>, i: nat)
    requires i <= |raws|
    ensures Elements(raws[..i]) == set k | 0 <= k < i :: raws[k]
  {
    forall a | a in raws[..i] ensures exists k :: 0 <= k < i && raws[k] == a {
      var k :| 0 <= k < i && raws[..i][k] == a;
      assert raws[k] == a;
    }
  }

  // ----- how it is displayed -----

  lemma {:induction false} DisplayIs(raw: Alias, base: string, ext: string)
    requires IsShort(base, ext) && RawIs(raw, base, ext)
    ensures DisplayName(raw) == if ext == "" then base else base + "." + ext
  {
    RawOf(base, ext, raw);
    hide RawIs, IsShort;
    RawBaseReadsBack(base, ext);
    RawExtReadsBack(base, ext);
    hide ShortRaw;
  }

  lemma {:induction false} RawExtReadsBack(base: string, ext: string)
    requires IsShort(base, ext)
    ensures RStrip(AsciiText(ShortRaw(base, ext)[8..])) == ext
  {
    assert ext != [] ==> ext[|ext| - 1] in ext;
    StripUndoesPadding(ext, 3 - |ext|);
    assert LJust(ext, 3) == ext + Repeat(' ', 3 - |ext|);
    PaddedIsAscii(ext, 3);
    var raw := ShortRaw(base, ext);
    RawOf(base, ext, raw);
    hide ShortRaw;
    assert AsciiText(raw[8..]) == LJust(ext, 3) by {
      forall k | 0 <= k < 3 ensures AsciiText(raw[8..])[k] == LJust(ext, 3)[k] {
        assert raw[8..][k] == raw[8 + k] == LJust(ext, 3)[k] as int;
      }
    }
  }

  /** A name that fits 8.3 is displayed in upper case, so one that is in upper case already is
      displayed as it is. */
  lemma {:induction false} DirectDisplays(u: Unicode, name: string, b: string, x: string, used: set<Alias>)
    requires SplitsAs(name, b, x) && IsDirect(u, b, x, used)
    ensures AliasFor(u, name, used).Some?
    ensures var shown := DisplayName(AliasFor(u, name, used).value);
            && shown == (if x == "" then UpperText(u, b) else UpperText(u, b) + "." + UpperText(u, x))
            && (x != "" && (forall c :: c in b + x ==> u.upper(c) == [c]) ==> shown == b + "." + x)
            && (x == "" && (forall c :: c in b ==> u.upper(c) == [c]) ==> shown == b)
  {
    DirectIs(u, name, b, x, used);
    UpperLegal(u, b);
    UpperLegal(u, x);
    DirectRaw(u, name, b, x);
    DisplayIs(DirectAlias(u, name), UpperText(u, b), UpperText(u, x));
    hide DisplayName, DirectAlias, DirectlyRepresentable, RawIs, Sanitize, UpperText;
    assert x == "" ==> UpperText(u, x) == "";
    if forall c :: c in b ==> u.upper(c) == [c] { UpperAlready(u, b); }
    if forall c :: c in b + x ==> u.upper(c) == [c] {
      assert forall c :: c in b || c in x ==> c in b + x;
      UpperAlready(u, b);
      UpperAlready(u, x);
    }
  }

  lemma {:induction false} UpperAlready(u: Unicode, s: string)
    requires forall c :: c in s ==> u.upper(c) == [c]
    ensures UpperText(u, s) == s
  {
    UpperIs(u, s);
    hide UpperText;
    if s != "" {
      assert s[0] in s && forall c :: c in s[1..] ==> c in s;
      UpperAlready(u, s[1..]);
      UpperIs(u, s[1..]);
    }
  }
}
