/** The cursor loops of `_layout_partitions` (gpt_image.py) and `create_mbr_image`: greedy,
    in-order placement with alignment and optional fixed starts. */
module Placement {
  import opened Bytes

  /** What placement needs of one partition spec.  `start == 0` asks for automatic placement;
      `admitted` stands for the checks that do not concern placement. */
  datatype Slot = Slot(size: int, alignment: int, start: int, admitted: bool)
  {
    function Sectors(): int { size / 512 }
  }

  predicate ValidSlot(s: Slot)
  {
    s.size > 0 && s.size % 512 == 0 && s.alignment > 0 && s.start >= 0 && s.admitted
  }

  // ----- _align_up -----

  function AlignUp(value: nat, alignment: nat): (r: nat)
    requires alignment > 0
    ensures r >= value && r % alignment == 0
    ensures forall m: nat :: value <= m && m % alignment == 0 ==> r <= m
  {
    var q := (value + alignment - 1) / alignment;
    var r := q * alignment;
    AlignedUp(value, alignment, q);
    r
  }

  lemma {:induction false} MulMonotone(a: nat, x: int, y: int)
    requires x <= y
    ensures a * x <= a * y
  {
    assert a * y == a * x + a * (y - x);
  }

  lemma {:induction false} MulCancel(a: nat, x: int, y: int)
    requires a * x < a * y
    ensures x < y
  {
    if y <= x { MulMonotone(a, y, x); }
  }

  lemma {:induction false} MultipleMod(q: nat, a: nat)
    requires a > 0
    ensures a * q % a == 0
  {
    var n := a * q;
    var k := n / a;
    assert n == a * k + n % a;
    assert a * (k + 1) == a * k + a;
    MulCancel(a, q, k + 1);
    MulMonotone(a, q, k);
  }

  lemma {:induction false} AlignedUp(value: nat, a: nat, q: nat)
    requires a > 0 && q == (value + a - 1) / a
    ensures q * a >= value && q * a % a == 0
    ensures forall m: nat :: value <= m && m % a == 0 ==> q * a <= m
  {
    var n := value + a - 1;
    assert n == a * q + n % a && q * a == a * q;
    MultipleMod(q, a);
    forall m: nat | value <= m && m % a == 0 ensures q * a <= m {
      var k := m / a;
      assert m == a * k;
      assert a * (k + 1) == a * k + a;
      MulCancel(a, q, k + 1);
      MulMonotone(a, q, k);
    }
  }

  // ----- the loop -----

  /** Where the next partition goes, if it can go anywhere. */
  function PlaceOne(s: Slot, cursor: nat, last: int): Option<nat>
  {
    if !ValidSlot(s) || (s.start != 0 && (s.start % s.alignment != 0 || s.start < cursor)) then None
    else
      var start := if s.start != 0 then s.start else AlignUp(cursor, s.alignment);
      if start + s.Sectors() - 1 > last then None else Some(start)
  }

  function Place(slots: seq<Slot>, cursor: nat, last: int): (r: Option<seq<nat>>)
    ensures r.Some? ==> |r.value| == |slots|
    decreases |slots|
  {
    if slots == [] then Some([])
    else
      var start := PlaceOne(slots[0], cursor, last);
      if start.None? then None
      else
        var rest := Place(slots[1..], start.value + slots[0].Sectors(), last);
        if rest.None? then None else Some([start.value] + rest.value)
  }

  method LayoutPartitions(slots: seq<Slot>, first: nat, last: int) returns (r: Option<seq<nat>>)
    ensures r == Place(slots, first, last)
  {
    var starts: seq<nat> := [];
    var cursor := first;
    JoinedAssoc([], 0, Place(slots, first, last));
    assert slots[0..] == slots;
    for i := 0 to |slots|
      invariant first <= cursor
      invariant Place(slots, first, last) == Joined(starts, Place(slots[i..], cursor, last))
    {
      var s := slots[i];
      assert slots[i..][0] == s && slots[i..][1..] == slots[i + 1..];
      if s.size <= 0 || s.size % 512 != 0 || s.alignment <= 0 || s.start < 0 || !s.admitted { return None; }
      var start: nat;
      if s.start != 0 {
        start := s.start;
        if start % s.alignment != 0 || start < cursor { return None; }
      } else {
        start := AlignUp(cursor, s.alignment);
      }
      var end := start + s.size / 512 - 1;
      if start < first || end > last { return None; }
      JoinedAssoc(starts, start, Place(slots[i + 1..], end + 1, last));
      starts := starts + [start];
      cursor := end + 1;
    }
    assert slots[|slots|..] == [];
    assert starts + [] == starts;
    return Some(starts);
  }

  ghost function Joined(head: seq<nat>, rest: Option<seq<nat>>): Option<seq<nat>>
  {
    if rest.None? then None else Some(head + rest.value)
  }

  lemma {:induction false} JoinedAssoc(head: seq<nat>, start: nat, rest: Option<seq<nat>>)
    ensures Joined(head, Joined([start], rest)) == Joined(head + [start], rest)
    ensures Joined([], rest) == rest
  {
    if rest.Some? {
      assert head + ([start] + rest.value) == head + [start] + rest.value;
      assert [] + rest.value == rest.value;
    }
  }

  // ----- what a placement is -----

  /** In order, aligned, disjoint, at or after `cursor`, ending by `last`, honouring fixed starts. */
  ghost predicate Placed(slots: seq<Slot>, starts: seq<nat>, cursor: int, last: int)
  {
    && |starts| == |slots|
    && forall i :: 0 <= i < |slots| ==> PlacedAt(slots, starts, cursor, last, i)
  }

  ghost predicate PlacedAt(slots: seq<Slot>, starts: seq<nat>, cursor: int, last: int, i: int)
    requires |starts| == |slots| && 0 <= i < |slots|
  {
    && ValidSlot(slots[i])
    && starts[i] % slots[i].alignment == 0
    && (slots[i].start != 0 ==> starts[i] == slots[i].start)
    && starts[i] >= (if i == 0 then cursor else starts[i - 1] + slots[i - 1].Sectors())
    && starts[i] + slots[i].Sectors() - 1 <= last
  }

  lemma {:induction false} PlacedTail(slots: seq<Slot>, starts: seq<nat>, cursor: int, last: int)
    requires slots != [] && Placed(slots, starts, cursor, last)
    ensures Placed(slots[1..], starts[1..], starts[0] + slots[0].Sectors(), last)
  {
    assert PlacedAt(slots, starts, cursor, last, 0);
    var tail, rest, next := slots[1..], starts[1..], starts[0] + slots[0].Sectors();
    forall i | 0 <= i < |tail| ensures PlacedAt(tail, rest, next, last, i) {
      assert PlacedAt(slots, starts, cursor, last, i + 1);
    }
  }

  lemma {:induction false} PlacedCons(slots: seq<Slot>, start: nat, rest: seq<nat>, cursor: nat, last: int)
    requires slots != [] && PlaceOne(slots[0], cursor, last) == Some(start)
    requires Placed(slots[1..], rest, start + slots[0].Sectors(), last)
    ensures Placed(slots, [start] + rest, cursor, last)
  {
    var starts := [start] + rest;
    forall i | 0 <= i < |slots| ensures PlacedAt(slots, starts, cursor, last, i) {
      if i > 0 {
        assert PlacedAt(slots[1..], rest, start + slots[0].Sectors(), last, i - 1);
        assert starts[i] == rest[i - 1] && slots[1..][i - 1] == slots[i];
        if i > 1 { assert starts[i - 1] == rest[i - 2] && slots[1..][i - 2] == slots[i - 1]; }
      }
    }
  }

  /** Accepted partitions satisfy every requirement. */
  lemma {:induction false} PlaceIsSound(slots: seq<Slot>, cursor: nat, last: int)
    requires Place(slots, cursor, last).Some?
    ensures Placed(slots, Place(slots, cursor, last).value, cursor, last)
    decreases |slots|
  {
    if slots != [] {
      var start := PlaceOne(slots[0], cursor, last).value;
      PlaceIsSound(slots[1..], start + slots[0].Sectors(), last);
      PlacedCons(slots, start, Place(slots[1..], start + slots[0].Sectors(), last).value, cursor, last);
    }
  }

  /** The greedy start is the least one, for every partition. */
  lemma {:induction false} PlaceIsLeast(slots: seq<Slot>, cursor: nat, last: int, other: seq<nat>, ahead: int)
    requires cursor <= ahead && Placed(slots, other, ahead, last)
    ensures Place(slots, cursor, last).Some?
    ensures forall i :: 0 <= i < |slots| ==> Place(slots, cursor, last).value[i] <= other[i]
    decreases |slots|
  {
    if slots != [] {
      assert PlacedAt(slots, other, ahead, last, 0);
      var start := PlaceOne(slots[0], cursor, last).value;
      assert start <= other[0];
      PlacedTail(slots, other, ahead, last);
      PlaceIsLeast(slots[1..], start + slots[0].Sectors(), last, other[1..], other[0] + slots[0].Sectors());
      var rest := Place(slots[1..], start + slots[0].Sectors(), last).value;
      forall i | 0 <= i < |slots| ensures ([start] + rest)[i] <= other[i] {
        if i > 0 { assert other[1..][i - 1] == other[i]; }
      }
    }
  }

  /** Greedy placement succeeds if and only if some placement exists. */
  lemma {:induction false} PlaceIsComplete(slots: seq<Slot>, first: nat, last: int)
    ensures Place(slots, first, last).Some? <==> exists starts :: Placed(slots, starts, first, last)
  {
    if Place(slots, first, last).Some? { PlaceIsSound(slots, first, last); }
    if starts :| Placed(slots, starts, first, last) { PlaceIsLeast(slots, first, last, starts, first); }
  }

  lemma {:induction false} PlacedApart(slots: seq<Slot>, starts: seq<nat>, cursor: int, last: int, i: nat, j: nat)
    requires Placed(slots, starts, cursor, last) && i < j < |slots|
    ensures starts[i] + slots[i].Sectors() <= starts[j]
    decreases j - i
  {
    assert PlacedAt(slots, starts, cursor, last, j);
    if i < j - 1 {
      PlacedApart(slots, starts, cursor, last, i, j - 1);
      assert PlacedAt(slots, starts, cursor, last, j - 1);
    }
  }

  lemma {:induction false} PlacedInside(slots: seq<Slot>, starts: seq<nat>, cursor: int, last: int, i: nat)
    requires Placed(slots, starts, cursor, last) && i < |slots|
    ensures cursor <= starts[i] && starts[i] + slots[i].Sectors() - 1 <= last && slots[i].Sectors() > 0
  {
    assert PlacedAt(slots, starts, cursor, last, i);
    if i > 0 {
      PlacedApart(slots, starts, cursor, last, 0, i);
      assert PlacedAt(slots, starts, cursor, last, 0);
    }
  }
}
