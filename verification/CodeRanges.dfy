/** Where code is in a message: fenced blocks paired from the front, and inline code between them. */
module CodeRanges {
  import opened Common

  type Range = (nat, nat)

  predicate FenceAt(s: string, i: nat) {
    i + 3 <= |s| && s[i] == '`' && s[i + 1] == '`' && s[i + 2] == '`'
  }

  /** The first fence at or after a position. */
  function NextFence(s: string, from: nat): (r: Option<nat>)
    requires from <= |s|
    decreases |s| - from
    ensures r.Some? ==> from <= r.value && FenceAt(s, r.value) && (forall i :: from <= i < r.value ==> !FenceAt(s, i))
    ensures r.None? ==> (forall i :: from <= i ==> !FenceAt(s, i))
  {
    if from + 3 > |s| then None else if FenceAt(s, from) then Some(from) else NextFence(s, from + 1)
  }

  /** The first occurrence of a character in part of the text. */
  function Next(s: string, c: char, from: nat, stop: nat): (r: Option<nat>)
    requires from <= stop <= |s|
    decreases stop - from
    ensures r.Some? ==> from <= r.value < stop && s[r.value] == c && (forall i :: from <= i < r.value ==> s[i] != c)
    ensures r.None? ==> (forall i :: from <= i < stop ==> s[i] != c)
  {
    if from >= stop then None else if s[from] == c then Some(from) else Next(s, c, from + 1, stop)
  }

  /** Inline code at a backtick: up to the next backtick, not empty and on one line. */
  function InlineAt(s: string, i: nat, stop: nat): Option<nat>
    requires i < stop <= |s|
  {
    var closing := Next(s, '`', i + 1, stop);
    var newline := Next(s, '\n', i + 1, stop);
    if closing.Some? && closing.value > i + 1 && (newline.None? || closing.value < newline.value) then closing else None
  }

  /** Inline code of a stretch of text, from the front; a backtick that opens nothing is passed over. */
  function Inline(s: string, i: nat, stop: nat): seq<Range>
    requires i <= stop <= |s|
    decreases stop - i
  {
    if i >= stop then []
    else if s[i] == '`' && InlineAt(s, i, stop).Some? then
      var closing := InlineAt(s, i, stop).value;
      [(i, closing + 1)] + Inline(s, closing + 1, stop)
    else Inline(s, i + 1, stop)
  }

  /** One turn of the loop: inline code is taken whole, anything else is passed over. */
  lemma InlineOnce(s: string, i: nat, stop: nat, out: seq<Range>)
    requires i < stop <= |s|
    ensures s[i] == '`' && InlineAt(s, i, stop).Some? ==>
              i < InlineAt(s, i, stop).value < stop
              && out + [(i, InlineAt(s, i, stop).value + 1)] + Inline(s, InlineAt(s, i, stop).value + 1, stop) == out + Inline(s, i, stop)
    ensures !(s[i] == '`' && InlineAt(s, i, stop).Some?) ==> out + Inline(s, i + 1, stop) == out + Inline(s, i, stop)
  {
  }

  /** The next pair of fences. */
  function NextPair(s: string, pos: nat): (r: Option<Range>)
    requires pos <= |s|
    ensures r.Some? ==> pos <= r.value.0 && r.value.0 + 6 <= r.value.1 <= |s|
  {
    var opening := NextFence(s, pos);
    if opening.None? then None
    else
      var closing := NextFence(s, opening.value + 3);
      if closing.None? then None else Some((opening.value, closing.value + 3))
  }

  /** Inline code before the next pair of fences, the pair, and the rest; after the last pair, inline code to the end. */
  function Reading(s: string, pos: nat): seq<Range>
    requires pos <= |s|
    decreases |s| - pos
  {
    var pair := NextPair(s, pos);
    if pair.None? then Inline(s, pos, |s|)
    else Inline(s, pos, pair.value.0) + [pair.value] + Reading(s, pair.value.1)
  }

  // ---- the algorithms ----

  /** strings.Index for the fence. */
  method IndexFence(s: string, from: nat) returns (r: Option<nat>)
    requires from <= |s|
    ensures r == NextFence(s, from)
  {
    var i := from;
    while i + 3 <= |s| && !FenceAt(s, i)
      invariant i <= |s| && NextFence(s, i) == NextFence(s, from)
    {
      i := i + 1;
    }
    r := if i + 3 <= |s| then Some(i) else None;
  }

  /** strings.IndexByte. */
  method IndexOf(s: string, c: char, from: nat, stop: nat) returns (r: Option<nat>)
    requires from <= stop <= |s|
    ensures r == Next(s, c, from, stop)
  {
    var i := from;
    while i < stop && s[i] != c
      invariant from <= i <= stop && Next(s, c, i, stop) == Next(s, c, from, stop)
    {
      i := i + 1;
    }
    r := if i < stop then Some(i) else None;
  }

  method AppendInlineCode(ranges: seq<Range>, s: string, from: nat, stop: nat) returns (out: seq<Range>)
    requires from <= stop <= |s|
    ensures out == ranges + Inline(s, from, stop)
  {
    out := ranges;
    var i := from;
    while i < stop
      invariant from <= i <= stop && out + Inline(s, i, stop) == ranges + Inline(s, from, stop)
    {
      InlineOnce(s, i, stop, out);
      if s[i] == '`' {
        var closing := IndexOf(s, '`', i + 1, stop);
        var newline := IndexOf(s, '\n', i + 1, stop);
        if closing.Some? && closing.value > i + 1 && (newline.None? || closing.value < newline.value) {
          out := out + [(i, closing.value + 1)];
          i := closing.value;
        }
      }
      i := i + 1;
    }
  }

  method FindPair(s: string, pos: nat) returns (r: Option<Range>)
    requires pos <= |s|
    ensures r == NextPair(s, pos)
  {
    var opening := IndexFence(s, pos);
    if opening.None? { return None; }
    var closing := IndexFence(s, opening.value + 3);
    if closing.None? { return None; }
    r := Some((opening.value, closing.value + 3));
  }

  method CodeRanges(s: string) returns (ranges: seq<Range>)
    ensures ranges == Reading(s, 0)
  {
    ranges := [];
    var pos := 0;
    while true
      invariant pos <= |s| && ranges + Reading(s, pos) == Reading(s, 0)
      decreases |s| - pos
    {
      var pair := FindPair(s, pos);
      if pair.None? { break; }
      OnePairMore(s, pos, ranges);
      ranges := AppendInlineCode(ranges, s, pos, pair.value.0);
      ranges := ranges + [pair.value];
      pos := pair.value.1;
    }
    ranges := AppendInlineCode(ranges, s, pos, |s|);
  }

  lemma OnePairMore(s: string, pos: nat, ranges: seq<Range>)
    requires pos <= |s| && NextPair(s, pos).Some?
    ensures var pair := NextPair(s, pos).value;
            ranges + Inline(s, pos, pair.0) + [pair] + Reading(s, pair.1) == ranges + Reading(s, pos)
  {
  }

  predicate In(r: Range, pos: nat) {
    r.0 <= pos < r.1
  }

  predicate Covered(ranges: seq<Range>, pos: nat) {
    exists k :: 0 <= k < |ranges| && In(ranges[k], pos)
  }

  method InRanges(ranges: seq<Range>, pos: nat) returns (r: bool)
    ensures r <==> Covered(ranges, pos)
  {
    for k := 0 to |ranges|
      invariant forall j :: 0 <= j < k ==> !In(ranges[j], pos)
    {
      if ranges[k].0 <= pos < ranges[k].1 { return true; }
    }
    r := false;
  }

  // ---- what the ranges are like ----

  /** A block: two fences and no fence between them. */
  ghost predicate IsBlock(s: string, r: Range) {
    r.0 + 6 <= r.1 && FenceAt(s, r.0) && FenceAt(s, r.1 - 3) && forall i :: r.0 + 3 <= i < r.1 - 3 ==> !FenceAt(s, i)
  }

  /** Inline code: two backticks around something without a backtick or a line end. */
  ghost predicate IsInline(s: string, r: Range) {
    && r.0 + 3 <= r.1 <= |s| && s[r.0] == '`' && s[r.1 - 1] == '`'
    && forall i :: r.0 < i < r.1 - 1 ==> s[i] != '`' && s[i] != '\n'
  }

  /** One after the other between two positions, each a block or inline code. */
  ghost predicate Proper(s: string, ranges: seq<Range>, from: nat, stop: nat) {
    && stop <= |s|
    && (forall k :: 0 <= k < |ranges| ==> from <= ranges[k].0 && ranges[k].1 <= stop)
    && (forall k :: 0 <= k < |ranges| ==> IsBlock(s, ranges[k]) || IsInline(s, ranges[k]))
    && (forall j, k :: 0 <= j < k < |ranges| ==> ranges[j].1 <= ranges[k].0)
  }

  lemma ProperJoin(s: string, a: seq<Range>, b: seq<Range>, from: nat, mid: nat, stop: nat)
    requires mid <= stop && from <= mid && Proper(s, a, from, mid) && Proper(s, b, mid, stop)
    ensures Proper(s, a + b, from, stop)
  {
  }

  lemma InlineAtIsInline(s: string, i: nat, stop: nat)
    requires i < stop <= |s| && s[i] == '`' && InlineAt(s, i, stop).Some?
    ensures var closing := InlineAt(s, i, stop).value;
            i < closing < stop && Proper(s, [(i, closing + 1)], i, closing + 1)
  {
    var closing := InlineAt(s, i, stop).value;
    assert IsInline(s, (i, closing + 1));
  }

  lemma InlineGoesOn(s: string, i: nat, stop: nat)
    requires i < stop <= |s|
    requires s[i] == '`' && InlineAt(s, i, stop).Some? ==> Proper(s, Inline(s, InlineAt(s, i, stop).value + 1, stop), InlineAt(s, i, stop).value + 1, stop)
    requires !(s[i] == '`' && InlineAt(s, i, stop).Some?) ==> Proper(s, Inline(s, i + 1, stop), i + 1, stop)
    ensures Proper(s, Inline(s, i, stop), i, stop)
  {
    if s[i] == '`' && InlineAt(s, i, stop).Some? {
      var closing := InlineAt(s, i, stop).value;
      InlineAtIsInline(s, i, stop);
      ProperJoin(s, [(i, closing + 1)], Inline(s, closing + 1, stop), i, closing + 1, stop);
    }
  }

  lemma {:induction false} InlineIsProper(s: string, i: nat, stop: nat)
    requires i <= stop <= |s|
    ensures Proper(s, Inline(s, i, stop), i, stop)
    decreases stop - i
  {
    if i < stop {
      if s[i] == '`' && InlineAt(s, i, stop).Some? {
        InlineIsProper(s, InlineAt(s, i, stop).value + 1, stop);
      } else {
        InlineIsProper(s, i + 1, stop);
      }
      InlineGoesOn(s, i, stop);
    }
  }

  /** A block runs from the next fence on to the first one after it; without a block no two fences are left to pair. */
  lemma PairIsNext(s: string, pos: nat)
    requires pos <= |s|
    ensures var pair := NextPair(s, pos);
            && (pair.Some? ==> IsBlock(s, pair.value) && forall i :: pos <= i < pair.value.0 ==> !FenceAt(s, i))
            && (pair.None? ==> forall i, j :: pos <= i && i + 3 <= j && FenceAt(s, i) ==> !FenceAt(s, j))
  {
    assert NextFence(s, pos).None? ==> forall i :: pos <= i ==> !FenceAt(s, i);
  }

  /** The ranges are in order and disjoint, and each is a block or inline code. */
  lemma {:induction false} ReadingIsProper(s: string, pos: nat)
    requires pos <= |s|
    ensures Proper(s, Reading(s, pos), pos, |s|)
    decreases |s| - pos
  {
    var pair := NextPair(s, pos);
    PairIsNext(s, pos);
    if pair.None? {
      InlineIsProper(s, pos, |s|);
    } else {
      InlineIsProper(s, pos, pair.value.0);
      ReadingIsProper(s, pair.value.1);
      ProperJoin(s, Inline(s, pos, pair.value.0), [pair.value], pos, pair.value.0, pair.value.1);
      ProperJoin(s, Inline(s, pos, pair.value.0) + [pair.value], Reading(s, pair.value.1), pos, pair.value.1, |s|);
    }
  }

  /** A stretch without backticks is in code as a whole or not at all, so looking at its first character is enough. */
  lemma InsideOrOutside(s: string, from: nat, stop: nat)
    requires from < stop <= |s| && forall i :: from <= i < stop ==> s[i] != '`'
    ensures forall i :: from <= i < stop ==> (Covered(Reading(s, 0), i) <==> Covered(Reading(s, 0), from))
  {
    var ranges := Reading(s, 0);
    ReadingIsProper(s, 0);
    forall i, k | from <= i < stop && 0 <= k < |ranges| ensures In(ranges[k], i) <==> In(ranges[k], from) {
      assert !(from <= ranges[k].0 < stop) && !(from <= ranges[k].1 - 1 < stop);
    }
  }

  // ---- nothing is missed ----

  /** Two backticks next to each other among backticks, outside code and with no code between them. */
  ghost predicate LeftOpen(s: string, ranges: seq<Range>, a: nat, b: nat) {
    && a < b < |s| && s[a] == '`' && s[b] == '`' && (forall i :: a < i < b ==> s[i] != '`')
    && (forall k :: 0 <= k < |ranges| ==> Apart(ranges[k], a, b))
  }

  predicate Apart(r: Range, a: nat, b: nat) {
    r.1 <= a || b < r.0
  }

  /** They enclose nothing, or a line ends between them. */
  ghost predicate NoCode(s: string, a: nat, b: nat)
    requires b <= |s|
  {
    b == a + 1 || exists i :: a < i < b && s[i] == '\n'
  }

  lemma {:induction false} InlineMissesNothing(s: string, i: nat, stop: nat, a: nat, b: nat)
    requires i <= a < b < stop <= |s| && LeftOpen(s, Inline(s, i, stop), a, b)
    ensures NoCode(s, a, b)
    decreases stop - i
  {
    if s[i] == '`' && InlineAt(s, i, stop).Some? {
      var closing := InlineAt(s, i, stop).value;
      assert Inline(s, i, stop)[0] == (i, closing + 1);
      assert Inline(s, i, stop)[1..] == Inline(s, closing + 1, stop);
      var rest := Inline(s, closing + 1, stop);
      forall k | 0 <= k < |rest| ensures Apart(rest[k], a, b) {
        assert Inline(s, i, stop)[k + 1] == rest[k];
      }
      InlineMissesNothing(s, closing + 1, stop, a, b);
    } else if i < a {
      InlineMissesNothing(s, i + 1, stop, a, b);
    } else {
      assert Next(s, '`', i + 1, stop) == Some(b);
    }
  }

  /** Outside code, consecutive backticks with no code between them could not have been inline code. */
  lemma {:induction false} NothingMissed(s: string, pos: nat, a: nat, b: nat)
    requires pos <= a && pos <= |s| && LeftOpen(s, Reading(s, pos), a, b)
    ensures NoCode(s, a, b)
    decreases |s| - pos
  {
    var pair := NextPair(s, pos);
    var all := Reading(s, pos);
    if pair.None? {
      InlineMissesNothing(s, pos, |s|, a, b);
    } else {
      var before, rest := Inline(s, pos, pair.value.0), Reading(s, pair.value.1);
      assert all[|before|] == pair.value;
      if b < pair.value.0 {
        forall k | 0 <= k < |before| ensures Apart(before[k], a, b) { assert all[k] == before[k]; }
        InlineMissesNothing(s, pos, pair.value.0, a, b);
      } else {
        forall k | 0 <= k < |rest| ensures Apart(rest[k], a, b) { assert all[|before| + 1 + k] == rest[k]; }
        NothingMissed(s, pair.value.1, a, b);
      }
    }
  }

  /** The position lies in a block of the reading. */
  ghost predicate InBlock(s: string, ranges: seq<Range>, i: nat) {
    exists k :: 0 <= k < |ranges| && IsBlock(s, ranges[k]) && In(ranges[k], i)
  }

  lemma InLaterBlock(s: string, before: seq<Range>, later: seq<Range>, i: nat)
    requires InBlock(s, later, i)
    ensures InBlock(s, before + later, i)
  {
    var k :| 0 <= k < |later| && IsBlock(s, later[k]) && In(later[k], i);
    assert (before + later)[|before| + k] == later[k];
  }

  /** Every fence that another one follows at a distance begins inside a block: fences are paired from the front, and only a last one
      without a partner stays text. */
  lemma {:induction false} FencesAreBlocks(s: string, pos: nat, a: nat, b: nat)
    requires pos <= a && a + 3 <= b && FenceAt(s, a) && FenceAt(s, b)
    ensures InBlock(s, Reading(s, pos), a)
    decreases |s| - pos
  {
    PairIsNext(s, pos);
    var pair := NextPair(s, pos).value;
    var before := Inline(s, pos, pair.0);
    assert Reading(s, pos) == before + [pair] + Reading(s, pair.1);
    if a < pair.1 {
      assert (before + [pair] + Reading(s, pair.1))[|before|] == pair;
    } else {
      FencesAreBlocks(s, pair.1, a, b);
      InLaterBlock(s, before + [pair], Reading(s, pair.1), a);
    }
  }
}
