/**
 * The decisions GameManager takes from a reported step counter: whether
 * checkResult sends the game back to INIT, and what the steps label shows.
 */
module GameRules {
  import opened Wrappers
  import opened Track

  /** Reading `_road[i]` in JavaScript: `undefined` outside the array. */
  function TileAt(road: seq<BlockType>, i: int): (t: Option<BlockType>)
    ensures t.Some? <==> 0 <= i < |road|
    ensures t.Some? ==> t.value == road[i]
  {
    if 0 <= i < |road| then Some(road[i]) else None
  }

  /**
   * checkResult: whether landing on `moveIndex` re-enters INIT. Landing at or
   * past roadLength finishes the run; landing short of it ends the run only
   * when that tile is a gap (an index the array does not hold reads as
   * undefined, which is not BT_NONE).
   */
  function EndsRun(moveIndex: int, roadLength: int, road: seq<BlockType>): (reset: bool)
    ensures moveIndex >= roadLength ==> reset
    ensures moveIndex < roadLength ==> (reset <==> 0 <= moveIndex < |road| && road[moveIndex] == BtNone)
  {
    if moveIndex < roadLength then TileAt(road, moveIndex) == Some(BtNone) else true
  }

  /**
   * On a generated track, a landing that does not end the run is on a stone
   * of the track, and the spawn tile never ends a run on a track of length
   * at least one.
   */
  lemma SurvivorStandsOnStone(moveIndex: int, roadLength: int, road: seq<BlockType>)
    requires |road| == RoadSize(roadLength) && WellFormed(road) && moveIndex >= 0
    ensures !EndsRun(moveIndex, roadLength, road) ==> moveIndex < |road| && road[moveIndex] == BtStone
    ensures roadLength >= 1 ==> !EndsRun(0, roadLength, road)
  {
  }

  /** After a gap a one-step jump always lands safely inside the track or past its end. */
  lemma NoTwoGapsInARow(moveIndex: int, roadLength: int, road: seq<BlockType>)
    requires |road| == RoadSize(roadLength) && WellFormed(road) && moveIndex >= 0
    requires moveIndex < roadLength && road[moveIndex] == BtNone
    ensures moveIndex + 1 < roadLength ==> !EndsRun(moveIndex + 1, roadLength, road)
  {
  }

  /** The step count the label shows: moveIndex, but never more than roadLength. */
  function DisplayedSteps(moveIndex: int, roadLength: int): (d: int)
    ensures d <= moveIndex && d <= roadLength
    ensures d == moveIndex || d == roadLength
  {
    if moveIndex >= roadLength then roadLength else moveIndex
  }

  predicate IsDigit(c: char)
  {
    '0' <= c <= '9'
  }

  predicate AllDigits(s: string)
  {
    forall i :: 0 <= i < |s| ==> IsDigit(s[i])
  }

  /** The number a string of decimal digits denotes. */
  function DigitsValue(s: string): nat
    requires AllDigits(s)
  {
    if s == [] then 0
    else DigitsValue(s[..|s| - 1]) * 10 + (s[|s| - 1] - '0') as int
  }

  /** A digit string without a redundant leading zero: "0" alone, or a non-zero first digit. */
  predicate NoLeadingZero(s: string)
  {
    |s| == 1 || (|s| >= 1 && s[0] != '0')
  }

  /** A JavaScript number written as text, for a non-negative integer. */
  function NatToString(n: nat): (s: string)
    ensures AllDigits(s) && NoLeadingZero(s)
    ensures DigitsValue(s) == n
  {
    var last := ['0' + (n % 10) as char];
    if n < 10 then last
    else
      var s := NatToString(n / 10) + last;
      assert s[..|s| - 1] == NatToString(n / 10);
      s
  }

  /** A decimal integer with an optional leading minus sign. */
  predicate IsDecimal(s: string)
  {
    |s| >= 1 && (if s[0] == '-' then |s| >= 2 && AllDigits(s[1..]) else AllDigits(s))
  }

  /**
   * The text JavaScript produces for an integer: no leading zeros and no
   * "-0", so every integer has exactly one such text (CanonicalUnique).
   */
  predicate Canonical(s: string)
  {
    IsDecimal(s) && (if s[0] == '-' then s[1] != '0' else NoLeadingZero(s))
  }

  function ParseInt(s: string): int
    requires IsDecimal(s)
  {
    if s[0] == '-' then -(DigitsValue(s[1..]) as int) else DigitsValue(s)
  }

  /** A JavaScript integer written as text: canonical, signed exactly when negative, and ParseInt reads it back. */
  function IntToString(i: int): (s: string)
    ensures Canonical(s) && ParseInt(s) == i
    ensures s[0] == '-' <==> i < 0
  {
    if i < 0 then
      var s := "-" + NatToString(-i);
      assert s[1..] == NatToString(-i);
      s
    else NatToString(i)
  }

  /** A digit string that starts with a non-zero digit denotes a positive number. */
  lemma {:induction false} PositiveLead(s: string)
    requires AllDigits(s) && |s| >= 1 && s[0] != '0'
    ensures DigitsValue(s) >= 1
    decreases |s|
  {
    if |s| > 1 {
      var prefix := s[..|s| - 1];
      assert prefix[0] == s[0];
      PositiveLead(prefix);
    }
  }

  /** Digit strings without redundant leading zeros that denote the same number are equal. */
  lemma {:induction false} DigitsUnique(a: string, b: string)
    requires AllDigits(a) && AllDigits(b) && NoLeadingZero(a) && NoLeadingZero(b)
    requires DigitsValue(a) == DigitsValue(b)
    ensures a == b
    decreases |a|
  {
    if |a| >= 2 && |b| >= 2 {
      var pa, pb := a[..|a| - 1], b[..|b| - 1];
      assert pa[0] == a[0] && pb[0] == b[0];
      var da, db := (a[|a| - 1] - '0') as int, (b[|b| - 1] - '0') as int;
      assert DigitsValue(a) == DigitsValue(pa) * 10 + da;
      assert DigitsValue(b) == DigitsValue(pb) * 10 + db;
      assert da == db && DigitsValue(pa) == DigitsValue(pb);
      DigitsUnique(pa, pb);
      assert a == pa + [a[|a| - 1]] && b == pb + [b[|b| - 1]];
    } else if |a| >= 2 {
      PositiveLead(a[..|a| - 1]);
    } else if |b| >= 2 {
      PositiveLead(b[..|b| - 1]);
    }
  }

  /** Every integer has exactly one canonical text. */
  lemma CanonicalUnique(s: string, t: string)
    requires Canonical(s) && Canonical(t) && ParseInt(s) == ParseInt(t)
    ensures s == t
  {
    if s[0] == '-' {
      PositiveLead(s[1..]);
    }
    if t[0] == '-' {
      PositiveLead(t[1..]);
    }
    if s[0] == '-' {
      DigitsUnique(s[1..], t[1..]);
      assert s == [s[0]] + s[1..] && t == [t[0]] + t[1..];
    } else {
      DigitsUnique(s, t);
    }
  }

  /**
   * onPlayerJumpEnd's label text: a space, then the canonical text of the
   * displayed step count, which CanonicalUnique makes the only possible text.
   */
  function StepsLabel(moveIndex: int, roadLength: int): (s: string)
    ensures |s| >= 2 && s[0] == ' '
    ensures Canonical(s[1..]) && ParseInt(s[1..]) == DisplayedSteps(moveIndex, roadLength)
  {
    var s := " " + IntToString(DisplayedSteps(moveIndex, roadLength));
    assert s[1..] == IntToString(DisplayedSteps(moveIndex, roadLength));
    s
  }
}
