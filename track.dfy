/**
 * The track built by GameManager.generateRoad: an array of Block_Type whose
 * first tile is a stone and in which a gap is always followed by a stone.
 * Math.floor(Math.random() * 2) is replaced by an injected sequence of bits,
 * one bit per free choice.
 */
module Track {

  /** Block_Type: BT_NONE (value 0) is a gap, BT_STONE (value 1) a tile. */
  datatype BlockType = BtNone | BtStone

  /** One draw of Math.floor(Math.random() * 2). */
  type Bit = b: int | 0 <= b < 2

  /** The enum's numeric value. */
  function Value(t: BlockType): (v: Bit)
    ensures v == 0 <==> t == BtNone
  {
    if t == BtNone then 0 else 1
  }

  /** The tile whose numeric value was drawn: the source pushes the number itself. */
  function BlockOfValue(v: Bit): (t: BlockType)
    ensures Value(t) == v
  {
    if v == 0 then BtNone else BtStone
  }

  /** Number of tiles the road has after generateRoad: the first stone is pushed unconditionally. */
  function RoadSize(roadLength: int): (n: nat)
    ensures n >= 1
    ensures roadLength >= 1 ==> n == roadLength
    ensures roadLength < 1 ==> n == 1
  {
    if roadLength >= 1 then roadLength else 1
  }

  /** Number of stones in a road prefix; also the number of random draws made after that prefix. */
  function StoneCount(s: seq<BlockType>): (c: nat)
    ensures c <= |s|
    decreases |s|
  {
    if s == [] then 0
    else StoneCount(s[..|s| - 1]) + (if s[|s| - 1] == BtStone then 1 else 0)
  }

  /** The track invariant: a safe spawn tile and never two gaps in a row. */
  predicate WellFormed(road: seq<BlockType>)
  {
    && |road| >= 1
    && road[0] == BtStone
    && forall i :: 1 <= i < |road| && road[i - 1] == BtNone ==> road[i] == BtStone
  }

  /**
   * The first n tiles the generateRoad loop pushes, with the number of bits
   * drawn from `bits` to build them: a draw is made only after a stone.
   */
  function Generate(n: nat, bits: seq<Bit>): (g: (seq<BlockType>, nat))
    requires 1 <= n && n - 1 <= |bits|
    ensures |g.0| == n && g.0[0] == BtStone
    ensures g.1 <= n - 1
    decreases n
  {
    if n == 1 then ([BtStone], 0)
    else
      var prev := Generate(n - 1, bits);
      var road, used := prev.0, prev.1;
      var next := if road[n - 2] == BtNone then BtStone else BlockOfValue(bits[used]);
      (road + [next], if road[n - 2] == BtNone then used else used + 1)
  }

  /** Building more tiles leaves the tiles already built as they were. */
  lemma {:induction false} GeneratePrefix(n: nat, m: nat, bits: seq<Bit>)
    requires 1 <= m <= n && n - 1 <= |bits|
    ensures Generate(n, bits).0[..m] == Generate(m, bits).0
    decreases n
  {
    if m == n {
      assert Generate(n, bits).0[..n] == Generate(n, bits).0;
    } else {
      var road := Generate(n - 1, bits).0;
      assert Generate(n, bits).0[..n - 1] == road;
      GeneratePrefix(n - 1, m, bits);
      assert Generate(n, bits).0[..m] == road[..m];
    }
  }

  /** One more tile: the generateRoad loop body for index n - 1. */
  lemma GenerateStep(n: nat, bits: seq<Bit>)
    requires 2 <= n && n - 1 <= |bits|
    ensures var prev := Generate(n - 1, bits);
      && prev.1 < |bits|
      && Generate(n, bits) ==
           if prev.0[n - 2] == BtNone then (prev.0 + [BtStone], prev.1)
           else (prev.0 + [BlockOfValue(bits[prev.1])], prev.1 + 1)
  {
  }

  /** The draws made while building n tiles: one for each stone but the last tile. */
  lemma {:induction false} GenerateDraws(n: nat, bits: seq<Bit>)
    requires 1 <= n && n - 1 <= |bits|
    ensures Generate(n, bits).1 == StoneCount(Generate(n, bits).0[..n - 1])
    decreases n
  {
    if n > 1 {
      var prev := Generate(n - 1, bits).0;
      GenerateStep(n, bits);
      GenerateDraws(n - 1, bits);
      assert Generate(n, bits).0[..n - 1] == prev;
      assert prev[..n - 2] == prev[..|prev| - 1];
    }
  }

  /**
   * Tile i (i >= 1) of a generated road: forced to a stone after a gap, and
   * otherwise the next unused bit, `used` being the draws made for tiles 1 to i - 1.
   */
  lemma GenerateChoice(n: nat, bits: seq<Bit>, i: nat)
    requires 1 <= i < n && n - 1 <= |bits|
    ensures var road := Generate(n, bits).0; var used := Generate(i, bits).1;
      && used < |bits|
      && road[i] == if road[i - 1] == BtNone then BtStone else BlockOfValue(bits[used])
  {
    var road := Generate(n, bits).0;
    var before := Generate(i, bits);
    var used := before.1;
    var next := if before.0[i - 1] == BtNone then BtStone else BlockOfValue(bits[used]);
    var prefix := road[..i + 1];
    assert prefix == before.0 + [next] by {
      GenerateStep(i + 1, bits);
      GeneratePrefix(n, i + 1, bits);
    }
    assert road[i] == next && road[i - 1] == before.0[i - 1] by {
      assert road[i] == prefix[i] && road[i - 1] == prefix[i - 1];
    }
  }

  /** Every generated road is well formed. */
  lemma GenerateWellFormed(n: nat, bits: seq<Bit>)
    requires 1 <= n && n - 1 <= |bits|
    ensures WellFormed(Generate(n, bits).0)
  {
    var road := Generate(n, bits).0;
    forall i | 1 <= i < n && road[i - 1] == BtNone
      ensures road[i] == BtStone
    {
      GenerateChoice(n, bits, i);
    }
  }

  /** The free choices a road records: the value of every tile that follows a stone. */
  function Choices(road: seq<BlockType>): (bits: seq<Bit>)
    requires |road| >= 1
    ensures |bits| <= |road| - 1
    decreases |road|
  {
    if |road| == 1 then []
    else
      var prev := road[..|road| - 1];
      Choices(prev) + (if road[|road| - 2] == BtStone then [Value(road[|road| - 1])] else [])
  }

  /**
   * Every well-formed road is generated from its own free choices, whatever
   * the random source yields afterwards: generation reaches every road the
   * track invariant allows, and nothing else (GenerateWellFormed).
   */
  lemma {:induction false} GenerateComplete(road: seq<BlockType>, rest: seq<Bit>)
    requires WellFormed(road)
    requires |road| - 1 <= |Choices(road)| + |rest|
    ensures Generate(|road|, Choices(road) + rest) == (road, |Choices(road)|)
    decreases |road|
  {
    var n := |road|;
    if n > 1 {
      var prev := road[..n - 1];
      var c := if road[n - 2] == BtStone then [Value(road[n - 1])] else [];
      var bits := Choices(road) + rest;
      assert Choices(road) == Choices(prev) + c;
      assert bits == Choices(prev) + (c + rest);
      assert WellFormed(prev);
      GenerateComplete(prev, c + rest);
      GenerateStep(n, bits);
      assert road == prev + [road[n - 1]];
    } else {
      assert road == [BtStone];
    }
  }
}
