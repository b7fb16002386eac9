/** Sprite geometry for the draw instruction Dxyn.

    A sprite is `n` bytes, one per row, each drawn as 8 pixels with the most
    significant bit on the left. The display is a flat buffer of 64 x 32
    pixels; the pixel for sprite row `row` and column `col` drawn at
    (vx, vy) goes to `(vx + col + (vy + row) * 64) % 2048`, so a sprite wraps
    only at the end of the whole buffer, never per row or per column.

    The interpreter visits the sprite's bits row by row and, within a row,
    column by column. Step j of that walk is row `j / 8`, column `j % 8`;
    `Covered` and `Collides` describe the first k steps. */
module Sprites {
  import opened Bits

  const WIDTH := 64
  const HEIGHT := 32
  const PIXELS := 2048  // WIDTH * HEIGHT

  /** Where sprite pixel (row, col) lands when the sprite is drawn at (vx, vy). */
  function PixelIndex(vx: byte, vy: byte, row: nat, col: nat): (p: nat)
    ensures p < PIXELS
  {
    (vx + col + (vy + row) * WIDTH) % PIXELS
  }

  /** `b & (0x80 >> col)` is non-zero. */
  predicate SpriteBit(b: byte, col: nat)
    requires col < 8
  {
    And(b, ShiftRight(0x80, col), 8) != 0
  }

  /** Step j of the walk is drawn: its sprite bit is set. */
  predicate Drawn(sprite: seq<byte>, j: nat)
    requires j < |sprite| * 8
  {
    SpriteBit(sprite[j / 8], j % 8)
  }

  /** The display index of step j of the walk. */
  function StepPixel(vx: byte, vy: byte, j: nat): nat
  {
    PixelIndex(vx, vy, j / 8, j % 8)
  }

  /** The pixels toggled by the first k steps of the walk. */
  function Covered(sprite: seq<byte>, vx: byte, vy: byte, k: nat): set<nat>
    requires k <= |sprite| * 8
  {
    if k == 0 then {}
    else Covered(sprite, vx, vy, k - 1) +
         (if Drawn(sprite, k - 1) then {StepPixel(vx, vy, k - 1)} else {})
  }

  /** Some of the first k steps toggles a pixel that is on in `d`. */
  predicate Collides(d: seq<bool>, sprite: seq<byte>, vx: byte, vy: byte, k: nat)
    requires |d| == PIXELS && k <= |sprite| * 8
  {
    k > 0 &&
    (Collides(d, sprite, vx, vy, k - 1) ||
     (Drawn(sprite, k - 1) && d[StepPixel(vx, vy, k - 1)]))
  }

  /** The display after XOR-ing every pixel of `hits`. */
  function Toggle(d: seq<bool>, hits: set<nat>): (r: seq<bool>)
    ensures |r| == |d|
  {
    seq(|d|, p requires 0 <= p < |d| => d[p] != (p in hits))
  }

  /** The mask `0x80 >> col` selects bit 7 - col: a sprite byte is drawn
      most significant bit first. */
  lemma SpriteBitMsbFirst(b: byte, col: nat)
    requires col < 8
    ensures SpriteBit(b, col) == Bit(b, 7 - col)
  {
    Pow2Values();
    ShiftRightPow2(7, col);
    SingleBitMask(b, 7 - col, 8);
  }

  /** Within one draw of at most 32 rows no two sprite pixels share a display
      index: the row and column offsets never add up to a whole buffer. */
  lemma PixelsDistinct(vx: byte, vy: byte, r1: nat, c1: nat, r2: nat, c2: nat)
    requires r1 < HEIGHT && r2 < HEIGHT && c1 < 8 && c2 < 8
    requires PixelIndex(vx, vy, r1, c1) == PixelIndex(vx, vy, r2, c2)
    ensures r1 == r2 && c1 == c2
  {
    var l1 := vx + c1 + (vy + r1) * WIDTH;
    var l2 := vx + c2 + (vy + r2) * WIDTH;
    var q1, q2 := l1 / PIXELS, l2 / PIXELS;
    assert l1 == PIXELS * q1 + l1 % PIXELS;
    assert l2 == PIXELS * q2 + l2 % PIXELS;
    assert l1 - l2 == PIXELS * (q1 - q2);
    assert -PIXELS < l1 - l2 < PIXELS;
    assert q1 == q2;
  }

  /** Step row * 8 + col of the walk is sprite row `row`, column `col`: it
      draws exactly when that sprite bit is set, at that pixel, and it adds
      just that pixel to the covered set. */
  lemma WalkStep(sprite: seq<byte>, vx: byte, vy: byte, row: nat, col: nat)
    requires row < |sprite| && col < 8
    ensures row * 8 + col < |sprite| * 8
    ensures Drawn(sprite, row * 8 + col) == SpriteBit(sprite[row], col)
    ensures StepPixel(vx, vy, row * 8 + col) == (vx + col + (vy + row) * WIDTH) % PIXELS
    ensures Covered(sprite, vx, vy, row * 8 + col + 1) ==
      Covered(sprite, vx, vy, row * 8 + col) +
      (if SpriteBit(sprite[row], col) then {PixelIndex(vx, vy, row, col)} else {})
  {
    var j := row * 8 + col;
    assert j / 8 == row && j % 8 == col;
  }

  /** A later step of the walk never lands on a pixel an earlier step
      covered. */
  lemma {:induction false} NotYetCovered(sprite: seq<byte>, vx: byte, vy: byte, k: nat, j: nat)
    requires |sprite| <= HEIGHT && k <= j < |sprite| * 8
    ensures StepPixel(vx, vy, j) !in Covered(sprite, vx, vy, k)
  {
    if k > 0 {
      NotYetCovered(sprite, vx, vy, k - 1, j);
      if StepPixel(vx, vy, k - 1) == StepPixel(vx, vy, j) {
        PixelsDistinct(vx, vy, (k - 1) / 8, (k - 1) % 8, j / 8, j % 8);
      }
    }
  }

  /** A pixel is covered by the first k steps exactly when one of them has
      its sprite bit set and lands on it. */
  lemma {:induction false} CoveredIff(sprite: seq<byte>, vx: byte, vy: byte, k: nat, p: nat)
    requires k <= |sprite| * 8
    ensures p in Covered(sprite, vx, vy, k) <==>
            exists j :: 0 <= j < k && Drawn(sprite, j) && StepPixel(vx, vy, j) == p
  {
    if k > 0 {
      CoveredIff(sprite, vx, vy, k - 1, p);
    }
  }

  /** Stated per row and column: the pixels a whole sprite toggles are those
      whose sprite bit is set, at their `PixelIndex`. */
  lemma SpriteCovers(sprite: seq<byte>, vx: byte, vy: byte, p: nat)
    ensures p in Covered(sprite, vx, vy, |sprite| * 8) <==>
            exists row, col :: 0 <= row < |sprite| && 0 <= col < 8 &&
              SpriteBit(sprite[row], col) && PixelIndex(vx, vy, row, col) == p
  {
    CoveredIff(sprite, vx, vy, |sprite| * 8, p);
    if p in Covered(sprite, vx, vy, |sprite| * 8) {
      var j :| 0 <= j < |sprite| * 8 && Drawn(sprite, j) && StepPixel(vx, vy, j) == p;
      assert SpriteBit(sprite[j / 8], j % 8) && PixelIndex(vx, vy, j / 8, j % 8) == p;
    }
    if exists row, col :: 0 <= row < |sprite| && 0 <= col < 8 &&
         SpriteBit(sprite[row], col) && PixelIndex(vx, vy, row, col) == p {
      var row, col :| 0 <= row < |sprite| && 0 <= col < 8 &&
        SpriteBit(sprite[row], col) && PixelIndex(vx, vy, row, col) == p;
      var j := row * 8 + col;
      assert j / 8 == row && j % 8 == col;
      assert Drawn(sprite, j) && StepPixel(vx, vy, j) == p;
    }
  }

  /** The collision flag of the walk says that some covered pixel was on. */
  lemma {:induction false} CollidesIff(d: seq<bool>, sprite: seq<byte>, vx: byte, vy: byte, k: nat)
    requires |d| == PIXELS && k <= |sprite| * 8
    ensures Collides(d, sprite, vx, vy, k) <==>
            exists p :: p in Covered(sprite, vx, vy, k) && p < PIXELS && d[p]
  {
    if k > 0 {
      CollidesIff(d, sprite, vx, vy, k - 1);
      var q := StepPixel(vx, vy, k - 1);
      if Drawn(sprite, k - 1) && d[q] {
        assert q in Covered(sprite, vx, vy, k);
      }
    }
  }

  /** Toggling the same pixels twice restores the display. */
  lemma ToggleTwice(d: seq<bool>, hits: set<nat>)
    ensures Toggle(Toggle(d, hits), hits) == d
  {
  }
}
