/**
 * The joy band controller: the state `layoutBand`, `animateCycle` and
 * `applyPalette` update in place, and the pointer and keyboard handlers that
 * force a cycle.
 */
module JoyBand {
  import opened Common
  import opened JoyAssign
  import opened JoyLayout
  import opened HexColor

  /** The four four-colour palettes the band cycles through. */
  const PALETTES: seq<seq<string>> := [
    ["#0E5637", "#0B7D52", "#1AAF6F", "#8DD58F"],
    ["#2E1BFF", "#4C3CFF", "#A3A5FF", "#F1F2FF"],
    ["#FF7A4A", "#FF9F5A", "#FFD49C", "#F5F7F1"],
    ["#097567", "#16A6A6", "#66D9D1", "#F2FBFB"]
  ]

  /** Pixel distance a pointer must travel before a press counts as a drag. */
  const DRAG_THRESHOLD: int := 26

  /**
   * What `applyPalette` writes: one accent per tile and the two palette
   * colours the band's gradients are made from.
   */
  datatype PaletteStyle = PaletteStyle(accents: seq<string>, gradientA: string, gradientB: string)

  /** Four palettes of four colours each. */
  lemma PalettesShape()
    ensures |PALETTES| == 4 && forall p | 0 <= p < 4 :: |PALETTES[p]| == 4
  {
  }

  /**
   * The style a palette gives a band of `tileCount` tiles: tile `i` takes the
   * palette's colours in turn, the gradients its first colour and its second
   * (or the first again when the second is missing or empty).
   */
  function StyleOf(palette: seq<string>, tileCount: nat): (s: PaletteStyle)
    requires |palette| > 0
    ensures |s.accents| == tileCount
    ensures forall i | 0 <= i < tileCount :: s.accents[i] == palette[i % |palette|]
  {
    var second := if |palette| > 1 && palette[1] != "" then palette[1] else palette[0];
    PaletteStyle(seq(tileCount, i => palette[i % |palette|]), palette[0], second)
  }

  /** The `--joy-gradient-a` and `--joy-gradient-b` values: the two colours at 30% and 20% opacity. */
  function GradientColours(s: PaletteStyle): (g: (Rgba, Rgba))
    ensures g.0.alpha == 0.3 && g.1.alpha == 0.2
  {
    (WithOpacity(s.gradientA, 0.3), WithOpacity(s.gradientB, 0.2))
  }

  /** Tile pixel width and height for a band `clientWidth` pixels wide. */
  function TileSize(c: Config, clientWidth: real): (t: (real, real))
    ensures c.cols > 0 ==>
      c.cols as real * t.0 + (c.cols as real - 1.0) * c.gap as real == clientWidth - c.gap as real
    ensures t.1 == t.0 * c.aspect
  {
    var bandWidth := clientWidth - c.gap as real;
    var tileWidth := if c.cols == 0 then 0.0
                     else (bandWidth - c.gap as real * (c.cols as real - 1.0)) / c.cols as real;
    (tileWidth, tileWidth * c.aspect)
  }

  class Band {
    /** The number of `[data-joy-tile]` cards. */
    const tileCount: nat
    /** `colorPalettes`, fixed when the band is set up. */
    const palettes: seq<seq<string>>
    /** Slot offsets in snake order; empty while the band is disabled. */
    var slots: seq<Slot>
    /** `assignments[i]`: the slot tile `i` stands on. */
    var assignments: seq<nat>
    /** The palette the next `applyPalette` uses. */
    var paletteIndex: nat
    /** Cycles since the last first layout, modulo the slot count. */
    ghost var cycles: nat
    var pointerActive: bool
    var pointerMoved: bool
    var pointerX: int
    var pointerY: int

    /**
     * The band's invariant: the palette index is in range, the band is either
     * disabled or has one slot per tile, tiles and slots are in bijection, and
     * the assignment is the first layout's after `cycles` cycle steps.
     */
    ghost predicate Valid()
      reads this
    {
      && paletteIndex < |palettes|
      && (forall p | 0 <= p < |palettes| :: |palettes[p]| > 0)
      && (|slots| == 0 || |slots| == tileCount)
      && IsPermutation(assignments, |slots|)
      && IsReachable(assignments, |slots|, cycles)
    }

    constructor(tileCount: nat)
      ensures Valid()
      ensures this.tileCount == tileCount && palettes == PALETTES
      ensures slots == [] && assignments == [] && paletteIndex == 0
      ensures !pointerActive && !pointerMoved
    {
      PalettesShape();
      this.tileCount := tileCount;
      palettes := PALETTES;
      slots, assignments, paletteIndex := [], [], 0;
      cycles := 0;
      pointerActive, pointerMoved, pointerX, pointerY := false, false, 0, 0;
    }

    /** `applyPalette`: styles the tiles from the current palette, then advances it if asked. */
    method ApplyPalette(advance: bool) returns (style: PaletteStyle)
      requires Valid()
      modifies this`paletteIndex
      ensures Valid()
      ensures style == StyleOf(palettes[old(paletteIndex)], tileCount)
      ensures paletteIndex == if advance then (old(paletteIndex) + 1) % |palettes| else old(paletteIndex)
    {
      style := StyleOf(palettes[paletteIndex], tileCount);
      if advance {
        paletteIndex := (paletteIndex + 1) % |palettes|;
      }
    }

    /** `disableBand`: forgets the layout. */
    method DisableBand()
      requires Valid()
      modifies this`slots, this`assignments
      ensures Valid() && slots == [] && assignments == []
    {
      slots := [];
      assignments := [];
    }

    /**
     * `layoutBand`: picks the tier; a disabled tier clears the layout, an
     * enabled one lays one slot per tile along the snake path and rebuilds the
     * assignment, which keeps every tile on its slot when the band was already laid out.
     */
    method LayoutBand(reduceMotion: bool, mobile: bool, tablet: bool, clientWidth: real)
      returns (style: Option<PaletteStyle>)
      requires Valid()
      modifies this`slots, this`assignments, this`paletteIndex, this`cycles
      ensures Valid() && paletteIndex == old(paletteIndex)
      ensures var config := ComputeConfig(reduceMotion, mobile, tablet, tileCount);
        match config
        case None => slots == [] && assignments == [] && style == None
        case Some(c) =>
          var (tileWidth, tileHeight) := TileSize(c, clientWidth);
          && slots == SnakeSlots(c, tileWidth, tileHeight, c.gap as real, tileCount)
          && |slots| == tileCount
          && assignments == Rebuild(old(assignments), tileCount)
          && (old(slots) == [] ==> assignments == Iota(tileCount))
          && (old(slots) != [] ==> assignments == old(assignments))
          && style == Some(StyleOf(palettes[paletteIndex], tileCount))
    {
      var config := ComputeConfig(reduceMotion, mobile, tablet, tileCount);
      if config.None? {
        DisableBand();
        return None;
      }
      var c := config.value;
      ConfigHoldsAllTiles(reduceMotion, mobile, tablet, tileCount);
      var (tileWidth, tileHeight) := TileSize(c, clientWidth);
      slots := ComputeSlots(c, tileWidth, tileHeight, c.gap as real, tileCount);
      var previousAssignments := assignments;
      assignments := Rebuild(previousAssignments, |slots|);
      if |old(slots)| == 0 {
        RebuildFresh(tileCount);
        cycles := 0;
      } else {
        RebuildKeeps(previousAssignments, tileCount);
      }
      var s := ApplyPalette(false);
      style := Some(s);
    }

    /**
     * `animateCycle`: with no slots nothing happens; otherwise the last
     * assignment moves to the front and the palette advances.
     */
    method AnimateCycle() returns (style: Option<PaletteStyle>)
      requires Valid()
      modifies this`assignments, this`paletteIndex, this`cycles
      ensures Valid()
      ensures old(slots) == [] ==>
        assignments == old(assignments) && paletteIndex == old(paletteIndex) && style == None
      ensures old(slots) != [] ==>
        && assignments == RotateRight(old(assignments))
        && multiset(assignments) == multiset(old(assignments))
        && paletteIndex == (old(paletteIndex) + 1) % |palettes|
        && style == Some(StyleOf(palettes[old(paletteIndex)], tileCount))
      ensures old(slots) != [] ==> forall t | 0 <= t < |assignments| ::
        assignments[t] == if old(assignments)[t] > 0 then old(assignments)[t] - 1 else |slots| - 1
    {
      if |slots| == 0 {
        return None;
      }
      RotateAssignments();
      var s := ApplyPalette(true);
      style := Some(s);
    }

    /**
     * `assignments.unshift(assignments.pop())`: every tile moves one slot back
     * along the snake path, the tile on slot 0 wrapping to the last slot.
     */
    method RotateAssignments()
      requires Valid() && slots != []
      modifies this`assignments, this`cycles
      ensures Valid()
      ensures assignments == RotateRight(old(assignments))
      ensures multiset(assignments) == multiset(old(assignments))
      ensures forall t | 0 <= t < |assignments| ::
        assignments[t] == if old(assignments)[t] > 0 then old(assignments)[t] - 1 else |slots| - 1
    {
      RotatePreservesPermutation(assignments, |slots|);
      ReachableAfterCycle(assignments, |slots|, cycles);
      cycles := NextCount(|slots|, cycles);
      var last := assignments[|assignments| - 1];
      assignments := assignments[..|assignments| - 1];
      assignments := [last] + assignments;
    }

    /** `manualCycle`: a forced cycle, only while the band is laid out. */
    method ManualCycle() returns (cycled: bool)
      requires Valid()
      modifies this`assignments, this`paletteIndex, this`cycles
      ensures Valid()
      ensures cycled <==> old(slots) != []
      ensures cycled ==> assignments == RotateRight(old(assignments))
                         && paletteIndex == (old(paletteIndex) + 1) % |palettes|
      ensures !cycled ==> assignments == old(assignments) && paletteIndex == old(paletteIndex)
    {
      if |slots| == 0 {
        return false;
      }
      var _ := AnimateCycle();
      cycled := true;
    }

    /** `pointerdown`: starts watching a press unless motion is off. */
    method PointerDown(x: int, y: int, mobile: bool, reduceMotion: bool)
      requires Valid()
      modifies this`pointerActive, this`pointerMoved, this`pointerX, this`pointerY
      ensures Valid()
      ensures mobile || reduceMotion ==>
        pointerActive == old(pointerActive) && pointerMoved == old(pointerMoved)
        && pointerX == old(pointerX) && pointerY == old(pointerY)
      ensures !(mobile || reduceMotion) ==>
        pointerActive && !pointerMoved && pointerX == x && pointerY == y
    {
      if mobile || reduceMotion {
        return;
      }
      pointerActive, pointerMoved := true, false;
      pointerX, pointerY := x, y;
    }

    /** `pointermove`: the first move farther than the threshold is a drag and forces a cycle. */
    method PointerMove(x: int, y: int) returns (cycled: bool)
      requires Valid()
      modifies this`pointerMoved, this`assignments, this`paletteIndex, this`cycles
      ensures Valid()
      ensures var dx, dy := x - pointerX, y - pointerY;
        var drag := old(pointerActive) && !old(pointerMoved)
                    && dx * dx + dy * dy > DRAG_THRESHOLD * DRAG_THRESHOLD;
        && pointerMoved == (old(pointerMoved) || drag)
        && (cycled <==> drag && old(slots) != [])
        && (cycled ==> assignments == RotateRight(old(assignments))
                       && paletteIndex == (old(paletteIndex) + 1) % |palettes|)
        && (!cycled ==> assignments == old(assignments) && paletteIndex == old(paletteIndex))
    {
      cycled := false;
      if !pointerActive || pointerMoved {
        return;
      }
      var dx, dy := x - pointerX, y - pointerY;
      if dx * dx + dy * dy > DRAG_THRESHOLD * DRAG_THRESHOLD {
        pointerMoved := true;
        cycled := ManualCycle();
      }
    }

    /** `pointerup` and `pointercancel`: a press that never dragged is a tap and forces a cycle. */
    method EndPointer() returns (cycled: bool)
      requires Valid()
      modifies this`pointerActive, this`pointerMoved, this`assignments, this`paletteIndex, this`cycles
      ensures Valid()
      ensures !pointerActive && !pointerMoved
      ensures cycled <==> old(pointerActive) && !old(pointerMoved) && old(slots) != []
      ensures cycled ==> assignments == RotateRight(old(assignments))
                         && paletteIndex == (old(paletteIndex) + 1) % |palettes|
      ensures !cycled ==> assignments == old(assignments) && paletteIndex == old(paletteIndex)
    {
      cycled := false;
      if pointerActive && !pointerMoved {
        cycled := ManualCycle();
      }
      pointerActive, pointerMoved := false, false;
    }

    /** `pointerleave`: forgets the press without cycling. */
    method PointerLeave()
      requires Valid()
      modifies this`pointerActive, this`pointerMoved
      ensures Valid() && !pointerActive && !pointerMoved
    {
      pointerActive, pointerMoved := false, false;
    }

    /** `keydown`: Enter or Space forces a cycle while motion is allowed. */
    method KeyDown(key: string, mobile: bool, reduceMotion: bool) returns (cycled: bool)
      requires Valid()
      modifies this`assignments, this`paletteIndex, this`cycles
      ensures Valid()
      ensures cycled <==> (key == "Enter" || key == " ") && !mobile && !reduceMotion && old(slots) != []
      ensures cycled ==> assignments == RotateRight(old(assignments))
                         && paletteIndex == (old(paletteIndex) + 1) % |palettes|
      ensures !cycled ==> assignments == old(assignments) && paletteIndex == old(paletteIndex)
    {
      cycled := false;
      if (key == "Enter" || key == " ") && !mobile && !reduceMotion {
        cycled := ManualCycle();
      }
    }
  }

  /**
   * On a laid-out band every tile the cycle does not wrap moves between two
   * consecutive stops of the snake path, so to a neighbouring grid cell.
   */
  lemma CycleStepIsAdjacent(rows: nat, cols: nat, a: seq<nat>, n: nat, k: nat, t: nat)
    requires 0 < n <= rows * cols && t < n && IsReachable(a, n, k)
    ensures |a| == n && a[t] < n && RotateRight(a)[t] < n
    ensures var path := SnakePath(rows, cols);
      a[t] > 0 ==> Adjacent(cols, path[RotateRight(a)[t]], path[a[t]])
  {
    ReachableAfterCycle(a, n, k);
    if a[t] > 0 {
      SnakePathIsContinuous(rows, cols, a[t] - 1);
    }
  }

  /** Every palette colour is a `#` followed by six hex digits. */
  lemma PaletteColoursAreSixDigit(p: nat, k: nat)
    requires p < |PALETTES| && k < 4
    ensures |PALETTES[p]| == 4
    ensures var c := PALETTES[p][k]; |c| == 7 && c[0] == '#' && AllHexDigits(c[1..])
  {
  }

  /**
   * The gradients of palette `p` are its first two colours at 30% and 20%
   * opacity; the fallback to the first colour never applies. With
   * `PaletteColoursAreSixDigit`, `SixDigitColour` gives their channels.
   */
  lemma GradientOf(p: nat, tileCount: nat)
    requires p < |PALETTES|
    ensures |PALETTES[p]| == 4
    ensures GradientColours(StyleOf(PALETTES[p], tileCount))
         == (WithOpacity(PALETTES[p][0], 0.3), WithOpacity(PALETTES[p][1], 0.2))
  {
    PaletteColoursAreSixDigit(p, 1);
    var palette := PALETTES[p];
    assert |palette[1]| == 7;
  }
}
