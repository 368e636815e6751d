/**
 * The client's drawing surface (`TermCanvas`): a bounded map from points to
 * colours that draw actions update in place, and the colour palette.
 */
module Canvas {
  import opened Wrappers
  import opened World

  /** The sixteen colours every palette offers, in order. */
  const PALETTE: seq<Color> := [
    White, Gray, DarkGray, Black, Red, LightRed, Green, LightGreen,
    Blue, LightBlue, Yellow, LightYellow, Cyan, LightCyan, Magenta, LightMagenta
  ]

  /** A fixed-size array of sixteen colours. */
  type Colors16 = s: seq<Color> | |s| == 16 witness PALETTE

  datatype PaintTool = Pen | Fill | Eraser

  datatype Palette = Palette(paintTool: PaintTool, selectedColorIndex: nat, palette: Colors16)

  /** `Palette::new`: the pen, the first colour, and `PALETTE` whatever palette is passed in. */
  function NewPalette(palette: Colors16): (p: Palette)
    ensures p.paintTool == Pen && p.selectedColorIndex == 0 && p.palette == PALETTE
    ensures SelectedColor(p) == White
  {
    Palette(Pen, 0, PALETTE)
  }

  /** `selected_color`: the colour at the selected index; an index past the end panics. */
  function SelectedColor(p: Palette): (c: Color)
    requires p.selectedColorIndex < 16
    ensures c in p.palette
  {
    p.palette[p.selectedColorIndex]
  }

  /** Whether `q` lies on a canvas of `width` by `height`. */
  predicate InBounds(q: Coord, width: U16, height: U16) {
    q.0 < width && q.1 < height
  }

  /**
   * `canvas` after painting `points` in `color`, one after another, where
   * points off the `width` by `height` canvas are skipped.
   */
  function PaintWithin(canvas: map<Coord, Color>, points: seq<Coord>, color: Color, width: U16, height: U16): map<Coord, Color>
  {
    if points == [] then canvas
    else
      var before := PaintWithin(canvas, points[..|points| - 1], color, width, height);
      var last := points[|points| - 1];
      if InBounds(last, width, height) then before[last := color] else before
  }

  /**
   * Painting adds exactly the points of `points` that lie on the canvas,
   * gives them the colour, and leaves every other cell as it was.
   */
  lemma {:induction false} PaintWithinCells(canvas: map<Coord, Color>, points: seq<Coord>, color: Color, width: U16, height: U16)
    ensures var r := PaintWithin(canvas, points, color, width, height);
      forall q :: q in r <==> q in canvas || (q in points && InBounds(q, width, height))
    ensures var r := PaintWithin(canvas, points, color, width, height);
      forall q | q in r :: r[q] == if q in points && InBounds(q, width, height) then color else canvas[q]
  {
    if points != [] {
      PaintWithinCells(canvas, points[..|points| - 1], color, width, height);
      assert forall q :: q in points <==> q in points[..|points| - 1] || q == points[|points| - 1];
    }
  }

  class TermCanvas {
    var width: U16
    var height: U16
    var viewOffsetX: U16
    var viewOffsetY: U16
    /** The painted cells. */
    var buffer: map<Coord, Color>
    var backgroundColor: Option<Color>
    var shouldShowGrid: bool
    var isAsciiMode: bool
    var lastMousePos: Option<(int, int)>

    /** `TermCanvas::new`: the given size, no offset, nothing painted, no grid. */
    constructor (width: U16, height: U16)
      ensures this.width == width && this.height == height
      ensures viewOffsetX == 0 && viewOffsetY == 0 && buffer == map[]
      ensures backgroundColor == None && !shouldShowGrid && !isAsciiMode && lastMousePos == None
    {
      this.width := width;
      this.height := height;
      viewOffsetX := 0;
      viewOffsetY := 0;
      buffer := map[];
      backgroundColor := None;
      shouldShowGrid := false;
      isAsciiMode := false;
      lastMousePos := None;
    }

    function Dimensions(): (d: Coord)
      reads this
      ensures d == (width, height)
    {
      (width, height)
    }

    /** `within_bounds`: both coordinates below the canvas size. */
    predicate WithinBounds(q: Coord)
      reads this
      ensures WithinBounds(q) <==> q.0 < width && q.1 < height
    {
      InBounds(q, width, height)
    }

    predicate ShowingGrid()
      reads this
    {
      shouldShowGrid
    }

    /** `clear`: nothing painted any more. */
    method Clear()
      modifies this`buffer
      ensures buffer == map[]
    {
      buffer := map[];
    }

    /** `toggle_grid`: the grid flag flips and nothing else changes, so two toggles restore it. */
    method ToggleGrid()
      modifies this`shouldShowGrid
      ensures shouldShowGrid == !old(shouldShowGrid)
      ensures ShowingGrid() != old(ShowingGrid())
    {
      shouldShowGrid := !shouldShowGrid;
    }

    /** `resize_canvas`: the new size with the view back at the origin; the painting is kept. */
    method ResizeCanvas(size: Coord)
      modifies this`width, this`height, this`viewOffsetX, this`viewOffsetY
      ensures Dimensions() == size
      ensures viewOffsetX == 0 && viewOffsetY == 0
    {
      width := size.0;
      height := size.1;
      viewOffsetX := 0;
      viewOffsetY := 0;
    }

    /** `bg`: the background colour is set. */
    method Bg(bg: Color)
      modifies this`backgroundColor
      ensures backgroundColor == Some(bg)
    {
      backgroundColor := Some(bg);
    }

    /** `erase`: exactly that point is no longer painted. */
    method Erase(point: Coord)
      modifies this`buffer
      ensures buffer.Keys == old(buffer).Keys - {point}
      ensures forall q | q in buffer :: buffer[q] == old(buffer)[q]
    {
      buffer := buffer - {point};
    }

    /** `paint`: every point on the canvas takes the colour in turn; points off the canvas are skipped. */
    method Paint(points: seq<Coord>, color: Color)
      modifies this`buffer
      ensures buffer == PaintWithin(old(buffer), points, color, width, height)
    {
      var i := 0;
      while i < |points|
        invariant 0 <= i <= |points|
        invariant buffer == PaintWithin(old(buffer), points[..i], color, width, height)
      {
        var point := points[i];
        if WithinBounds(point) {
          buffer := buffer[point := color];
        }
        assert points[..i + 1][..i] == points[..i];
        i := i + 1;
      }
      assert points[..|points|] == points;
    }

    /** `draw`: each action goes to its operation (`clear`, `erase`, `paint`). */
    method Draw(action: World.Draw)
      modifies this`buffer
      ensures action.Clear? ==> buffer == map[]
      ensures action.Erase? ==> buffer == old(buffer) - {action.point}
      ensures action.Paint? ==> buffer == PaintWithin(old(buffer), action.points, action.color, width, height)
    {
      match action {
        case Clear => Clear();
        case Erase(point) => Erase(point);
        case Paint(points, color) => Paint(points, color);
      }
    }
  }

  /** Painting the same points twice in one colour is the same as painting them once. */
  lemma PaintIdempotent(canvas: map<Coord, Color>, points: seq<Coord>, color: Color, width: U16, height: U16)
    ensures PaintWithin(PaintWithin(canvas, points, color, width, height), points, color, width, height)
         == PaintWithin(canvas, points, color, width, height)
  {
    var once := PaintWithin(canvas, points, color, width, height);
    var twice := PaintWithin(once, points, color, width, height);
    PaintWithinCells(canvas, points, color, width, height);
    PaintWithinCells(once, points, color, width, height);
    assert forall q | q in twice :: twice[q] == once[q];
  }
}
