/** The matrix-rain layer of the first loading screen: a column-aligned grid of
    falling glyph cells whose count never changes, whose cells fall by their own
    speed, and which are recycled to just above the top edge when they pass the
    bottom. */
module MatrixRain {
  import opened Common

  /** The glyph alphabet (`matrixCharsSet`): katakana, digits, capitals and punctuation. */
  const Glyphs: string :=
    "アイウエオカキクケコサシスセソタチツテトナニヌネノハヒフヘホマミムメモヤユヨラリルレロワヲン0123456789ABCDEFGHIJKLMNOPQRSTUVWXYZ!@#$%^&*()_+-=[]{}|;:,.<>?"

  /** Width of one glyph column in pixels. */
  const CellWidth := 20
  /** Cells per column. */
  const Density := 3
  /** Where a cell that left the canvas re-enters. */
  const RecycleY := -20.0
  const BrightGreen := "#00ff41"
  const DimGreen := "#008f11"

  datatype Cell = Cell(id: int, x: int, y: real, glyph: char, speed: real, opacity: real, color: string)

  /** The random draws that create one cell. */
  datatype CellDraw = CellDraw(y: Draw, glyph: Draw, speed: Draw, opacity: Draw, color: Draw)

  /** The random draws one animation frame spends on one cell. */
  datatype TickDraw = TickDraw(mutate: Draw, glyph: Draw, flicker: Draw, opacity: Draw)

  /** `Math.floor(innerWidth / 20)`: the number of glyph columns. */
  function Columns(width: nat): nat {
    width / CellWidth
  }

  /** A glyph drawn uniformly from the alphabet. */
  function RandomGlyph(d: Draw): (c: char)
    ensures c in Glyphs
  {
    Glyphs[PickIndex(d, |Glyphs|)]
  }

  /** Everything the layer keeps true of a cell on a canvas of the given size. */
  predicate ValidCell(c: Cell, width: nat, height: nat) {
    c.x % CellWidth == 0 && 0 <= c.x < width
    && RecycleY <= c.y <= height as real
    && 1.0 <= c.speed < 4.0
    && c.glyph in Glyphs
    && 0.0 <= c.opacity < 1.0
    && (c.color == BrightGreen || c.color == DimGreen)
  }

  predicate ValidGrid(cells: seq<Cell>, width: nat, height: nat) {
    forall i :: 0 <= i < |cells| ==> ValidCell(cells[i], width, height)
  }

  /** `(i % columns) * 20`: the left edge of cell i's column, inside the canvas. */
  function ColumnX(i: nat, width: nat): (x: int)
    requires Columns(width) > 0
    ensures x == (i % Columns(width)) * CellWidth
    ensures x % CellWidth == 0 && 0 <= x < width
  {
    var columns := Columns(width);
    var col := i % columns;
    assert col * CellWidth <= (columns - 1) * CellWidth;
    assert columns * CellWidth <= width;
    col * CellWidth
  }

  /** `Math.random() * innerHeight`: a starting height on the canvas. */
  function StartY(d: Draw, height: nat): (y: real)
    ensures 0.0 <= y <= height as real
  {
    if height == 0 then 0.0 else Scale(d, height as real)
  }

  /** Cell i: in column `i mod columns`, at a random height, speed in [1, 4),
      bright with probability 0.2. */
  function MakeCell(i: nat, width: nat, height: nat, d: CellDraw): (c: Cell)
    requires i < Columns(width) * Density
    ensures ValidCell(c, width, height)
    ensures c.id == i && c.x == (i % Columns(width)) * CellWidth
  {
    Cell(i, ColumnX(i, width), StartY(d.y, height), RandomGlyph(d.glyph), Scale(d.speed, 3.0) + 1.0,
         d.opacity, if d.color > 0.8 then BrightGreen else DimGreen)
  }

  /** The initialisation effect: `columns * 3` cells, cell i in column `i mod columns`. */
  function Init(width: nat, height: nat, draws: seq<CellDraw>): (cells: seq<Cell>)
    requires |draws| == Columns(width) * Density
    ensures |cells| == Columns(width) * Density
    ensures forall i :: 0 <= i < |cells| ==>
      cells[i].id == i && cells[i].x == (i % Columns(width)) * CellWidth
    ensures ValidGrid(cells, width, height)
    ensures forall i :: 0 <= i < |cells| ==> 0.0 <= cells[i].y
  {
    seq(|draws|, i requires 0 <= i < |draws| => MakeCell(i, width, height, draws[i]))
  }

  /** A canvas narrower than one column gets no cells at all. */
  lemma NarrowCanvasIsEmpty(width: nat, height: nat, draws: seq<CellDraw>)
    requires width < CellWidth && |draws| == Columns(width) * Density
    ensures Init(width, height, draws) == []
  {
  }

  /** One frame for one cell: fall by `speed`, re-enter at -20 once past the
      bottom edge, change glyph with probability 0.02, and either take a fresh
      opacity (probability 0.05) or fade by 2%. */
  function TickCell(c: Cell, height: nat, d: TickDraw): Cell {
    var fallen := c.y + c.speed;
    c.(y := if fallen > height as real then RecycleY else fallen,
       glyph := if d.mutate > 0.98 then RandomGlyph(d.glyph) else c.glyph,
       opacity := if d.flicker > 0.95 then d.opacity else c.opacity * 0.98)
  }

  /** One animation frame over the whole grid. */
  function Tick(cells: seq<Cell>, height: nat, draws: seq<TickDraw>): (r: seq<Cell>)
    requires |draws| == |cells|
    ensures |r| == |cells|
    ensures forall i :: 0 <= i < |r| ==>
      r[i].id == cells[i].id && r[i].x == cells[i].x && r[i].speed == cells[i].speed
      && r[i].color == cells[i].color
  {
    seq(|cells|, i requires 0 <= i < |cells| => TickCell(cells[i], height, draws[i]))
  }

  /** A frame keeps every cell valid: the cell falls by its speed, and is put
      back at -20 exactly when that would take it past the bottom edge, so y
      stays within [-20, height] and the glyph in the alphabet. */
  lemma TickCellValid(c: Cell, width: nat, height: nat, d: TickDraw)
    requires ValidCell(c, width, height)
    ensures ValidCell(TickCell(c, height, d), width, height)
    ensures var n := TickCell(c, height, d);
      (c.y + c.speed > height as real ==> n.y == RecycleY)
      && (c.y + c.speed <= height as real ==> n.y == c.y + c.speed && n.y > c.y)
  {
  }

  lemma TickValid(cells: seq<Cell>, width: nat, height: nat, draws: seq<TickDraw>)
    requires ValidGrid(cells, width, height) && |draws| == |cells|
    ensures ValidGrid(Tick(cells, height, draws), width, height)
  {
    forall i | 0 <= i < |cells| ensures ValidCell(Tick(cells, height, draws)[i], width, height) {
      TickCellValid(cells[i], width, height, draws[i]);
    }
  }

  /** Frames driven one after another by a sequence of per-frame draws. */
  function Run(cells: seq<Cell>, height: nat, frames: seq<seq<TickDraw>>): seq<Cell>
    requires forall k :: 0 <= k < |frames| ==> |frames[k]| == |cells|
    decreases |frames|
  {
    if |frames| == 0 then cells
    else Run(Tick(cells, height, frames[0]), height, frames[1..])
  }

  /** For any number of frames the cell count is constant and every cell stays
      valid: the rain never grows and never leaves [-20, height]. */
  lemma {:induction false} RunValid(cells: seq<Cell>, width: nat, height: nat, frames: seq<seq<TickDraw>>)
    requires ValidGrid(cells, width, height)
    requires forall k :: 0 <= k < |frames| ==> |frames[k]| == |cells|
    decreases |frames|
    ensures |Run(cells, height, frames)| == |cells|
    ensures ValidGrid(Run(cells, height, frames), width, height)
  {
    if |frames| > 0 {
      TickValid(cells, width, height, frames[0]);
      var next := Tick(cells, height, frames[0]);
      assert forall k :: 0 <= k < |frames[1..]| ==> |frames[1..][k]| == |next|;
      RunValid(next, width, height, frames[1..]);
    }
  }
}
