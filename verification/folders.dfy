/** The open/select/close state machine shared by the image folder, the file
    folder and the trash folder: a click on the icon toggles the folder and
    (when opening) scatters one thumbnail position per item; a click on an item
    selects it; the viewer can be closed; a click outside closes everything.
    The selection type differs per widget, so the machine is generic in it. */
module Folders {
  import opened Common

  /** Where a thumbnail is drawn relative to the folder, and its tilt in degrees. */
  datatype Position = Position(x: real, y: real, rotation: real)

  datatype PositionDraw = PositionDraw(x: Draw, y: Draw, rotation: Draw)

  /** A widget's scatter: offsets in [-spread, spread), tilt in [-tilt, tilt). */
  datatype Layout = Layout(spread: real, tilt: real)

  predicate ValidLayout(l: Layout) {
    l.spread > 0.0 && l.tilt > 0.0
  }

  predicate InLayout(p: Position, l: Layout) {
    -l.spread <= p.x < l.spread && -l.spread <= p.y < l.spread && -l.tilt <= p.rotation < l.tilt
  }

  /** `{ x: r * 2s - s, y: r * 2s - s, rotation: r * 2t - t }`. */
  function Scatter(d: PositionDraw, l: Layout): (p: Position)
    requires ValidLayout(l)
    ensures InLayout(p, l)
  {
    Position(Spread(d.x, l.spread), Spread(d.y, l.spread), Spread(d.rotation, l.tilt))
  }

  /** `items.map(() => position)`: one fresh position per item. */
  function ScatterAll(draws: seq<PositionDraw>, l: Layout): (ps: seq<Position>)
    requires ValidLayout(l)
    ensures |ps| == |draws|
    ensures forall i :: 0 <= i < |ps| ==> InLayout(ps[i], l)
  {
    seq(|draws|, i requires 0 <= i < |draws| => Scatter(draws[i], l))
  }

  datatype Folder<S> = Folder(isOpen: bool, selected: Option<S>, positions: seq<Position>)

  /** The state each widget mounts with: closed, nothing selected, no positions. */
  function Closed<S>(): Folder<S> {
    Folder(false, None, [])
  }

  /** A click on the folder icon: positions are regenerated only when a closed
      folder opens (one per item, from `draws`); the open flag flips and the
      selection is always cleared. */
  function ClickFolder<S>(f: Folder<S>, l: Layout, draws: seq<PositionDraw>): (g: Folder<S>)
    requires ValidLayout(l)
    ensures g.isOpen == !f.isOpen && g.selected == None
    ensures f.isOpen ==> g.positions == f.positions
    ensures !f.isOpen ==> |g.positions| == |draws| && forall i :: 0 <= i < |g.positions| ==> InLayout(g.positions[i], l)
  {
    var positions := if f.isOpen then f.positions else ScatterAll(draws, l);
    Folder(!f.isOpen, None, positions)
  }

  /** A click on an item selects it; the folder stays as it is. */
  function SelectItem<S>(f: Folder<S>, item: S): (g: Folder<S>)
    ensures g.selected == Some(item) && g.isOpen == f.isOpen && g.positions == f.positions
  {
    f.(selected := Some(item))
  }

  /** Closing the viewer clears the selection and nothing else. */
  function CloseViewer<S>(f: Folder<S>): (g: Folder<S>)
    ensures g.selected == None && g.isOpen == f.isOpen && g.positions == f.positions
  {
    f.(selected := None)
  }

  /** A mouse-down outside the widget closes it and clears the selection. The
      listener is installed only while the folder is open or something is
      selected; `ClickOutsideWhenIdle` shows that outside those states the
      step changes nothing, so the installation condition needs no modelling. */
  function ClickOutside<S>(f: Folder<S>): (g: Folder<S>)
    ensures !g.isOpen && g.selected == None && g.positions == f.positions
  {
    f.(isOpen := false, selected := None)
  }

  lemma ClickOutsideWhenIdle<S>(f: Folder<S>)
    requires !f.isOpen && f.selected == None
    ensures ClickOutside(f) == f
  {
  }

  /** Clicking the icon twice closes the folder again and keeps the positions
      scattered by the first click. */
  lemma ClickTwice<S>(f: Folder<S>, l: Layout, d1: seq<PositionDraw>, d2: seq<PositionDraw>)
    requires ValidLayout(l) && !f.isOpen
    ensures var g := ClickFolder(ClickFolder(f, l, d1), l, d2);
      !g.isOpen && g.selected == None && g.positions == ScatterAll(d1, l)
  {
  }

  /** The events a folder widget reacts to; `draws` are the random positions a
      click would use if it opens the folder. */
  datatype FolderEvent<S> = IconClick(draws: seq<PositionDraw>) | ItemClick(item: S) | ViewerClose | Outside

  function Step<S>(f: Folder<S>, l: Layout, e: FolderEvent<S>): Folder<S>
    requires ValidLayout(l)
  {
    match e
    case IconClick(draws) => ClickFolder(f, l, draws)
    case ItemClick(item) => SelectItem(f, item)
    case ViewerClose => CloseViewer(f)
    case Outside => ClickOutside(f)
  }

  /** Every stored position lies within the widget's scatter. */
  predicate PositionsInLayout<S>(f: Folder<S>, l: Layout) {
    forall i :: 0 <= i < |f.positions| ==> InLayout(f.positions[i], l)
  }

  /** Every event keeps every stored position within the widget's scatter. */
  lemma StepKeepsLayout<S>(f: Folder<S>, l: Layout, e: FolderEvent<S>)
    requires ValidLayout(l) && PositionsInLayout(f, l)
    ensures PositionsInLayout(Step(f, l, e), l)
  {
  }
}
