/** The image folder: the shared folder machine with the selection held as an
    index into the images, plus previous/next navigation and the keyboard. */
module ImageFolder {
  import opened Common
  import opened Folders

  /** Thumbnails scatter over [-100, 100) with a tilt in [-10, 10). */
  const ImageLayout := Layout(100.0, 10.0)

  /** A selection always names one of the n images. */
  predicate ValidSelection(f: Folder<nat>, n: nat) {
    f.selected.Some? ==> f.selected.value < n
  }

  /** `(i + 1) % n`. */
  function NextIndex(i: nat, n: nat): (j: nat)
    requires i < n
    ensures j < n
    ensures j == if i + 1 == n then 0 else i + 1
  {
    (i + 1) % n
  }

  /** `(i - 1 + n) % n`; the dividend is never negative, so JavaScript's
      truncating `%` and Dafny's agree here. */
  function PrevIndex(i: nat, n: nat): (j: nat)
    requires i < n
    ensures j < n
    ensures j == if i == 0 then n - 1 else i - 1
  {
    (i - 1 + n) % n
  }

  /** Previous undoes next, and next undoes previous. */
  lemma PrevNextInverse(i: nat, n: nat)
    requires i < n
    ensures PrevIndex(NextIndex(i, n), n) == i
    ensures NextIndex(PrevIndex(i, n), n) == i
  {
  }

  function NextTimes(i: nat, n: nat, k: nat): (j: nat)
    requires i < n
    ensures j < n
    decreases k
  {
    if k == 0 then i else NextIndex(NextTimes(i, n, k - 1), n)
  }

  /** k presses of next (k at most n) move k places round the ring, wrapping once past the end. */
  lemma {:induction false} NextTimesWraps(i: nat, n: nat, k: nat)
    requires i < n && k <= n
    ensures NextTimes(i, n, k) == if i + k < n then i + k else i + k - n
    decreases k
  {
    if k > 0 {
      NextTimesWraps(i, n, k - 1);
    }
  }

  /** n presses of next come back to the image they started from. */
  lemma NextFullCircle(i: nat, n: nat)
    requires i < n
    ensures NextTimes(i, n, n) == i
  {
    NextTimesWraps(i, n, n);
  }

  /** The previous image, if one is selected; nothing otherwise. */
  function Prev(f: Folder<nat>, n: nat): (g: Folder<nat>)
    requires ValidSelection(f, n)
    ensures ValidSelection(g, n) && g.isOpen == f.isOpen && g.positions == f.positions
    ensures f.selected == None ==> g == f
    ensures f.selected.Some? ==> g.selected == Some(PrevIndex(f.selected.value, n))
  {
    match f.selected
    case None => f
    case Some(i) => f.(selected := Some(PrevIndex(i, n)))
  }

  /** The next image, if one is selected; nothing otherwise. */
  function Next(f: Folder<nat>, n: nat): (g: Folder<nat>)
    requires ValidSelection(f, n)
    ensures ValidSelection(g, n) && g.isOpen == f.isOpen && g.positions == f.positions
    ensures f.selected == None ==> g == f
    ensures f.selected.Some? ==> g.selected == Some(NextIndex(f.selected.value, n))
  {
    match f.selected
    case None => f
    case Some(i) => f.(selected := Some(NextIndex(i, n)))
  }

  /** `handleKeyPress`: only while an image is selected, the left and right
      arrows step through the images and Escape closes the viewer; every other
      key, and every key with nothing selected, changes nothing. */
  function KeyPress(f: Folder<nat>, n: nat, key: string): (g: Folder<nat>)
    requires ValidSelection(f, n)
    ensures ValidSelection(g, n) && g.isOpen == f.isOpen && g.positions == f.positions
    ensures f.selected == None ==> g == f
    ensures key !in {"ArrowLeft", "ArrowRight", "Escape"} ==> g == f
    ensures f.selected.Some? && key == "ArrowLeft" ==> g == Prev(f, n)
    ensures f.selected.Some? && key == "ArrowRight" ==> g == Next(f, n)
    ensures f.selected.Some? && key == "Escape" ==> g.selected == None
  {
    if f.selected == None then f
    else if key == "ArrowLeft" then Prev(f, n)
    else if key == "ArrowRight" then Next(f, n)
    else if key == "Escape" then CloseViewer(f)
    else f
  }

  /** Left after right, with an image selected, shows the same image again. */
  lemma ArrowsCancel(f: Folder<nat>, n: nat)
    requires ValidSelection(f, n) && f.selected.Some?
    ensures KeyPress(KeyPress(f, n, "ArrowRight"), n, "ArrowLeft") == f
  {
    PrevNextInverse(f.selected.value, n);
  }

  /** A click on thumbnail i, one of the n images. */
  function ClickImage(f: Folder<nat>, n: nat, i: nat): (g: Folder<nat>)
    requires i < n
    ensures ValidSelection(g, n) && g == SelectItem(f, i)
  {
    SelectItem(f, i)
  }

  /** A folder click when closed scatters exactly one position per image. */
  lemma OpenScattersEveryImage(f: Folder<nat>, n: nat, draws: seq<PositionDraw>)
    requires !f.isOpen && |draws| == n
    ensures var g := ClickFolder(f, ImageLayout, draws);
      g.isOpen && g.selected == None && |g.positions| == n
      && forall k :: 0 <= k < |g.positions| ==>
        -100.0 <= g.positions[k].x < 100.0 && -100.0 <= g.positions[k].y < 100.0
        && -10.0 <= g.positions[k].rotation < 10.0
  {
  }

  /** The viewer is drawn beside the folder's container, not inside it, so a
      mouse press anywhere in the viewer (its arrows, its close button, its
      thumbnails) is first an outside click: the folder closes, the selection
      is cleared and the viewer goes away, after which the previous, next and
      close handlers have nothing left to act on. */
  lemma MousePressInViewer(f: Folder<nat>, n: nat)
    ensures var g := ClickOutside(f);
      !g.isOpen && g.selected == None && g.positions == f.positions
      && Prev(g, n) == g && Next(g, n) == g && CloseViewer(g) == g
  {
  }
}
