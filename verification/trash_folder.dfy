/** The trash folder: the shared folder machine with a corrupted file as the
    selection, a wider scatter, and its own icons. */
module TrashFolder {
  import opened Common
  import opened Folders
  import opened FolderIcon

  /** Corrupted files scatter over [-125, 125) with a tilt in [-30, 30). */
  const TrashLayout := Layout(125.0, 30.0)

  /** 💀 for documents, ⚠️ for code, 🔥 otherwise. */
  function TrashIcon(t: FileType): string {
    if t == Document then "💀" else if t == Code then "⚠️" else "🔥"
  }

  /** Each kind of file has its own trash icon, and none is a folder icon. */
  lemma TrashIconsDistinct(a: FileType, b: FileType)
    ensures TrashIcon(a) == TrashIcon(b) <==> a == b
    ensures TrashIcon(a) != FileIcon(b)
  {
    assert TrashIcon(a)[0] != FileIcon(b)[0];
  }

  /** Opening the trash scatters one position per file within [-125, 125) and
      [-30, 30); a click on the can while open closes it and keeps those positions. */
  lemma TrashSession(files: seq<FileItem>, draws: seq<PositionDraw>, again: seq<PositionDraw>)
    requires |draws| == |files|
    ensures var shown := ClickFolder(Closed<FileItem>(), TrashLayout, draws);
      shown.isOpen && |shown.positions| == |files|
      && (forall i :: 0 <= i < |shown.positions| ==>
        -125.0 <= shown.positions[i].x < 125.0 && -125.0 <= shown.positions[i].y < 125.0
        && -30.0 <= shown.positions[i].rotation < 30.0)
      && ClickFolder(shown, TrashLayout, again) == shown.(isOpen := false)
  {
  }
}
