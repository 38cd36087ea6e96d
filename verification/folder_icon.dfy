/** The file folder: the shared folder machine with a file as the selection,
    and the icon each kind of file is shown with. */
module FolderIcon {
  import opened Common
  import opened Folders

  datatype FileType = Document | Code | Image

  datatype FileItem = FileItem(name: string, content: string, kind: FileType)

  /** Files scatter over [-100, 100) with a tilt in [-15, 15). */
  const FileLayout := Layout(100.0, 15.0)

  /** 📄 for documents, 💻 for code, 🖼️ otherwise. */
  function FileIcon(t: FileType): string {
    if t == Document then "📄" else if t == Code then "💻" else "🖼️"
  }

  /** Each kind of file has its own icon. */
  lemma FileIconsDistinct(a: FileType, b: FileType)
    ensures FileIcon(a) == FileIcon(b) <==> a == b
  {
    assert FileIcon(Image)[0] != FileIcon(Document)[0] && FileIcon(Image)[0] != FileIcon(Code)[0];
  }

  /** Opening scatters one position per file within [-100, 100) and [-15, 15);
      clicking a file then selects it without closing the folder; closing the
      viewer keeps the folder open; a click outside closes it. */
  lemma FileFolderSession(files: seq<FileItem>, draws: seq<PositionDraw>, k: nat)
    requires |draws| == |files| && k < |files|
    ensures var shown := ClickFolder(Closed<FileItem>(), FileLayout, draws);
      var picked := SelectItem(shown, files[k]);
      shown.isOpen && |shown.positions| == |files|
      && (forall i :: 0 <= i < |shown.positions| ==>
        -100.0 <= shown.positions[i].x < 100.0 && -100.0 <= shown.positions[i].y < 100.0
        && -15.0 <= shown.positions[i].rotation < 15.0)
      && picked.isOpen && picked.selected == Some(files[k])
      && CloseViewer(picked) == shown
      && ClickOutside(picked) == shown.(isOpen := false)
  {
  }
}
