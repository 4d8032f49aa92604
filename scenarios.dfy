/**
 * Clients of the two components that show, from their contracts alone, the
 * end-to-end flow and the three corner cases of the sidebar as written.
 */
module Scenarios {
  import opened Wrappers
  import opened Storage
  import opened FileNames
  import opened FileList
  import opened Sidebar
  import opened MarkdownEditor

  /** Create, then rename the new file to "notes": it becomes "notes.md" at the same position. */
  method CreateThenRename() {
    var storage := new LocalStorage(map[], Some([DefaultFileName]));
    var sidebar := new FileRegistry(storage);
    sidebar.Create();
    assert UntitledName(2) == "Untitled-2.md";
    assert sidebar.files == ["template.md", "Untitled-2.md"];
    sidebar.StartRename("Untitled-2.md");
    sidebar.EditRenameText("notes");
    assert Normalized("notes") == "notes.md";
    ReplaceAllMembership(["template.md", "Untitled-2.md"], "Untitled-2.md", "notes.md");
    sidebar.HandleRename("Enter");
    assert sidebar.files[0] == "template.md" && sidebar.files[1] == "notes.md";
  }

  /** What the editor saves for a listed file is what the sidebar downloads for it. */
  method SaveThenDownload() {
    var storage := new LocalStorage(map[], Some(["template.md", "notes.md"]));
    var sidebar := new FileRegistry(storage);
    var editor := new EditorSession(storage, "notes.md", "");
    editor.Edit("# Hi");
    editor.Save(1);
    var text := sidebar.DownloadFile("notes.md");
    assert text == "# Hi";
  }

  /** Pressing Enter without changing the prefilled name removes the file's content. */
  method RenameToSameNameLosesContent() {
    var storage := new LocalStorage(map[ContentKey("a.md") := "text"], Some(["a.md"]));
    var sidebar := new FileRegistry(storage);
    sidebar.StartRename("a.md");
    sidebar.HandleRename("Enter");
    assert Normalized("a.md") == "a.md";
    assert ContentKey("a.md") !in storage.entries;
    assert sidebar.files == ["a.md"];
  }

  /** Deleting the last file leaves the old list persisted, so the next mount lists it again. */
  method DeletedLastFileComesBack() {
    var storage := new LocalStorage(map[], Some(["a.md"]));
    var sidebar := new FileRegistry(storage);
    sidebar.DeleteFile("a.md");
    DeleteLastFileIsReloaded("a.md");
    assert sidebar.files == [];
    assert storage.fileList == Some(["a.md"]);
    var remounted := new FileRegistry(storage);
    assert remounted.files == ["a.md"];
  }

  /** After deleting Untitled-1.md, the create button adds a second Untitled-2.md. */
  method CreateAfterDeleteRepeatsAName() {
    var storage := new LocalStorage(map[], Some(["Untitled-1.md", "Untitled-2.md"]));
    var sidebar := new FileRegistry(storage);
    sidebar.DeleteFile("Untitled-1.md");
    assert UntitledName(2) == "Untitled-2.md";
    CreateAfterDeleteDuplicates(["Untitled-1.md", "Untitled-2.md"], "Untitled-1.md");
    sidebar.Create();
    assert sidebar.files == ["Untitled-2.md", "Untitled-2.md"];
  }

  /** Escape leaves rename mode with the list and the storage as they were. */
  method EscapeCancelsRename() {
    var storage := new LocalStorage(map[ContentKey("a.md") := "text"], Some(["a.md"]));
    var sidebar := new FileRegistry(storage);
    sidebar.StartRename("a.md");
    sidebar.EditRenameText("b");
    sidebar.HandleRename("Escape");
    assert sidebar.renameFile == None;
    assert sidebar.files == ["a.md"];
    assert storage.entries == map[ContentKey("a.md") := "text"];
  }
}
