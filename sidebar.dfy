/**
 * The sidebar's file registry: the ordered list of file names, the one open
 * row menu and the one row in rename-edit mode, over the shared storage.
 */
module Sidebar {
  import opened Wrappers
  import opened Storage
  import opened FileNames
  import opened FileList

  /** The row in rename-edit mode: the file being renamed and the text typed so far. */
  datatype RenameEdit = RenameEdit(id: string, name: string)

  /** Pressing the menu button of row `id`: closes that row's menu if it is the open one, otherwise opens it (closing any other). */
  function Toggled(menu: Option<string>, id: string): (r: Option<string>)
    ensures r == Some(id) <==> menu != Some(id)
    ensures r != Some(id) ==> r == None
  {
    if menu == Some(id) then None else Some(id)
  }

  /** The list the load effect starts the sidebar with, given the persisted list. */
  function LoadedFiles(saved: Option<seq<string>>): seq<string> {
    match saved
    case Some(names) => names
    case None => [DefaultFileName]
  }

  /** The persisted list after the list-persist effect has run on `files`. */
  function PersistedList(saved: Option<seq<string>>, files: seq<string>): Option<seq<string>> {
    if |files| > 0 then Some(files) else saved
  }

  /** The content entries after the rename's write of the old content under the new key and removal of the old key, in that order. */
  function MovedContent(entries: map<string, string>, oldName: string, newName: string): map<string, string> {
    entries[ContentKey(newName) := ReadOrEmpty(entries, ContentKey(oldName))] - {ContentKey(oldName)}
  }

  /** A rename to a different name moves the content to the new key, drops the old key and touches no other entry. */
  lemma MovedContentMoves(entries: map<string, string>, oldName: string, newName: string)
    requires oldName != newName
    ensures ContentKey(oldName) !in MovedContent(entries, oldName, newName)
    ensures ReadOrEmpty(MovedContent(entries, oldName, newName), ContentKey(newName)) == ReadOrEmpty(entries, ContentKey(oldName))
    ensures ContentKey(newName) in MovedContent(entries, oldName, newName)
    ensures forall k :: k != ContentKey(oldName) && k != ContentKey(newName) ==>
      (k in MovedContent(entries, oldName, newName) <==> k in entries) &&
      (k in entries ==> MovedContent(entries, oldName, newName)[k] == entries[k])
  {
    ContentKeyInjective(oldName, newName);
  }

  /** A rename to the file's own name removes its content: the removal runs after the write, on the same key. */
  lemma RenameToSelfDropsContent(entries: map<string, string>, name: string)
    ensures MovedContent(entries, name, name) == entries - {ContentKey(name)}
    ensures ReadOrEmpty(MovedContent(entries, name, name), ContentKey(name)) == ""
  {
  }

  /**
   * Deleting the only file empties the list, the persist effect then writes
   * nothing, and the next load brings the deleted name back.
   */
  lemma DeleteLastFileIsReloaded(name: string)
    ensures RemoveAll([name], name) == []
    ensures LoadedFiles(PersistedList(Some([name]), RemoveAll([name], name))) == [name]
  {
  }

  /**
   * After deleting a name that occurs once, the list is one shorter, so the
   * next synthesised name is `Untitled-<old length>.md`, which is a
   * duplicate whenever that name was already listed.
   */
  lemma {:induction false} CreateAfterDeleteDuplicates(files: seq<string>, name: string)
    requires multiset(files)[name] == 1
    requires UntitledName(|files|) in files && UntitledName(|files|) != name
    ensures |RemoveAll(files, name)| == |files| - 1
    ensures UntitledName(|RemoveAll(files, name)| + 1) in RemoveAll(files, name)
  {
    var r := RemoveAll(files, name);
    var m := multiset(files);
    assert m == m[name := 0] + multiset{name};
    assert |multiset(r)| == |m| - 1;
    assert UntitledName(|files|) in multiset(r);
  }

  /**
   * Renaming a listed file by typing the name the next create will
   * synthesise makes that create repeat it.
   */
  lemma RenameToNextUntitledDuplicates(files: seq<string>, oldName: string, typed: string)
    requires oldName in files
    requires Normalized(typed) == UntitledName(|files| + 1)
    ensures UntitledName(|ReplaceAll(files, oldName, Normalized(typed))| + 1) in ReplaceAll(files, oldName, Normalized(typed))
  {
  }

  /** Two creates in a row synthesise different names, so while nothing is deleted each create adds a name not synthesised before. */
  lemma SuccessiveCreatesDiffer(files: seq<string>)
    ensures UntitledName(|files| + 1) != UntitledName(|files + [UntitledName(|files| + 1)]| + 1)
  {
    UntitledNameInjective(|files| + 1, |files| + 2);
  }

  /** The sidebar component: its state and its handlers. */
  class FileRegistry {
    const storage: LocalStorage
    /** The file names in display order. */
    var files: seq<string>
    /** The row whose action menu is open, if any. */
    var fileMenu: Option<string>
    /** The row in rename-edit mode, if any. */
    var renameFile: Option<RenameEdit>

    /**
     * Mounting the sidebar: the first render (no files, no menu, no rename),
     * then the load effect, which adopts the persisted list or registers and
     * persists the default file, and the list-persist effect that follows.
     */
    constructor (storage: LocalStorage)
      modifies storage
      ensures this.storage == storage
      ensures files == LoadedFiles(old(storage.fileList))
      ensures storage.fileList == if old(storage.fileList) == None then Some([DefaultFileName]) else old(storage.fileList)
      ensures storage.entries == old(storage.entries)
      ensures fileMenu == None && renameFile == None
      ensures old(storage.fileList) == None ==> AllMd(files)
    {
      this.storage := storage;
      files := [];
      fileMenu := None;
      renameFile := None;
      new;
      match storage.fileList {
        case Some(names) =>
          files := names;
        case None =>
          files := [DefaultFileName];
          storage.fileList := Some([DefaultFileName]);
      }
      PersistFiles();
    }

    /** The list-persist effect, run after every change of `files`: it writes the list only when it is non-empty. */
    method PersistFiles()
      modifies storage
      ensures storage.fileList == PersistedList(old(storage.fileList), files)
      ensures storage.entries == old(storage.entries)
    {
      if |files| > 0 {
        storage.fileList := Some(files);
      }
    }

    /** The create button: appends the synthesised name `Untitled-<length + 1>.md`; no content entry is written. */
    method Create()
      modifies this, storage
      ensures files == old(files) + [UntitledName(|old(files)| + 1)]
      ensures storage.fileList == Some(files)
      ensures storage.entries == old(storage.entries)
      ensures fileMenu == old(fileMenu) && renameFile == old(renameFile)
      ensures old(AllMd(files)) ==> AllMd(files)
    {
      files := files + [UntitledName(|files| + 1)];
      PersistFiles();
    }

    /** toggleMenu: the menu button of row `id`. */
    method ToggleMenu(id: string)
      modifies this
      ensures fileMenu == Toggled(old(fileMenu), id)
      ensures files == old(files) && renameFile == old(renameFile)
    {
      if fileMenu == Some(id) {
        fileMenu := None;
      } else {
        fileMenu := Some(id);
      }
    }

    /** deleteFile: removes the content entry and every occurrence of the name, and closes the menu. */
    method DeleteFile(name: string)
      modifies this, storage
      ensures storage.entries == old(storage.entries) - {ContentKey(name)}
      ensures files == RemoveAll(old(files), name)
      ensures storage.fileList == PersistedList(old(storage.fileList), files)
      ensures fileMenu == None && renameFile == old(renameFile)
      ensures old(AllMd(files)) ==> AllMd(files)
    {
      storage.entries := storage.entries - {ContentKey(name)};
      if AllMd(files) {
        RemoveAllKeepsMd(files, name);
      }
      files := RemoveAll(files, name);
      fileMenu := None;
      PersistFiles();
    }

    /** downloadFile: the text handed to the download (the stored content, or "" when there is none); it closes the menu and writes nothing. */
    method DownloadFile(name: string) returns (content: string)
      modifies this
      ensures content == ReadOrEmpty(storage.entries, ContentKey(name))
      ensures storage.entries == old(storage.entries) && storage.fileList == old(storage.fileList)
      ensures fileMenu == None
      ensures files == old(files) && renameFile == old(renameFile)
    {
      content := ReadOrEmpty(storage.entries, ContentKey(name));
      fileMenu := None;
    }

    /** startRename: puts row `name` in rename-edit mode with its current name as the text, and closes the menu. */
    method StartRename(name: string)
      modifies this
      ensures renameFile == Some(RenameEdit(name, name))
      ensures fileMenu == None && files == old(files)
    {
      renameFile := Some(RenameEdit(name, name));
      fileMenu := None;
    }

    /** The rename input's change handler: replaces the typed text and keeps the row. */
    method EditRenameText(text: string)
      modifies this
      ensures renameFile == match old(renameFile) case Some(edit) => Some(edit.(name := text)) case None => None
      ensures fileMenu == old(fileMenu) && files == old(files)
    {
      match renameFile {
        case Some(edit) =>
          renameFile := Some(edit.(name := text));
        case None =>
      }
    }

    /**
     * handleRename: on Enter in rename mode, the content is moved from the old
     * key to the normalised new one, every occurrence of the old name becomes
     * the new one, and rename mode ends; on Escape, rename mode ends and
     * nothing else changes; any other key changes nothing.
     */
    method HandleRename(key: string)
      modifies this, storage
      ensures key == "Enter" && old(renameFile).Some? ==>
        var oldName := old(renameFile).value.id;
        var newName := Normalized(old(renameFile).value.name);
        storage.entries == MovedContent(old(storage.entries), oldName, newName) &&
        files == ReplaceAll(old(files), oldName, newName) &&
        storage.fileList == PersistedList(old(storage.fileList), files) &&
        renameFile == None
      ensures !(key == "Enter" && old(renameFile).Some?) ==>
        storage.entries == old(storage.entries) && storage.fileList == old(storage.fileList) &&
        files == old(files) &&
        renameFile == if key == "Escape" then None else old(renameFile)
      ensures fileMenu == old(fileMenu)
      ensures old(AllMd(files)) ==> AllMd(files)
    {
      if key == "Enter" && renameFile.Some? {
        var oldName := renameFile.value.id;
        var newName := Normalized(renameFile.value.name);
        var content := ReadOrEmpty(storage.entries, ContentKey(oldName));
        storage.entries := storage.entries[ContentKey(newName) := content];
        storage.entries := storage.entries - {ContentKey(oldName)};
        if AllMd(files) {
          ReplaceAllKeepsMd(files, oldName, newName);
        }
        files := ReplaceAll(files, oldName, newName);
        renameFile := None;
        PersistFiles();
      } else if key == "Escape" {
        renameFile := None;
      }
    }

    /** handleClickOutside: a click on the backdrop closes the menu. */
    method HandleClickOutside()
      modifies this
      ensures fileMenu == None
      ensures files == old(files) && renameFile == old(renameFile)
    {
      fileMenu := None;
    }
  }
}
