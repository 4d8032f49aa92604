/**
 * The browser's local key-value storage as the sidebar and the editor use it:
 * one flat, synchronous table of string entries, shared by both components.
 */
module Storage {
  import opened Wrappers

  /** Every document's content lives under this prefix followed by its file name. */
  const ContentPrefix: string := "mdvie-"
  /** The key of the persisted file list. */
  const FilesKey: string := "mdvie-files"
  /** The key of the editor font size, written by the settings page. */
  const FontSizeKey: string := "mdvie-font-size"

  /** The storage key of a document's content, `mdvie-<name>`. */
  function ContentKey(name: string): string {
    ContentPrefix + name
  }

  /** `getItem(key) || ""`: a missing entry and an empty one both read as "". */
  function ReadOrEmpty(entries: map<string, string>, key: string): string {
    if key in entries then entries[key] else ""
  }

  /** Distinct file names have distinct content keys, and only they do. */
  lemma ContentKeyInjective(a: string, b: string)
    ensures ContentKey(a) == ContentKey(b) <==> a == b
  {
    if ContentKey(a) == ContentKey(b) {
      assert a == ContentKey(a)[|ContentPrefix|..];
      assert b == ContentKey(b)[|ContentPrefix|..];
    }
  }

  /** The only file whose content key is the file-list key is the one named "files". */
  lemma ContentKeyIsFilesKey(name: string)
    ensures ContentKey(name) == FilesKey <==> name == "files"
  {
    assert ContentKey("files") == FilesKey;
    ContentKeyInjective(name, "files");
  }

  /** Writing one document's content leaves what every other document reads as. */
  lemma WriteKeepsOtherDocuments(entries: map<string, string>, written: string, text: string, other: string)
    requires written != other
    ensures ReadOrEmpty(entries[ContentKey(written) := text], ContentKey(other)) == ReadOrEmpty(entries, ContentKey(other))
  {
    ContentKeyInjective(written, other);
  }

  /** A write is read back exactly, and writing the same text again changes nothing. */
  lemma WriteReadsBack(entries: map<string, string>, name: string, text: string)
    ensures ReadOrEmpty(entries[ContentKey(name) := text], ContentKey(name)) == text
    ensures entries[ContentKey(name) := text][ContentKey(name) := text] == entries[ContentKey(name) := text]
  {
  }

  /**
   * The storage table. `entries` holds every text entry by its key; `fileList`
   * stands for the entry under FilesKey, which the sidebar writes as a JSON
   * array and which is kept here already decoded (None: no such entry).
   */
  class LocalStorage {
    var entries: map<string, string>
    var fileList: Option<seq<string>>

    constructor (entries: map<string, string>, fileList: Option<seq<string>>)
      ensures this.entries == entries && this.fileList == fileList
    {
      this.entries := entries;
      this.fileList := fileList;
    }
  }
}
