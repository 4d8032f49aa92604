/**
 * The editor session: the text buffer of the open file, its view mode, the
 * last-saved time and the save confirmation, with manual save, the auto-save
 * tick and the shortcut and toolbar handlers.
 */
module MarkdownEditor {
  import opened Wrappers
  import opened Storage
  import opened EditorCommands

  /** The font size before the stored one is loaded. */
  const DefaultFontSize: int := 14

  /**
   * The editor component. Timestamps are the caller's clock reading `now`;
   * the 5-second auto-save interval and the 2-second confirmation timeout
   * are the explicit calls AutoSaveTick and ClearConfirmation.
   */
  class EditorSession {
    const storage: LocalStorage
    var fileName: string
    var content: string
    var viewMode: ViewMode
    var fontSize: int
    var lastSaved: Option<nat>
    var showSaveConfirmation: bool

    /** The first render: the buffer holds the initial content, in split mode, nothing saved yet. */
    constructor (storage: LocalStorage, fileName: string, initialContent: string)
      ensures this.storage == storage && this.fileName == fileName
      ensures content == initialContent && viewMode == InitialViewMode
      ensures fontSize == DefaultFontSize && lastSaved == None && !showSaveConfirmation
    {
      this.storage := storage;
      this.fileName := fileName;
      content := initialContent;
      viewMode := InitialViewMode;
      fontSize := DefaultFontSize;
      lastSaved := None;
      showSaveConfirmation := false;
    }

    /**
     * The font-size mount effect: when the stored font size is non-empty the
     * size becomes `parsed`, which stands for the result of parsing it.
     */
    method LoadFontSize(parsed: int)
      modifies this
      ensures fontSize == if ReadOrEmpty(storage.entries, FontSizeKey) != "" then parsed else old(fontSize)
      ensures content == old(content) && viewMode == old(viewMode) && fileName == old(fileName)
      ensures lastSaved == old(lastSaved) && showSaveConfirmation == old(showSaveConfirmation)
    {
      if ReadOrEmpty(storage.entries, FontSizeKey) != "" {
        fontSize := parsed;
      }
    }

    /** The file-change effect: new props; a non-empty initial content replaces the buffer, an empty one leaves it. */
    method Reseed(newFileName: string, initialContent: string)
      modifies this
      ensures fileName == newFileName
      ensures content == if initialContent != "" then initialContent else old(content)
      ensures viewMode == old(viewMode) && fontSize == old(fontSize)
      ensures lastSaved == old(lastSaved) && showSaveConfirmation == old(showSaveConfirmation)
    {
      fileName := newFileName;
      if initialContent != "" {
        content := initialContent;
      }
    }

    /** The editing pane's change handler: the buffer becomes the new text. */
    method Edit(value: string)
      modifies this
      ensures content == value
      ensures fileName == old(fileName) && viewMode == old(viewMode) && fontSize == old(fontSize)
      ensures lastSaved == old(lastSaved) && showSaveConfirmation == old(showSaveConfirmation)
    {
      content := value;
    }

    /** insertMarkdownSyntax: appends prefix, placeholder and suffix to the end of the buffer. */
    method InsertSyntax(s: Syntax)
      modifies this
      ensures content == Inserted(old(content), s)
      ensures |content| == |old(content)| + |s.prefix| + |s.placeholder| + |s.suffix|
      ensures content[..|old(content)|] == old(content)
      ensures fileName == old(fileName) && viewMode == old(viewMode) && fontSize == old(fontSize)
      ensures lastSaved == old(lastSaved) && showSaveConfirmation == old(showSaveConfirmation)
    {
      InsertedExtends(content, s);
      content := Inserted(content, s);
    }

    /** saveContent: writes the buffer under the file's key alone, records the time and shows the confirmation. */
    method Save(now: nat)
      modifies this, storage
      ensures storage.entries == old(storage.entries)[ContentKey(fileName) := content]
      ensures ReadOrEmpty(storage.entries, ContentKey(fileName)) == content
      ensures storage.fileList == old(storage.fileList)
      ensures lastSaved == Some(now) && showSaveConfirmation
      ensures content == old(content) && fileName == old(fileName)
      ensures viewMode == old(viewMode) && fontSize == old(fontSize)
    {
      storage.entries := storage.entries[ContentKey(fileName) := content];
      lastSaved := Some(now);
      showSaveConfirmation := true;
    }

    /** The confirmation timeout: hides the confirmation. */
    method ClearConfirmation()
      modifies this
      ensures !showSaveConfirmation
      ensures content == old(content) && fileName == old(fileName) && lastSaved == old(lastSaved)
      ensures viewMode == old(viewMode) && fontSize == old(fontSize)
    {
      showSaveConfirmation := false;
    }

    /**
     * The auto-save interval body: the same write and timestamp as a save,
     * without the confirmation. When the stored text already equals the
     * buffer (a save with no edit since), the table is left as it was.
     */
    method AutoSaveTick(now: nat)
      modifies this, storage
      ensures storage.entries == old(storage.entries)[ContentKey(fileName) := content]
      ensures old(ContentKey(fileName) in storage.entries && storage.entries[ContentKey(fileName)] == content) ==>
        storage.entries == old(storage.entries)
      ensures storage.fileList == old(storage.fileList)
      ensures lastSaved == Some(now) && showSaveConfirmation == old(showSaveConfirmation)
      ensures content == old(content) && fileName == old(fileName)
      ensures viewMode == old(viewMode) && fontSize == old(fontSize)
    {
      storage.entries := storage.entries[ContentKey(fileName) := content];
      lastSaved := Some(now);
    }

    /** The view buttons: switch the mode and nothing else. */
    method SetViewMode(mode: ViewMode)
      modifies this
      ensures viewMode == mode
      ensures content == old(content) && fileName == old(fileName) && fontSize == old(fontSize)
      ensures lastSaved == old(lastSaved) && showSaveConfirmation == old(showSaveConfirmation)
    {
      viewMode := mode;
    }

    /** Carrying out one dispatched command; an export writes a download and changes no state. */
    method Run(c: Command, now: nat)
      modifies this, storage
      ensures content == if c.Insert? then Inserted(old(content), c.syntax) else old(content)
      ensures viewMode == if c.SetView? then c.mode else old(viewMode)
      ensures storage.entries == if c.Save? then old(storage.entries)[ContentKey(fileName) := old(content)] else old(storage.entries)
      ensures lastSaved == if c.Save? then Some(now) else old(lastSaved)
      ensures showSaveConfirmation == (c.Save? || old(showSaveConfirmation))
      ensures storage.fileList == old(storage.fileList)
      ensures fileName == old(fileName) && fontSize == old(fontSize)
    {
      match c {
        case Insert(s) => InsertSyntax(s);
        case SetView(mode) => SetViewMode(mode);
        case Save => Save(now);
        case Export =>
        case Ignore =>
      }
    }

    /**
     * handleKeyDown: carries out exactly the shortcut's command and reports
     * whether the browser's own handling was prevented, which happens exactly
     * for the intercepted Ctrl combinations.
     */
    method HandleKeyDown(e: KeyEvent, now: nat) returns (prevented: bool)
      modifies this, storage
      ensures prevented <==> e.ctrlKey && e.key in ShortcutKeys
      ensures var c := ShortcutCommand(e);
        content == (if c.Insert? then Inserted(old(content), c.syntax) else old(content)) &&
        viewMode == (if c.SetView? then c.mode else old(viewMode)) &&
        storage.entries == (if c.Save? then old(storage.entries)[ContentKey(fileName) := old(content)] else old(storage.entries)) &&
        lastSaved == (if c.Save? then Some(now) else old(lastSaved)) &&
        showSaveConfirmation == (c.Save? || old(showSaveConfirmation))
      ensures storage.fileList == old(storage.fileList) && fileName == old(fileName) && fontSize == old(fontSize)
    {
      var c := ShortcutCommand(e);
      prevented := c != Ignore;
      Run(c, now);
    }

    /**
     * handleToolbarClick: carries out exactly the button's command; "save"
     * does what a manual save does, export and unknown actions change nothing,
     * and no button switches the view.
     */
    method HandleToolbarClick(action: string, now: nat)
      modifies this, storage
      ensures var c := ToolbarCommand(action);
        content == (if c.Insert? then Inserted(old(content), c.syntax) else old(content)) &&
        storage.entries == (if c.Save? then old(storage.entries)[ContentKey(fileName) := old(content)] else old(storage.entries)) &&
        lastSaved == (if c.Save? then Some(now) else old(lastSaved)) &&
        showSaveConfirmation == (c.Save? || old(showSaveConfirmation))
      ensures action == "save" ==> content == old(content) && lastSaved == Some(now) && showSaveConfirmation
      ensures action !in ToolbarActions || action == "export" ==>
        (content == old(content) && storage.entries == old(storage.entries) &&
         lastSaved == old(lastSaved) && showSaveConfirmation == old(showSaveConfirmation))
      ensures viewMode == old(viewMode)
      ensures storage.fileList == old(storage.fileList) && fileName == old(fileName) && fontSize == old(fontSize)
    {
      Run(ToolbarCommand(action), now);
    }
  }
}
