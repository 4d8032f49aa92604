/**
 * The pure parts of the markdown editor: the view modes and which panes they
 * show, the text appended by syntax insertion, and the two dispatch tables
 * (Ctrl shortcuts and toolbar buttons) that map an input to a command.
 */
module EditorCommands {

  datatype ViewMode = Edit | Preview | Split

  /** The mode a fresh editor starts in. */
  const InitialViewMode: ViewMode := Split

  /** The editing pane is rendered in edit and split mode. */
  predicate ShowsEditor(mode: ViewMode) {
    mode == Edit || mode == Split
  }

  /** The preview pane is rendered in preview and split mode. */
  predicate ShowsPreview(mode: ViewMode) {
    mode == Preview || mode == Split
  }

  /** Both panes show exactly in split mode, and some pane always shows. */
  lemma PaneVisibility(mode: ViewMode)
    ensures ShowsEditor(mode) && ShowsPreview(mode) <==> mode == Split
    ensures ShowsEditor(mode) || ShowsPreview(mode)
    ensures ShowsEditor(mode) != ShowsPreview(mode) <==> mode != Split
  {
  }

  /** The three arguments of one syntax insertion. */
  datatype Syntax = Syntax(prefix: string, suffix: string, placeholder: string)

  /** The text one insertion appends to the end of the buffer. */
  function Snippet(s: Syntax): string {
    s.prefix + s.placeholder + s.suffix
  }

  /** The buffer after inserting `s`: appended at the end, not at the cursor. */
  function Inserted(content: string, s: Syntax): string {
    content + Snippet(s)
  }

  /** Insertion keeps the old buffer as a prefix and grows it by exactly the three lengths. */
  lemma InsertedExtends(content: string, s: Syntax)
    ensures |Inserted(content, s)| == |content| + |s.prefix| + |s.placeholder| + |s.suffix|
    ensures Inserted(content, s)[..|content|] == content
    ensures Inserted(content, s)[|content|..|content| + |s.prefix|] == s.prefix
  {
  }

  const Bold: Syntax := Syntax("**", "**", "kalın metin")
  const Italic: Syntax := Syntax("*", "*", "italik metin")
  const Underline: Syntax := Syntax("<u>", "</u>", "altı çizili metin")
  /** The link inserted by Ctrl+K. */
  const ShortcutLink: Syntax := Syntax("[", "](url)", "bağlantı")
  /** The link inserted by the toolbar button, with a longer placeholder. */
  const ToolbarLink: Syntax := Syntax("[", "](url)", "bağlantı metni")
  const Image: Syntax := Syntax("![", "](resim-url)", "alt metin")
  const Code: Syntax := Syntax("```\n", "\n```", "kod bloğu")
  const TableText: string :=
    "| Başlık 1 | Başlık 2 | Başlık 3 |\n| --- | --- | --- |\n| Satır 1 | Veri | Veri |\n| Satır 2 | Veri | Veri |\n"
  const Table: Syntax := Syntax(TableText, "", "")
  const Heading: Syntax := Syntax("## ", "\n", "Başlık")
  const UnorderedList: Syntax := Syntax("- ", "\n", "Liste öğesi")
  const OrderedList: Syntax := Syntax("1. ", "\n", "Sıralı liste öğesi")
  const Quote: Syntax := Syntax("> ", "\n", "Alıntı")

  /** What a shortcut or a toolbar button asks the editor to do. */
  datatype Command = Insert(syntax: Syntax) | SetView(mode: ViewMode) | Save | Export | Ignore

  /** A keydown event: the key's value and whether Ctrl was held. */
  datatype KeyEvent = KeyEvent(key: string, ctrlKey: bool)

  /** The keys the shortcut handler intercepts while Ctrl is held. */
  const ShortcutKeys: set<string> := {"b", "i", "k", "1", "2", "3", "s"}

  /** handleKeyDown's table: acts only with Ctrl held, on the seven shortcut keys; none of them exports. */
  function ShortcutCommand(e: KeyEvent): (c: Command)
    ensures c != Ignore <==> e.ctrlKey && e.key in ShortcutKeys
    ensures c.SetView? <==> e.ctrlKey && e.key in {"1", "2", "3"}
    ensures c != Export
  {
    if !e.ctrlKey then Ignore
    else if e.key == "b" then Insert(Bold)
    else if e.key == "i" then Insert(Italic)
    else if e.key == "k" then Insert(ShortcutLink)
    else if e.key == "1" then SetView(Edit)
    else if e.key == "2" then SetView(Preview)
    else if e.key == "3" then SetView(Split)
    else if e.key == "s" then Save
    else Ignore
  }

  /** The actions the toolbar dispatches. */
  const ToolbarActions: set<string> := {
    "bold", "italic", "underline", "link", "image", "code", "table",
    "heading", "unordered-list", "ordered-list", "quote", "save", "export"
  }

  /** handleToolbarClick's table: acts exactly on the thirteen actions; none of them switches the view. */
  function ToolbarCommand(action: string): (c: Command)
    ensures c != Ignore <==> action in ToolbarActions
    ensures c == Save <==> action == "save"
    ensures !c.SetView?
  {
    if action == "bold" then Insert(Bold)
    else if action == "italic" then Insert(Italic)
    else if action == "underline" then Insert(Underline)
    else if action == "link" then Insert(ToolbarLink)
    else if action == "image" then Insert(Image)
    else if action == "code" then Insert(Code)
    else if action == "table" then Insert(Table)
    else if action == "heading" then Insert(Heading)
    else if action == "unordered-list" then Insert(UnorderedList)
    else if action == "ordered-list" then Insert(OrderedList)
    else if action == "quote" then Insert(Quote)
    else if action == "save" then Save
    else if action == "export" then Export
    else Ignore
  }

  /** Ctrl+B, Ctrl+I and Ctrl+S do what the bold, italic and save buttons do; Ctrl+K inserts a different link placeholder than the link button. */
  lemma ShortcutsAgreeWithToolbar()
    ensures ShortcutCommand(KeyEvent("b", true)) == ToolbarCommand("bold")
    ensures ShortcutCommand(KeyEvent("i", true)) == ToolbarCommand("italic")
    ensures ShortcutCommand(KeyEvent("s", true)) == ToolbarCommand("save")
    ensures ShortcutCommand(KeyEvent("k", true)) != ToolbarCommand("link")
  {
  }

  /** The table button appends the fixed table text alone. */
  lemma TableAppendsFixedText(content: string)
    ensures Inserted(content, Table) == content + TableText
  {
  }
}
