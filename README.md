# mdvie: file registry and editor session

A Dafny model of the two stateful components of the mdvie browser markdown
editor. Both sit on the browser's local storage, modelled as one shared object
`Storage.LocalStorage` holding an in-memory `map<string, string>` of entries
plus the decoded file list stored under `mdvie-files`.

- **Sidebar** (`src/components/sidebar.tsx`): class `Sidebar.FileRegistry`. It
  holds the ordered file list, the single open row menu and the single row in
  rename-edit mode. Its handlers create, delete, rename, download and toggle
  menus. Each handler changes the list and the storage in place.
  The list rebuilds (`filter`, `map`) are the pure functions
  `FileList.RemoveAll` and `FileList.ReplaceAll`. The name rules
  (`.md` normalisation, `Untitled-<n>.md`) live in `FileNames`.
- **Editor session** (`src/components/markdown-editor.tsx`): class
  `MarkdownEditor.EditorSession`. It holds the buffer, the view mode, the font
  size, the last-saved time and the save-confirmation flag. Its methods cover
  syntax insertion, manual save, the auto-save tick, the confirmation timeout,
  the file-change effect and the shortcut and toolbar handlers. The pure parts
  are in `EditorCommands`: the appended text, the pane-visibility rule and the
  two dispatch tables.
- `Scenarios` holds client methods that drive both classes through their
  contracts. They cover the create/rename/save/download flow and the corner
  cases below.

React effects are modelled as steps that run right after the state change that
triggers them. Mounting the sidebar is its constructor: the first render, then
the load effect, then the list-persist effect. The list-persist effect is
`PersistFiles`, called after every change of the list.

The model follows the code:
- Content keys are `mdvie-<name>` and the list key is `mdvie-files`.
- Create does not guarantee a unique name.
- Delete and rename act on every occurrence of the name.
- The list is written only when it is non-empty.

## Corner cases the model exposes

- Pressing Enter in rename mode without changing the prefilled name deletes the
  file's content. The new entry is written first and then the old key, which is
  the same key, is removed (`Sidebar.RenameToSelfDropsContent`,
  `Scenarios.RenameToSameNameLosesContent`). Typing `a` for `a.md` has the same
  effect, since `a` normalises back to `a.md`.
- Deleting the last file leaves the previous list persisted. The next mount
  lists the deleted name again (`Sidebar.DeleteLastFileIsReloaded`,
  `Scenarios.DeletedLastFileComesBack`).
- The synthesised `Untitled-<length + 1>.md` can already be in the list.
  - After a delete, the list is one shorter, so the next create can repeat
    a listed `Untitled-<n>.md` (`Sidebar.CreateAfterDeleteDuplicates`,
    `Scenarios.CreateAfterDeleteRepeatsAName`).
  - After a rename that types `Untitled-<length + 1>`, the next create
    repeats that name (`Sidebar.RenameToNextUntitledDuplicates`).
  - A loaded list can already contain the name.
  - Two creates in a row always give different names
    (`Sidebar.SuccessiveCreatesDiffer`).

## Model

| member | source | states |
|---|---|---|
| Storage.ContentKey | src/components/sidebar.tsx:51 | the key `mdvie-<name>`; `ContentKeyInjective` proves distinct names get distinct keys and `ContentKeyIsFilesKey` that only `files` maps to the list key |
| Storage.ReadOrEmpty | src/components/sidebar.tsx:61 | a stored entry, or "" when it is missing or empty; `WriteReadsBack` and `WriteKeepsOtherDocuments` state what it reads after a write |
| Storage.ContentKeyInjective | src/components/markdown-editor.tsx:30 | two file names share a content key `mdvie-<name>` exactly when they are equal |
| Storage.ContentKeyIsFilesKey | src/components/sidebar.tsx:33-37 | the only file whose content key is the list key `mdvie-files` is the file named `files` |
| Storage.WriteKeepsOtherDocuments | src/components/markdown-editor.tsx:30 | saving one file leaves what every other file reads as unchanged |
| Storage.WriteReadsBack | src/components/markdown-editor.tsx:48-52 | a write is read back exactly, and repeating the same write leaves the table unchanged |
| FileNames.HasMdSuffix | src/components/sidebar.tsx:83 | `endsWith(".md")`; `Normalized` and `NormalizedChangesIff` state the normalisation in terms of it |
| FileNames.Normalized | src/components/sidebar.tsx:83 | the rename target always ends in `.md`; a name ending in `.md` is kept and any other gets `.md` appended |
| FileNames.NormalizedIdempotent | src/components/sidebar.tsx:83 | normalising twice is the same as normalising once |
| FileNames.NormalizedChangesIff | src/components/sidebar.tsx:83 | normalisation changes a name exactly when it lacks `.md`, and the typed name is always a prefix of the result |
| FileNames.Decimal | src/components/sidebar.tsx:126 | the decimal text of the count is non-empty, all digits, with no leading zero |
| FileNames.DecimalRoundTrip | src/components/sidebar.tsx:126 | reading the decimal text back gives the number |
| FileNames.DecimalInjective | src/components/sidebar.tsx:126 | different counts have different decimal texts |
| FileNames.UntitledName | src/components/sidebar.tsx:126 | the synthesised name ends in `.md` |
| FileNames.UntitledNameInjective | src/components/sidebar.tsx:126 | `Untitled-<a>.md` equals `Untitled-<b>.md` exactly when a = b |
| FileList.RemoveAll | src/components/sidebar.tsx:54 | the filtered list has no occurrence of the name, every other name keeps its count, and the survivors keep their order (subsequence) |
| FileList.RemoveAllKeepsMd | src/components/sidebar.tsx:54 | deleting keeps a list of `.md` names a list of `.md` names |
| FileList.ReplaceAll | src/components/sidebar.tsx:91 | the mapped list has the same length; each old name becomes the new name and every other position is unchanged |
| FileList.ReplaceAllMembership | src/components/sidebar.tsx:91 | after renaming to a different name the old name is gone, and the new name is present iff it or the old name was |
| FileList.ReplaceAllSelf | src/components/sidebar.tsx:91 | renaming a name to itself leaves the list as it was |
| FileList.ReplaceAllKeepsMd | src/components/sidebar.tsx:83-91 | renaming to a normalised name keeps a list of `.md` names a list of `.md` names |
| Sidebar.Toggled | src/components/sidebar.tsx:40-46 | after a toggle, row `id`'s menu is open iff it was not; no other row's menu is open |
| Sidebar.LoadedFiles | src/components/sidebar.tsx:21-29 | the stored list, or `["template.md"]` when none is stored; `DeleteLastFileIsReloaded` shows a stale list being loaded again |
| Sidebar.PersistedList | src/components/sidebar.tsx:34-36 | the stored list after the persist effect; `PersistFiles` is proved against it and `DeleteLastFileIsReloaded` shows an emptied list is not written |
| Sidebar.MovedContent | src/components/sidebar.tsx:86-88 | the entries after the rename's write then removal; `MovedContentMoves` and `RenameToSelfDropsContent` state its effect |
| Sidebar.MovedContentMoves | src/components/sidebar.tsx:86-88 | a rename to a different name moves the old content (or "") to the new key, removes the old key and leaves every other entry |
| Sidebar.RenameToSelfDropsContent | src/components/sidebar.tsx:86-88 | a rename to the file's own name removes its content entry |
| Sidebar.DeleteLastFileIsReloaded | src/components/sidebar.tsx:33-37 | deleting the only file leaves the persisted list as it was, so the next load lists the deleted name again |
| Sidebar.CreateAfterDeleteDuplicates | src/components/sidebar.tsx:125-128 | deleting a name that occurs once shortens the list by one, so create synthesises `Untitled-<old length>.md`, a duplicate whenever that name is listed |
| Sidebar.RenameToNextUntitledDuplicates | src/components/sidebar.tsx:83-126 | renaming a listed file by typing `Untitled-<length + 1>` makes the next create repeat that name |
| Sidebar.SuccessiveCreatesDiffer | src/components/sidebar.tsx:125-128 | two creates in a row synthesise different names |
| Sidebar.FileRegistry.constructor | src/components/sidebar.tsx:14-30 | mounting adopts the persisted list, or registers and persists `["template.md"]` when none is stored; no menu, no rename, content entries unchanged |
| Sidebar.FileRegistry.PersistFiles | src/components/sidebar.tsx:33-37 | the list is written only when non-empty; otherwise the persisted list is left stale |
| Sidebar.FileRegistry.Create | src/components/sidebar.tsx:125-128 | appends exactly `Untitled-<old length + 1>.md` at the end, persists the list, writes no content entry, keeps `.md` lists `.md` |
| Sidebar.FileRegistry.ToggleMenu | src/components/sidebar.tsx:40-46 | the open menu becomes the toggled one; list and rename mode unchanged |
| Sidebar.FileRegistry.DeleteFile | src/components/sidebar.tsx:49-57 | removes exactly the key `mdvie-<name>`, filters every occurrence from the list, closes the menu, persists a non-empty list |
| Sidebar.FileRegistry.DownloadFile | src/components/sidebar.tsx:60-72 | returns the stored content or "", closes the menu and writes nothing |
| Sidebar.FileRegistry.StartRename | src/components/sidebar.tsx:75-78 | enters rename mode for the row with its own name as the text and closes the menu |
| Sidebar.FileRegistry.EditRenameText | src/components/sidebar.tsx:142 | replaces the typed text of the row in rename mode |
| Sidebar.FileRegistry.HandleRename | src/components/sidebar.tsx:80-97 | Enter moves the content to the normalised name, maps the list and leaves rename mode; Escape only leaves rename mode; other keys change nothing |
| Sidebar.FileRegistry.HandleClickOutside | src/components/sidebar.tsx:99-101 | closes the menu and changes nothing else |
| EditorCommands.ShowsEditor | src/components/markdown-editor.tsx:353 | the editing pane is rendered in edit and split mode; `PaneVisibility` relates it to the preview |
| EditorCommands.ShowsPreview | src/components/markdown-editor.tsx:375 | the preview pane is rendered in preview and split mode; `PaneVisibility` relates it to the editing pane |
| EditorCommands.PaneVisibility | src/components/markdown-editor.tsx:353-375 | the editing pane shows in edit and split mode, the preview in preview and split; both iff split; always at least one |
| EditorCommands.Snippet | src/components/markdown-editor.tsx:26 | prefix + placeholder + suffix; `InsertedExtends` gives its length and its leading prefix |
| EditorCommands.Inserted | src/components/markdown-editor.tsx:26 | the buffer with the snippet appended at the end; `InsertedExtends` states that the old buffer is kept as a prefix |
| EditorCommands.InsertedExtends | src/components/markdown-editor.tsx:25-27 | insertion keeps the old buffer as a prefix, grows it by exactly the three lengths and starts the addition with the prefix |
| EditorCommands.ShortcutCommand | src/components/markdown-editor.tsx:67-100 | a key acts iff Ctrl is held and it is one of b, i, k, 1, 2, 3, s; it switches the view iff it is 1, 2 or 3; none exports |
| EditorCommands.ToolbarCommand | src/components/markdown-editor.tsx:119-165 | an action acts iff it is one of the thirteen toolbar actions; only `save` saves; none switches the view |
| EditorCommands.ShortcutsAgreeWithToolbar | src/components/markdown-editor.tsx:70-96 | Ctrl+B, Ctrl+I, Ctrl+S match the bold, italic and save buttons; Ctrl+K inserts a different link placeholder from the link button |
| EditorCommands.TableAppendsFixedText | src/components/markdown-editor.tsx:139-144 | the table button appends the fixed table text, with empty placeholder and suffix |
| MarkdownEditor.EditorSession.constructor | src/components/markdown-editor.tsx:18-23 | the buffer starts as the initial content, in split mode, font size 14, nothing saved, no confirmation |
| MarkdownEditor.EditorSession.LoadFontSize | src/components/markdown-editor.tsx:58-63 | a non-empty stored font size replaces the size; otherwise it stays |
| MarkdownEditor.EditorSession.Reseed | src/components/markdown-editor.tsx:41-45 | a non-empty initial content replaces the buffer; an empty one leaves it |
| MarkdownEditor.EditorSession.Edit | src/components/markdown-editor.tsx:365 | the buffer becomes the edited text and nothing else changes |
| MarkdownEditor.EditorSession.InsertSyntax | src/components/markdown-editor.tsx:25-27 | the buffer becomes old + prefix + placeholder + suffix; the old buffer is a prefix and the length grows by the three lengths |
| MarkdownEditor.EditorSession.Save | src/components/markdown-editor.tsx:29-38 | writes exactly the buffer under `mdvie-<fileName>` and no other key, records the time and sets the confirmation |
| MarkdownEditor.EditorSession.ClearConfirmation | src/components/markdown-editor.tsx:35-37 | the confirmation is hidden and nothing else changes |
| MarkdownEditor.EditorSession.AutoSaveTick | src/components/markdown-editor.tsx:48-52 | the same write and time as a save, never the confirmation; when the stored text already equals the buffer the table is unchanged |
| MarkdownEditor.EditorSession.SetViewMode | src/components/markdown-editor.tsx:184-208 | the view buttons set the mode and change nothing else |
| MarkdownEditor.EditorSession.Run | src/components/markdown-editor.tsx:119-165 | an insert appends, a view switch changes only the mode, a save writes the buffer, export and unknown commands change nothing |
| MarkdownEditor.EditorSession.HandleKeyDown | src/components/markdown-editor.tsx:67-100 | default handling is prevented exactly for the intercepted Ctrl keys; exactly the shortcut's command is carried out, each part of the state given as changed or unchanged, so other keys change nothing and view switches leave the buffer alone |
| MarkdownEditor.EditorSession.HandleToolbarClick | src/components/markdown-editor.tsx:119-165 | exactly the button's command is carried out, each part of the state given as changed or unchanged: insert buttons only append, save writes the buffer exactly as a manual save does, export and unknown actions change nothing, the view never changes |

## Left out

- Rendering (JSX, CSS classes, icons, `Link` targets) has no logic and is not modelled.
- Showing the rename input only on the row in rename mode is rendering and is not modelled.
- CodeMirror and the markdown preview are foreign libraries. The editing pane's change handler is modelled only as "buffer := value" (`Edit`).
- The Blob/URL/anchor download and `exportMarkdown` are browser I/O. `DownloadFile` keeps only the storage read; the export command changes no state.
- Timer scheduling (`setInterval` 5000 ms, `setTimeout` 2000 ms) and `new Date()` are not modelled. Ticks and the confirmation timeout are explicit calls, and the time is a `now: nat` argument. So a pending timeout from an earlier save clearing a later save's confirmation is a matter of call order.
- React's render scheduling is not modelled: an effect runs right after the state change that triggers it.
- `JSON.parse`/`JSON.stringify` of the file list are not modelled. The list entry is held decoded, so a stored list that fails to parse is not modelled.
- The list key `mdvie-files` is kept apart from the content entries. In the source, a file named exactly `files` would share that key (`Storage.ContentKeyIsFilesKey`). Every name the sidebar creates, normalises or defaults to ends in `.md`, so those names cannot collide.
- MarkdownEditor.EditorSession.Save: the editor's file name comes from the page URL and can be any string. With the name `files`, the source's save overwrites the stored list with the buffer, whereas the model leaves `fileList` unchanged.
- MarkdownEditor.EditorSession.AutoSaveTick: the same gap as Save; an auto-save of a file named `files` overwrites the stored list in the source, not in the model.
- LoadFontSize: `parseInt` of the stored text is the argument `parsed`, so a `NaN` size is not modelled.
- FileNames.Decimal: JavaScript switches to exponent notation beyond 10^21; list lengths never get there, so this is not modelled.
- The `isOpen` field of the open menu is always true when a menu is open, so the menu is an `Option` of the row name.
- Storage-quota failures of `setItem` are not modelled; the source does not handle them.
- src/app/edit/[slug]/page.tsx, src/app/settings/page.tsx, src/components/theme-toggle.tsx and tailwind.config.js are not part of this model. They are the page that resolves the initial content, a settings form, a theme-library wrapper and styling.
