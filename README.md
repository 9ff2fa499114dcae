# ZenMark editor core, modelled in Dafny

ZenMark is a browser Markdown editor. It has a text pane and a live
preview, a formatting toolbar, keyboard shortcuts, a draggable divider
between the panes, scroll synchronisation from the editor to the preview
(which, as the shell wires it, moves nothing visible; see "## Left out"),
and file import and export. This project models the parts of it that hold
logic rather than rendering, and proves what that code promises.

- `js_strings.dfy` (`JsStrings`) and `js_numbers.dfy` (`JsNumbers`) model
  the JavaScript built-ins the code relies on. These are `substring`,
  `split`/`join`, `indexOf`, `lastIndexOf`, `replace` with a string
  pattern, `endsWith`, `trim`, ASCII `toLowerCase`/`toUpperCase`,
  `parseInt`, `Number.prototype.toString` and `Math.max`/`Math.min`.
  A number is `Num(real)` or `NaN`.
- `editor_types.dfy` (`EditorTypes`) holds the value types: formatting
  tags, theme and view modes, and the cursor position.
- `markdown.dfy` (`Markdown`) models the formatting table and the text
  functions: insertion at the cursor, line and column, current line,
  insertion at the line start, and the line, character and word counters.
  `getCurrentLine` is a method with a loop, proved against the line of
  the position.
- `hotkeys.dfy` (`Hotkeys`) models shortcut matching with optional
  modifiers and first-match dispatch as a loop. It also builds the labels a
  shortcut shows. Whether the platform is a Mac is a parameter.
- `editor_context.dfy` (`EditorContext`) models the document store as the
  class `EditorStore`. It holds the six state fields, the browser storage
  as a `map<string, string>` and the root element's `dark` class. The
  constructor loads from storage and runs the save effects; each setter
  writes the key of the field it changes.
- `toolbar.dfy` (`Toolbar`) models the toolbar's handlers and flags as the
  class `ToolbarState`. The downloads it offers and the print requests it
  makes are recorded as sequences and counters.
- `app.dfy` (`App`) models the shell's drop filter, the drag-overlay flag,
  the mobile threshold, the mobile pane choice and when scroll listeners
  are bound.
- `resizable_split.dfy` (`ResizableSplit`) models the divider as the class
  `SplitView`. Attached drag listeners are a sequence of captured drag
  sessions, one per pointer-down. A move event reaches every attached
  listener of its pointer family in order.
- `scroll_sync.dfy` (`ScrollSync`) models the scroll-sync hook as the
  class `Synchronizer`. It has the two loop-prevention flags and the
  timeout handle. Pending animation-frame callbacks and timers are queues,
  and `Frame` and `Timeout` events drain them.
- `export.dfy` (`Export`) models the HTML page template and the file name
  and body of the two downloads.

Where the repository's documented behaviour and its code differ, the model
follows the code:

- The scroll ratio is neither clamped to [0, 1] nor guarded against a zero
  range. For a settled element it lies in [0, 1] anyway, and an element
  that cannot scroll gives NaN, which the browser turns into offset 0.
- A stored split position is not clamped on load. A corrupt one such as
  "abc" loads as NaN, not as 50.
- Opening a file does not strip the extension. It removes the first
  ".md" and then the first ".txt" anywhere in the name, so "x.txt.md"
  comes back as "x".
- The HTML export puts the raw markdown into the page body without
  rendering it.

## Model

| member | source | states |
|---|---|---|
| Markdown.FormatMapCoversEveryTag | src/utils/markdown.ts:6-19 | every formatting tag has an entry in the table, and every entry has a non-empty placeholder |
| Markdown.BoldEntry | src/utils/markdown.ts:7 | the bold entry wraps in "**" on both sides with the placeholder "粗体文字" |
| Markdown.InsertAtCursor | src/utils/markdown.ts:29-30 | a tag missing from the table returns the text and the selection unchanged |
| Markdown.InsertAtCursorSplices | src/utils/markdown.ts:29-45 | for 0 <= start <= end <= length, the result is the text before start, prefix, content, suffix and the text after end; the content is the selection, or the placeholder when the selection is empty; the new selection brackets exactly the content; the length grows by prefix, content and suffix minus the selection |
| Markdown.InsertAtCursorUndo | src/utils/markdown.ts:33-45 | formatting a non-empty selection is undone by dropping the prefix before and the suffix after the new selection |
| Markdown.InsertAtCursorBoldExample | src/utils/markdown.ts:24-48 | bold on an empty selection at 5 of "hello world" gives "hello**粗体文字** world" with the placeholder selected at 7..11 |
| Markdown.LineStart | src/utils/markdown.ts:109-110 | the line start is at most the position, follows a newline unless it is 0, and no newline lies between it and the position |
| Markdown.LineEnd | src/utils/markdown.ts:89-97 | the line end is at or after the position, is a newline or the end of the text, and no newline lies between the position and it |
| Markdown.GetLineAndColumn | src/utils/markdown.ts:53-59 | line and column are both at least 1 |
| Markdown.GetLineAndColumnCounts | src/utils/markdown.ts:53-58 | the line is one more than the newlines before the clamped position and equals the line count of the text before it; the column is one more than the characters since the line start |
| Markdown.LastLineLength | src/utils/markdown.ts:57 | the last piece of the text before the position runs from the line start to the position |
| Markdown.FirstPieceIsLine | src/utils/markdown.ts:91-95 | from a line start on, the first '\n'-piece is the line of every position up to and including its end |
| Markdown.NextLine | src/utils/markdown.ts:96 | advancing by a piece's length plus one lands on the next line start, whose pieces are the remaining ones |
| Markdown.GetCurrentLine | src/utils/markdown.ts:88-99 | the loop returns the text between the line start and the line end of the position (negative counts as 0); a position on a newline gets the line that newline ends; a position past the end gets "" |
| Markdown.InsertAtLineStartAtLineStart | src/utils/markdown.ts:104-113 | the text is inserted at the line start of the clamped position, everything else is kept, and deleting the inserted characters gives back the original |
| Markdown.CountLinesCountsNewlines | src/utils/markdown.ts:81-83 | the line count is one more than the newlines, and joining two texts with a newline adds their line counts |
| Markdown.RunLength | src/utils/markdown.ts:67 | the run at the start is maximal: all word characters, followed by a non-word character or the end |
| Markdown.CountRunsIsRunStarts | src/utils/markdown.ts:67 | the greedy run matcher counts exactly the positions holding a letter or digit that do not follow one |
| Markdown.RunStartsBound | src/utils/markdown.ts:64-69 | CJK characters plus run starts never exceed the length |
| Markdown.CountWordsBound | src/utils/markdown.ts:64-76 | the word count never exceeds the character count |
| Markdown.CountCjkAppend | src/utils/markdown.ts:66 | the CJK count of a concatenation is the sum of the parts' counts |
| Markdown.RunStartsAroundBreak | src/utils/markdown.ts:67 | a non-word character separates runs: run starts on both sides add up |
| Markdown.CountWordsAdditive | src/utils/markdown.ts:64-69 | two texts joined by a character that is neither a letter, a digit nor CJK add their word counts |
| Markdown.Content | src/utils/markdown.ts:32-33 | `selectedText || placeholder`: the text between the markup; stated by InsertAtCursorSplices |
| Markdown.InsertAtLineStart | src/utils/markdown.ts:104-113 | `insertAtLineStart`: the two substrings around the line start with the text between; stated by InsertAtLineStartAtLineStart |
| Markdown.CountLines | src/utils/markdown.ts:81-83 | `countLines`, the length of `split('\n')`; stated by CountLinesCountsNewlines and GetLineAndColumnCounts |
| Markdown.CountCharacters | src/utils/markdown.ts:74-76 | `countCharacters`, the text's length; bounds the word count by CountWordsBound |
| Markdown.IsCjk | src/utils/markdown.ts:66 | the character class `[\u4e00-\u9fa5]` |
| Markdown.IsWordChar | src/utils/markdown.ts:67 | the character class `[a-zA-Z0-9]` |
| Markdown.CountCjk | src/utils/markdown.ts:66 | the number of CJK matches, 0 for no match; stated by CountCjkAppend and RunStartsBound |
| Markdown.CountRuns | src/utils/markdown.ts:67 | the number of matches of the global greedy `[a-zA-Z0-9]+`; stated by RunLength and CountRunsIsRunStarts |
| Markdown.CountWords | src/utils/markdown.ts:64-68 | `countWords`, CJK matches plus run matches; stated by CountWordsBound and CountWordsAdditive |
| Markdown.RunStarts | src/utils/markdown.ts:67 | the reference count of runs, the positions holding a letter or digit that do not follow one; CountRunsIsRunStarts ties the matcher to it |
| Hotkeys.MatchHotkeyIgnoresCase | src/utils/hotkeys.ts:59 | upper-casing the event's key or the shortcut's key does not change whether it matches |
| Hotkeys.MatchHotkeyOpenModifiers | src/utils/hotkeys.ts:62-67 | a modifier the shortcut leaves open is a wildcard: the event's flag for it does not affect the match |
| Hotkeys.DefaultHotkeysModifiers | src/utils/hotkeys.ts:18-52 | the four formatting defaults match only with Ctrl and Meta both held, and then exactly on their key in any case; Escape matches with any modifiers |
| Hotkeys.TriggerHotkey | src/utils/hotkeys.ts:73-82 | the result is true iff some shortcut matches; then the default is prevented and exactly the first matching shortcut fires; otherwise nothing is prevented and nothing fires |
| Hotkeys.KeyLabelHasNoPlus | src/utils/hotkeys.ts:95-132 | a key without '+' gets a label without '+' |
| Hotkeys.KeyLabelRules | src/utils/hotkeys.ts:95-132 | by the key's lower-case form: space is "␣" on a Mac and "Space" elsewhere, Enter "↩" or "Enter", Escape "Esc", the arrows ↑ ↓ ← →, Tab, Backspace and Delete their names; any other one-character key is upper-cased and any other key is shown as given |
| Hotkeys.KeyLabelExamples | src/utils/hotkeys.ts:95-131 | "ESCAPE" and "escape" both show as "Esc", and "F5" is shown unchanged |
| Hotkeys.KeyLabelOfCharacter | src/utils/hotkeys.ts:128-131 | a one-character key other than space is shown upper-cased, the same whichever case it was given in |
| Hotkeys.ModifierLabelsDistinct | src/utils/hotkeys.ts:90-92 | the modifier labels contain no '+' and are pairwise different |
| Hotkeys.ModifierLabelsOrder | src/utils/hotkeys.ts:88-92 | the command label comes first iff Ctrl or Cmd is set, and never again later; Shift appears iff set; the Alt label appears iff set |
| Hotkeys.FormatHotkeySplits | src/utils/hotkeys.ts:87-136 | for a key without '+', the label splits on '+' back into the modifier parts followed by the key's label |
| Hotkeys.FormatHotkeyBold | src/utils/hotkeys.ts:87-136 | the bold default reads "⌘+B" on a Mac and "Ctrl+B" elsewhere |
| Hotkeys.ShortcutPartHasNoPlus | src/utils/hotkeys.ts:151-156 | a part without '+' gets a label without '+' |
| Hotkeys.GetShortcutTextParts | src/utils/hotkeys.ts:148-158 | the output splits on '+' into exactly one relabelled part per '+'-separated input part |
| Hotkeys.ModifierMatches | src/utils/hotkeys.ts:62-65 | `hotkey.m === undefined || event.flag === hotkey.m`; stated by MatchHotkeyOpenModifiers |
| Hotkeys.MatchHotkey | src/utils/hotkeys.ts:57-68 | `matchHotkey`; stated by MatchHotkeyIgnoresCase, MatchHotkeyOpenModifiers and DefaultHotkeysModifiers |
| Hotkeys.IsOn | src/utils/hotkeys.ts:90-92 | the truthiness of an optional modifier flag |
| Hotkeys.CommandLabel | src/utils/hotkeys.ts:90 | the command label by platform; stated by ModifierLabelsDistinct |
| Hotkeys.AltLabel | src/utils/hotkeys.ts:92 | the Alt label by platform; stated by ModifierLabelsDistinct |
| Hotkeys.ModifierLabels | src/utils/hotkeys.ts:88-92 | the modifier parts pushed in order; stated by ModifierLabelsOrder |
| Hotkeys.KeyLabel | src/utils/hotkeys.ts:94-133 | the key switch; stated by KeyLabelRules, KeyLabelOfCharacter and KeyLabelHasNoPlus |
| Hotkeys.FormatHotkey | src/utils/hotkeys.ts:87-136 | `formatHotkey`; stated by FormatHotkeySplits and FormatHotkeyBold |
| Hotkeys.ShortcutPart | src/utils/hotkeys.ts:150-156 | the relabelling of one part; stated by ShortcutPartRules and ShortcutPartHasNoPlus |
| Hotkeys.ShortcutPartRules | src/utils/hotkeys.ts:150-156 | a part is recognised by its trimmed lower-case form: Ctrl or Cmd give the command label, Shift gives "Shift", Alt the Alt label, Meta "⌘"; any other part is upper-cased untrimmed |
| Hotkeys.ShortcutPartOfPaddedShift | src/utils/hotkeys.ts:151-153 | a word with no white space at its ends and lower-case form "shift", padded with a space on each side, is relabelled "Shift" |
| Hotkeys.ShortcutPartOfSpacedWord | src/utils/hotkeys.ts:151-156 | a word with no white space at its ends that is no modifier name, after a space, is upper-cased with the space kept |
| Hotkeys.ShortcutPartPaddedShift | src/utils/hotkeys.ts:151-153 | " Shift " is relabelled "Shift" |
| Hotkeys.ShortcutPartSpacedKey | src/utils/hotkeys.ts:151-156 | " k" is relabelled " K", its space kept |
| Hotkeys.ShortcutParts | src/utils/hotkeys.ts:150-157 | the `map` over the parts; stated by GetShortcutTextParts |
| Hotkeys.GetShortcutText | src/utils/hotkeys.ts:148-158 | `getShortcutText`, split, map and join; stated by GetShortcutTextParts |
| JsStrings.Lower | src/utils/hotkeys.ts:59 | ASCII `toLowerCase`, character by character |
| JsStrings.Upper | src/utils/hotkeys.ts:130 | ASCII `toUpperCase`, character by character |
| JsStrings.LowerOfUpper | src/utils/hotkeys.ts:59 | lower-casing after upper-casing is lower-casing |
| JsStrings.Trim | src/utils/hotkeys.ts:151 | `trim`: leading and trailing white space and line terminators removed |
| JsStrings.Substring | src/utils/markdown.ts:32-37 | `substring(a, b)` with both arguments clamped and swapped when reversed |
| JsStrings.SubstringFrom | src/utils/markdown.ts:37 | `substring(a)`, up to the end |
| JsStrings.Split | src/utils/markdown.ts:54 | `split` on one character: never an empty list |
| JsStrings.Join | src/utils/hotkeys.ts:135 | `join` with one character |
| JsStrings.SplitCount | src/utils/markdown.ts:82 | a split has one more piece than separators |
| JsStrings.SplitAround | src/utils/markdown.ts:82 | splitting around one separator concatenates the two splits |
| JsStrings.SplitPiecesAreFree | src/utils/hotkeys.ts:149 | no piece holds the separator |
| JsStrings.SplitLast | src/utils/markdown.ts:54-57 | the last piece is the text after the last separator |
| JsStrings.JoinSplit | src/utils/hotkeys.ts:149-157 | joining a split gives back the text |
| JsStrings.SplitJoin | src/utils/hotkeys.ts:149-157 | splitting a join of separator-free parts gives back the parts |
| JsStrings.IndexOf | src/context/EditorContext.tsx:162 | `indexOf`: the first occurrence of the pattern, or -1 |
| JsStrings.LastIndexOf | src/utils/markdown.ts:109 | `lastIndexOf` of one character: the last occurrence, or -1 |
| JsStrings.ReplaceFirst | src/context/EditorContext.tsx:162 | `replace` with a string pattern: the first occurrence only |
| JsStrings.ReplaceFirstAtEnd | src/context/EditorContext.tsx:162 | a pattern first occurring at the end is removed from there |
| JsStrings.EndsWith | src/App.tsx:70 | `endsWith` |
| JsNumbers.MathMax | src/context/EditorContext.tsx:127 | the larger argument, NaN when either argument is NaN |
| JsNumbers.MathMin | src/context/EditorContext.tsx:127 | the smaller argument, NaN when either argument is NaN |
| JsNumbers.ParseIntOfNumberToString | src/context/EditorContext.tsx:72-98 | a split position written with toString parses back with parseInt to its integer part, and NaN parses back to NaN |
| JsNumbers.ParseInt | src/context/EditorContext.tsx:74 | `parseInt(s, 10)`: skipped white space, a sign, the leading digits, NaN without one; its result is a whole number or NaN |
| JsNumbers.NumberToString | src/context/EditorContext.tsx:97 | `Number.prototype.toString`; inverted by ParseIntOfNumberToString |
| EditorContext.OrElse | src/context/EditorContext.tsx:49 | the result is the value or the fallback: a present non-empty value wins, a missing or empty one gives the fallback, and a non-empty fallback never yields "" |
| EditorContext.LoadDefaults | src/context/EditorContext.tsx:47-81 | missing or empty markdown, title and theme fall back to their defaults, stored non-empty ones are kept; view mode starts as split and the cursor at (1, 1) |
| EditorContext.ParseIntOfLiteral | src/context/EditorContext.tsx:74 | the decimal numeral of a whole number parses back to it |
| EditorContext.LoadMissingSplit | src/context/EditorContext.tsx:74 | a missing split position loads as 50 |
| EditorContext.LoadCorruptSplit | src/context/EditorContext.tsx:74 | a stored "abc" loads as NaN, not as 50 |
| EditorContext.LoadUnclampedSplit | src/context/EditorContext.tsx:74 | a stored "90" loads as 90: load does not clamp |
| EditorContext.ReloadRestores | src/context/EditorContext.tsx:47-98 | loading from storage that mirrors a state gives back its markdown, title and theme (defaults for empty ones) and its split position truncated to an integer |
| EditorContext.PersistSaved | src/context/EditorContext.tsx:84-107 | after the save effects, storage holds each field's value under its key and the dark class follows the theme |
| EditorContext.ClampSplit | src/context/EditorContext.tsx:126-129 | a number is held in [30, 70], kept when already inside, NaN stays NaN |
| EditorContext.ClampSplitIdempotent | src/context/EditorContext.tsx:127 | clamping twice is clamping once |
| EditorContext.ToggledTheme | src/context/EditorContext.tsx:119 | the result is "dark" iff the theme was "light", and is always "light" or "dark" |
| EditorContext.ToggleThemeTwice | src/context/EditorContext.tsx:118-120 | toggling switches between the two theme names, and twice gives back the original |
| EditorContext.WithImage | src/context/EditorContext.tsx:145-148 | the old markdown is a strict prefix of the result |
| EditorContext.LinkText | src/context/EditorContext.tsx:152 | the given link text when non-empty, else the placeholder; never empty |
| EditorContext.WithLink | src/context/EditorContext.tsx:151-154 | the old markdown followed by "[text](url)" with the chosen link text |
| EditorContext.OpenedTitleOfSavedFile | src/context/EditorContext.tsx:162 | a title containing neither ".md" nor ".txt", saved as "<title>.md", opens under the same title |
| EditorContext.OpenedTitleLosesTxt | src/context/EditorContext.tsx:162 | "x.txt.md" opens with the title "x": occurrences are removed, not the extension |
| EditorContext.EditorStore.constructor | src/context/EditorContext.tsx:47-107 | the state is loaded from storage, storage then holds all four saved keys, and the store is consistent |
| EditorContext.EditorStore.SetMarkdown | src/context/EditorContext.tsx:84-86 | the markdown changes and only its key is written |
| EditorContext.EditorStore.SetTitle | src/context/EditorContext.tsx:88-90 | the title changes and only its key is written |
| EditorContext.EditorStore.ToggleTheme | src/context/EditorContext.tsx:92-120 | the theme is toggled, its key is written and the dark class follows it |
| EditorContext.EditorStore.SetViewMode | src/context/EditorContext.tsx:122-124 | the view mode changes and storage is untouched |
| EditorContext.EditorStore.SetSplitPosition | src/context/EditorContext.tsx:126-129 | the clamped position is stored and written as its decimal string |
| EditorContext.EditorStore.SetCursor | src/context/EditorContext.tsx:131-133 | the cursor changes and storage is untouched |
| EditorContext.EditorStore.InsertFormat | src/context/EditorContext.tsx:136-142 | nothing changes |
| EditorContext.EditorStore.InsertImage | src/context/EditorContext.tsx:145-148 | the image reference is appended after a blank line and the markdown key is written |
| EditorContext.EditorStore.InsertLink | src/context/EditorContext.tsx:151-154 | the link is appended and the markdown key is written |
| EditorContext.EditorStore.OpenFile | src/context/EditorContext.tsx:157-165 | the content becomes the markdown, the stripped name the title, and both keys are written |
| EditorContext.EditorStore.ClearAll | src/context/EditorContext.tsx:204-206 | the markdown becomes empty and every other field is kept |
| EditorContext.GetItem | src/context/EditorContext.tsx:49 | `localStorage.getItem`: the stored string, or null for a missing key |
| EditorContext.Load | src/context/EditorContext.tsx:47-81 | the lazy initial state; stated by LoadDefaults, LoadMissingSplit, LoadCorruptSplit, LoadUnclampedSplit and ReloadRestores |
| EditorContext.Persist | src/context/EditorContext.tsx:84-98 | the four save effects; stated by PersistSaved and ReloadRestores |
| EditorContext.Mirrors | src/context/EditorContext.tsx:84-98 | storage holds each key's written value; the invariant EditorStore keeps |
| EditorContext.OpenedTitle | src/context/EditorContext.tsx:162 | `name.replace('.md', '').replace('.txt', '')`; stated by OpenedTitleOfSavedFile and OpenedTitleLosesTxt |
| Toolbar.WithImageLine | src/components/Toolbar.tsx:79 | the old markdown followed by "\n\n![图片](url)\n" |
| Toolbar.AppendFormatAppends | src/components/Toolbar.tsx:71-74 | a known format appends prefix, placeholder and suffix to the document; an unknown one changes nothing; the old text is always a prefix |
| Toolbar.SavedMarkdownReopens | src/components/Toolbar.tsx:57-68 | a document exported as Markdown and opened again has the same content, and the same title when it contains neither ".md" nor ".txt" |
| Toolbar.ToolbarState.constructor | src/components/Toolbar.tsx:36-38 | the dialog and the menu start closed and the URL empty |
| Toolbar.ToolbarState.HandleFormat | src/components/Toolbar.tsx:71-74 | the markdown becomes the format applied at its end, and only its key is written |
| Toolbar.ToolbarState.OpenImageModal | src/components/Toolbar.tsx:190 | the dialog opens and nothing else changes |
| Toolbar.ToolbarState.CloseImageModal | src/components/Toolbar.tsx:287 | the dialog closes and nothing else changes |
| Toolbar.ToolbarState.SetImageUrl | src/components/Toolbar.tsx:275 | the URL field takes the typed value and nothing else changes |
| Toolbar.ToolbarState.HandleInsertImage | src/components/Toolbar.tsx:77-83 | with an empty URL nothing changes; otherwise the image line is appended, the URL is reset and the dialog closes |
| Toolbar.ToolbarState.HandleFileChange | src/components/Toolbar.tsx:57-68 | without a file nothing changes; with one, the content becomes the markdown and the stripped name the title |
| Toolbar.ToolbarState.ToggleExportMenu | src/components/Toolbar.tsx:204 | the menu flips and nothing else changes |
| Toolbar.ToolbarState.CloseExportMenu | src/components/Toolbar.tsx:216 | the menu closes and nothing else changes |
| Toolbar.ToolbarState.HandleExportHtml | src/components/Toolbar.tsx:93-96 | the HTML download is offered and the menu closes |
| Toolbar.ToolbarState.HandleExportMarkdown | src/components/Toolbar.tsx:98-101 | the Markdown download is offered and the menu closes |
| Toolbar.ToolbarState.HandleExportPdf | src/components/Toolbar.tsx:103-106 | one print request is made and the menu closes |
| Toolbar.AppendFormat | src/components/Toolbar.tsx:71-74 | `handleFormat`'s text: insertAtCursor at the end; stated by AppendFormatAppends |
| App.FirstDroppable | src/App.tsx:70 | the first index whose name ends with ".md" or ".txt", all earlier ones not; None iff no file qualifies |
| App.MarkdownExtensionRejected | src/App.tsx:70 | a ".markdown" file is not accepted |
| App.SavedFileDroppable | src/App.tsx:70 | a file saved as "<title>.md" is accepted |
| App.Layout | src/App.tsx:167-175 | the wide layout shows both panes; the narrow one shows only the editor for the editor mode and only the preview otherwise |
| App.ScrollListenersBoundOnWideLayout | src/App.tsx:90-103 | listeners are bound iff the layout is wide and the editor's scroller exists, and then both panes are shown |
| App.AppShell.constructor | src/App.tsx:42-52 | mounting measures the window: narrow iff below 768 px; no overlay, no alert |
| App.AppShell.Resize | src/App.tsx:45-47 | narrow iff the width is below 768 px; nothing else changes |
| App.AppShell.HandleDragOver | src/App.tsx:55-58 | the overlay is shown |
| App.AppShell.HandleDragLeave | src/App.tsx:60-63 | the overlay is hidden |
| App.AppShell.HandleDrop | src/App.tsx:65-77 | the overlay is hidden; the first acceptable file is opened, or when none is acceptable the document is unchanged and the alert is shown |
| App.AppShell.SelectTab | src/App.tsx:137-162 | either tab's mode, editor or preview, becomes the view mode and storage is untouched |
| App.Droppable | src/App.tsx:70 | the `endsWith('.md') || endsWith('.txt')` test; stated by FirstDroppable, MarkdownExtensionRejected and SavedFileDroppable |
| App.ScrollListenersBound | src/App.tsx:90-94 | the binding condition; stated by ScrollListenersBoundOnWideLayout |
| ResizableSplit.StartOffset | src/components/ResizableSplit.tsx:45 | NaN exactly for a NaN position; a position in [0, 100] gives an offset within the container, and the offset over a positive width times 100 is the position again |
| ResizableSplit.RawPercentage | src/components/ResizableSplit.tsx:48-50 | NaN exactly when the start offset is NaN |
| ResizableSplit.DragPositionInRange | src/components/ResizableSplit.tsx:47-54 | every move publishes a position in [30, 70], or NaN for a drag that started from NaN |
| ResizableSplit.DragPositionIsClamped | src/components/ResizableSplit.tsx:53 | the published position is the store's clamp of the raw percentage, and the store's clamp leaves it as it is |
| ResizableSplit.DragPositionAtStart | src/components/ResizableSplit.tsx:43-53 | without movement, a drag from a position in [30, 70] publishes that position |
| ResizableSplit.DragPositionMonotone | src/components/ResizableSplit.tsx:48-53 | moving the pointer right never moves the divider left |
| ResizableSplit.PaneWidths | src/components/ResizableSplit.tsx:103 | the left pane gets the position and the right its complement, summing to 100 |
| ResizableSplit.SessionsOf | src/components/ResizableSplit.tsx:63 | exactly the attached drags of one pointer family |
| ResizableSplit.SessionsNotOf | src/components/ResizableSplit.tsx:59-60 | exactly the attached drags of the other family |
| ResizableSplit.PositionAfterMoveIsLast | src/components/ResizableSplit.tsx:47-55 | after a move the store holds the newest same-family drag's position, or its old value when there is none |
| ResizableSplit.SessionsOfAppend | src/components/ResizableSplit.tsx:63-64 | a new drag joins its family's listeners at the end |
| ResizableSplit.RestoredPosition | src/components/ResizableSplit.tsx:23-28 | a non-empty saved value is parsed and clamped, so it restores to NaN or a whole number in [30, 70]; a missing or empty one keeps the position |
| ResizableSplit.RewriteKeepsStorage | src/components/ResizableSplit.tsx:31-33 | writing back the position storage already mirrors changes nothing |
| ResizableSplit.RestoreKeepsMirroredPosition | src/components/ResizableSplit.tsx:23-28 | restoring from storage that mirrors a whole position in [30, 70] keeps it |
| ResizableSplit.SplitView.constructor | src/components/ResizableSplit.tsx:23-33 | mounting restores the saved position through the store's clamp and writes it back; not dragging, no listeners |
| ResizableSplit.SplitView.PointerDown | src/components/ResizableSplit.tsx:36-65 | dragging starts; with a container, a drag capturing start x, width and start offset is attached; without one, nothing is attached |
| ResizableSplit.SplitView.PointerMove | src/components/ResizableSplit.tsx:47-55 | every attached drag of the family publishes its position through the store, in order |
| ResizableSplit.SplitView.PointerUp | src/components/ResizableSplit.tsx:57-61 | with a drag of the family attached, dragging stops and only that family's drags are detached; otherwise nothing changes |
| ResizableSplit.DragPosition | src/components/ResizableSplit.tsx:47-54 | the move handler's clamped percentage; stated by DragPositionInRange, DragPositionIsClamped, DragPositionAtStart and DragPositionMonotone |
| ResizableSplit.PositionAfterMove | src/components/ResizableSplit.tsx:47-55 | the position left by the listeners a move reaches; stated by PositionAfterMoveIsLast and SplitView.PointerMove |
| ScrollSync.ScrollPercentage | src/hooks/useScrollSync.ts:19-23 | 0 for a missing element, NaN for one that cannot scroll, else the offset over the range, which lies in [0, 1] |
| ScrollSync.Clamp | src/hooks/useScrollSync.ts:28 | the browser holds an assigned offset in range and keeps one already in range |
| ScrollSync.SetScrollPosition | src/hooks/useScrollSync.ts:26-29 | the element stays settled with its heights kept; NaN puts it at 0 |
| ScrollSync.SetScrollPositionScales | src/hooks/useScrollSync.ts:28 | a ratio in [0, 1] puts the offset at that fraction of the range |
| ScrollSync.ScaledInRange | src/hooks/useScrollSync.ts:28 | a ratio in [0, 1] times a range lies in that range |
| ScrollSync.SyncIsProportional | src/hooks/useScrollSync.ts:38-40 | after syncing, the target's offset over its range equals the source's offset over its range |
| ScrollSync.SyncExample | src/hooks/useScrollSync.ts:38-40 | 750 of a 1500 px range puts a preview with a 600 px range at 300 |
| ScrollSync.SelfSyncIsIdentity | src/hooks/useScrollSync.ts:19-29 | setting an element to its own ratio leaves it unchanged |
| ScrollSync.ZeroRangeHasNoRatio | src/hooks/useScrollSync.ts:22 | an element that cannot scroll has ratio NaN |
| ScrollSync.NonScrollingSourceResetsTarget | src/hooks/useScrollSync.ts:22-39 | the ratio of an element that cannot scroll moves any element it is copied to to offset 0, changing nothing else |
| ScrollSync.SyncThroughWrappers | src/hooks/useScrollSync.ts:32-45 | given two elements that cannot scroll, an editor scroll is accepted and its frame leaves the preview at offset 0, whatever the heights |
| ScrollSync.Synchronizer.constructor | src/hooks/useScrollSync.ts:14-16 | both flags clear, no timeout handle, no pending callbacks |
| ScrollSync.Synchronizer.HandleEditorScroll | src/hooks/useScrollSync.ts:32-47 | while the preview flag is set or an element is missing nothing changes; otherwise the editor flag is set and one frame is queued |
| ScrollSync.Synchronizer.HandlePreviewScroll | src/hooks/useScrollSync.ts:50-63 | with sync off, the editor flag set or an element missing nothing changes; otherwise the preview flag is set and one frame is queued |
| ScrollSync.Synchronizer.StartTimer | src/hooks/useScrollSync.ts:43-45 | a timer clearing the flag is queued under a fresh handle, which is remembered |
| ScrollSync.Synchronizer.Frame | src/hooks/useScrollSync.ts:38-46 | the oldest frame maps the scrolled element's ratio onto the other element and starts its timer; it writes only the other element |
| ScrollSync.Synchronizer.Timeout | src/hooks/useScrollSync.ts:43-45 | the oldest timer fires and clears its flag only |
| ScrollSync.Synchronizer.ScrollEditor | src/hooks/useScrollSync.ts:32 | the user moves the editor; nothing else changes |
| ScrollSync.Synchronizer.ScrollPreview | src/hooks/useScrollSync.ts:50 | the user moves the preview; nothing else changes |
| ScrollSync.Synchronizer.Cleanup | src/hooks/useScrollSync.ts:66-72 | unmounting cancels the remembered timer, if any, and leaves all else |
| ScrollSync.WithoutTimer | src/hooks/useScrollSync.ts:69 | the pending timers except the one with the given handle |
| Export.Between | src/utils/export.ts:10-114 | a concatenation of three parts holds each part at its offset |
| Export.FillParts | src/utils/export.ts:10-114 | a filled template holds head, title, style, markdown and tail at their offsets |
| Export.HeadTags | src/utils/export.ts:10-15 | the template's head starts with the doctype and ends with the opening title tag |
| Export.StyleTags | src/utils/export.ts:15 | the text after the title starts with the closing title tag |
| Export.GenerateHtmlLayout | src/utils/export.ts:10-114 | the page is head + title + style + markdown + tail, with length the sum of the parts |
| Export.GenerateHtmlDefaultTitle | src/utils/export.ts:8 | without a title the page is the one for "文档" |
| Export.GenerateHtmlStartsWithDoctype | src/utils/export.ts:10 | the page starts with "<!DOCTYPE html>" |
| Export.GenerateHtmlEndsWithHtmlClose | src/utils/export.ts:114 | the page ends with "</html>" |
| Export.ExtractMarkdownOfGenerated | src/utils/export.ts:111-113 | the markdown read back out of its page is the markdown, verbatim |
| Export.GenerateHtmlInjective | src/utils/export.ts:10-114 | under one title, equal pages mean equal markdown |
| Export.ExportDownloads | src/utils/export.ts:120-149 | the HTML download is "<title>.html" holding the page; the Markdown one is "<title>.md" holding the markdown unchanged |
| Export.GenerateHtml | src/utils/export.ts:8-115 | `generateHTML`; stated by GenerateHtmlLayout, GenerateHtmlDefaultTitle, GenerateHtmlStartsWithDoctype, GenerateHtmlEndsWithHtmlClose and GenerateHtmlInjective |
| Export.ExtractMarkdown | src/utils/export.ts:111-113 | the body slot of the page read back; inverts GenerateHtml by ExtractMarkdownOfGenerated |
| Export.ExportAsHtml | src/utils/export.ts:120-129 | `exportAsHTML`'s file name and body; stated by ExportDownloads |
| Export.ExportAsMarkdown | src/utils/export.ts:141-149 | `exportAsMarkdown`'s file name and body; stated by ExportDownloads |

## Left out

- Rendering and editing widgets (the Markdown preview renderer and the
  CodeMirror editor), the modal, status bar and theme toggle components,
  the styling configuration and the `useLocalStorage` hook are not part of
  this model.
- Browser I/O is not modelled. This covers Blob and object URLs, anchor
  clicks, the clipboard, `window.print`, `alert` and `FileReader`. A
  download is recorded as a file name and a body, a print request as a
  counter, an alert as a message in a list, and a file read as its name and
  text passed in.
- `EditorContext.saveFile`, `exportHTML`, `exportPDF` and `copyHTML` are
  left out. They are browser I/O over the raw markdown. The toolbar's
  export path through `src/utils/export.ts` is modelled instead.
- Exceptions from `localStorage`, whose handlers fall back to the defaults,
  are not modelled: storage is a plain map.
- Real time is not modelled. The 50 ms timeout and animation frames are
  explicit `Timeout` and `Frame` events taken in queue order. The
  150 ms debounce of the preview text is left out with the preview.
- IEEE-754 rounding is not modelled. Numbers are reals or NaN.
  `Number.prototype.toString` writes integers exactly and cuts fractions
  after 17 digits, with no exponent form. Infinities cannot arise, because
  widths are positive and an element's range is zero only when its offset
  is zero.
- Case mapping covers ASCII letters only.
- Strings are sequences of Unicode scalar values (Dafny's `char`), not of
  UTF-16 code units. They agree with JavaScript only for text inside the
  Basic Multilingual Plane. A character outside it, such as an emoji or an
  ideograph from CJK Extension B, is two code units in JavaScript but one
  `char` here. For such text the model's `countCharacters`, the cursor
  positions of `insertAtCursor`, `getLineAndColumn`, `getCurrentLine` and
  `insertAtLineStart`, and the column each differ from the source by one
  per such character. A lone surrogate cannot be represented at all.
- App: the scroll-sync hook is proved for the two elements it is given
  (`ScrollSync.SyncIsProportional`, `ScrollSync.SyncExample`), but
  `src/App.tsx:35-39` gives it the two `div.h-full` wrappers of
  `src/App.tsx:184-189`, not the elements that scroll. By the CSS classes,
  the elements that scroll are the editor's `.cm-scroller` inside its `overflow-hidden` box
  (`src/components/Editor.tsx:34-36,77`) and the preview's own
  `overflow-auto` box (`src/components/Preview.tsx:26`). The wrappers have
  no scroll range, so the hook reads the ratio 0 / 0 = NaN and writes
  offset 0 to the preview wrapper: as wired, the visible preview never
  follows the editor. `ScrollSync.SyncThroughWrappers` and
  `ScrollSync.NonScrollingSourceResetsTarget` state this case; the CSS
  layout itself is not modelled. The listener on `.cm-scroller` is bound
  only when that child exists, which is a parameter of
  `ScrollListenersBound`.
- App.AppShell.constructor: the source mounts with `isMobile` false and
  its mount effect then measures the window. The model starts from the
  measured value, so on a narrow window it leaves out the first wide
  render: the divider's restore and write-back (which turn a stored "90"
  into "70") and the scroll listeners being bound and then unbound.
- ResizableSplit: a zero-width container is not modelled. The constructor
  and `PointerDown` take the width as positive, since dividing by it would
  give infinities.
- ResizableSplit.SplitView.PointerMove: React batches the updates of one
  event. The model applies each listener's update to the store in turn, so
  the last one stands, and intermediate renders are not modelled.
- Listener registration is modelled as the sequence of attached drag
  sessions, without `addEventListener`/`removeEventListener` identity.
