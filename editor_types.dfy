/**
 * The editor's value types: the formatting tags, the theme and view modes,
 * and the cursor position shown in the status bar.
 */
module EditorTypes {

  /** The formatting tags the toolbar offers. */
  datatype FormatType =
    | Bold | Italic | H1 | H2 | H3 | Quote | Code | CodeBlock
    | Link | Image | List | CheckedList

  /** The tag's name as the code spells it, which is the formatting table's key. */
  function FormatTag(f: FormatType): (tag: string)
    ensures tag != []
  {
    match f
    case Bold => "bold"
    case Italic => "italic"
    case H1 => "h1"
    case H2 => "h2"
    case H3 => "h3"
    case Quote => "quote"
    case Code => "code"
    case CodeBlock => "codeBlock"
    case Link => "link"
    case Image => "image"
    case List => "list"
    case CheckedList => "checkedList"
  }

  /** The two themes the type admits. */
  datatype ThemeMode = Light | Dark

  /** The theme's name: the value stored and compared against. */
  function ThemeName(t: ThemeMode): string
  {
    match t
    case Light => "light"
    case Dark => "dark"
  }

  /** Which panes are shown. */
  datatype ViewMode = SplitView | EditorView | PreviewView

  /** A 1-based line and column. */
  datatype CursorPosition = CursorPosition(line: int, column: int)
}
