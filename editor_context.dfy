/**
 * The document state container: the editor's state, loaded from browser
 * storage with defaults, written back key by key on every change, and the
 * setters and text actions that change it. Browser storage is an in-memory
 * map from key to string.
 */
module EditorContext {
  import opened Wrappers
  import opened JsStrings
  import opened JsNumbers
  import opened EditorTypes

  const MarkdownKey: string := "zenmark-editor-content"
  const TitleKey: string := "zenmark-editor-title"
  const ThemeKey: string := "zenmark-editor-theme"
  const SplitKey: string := "zenmark-editor-split-position"

  const DefaultMarkdown: string :=
    "# ZenMark Editor\n\n欢迎使用 ZenMark Editor！\n\n## 功能特性\n\n- 实时预览\n- 语法高亮\n- 同步滚动\n- 主题切换\n\n开始你的写作之旅吧！\n\n```javascript\nconsole.log(\"Hello, ZenMark!\");\n```"
  const DefaultTitle: string := "无标题文档"
  const DefaultTheme: string := "dark"
  const DefaultSplit: real := 50.0

  /** The placeholder text of a link inserted without text. */
  const DefaultLinkText: string := "链接文字"

  /**
   * The state the editor shows. The theme is kept as the string read from
   * storage, which need not be one of the two theme names.
   */
  datatype EditorState = EditorState(
    markdown: string,
    title: string,
    theme: string,
    viewMode: ViewMode,
    splitPosition: JsNumber,
    cursor: CursorPosition)

  // ---------------------------------------------------------------------
  // Loading and saving
  // ---------------------------------------------------------------------

  /** `storage.getItem(key)`: the stored string, or nothing. */
  function GetItem(storage: map<string, string>, key: string): Option<string>
  {
    if key in storage then Some(storage[key]) else None
  }

  /** `value || fallback` for a possibly missing string: a missing or empty value gives the fallback. */
  function OrElse(value: Option<string>, fallback: string): (r: string)
    ensures value.Some? && value.value != [] ==> r == value.value
    ensures value.None? || value.value == [] ==> r == fallback
    ensures r == fallback || (value.Some? && r == value.value)
    ensures fallback != [] ==> r != []
  {
    if value.Some? && value.value != [] then value.value else fallback
  }

  /** The initial state: stored values where present and non-empty, else the defaults. */
  function Load(storage: map<string, string>): EditorState
  {
    EditorState(
      OrElse(GetItem(storage, MarkdownKey), DefaultMarkdown),
      OrElse(GetItem(storage, TitleKey), DefaultTitle),
      OrElse(GetItem(storage, ThemeKey), DefaultTheme),
      SplitView,
      ParseInt(OrElse(GetItem(storage, SplitKey), "50")),
      CursorPosition(1, 1))
  }

  /** Storage after the four save effects have written the state's values. */
  function Persist(storage: map<string, string>, s: EditorState): map<string, string>
  {
    storage[MarkdownKey := s.markdown][TitleKey := s.title][ThemeKey := s.theme]
           [SplitKey := NumberToString(s.splitPosition)]
  }

  /** Storage holds the state's four persisted values. */
  predicate Mirrors(storage: map<string, string>, s: EditorState)
  {
    && GetItem(storage, MarkdownKey) == Some(s.markdown)
    && GetItem(storage, TitleKey) == Some(s.title)
    && GetItem(storage, ThemeKey) == Some(s.theme)
    && GetItem(storage, SplitKey) == Some(NumberToString(s.splitPosition))
  }

  /** Storage mirrors the state and the root's class matches its theme. */
  predicate Saved(storage: map<string, string>, s: EditorState, dark: bool)
  {
    Mirrors(storage, s) && dark == (s.theme == "dark")
  }

  /** After the save effects, storage mirrors the state, and the class follows the theme. */
  lemma PersistSaved(storage: map<string, string>, s: EditorState)
    ensures Saved(Persist(storage, s), s, s.theme == "dark")
  {
  }

  /**
   * The initial state falls back field by field: missing or empty markdown,
   * title and theme give their defaults, and the view mode and cursor always
   * start as split view at (1, 1).
   */
  lemma LoadDefaults(storage: map<string, string>)
    ensures var s := Load(storage);
      && (MarkdownKey !in storage || storage[MarkdownKey] == [] ==> s.markdown == DefaultMarkdown)
      && (MarkdownKey in storage && storage[MarkdownKey] != [] ==> s.markdown == storage[MarkdownKey])
      && (TitleKey !in storage || storage[TitleKey] == [] ==> s.title == DefaultTitle)
      && (TitleKey in storage && storage[TitleKey] != [] ==> s.title == storage[TitleKey])
      && (ThemeKey !in storage || storage[ThemeKey] == [] ==> s.theme == "dark")
      && (ThemeKey in storage && storage[ThemeKey] != [] ==> s.theme == storage[ThemeKey])
      && s.viewMode == SplitView && s.cursor == CursorPosition(1, 1)
  {
  }

  /** The numeral of a whole number parses back to it. */
  lemma ParseIntOfLiteral(k: nat, text: string)
    requires text == DecimalDigits(k)
    ensures ParseInt(text) == Num(k as real)
  {
    ParseIntOfDecimal(false, k, "");
    assert text + "" == text;
  }

  /** A missing split position loads as 50. */
  lemma LoadMissingSplit(storage: map<string, string>)
    requires SplitKey !in storage
    ensures Load(storage).splitPosition == Num(50.0)
  {
    assert DecimalDigits(50) == "50";
    ParseIntOfLiteral(50, "50");
  }

  /** A stored split position that is not a number loads as NaN, not as the default 50. */
  lemma LoadCorruptSplit(storage: map<string, string>)
    requires GetItem(storage, SplitKey) == Some("abc")
    ensures Load(storage).splitPosition == NaN
  {
    ParseIntOfLetters();
    assert OrElse(GetItem(storage, SplitKey), "50") == "abc";
  }

  /** Text starting with a letter has no leading digits. */
  lemma ParseIntOfLetters()
    ensures ParseInt("abc") == NaN
  {
    assert TrimStart("abc") == "abc";
    assert LeadingDigits("abc") == 0;
  }

  /** The stored split position is not clamped on load: a stored 90 loads as 90. */
  lemma LoadUnclampedSplit(storage: map<string, string>)
    requires GetItem(storage, SplitKey) == Some("90")
    ensures Load(storage).splitPosition == Num(90.0)
  {
    assert DecimalDigits(90) == "90";
    ParseIntOfLiteral(90, "90");
  }

  /**
   * Reloading saved state gives it back, except that empty markdown, title
   * or theme come back as their defaults and a split position comes back
   * truncated to an integer; view mode and cursor are not saved.
   */
  lemma ReloadRestores(storage: map<string, string>, s: EditorState)
    requires Mirrors(storage, s)
    ensures var r := Load(storage);
      && r.markdown == (if s.markdown == [] then DefaultMarkdown else s.markdown)
      && r.title == (if s.title == [] then DefaultTitle else s.title)
      && r.theme == (if s.theme == [] then DefaultTheme else s.theme)
      && r.splitPosition == (if s.splitPosition.NaN? then NaN else Num(Truncate(s.splitPosition.value) as real))
  {
    ParseIntOfNumberToString(s.splitPosition);
    assert NumberToString(s.splitPosition) != [] by {
      if s.splitPosition.Num? {
        var r := s.splitPosition.value;
        assert MagnitudeText(if r < 0.0 then -r else r) != [];
      }
    }
  }

  // ---------------------------------------------------------------------
  // Updates
  // ---------------------------------------------------------------------

  /** `Math.max(30, Math.min(70, p))`. */
  function ClampSplit(p: JsNumber): (r: JsNumber)
    ensures p.NaN? ==> r.NaN?
    ensures p.Num? ==> r.Num? && 30.0 <= r.value <= 70.0
    ensures p.Num? && 30.0 <= p.value <= 70.0 ==> r == p
    ensures p.Num? && p.value < 30.0 ==> r == Num(30.0)
    ensures p.Num? && p.value > 70.0 ==> r == Num(70.0)
  {
    MathMax(Num(30.0), MathMin(Num(70.0), p))
  }

  /** Clamping twice is clamping once. */
  lemma ClampSplitIdempotent(p: JsNumber)
    ensures ClampSplit(ClampSplit(p)) == ClampSplit(p)
  {
  }

  /** The theme after a toggle: "light" becomes "dark", and anything else becomes "light". */
  function ToggledTheme(theme: string): (r: string)
    ensures r == "dark" <==> theme == "light"
    ensures r == "light" || r == "dark"
  {
    if theme == "light" then "dark" else "light"
  }

  /** Toggling switches between the two theme names, and toggling twice gives back either of them. */
  lemma ToggleThemeTwice(mode: ThemeMode)
    ensures ToggledTheme(ThemeName(mode)) == ThemeName(if mode == Light then Dark else Light)
    ensures ToggledTheme(ToggledTheme(ThemeName(mode))) == ThemeName(mode)
  {
  }

  /** Markdown with an image appended after a blank line. */
  function WithImage(markdown: string, url: string): (r: string)
    ensures |r| > |markdown| && r[..|markdown|] == markdown
  {
    markdown + "\n\n![图片](" + url + ")"
  }

  /** The link text used: the given text, or the placeholder when it is missing or empty. */
  function LinkText(text: Option<string>): (t: string)
    ensures t != []
    ensures text.Some? && text.value != [] ==> t == text.value
  {
    OrElse(text, DefaultLinkText)
  }

  /** Markdown with a link appended directly after it. */
  function WithLink(markdown: string, url: string, text: Option<string>): (r: string)
    ensures |markdown| <= |r| && r[..|markdown|] == markdown
    ensures r[|markdown|..] == "[" + LinkText(text) + "](" + url + ")"
  {
    markdown + ("[" + LinkText(text) + "](" + url + ")")
  }

  /** The title given to an opened file: its name without the first ".md", then without the first ".txt". */
  function OpenedTitle(name: string): string
  {
    ReplaceFirst(ReplaceFirst(name, ".md", ""), ".txt", "")
  }

  /** ".md" cannot start in the last two characters of a name followed by ".md". */
  lemma NoStraddlingMd(t: string)
    requires forall j :: 0 <= j ==> !OccursAt(t, ".md", j)
    ensures IndexOf(t + ".md", ".md") == |t|
  {
    var s := t + ".md";
    assert OccursAt(s, ".md", |t|);
    forall j | 0 <= j < |t| ensures !OccursAt(s, ".md", j) {
      if j + 3 <= |t| {
        assert s[j..j + 3] == t[j..j + 3];
        assert !OccursAt(t, ".md", j);
      } else if j == |t| - 1 {
        assert s[j..j + 3][1] == '.' != ".md"[1];
      } else {
        assert s[j..j + 3][2] == '.' != ".md"[2];
      }
    }
  }

  /** A name without ".md" or ".txt" saved as markdown opens under the same title. */
  lemma OpenedTitleOfSavedFile(t: string)
    requires forall j :: 0 <= j ==> !OccursAt(t, ".md", j) && !OccursAt(t, ".txt", j)
    ensures OpenedTitle(t + ".md") == t
  {
    NoStraddlingMd(t);
    assert (t + ".md")[..|t|] == t;
    assert ReplaceFirst(t + ".md", ".md", "") == t;
  }

  /** A title that contains ".txt" does not survive saving and reopening: "x.txt" comes back as "x". */
  lemma OpenedTitleLosesTxt()
    ensures OpenedTitle("x.txt" + ".md") == "x"
  {
    var a := "x.txt";
    forall j | 0 <= j < |a| ensures !OccursAt(a + ".md", ".md", j) {
      if j == 1 { MismatchAt(a + ".md", ".md", j, 1); } else { MismatchAt(a + ".md", ".md", j, 0); }
    }
    ReplaceFirstAtEnd(a, ".md");
    assert a == "x" + ".txt";
    MismatchAt("x" + ".txt", ".txt", 0, 0);
    ReplaceFirstAtEnd("x", ".txt");
  }

  // ---------------------------------------------------------------------
  // The container
  // ---------------------------------------------------------------------

  /** The editor's state, its storage, and whether the document root has the 'dark' class. */
  class EditorStore {
    var markdown: string
    var title: string
    var theme: string
    var viewMode: ViewMode
    var splitPosition: JsNumber
    var cursor: CursorPosition
    var storage: map<string, string>
    var darkClass: bool

    /** The state as a value. */
    function State(): EditorState
      reads this
    {
      EditorState(markdown, title, theme, viewMode, splitPosition, cursor)
    }

    /** The save effects have run: storage mirrors the state, and the root's class matches the theme. */
    ghost predicate Valid()
      reads this
    {
      Saved(storage, State(), darkClass)
    }

    /** Mounting: the state is loaded from `saved`, then the save effects write all four keys. */
    constructor (saved: map<string, string>)
      ensures State() == Load(saved)
      ensures storage == Persist(saved, Load(saved))
      ensures Valid()
    {
      var s := Load(saved);
      PersistSaved(saved, s);
      markdown, title, theme := s.markdown, s.title, s.theme;
      viewMode, splitPosition, cursor := s.viewMode, s.splitPosition, s.cursor;
      storage := Persist(saved, s);
      darkClass := s.theme == "dark";
    }

    method SetMarkdown(text: string)
      requires Valid()
      modifies this
      ensures Valid()
      ensures State() == old(State()).(markdown := text)
      ensures storage == old(storage)[MarkdownKey := text]
    {
      markdown := text;
      storage := storage[MarkdownKey := text];
    }

    method SetTitle(newTitle: string)
      requires Valid()
      modifies this
      ensures Valid()
      ensures State() == old(State()).(title := newTitle)
      ensures storage == old(storage)[TitleKey := newTitle]
    {
      title := newTitle;
      storage := storage[TitleKey := newTitle];
    }

    /** Switches the theme and the root's 'dark' class. */
    method ToggleTheme()
      requires Valid()
      modifies this
      ensures Valid()
      ensures State() == old(State()).(theme := ToggledTheme(old(theme)))
      ensures storage == old(storage)[ThemeKey := ToggledTheme(old(theme))]
      ensures darkClass == (old(theme) == "light")
    {
      theme := ToggledTheme(theme);
      storage := storage[ThemeKey := theme];
      darkClass := theme == "dark";
    }

    /** The view mode is not saved. */
    method SetViewMode(mode: ViewMode)
      requires Valid()
      modifies this
      ensures Valid()
      ensures State() == old(State()).(viewMode := mode)
      ensures storage == old(storage)
    {
      viewMode := mode;
    }

    /** Stores the position clamped into [30, 70] and saves it as a decimal string. */
    method SetSplitPosition(position: JsNumber)
      requires Valid()
      modifies this
      ensures Valid()
      ensures State() == old(State()).(splitPosition := ClampSplit(position))
      ensures storage == old(storage)[SplitKey := NumberToString(ClampSplit(position))]
    {
      splitPosition := ClampSplit(position);
      storage := storage[SplitKey := NumberToString(splitPosition)];
    }

    /** The cursor is not saved. */
    method SetCursor(position: CursorPosition)
      requires Valid()
      modifies this
      ensures Valid()
      ensures State() == old(State()).(cursor := position)
      ensures storage == old(storage)
    {
      cursor := position;
    }

    /** Leaves the markdown as it is, whatever the format. */
    method InsertFormat(format: string)
      requires Valid()
      modifies this
      ensures Valid()
      ensures State() == old(State()) && storage == old(storage)
    {
    }

    /** Appends an image reference after a blank line. */
    method InsertImage(url: string)
      requires Valid()
      modifies this
      ensures Valid()
      ensures State() == old(State()).(markdown := WithImage(old(markdown), url))
      ensures storage == old(storage)[MarkdownKey := markdown]
    {
      SetMarkdown(WithImage(markdown, url));
    }

    /** Appends a link, with the placeholder text when none is given. */
    method InsertLink(url: string, text: Option<string>)
      requires Valid()
      modifies this
      ensures Valid()
      ensures State() == old(State()).(markdown := WithLink(old(markdown), url, text))
      ensures storage == old(storage)[MarkdownKey := markdown]
    {
      SetMarkdown(WithLink(markdown, url, text));
    }

    /** The file has been read: its content becomes the markdown, its name the title. */
    method OpenFile(name: string, content: string)
      requires Valid()
      modifies this
      ensures Valid()
      ensures State() == old(State()).(markdown := content, title := OpenedTitle(name))
      ensures storage == old(storage)[MarkdownKey := content][TitleKey := OpenedTitle(name)]
    {
      SetMarkdown(content);
      SetTitle(OpenedTitle(name));
    }

    /** Empties the document; everything else stays. */
    method ClearAll()
      requires Valid()
      modifies this
      ensures Valid()
      ensures State() == old(State()).(markdown := "")
      ensures storage == old(storage)[MarkdownKey := ""]
    {
      SetMarkdown("");
    }
  }
}
