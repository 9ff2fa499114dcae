/**
 * Keyboard shortcuts: matching a key event against shortcuts whose
 * modifiers may be left open, dispatching the first match, and the labels
 * shown for a shortcut. Whether the platform is a Mac is a parameter.
 */
module Hotkeys {
  import opened Wrappers
  import opened JsStrings

  /**
   * A shortcut. A modifier that is `None` is not checked. The action is
   * identified by the shortcut's position in its list.
   */
  datatype Hotkey = Hotkey(
    key: string,
    ctrl: Option<bool>,
    cmd: Option<bool>,
    shift: Option<bool>,
    alt: Option<bool>,
    description: string)

  /** The parts of a keyboard event the matcher reads. */
  datatype KeyEvent = KeyEvent(key: string, ctrlKey: bool, metaKey: bool, shiftKey: bool, altKey: bool)

  /** The built-in shortcuts: bold, italic, save and inline code with Ctrl and Cmd, then Escape. */
  const DefaultHotkeys: seq<Hotkey> := [
    Hotkey("b", Some(true), Some(true), None, None, "粗体"),
    Hotkey("i", Some(true), Some(true), None, None, "斜体"),
    Hotkey("s", Some(true), Some(true), None, None, "保存"),
    Hotkey("`", Some(true), Some(true), None, None, "代码"),
    Hotkey("Escape", None, None, None, None, "退出专注模式/关闭模态框")
  ]

  /** A modifier requirement: open, or equal to the event's flag. */
  predicate ModifierMatches(required: Option<bool>, pressed: bool)
  {
    required.None? || pressed == required.value
  }

  /** The event matches the shortcut: same key ignoring case, and every set modifier agrees. */
  predicate MatchHotkey(event: KeyEvent, hotkey: Hotkey)
  {
    && Lower(event.key) == Lower(hotkey.key)
    && ModifierMatches(hotkey.ctrl, event.ctrlKey)
    && ModifierMatches(hotkey.cmd, event.metaKey)
    && ModifierMatches(hotkey.shift, event.shiftKey)
    && ModifierMatches(hotkey.alt, event.altKey)
  }

  /** The key is compared without regard to case: upper-casing either side changes nothing. */
  lemma MatchHotkeyIgnoresCase(event: KeyEvent, hotkey: Hotkey)
    ensures MatchHotkey(event.(key := Upper(event.key)), hotkey) == MatchHotkey(event, hotkey)
    ensures MatchHotkey(event, hotkey.(key := Upper(hotkey.key))) == MatchHotkey(event, hotkey)
  {
    LowerOfUpper(event.key);
    LowerOfUpper(hotkey.key);
  }

  /** An open modifier is a wildcard: the event's flag for it does not matter. */
  lemma MatchHotkeyOpenModifiers(event: KeyEvent, hotkey: Hotkey, flag: bool)
    ensures hotkey.ctrl.None? ==> MatchHotkey(event.(ctrlKey := flag), hotkey) == MatchHotkey(event, hotkey)
    ensures hotkey.cmd.None? ==> MatchHotkey(event.(metaKey := flag), hotkey) == MatchHotkey(event, hotkey)
    ensures hotkey.shift.None? ==> MatchHotkey(event.(shiftKey := flag), hotkey) == MatchHotkey(event, hotkey)
    ensures hotkey.alt.None? ==> MatchHotkey(event.(altKey := flag), hotkey) == MatchHotkey(event, hotkey)
  {
  }

  /**
   * The four formatting defaults set both Ctrl and Cmd, so they fire only
   * when Ctrl and Meta are both held; Escape fires with any modifiers.
   */
  lemma DefaultHotkeysModifiers(event: KeyEvent, i: nat)
    requires i < |DefaultHotkeys|
    ensures i < 4 && MatchHotkey(event, DefaultHotkeys[i]) ==> event.ctrlKey && event.metaKey
    ensures i < 4 && event.ctrlKey && event.metaKey ==>
      (MatchHotkey(event, DefaultHotkeys[i]) <==> Lower(event.key) == DefaultHotkeys[i].key)
    ensures i == 4 ==> (MatchHotkey(event, DefaultHotkeys[i]) <==> Lower(event.key) == "escape")
  {
    var h := DefaultHotkeys[i];
    assert i < 4 ==> Lower(h.key) == h.key;
    assert i == 4 ==> Lower(h.key) == "escape";
  }

  /** What dispatching an event did: its result, whether the default was prevented, and which action ran. */
  datatype Dispatch = Dispatch(handled: bool, defaultPrevented: bool, fired: Option<nat>)

  /**
   * Runs the first shortcut in list order that matches the event, after
   * preventing the event's default, and reports whether one matched. When
   * none matches, nothing is prevented and no action runs.
   */
  method TriggerHotkey(event: KeyEvent, hotkeys: seq<Hotkey>) returns (d: Dispatch)
    ensures d.handled <==> exists i :: 0 <= i < |hotkeys| && MatchHotkey(event, hotkeys[i])
    ensures d.defaultPrevented == d.handled && d.fired.Some? == d.handled
    ensures d.fired.Some? ==> d.fired.value < |hotkeys| && MatchHotkey(event, hotkeys[d.fired.value])
    ensures d.fired.Some? ==> forall j :: 0 <= j < d.fired.value ==> !MatchHotkey(event, hotkeys[j])
  {
    var i := 0;
    while i < |hotkeys|
      invariant 0 <= i <= |hotkeys|
      invariant forall j :: 0 <= j < i ==> !MatchHotkey(event, hotkeys[j])
    {
      if MatchHotkey(event, hotkeys[i]) {
        return Dispatch(true, true, Some(i));
      }
      i := i + 1;
    }
    return Dispatch(false, false, None);
  }

  // ---------------------------------------------------------------------
  // Labels
  // ---------------------------------------------------------------------

  /** A modifier flag that is set to true (JavaScript truthiness of an optional boolean). */
  predicate IsOn(flag: Option<bool>)
  {
    flag == Some(true)
  }

  /** The label of the command modifier: the command sign on a Mac, else "Ctrl". */
  function CommandLabel(isMac: bool): string
  {
    if isMac then "⌘" else "Ctrl"
  }

  /** The label of the Alt modifier: the option sign on a Mac, else "Alt". */
  function AltLabel(isMac: bool): string
  {
    if isMac then "⌥" else "Alt"
  }

  /** The modifier parts, in the order command, Shift, Alt. Ctrl and Cmd share one part. */
  function ModifierLabels(hotkey: Hotkey, isMac: bool): seq<string>
  {
    (if IsOn(hotkey.ctrl) || IsOn(hotkey.cmd) then [CommandLabel(isMac)] else [])
    + (if IsOn(hotkey.shift) then ["Shift"] else [])
    + (if IsOn(hotkey.alt) then [AltLabel(isMac)] else [])
  }

  /** The displayed key: named keys get their sign or short name, other single characters are upper-cased. */
  function KeyLabel(key: string, isMac: bool): string
  {
    var k := Lower(key);
    if k == " " then (if isMac then "␣" else "Space")
    else if k == "escape" then "Esc"
    else if k == "enter" then (if isMac then "↩" else "Enter")
    else if k == "tab" then "Tab"
    else if k == "backspace" then "Backspace"
    else if k == "delete" then "Delete"
    else if k == "arrowup" then "↑"
    else if k == "arrowdown" then "↓"
    else if k == "arrowleft" then "←"
    else if k == "arrowright" then "→"
    else if |key| == 1 then Upper(key)
    else key
  }

  /** The shortcut's label: the modifier parts and the key, joined with '+'. */
  function FormatHotkey(hotkey: Hotkey, isMac: bool): string
  {
    Join(ModifierLabels(hotkey, isMac) + [KeyLabel(hotkey.key, isMac)], '+')
  }

  /** Upper-casing does not introduce a '+'. */
  lemma UpperKeepsPlusOut(s: string)
    requires '+' !in s
    ensures '+' !in Upper(s)
  {
    forall i | 0 <= i < |s| ensures Upper(s)[i] != '+' {
      assert s[i] != '+';
    }
  }

  /** A key without '+' gets a label without '+'. */
  lemma KeyLabelHasNoPlus(key: string, isMac: bool)
    requires '+' !in key
    ensures '+' !in KeyLabel(key, isMac)
  {
    UpperKeepsPlusOut(key);
  }

  /** A one-character key other than space is shown upper-cased, whichever case it was given in. */
  lemma KeyLabelOfCharacter(c: char, isMac: bool)
    requires c != ' '
    ensures KeyLabel([c], isMac) == [UpperChar(c)]
    ensures KeyLabel([LowerChar(c)], isMac) == KeyLabel([c], isMac)
  {
    assert Lower([c]) == [LowerChar(c)];
    assert Lower([LowerChar(c)]) == [LowerChar(LowerChar(c))];
  }

  /** The keys with a display name of their own, in lower case. */
  const NamedKeys: set<string> :=
    {" ", "escape", "enter", "tab", "backspace", "delete", "arrowup", "arrowdown", "arrowleft", "arrowright"}

  /**
   * The display rules, by the key's lower-case form: space and Enter depend
   * on the platform, Escape is shortened, the arrows become arrow signs,
   * Tab, Backspace and Delete get their capitalised names, and any other
   * key longer or shorter than one character is shown as given.
   */
  lemma KeyLabelRules(key: string, isMac: bool)
    ensures Lower(key) == " " ==> KeyLabel(key, isMac) == (if isMac then "␣" else "Space")
    ensures Lower(key) == "escape" ==> KeyLabel(key, isMac) == "Esc"
    ensures Lower(key) == "enter" ==> KeyLabel(key, isMac) == (if isMac then "↩" else "Enter")
    ensures Lower(key) == "tab" ==> KeyLabel(key, isMac) == "Tab"
    ensures Lower(key) == "backspace" ==> KeyLabel(key, isMac) == "Backspace"
    ensures Lower(key) == "delete" ==> KeyLabel(key, isMac) == "Delete"
    ensures Lower(key) == "arrowup" ==> KeyLabel(key, isMac) == "↑"
    ensures Lower(key) == "arrowdown" ==> KeyLabel(key, isMac) == "↓"
    ensures Lower(key) == "arrowleft" ==> KeyLabel(key, isMac) == "←"
    ensures Lower(key) == "arrowright" ==> KeyLabel(key, isMac) == "→"
    ensures |key| == 1 && Lower(key) !in NamedKeys ==> KeyLabel(key, isMac) == Upper(key)
    ensures |key| != 1 && Lower(key) !in NamedKeys ==> KeyLabel(key, isMac) == key
  {
  }

  /** "ESCAPE" and "escape" are both shown as "Esc", and an unnamed key such as "F5" unchanged. */
  lemma KeyLabelExamples(isMac: bool)
    ensures KeyLabel("ESCAPE", isMac) == "Esc" && KeyLabel("escape", isMac) == "Esc"
    ensures KeyLabel("F5", isMac) == "F5"
  {
    assert Lower("ESCAPE") == "escape";
    assert Lower("escape") == "escape";
    var f := Lower("F5");
    assert f[0] == 'f' && |f| == 2;
    assert f !in NamedKeys by {
      assert f != " " && f != "tab";
    }
    KeyLabelRules("F5", isMac);
  }

  /** The modifier labels contain no '+' and are pairwise different. */
  lemma ModifierLabelsDistinct(isMac: bool)
    ensures '+' !in CommandLabel(isMac) && '+' !in "Shift" && '+' !in AltLabel(isMac)
    ensures CommandLabel(isMac) != "Shift" && CommandLabel(isMac) != AltLabel(isMac) && AltLabel(isMac) != "Shift"
  {
  }

  /** Among the modifier parts the command part comes first, and only once even when both Ctrl and Cmd are set. */
  lemma ModifierLabelsOrder(hotkey: Hotkey, isMac: bool)
    ensures var mods := ModifierLabels(hotkey, isMac);
      && (forall i :: 0 <= i < |mods| ==> '+' !in mods[i])
      && (mods != [] && mods[0] == CommandLabel(isMac) <==> IsOn(hotkey.ctrl) || IsOn(hotkey.cmd))
      && (forall i :: 1 <= i < |mods| ==> mods[i] != CommandLabel(isMac))
      && ("Shift" in mods <==> IsOn(hotkey.shift))
      && (AltLabel(isMac) in mods <==> IsOn(hotkey.alt))
  {
    ModifierLabelsDistinct(isMac);
  }

  /** For a key without '+', the label splits back into its parts: the modifier parts, then the key. */
  lemma FormatHotkeySplits(hotkey: Hotkey, isMac: bool)
    requires '+' !in hotkey.key
    ensures Split(FormatHotkey(hotkey, isMac), '+') == ModifierLabels(hotkey, isMac) + [KeyLabel(hotkey.key, isMac)]
  {
    var mods := ModifierLabels(hotkey, isMac);
    var parts := mods + [KeyLabel(hotkey.key, isMac)];
    KeyLabelHasNoPlus(hotkey.key, isMac);
    ModifierLabelsOrder(hotkey, isMac);
    assert forall i :: 0 <= i < |parts| ==> '+' !in parts[i] by {
      forall i | 0 <= i < |parts| ensures '+' !in parts[i] {
        if i < |mods| { assert parts[i] == mods[i]; }
      }
    }
    SplitJoin(parts, '+');
  }

  /** The default bold shortcut reads "⌘+B" on a Mac and "Ctrl+B" elsewhere. */
  lemma FormatHotkeyBold()
    ensures FormatHotkey(DefaultHotkeys[0], true) == "⌘+B"
    ensures FormatHotkey(DefaultHotkeys[0], false) == "Ctrl+B"
  {
    assert Lower("b") == "b";
    assert Upper("b") == "B";
    assert KeyLabel("b", true) == "B" && KeyLabel("b", false) == "B";
    assert ModifierLabels(DefaultHotkeys[0], true) == ["⌘"];
    assert ModifierLabels(DefaultHotkeys[0], false) == ["Ctrl"];
    assert Join(["⌘", "B"], '+') == "⌘+B";
    assert Join(["Ctrl", "B"], '+') == "Ctrl+B";
  }

  /** The label of one part of a shortcut text. */
  function ShortcutPart(part: string, isMac: bool): string
  {
    var p := Lower(Trim(part));
    if p == "ctrl" || p == "cmd" then CommandLabel(isMac)
    else if p == "shift" then "Shift"
    else if p == "alt" then AltLabel(isMac)
    else if p == "meta" then "⌘"
    else Upper(part)
  }

  /** The modifier names a shortcut text may use, in lower case. */
  const ModifierNames: set<string> := {"ctrl", "cmd", "shift", "alt", "meta"}

  /**
   * A part is recognised by its trimmed lower-case form: Ctrl and Cmd become
   * the command label, Shift stays "Shift", Alt becomes the Alt label and
   * Meta the command sign. Any other part is upper-cased as given, untrimmed.
   */
  lemma ShortcutPartRules(part: string, isMac: bool)
    ensures Lower(Trim(part)) == "ctrl" || Lower(Trim(part)) == "cmd" ==> ShortcutPart(part, isMac) == CommandLabel(isMac)
    ensures Lower(Trim(part)) == "shift" ==> ShortcutPart(part, isMac) == "Shift"
    ensures Lower(Trim(part)) == "alt" ==> ShortcutPart(part, isMac) == AltLabel(isMac)
    ensures Lower(Trim(part)) == "meta" ==> ShortcutPart(part, isMac) == "⌘"
    ensures Lower(Trim(part)) !in ModifierNames ==> ShortcutPart(part, isMac) == Upper(part)
  {
  }

  /** A word whose ends are not white space trims back to itself from one space on either side. */
  lemma TrimPadded(m: string)
    requires m != [] && !IsJsWhitespace(m[0]) && !IsJsWhitespace(m[|m| - 1])
    ensures Trim([' '] + m + [' ']) == m
    ensures Trim([' '] + m) == m
  {
    var both := [' '] + m + [' '];
    assert both[1..] == m + [' '];
    assert TrimStart(m + [' ']) == m + [' '];
    assert (m + [' '])[..|m|] == m;
    assert TrimEnd(m + [' ']) == m;
    assert ([' '] + m)[1..] == m;
    assert TrimStart(m) == m;
  }

  /** A padded word whose lower-case form is "shift" is recognised as Shift. */
  lemma ShortcutPartOfPaddedShift(m: string, isMac: bool)
    requires m != [] && !IsJsWhitespace(m[0]) && !IsJsWhitespace(m[|m| - 1])
    requires Lower(m) == "shift"
    ensures ShortcutPart([' '] + m + [' '], isMac) == "Shift"
  {
    TrimPadded(m);
    ShortcutPartRules([' '] + m + [' '], isMac);
  }

  /** " Shift ", written as a space, "Shift" and a space, is recognised after trimming. */
  lemma ShortcutPartPaddedShift(isMac: bool)
    ensures ShortcutPart([' '] + "Shift" + [' '], isMac) == "Shift"
  {
    LowerOfShift();
    ShortcutPartOfPaddedShift("Shift", isMac);
  }

  lemma LowerOfShift()
    ensures Lower("Shift") == "shift"
  {
    assert Lower("Shift")[0] == 's';
  }

  /** A word after a space that is no modifier name is upper-cased with the space kept. */
  lemma ShortcutPartOfSpacedWord(m: string, isMac: bool)
    requires m != [] && !IsJsWhitespace(m[0]) && !IsJsWhitespace(m[|m| - 1])
    requires Lower(m) !in ModifierNames
    ensures ShortcutPart([' '] + m, isMac) == [' '] + Upper(m)
  {
    TrimPadded(m);
    ShortcutPartRules([' '] + m, isMac);
    assert Upper([' '] + m) == [' '] + Upper(m);
  }

  /** " k", a space and "k", is not a modifier, so it is upper-cased with its space kept. */
  lemma ShortcutPartSpacedKey(isMac: bool)
    ensures ShortcutPart([' '] + "k", isMac) == [' '] + "K"
  {
    CaseOfK();
    ShortcutPartOfSpacedWord("k", isMac);
  }

  lemma CaseOfK()
    ensures Lower("k") == "k" && Upper("k") == "K" && "k" !in ModifierNames
  {
    assert Lower("k")[0] == 'k';
    assert Upper("k")[0] == 'K';
  }

  /** Each '+'-separated part is relabelled. */
  function ShortcutParts(parts: seq<string>, isMac: bool): (r: seq<string>)
    ensures |r| == |parts|
    ensures forall i :: 0 <= i < |parts| ==> r[i] == ShortcutPart(parts[i], isMac)
  {
    seq(|parts|, i requires 0 <= i < |parts| => ShortcutPart(parts[i], isMac))
  }

  /** A shortcut text such as "Ctrl+Shift+K" with each part relabelled. */
  function GetShortcutText(shortcut: string, isMac: bool): string
  {
    Join(ShortcutParts(Split(shortcut, '+'), isMac), '+')
  }

  /** A part without '+' gets a label without '+'. */
  lemma ShortcutPartHasNoPlus(part: string, isMac: bool)
    requires '+' !in part
    ensures '+' !in ShortcutPart(part, isMac)
  {
    var p := Lower(Trim(part));
    ModifierLabelsDistinct(isMac);
    if p == "ctrl" || p == "cmd" || p == "shift" || p == "alt" || p == "meta" {
      assert '+' !in "⌘";
    } else {
      assert ShortcutPart(part, isMac) == Upper(part);
      UpperKeepsPlusOut(part);
    }
  }

  /** Exactly one output part per input part, each the relabelled input part. */
  lemma GetShortcutTextParts(shortcut: string, isMac: bool)
    ensures var pieces := Split(shortcut, '+');
      && Split(GetShortcutText(shortcut, isMac), '+') == ShortcutParts(pieces, isMac)
      && |Split(GetShortcutText(shortcut, isMac), '+')| == |pieces|
  {
    var pieces := Split(shortcut, '+');
    var out := ShortcutParts(pieces, isMac);
    SplitPiecesAreFree(shortcut, '+');
    forall i | 0 <= i < |out| ensures '+' !in out[i] {
      ShortcutPartHasNoPlus(pieces[i], isMac);
    }
    SplitJoin(out, '+');
  }
}
