/**
 * The application shell: opening a dropped file, the drag overlay flag, the
 * mobile breakpoint, which panes are laid out and when the scroll listeners
 * are attached.
 */
module App {
  import opened Wrappers
  import opened JsStrings
  import opened EditorTypes
  import opened EditorContext

  /** A file dropped on the window: its name and its text. */
  datatype DroppedFile = DroppedFile(name: string, content: string)

  /** The window widths, in CSS pixels, below which the layout is the mobile one. */
  const MobileBreakpoint: int := 768

  /** The message shown when no dropped file can be opened. */
  const DropRejectedMessage: string := "请拖入 .md 或 .txt 文件"

  /** A name the drop handler accepts: it ends with ".md" or ".txt". */
  predicate Droppable(name: string)
  {
    EndsWith(name, ".md") || EndsWith(name, ".txt")
  }

  /** The index of the first acceptable file, or None when there is none. */
  function FirstDroppable(files: seq<DroppedFile>): (r: Option<nat>)
    ensures r.Some? ==> r.value < |files| && Droppable(files[r.value].name)
    ensures r.Some? ==> forall j :: 0 <= j < r.value ==> !Droppable(files[j].name)
    ensures r.None? <==> forall j :: 0 <= j < |files| ==> !Droppable(files[j].name)
  {
    if files == [] then None
    else if Droppable(files[0].name) then Some(0)
    else
      match FirstDroppable(files[1..])
      case None => None
      case Some(i) => Some(i + 1)
  }

  /** A ".markdown" file is not accepted by the drop handler. */
  lemma MarkdownExtensionRejected(base: string)
    ensures !Droppable(base + ".markdown")
  {
    var s := base + ".markdown";
    assert s[|s| - 3..] == "own";
    assert s[|s| - 4..] == "down";
  }

  /** A title saved as "<title>.md" is accepted when dropped back. */
  lemma SavedFileDroppable(title: string)
    ensures Droppable(title + ".md")
  {
    var s := title + ".md";
    assert s[|s| - 3..] == ".md";
  }

  /** The panes shown. */
  datatype Pane = EditorPane | PreviewPane

  /**
   * The panes laid out: both, side by side, on a wide window; on a narrow
   * one the editor for the editor mode and the preview for every other mode.
   */
  function Layout(isMobile: bool, mode: ViewMode): (panes: seq<Pane>)
    ensures !isMobile ==> panes == [EditorPane, PreviewPane]
    ensures isMobile ==> |panes| == 1
    ensures isMobile ==> (EditorPane in panes <==> mode == EditorView)
    ensures isMobile ==> (PreviewPane in panes <==> mode != EditorView)
  {
    if !isMobile then [EditorPane, PreviewPane]
    else if mode == EditorView then [EditorPane]
    else [PreviewPane]
  }

  /**
   * Scroll listeners are attached when the editor's scroller and the
   * preview's container exist and the layout is the wide one. The editor's
   * container is only referenced in the wide layout.
   */
  function ScrollListenersBound(isMobile: bool, mode: ViewMode, hasScroller: bool): (bound: bool)
  {
    var editorContainer := !isMobile && hasScroller;
    var previewContainer := PreviewPane in Layout(isMobile, mode);
    editorContainer && previewContainer && !isMobile
  }

  /**
   * The listeners are attached exactly in the wide layout with a scroller,
   * so never on a narrow window, whatever the mode.
   */
  lemma ScrollListenersBoundOnWideLayout(isMobile: bool, mode: ViewMode, hasScroller: bool)
    ensures ScrollListenersBound(isMobile, mode, hasScroller) <==> !isMobile && hasScroller
    ensures ScrollListenersBound(isMobile, mode, hasScroller) ==> Layout(isMobile, mode) == [EditorPane, PreviewPane]
  {
  }

  /** The shell's state, over the document's store. */
  class AppShell {
    const store: EditorStore
    /** The drop overlay is shown. */
    var isDragging: bool
    var isMobile: bool
    /** The alert messages shown, oldest first. */
    var alerts: seq<string>

    ghost predicate Valid()
      reads this, store
    {
      store.Valid()
    }

    /** Mounting measures the window. */
    constructor (store: EditorStore, windowWidth: int)
      requires store.Valid()
      ensures Valid() && this.store == store
      ensures !isDragging && alerts == []
      ensures isMobile <==> windowWidth < MobileBreakpoint
    {
      this.store := store;
      isDragging := false;
      isMobile := windowWidth < MobileBreakpoint;
      alerts := [];
    }

    /** The window's resize event. */
    method Resize(windowWidth: int)
      modifies this
      ensures isMobile <==> windowWidth < MobileBreakpoint
      ensures isDragging == old(isDragging) && alerts == old(alerts)
    {
      isMobile := windowWidth < MobileBreakpoint;
    }

    method HandleDragOver()
      modifies this
      ensures isDragging
      ensures isMobile == old(isMobile) && alerts == old(alerts)
    {
      isDragging := true;
    }

    method HandleDragLeave()
      modifies this
      ensures !isDragging
      ensures isMobile == old(isMobile) && alerts == old(alerts)
    {
      isDragging := false;
    }

    /**
     * A drop hides the overlay and opens the first file named "*.md" or
     * "*.txt"; when there is none, the document is left alone and an alert
     * is shown.
     */
    method HandleDrop(files: seq<DroppedFile>)
      requires Valid()
      modifies this, store
      ensures Valid()
      ensures !isDragging && isMobile == old(isMobile)
      ensures FirstDroppable(files).None? ==>
        && store.State() == old(store.State()) && store.storage == old(store.storage)
        && alerts == old(alerts) + [DropRejectedMessage]
      ensures FirstDroppable(files).Some? ==>
        var f := files[FirstDroppable(files).value];
        && store.State() == old(store.State()).(markdown := f.content, title := OpenedTitle(f.name))
        && store.storage == old(store.storage)[MarkdownKey := f.content][TitleKey := OpenedTitle(f.name)]
        && alerts == old(alerts)
    {
      isDragging := false;
      var found := FirstDroppable(files);
      if found.Some? {
        var f := files[found.value];
        store.OpenFile(f.name, f.content);
      } else {
        alerts := alerts + [DropRejectedMessage];
      }
    }

    /** The narrow layout's two tabs select the editor or the preview; they never pass the split mode. */
    method SelectTab(mode: ViewMode)
      requires Valid()
      requires mode != SplitView
      modifies store
      ensures Valid()
      ensures store.State() == old(store.State()).(viewMode := mode)
      ensures store.storage == old(store.storage)
    {
      store.SetViewMode(mode);
    }
  }
}
