/**
 * Scroll synchronisation between the editor and the preview: a scroll of
 * one side, accepted while the other side is not itself syncing, sets a
 * flag and queues an animation frame; the frame copies the scroll ratio to
 * the other side and starts a 50 ms timer that clears the flag.
 */
module ScrollSync {
  import opened Wrappers
  import opened JsNumbers

  /** A scrollable element's vertical geometry, in CSS pixels. */
  datatype Surface = Surface(scrollTop: real, scrollHeight: real, clientHeight: real)

  /** How far the element can scroll. */
  function Range(s: Surface): real
  {
    s.scrollHeight - s.clientHeight
  }

  /** What a browser keeps true of an element: its view fits its content and the offset is in range. */
  predicate Settled(s: Surface)
  {
    0.0 <= s.clientHeight <= s.scrollHeight && 0.0 <= s.scrollTop <= Range(s)
  }

  /**
   * The scroll ratio of an element: 0 for a missing element, otherwise the
   * offset divided by the range, with neither a clamp nor a guard against a
   * zero range (where 0 / 0 is NaN).
   */
  function ScrollPercentage(e: Option<Surface>): (r: JsNumber)
    requires e.Some? ==> Settled(e.value)
    ensures e.None? ==> r == Num(0.0)
    ensures e.Some? && Range(e.value) == 0.0 ==> r.NaN?
    ensures e.Some? && Range(e.value) > 0.0 ==> r.Num? && r.value * Range(e.value) == e.value.scrollTop
    ensures r.Num? ==> 0.0 <= r.value <= 1.0
  {
    match e
    case None => Num(0.0)
    case Some(s) =>
      if Range(s) == 0.0 then NaN
      else
        var r := s.scrollTop / Range(s);
        assert r * Range(s) == s.scrollTop;
        Num(r)
  }

  /** `v` held in [lo, hi]. */
  function Clamp(v: real, lo: real, hi: real): (r: real)
    requires lo <= hi
    ensures lo <= r <= hi
    ensures lo <= v <= hi ==> r == v
  {
    if v < lo then lo else if v > hi then hi else v
  }

  /**
   * Assigning `percentage` times the range to the offset. The browser reads
   * a non-finite assignment as 0 and keeps the offset within the range.
   */
  function SetScrollPosition(s: Surface, percentage: JsNumber): (r: Surface)
    requires Settled(s)
    ensures Settled(r)
    ensures r.scrollHeight == s.scrollHeight && r.clientHeight == s.clientHeight
    ensures percentage.NaN? ==> r.scrollTop == 0.0
  {
    var target := if percentage.NaN? then 0.0 else percentage.value * Range(s);
    s.(scrollTop := Clamp(target, 0.0, Range(s)))
  }

  /** A ratio in [0, 1] puts the offset at that fraction of the range, unclamped. */
  lemma SetScrollPositionScales(s: Surface, percentage: JsNumber)
    requires Settled(s)
    requires percentage.Num? && 0.0 <= percentage.value <= 1.0
    ensures SetScrollPosition(s, percentage).scrollTop == percentage.value * Range(s)
  {
    var t := percentage.value * Range(s);
    ScaledInRange(percentage, Range(s));
    assert Clamp(t, 0.0, Range(s)) == t;
  }

  lemma ScaledInRange(percentage: JsNumber, range: real)
    requires range >= 0.0
    ensures percentage.Num? && 0.0 <= percentage.value <= 1.0 ==> 0.0 <= percentage.value * range <= range
  {
    if percentage.Num? && 0.0 <= percentage.value <= 1.0 {
      assert percentage.value * range <= 1.0 * range;
    }
  }

  /**
   * Copying a ratio makes the target's ratio the source's: offset over range
   * agree on both sides. A target that cannot scroll is left at 0.
   */
  lemma SyncIsProportional(source: Surface, target: Surface)
    requires Settled(source) && Settled(target)
    requires Range(source) > 0.0
    ensures var t := SetScrollPosition(target, ScrollPercentage(Some(source)));
      && (Range(target) > 0.0 ==> t.scrollTop / Range(target) == source.scrollTop / Range(source))
      && (Range(target) == 0.0 ==> t.scrollTop == 0.0)
  {
    var p := ScrollPercentage(Some(source));
    var t := SetScrollPosition(target, p);
    SetScrollPositionScales(target, p);
    assert t.scrollTop == p.value * Range(target);
    assert p.value == source.scrollTop / Range(source);
    if Range(target) > 0.0 {
      assert t.scrollTop / Range(target) == p.value;
    }
  }

  /** An editor 750 px down a 1500 px range puts a preview with a 600 px range at 300 px. */
  lemma SyncExample()
    ensures SetScrollPosition(Surface(0.0, 1000.0, 400.0), ScrollPercentage(Some(Surface(750.0, 2000.0, 500.0))))
      == Surface(300.0, 1000.0, 400.0)
  {
    assert ScrollPercentage(Some(Surface(750.0, 2000.0, 500.0))) == Num(0.5);
    SetScrollPositionScales(Surface(0.0, 1000.0, 400.0), Num(0.5));
  }

  /** Setting an element to its own ratio leaves it where it was. */
  lemma SelfSyncIsIdentity(s: Surface)
    requires Settled(s)
    ensures SetScrollPosition(s, ScrollPercentage(Some(s))) == s
  {
    if Range(s) > 0.0 {
      SetScrollPositionScales(s, ScrollPercentage(Some(s)));
    }
  }

  /** An element that cannot scroll has no ratio: 0 / 0 is NaN. */
  lemma ZeroRangeHasNoRatio(height: real)
    requires height >= 0.0
    ensures ScrollPercentage(Some(Surface(0.0, height, height))).NaN?
  {
  }

  /** The animation-frame callbacks the handlers queue. */
  datatype FrameCallback = EditorFrame | PreviewFrame

  /** The flag a timer clears. */
  datatype Flag = EditorFlag | PreviewFlag

  /** A pending timer: its handle and the flag it clears. */
  datatype Timer = Timer(id: nat, clears: Flag)

  /** The hook's state, with the two elements it syncs and the browser's pending callbacks. */
  class Synchronizer {
    const syncPreviewToEditor: bool
    var isEditorScrolling: bool
    var isPreviewScrolling: bool
    /** The handle of the most recently started timer; None before the first. */
    var scrollTimeout: Option<nat>
    /** The handle the browser gives the next timer; handles are positive. */
    var nextTimerId: nat
    var editor: Option<Surface>
    var preview: Option<Surface>
    /** Queued animation-frame callbacks, oldest first. */
    var frames: seq<FrameCallback>
    /** Pending timers, oldest first. */
    var timers: seq<Timer>

    ghost predicate Valid()
      reads this
    {
      && !(isEditorScrolling && isPreviewScrolling)
      && (editor.Some? ==> Settled(editor.value))
      && (preview.Some? ==> Settled(preview.value))
      && 1 <= nextTimerId
      && (scrollTimeout.Some? ==> 1 <= scrollTimeout.value < nextTimerId)
      && (forall i :: 0 <= i < |timers| ==> 1 <= timers[i].id < nextTimerId)
      && (!syncPreviewToEditor ==>
            && !isPreviewScrolling
            && PreviewFrame !in frames
            && forall i :: 0 <= i < |timers| ==> timers[i].clears == EditorFlag)
    }

    constructor (syncPreviewToEditor: bool, editor: Option<Surface>, preview: Option<Surface>)
      requires editor.Some? ==> Settled(editor.value)
      requires preview.Some? ==> Settled(preview.value)
      ensures Valid()
      ensures this.syncPreviewToEditor == syncPreviewToEditor
      ensures this.editor == editor && this.preview == preview
      ensures !isEditorScrolling && !isPreviewScrolling
      ensures scrollTimeout.None? && frames == [] && timers == []
    {
      this.syncPreviewToEditor := syncPreviewToEditor;
      isEditorScrolling, isPreviewScrolling := false, false;
      scrollTimeout, nextTimerId := None, 1;
      this.editor, this.preview := editor, preview;
      frames, timers := [], [];
    }

    /**
     * A scroll of the editor: ignored while the preview is syncing or an
     * element is missing; otherwise it sets the editor's flag and queues the
     * editor's frame.
     */
    method HandleEditorScroll()
      requires Valid()
      modifies this
      ensures Valid()
      ensures old(isPreviewScrolling || editor.None? || preview.None?) ==>
        && isEditorScrolling == old(isEditorScrolling) && frames == old(frames)
      ensures !old(isPreviewScrolling || editor.None? || preview.None?) ==>
        && isEditorScrolling && frames == old(frames) + [EditorFrame]
      ensures isPreviewScrolling == old(isPreviewScrolling)
      ensures scrollTimeout == old(scrollTimeout) && nextTimerId == old(nextTimerId) && timers == old(timers)
      ensures editor == old(editor) && preview == old(preview)
    {
      if isPreviewScrolling || editor.None? || preview.None? {
        return;
      }
      isEditorScrolling := true;
      frames := frames + [EditorFrame];
    }

    /**
     * A scroll of the preview: ignored unless syncing towards the editor is
     * on, the editor is not syncing and both elements exist; otherwise it
     * sets the preview's flag and queues the preview's frame.
     */
    method HandlePreviewScroll()
      requires Valid()
      modifies this
      ensures Valid()
      ensures old(!syncPreviewToEditor || isEditorScrolling || editor.None? || preview.None?) ==>
        && isPreviewScrolling == old(isPreviewScrolling) && frames == old(frames)
      ensures !old(!syncPreviewToEditor || isEditorScrolling || editor.None? || preview.None?) ==>
        && isPreviewScrolling && frames == old(frames) + [PreviewFrame]
      ensures isEditorScrolling == old(isEditorScrolling)
      ensures scrollTimeout == old(scrollTimeout) && nextTimerId == old(nextTimerId) && timers == old(timers)
      ensures editor == old(editor) && preview == old(preview)
    {
      if !syncPreviewToEditor || isEditorScrolling || editor.None? || preview.None? {
        return;
      }
      isPreviewScrolling := true;
      frames := frames + [PreviewFrame];
    }

    /** Starts a 50 ms timer clearing `flag` and remembers its handle. */
    method StartTimer(flag: Flag)
      requires Valid()
      requires !syncPreviewToEditor ==> flag == EditorFlag
      modifies this
      ensures Valid()
      ensures timers == old(timers) + [Timer(old(nextTimerId), flag)]
      ensures scrollTimeout == Some(old(nextTimerId)) && nextTimerId == old(nextTimerId) + 1
      ensures isEditorScrolling == old(isEditorScrolling) && isPreviewScrolling == old(isPreviewScrolling)
      ensures editor == old(editor) && preview == old(preview) && frames == old(frames)
    {
      timers := timers + [Timer(nextTimerId, flag)];
      scrollTimeout := Some(nextTimerId);
      nextTimerId := nextTimerId + 1;
    }

    /**
     * The browser runs the oldest queued frame. The editor's frame writes
     * only the preview's offset, the preview's frame only the editor's,
     * each from the other side's ratio, then starts the timer. When the
     * element to write is missing the callback throws before writing or
     * starting a timer, and its flag stays set.
     */
    method Frame()
      requires Valid() && frames != []
      modifies this
      ensures Valid()
      ensures frames == old(frames[1..])
      ensures isEditorScrolling == old(isEditorScrolling) && isPreviewScrolling == old(isPreviewScrolling)
      ensures old(frames[0]) == EditorFrame ==> editor == old(editor)
      ensures old(frames[0]) == EditorFrame && old(preview).None? ==>
        && preview == old(preview) && timers == old(timers) && scrollTimeout == old(scrollTimeout)
      ensures old(frames[0]) == EditorFrame && old(preview).Some? ==>
        && preview == Some(SetScrollPosition(old(preview).value, ScrollPercentage(old(editor))))
        && timers == old(timers) + [Timer(old(nextTimerId), EditorFlag)]
        && scrollTimeout == Some(old(nextTimerId))
      ensures old(frames[0]) == PreviewFrame ==> preview == old(preview)
      ensures old(frames[0]) == PreviewFrame && old(editor).None? ==>
        && editor == old(editor) && timers == old(timers) && scrollTimeout == old(scrollTimeout)
      ensures old(frames[0]) == PreviewFrame && old(editor).Some? ==>
        && editor == Some(SetScrollPosition(old(editor).value, ScrollPercentage(old(preview))))
        && timers == old(timers) + [Timer(old(nextTimerId), PreviewFlag)]
        && scrollTimeout == Some(old(nextTimerId))
    {
      var callback := frames[0];
      frames := frames[1..];
      match callback
      case EditorFrame =>
        var percentage := ScrollPercentage(editor);
        if preview.Some? {
          preview := Some(SetScrollPosition(preview.value, percentage));
          StartTimer(EditorFlag);
        }
      case PreviewFrame =>
        assert syncPreviewToEditor by {
          assert old(frames)[0] in old(frames);
        }
        var percentage := ScrollPercentage(preview);
        if editor.Some? {
          editor := Some(SetScrollPosition(editor.value, percentage));
          StartTimer(PreviewFlag);
        }
    }

    /** The browser fires the oldest pending timer, which clears its flag. */
    method Timeout()
      requires Valid() && timers != []
      modifies this
      ensures Valid()
      ensures timers == old(timers[1..])
      ensures old(timers[0].clears) == EditorFlag ==> !isEditorScrolling && isPreviewScrolling == old(isPreviewScrolling)
      ensures old(timers[0].clears) == PreviewFlag ==> !isPreviewScrolling && isEditorScrolling == old(isEditorScrolling)
      ensures scrollTimeout == old(scrollTimeout) && nextTimerId == old(nextTimerId)
      ensures editor == old(editor) && preview == old(preview) && frames == old(frames)
    {
      var t := timers[0];
      timers := timers[1..];
      match t.clears
      case EditorFlag => isEditorScrolling := false;
      case PreviewFlag => isPreviewScrolling := false;
    }

    /** The user scrolls the editor to `top`. */
    method ScrollEditor(top: real)
      requires Valid() && editor.Some?
      requires 0.0 <= top <= Range(editor.value)
      modifies this
      ensures Valid()
      ensures editor == Some(old(editor).value.(scrollTop := top))
      ensures isEditorScrolling == old(isEditorScrolling) && isPreviewScrolling == old(isPreviewScrolling)
      ensures scrollTimeout == old(scrollTimeout) && nextTimerId == old(nextTimerId)
      ensures preview == old(preview) && frames == old(frames) && timers == old(timers)
    {
      editor := Some(editor.value.(scrollTop := top));
    }

    /** The user scrolls the preview to `top`. */
    method ScrollPreview(top: real)
      requires Valid() && preview.Some?
      requires 0.0 <= top <= Range(preview.value)
      modifies this
      ensures Valid()
      ensures preview == Some(old(preview).value.(scrollTop := top))
      ensures isEditorScrolling == old(isEditorScrolling) && isPreviewScrolling == old(isPreviewScrolling)
      ensures scrollTimeout == old(scrollTimeout) && nextTimerId == old(nextTimerId)
      ensures editor == old(editor) && frames == old(frames) && timers == old(timers)
    {
      preview := Some(preview.value.(scrollTop := top));
    }

    /** Unmounting cancels the most recently started timer, if any; earlier ones still fire. */
    method Cleanup()
      requires Valid()
      modifies this
      ensures Valid()
      ensures old(scrollTimeout).None? ==> timers == old(timers)
      ensures old(scrollTimeout).Some? ==> timers == WithoutTimer(old(timers), old(scrollTimeout).value)
      ensures isEditorScrolling == old(isEditorScrolling) && isPreviewScrolling == old(isPreviewScrolling)
      ensures scrollTimeout == old(scrollTimeout) && nextTimerId == old(nextTimerId)
      ensures editor == old(editor) && preview == old(preview) && frames == old(frames)
    {
      if scrollTimeout.Some? {
        timers := WithoutTimer(timers, scrollTimeout.value);
      }
    }
  }

  /** The ratio read from an element that does not scroll sends any element it is copied to to the top. */
  lemma NonScrollingSourceResetsTarget(height: real, target: Surface)
    requires height >= 0.0 && Settled(target)
    ensures SetScrollPosition(target, ScrollPercentage(Some(Surface(0.0, height, height)))) == target.(scrollTop := 0.0)
  {
  }

  /**
   * Elements that do not scroll themselves, such as wrappers whose scrolling
   * happens in a child (range 0, offset 0), synced once: the editor's turn is
   * taken and a frame queued, but the frame writes offset 0 to the preview,
   * since the editor's ratio is 0 / 0, whatever the heights.
   */
  method SyncThroughWrappers(editorHeight: real, previewHeight: real) returns (previewTop: real, queued: bool)
    requires editorHeight >= 0.0 && previewHeight >= 0.0
    ensures queued
    ensures previewTop == 0.0
  {
    var sync := new Synchronizer(false, Some(Surface(0.0, editorHeight, editorHeight)),
                                 Some(Surface(0.0, previewHeight, previewHeight)));
    sync.HandleEditorScroll();
    queued := sync.frames == [EditorFrame];
    sync.Frame();
    previewTop := sync.preview.value.scrollTop;
  }

  /** The pending timers without the one with handle `id`. */
  function WithoutTimer(timers: seq<Timer>, id: nat): (r: seq<Timer>)
    ensures forall i :: 0 <= i < |r| ==> r[i] in timers && r[i].id != id
    ensures forall i :: 0 <= i < |timers| && timers[i].id != id ==> timers[i] in r
  {
    if timers == [] then []
    else if timers[0].id == id then WithoutTimer(timers[1..], id)
    else [timers[0]] + WithoutTimer(timers[1..], id)
  }
}
