/**
 * The draggable divider between the editor and the preview: a pointer-down
 * captures the drag's geometry, every move publishes a clamped position,
 * and a release detaches the drag's listeners.
 */
module ResizableSplit {
  import opened Wrappers
  import opened JsNumbers
  import opened EditorContext

  /** The two pointer families, each with its own down, move and up events. */
  datatype PointerKind = Mouse | Touch

  /**
   * What one pointer-down captures: the pointer family, the starting x, the
   * container's width and the divider's starting offset in pixels.
   */
  datatype DragSession = DragSession(kind: PointerKind, startX: real, width: real, startOffset: JsNumber)

  /**
   * The divider's offset, in pixels, for a position in percent of `width`:
   * a position in [0, 100] lies within the container, and the offset read as
   * a percentage of a positive width is the position again.
   */
  function StartOffset(width: real, position: JsNumber): (r: JsNumber)
    ensures r.NaN? <==> position.NaN?
    ensures r.Num? ==> r.value == width * (position.value / 100.0)
    ensures width >= 0.0 && position.Num? && 0.0 <= position.value <= 100.0 ==> 0.0 <= r.value <= width
    ensures width > 0.0 && r.Num? ==> r.value / width * 100.0 == position.value
  {
    match position
    case NaN => NaN
    case Num(p) =>
      var offset := width * (p / 100.0);
      assert width > 0.0 ==> offset / width == p / 100.0;
      assert 0.0 <= width && 0.0 <= p <= 100.0 ==> width * (p / 100.0) <= width * 1.0;
      Num(offset)
  }

  /** The unclamped position, in percent, for the pointer at `x`. */
  function RawPercentage(s: DragSession, x: real): (r: JsNumber)
    requires s.width > 0.0
    ensures r.NaN? <==> s.startOffset.NaN?
  {
    match s.startOffset
    case NaN => NaN
    case Num(offset) => Num((offset + (x - s.startX)) / s.width * 100.0)
  }

  /** The position a move to `x` publishes: the raw percentage held in [30, 70]. */
  function DragPosition(s: DragSession, x: real): JsNumber
    requires s.width > 0.0
  {
    MathMax(Num(30.0), MathMin(Num(70.0), RawPercentage(s, x)))
  }

  /** A move publishes a position in [30, 70], or NaN when the drag started from NaN. */
  lemma DragPositionInRange(s: DragSession, x: real)
    requires s.width > 0.0
    ensures s.startOffset.Num? ==> DragPosition(s, x).Num? && 30.0 <= DragPosition(s, x).value <= 70.0
    ensures s.startOffset.NaN? ==> DragPosition(s, x).NaN?
  {
  }

  /** The published position is what the store keeps: setting it clamps nothing further. */
  lemma DragPositionIsClamped(s: DragSession, x: real)
    requires s.width > 0.0
    ensures ClampSplit(DragPosition(s, x)) == DragPosition(s, x)
    ensures DragPosition(s, x) == ClampSplit(RawPercentage(s, x))
  {
    DragPositionInRange(s, x);
  }

  /** Without movement, a drag started at a position in [30, 70] publishes that position. */
  lemma DragPositionAtStart(kind: PointerKind, x: real, width: real, p: real)
    requires width > 0.0
    requires 30.0 <= p <= 70.0
    ensures DragPosition(DragSession(kind, x, width, StartOffset(width, Num(p))), x) == Num(p)
  {
    var offset := width * (p / 100.0);
    assert offset / width == p / 100.0;
    assert (offset + (x - x)) / width * 100.0 == p;
  }

  /** Moving the pointer further right never moves the divider left. */
  lemma DragPositionMonotone(s: DragSession, x1: real, x2: real)
    requires s.width > 0.0 && s.startOffset.Num?
    requires x1 <= x2
    ensures DragPosition(s, x1).value <= DragPosition(s, x2).value
  {
    var a := s.startOffset.value + (x1 - s.startX);
    var b := s.startOffset.value + (x2 - s.startX);
    assert a <= b;
    assert a / s.width <= b / s.width;
    assert a / s.width * 100.0 <= b / s.width * 100.0;
  }

  /** The two panes' widths, in percent: the position and its complement. */
  function PaneWidths(position: JsNumber): (widths: (JsNumber, JsNumber))
    ensures position.Num? ==> widths.0.Num? && widths.1.Num? && widths.0.value + widths.1.value == 100.0
    ensures widths.0 == position
    ensures position.NaN? ==> widths.1.NaN?
  {
    match position
    case NaN => (NaN, NaN)
    case Num(p) => (Num(p), Num(100.0 - p))
  }

  /** The sessions of one pointer family, which its move and up events reach. */
  function SessionsOf(sessions: seq<DragSession>, kind: PointerKind): (r: seq<DragSession>)
    ensures |r| <= |sessions|
    ensures forall i :: 0 <= i < |r| ==> r[i].kind == kind && r[i] in sessions
    ensures forall i :: 0 <= i < |sessions| && sessions[i].kind == kind ==> sessions[i] in r
  {
    if sessions == [] then []
    else if sessions[0].kind == kind then [sessions[0]] + SessionsOf(sessions[1..], kind)
    else SessionsOf(sessions[1..], kind)
  }

  /** The sessions of the other family, which a release of `kind` leaves attached. */
  function SessionsNotOf(sessions: seq<DragSession>, kind: PointerKind): (r: seq<DragSession>)
    ensures |r| <= |sessions|
    ensures forall i :: 0 <= i < |r| ==> r[i].kind != kind && r[i] in sessions
    ensures forall i :: 0 <= i < |sessions| && sessions[i].kind != kind ==> sessions[i] in r
  {
    if sessions == [] then []
    else if sessions[0].kind != kind then [sessions[0]] + SessionsNotOf(sessions[1..], kind)
    else SessionsNotOf(sessions[1..], kind)
  }

  /**
   * The position that stands after a move event reached the attached
   * sessions in order: the last one of that family's, or `current` when
   * none of them is of that family.
   */
  function PositionAfterMove(sessions: seq<DragSession>, kind: PointerKind, x: real, current: JsNumber): JsNumber
    requires forall i :: 0 <= i < |sessions| ==> sessions[i].width > 0.0
  {
    if sessions == [] then current
    else
      var last := sessions[|sessions| - 1];
      if last.kind == kind then DragPosition(last, x)
      else PositionAfterMove(sessions[..|sessions| - 1], kind, x, current)
  }

  /** After a move the store holds the newest same-family session's position, or its old value. */
  lemma {:induction false} PositionAfterMoveIsLast(sessions: seq<DragSession>, kind: PointerKind, x: real, current: JsNumber)
    requires forall i :: 0 <= i < |sessions| ==> sessions[i].width > 0.0
    ensures SessionsOf(sessions, kind) == [] ==> PositionAfterMove(sessions, kind, x, current) == current
    ensures SessionsOf(sessions, kind) != [] ==>
      var own := SessionsOf(sessions, kind);
      PositionAfterMove(sessions, kind, x, current) == DragPosition(own[|own| - 1], x)
  {
    if sessions != [] {
      var init := sessions[..|sessions| - 1];
      var last := sessions[|sessions| - 1];
      SessionsOfAppend(init, last, kind);
      assert init + [last] == sessions;
      PositionAfterMoveIsLast(init, kind, x, current);
    }
  }

  lemma {:induction false} SessionsOfAppend(init: seq<DragSession>, last: DragSession, kind: PointerKind)
    ensures SessionsOf(init + [last], kind) == SessionsOf(init, kind) + (if last.kind == kind then [last] else [])
  {
    if init == [] {
      assert ([] + [last])[1..] == [];
    } else {
      assert (init + [last])[1..] == init[1..] + [last];
      SessionsOfAppend(init[1..], last, kind);
    }
  }

  /**
   * The position after mounting: a non-empty saved value parsed and clamped,
   * which gives NaN or a whole number in [30, 70]; otherwise `current`.
   */
  function RestoredPosition(storage: map<string, string>, current: JsNumber): (r: JsNumber)
    ensures SplitKey !in storage ==> r == current
    ensures SplitKey in storage && storage[SplitKey] == [] ==> r == current
    ensures SplitKey in storage && storage[SplitKey] != [] ==> r == ClampSplit(ParseInt(storage[SplitKey]))
    ensures SplitKey in storage && storage[SplitKey] != [] ==>
      r.NaN? || (30.0 <= r.value <= 70.0 && r.value == r.value.Floor as real)
  {
    var saved := GetItem(storage, SplitKey);
    if saved.Some? && saved.value != [] then ClampSplit(ParseInt(saved.value)) else current
  }

  /** Writing back the saved position changes nothing in storage that mirrors the state. */
  lemma RewriteKeepsStorage(storage: map<string, string>, s: EditorState)
    requires Mirrors(storage, s)
    ensures storage[SplitKey := NumberToString(s.splitPosition)] == storage
  {
  }

  /**
   * Mounting over a store whose storage mirrors it leaves the storage as it
   * was, and a saved position in [30, 70] is the one kept.
   */
  lemma RestoreKeepsMirroredPosition(storage: map<string, string>, s: EditorState)
    requires Mirrors(storage, s)
    requires s.splitPosition.Num? && s.splitPosition.value == s.splitPosition.value.Floor as real
    requires 30.0 <= s.splitPosition.value <= 70.0
    ensures RestoredPosition(storage, s.splitPosition) == s.splitPosition
  {
    var text := NumberToString(s.splitPosition);
    ParseIntOfNumberToString(s.splitPosition);
    assert Truncate(s.splitPosition.value) as real == s.splitPosition.value;
    assert text != [];
  }

  /** The divider component, over the document's store. */
  class SplitView {
    const store: EditorStore
    /** The container's width, or None while the container is not mounted. */
    const container: Option<real>
    var isDragging: bool
    /** The drags whose move and up listeners are attached to the document, oldest first. */
    var sessions: seq<DragSession>

    ghost predicate Valid()
      reads this, store
    {
      && store.Valid()
      && (container.Some? ==> container.value > 0.0)
      && (forall i :: 0 <= i < |sessions| ==> sessions[i].width > 0.0)
    }

    /**
     * Mounting restores a non-empty saved position through the store's
     * setter, which clamps it, then writes the position back to storage.
     */
    constructor (store: EditorStore, container: Option<real>)
      requires store.Valid()
      requires container.Some? ==> container.value > 0.0
      modifies store
      ensures Valid() && this.store == store && this.container == container
      ensures !isDragging && sessions == []
      ensures store.State() == old(store.State()).(splitPosition := RestoredPosition(old(store.storage), old(store.splitPosition)))
      ensures store.storage == old(store.storage)[SplitKey := NumberToString(store.splitPosition)]
    {
      this.store := store;
      this.container := container;
      isDragging := false;
      sessions := [];
      new;
      var saved := GetItem(store.storage, SplitKey);
      if saved.Some? && saved.value != [] {
        store.SetSplitPosition(ParseInt(saved.value));
      }
      RewriteKeepsStorage(store.storage, store.State());
      store.storage := store.storage[SplitKey := NumberToString(store.splitPosition)];
    }

    /**
     * A pointer-down on the divider starts dragging; when the container is
     * mounted it captures the drag and attaches its listeners.
     */
    method PointerDown(kind: PointerKind, x: real)
      requires Valid()
      modifies this
      ensures Valid()
      ensures isDragging
      ensures container.None? ==> sessions == old(sessions)
      ensures container.Some? ==>
        sessions == old(sessions) + [DragSession(kind, x, container.value, StartOffset(container.value, store.splitPosition))]
    {
      isDragging := true;
      if container.Some? {
        var w := container.value;
        sessions := sessions + [DragSession(kind, x, w, StartOffset(w, store.splitPosition))];
      }
    }

    /**
     * A move reaches every attached listener of its family, oldest first,
     * each publishing its own drag's position through the store's setter.
     */
    method PointerMove(kind: PointerKind, x: real)
      requires Valid()
      modifies store
      ensures Valid()
      ensures store.State() == old(store.State()).(splitPosition := PositionAfterMove(sessions, kind, x, old(store.splitPosition)))
      ensures store.storage == old(store.storage)[SplitKey := NumberToString(store.splitPosition)]
    {
      var i := 0;
      while i < |sessions|
        invariant 0 <= i <= |sessions|
        invariant store.Valid()
        invariant store.State() == old(store.State()).(splitPosition := PositionAfterMove(sessions[..i], kind, x, old(store.splitPosition)))
        invariant store.storage == old(store.storage)[SplitKey := NumberToString(store.splitPosition)]
      {
        assert sessions[..i + 1][..i] == sessions[..i];
        if sessions[i].kind == kind {
          DragPositionIsClamped(sessions[i], x);
          store.SetSplitPosition(DragPosition(sessions[i], x));
        }
        i := i + 1;
      }
      assert sessions[..i] == sessions;
    }

    /**
     * A release reaches the listeners of its family: it stops dragging and
     * detaches them. With none attached, nothing happens.
     */
    method PointerUp(kind: PointerKind)
      requires Valid()
      modifies this
      ensures Valid()
      ensures SessionsOf(old(sessions), kind) == [] ==> isDragging == old(isDragging) && sessions == old(sessions)
      ensures SessionsOf(old(sessions), kind) != [] ==> !isDragging && sessions == SessionsNotOf(old(sessions), kind)
    {
      if SessionsOf(sessions, kind) != [] {
        isDragging := false;
        sessions := SessionsNotOf(sessions, kind);
      }
    }
  }
}
