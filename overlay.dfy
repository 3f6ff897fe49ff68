/** The region-selection overlay (`src/components/Overlay.tsx`): the user
    drags out a rectangle on a screenshot, can move it or pull one of its
    eight handles, and confirms or cancels with the keyboard. Coordinates
    are integers (client pixels). */
module Overlay {
  import opened Wrappers

  /** `type Mode`; `Idle` is the mode written `'none'`. */
  datatype Mode = Idle | Selecting | Selected | Moving | Resizing

  /** `type ResizeHandle`: the compass point of the handle. */
  datatype Handle = N | S | E | W | NE | NW | SE | SW

  datatype Point = Point(x: int, y: int)

  /** `interface Selection`: the top-left corner and the size. */
  datatype Rect = Rect(x: int, y: int, w: int, h: int)

  /** The smallest width and height a resize leaves. */
  const MIN_SIZE: int := 10

  // ---------------------------------------------------------------------
  // Geometry

  function Min(a: int, b: int): int { if a <= b then a else b }
  function Max(a: int, b: int): int { if a >= b then a else b }
  function Abs(a: int): int { if a >= 0 then a else -a }

  /** The hit test of `handleMouseDown`, bounds included. */
  predicate Inside(r: Rect, p: Point) {
    r.x <= p.x <= r.x + r.w && r.y <= p.y <= r.y + r.h
  }

  /** The rectangle spanned while selecting, from the drag start to the
      pointer. */
  function Span(start: Point, current: Point): Rect {
    Rect(Min(start.x, current.x), Min(start.y, current.y), Abs(current.x - start.x), Abs(current.y - start.y))
  }

  /** Whether `p` is one of the four corners of `r`. */
  predicate IsCorner(r: Rect, p: Point) {
    (p.x == r.x || p.x == r.x + r.w) && (p.y == r.y || p.y == r.y + r.h)
  }

  /** The spanned rectangle has a non-negative size and the drag start and
      the pointer at opposite corners; it does not depend on the direction
      of the drag. */
  lemma SpanHasEndsAsCorners(start: Point, current: Point)
    ensures var r := Span(start, current);
            && r.w >= 0 && r.h >= 0
            && IsCorner(r, start) && IsCorner(r, current)
            && (start.x == r.x <==> current.x == r.x + r.w)
            && (start.y == r.y <==> current.y == r.y + r.h)
            && r == Span(current, start)
  {
  }

  /** The rectangle `s` moved by `(dx, dy)`. */
  function Translate(s: Rect, dx: int, dy: int): Rect {
    Rect(s.x + dx, s.y + dy, s.w, s.h)
  }

  /** Moving keeps the size, and moving back restores the rectangle. */
  lemma TranslateKeepsSize(s: Rect, dx: int, dy: int)
    ensures Translate(s, dx, dy).w == s.w && Translate(s, dx, dy).h == s.h
    ensures Translate(Translate(s, dx, dy), -dx, -dy) == s
    ensures Inside(s, Point(0, 0)) <==> Inside(Translate(s, dx, dy), Point(dx, dy))
  {
  }

  /** The handle's name, as the `ResizeHandle` string. */
  function HandleName(h: Handle): string {
    match h
    case N => "n" case S => "s" case E => "e" case W => "w"
    case NE => "ne" case NW => "nw" case SE => "se" case SW => "sw"
  }

  /** `h.includes(c)` for a one-letter direction. */
  predicate Pulls(h: Handle, c: char) {
    c in HandleName(h)
  }

  /** The rectangle `s` resized by dragging handle `h` by `(dx, dy)`: the
      `e` and `s` sides follow the pointer, the `w` and `n` sides follow it
      with the opposite side held, and no side pulled goes below 10. */
  function Resize(s: Rect, h: Handle, dx: int, dy: int): Rect {
    var w1 := if Pulls(h, 'e') then Max(MIN_SIZE, s.w + dx) else s.w;
    var h1 := if Pulls(h, 's') then Max(MIN_SIZE, s.h + dy) else s.h;
    var (x2, w2) := if Pulls(h, 'w') then
                      var w := Max(MIN_SIZE, s.w - dx); (s.x + (s.w - w), w)
                    else (s.x, w1);
    var (y2, h2) := if Pulls(h, 'n') then
                      var hh := Max(MIN_SIZE, s.h - dy); (s.y + (s.h - hh), hh)
                    else (s.y, h1);
    Rect(x2, y2, w2, h2)
  }

  /** A handle pulls east or west, north or south, or neither, never both. */
  lemma HandleDirections(h: Handle)
    ensures !(Pulls(h, 'e') && Pulls(h, 'w')) && !(Pulls(h, 'n') && Pulls(h, 's'))
    ensures Pulls(h, 'e') || Pulls(h, 'w') || Pulls(h, 'n') || Pulls(h, 's')
  {
    match h
    case N => case S => case E => case W =>
    case NE => case NW => case SE => case SW =>
  }

  /** The horizontal effect of a resize: the east side follows the pointer
      with the west side fixed, the west side follows it with the east side
      fixed, each at least 10 wide; a handle naming neither leaves the
      horizontal extent alone. */
  lemma ResizeHorizontal(s: Rect, h: Handle, dx: int, dy: int)
    ensures var r := Resize(s, h, dx, dy);
            && (Pulls(h, 'e') ==> r.x == s.x && r.w == Max(MIN_SIZE, s.w + dx))
            && (Pulls(h, 'w') ==> r.x + r.w == s.x + s.w && r.w == Max(MIN_SIZE, s.w - dx))
            && (!Pulls(h, 'e') && !Pulls(h, 'w') ==> r.x == s.x && r.w == s.w)
  {
    HandleDirections(h);
  }

  /** The vertical effect of a resize, as for the horizontal one. */
  lemma ResizeVertical(s: Rect, h: Handle, dx: int, dy: int)
    ensures var r := Resize(s, h, dx, dy);
            && (Pulls(h, 's') ==> r.y == s.y && r.h == Max(MIN_SIZE, s.h + dy))
            && (Pulls(h, 'n') ==> r.y + r.h == s.y + s.h && r.h == Max(MIN_SIZE, s.h - dy))
            && (!Pulls(h, 's') && !Pulls(h, 'n') ==> r.y == s.y && r.h == s.h)
  {
    HandleDirections(h);
  }

  /** A resize never makes a rectangle of at least 10 by 10 smaller than that. */
  lemma ResizeKeepsMinimum(s: Rect, h: Handle, dx: int, dy: int)
    requires s.w >= MIN_SIZE && s.h >= MIN_SIZE
    ensures Resize(s, h, dx, dy).w >= MIN_SIZE && Resize(s, h, dx, dy).h >= MIN_SIZE
  {
    ResizeHorizontal(s, h, dx, dy);
    ResizeVertical(s, h, dx, dy);
  }

  /** The size a finished drag must exceed to become a selection. */
  predicate Accepted(r: Rect) {
    r.w > MIN_SIZE && r.h > MIN_SIZE
  }

  // ---------------------------------------------------------------------
  // The component's state and its event handlers

  /** What a key press asks of the surrounding window. */
  datatype KeyAction = CloseOverlay | ConfirmSelection | NoAction

  /** The component's state (`mode`, `selection`, `processing`) and its
      drag refs (`startPos`, `startSelection`, `activeHandle`). */
  class OverlayState {
    var mode: Mode
    var selection: Option<Rect>
    var processing: bool
    var startPos: Option<Point>
    var startSelection: Option<Rect>
    var activeHandle: Option<Handle>

    /** What every handler keeps: no rectangle without a mode; while
        selecting, the rectangle has the drag start as a corner; a
        selection in place is at least 10 by 10; a move keeps the size it
        started from; a resize has its handle and its starting rectangle. */
    predicate Valid()
      reads this
    {
      && (mode == Idle ==> selection.None?)
      && (mode == Selecting ==>
            selection.Some? && startPos.Some?
            && selection.value.w >= 0 && selection.value.h >= 0
            && IsCorner(selection.value, startPos.value))
      && (mode == Selected ==>
            selection.Some? && selection.value.w >= MIN_SIZE && selection.value.h >= MIN_SIZE)
      && (mode == Moving ==>
            selection.Some? && startPos.Some? && startSelection.Some?
            && startSelection.value.w >= MIN_SIZE && startSelection.value.h >= MIN_SIZE
            && selection.value.w == startSelection.value.w && selection.value.h == startSelection.value.h)
      && (mode == Resizing ==>
            selection.Some? && startPos.Some? && startSelection.Some? && activeHandle.Some?
            && startSelection.value.w >= MIN_SIZE && startSelection.value.h >= MIN_SIZE
            && selection.value.w >= MIN_SIZE && selection.value.h >= MIN_SIZE)
    }

    /** The initial render: nothing selected, no drag. */
    constructor ()
      ensures Valid()
      ensures mode == Idle && selection == None && !processing
      ensures startPos == None && startSelection == None && activeHandle == None
    {
      mode := Idle;
      selection := None;
      processing := false;
      startPos := None;
      startSelection := None;
      activeHandle := None;
    }

    /** `handleMouseDown`: ignored while processing or for any button but
        the left one; a press inside the selection starts a move; any other
        press starts a new, empty selection at the pointer. */
    method MouseDown(button: int, p: Point)
      requires Valid()
      modifies this
      ensures Valid()
      ensures processing == old(processing) && activeHandle == old(activeHandle)
      ensures old(processing) || button != 0 ==>
                mode == old(mode) && selection == old(selection)
                && startPos == old(startPos) && startSelection == old(startSelection)
      ensures !old(processing) && button == 0 && old(mode) == Selected && Inside(old(selection).value, p) ==>
                mode == Moving && selection == old(selection)
                && startPos == Some(p) && startSelection == old(selection)
      ensures !old(processing) && button == 0 && !(old(mode) == Selected && Inside(old(selection).value, p)) ==>
                mode == Selecting && selection == Some(Rect(p.x, p.y, 0, 0))
                && startPos == Some(p) && startSelection == old(startSelection)
    {
      if processing {
        return;
      }
      if button != 0 {
        return;
      }
      if selection.Some? && mode == Selected {
        var s := selection.value;
        if p.x >= s.x && p.x <= s.x + s.w && p.y >= s.y && p.y <= s.y + s.h {
          mode := Moving;
          startPos := Some(p);
          startSelection := Some(s);
          return;
        }
      }
      mode := Selecting;
      selection := Some(Rect(p.x, p.y, 0, 0));
      startPos := Some(p);
    }

    /** `handleHandleMouseDown` on handle `h`: the handles exist only
        around a selection in place. Starts a resize from the current
        rectangle unless processing. */
    method HandleMouseDown(h: Handle, p: Point)
      requires Valid() && mode == Selected
      modifies this
      ensures Valid()
      ensures selection == old(selection) && processing == old(processing)
      ensures old(processing) ==>
                mode == old(mode) && startPos == old(startPos)
                && startSelection == old(startSelection) && activeHandle == old(activeHandle)
      ensures !old(processing) ==>
                mode == Resizing && activeHandle == Some(h)
                && startPos == Some(p) && startSelection == old(selection)
    {
      if processing || selection.None? {
        return;
      }
      mode := Resizing;
      activeHandle := Some(h);
      startPos := Some(p);
      startSelection := selection;
    }

    /** `handleMouseMove`: while selecting, the rectangle spans the drag
        start and the pointer; while moving, it is the starting rectangle
        moved by the pointer's offset; while resizing, the starting
        rectangle resized by that offset. Otherwise nothing changes. */
    method MouseMove(p: Point)
      requires Valid()
      modifies this
      ensures Valid()
      ensures mode == old(mode) && processing == old(processing) && startPos == old(startPos)
      ensures startSelection == old(startSelection) && activeHandle == old(activeHandle)
      ensures old(mode) == Idle || old(startPos).None? ==> selection == old(selection)
      ensures old(mode) == Selecting ==> selection == Some(Span(old(startPos).value, p))
      ensures old(mode) == Moving ==>
                selection == Some(Translate(old(startSelection).value,
                                            p.x - old(startPos).value.x, p.y - old(startPos).value.y))
      ensures old(mode) == Resizing ==>
                selection == Some(Resize(old(startSelection).value, old(activeHandle).value,
                                         p.x - old(startPos).value.x, p.y - old(startPos).value.y))
      ensures old(mode) == Selected ==> selection == old(selection)
    {
      if mode == Idle || startPos.None? {
        return;
      }
      var start := startPos.value;
      if mode == Selecting {
        selection := Some(Span(start, p));
        SpanHasEndsAsCorners(start, p);
      } else if mode == Moving && startSelection.Some? {
        var dx := p.x - start.x;
        var dy := p.y - start.y;
        selection := Some(Translate(startSelection.value, dx, dy));
      } else if mode == Resizing && startSelection.Some? && activeHandle.Some? {
        var dx := p.x - start.x;
        var dy := p.y - start.y;
        selection := Some(Resize(startSelection.value, activeHandle.value, dx, dy));
        ResizeKeepsMinimum(startSelection.value, activeHandle.value, dx, dy);
      }
    }

    /** `handleMouseUp`: a drawn rectangle larger than 10 by 10 becomes the
        selection, a smaller one is dropped; a move or a resize ends with
        the selection in place. All drag refs are cleared. */
    method MouseUp()
      requires Valid()
      modifies this
      ensures Valid()
      ensures processing == old(processing)
      ensures startPos == None && startSelection == None && activeHandle == None
      ensures old(mode) == Selecting && Accepted(old(selection).value) ==>
                mode == Selected && selection == old(selection)
      ensures old(mode) == Selecting && !Accepted(old(selection).value) ==>
                mode == Idle && selection == None
      ensures old(mode) in {Moving, Resizing} ==> mode == Selected && selection == old(selection)
      ensures old(mode) in {Idle, Selected} ==> mode == old(mode) && selection == old(selection)
    {
      if mode == Selecting {
        if selection.Some? && selection.value.w > MIN_SIZE && selection.value.h > MIN_SIZE {
          mode := Selected;
        } else {
          selection := None;
          mode := Idle;
        }
      } else if mode == Moving || mode == Resizing {
        mode := Selected;
      }
      startPos := None;
      startSelection := None;
      activeHandle := None;
    }

    /** The window's `keydown` listener: Escape closes the overlay when a
        selection is in place or nothing is happening, and otherwise
        abandons the drag; Enter with a rectangle asks to confirm it. */
    method KeyDown(key: string) returns (action: KeyAction)
      requires Valid()
      modifies this
      ensures Valid()
      ensures processing == old(processing) && startPos == old(startPos)
      ensures startSelection == old(startSelection) && activeHandle == old(activeHandle)
      ensures key == "Escape" && old(mode) in {Selected, Idle} ==>
                action == CloseOverlay && mode == old(mode) && selection == old(selection)
      ensures key == "Escape" && old(mode) !in {Selected, Idle} ==>
                action == NoAction && mode == Idle && selection == None
      ensures key == "Enter" ==>
                mode == old(mode) && selection == old(selection)
                && action == (if old(selection).Some? then ConfirmSelection else NoAction)
      ensures key != "Escape" && key != "Enter" ==>
                action == NoAction && mode == old(mode) && selection == old(selection)
    {
      action := NoAction;
      if key == "Escape" {
        if mode == Selected || mode == Idle {
          action := CloseOverlay;
        } else {
          selection := None;
          mode := Idle;
        }
      }
      if key == "Enter" && selection.Some? {
        action := ConfirmSelection;
      }
    }

    /** The cancel button's click handler: drop the selection, whatever
        the mode. */
    method CancelClick()
      requires Valid()
      modifies this
      ensures Valid()
      ensures mode == Idle && selection == None
      ensures processing == old(processing) && startPos == old(startPos)
      ensures startSelection == old(startSelection) && activeHandle == old(activeHandle)
    {
      selection := None;
      mode := Idle;
    }

    /** A left press on one of the action buttons under a selection in
        place, then its release. The buttons stop only the click, so the
        press reaches `handleMouseDown`; they sit below the rectangle,
        outside its hit test, so unless processing the press starts a new
        empty selection, and the release drops it. The selection is gone
        before the click. */
    method PressActionButton(p: Point)
      requires Valid() && mode == Selected
      requires p.y > selection.value.y + selection.value.h
      modifies this
      ensures Valid()
      ensures processing == old(processing)
      ensures !old(processing) ==> mode == Idle && selection == None
      ensures old(processing) ==> mode == Selected && selection == old(selection)
      ensures startPos == None && startSelection == None && activeHandle == None
    {
      MouseDown(0, p);
      MouseUp();
    }

    /** The confirm button with its press kept from the background, as the
        resize handles keep theirs: the release leaves the selection in
        place, and the click starts `confirmSelection` on it. */
    method ConfirmButtonClick(imageReady: bool) returns (region: Option<Rect>)
      requires Valid() && mode == Selected
      modifies this
      ensures Valid()
      ensures mode == Selected && selection == old(selection)
      ensures region == (if imageReady then old(selection) else None)
      ensures processing == (old(processing) || imageReady)
      ensures startPos == None && startSelection == None && activeHandle == None
    {
      MouseUp();
      region := BeginConfirm(imageReady);
    }

    /** The start of `confirmSelection`: with a rectangle and a loaded image
        of non-zero size, it turns processing on and hands the rectangle on
        to be scaled to image pixels; otherwise it does nothing. */
    method BeginConfirm(imageReady: bool) returns (region: Option<Rect>)
      requires Valid()
      modifies this
      ensures Valid()
      ensures mode == old(mode) && selection == old(selection) && startPos == old(startPos)
      ensures startSelection == old(startSelection) && activeHandle == old(activeHandle)
      ensures region == (if old(selection).Some? && imageReady then old(selection) else None)
      ensures processing == (old(processing) || region.Some?)
    {
      if selection.None? || !imageReady {
        return None;
      }
      processing := true;
      return selection;
    }

    /** A failed `process_selection` call turns processing off again. */
    method ConfirmFailed()
      requires Valid()
      modifies this
      ensures Valid()
      ensures !processing
      ensures mode == old(mode) && selection == old(selection) && startPos == old(startPos)
      ensures startSelection == old(startSelection) && activeHandle == old(activeHandle)
    {
      processing := false;
    }
  }
}
