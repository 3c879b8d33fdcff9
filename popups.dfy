/** The popup window's simulated state: a record of fields that setters
    write one at a time, a showing flag that `dismiss` clears, and touch
    dispatch through an optional interceptor. */
module Popups {
  import opened Wrappers

  datatype ViewId = ViewId(id: nat)
  datatype DrawableId = DrawableId(id: nat)
  datatype TouchListenerId = TouchListenerId(id: nat)
  datatype MotionEventId = MotionEventId(id: nat)

  /** Every field of the popup window, as one value. Widths and heights are
      Java `int`s that are only stored and read back. */
  datatype PopupState = PopupState(
    contentView: Option<ViewId>,
    width: int,
    height: int,
    focusable: bool,
    touchable: bool,
    outsideTouchable: bool,
    showing: bool,
    background: Option<DrawableId>,
    touchInterceptor: Option<TouchListenerId>)

  /** The state of a window whose fields have never been assigned: null
      references, zero sizes, false flags. */
  const FreshState := PopupState(None, 0, 0, false, false, false, false, None, None)

  class PopupWindow {
    var contentView: Option<ViewId>
    var width: int
    var height: int
    var focusable: bool
    var touchable: bool
    var outsideTouchable: bool
    var showing: bool
    var background: Option<DrawableId>
    var touchInterceptor: Option<TouchListenerId>

    /** All fields at once. */
    function State(): PopupState
      reads this
    {
      PopupState(contentView, width, height, focusable, touchable, outsideTouchable,
        showing, background, touchInterceptor)
    }

    /** A window built without a content view: no field is assigned. */
    constructor Blank()
      ensures State() == FreshState
      ensures !IsShowing() && GetWidth() == 0 && GetHeight() == 0
    {
      contentView, width, height := None, 0, 0;
      focusable, touchable, outsideTouchable, showing := false, false, false, false;
      background, touchInterceptor := None, None;
    }

    /** A window built around `view`: only the content view is stored; the
        width, height and focusable arguments are not. */
    constructor (view: ViewId, w: int, h: int, f: bool)
      ensures State() == FreshState.(contentView := Some(view))
      ensures GetContentView() == Some(view)
    {
      contentView, width, height := Some(view), 0, 0;
      focusable, touchable, outsideTouchable, showing := false, false, false, false;
      background, touchInterceptor := None, None;
    }

    /** Construction as the platform calls it: the content view is
        dereferenced to look up its context, so a null view throws. */
    static method Create(view: Option<ViewId>, w: int, h: int, f: bool) returns (r: Result<PopupWindow>)
      ensures r.Err? <==> view.None?
      ensures r.Err? ==> r.failure == NullPointer
      ensures r.Ok? ==> fresh(r.value) && r.value.State() == FreshState.(contentView := view)
    {
      if view.None? {
        return Err(NullPointer);
      }
      var p := new PopupWindow(view.value, w, h, f);
      r := Ok(p);
    }

    function GetContentView(): (v: Option<ViewId>)
      reads this
      ensures v == State().contentView
    {
      contentView
    }

    function GetWidth(): (w: int)
      reads this
      ensures w == State().width
    {
      width
    }

    function GetHeight(): (h: int)
      reads this
      ensures h == State().height
    {
      height
    }

    function IsFocusable(): (b: bool)
      reads this
      ensures b == State().focusable
    {
      focusable
    }

    function IsTouchable(): (b: bool)
      reads this
      ensures b == State().touchable
    {
      touchable
    }

    function IsOutsideTouchable(): (b: bool)
      reads this
      ensures b == State().outsideTouchable
    {
      outsideTouchable
    }

    function IsShowing(): (b: bool)
      reads this
      ensures b == State().showing
    {
      showing
    }

    function GetBackground(): (d: Option<DrawableId>)
      reads this
      ensures d == State().background
    {
      background
    }

    method SetContentView(view: Option<ViewId>)
      modifies this
      ensures State() == old(State()).(contentView := view)
      ensures GetContentView() == view
    {
      contentView := view;
    }

    method SetWidth(w: int)
      modifies this
      ensures State() == old(State()).(width := w)
      ensures GetWidth() == w
    {
      width := w;
    }

    method SetHeight(h: int)
      modifies this
      ensures State() == old(State()).(height := h)
      ensures GetHeight() == h
    {
      height := h;
    }

    method SetFocusable(f: bool)
      modifies this
      ensures State() == old(State()).(focusable := f)
      ensures IsFocusable() == f
    {
      focusable := f;
    }

    method SetTouchable(t: bool)
      modifies this
      ensures State() == old(State()).(touchable := t)
      ensures IsTouchable() == t
    {
      touchable := t;
    }

    /** Writes the outside-touchable flag only; `touchable` is untouched. */
    method SetOutsideTouchable(t: bool)
      modifies this
      ensures State() == old(State()).(outsideTouchable := t)
      ensures IsOutsideTouchable() == t && IsTouchable() == old(IsTouchable())
    {
      outsideTouchable := t;
    }

    /** A setter for tests; the platform has no counterpart. */
    method SetShowing(b: bool)
      modifies this
      ensures State() == old(State()).(showing := b)
      ensures IsShowing() == b
    {
      showing := b;
    }

    /** Hides the window; every other field keeps its value, and dismissing
        twice is the same as dismissing once. */
    method Dismiss()
      modifies this
      ensures State() == old(State()).(showing := false)
      ensures !IsShowing()
    {
      showing := false;
    }

    method SetBackgroundDrawable(d: Option<DrawableId>)
      modifies this
      ensures State() == old(State()).(background := d)
      ensures GetBackground() == d
    {
      background := d;
    }

    method SetTouchInterceptor(l: Option<TouchListenerId>)
      modifies this
      ensures State() == old(State()).(touchInterceptor := l)
    {
      touchInterceptor := l;
    }

    /** Offers `e` to the touch interceptor. Without one the event is not
        handled; with one, the answer is the interceptor's, passed in as
        `interceptorAnswer` because the listener is foreign code. */
    method DispatchTouchEvent(e: MotionEventId, interceptorAnswer: bool) returns (handled: bool)
      ensures touchInterceptor.None? ==> !handled
      ensures touchInterceptor.Some? ==> handled == interceptorAnswer
    {
      handled := touchInterceptor.Some? && interceptorAnswer;
    }
  }

  /** Setters followed by getters, and dismiss. */
  method PopupScenario(view: ViewId, d: DrawableId)
  {
    var missing := PopupWindow.Create(None, 100, 200, true);
    assert missing == Err(NullPointer);
    var p := new PopupWindow(view, 100, 200, true);
    assert p.GetContentView() == Some(view) && p.GetWidth() == 0 && !p.IsShowing();
    p.SetWidth(100);
    p.SetHeight(200);
    p.SetTouchable(true);
    p.SetOutsideTouchable(false);
    assert p.IsTouchable() && !p.IsOutsideTouchable();
    p.SetBackgroundDrawable(Some(d));
    assert p.GetBackground() == Some(d) && p.GetWidth() == 100 && p.GetHeight() == 200;
    p.SetShowing(true);
    assert p.IsShowing();
    ghost var before := p.State();
    p.Dismiss();
    p.Dismiss();
    assert p.State() == before.(showing := false);
    var handled := p.DispatchTouchEvent(MotionEventId(0), true);
    assert !handled;
  }
}
