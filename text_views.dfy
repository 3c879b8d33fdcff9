/** The editable text widget: its text, its ordered watcher list with the
    staged notification protocol, its selection, and its text size. */
module TextViews {
  import opened Wrappers
  import opened Watchers
  import Links

  /** The selection: unset, or the range from `start` to `end`. An empty
      range (a caret) is still a selection. */
  datatype Selection = Unset | Range(start: int, end: int)

  /** A selection fits a text of length `n` when it is unset or lies inside
      the text with its start not after its end. */
  predicate SelectionFits(sel: Selection, n: int)
  {
    sel.Range? ==> 0 <= sel.start <= sel.end <= n
  }

  /** Appending to a text of length `oldLength` moves each endpoint that sits
      at the old end of the text to the new end, and leaves every other
      endpoint where it is. */
  function AdjustOnAppend(sel: Selection, oldLength: int, newLength: int): (r: Selection)
    ensures r.Range? == sel.Range?
    ensures oldLength == newLength ==> r == sel
  {
    match sel
    case Unset => Unset
    case Range(s, e) =>
      Range(if s == oldLength then newLength else s, if e == oldLength then newLength else e)
  }

  /** Replacing the text clamps each endpoint to the new length. */
  function ClampTo(sel: Selection, n: nat): Selection
  {
    match sel
    case Unset => Unset
    case Range(s, e) => Range(if s <= n then s else n, if e <= n then e else n)
  }

  /** Appending keeps a fitting selection fitting. */
  lemma AdjustOnAppendFits(sel: Selection, oldLength: nat, newLength: nat)
    requires SelectionFits(sel, oldLength) && oldLength <= newLength
    ensures SelectionFits(AdjustOnAppend(sel, oldLength, newLength), newLength)
  {
  }

  /** When text is really appended, an endpoint ends up at the new end
      exactly when it was at the old end, and an endpoint anywhere else keeps
      its value; so a range ending before the old end does not move at all. */
  lemma AdjustOnAppendTail(sel: Selection, oldLength: nat, newLength: nat)
    requires sel.Range? && SelectionFits(sel, oldLength) && oldLength < newLength
    ensures var r := AdjustOnAppend(sel, oldLength, newLength);
      (r.start == newLength <==> sel.start == oldLength) &&
      (r.end == newLength <==> sel.end == oldLength) &&
      (sel.start != oldLength ==> r.start == sel.start) &&
      (sel.end != oldLength ==> r.end == sel.end) &&
      (sel.end < oldLength ==> r == sel)
  {
  }

  // Units of `TypedValue` accepted by the text-size setter.
  const COMPLEX_UNIT_PX := 0
  const COMPLEX_UNIT_DIP := 1
  const COMPLEX_UNIT_SP := 2
  const COMPLEX_UNIT_PT := 3
  const COMPLEX_UNIT_IN := 4
  const COMPLEX_UNIT_MM := 5

  /** The text size in pixels for `size` given in `unit`: pixels are stored
      unchanged, density-independent pixels are scaled by the screen density,
      and any other unit is refused. */
  function TextSizeInPixels(unit: int, size: real, density: real): (r: Result<real>)
    ensures r.Ok? <==> unit == COMPLEX_UNIT_PX || unit == COMPLEX_UNIT_DIP
    ensures unit == COMPLEX_UNIT_PX ==> r == Ok(size)
    ensures unit == COMPLEX_UNIT_DIP ==> r == Ok(size * density)
    ensures r.Err? ==> r.failure == IllegalArgument
  {
    if unit == COMPLEX_UNIT_PX then Ok(size)
    else if unit == COMPLEX_UNIT_DIP then Ok(size * density)
    else Err(IllegalArgument)
  }

  class TextView {
    var text: string
    var watchers: seq<WatcherId>
    var selection: Selection
    /** `None` until a size is set: the platform default is not part of this
        model. */
    var textSize: Option<real>
    /** Every call made on a watcher so far, in order. */
    ghost var log: seq<Event>

    ghost predicate Valid()
      reads this
    {
      SelectionFits(selection, |text|)
    }

    constructor ()
      ensures Valid()
      ensures text == "" && watchers == [] && selection == Unset && textSize == None && log == []
    {
      text := "";
      watchers := [];
      selection := Unset;
      textSize := None;
      log := [];
    }

    function GetText(): (t: string)
      reads this
      ensures t == text
    {
      text
    }

    /** The selection's start, or -1 when no selection is set. */
    function GetSelectionStart(): (i: int)
      reads this
      ensures selection.Range? ==> i == selection.start
      ensures selection.Unset? ==> i == -1
    {
      if selection.Range? then selection.start else -1
    }

    /** The selection's end, or -1 when no selection is set. */
    function GetSelectionEnd(): (i: int)
      reads this
      ensures selection.Range? ==> i == selection.end
      ensures selection.Unset? ==> i == -1
    {
      if selection.Range? then selection.end else -1
    }

    /** True once a selection has been set, even an empty one; in a valid
        view, exactly when both reported endpoints are offsets. */
    function HasSelection(): (b: bool)
      reads this
      ensures b <==> selection.Range?
      ensures Valid() ==> (b <==> GetSelectionStart() >= 0 && GetSelectionEnd() >= 0)
    {
      selection.Range?
    }

    /** The URLs in the current text: exactly its words that start with
        "http://". */
    function GetUrls(): (us: seq<string>)
      reads this
      ensures forall u :: u in us <==> u in Links.Words(text) && Links.IsUrl(u)
    {
      Links.Urls(text)
    }

    /** Delivers `c` to every registered watcher in registration order. */
    method Broadcast(c: Call)
      modifies this`log
      ensures log == old(log) + Watchers.Broadcast(watchers, c)
    {
      var i := 0;
      while i < |watchers|
        invariant 0 <= i <= |watchers|
        invariant log == old(log) + Watchers.Broadcast(watchers[..i], c)
      {
        assert watchers[..i + 1][..i] == watchers[..i];
        log := log + [Event(watchers[i], c)];
        i := i + 1;
      }
      assert watchers[..i] == watchers;
    }

    /** Replaces the whole text by `newText`, notifying every watcher in three
        stages; the selection is left to the caller. */
    method ReplaceAll(newText: string)
      modifies this`text, this`log
      ensures text == newText
      ensures log == old(log) + WholeTextChange(watchers, old(text), newText)
    {
      var oldText := text;
      Broadcast(BeforeTextChanged(oldText, 0, |oldText|, |newText|));
      text := newText;
      Broadcast(OnTextChanged(newText, 0, |oldText|, |newText|));
      Broadcast(AfterTextChanged(newText));
    }

    /** Sets the text; `null` stands for the empty string. Watchers always see
        all three stages, and the selection is clamped to the new text. */
    method SetText(t: Option<string>)
      requires Valid()
      modifies this
      ensures Valid()
      ensures text == (if t.Some? then t.value else "")
      ensures log == old(log) + WholeTextChange(watchers, old(text), text)
      ensures selection == ClampTo(old(selection), |text|)
      ensures watchers == old(watchers) && textSize == old(textSize)
    {
      var newText := if t.Some? then t.value else "";
      ReplaceAll(newText);
      selection := ClampTo(selection, |text|);
    }

    /** Appends `t`. Watchers see a replace of the whole old text by the whole
        new text; selection endpoints at the old end move to the new end. */
    method Append(t: string)
      requires Valid()
      modifies this
      ensures Valid()
      ensures text == old(text) + t
      ensures log == old(log) + WholeTextChange(watchers, old(text), old(text) + t)
      ensures selection == AdjustOnAppend(old(selection), |old(text)|, |text|)
      ensures watchers == old(watchers) && textSize == old(textSize)
    {
      var oldLength := |text|;
      ReplaceAll(text + t);
      selection := AdjustOnAppend(selection, oldLength, |text|);
    }

    /** Registers `w` at the end of the watcher list. */
    method AddTextChangedListener(w: WatcherId)
      modifies this`watchers
      ensures watchers == old(watchers) + [w]
      ensures w in watchers
    {
      watchers := watchers + [w];
    }

    /** Unregisters the first registration of `w`, if any. */
    method RemoveTextChangedListener(w: WatcherId)
      modifies this`watchers
      ensures watchers == RemoveFirst(old(watchers), w)
      ensures multiset(watchers) == multiset(old(watchers)) - multiset{w}
    {
      watchers := RemoveFirst(watchers, w);
    }

    /** Sets the selection; a range outside the text or reversed is
        refused. */
    method SetSelection(start: int, end: int) returns (r: Result<()>)
      requires Valid()
      modifies this`selection
      ensures Valid()
      ensures r.Ok? <==> 0 <= start <= end <= |text|
      ensures r.Ok? ==> selection == Range(start, end)
      ensures r.Err? ==> r.failure == IndexOutOfBounds && selection == old(selection)
    {
      if !(0 <= start <= end <= |text|) {
        return Err(IndexOutOfBounds);
      }
      selection := Range(start, end);
      r := Ok(());
    }

    /** Sets the text size from a size in `unit`; only pixels and
        density-independent pixels are accepted. */
    method SetTextSize(unit: int, size: real, density: real) returns (r: Result<()>)
      modifies this`textSize
      ensures r.Ok? <==> TextSizeInPixels(unit, size, density).Ok?
      ensures r.Ok? ==> textSize == Some(TextSizeInPixels(unit, size, density).value)
      ensures r.Err? ==> r.failure == IllegalArgument && textSize == old(textSize)
    {
      var px := TextSizeInPixels(unit, size, density);
      if px.Err? {
        return Err(px.failure);
      }
      textSize := Some(px.value);
      r := Ok(());
    }
  }

  /** A watcher added to a fresh view sees before, on and after, once each,
      with the whole-text arguments; removing it unregisters it. */
  method WatcherScenario(w: WatcherId, t: string)
  {
    var view := new TextView();
    view.AddTextChangedListener(w);
    view.SetText(Some(t));
    CallsToAppend([], WholeTextChange([w], "", t), w);
    WholeTextChangeSeenOnce([w], "", t, w);
    assert CallsTo(view.log, w) ==
      [BeforeTextChanged("", 0, 0, |t|), OnTextChanged(t, 0, 0, |t|), AfterTextChanged(t)];
    view.RemoveTextChangedListener(w);
    RemoveUndoesAdd([], w);
    assert w !in view.watchers;
  }

  /** Several distinct watchers each see before, on and after exactly once. */
  method ManyWatchersScenario(ws: seq<WatcherId>, t: string)
    requires forall i, j :: 0 <= i < j < |ws| ==> ws[i] != ws[j]
  {
    var view := new TextView();
    var i := 0;
    while i < |ws|
      invariant 0 <= i <= |ws|
      invariant view.watchers == ws[..i] && view.text == "" && view.log == []
      invariant view.selection == Unset
    {
      view.AddTextChangedListener(ws[i]);
      assert ws[..i + 1] == ws[..i] + [ws[i]];
      i := i + 1;
    }
    assert ws[..i] == ws;
    view.SetText(Some(t));
    forall w | w in ws
      ensures CallsTo(view.log, w) ==
        [BeforeTextChanged("", 0, 0, |t|), OnTextChanged(t, 0, 0, |t|), AfterTextChanged(t)]
    {
      DistinctOnce(ws, w);
      CallsToAppend([], WholeTextChange(ws, "", t), w);
      WholeTextChangeSeenOnce(ws, "", t, w);
    }
  }

  /** A watcher added after a first text sees the old text and the old and
      new lengths when the text is set again. */
  method ResetTextScenario(w: WatcherId, initial: string, next: string)
  {
    var view := new TextView();
    view.SetText(Some(initial));
    assert view.log == [];
    view.AddTextChangedListener(w);
    view.SetText(Some(next));
    CallsToAppend([], WholeTextChange([w], initial, next), w);
    WholeTextChangeSeenOnce([w], initial, next, w);
    assert CallsTo(view.log, w) == [
      BeforeTextChanged(initial, 0, |initial|, |next|),
      OnTextChanged(next, 0, |initial|, |next|),
      AfterTextChanged(next)];
  }

  /** The URLs of the widget test's text. */
  method UrlsScenario()
  {
    var view := new TextView();
    view.SetText(Some(Links.ExampleText));
    Links.UrlsExample();
    assert view.GetUrls() == ["http://google.com/", "http://another.com/123?456"];
  }

  /** Setting `null` on an empty view still notifies, with empty-string
      arguments. */
  method NullTextScenario(w: WatcherId)
  {
    var view := new TextView();
    view.AddTextChangedListener(w);
    view.SetText(None);
    assert view.text == "";
    ghost var calls := WholeTextChange([w], "", "");
    assert view.log == [] + calls;
    CallsToAppend([], calls, w);
    WholeTextChangeSeenOnce([w], "", "", w);
    assert CallsTo(view.log, w) ==
      [BeforeTextChanged("", 0, 0, 0), OnTextChanged("", 0, 0, 0), AfterTextChanged("")];
  }

  /** Appending after an initial text reports the whole old and new text. */
  method AppendScenario(w: WatcherId, initial: string, extra: string)
  {
    var view := new TextView();
    view.SetText(Some(initial));
    view.AddTextChangedListener(w);
    ghost var before := view.log;
    view.Append(extra);
    assert view.GetText() == initial + extra;
    assert view.log == before + WholeTextChange([w], initial, initial + extra);
  }

  /** Selections at and away from the end under append, and hasSelection. */
  method SelectionScenario()
  {
    var view := new TextView();
    view.SetText(Some("1"));
    assert !view.HasSelection();
    var ok := view.SetSelection(0, 0);
    assert view.HasSelection();
    view.Append("2");
    assert view.GetSelectionStart() == 0 && view.GetSelectionEnd() == 0;
    ok := view.SetSelection(2, 2);
    view.Append("3");
    assert view.GetSelectionStart() == 3 && view.GetSelectionEnd() == 3;

    var range := new TextView();
    range.SetText(Some("12"));
    ok := range.SetSelection(0, 2);
    range.Append("3");
    assert range.GetSelectionStart() == 0 && range.GetSelectionEnd() == 3;
  }

  /** Pixels are stored as given; millimetres are refused. */
  method TextSizeScenario()
  {
    var view := new TextView();
    var r := view.SetTextSize(COMPLEX_UNIT_PX, 10.0, 1.5);
    assert view.textSize == Some(10.0);
    r := view.SetTextSize(COMPLEX_UNIT_DIP, 10.0, 1.5);
    assert view.textSize == Some(15.0);
    r := view.SetTextSize(COMPLEX_UNIT_MM, 13.0, 1.5);
    assert r == Err(IllegalArgument);
  }
}
