# Text widget, span builder and popup window: a verified model

This project models, in Dafny, the simulated state that Robolectric's shadow
objects keep for three Android classes:

- **SpannableStringBuilder** (`spans.dfy`, on top of `splices.dfy`): a
  character buffer whose mutations (`replace`, `replace` with a source
  sub-range, `insert`, `delete`, `append` of a string or a character) are
  all one splice `old[..start] + r + old[end..]`, each returning the builder
  itself so that calls chain, plus a table of spans that `setSpan` stacks up
  and `getSpanAt` queries. A span covers its end offset too, so a zero-width
  span at `p` covers `p`.
- **TextView** (`text_views.dfy`, with `watchers.dfy` and `links.dfy`): the
  text (`setText(null)` counts as `""`), an ordered list of text watchers
  with add and remove, the before / on / after notification protocol with its
  exact arguments, a selection that is either unset or a range, the rule
  that moves selection endpoints on `append`, the text-size unit rule, and
  the URLs `getUrls` finds in the text.
- **PopupWindow** (`popups.dfy`): a record of fields (content view, width,
  height, focusable, touchable, outside-touchable, showing, background,
  touch interceptor) with setter and getter pairs, `dismiss`, the test-only
  `setShowing`, and `dispatchTouchEvent`.

The text widget, the builder and the popup are classes whose methods update
their fields in place. Each method's contract gives the whole new state in
terms of the old one. The properties the tests assert are proved as lemmas
about the specification functions these contracts use.

Watchers are opaque identities. Each call a watcher receives is appended,
with its arguments, to a ghost log on the widget. `Watchers.CallsTo(log, w)`
is what a recording watcher's `methodsCalled` list holds. Client methods in
`text_views.dfy` replay the widget tests on the model: `WatcherScenario`,
`NullTextScenario`, `ManyWatchersScenario` and `ResetTextScenario` for the
notification tests, `AppendScenario` for `append`, `SelectionScenario` for
the selection tests, `TextSizeScenario` for `setTextSize` and `UrlsScenario`
for `getUrls`. The builder tests are replayed in `spans.dfy` and the popup in
`popups.dfy`.

Three rules are fixed by the tests:

- **`append` notifications.** Watchers see `append(t)` as a replace of the
  whole text (`TextViewTest.java:250-281`):
  `before(old, 0, |old|, |old|+|t|)`, `on(old+t, 0, |old|, |old|+|t|)`,
  `after(old+t)`.
- **Selection endpoints on `append`.** A caret `(2,2)` on `"12"` becomes
  `(3,3)` (`TextViewTest.java:305-309`), a range `(0,2)` becomes `(0,3)`
  (`TextViewTest.java:313-318`), and a caret `(0,0)` stays put
  (`TextViewTest.java:300-304`). So each endpoint that equals the old length
  moves to the new length, and every other endpoint keeps its value.
- **Span coverage.** `getSpanAt` covers the end offset of a span
  (`SpannableStringBuilderTest.java:77`), so a span covers the closed range
  `[start, end]`.

## Model

| member | source | states |
|---|---|---|
| `Splices.Splice` | src/test/java/org/robolectric/shadows/SpannableStringBuilderTest.java:31-43 | the result keeps the prefix before `start`, holds the replacement next, then the suffix from `end`; its length is the old length minus the removed count plus the inserted count |
| `Splices.SpliceOverwrite` | src/test/java/org/robolectric/shadows/SpannableStringBuilderTest.java:31-36 | successive replaces compose: a second replace whose range covers all the text the first one inserted equals one replace of the matching range of the original text; the test's `replace(2,3,"")` then `replace(0,2,"xyz")` is an instance |
| `Splices.SpliceUndo` | src/test/java/org/robolectric/shadows/SpannableStringBuilderTest.java:31-43 | a replace is undone by replacing the inserted text with the removed text (the inverse of a splice) |
| `Splices.SpliceAtEndIsConcat` | src/test/java/org/robolectric/shadows/SpannableStringBuilderTest.java:18-23 | a splice of the empty range at the end of the text is concatenation |
| `Spans.SpannableStringBuilder.constructor` | src/test/java/org/robolectric/shadows/SpannableStringBuilderTest.java:25-29 | a new builder holds exactly the given text and no spans |
| `Spans.SpannableStringBuilder.Length` | src/test/java/org/robolectric/shadows/SpannableStringBuilderTest.java:25-29 | the length is the number of characters in the buffer |
| `Spans.SpannableStringBuilder.Replace` | src/test/java/org/robolectric/shadows/SpannableStringBuilderTest.java:31-43 | succeeds exactly when `0 <= start <= end <= length`, then the text is the splice and the builder itself is returned; otherwise it fails with index-out-of-bounds and leaves the text alone |
| `Spans.SpannableStringBuilder.ReplaceFrom` | src/test/java/org/robolectric/shadows/SpannableStringBuilderTest.java:59-64 | only `tb[tbStart..tbEnd]` is spliced in; both ranges must be valid |
| `Spans.SpannableStringBuilder.Insert` | src/test/java/org/robolectric/shadows/SpannableStringBuilderTest.java:45-49 | insert at `where` is the splice of the empty range `[where, where)` |
| `Spans.SpannableStringBuilder.Delete` | src/test/java/org/robolectric/shadows/SpannableStringBuilderTest.java:51-57 | delete is a splice with the empty string, and the length drops by the size of the range |
| `Spans.SpannableStringBuilder.Append` | src/test/java/org/robolectric/shadows/SpannableStringBuilderTest.java:18-23 | the text becomes `old + t`, and the same builder is returned so that calls chain |
| `Spans.SpannableStringBuilder.AppendChar` | src/test/java/org/robolectric/shadows/SpannableStringBuilderTest.java:18-23 | appending a character adds it at the tail and returns the same builder |
| `Spans.SpannableStringBuilder.SetSpan` | src/test/java/org/robolectric/shadows/SpannableStringBuilderTest.java:66-79 | a span over a valid range is added on top of the table; an invalid range is refused and the table is unchanged |
| `Spans.SpannableStringBuilder.GetSpanAt` | src/test/java/org/robolectric/shadows/SpannableStringBuilderTest.java:66-95 | scanning the table from the newest entry returns exactly `SpanAt(spans, p)` |
| `Spans.LastCovering` | src/test/java/org/robolectric/shadows/SpannableStringBuilderTest.java:66-95 | -1 exactly when no span's closed range covers `p`; otherwise the index of a covering span with no covering span after it |
| `Spans.SpanAt` | src/test/java/org/robolectric/shadows/SpannableStringBuilderTest.java:81-95 | null exactly when no span covers `p` (gaps and an empty table give null); otherwise the object of the newest covering span |
| `Spans.SpanAtLastSet` | src/test/java/org/robolectric/shadows/SpannableStringBuilderTest.java:66-79 | after setting a span covering `p`, `getSpanAt(p)` is that span's object |
| `Spans.SpanAtUnaffected` | src/test/java/org/robolectric/shadows/SpannableStringBuilderTest.java:81-88 | setting a span that does not cover `p` leaves `getSpanAt(p)` as it was |
| `Watchers.Broadcast` | src/test/java/org/robolectric/shadows/TextViewTest.java:195-207 | one stage delivers the call to every registered watcher, once per registration, in registration order |
| `Watchers.CallsToBroadcast` | src/test/java/org/robolectric/shadows/TextViewTest.java:195-207 | within one stage a watcher receives the call as many times as it is registered |
| `Watchers.Notifications` | src/test/java/org/robolectric/shadows/TextViewTest.java:195-207 | a mutation delivers its before call to every watcher in registration order, then its on call to every watcher, then its after call to every watcher |
| `Watchers.WholeTextChange` | src/test/java/org/robolectric/shadows/TextViewTest.java:209-239 | a whole-text replace delivers `before(old, 0, |old|, |new|)`, then `on(new, 0, |old|, |new|)`, then `after(new)`, each to every watcher in order |
| `Watchers.CallsTo` | src/test/java/org/robolectric/shadows/TextViewTest.java:482-501 | a watcher never records more calls than the log holds |
| `Watchers.CallsToMembers` | src/test/java/org/robolectric/shadows/TextViewTest.java:482-501 | a watcher's recorded calls are exactly the calls made on it |
| `Watchers.StagesInOrder` | src/test/java/org/robolectric/shadows/TextViewTest.java:454-460 | each watcher sees all its before calls, then its on calls, then its after calls |
| `Watchers.RegisteredOnceSeesThreeCalls` | src/test/java/org/robolectric/shadows/TextViewTest.java:175-207 | a watcher registered once receives exactly three calls, before, on and after, for any number of other watchers |
| `Watchers.UnregisteredSeesNothing` | src/test/java/org/robolectric/shadows/TextViewTest.java:283-291 | a watcher not in the list receives nothing |
| `Watchers.WholeTextChangeSeenOnce` | src/test/java/org/robolectric/shadows/TextViewTest.java:209-239 | a whole-text replace reaches a watcher as `before(old, 0, |old|, |new|)`, `on(new, 0, |old|, |new|)`, `after(new)` |
| `Watchers.FirstIndex` | src/test/java/org/robolectric/shadows/TextViewTest.java:283-291 | the position of the first registration of a watcher that is in the list |
| `Watchers.RemoveFirst` | src/test/java/org/robolectric/shadows/TextViewTest.java:283-291 | removal deletes the first registration of `w` and keeps every other watcher in its order (positions before it unchanged, positions after it shifted down by one); an absent `w` leaves the list unchanged |
| `Watchers.DistinctOnce` | src/test/java/org/robolectric/shadows/TextViewTest.java:195-207 | in a list of distinct watchers each member is registered exactly once |
| `Watchers.RemoveUndoesAdd` | src/test/java/org/robolectric/shadows/TextViewTest.java:283-291 | removing a watcher just added to a list that did not hold it restores the list, so the watcher is no longer contained |
| `Links.Words` | src/test/java/org/robolectric/shadows/TextViewTest.java:64-72 | every word is non-empty and holds no whitespace |
| `Links.KeepUrls` | src/test/java/org/robolectric/shadows/TextViewTest.java:64-72 | filtering never lengthens the list and keeps only words that start with `http://` |
| `Links.KeepUrlsMembers` | src/test/java/org/robolectric/shadows/TextViewTest.java:64-72 | filtering keeps exactly the words that start with `http://`: every such word is kept and no other |
| `Links.KeepUrlsAppend` | src/test/java/org/robolectric/shadows/TextViewTest.java:64-72 | filtering distributes over concatenation, so URLs are kept in the order and with the multiplicity the words have |
| `Links.Urls` | src/test/java/org/robolectric/shadows/TextViewTest.java:64-72 | every URL found starts with `http://` and holds no whitespace; a string is found exactly when it is a word of the text starting with `http://` |
| `Links.WordsKeepAllLetters` | src/test/java/org/robolectric/shadows/TextViewTest.java:64-72 | splitting loses nothing but whitespace: the words put back together are the text's non-whitespace characters |
| `Links.WordsOfJoin` | src/test/java/org/robolectric/shadows/TextViewTest.java:64-72 | splitting undoes joining words with whitespace separators |
| `Links.ExampleTextIsJoin` | src/test/java/org/robolectric/shadows/TextViewTest.java:66 | the literal text of the test is its seven words joined by its space, newline and tab separators |
| `Links.UrlsExample` | src/test/java/org/robolectric/shadows/TextViewTest.java:64-72 | the literal text of the test yields `http://google.com/` and `http://another.com/123?456`, in that order |
| `TextViews.AdjustOnAppend` | src/test/java/org/robolectric/shadows/TextViewTest.java:298-319 | appending never sets or clears a selection, and leaves it alone when nothing is appended |
| `TextViews.AdjustOnAppendFits` | src/test/java/org/robolectric/shadows/TextViewTest.java:298-319 | appending keeps a selection inside the text |
| `TextViews.AdjustOnAppendTail` | src/test/java/org/robolectric/shadows/TextViewTest.java:298-319 | when text is appended, an endpoint ends at the new end exactly when it was at the old end, and an endpoint anywhere else keeps its value, so `(0,2)` on `"12"` becomes `(0,3)` and a range ending before the old end does not move |
| `TextViews.TextSizeInPixels` | src/test/java/org/robolectric/shadows/TextViewTest.java:414-435 | only pixels and density-independent pixels are accepted; pixels are kept unchanged, dips are scaled by the density, and any other unit fails with illegal-argument |
| `TextViews.TextView.constructor` | src/test/java/org/robolectric/shadows/TextViewTest.java:47-50 | a new view has empty text, no watchers, no selection and an empty log |
| `TextViews.TextView.Broadcast` | src/test/java/org/robolectric/shadows/TextViewTest.java:482-501 | the notification loop appends exactly one stage's calls, in watcher order, to the log |
| `TextViews.TextView.ReplaceAll` | src/test/java/org/robolectric/shadows/TextViewTest.java:209-239 | the text becomes the new text and the log grows by the three staged whole-text notifications |
| `TextViews.TextView.SetText` | src/test/java/org/robolectric/shadows/TextViewTest.java:175-239 | the text becomes the argument, or `""` for null; all three stages fire with whole-text arguments; the watcher list is unchanged |
| `TextViews.TextView.Append` | src/test/java/org/robolectric/shadows/TextViewTest.java:242-281 | the text becomes `old + t`; watchers see a replace of the whole old text by the whole new text; the selection follows `AdjustOnAppend` |
| `TextViews.TextView.AddTextChangedListener` | src/test/java/org/robolectric/shadows/TextViewTest.java:283-288 | the watcher is appended to the list and is then contained in it |
| `TextViews.TextView.RemoveTextChangedListener` | src/test/java/org/robolectric/shadows/TextViewTest.java:283-291 | one registration of the watcher is removed and no other watcher is touched |
| `TextViews.TextView.SetSelection` | src/test/java/org/robolectric/shadows/TextViewTest.java:381-392 | a range inside the text becomes the selection, so `hasSelection` holds even for an empty range; an out-of-range request is refused |
| `TextViews.TextView.SetTextSize` | src/test/java/org/robolectric/shadows/TextViewTest.java:414-435 | an accepted unit stores its pixel size; a rejected unit fails with illegal-argument and keeps the old size |
| `TextViews.TextView.GetText` | src/test/java/org/robolectric/shadows/TextViewTest.java:242-248 | returns the current text |
| `TextViews.TextView.GetSelectionStart` | src/test/java/org/robolectric/shadows/TextViewTest.java:298-319 | the start of the selection, or -1 when none is set |
| `TextViews.TextView.GetSelectionEnd` | src/test/java/org/robolectric/shadows/TextViewTest.java:298-319 | the end of the selection, or -1 when none is set |
| `TextViews.TextView.HasSelection` | src/test/java/org/robolectric/shadows/TextViewTest.java:381-392 | true exactly when a selection has been set, even an empty one; in a valid view, exactly when both reported endpoints are offsets rather than -1 |
| `TextViews.TextView.GetUrls` | src/test/java/org/robolectric/shadows/TextViewTest.java:64-72 | the URLs of the current text are exactly its words that start with `http://` |
| `Popups.PopupWindow.Blank` | src/main/java/com/xtremelabs/robolectric/shadows/ShadowPopupWindow.java:19-29 | a window whose fields were never assigned is not showing, has width and height 0, and holds no references |
| `Popups.PopupWindow.constructor` | src/main/java/com/xtremelabs/robolectric/shadows/ShadowPopupWindow.java:31-35 | construction stores only the content view, so `getContentView` returns it; the width, height and focusable arguments are not stored |
| `Popups.PopupWindow.Create` | src/main/java/com/xtremelabs/robolectric/shadows/ShadowPopupWindow.java:31-35 | a null content view fails with a null-pointer error, because construction dereferences it; otherwise a fresh window holding only that content view |
| `Popups.PopupWindow.SetContentView` | src/main/java/com/xtremelabs/robolectric/shadows/ShadowPopupWindow.java:37-45 | `getContentView` returns the view set, and no other field changes |
| `Popups.PopupWindow.SetWidth` | src/main/java/com/xtremelabs/robolectric/shadows/ShadowPopupWindow.java:47-55 | `getWidth` returns the width set, and no other field changes |
| `Popups.PopupWindow.SetHeight` | src/main/java/com/xtremelabs/robolectric/shadows/ShadowPopupWindow.java:57-65 | `getHeight` returns the height set, and no other field changes |
| `Popups.PopupWindow.SetFocusable` | src/main/java/com/xtremelabs/robolectric/shadows/ShadowPopupWindow.java:67-75 | `isFocusable` returns the flag set, and no other field changes |
| `Popups.PopupWindow.SetTouchable` | src/main/java/com/xtremelabs/robolectric/shadows/ShadowPopupWindow.java:77-85 | `isTouchable` returns the flag set, and no other field changes |
| `Popups.PopupWindow.SetOutsideTouchable` | src/main/java/com/xtremelabs/robolectric/shadows/ShadowPopupWindow.java:87-95 | `isOutsideTouchable` returns the flag set; `touchable` and every other field keep their values |
| `Popups.PopupWindow.SetShowing` | src/main/java/com/xtremelabs/robolectric/shadows/ShadowPopupWindow.java:97-109 | `isShowing` returns the flag set, and no other field changes |
| `Popups.PopupWindow.Dismiss` | src/main/java/com/xtremelabs/robolectric/shadows/ShadowPopupWindow.java:111-114 | `isShowing` becomes false and every other field keeps its value; a second dismiss changes nothing |
| `Popups.PopupWindow.SetBackgroundDrawable` | src/main/java/com/xtremelabs/robolectric/shadows/ShadowPopupWindow.java:116-124 | `getBackground` returns the drawable set, and no other field changes |
| `Popups.PopupWindow.SetTouchInterceptor` | src/main/java/com/xtremelabs/robolectric/shadows/ShadowPopupWindow.java:126-129 | only the interceptor field changes |
| `Popups.PopupWindow.DispatchTouchEvent` | src/main/java/com/xtremelabs/robolectric/shadows/ShadowPopupWindow.java:138-140 | without an interceptor the event is not handled; with one, the interceptor's answer is returned |
| `Popups.PopupWindow.GetContentView` | src/main/java/com/xtremelabs/robolectric/shadows/ShadowPopupWindow.java:43-45 | returns the stored content view, the field of the window's state |
| `Popups.PopupWindow.GetWidth` | src/main/java/com/xtremelabs/robolectric/shadows/ShadowPopupWindow.java:53-55 | returns the stored width, the field of the window's state |
| `Popups.PopupWindow.GetHeight` | src/main/java/com/xtremelabs/robolectric/shadows/ShadowPopupWindow.java:63-65 | returns the stored height, the field of the window's state |
| `Popups.PopupWindow.IsFocusable` | src/main/java/com/xtremelabs/robolectric/shadows/ShadowPopupWindow.java:73-75 | returns the stored focusable flag, the field of the window's state |
| `Popups.PopupWindow.IsTouchable` | src/main/java/com/xtremelabs/robolectric/shadows/ShadowPopupWindow.java:83-85 | returns the stored touchable flag, the field of the window's state |
| `Popups.PopupWindow.IsOutsideTouchable` | src/main/java/com/xtremelabs/robolectric/shadows/ShadowPopupWindow.java:93-95 | returns the stored outside-touchable flag, the field of the window's state |
| `Popups.PopupWindow.IsShowing` | src/main/java/com/xtremelabs/robolectric/shadows/ShadowPopupWindow.java:107-109 | returns the stored showing flag, the field of the window's state |
| `Popups.PopupWindow.GetBackground` | src/main/java/com/xtremelabs/robolectric/shadows/ShadowPopupWindow.java:122-124 | returns the stored background drawable, the field of the window's state |

## Left out

- The shadow binding and dispatch runtime is not part of this model. That covers class-to-shadow registration, per-test shadow sets, the real-object back-reference, constructor interception and `shadowOf`. It works by reflection and bytecode rewriting, and none of its code is among the modelled files.
- `setText(R.string.hello)` is modelled only as `SetText` of the string the resource resolves to. The resource lookup itself is I/O.
- XML layout inflation, text and hint colours, the text-appearance id, compound drawables and their resource ids are not modelled. All of them are resource I/O.
- `getPaint().measureText` is not modelled. It is floating-point layout arithmetic.
- The IME action listener and movement-method touch dispatch are not modelled. They are callbacks into foreign objects.
- TextView's pass-through properties are not modelled: gravity, input type, filters, error, typeface, layout, lines, links-clickable and transformation method. Each is only stored and read back.
- `TextViews.TextSizeInPixels`: sizes and the screen density are exact reals, so Java's `float` rounding is not modelled. The density comes from the resources, so it is a parameter.
- `TextViews.TextView.constructor`: the platform's default text size is not modelled. The size stays `None` until one is set.
- `Popups.PopupWindow.DispatchTouchEvent`: the call into a set interceptor is foreign code, so its answer is a parameter.
- `Popups.PopupWindow.constructor` takes a view that is not null, because a Dafny constructor cannot fail. The null case, which throws in the source, is modelled by `Popups.PopupWindow.Create`.
- `showAsDropDown` and the context and window-manager lookup in the popup's constructor are not modelled. They are window-manager I/O.
- Strings are sequences of Unicode scalar values, not Java's UTF-16 code units. Lengths, offsets, range checks, span and selection offsets, and the lengths passed to watchers agree with the source only for text without supplementary characters (characters outside the Basic Multilingual Plane); such a character counts 1 here and 2 in Java.
- Widths, heights and lengths are unbounded integers. The source only stores and compares them and never does arithmetic that could overflow a Java `int`.
- `getUrls` follows its one asserted example: a split at whitespace, then a filter on the prefix `http://`. The platform's full link-recognition patterns are not modelled.
- `Spans.SpannableStringBuilder.Replace` does not move or drop spans when the text is edited. No test exercises spans across edits.
- `Spans.SpanAt`: where spans overlap, the most recently set one wins. No test exercises overlap, so this rule is a modelling choice, not an observed guarantee.
- Span flags are stored but have no effect.
- `Spans.SpannableStringBuilder.SetSpan` refuses a range outside the text or reversed, as the platform builder does. The tests only set valid ranges.
- `Watchers.Notifications`: all watchers' before calls come first, then all on calls, then all after calls. No test tells this staged order apart from per-watcher interleaving, so it is a modelling choice.
- `TextViews.TextView.SetText` clamps the selection to the new text, and `TextViews.TextView.SetSelection` refuses a range outside the text or reversed. Both keep the selection inside the text. The tests only exercise selections already inside the text.
- An unset selection reports -1 from `getSelectionStart` and `getSelectionEnd`, as the platform does. No test checks those values.
