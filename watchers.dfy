/** Text watchers, the calls a text widget makes on them, and the staged
    before / on / after notification protocol. */
module Watchers {

  /** The identity of a registered watcher; the list compares by identity. */
  datatype WatcherId = WatcherId(id: nat)

  /** One call on a watcher with its arguments, named after the hooks. */
  datatype Call =
    | BeforeTextChanged(s: string, start: int, count: int, after: int)
    | OnTextChanged(s: string, start: int, before: int, count: int)
    | AfterTextChanged(s: string)

  /** The call `call` made on the watcher `watcher`. */
  datatype Event = Event(watcher: WatcherId, call: Call)

  /** One notification stage: `c` delivered to every watcher of `ws`, in
      registration order, once per registration. */
  function Broadcast(ws: seq<WatcherId>, c: Call): (log: seq<Event>)
    ensures |log| == |ws|
    ensures forall i :: 0 <= i < |ws| ==> log[i] == Event(ws[i], c)
  {
    if ws == [] then []
    else Broadcast(ws[..|ws| - 1], c) + [Event(ws[|ws| - 1], c)]
  }

  /** A whole mutation: the before stage for every watcher, then the on stage
      for every watcher, then the after stage for every watcher. */
  function Notifications(ws: seq<WatcherId>, before: Call, on: Call, after: Call): (log: seq<Event>)
    ensures |log| == 3 * |ws|
    ensures forall i :: 0 <= i < |ws| ==>
      log[i] == Event(ws[i], before) &&
      log[|ws| + i] == Event(ws[i], on) &&
      log[2 * |ws| + i] == Event(ws[i], after)
  {
    Broadcast(ws, before) + Broadcast(ws, on) + Broadcast(ws, after)
  }

  /** The calls a text widget makes when its whole text `oldText` is
      replaced by `newText`. */
  function WholeTextChange(ws: seq<WatcherId>, oldText: string, newText: string): (log: seq<Event>)
    ensures |log| == 3 * |ws|
    ensures forall i :: 0 <= i < |ws| ==>
      log[i] == Event(ws[i], BeforeTextChanged(oldText, 0, |oldText|, |newText|)) &&
      log[|ws| + i] == Event(ws[i], OnTextChanged(newText, 0, |oldText|, |newText|)) &&
      log[2 * |ws| + i] == Event(ws[i], AfterTextChanged(newText))
  {
    Notifications(ws,
      BeforeTextChanged(oldText, 0, |oldText|, |newText|),
      OnTextChanged(newText, 0, |oldText|, |newText|),
      AfterTextChanged(newText))
  }

  /** The calls watcher `w` has received, in order, according to `log`. */
  function CallsTo(log: seq<Event>, w: WatcherId): (calls: seq<Call>)
    ensures |calls| <= |log|
  {
    if log == [] then []
    else
      var last := log[|log| - 1];
      CallsTo(log[..|log| - 1], w) + (if last.watcher == w then [last.call] else [])
  }

  /** A watcher's recorded calls are exactly the calls made on it. */
  lemma {:induction false} CallsToMembers(log: seq<Event>, w: WatcherId)
    ensures forall c :: c in CallsTo(log, w) <==> Event(w, c) in log
  {
    if log != [] {
      var init := log[..|log| - 1];
      CallsToMembers(init, w);
      assert log == init + [log[|log| - 1]];
    }
  }

  /** `n` copies of `c`. */
  function Repeat(c: Call, n: nat): (r: seq<Call>)
    ensures |r| == n
    ensures forall i :: 0 <= i < n ==> r[i] == c
  {
    if n == 0 then [] else Repeat(c, n - 1) + [c]
  }

  /** A watcher's calls from two consecutive logs are the calls from the
      first followed by the calls from the second. */
  lemma {:induction false} CallsToAppend(a: seq<Event>, b: seq<Event>, w: WatcherId)
    ensures CallsTo(a + b, w) == CallsTo(a, w) + CallsTo(b, w)
    decreases |b|
  {
    if b == [] {
      assert a + b == a;
    } else {
      var b' := b[..|b| - 1];
      assert (a + b)[..|a + b| - 1] == a + b';
      CallsToAppend(a, b', w);
    }
  }

  /** In one stage a watcher receives the stage's call once per time it is
      registered. */
  lemma {:induction false} CallsToBroadcast(ws: seq<WatcherId>, c: Call, w: WatcherId)
    ensures CallsTo(Broadcast(ws, c), w) == Repeat(c, multiset(ws)[w])
    decreases |ws|
  {
    if ws != [] {
      var ws', x := ws[..|ws| - 1], ws[|ws| - 1];
      assert ws == ws' + [x];
      var n := multiset(ws')[w];
      assert multiset(ws)[w] == if x == w then n + 1 else n;
      CallsToBroadcast(ws', c, w);
      var log := Broadcast(ws, c);
      assert log == Broadcast(ws', c) + [Event(x, c)];
      assert log[..|log| - 1] == Broadcast(ws', c);
      assert CallsTo(log, w) == Repeat(c, n) + (if x == w then [c] else []);
    }
  }

  /** Every watcher sees the three stages in order: all its before calls,
      then all its on calls, then all its after calls. */
  lemma StagesInOrder(ws: seq<WatcherId>, before: Call, on: Call, after: Call, w: WatcherId)
    ensures CallsTo(Notifications(ws, before, on, after), w) ==
      Repeat(before, multiset(ws)[w]) + Repeat(on, multiset(ws)[w]) + Repeat(after, multiset(ws)[w])
  {
    CallsToAppend(Broadcast(ws, before) + Broadcast(ws, on), Broadcast(ws, after), w);
    CallsToAppend(Broadcast(ws, before), Broadcast(ws, on), w);
    CallsToBroadcast(ws, before, w);
    CallsToBroadcast(ws, on, w);
    CallsToBroadcast(ws, after, w);
  }

  /** A watcher registered once receives exactly three calls per mutation:
      before, on, after, with the mutation's arguments. */
  lemma RegisteredOnceSeesThreeCalls(ws: seq<WatcherId>, before: Call, on: Call, after: Call, w: WatcherId)
    requires multiset(ws)[w] == 1
    ensures CallsTo(Notifications(ws, before, on, after), w) == [before, on, after]
  {
    StagesInOrder(ws, before, on, after, w);
  }

  /** A watcher that is not registered receives nothing. */
  lemma UnregisteredSeesNothing(ws: seq<WatcherId>, before: Call, on: Call, after: Call, w: WatcherId)
    requires w !in ws
    ensures CallsTo(Notifications(ws, before, on, after), w) == []
  {
    StagesInOrder(ws, before, on, after, w);
  }

  /** A watcher registered once sees a whole-text replace as exactly three
      calls: before with the old text, on with the new text, after with the
      new text; counts are the old and new lengths. */
  lemma WholeTextChangeSeenOnce(ws: seq<WatcherId>, oldText: string, newText: string, w: WatcherId)
    requires multiset(ws)[w] == 1
    ensures CallsTo(WholeTextChange(ws, oldText, newText), w) == [
      BeforeTextChanged(oldText, 0, |oldText|, |newText|),
      OnTextChanged(newText, 0, |oldText|, |newText|),
      AfterTextChanged(newText)]
  {
    RegisteredOnceSeesThreeCalls(ws, BeforeTextChanged(oldText, 0, |oldText|, |newText|),
      OnTextChanged(newText, 0, |oldText|, |newText|), AfterTextChanged(newText), w);
  }

  /** In a list without repeats, a member is registered exactly once. */
  lemma {:induction false} DistinctOnce(ws: seq<WatcherId>, w: WatcherId)
    requires forall i, j :: 0 <= i < j < |ws| ==> ws[i] != ws[j]
    requires w in ws
    ensures multiset(ws)[w] == 1
  {
    if ws[0] == w {
      assert ws == [w] + ws[1..];
      assert w !in ws[1..];
    } else {
      assert ws == [ws[0]] + ws[1..];
      DistinctOnce(ws[1..], w);
    }
  }

  /** The position of the first registration of `w`. */
  function FirstIndex(ws: seq<WatcherId>, w: WatcherId): (i: nat)
    requires w in ws
    ensures i < |ws| && ws[i] == w && w !in ws[..i]
  {
    if ws[0] == w then 0
    else
      var i := 1 + FirstIndex(ws[1..], w);
      assert ws[..i] == [ws[0]] + ws[1..][..i - 1];
      i
  }

  /** `ws` with its first occurrence of `w` removed, as a list removes an
      element by identity; unchanged when `w` is absent. */
  function RemoveFirst(ws: seq<WatcherId>, w: WatcherId): (r: seq<WatcherId>)
    ensures w !in ws ==> r == ws
    ensures w in ws ==>
      && |r| == |ws| - 1
      && (forall k :: 0 <= k < FirstIndex(ws, w) ==> r[k] == ws[k])
      && (forall k :: FirstIndex(ws, w) <= k < |r| ==> r[k] == ws[k + 1])
    ensures multiset(r) == multiset(ws) - multiset{w}
    ensures forall x :: x != w ==> (x in r <==> x in ws)
  {
    if w in ws then
      var i := FirstIndex(ws, w);
      assert ws == ws[..i] + [w] + ws[i + 1..];
      ws[..i] + ws[i + 1..]
    else ws
  }

  /** Removing a watcher that was added to a list not holding it restores the
      list; in particular the watcher is no longer there. */
  lemma RemoveUndoesAdd(ws: seq<WatcherId>, w: WatcherId)
    requires w !in ws
    ensures RemoveFirst(ws + [w], w) == ws
    ensures w !in RemoveFirst(ws + [w], w)
  {
    assert w in ws + [w];
    var i := FirstIndex(ws + [w], w);
    assert i == |ws|;
    assert (ws + [w])[..|ws|] == ws;
  }
}
