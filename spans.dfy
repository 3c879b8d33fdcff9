/** A text builder whose mutations are all one splice, with a table of spans
    laid over the text. */
module Spans {
  import opened Wrappers
  import opened Splices

  /** The identity of a span object (a typeface, a URL, ...). */
  datatype SpanObject = SpanObject(id: nat)

  /** One entry of the span table: the object, its range and its flags. */
  datatype Span = Span(what: SpanObject, start: int, end: int, flags: int)

  /** A span covers every offset from its start up to AND INCLUDING its end,
      so a zero-width span at `p` covers `p`. */
  predicate Covers(sp: Span, p: int)
  {
    sp.start <= p <= sp.end
  }

  /** The index of the most recently set span covering `p`, or -1 when no
      span covers it. */
  function LastCovering(spans: seq<Span>, p: int): (i: int)
    ensures -1 <= i < |spans|
    ensures i == -1 <==> forall k :: 0 <= k < |spans| ==> !Covers(spans[k], p)
    ensures 0 <= i ==> Covers(spans[i], p) && forall k :: i < k < |spans| ==> !Covers(spans[k], p)
  {
    if spans == [] then -1
    else if Covers(spans[|spans| - 1], p) then |spans| - 1
    else
      var prefix := spans[..|spans| - 1];
      assert forall k :: 0 <= k < |prefix| ==> prefix[k] == spans[k];
      LastCovering(prefix, p)
  }

  /** The object of the most recently set span covering `p`, or `None` when
      no span covers it: the newest span wins where spans overlap. */
  function SpanAt(spans: seq<Span>, p: int): (r: Option<SpanObject>)
    ensures r.None? <==> forall k :: 0 <= k < |spans| ==> !Covers(spans[k], p)
    ensures r.Some? ==>
      exists i :: 0 <= i < |spans| && Covers(spans[i], p) && spans[i].what == r.value &&
        forall k :: i < k < |spans| ==> !Covers(spans[k], p)
  {
    var i := LastCovering(spans, p);
    if i < 0 then None else Some(spans[i].what)
  }

  /** Setting a span that covers `p` makes its object the answer at `p`,
      whatever was set before. */
  lemma {:induction false} SpanAtLastSet(spans: seq<Span>, sp: Span, p: int)
    requires Covers(sp, p)
    ensures SpanAt(spans + [sp], p) == Some(sp.what)
  {
  }

  /** Setting a span that does not cover `p` leaves the answer at `p` as it
      was. */
  lemma {:induction false} SpanAtUnaffected(spans: seq<Span>, sp: Span, p: int)
    requires !Covers(sp, p)
    ensures SpanAt(spans + [sp], p) == SpanAt(spans, p)
  {
    assert (spans + [sp])[..|spans|] == spans;
  }

  class SpannableStringBuilder {
    var text: string
    var spans: seq<Span>

    constructor (s: string)
      ensures text == s && spans == []
    {
      text := s;
      spans := [];
    }

    /** The number of characters in the buffer. */
    function Length(): (n: nat)
      reads this
      ensures n == |text|
    {
      |text|
    }

    /** Replaces `text[start..end]` by `tb`; throws when the range is
        outside the text or reversed. Returns the builder itself. */
    method Replace(start: int, end: int, tb: string) returns (r: Result<SpannableStringBuilder>)
      modifies this
      ensures r.Ok? <==> ValidRange(old(text), start, end)
      ensures r.Ok? ==> r.value == this && text == Splice(old(text), start, end, tb)
      ensures r.Err? ==> r.failure == IndexOutOfBounds && text == old(text)
      ensures spans == old(spans)
    {
      if !ValidRange(text, start, end) {
        return Err(IndexOutOfBounds);
      }
      text := Splice(text, start, end, tb);
      r := Ok(this);
    }

    /** Replaces `text[start..end]` by `tb[tbStart..tbEnd]` only; both ranges
        must be valid. */
    method ReplaceFrom(start: int, end: int, tb: string, tbStart: int, tbEnd: int)
      returns (r: Result<SpannableStringBuilder>)
      modifies this
      ensures r.Ok? <==> ValidRange(old(text), start, end) && ValidRange(tb, tbStart, tbEnd)
      ensures r.Ok? ==> r.value == this && text == Splice(old(text), start, end, tb[tbStart..tbEnd])
      ensures r.Err? ==> r.failure == IndexOutOfBounds && text == old(text)
      ensures spans == old(spans)
    {
      if !ValidRange(tb, tbStart, tbEnd) {
        return Err(IndexOutOfBounds);
      }
      r := Replace(start, end, tb[tbStart..tbEnd]);
    }

    /** Inserts `tb` before offset `where`: a replace of the empty range
        `[where, where)`. */
    method Insert(where: int, tb: string) returns (r: Result<SpannableStringBuilder>)
      modifies this
      ensures r.Ok? <==> 0 <= where <= |old(text)|
      ensures r.Ok? ==> r.value == this && text == Splice(old(text), where, where, tb)
      ensures r.Ok? ==> text == old(text)[..where] + tb + old(text)[where..]
      ensures r.Err? ==> r.failure == IndexOutOfBounds && text == old(text)
      ensures spans == old(spans)
    {
      r := Replace(where, where, tb);
    }

    /** Removes `text[start..end]`: a replace by the empty string. */
    method Delete(start: int, end: int) returns (r: Result<SpannableStringBuilder>)
      modifies this
      ensures r.Ok? <==> ValidRange(old(text), start, end)
      ensures r.Ok? ==> r.value == this && text == Splice(old(text), start, end, "")
      ensures r.Ok? ==> Length() == old(Length()) - (end - start)
      ensures r.Err? ==> r.failure == IndexOutOfBounds && text == old(text)
      ensures spans == old(spans)
    {
      r := Replace(start, end, "");
    }

    /** Appends `t` at the tail: a replace of the empty range at the end.
        Never fails, and returns the builder so that calls chain. */
    method Append(t: string) returns (r: SpannableStringBuilder)
      modifies this
      ensures r == this
      ensures text == Splice(old(text), |old(text)|, |old(text)|, t)
      ensures text == old(text) + t
      ensures spans == old(spans)
    {
      ghost var was := text;
      var res := Replace(|text|, |text|, t);
      r := res.value;
      SpliceAtEndIsConcat(was, t);
    }

    /** Appends the single character `c`. */
    method AppendChar(c: char) returns (r: SpannableStringBuilder)
      modifies this
      ensures r == this
      ensures text == old(text) + [c]
      ensures spans == old(spans)
    {
      r := Append([c]);
    }

    /** Records a span over `[start, end]`; it stacks on top of the spans
        already set. A range outside the text or reversed is refused. */
    method SetSpan(what: SpanObject, start: int, end: int, flags: int) returns (r: Result<()>)
      modifies this
      ensures r.Ok? <==> ValidRange(old(text), start, end)
      ensures r.Ok? ==> spans == old(spans) + [Span(what, start, end, flags)]
      ensures r.Err? ==> r.failure == IndexOutOfBounds && spans == old(spans)
      ensures text == old(text)
    {
      if !ValidRange(text, start, end) {
        return Err(IndexOutOfBounds);
      }
      spans := spans + [Span(what, start, end, flags)];
      r := Ok(());
    }

    /** The object of the most recently set span covering `p`, or `None`:
        scans the span table from the newest entry back. */
    method GetSpanAt(p: int) returns (r: Option<SpanObject>)
      ensures r == SpanAt(spans, p)
    {
      var i := |spans|;
      while i > 0
        invariant 0 <= i <= |spans|
        invariant LastCovering(spans[..i], p) == LastCovering(spans, p)
      {
        if Covers(spans[i - 1], p) {
          return Some(spans[i - 1].what);
        }
        assert spans[..i][..i - 1] == spans[..i - 1];
        i := i - 1;
      }
      r := None;
    }
  }

  /** Chained appends on one builder: "abc" then 'd', "e", "f". */
  method AppendChainExample()
  {
    var b := new SpannableStringBuilder("abc");
    var b1 := b.AppendChar('d');
    var b2 := b1.Append("e");
    var b3 := b2.Append("f");
    assert b3 == b && b.text == "abcdef";
  }

  /** Successive replaces and the other splices on small builders. */
  method ReplaceExamples()
  {
    var b := new SpannableStringBuilder("abc");
    var r := b.Replace(2, 3, "");
    assert b.text == "ab";
    r := b.Replace(0, 2, "xyz");
    assert b.text == "xyz";
    // The second replace covers the first one's (empty) insertion at 2.
    SpliceOverwrite("abc", 2, 3, "", 0, 2, "xyz");
    assert b.text == Splice("abc", 0, 3, "xyz");

    var c := new SpannableStringBuilder("abcd");
    r := c.Replace(1, 3, "XXX");
    assert c.text == "aXXXd";

    var d := new SpannableStringBuilder("abcd");
    var source := "ignoreXXXignore";
    assert source[6] == 'X' && source[7] == 'X' && source[8] == 'X';
    assert source[6..9] == "XXX";
    r := d.ReplaceFrom(1, 3, source, 6, 9);
    assert d.text == "aXXXd";

    var e := new SpannableStringBuilder("abc");
    r := e.Insert(1, "xy");
    assert e.text == "axybc";

    var f := new SpannableStringBuilder("abc");
    assert f.Length() == 3;
    r := f.Delete(0, 3);
    assert f.Length() == 0;
  }

  /** Closed span ranges, a zero-width span, a gap, and an empty table. */
  method SpanExamples()
  {
    var b := new SpannableStringBuilder("abcd");
    var t1, t2 := SpanObject(1), SpanObject(2);
    var ok := b.SetSpan(t1, 0, 2, 0);
    ok := b.SetSpan(t2, 3, 3, 0);
    var s0 := b.GetSpanAt(0);
    var s1 := b.GetSpanAt(1);
    var s2 := b.GetSpanAt(2);
    var s3 := b.GetSpanAt(3);
    var sp1, sp2 := Span(t1, 0, 2, 0), Span(t2, 3, 3, 0);
    assert b.spans == [sp1] + [sp2];
    SpanAtLastSet([], sp1, 0);
    SpanAtLastSet([], sp1, 1);
    SpanAtLastSet([], sp1, 2);
    SpanAtUnaffected([sp1], sp2, 0);
    SpanAtUnaffected([sp1], sp2, 1);
    SpanAtUnaffected([sp1], sp2, 2);
    SpanAtLastSet([sp1], sp2, 3);
    assert s0 == Some(t1) && s1 == Some(t1) && s2 == Some(t1) && s3 == Some(t2);

    var g := new SpannableStringBuilder("abcd");
    ok := g.SetSpan(t1, 2, 3, 0);
    var g0 := g.GetSpanAt(0);
    SpanAtUnaffected([], Span(t1, 2, 3, 0), 0);
    assert g0 == None;

    var e := new SpannableStringBuilder("abcd");
    var e4 := e.GetSpanAt(4);
    assert e4 == None;
  }
}
