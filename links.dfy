/** URL extraction from a widget's text: the text is split into words at
    whitespace and every word that starts with "http://" is a URL. */
module Links {

  /** The characters a whitespace split breaks at: space, tab, line feed,
      vertical tab, form feed and carriage return. */
  predicate IsWhitespace(c: char)
  {
    c == ' ' || c == '\t' || c == '\n' || c == 11 as char || c == 12 as char || c == '\r'
  }

  predicate NoWhitespace(w: string)
  {
    forall i :: 0 <= i < |w| ==> !IsWhitespace(w[i])
  }

  const HttpScheme: string := "http://"

  predicate IsUrl(w: string)
  {
    |HttpScheme| <= |w| && w[..|HttpScheme|] == HttpScheme
  }

  /** The length of the run of non-whitespace characters that starts `s`. */
  function WordLength(s: string): (n: nat)
    ensures n <= |s|
    ensures NoWhitespace(s[..n])
    ensures n < |s| ==> IsWhitespace(s[n])
  {
    if s == [] || IsWhitespace(s[0]) then 0
    else
      var n := 1 + WordLength(s[1..]);
      assert forall i :: 1 <= i < n ==> s[..n][i] == s[1..][..n - 1][i - 1];
      n
  }

  /** The maximal non-empty runs of non-whitespace characters of `s`, in
      order. */
  function Words(s: string): (ws: seq<string>)
    ensures forall w :: w in ws ==> w != [] && NoWhitespace(w)
    decreases |s|
  {
    if s == [] then []
    else if IsWhitespace(s[0]) then Words(s[1..])
    else
      var n := WordLength(s);
      [s[..n]] + Words(s[n..])
  }

  /** The words of `ws` that are URLs, in order. */
  function KeepUrls(ws: seq<string>): (us: seq<string>)
    ensures |us| <= |ws|
    ensures forall i :: 0 <= i < |us| ==> IsUrl(us[i])
  {
    if ws == [] then []
    else (if IsUrl(ws[0]) then [ws[0]] else []) + KeepUrls(ws[1..])
  }

  /** Filtering keeps exactly the words that are URLs. */
  lemma {:induction false} KeepUrlsMembers(ws: seq<string>)
    ensures forall u :: u in KeepUrls(ws) <==> u in ws && IsUrl(u)
  {
    if ws != [] {
      KeepUrlsMembers(ws[1..]);
      assert ws == [ws[0]] + ws[1..];
    }
  }

  /** Filtering distributes over concatenation, so the URLs keep their order and multiplicity. */
  lemma {:induction false} KeepUrlsAppend(a: seq<string>, b: seq<string>)
    ensures KeepUrls(a + b) == KeepUrls(a) + KeepUrls(b)
  {
    if a != [] {
      assert (a + b)[1..] == a[1..] + b;
      KeepUrlsAppend(a[1..], b);
    } else {
      assert a + b == b;
    }
  }

  /** The URLs found in `s`, in the order they appear. */
  function Urls(s: string): (us: seq<string>)
    ensures forall u :: u in us ==> IsUrl(u) && NoWhitespace(u)
    ensures forall u :: u in us <==> u in Words(s) && IsUrl(u)
  {
    KeepUrlsMembers(Words(s));
    KeepUrls(Words(s))
  }

  /** `s` with its whitespace dropped. */
  function Letters(s: string): string
  {
    if s == [] then []
    else (if IsWhitespace(s[0]) then [] else [s[0]]) + Letters(s[1..])
  }

  function Concat(ws: seq<string>): string
  {
    if ws == [] then [] else ws[0] + Concat(ws[1..])
  }

  /** Words joined with one separator character between neighbours. */
  function JoinWith(ws: seq<string>, seps: seq<char>): string
    requires |seps| == if ws == [] then 0 else |ws| - 1
  {
    if ws == [] then []
    else if |ws| == 1 then ws[0]
    else ws[0] + [seps[0]] + JoinWith(ws[1..], seps[1..])
  }

  /** A word with no whitespace is all letters. */
  lemma {:induction false} LettersOfWord(w: string)
    requires NoWhitespace(w)
    ensures Letters(w) == w
  {
    if w != [] {
      LettersOfWord(w[1..]);
      assert w == [w[0]] + w[1..];
    }
  }

  /** Letters distribute over concatenation. */
  lemma {:induction false} LettersAppend(a: string, b: string)
    ensures Letters(a + b) == Letters(a) + Letters(b)
  {
    if a != [] {
      assert (a + b)[1..] == a[1..] + b;
      LettersAppend(a[1..], b);
    } else {
      assert a + b == b;
    }
  }

  /** Splitting loses nothing but whitespace: the words, put back together,
      are the non-whitespace characters of the text. */
  lemma {:induction false} WordsKeepAllLetters(s: string)
    ensures Concat(Words(s)) == Letters(s)
    decreases |s|
  {
    if s == [] {
    } else if IsWhitespace(s[0]) {
      WordsKeepAllLetters(s[1..]);
    } else {
      var n := WordLength(s);
      WordsKeepAllLetters(s[n..]);
      assert s == s[..n] + s[n..];
      LettersAppend(s[..n], s[n..]);
      LettersOfWord(s[..n]);
      assert Words(s) == [s[..n]] + Words(s[n..]);
    }
  }

  /** A word followed by a whitespace character or the end is read back as
      exactly that word. */
  lemma {:induction false} WordLengthOfWord(w: string, rest: string)
    requires NoWhitespace(w)
    requires rest == [] || IsWhitespace(rest[0])
    ensures WordLength(w + rest) == |w|
  {
    if w != [] {
      assert (w + rest)[1..] == w[1..] + rest;
      WordLengthOfWord(w[1..], rest);
    } else {
      assert w + rest == rest;
    }
  }

  /** A word followed by whitespace or the end splits off as the first
      word. */
  lemma WordsOfWordThen(w: string, rest: string)
    requires w != [] && NoWhitespace(w)
    requires rest == [] || IsWhitespace(rest[0])
    ensures Words(w + rest) == [w] + Words(rest)
  {
    WordLengthOfWord(w, rest);
    assert (w + rest)[..|w|] == w;
    assert (w + rest)[|w|..] == rest;
  }

  /** Leading whitespace is skipped. */
  lemma WordsOfSpaceThen(c: char, rest: string)
    requires IsWhitespace(c)
    ensures Words([c] + rest) == Words(rest)
  {
    assert ([c] + rest)[1..] == rest;
  }

  /** Splitting undoes joining: words without whitespace, joined with
      whitespace separators, split back into the same words. */
  lemma {:induction false} WordsOfJoin(ws: seq<string>, seps: seq<char>)
    requires |seps| == if ws == [] then 0 else |ws| - 1
    requires forall w :: w in ws ==> w != [] && NoWhitespace(w)
    requires forall c :: c in seps ==> IsWhitespace(c)
    ensures Words(JoinWith(ws, seps)) == ws
  {
    if ws == [] {
    } else if |ws| == 1 {
      assert ws[0] in ws;
      WordsOfWordThen(ws[0], []);
      assert ws[0] + [] == ws[0];
    } else {
      var w, tail := ws[0], JoinWith(ws[1..], seps[1..]);
      assert ws[0] in ws && seps[0] in seps;
      assert JoinWith(ws, seps) == w + ([seps[0]] + tail);
      WordsOfWordThen(w, [seps[0]] + tail);
      WordsOfSpaceThen(seps[0], tail);
      assert forall v :: v in ws[1..] ==> v in ws;
      assert forall c :: c in seps[1..] ==> c in seps;
      WordsOfJoin(ws[1..], seps[1..]);
      assert ws == [w] + ws[1..];
    }
  }

  /** The text of the widget test. */
  const ExampleText: string := "here's some text http://google.com/\nblah\thttp://another.com/123?456 blah"

  /** The same text as its words and the whitespace between them. */
  const ExampleWords: seq<string> :=
    ["here's", "some", "text", "http://google.com/", "blah", "http://another.com/123?456", "blah"]
  const ExampleSeparators: seq<char> := [' ', ' ', ' ', '\n', '\t', ' ']

  // The literal is taken apart from its end, one word or separator at a time.
  lemma PeelLastWord()
    ensures "here's some text http://google.com/\nblah\thttp://another.com/123?456 blah"
      == "here's some text http://google.com/\nblah\thttp://another.com/123?456 " + "blah"
    ensures "here's some text http://google.com/\nblah\thttp://another.com/123?456 "
      == "here's some text http://google.com/\nblah\thttp://another.com/123?456" + [' ']
  {
  }

  lemma PeelSecondUrl()
    ensures "here's some text http://google.com/\nblah\thttp://another.com/123?456"
      == "here's some text http://google.com/\nblah\t" + "http://another.com/123?456"
  {
  }

  lemma PeelMiddleWord()
    ensures "here's some text http://google.com/\nblah\t"
      == "here's some text http://google.com/\nblah" + ['\t']
    ensures "here's some text http://google.com/\nblah"
      == "here's some text http://google.com/\n" + "blah"
  {
  }

  lemma PeelFirstUrl()
    ensures "here's some text http://google.com/\n"
      == "here's some text http://google.com/" + ['\n']
    ensures "here's some text http://google.com/"
      == "here's some text " + "http://google.com/"
  {
  }

  lemma PeelFirstWords()
    ensures "here's some text "
      == "here's some text" + [' ']
    ensures "here's some text"
      == "here's some " + "text"
    ensures "here's some "
      == "here's some" + [' ']
    ensures "here's some"
      == "here's " + "some"
    ensures "here's "
      == "here's" + [' ']
  {
  }

  /** The test's text as its words and separators, concatenated. */
  lemma TextPieces()
    ensures ExampleText ==
      "here's" + [' '] + "some" + [' '] + "text" + [' '] + "http://google.com/" + ['\n'] + "blah" + ['\t'] + "http://another.com/123?456" + [' '] + "blah"
  {
    PeelLastWord();
    PeelSecondUrl();
    PeelMiddleWord();
    PeelFirstUrl();
    PeelFirstWords();
  }

  /** Thirteen pieces concatenated from the left or from the right. */
  lemma Reassociate(a0: string, a1: string, a2: string, a3: string, a4: string, a5: string, a6: string,
                    a7: string, a8: string, a9: string, a10: string, a11: string, a12: string)
    ensures a0 + a1 + a2 + a3 + a4 + a5 + a6 + a7 + a8 + a9 + a10 + a11 + a12
      == a0 + (a1 + (a2 + (a3 + (a4 + (a5 + (a6 + (a7 + (a8 + (a9 + (a10 + (a11 + a12)))))))))))
  {
  }

  /** Joining one more word on the front. */
  lemma JoinCons(w: string, ws: seq<string>, c: char, cs: seq<char>)
    requires ws != [] && |cs| == |ws| - 1
    ensures JoinWith([w] + ws, [c] + cs) == w + ([c] + JoinWith(ws, cs))
  {
    assert ([w] + ws)[1..] == ws && ([c] + cs)[1..] == cs;
  }

  /** Joining seven words spelled out. */
  lemma JoinSeven(w0: string, w1: string, w2: string, w3: string, w4: string, w5: string, w6: string,
                  c0: char, c1: char, c2: char, c3: char, c4: char, c5: char)
    ensures JoinWith([w0, w1, w2, w3, w4, w5, w6], [c0, c1, c2, c3, c4, c5]) ==
      w0 + ([c0] + (w1 + ([c1] + (w2 + ([c2] + (w3 + ([c3] + (w4 + ([c4] + (w5 + ([c5] + w6)))))))))))
  {
    assert JoinWith([w6], []) == w6;
    JoinCons(w5, [w6], c5, []);
    JoinCons(w4, [w5, w6], c4, [c5]);
    JoinCons(w3, [w4, w5, w6], c3, [c4, c5]);
    JoinCons(w2, [w3, w4, w5, w6], c2, [c3, c4, c5]);
    JoinCons(w1, [w2, w3, w4, w5, w6], c1, [c2, c3, c4, c5]);
    JoinCons(w0, [w1, w2, w3, w4, w5, w6], c0, [c1, c2, c3, c4, c5]);
  }

  /** The test's text is its words joined by its separators. */
  lemma ExampleTextIsJoin()
    ensures ExampleText == JoinWith(ExampleWords, ExampleSeparators)
  {
    TextPieces();
    Reassociate("here's", [' '], "some", [' '], "text", [' '], "http://google.com/", ['\n'], "blah", ['\t'],
      "http://another.com/123?456", [' '], "blah");
    JoinSeven("here's", "some", "text", "http://google.com/", "blah", "http://another.com/123?456", "blah",
      ' ', ' ', ' ', '\n', '\t', ' ');
  }

  /** The example's words hold no whitespace and its separators are all
      whitespace. */
  lemma ExamplePieces()
    ensures forall w :: w in ExampleWords ==> w != [] && NoWhitespace(w)
    ensures forall c :: c in ExampleSeparators ==> IsWhitespace(c)
  {
    assert NoWhitespace("here's") && NoWhitespace("some") && NoWhitespace("text");
    assert NoWhitespace("blah");
    assert NoWhitespace("http://google.com/");
    assert NoWhitespace("http://another.com/123?456");
  }

  /** The words of the text of the widget test. */
  lemma WordsExample()
    ensures Words(ExampleText) == ExampleWords
  {
    ExampleTextIsJoin();
    ExamplePieces();
    WordsOfJoin(ExampleWords, ExampleSeparators);
  }

  /** Which words of the example are URLs. */
  lemma UrlsExampleWords()
    ensures IsUrl("http://google.com/") && IsUrl("http://another.com/123?456")
    ensures !IsUrl("here's") && !IsUrl("some") && !IsUrl("text") && !IsUrl("blah")
  {
  }

  /** Filtering one word off the front. */
  lemma KeepUrlsCons(w: string, ws: seq<string>)
    ensures KeepUrls([w] + ws) == (if IsUrl(w) then [w] else []) + KeepUrls(ws)
  {
    assert ([w] + ws)[1..] == ws;
  }

  /** Filtering seven words of which only the fourth and the sixth are
      URLs. */
  lemma KeepUrlsOfUrlsAt3And5(w0: string, w1: string, w2: string, w3: string, w4: string, w5: string, w6: string)
    requires !IsUrl(w0) && !IsUrl(w1) && !IsUrl(w2) && IsUrl(w3) && !IsUrl(w4) && IsUrl(w5) && !IsUrl(w6)
    ensures KeepUrls([w0, w1, w2, w3, w4, w5, w6]) == [w3, w5]
  {
    KeepUrlsCons(w6, []);
    KeepUrlsCons(w5, [w6]);
    KeepUrlsCons(w4, [w5, w6]);
    KeepUrlsCons(w3, [w4, w5, w6]);
    KeepUrlsCons(w2, [w3, w4, w5, w6]);
    KeepUrlsCons(w1, [w2, w3, w4, w5, w6]);
    KeepUrlsCons(w0, [w1, w2, w3, w4, w5, w6]);
  }

  /** The URLs among the example's words. */
  lemma KeepUrlsExample()
    ensures KeepUrls(ExampleWords) == ["http://google.com/", "http://another.com/123?456"]
  {
    UrlsExampleWords();
    KeepUrlsOfUrlsAt3And5("here's", "some", "text", "http://google.com/", "blah", "http://another.com/123?456", "blah");
  }

  /** The text of the widget test yields its two URLs, in order. */
  lemma UrlsExample()
    ensures Urls(ExampleText) == ["http://google.com/", "http://another.com/123?456"]
  {
    WordsExample();
    KeepUrlsExample();
  }
}
