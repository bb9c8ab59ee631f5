/**
 The sentence chunker of the document ingestion: text is whitespace-normalised, cut
 into sentences after '.', '!' or '?', and the sentences are packed greedily.
 */
module SentenceChunks {

  /** What the regular expression library and strip() take for whitespace. */
  predicate IsSpace(c: char) {
    || c == ' ' || '\t' <= c <= '\r' || '\U{1C}' <= c <= '\U{1F}'
    || c == '\U{85}' || c == '\U{A0}' || c == '\U{1680}' || '\U{2000}' <= c <= '\U{200A}'
    || c == '\U{2028}' || c == '\U{2029}' || c == '\U{202F}' || c == '\U{205F}' || c == '\U{3000}'
  }

  predicate IsStop(c: char) {
    c == '.' || c == '!' || c == '?'
  }

  // ---- normalisation

  /** Replace every run of whitespace by one space. */
  function Collapse(s: string): string {
    if |s| == 0 then ""
    else if !IsSpace(s[0]) then [s[0]] + Collapse(s[1..])
    else if |s| > 1 && IsSpace(s[1]) then Collapse(s[1..])
    else " " + Collapse(s[1..])
  }

  function StripLeft(s: string): (r: string)
    ensures |r| <= |s|
  {
    if |s| > 0 && IsSpace(s[0]) then StripLeft(s[1..]) else s
  }

  function StripRight(s: string): string {
    if |s| > 0 && IsSpace(s[|s| - 1]) then StripRight(s[..|s| - 1]) else s
  }

  function Strip(s: string): string {
    StripRight(StripLeft(s))
  }

  function Normalize(text: string): string {
    Strip(Collapse(text))
  }

  /** No whitespace but single spaces. */
  predicate Collapsed(s: string) {
    forall i :: 0 <= i < |s| && IsSpace(s[i]) ==> s[i] == ' ' && (i + 1 < |s| ==> !IsSpace(s[i + 1]))
  }

  /** No whitespace at either end. */
  predicate Trimmed(s: string) {
    |s| > 0 ==> !IsSpace(s[0]) && !IsSpace(s[|s| - 1])
  }

  predicate Normal(s: string) {
    Collapsed(s) && Trimmed(s)
  }

  lemma {:induction false} CollapseCollapses(s: string)
    ensures Collapsed(Collapse(s))
    ensures |s| > 0 && !IsSpace(s[0]) ==> |Collapse(s)| > 0 && !IsSpace(Collapse(s)[0])
  {
    if |s| > 0 {
      CollapseCollapses(s[1..]);
      var rest := Collapse(s[1..]);
      if !IsSpace(s[0]) {
        assert forall i :: 0 < i <= |rest| ==> Collapse(s)[i] == rest[i - 1];
      } else if !(|s| > 1 && IsSpace(s[1])) {
        assert |s| > 1 ==> !IsSpace(rest[0]);
        assert forall i :: 0 < i <= |rest| ==> Collapse(s)[i] == rest[i - 1];
      }
    }
  }

  lemma {:induction false} StripLeftKeeps(s: string)
    requires Collapsed(s)
    ensures Collapsed(StripLeft(s))
    ensures |StripLeft(s)| > 0 ==> !IsSpace(StripLeft(s)[0])
  {
    if |s| > 0 && IsSpace(s[0]) {
      assert forall i :: 0 <= i < |s| - 1 ==> s[1..][i] == s[i + 1];
      StripLeftKeeps(s[1..]);
    }
  }

  lemma {:induction false} StripRightKeeps(s: string)
    requires Collapsed(s) && (|s| > 0 ==> !IsSpace(s[0]))
    ensures Normal(StripRight(s))
  {
    if |s| > 0 && IsSpace(s[|s| - 1]) {
      StripRightKeeps(s[..|s| - 1]);
    }
  }

  lemma NormalizeIsNormal(text: string)
    ensures Normal(Normalize(text))
  {
    CollapseCollapses(text);
    StripLeftKeeps(Collapse(text));
    StripRightKeeps(StripLeft(Collapse(text)));
  }

  lemma {:induction false} CollapsedIsFixed(s: string)
    requires Collapsed(s)
    ensures Collapse(s) == s
  {
    if |s| > 0 {
      assert forall i :: 0 <= i < |s| - 1 ==> s[1..][i] == s[i + 1];
      CollapsedIsFixed(s[1..]);
    }
  }

  lemma TrimmedIsFixed(s: string)
    requires Trimmed(s)
    ensures Strip(s) == s
  {
  }

  /** Exactly the normal texts are left alone, so normalizing again changes nothing. */
  lemma NormalizeFixesIff(text: string)
    ensures Normalize(text) == text <==> Normal(text)
    ensures Normalize(Normalize(text)) == Normalize(text)
  {
    NormalizeIsNormal(text);
    forall s: string | Normal(s)
      ensures Normalize(s) == s
    {
      CollapsedIsFixed(s);
      TrimmedIsFixed(s);
    }
  }

  // ---- sentences

  /** Where the first sentence of a normalised text ends: the first stop followed by a space, or the end. */
  function SentenceEnd(s: string, from: nat): (n: nat)
    requires from < |s|
    ensures from < n <= |s|
    ensures n < |s| ==> IsStop(s[n - 1]) && IsSpace(s[n])
    decreases |s| - from
  {
    if from + 1 == |s| || (IsStop(s[from]) && IsSpace(s[from + 1])) then from + 1 else SentenceEnd(s, from + 1)
  }

  /** Cut after each stop that whitespace follows; the whitespace itself is dropped. */
  function Sentences(s: string): (r: seq<string>)
    ensures |r| > 0
    decreases |s|
  {
    if |s| == 0 then [""]
    else
      var n := SentenceEnd(s, 0);
      if n == |s| then [s] else [s[..n]] + Sentences(StripLeft(s[n..]))
  }

  function Join(parts: seq<string>): string {
    if |parts| == 0 then ""
    else if |parts| == 1 then parts[0]
    else Join(parts[..|parts| - 1]) + " " + parts[|parts| - 1]
  }

  predicate Piece(s: string) {
    |s| > 0 && Trimmed(s)
  }

  lemma {:induction false} JoinConcat(a: seq<string>, b: seq<string>)
    requires |a| > 0 && |b| > 0
    ensures Join(a + b) == Join(a) + " " + Join(b)
  {
    var n := |b| - 1;
    assert (a + b)[..|a + b| - 1] == a + b[..n];
    if n > 0 {
      JoinConcat(a, b[..n]);
    } else {
      assert a + b[..n] == a;
    }
  }

  /** Cutting a normalised text after a sentence leaves a sentence and a shorter normalised text. */
  lemma CutSentence(s: string, n: nat)
    requires Normal(s) && 0 < n < |s| && IsSpace(s[n])
    ensures n + 1 < |s| && StripLeft(s[n..]) == s[n + 1..] && Normal(s[n + 1..])
    ensures Piece(s[..n]) && s == s[..n] + " " + s[n + 1..]
  {
    var rest := s[n + 1..];
    assert n + 1 < |s|;
    assert s[n..][1..] == rest && !IsSpace(rest[0]);
    assert !IsSpace(s[n - 1]);
    assert Collapsed(rest) by {
      assert forall i :: 0 <= i < |rest| ==> rest[i] == s[n + 1 + i];
    }
  }

  /** The sentences of a normalised text are non-empty and trimmed, and joining them gives the text back. */
  lemma {:induction false} SentencesRoundTrip(s: string)
    requires Normal(s) && |s| > 0
    ensures Join(Sentences(s)) == s
    ensures forall i :: 0 <= i < |Sentences(s)| ==> Piece(Sentences(s)[i])
    decreases |s|
  {
    var n := SentenceEnd(s, 0);
    if n < |s| {
      CutSentence(s, n);
      SentencesRoundTrip(s[n + 1..]);
      JoinConcat([s[..n]], Sentences(s[n + 1..]));
    }
  }

  // ---- which sentences these are

  /** The characters between words. */
  predicate White(c: char) {
    c in {'\t', '\n', '\U{0B}', '\U{0C}', '\r', '\U{1C}', '\U{1D}', '\U{1E}', '\U{1F}', ' ', '\U{85}', '\U{A0}',
          '\U{1680}', '\U{2000}', '\U{2001}', '\U{2002}', '\U{2003}', '\U{2004}', '\U{2005}', '\U{2006}', '\U{2007}',
          '\U{2008}', '\U{2009}', '\U{200A}', '\U{2028}', '\U{2029}', '\U{202F}', '\U{205F}', '\U{3000}'}
  }

  lemma SpaceIsWhite(c: char)
    ensures IsSpace(c) <==> White(c)
  {
  }

  /** A full stop, an exclamation mark or a question mark, with whitespace after it. */
  ghost predicate Breaks(s: string, k: nat) {
    k + 1 < |s| && (s[k] == '.' || s[k] == '!' || s[k] == '?') && White(s[k + 1])
  }

  ghost predicate Stopped(s: string) {
    |s| > 0 && (s[|s| - 1] == '.' || s[|s| - 1] == '!' || s[|s| - 1] == '?')
  }

  /** The text, cut at every break and nowhere else. */
  ghost predicate CutAtStops(sentences: seq<string>, s: string) {
    && |sentences| > 0 && Join(sentences) == s
    && (forall i, k :: 0 <= i < |sentences| ==> !Breaks(sentences[i], k))
    && (forall i :: 0 <= i < |sentences| - 1 ==> Stopped(sentences[i]))
  }

  lemma SentenceEndsAtBreak(s: string, from: nat)
    requires from < |s|
    ensures var n := SentenceEnd(s, from);
      && (forall k :: from <= k < n - 1 ==> !Breaks(s, k))
      && (n < |s| ==> Stopped(s[..n]))
    decreases |s| - from
  {
    if from + 1 < |s| {
      SpaceIsWhite(s[from + 1]);
      if !(IsStop(s[from]) && IsSpace(s[from + 1])) {
        SentenceEndsAtBreak(s, from + 1);
      }
    }
  }

  lemma {:induction false} SentencesCutAtStops(s: string)
    requires Normal(s) && |s| > 0
    ensures CutAtStops(Sentences(s), s)
    decreases |s|
  {
    var n := SentenceEnd(s, 0);
    SentenceEndsAtBreak(s, 0);
    SentencesRoundTrip(s);
    forall k
      ensures !Breaks(s[..n], k)
    {
      assert Breaks(s[..n], k) ==> Breaks(s, k);
    }
    if n < |s| {
      CutSentence(s, n);
      var tail := Sentences(s[n + 1..]);
      SentencesCutAtStops(s[n + 1..]);
      assert Sentences(s) == [s[..n]] + tail;
      CutFurther(s, s[..n], tail);
    }
  }

  lemma CutFurther(s: string, first: string, tail: seq<string>)
    requires (forall k :: !Breaks(first, k)) && Stopped(first) && CutAtStops(tail, Join(tail))
    requires Join([first] + tail) == s
    ensures CutAtStops([first] + tail, s)
  {
    var all := [first] + tail;
    assert forall i :: 0 < i < |all| ==> all[i] == tail[i - 1];
  }

  /** The first sentence of one cut is no longer than that of another. */
  lemma {:induction false} CutNoLater(a: seq<string>, b: seq<string>, s: string)
    requires CutAtStops(a, s) && CutAtStops(b, s)
    ensures |b[0]| <= |a[0]| && a[0] <= s && (|a| == 1 <==> a[0] == s)
    ensures |a| > 1 ==> CutAtStops(a[1..], Join(a[1..])) && s == a[0] + " " + Join(a[1..])
  {
    JoinHead(a);
    JoinHead(b);
    if |a| > 1 {
      assert forall i :: 0 <= i < |a[1..]| ==> a[1..][i] == a[i + 1];
      assert s[|a[0]|] == ' ' && s[|a[0]| - 1] == a[0][|a[0]| - 1];
      assert |a[0]| < |b[0]| ==> Breaks(b[0], |a[0]| - 1);
    }
  }

  lemma {:induction false} JoinHead(parts: seq<string>)
    requires |parts| > 0
    ensures Join(parts) == if |parts| == 1 then parts[0] else parts[0] + " " + Join(parts[1..])
  {
    if |parts| > 1 {
      assert parts == [parts[0]] + parts[1..];
      JoinConcat([parts[0]], parts[1..]);
    }
  }

  /** A text can be cut at its stops in one way only. */
  lemma {:induction false} CutIsUnique(a: seq<string>, b: seq<string>, s: string)
    requires CutAtStops(a, s) && CutAtStops(b, s)
    ensures a == b
    decreases |s|
  {
    CutNoLater(a, b, s);
    CutNoLater(b, a, s);
    assert a[0] == s[..|a[0]|] == b[0];
    if |a| > 1 {
      assert Join(a[1..]) == s[|a[0]| + 1..] == Join(b[1..]);
      CutIsUnique(a[1..], b[1..], Join(a[1..]));
      assert a == [a[0]] + a[1..] && b == [b[0]] + b[1..];
    } else {
      assert a == [a[0]] && b == [b[0]];
    }
  }

  // ---- which text this is

  /** The words of a text: what is left between the whitespace. */
  ghost function WordsOf(text: string): (words: seq<string>)
    ensures |text| > 0 && !White(text[0]) ==> |words| > 0
  {
    if |text| == 0 then []
    else if White(text[0]) then WordsOf(text[1..])
    else
      var rest := WordsOf(text[1..]);
      if |text| > 1 && !White(text[1]) then [[text[0]] + rest[0]] + rest[1..] else [[text[0]]] + rest
  }

  lemma {:induction false} WordsAreWords(text: string)
    ensures forall w, k :: w in WordsOf(text) && 0 <= k < |w| ==> !White(w[k])
    ensures forall w :: w in WordsOf(text) ==> |w| > 0
    ensures |text| > 0 && !White(text[0]) ==> WordsOf(text)[0][0] == text[0]
  {
    if |text| > 0 {
      WordsAreWords(text[1..]);
    }
  }

  lemma {:induction false} JoinCons(first: string, rest: seq<string>)
    ensures Join([first] + rest) == if |rest| == 0 then first else first + " " + Join(rest)
  {
    if |rest| > 0 {
      JoinConcat([first], rest);
    } else {
      assert [first] + rest == [first];
    }
  }

  /** Joining words, the first of them longer by a letter. */
  lemma {:induction false} JoinLetter(c: char, first: string, rest: seq<string>)
    ensures Join([[c] + first] + rest) == [c] + Join([first] + rest)
  {
    JoinCons(first, rest);
    JoinCons([c] + first, rest);
  }

  /** A blank where whitespace was at the end that is looked at, and words are there. */
  ghost function Blank(text: string, at: int): string {
    if 0 <= at < |text| && White(text[at]) then " " else ""
  }

  /** The text collapsed: its words, with a blank where whitespace was at an end. */
  ghost predicate Shrinks(text: string, words: seq<string>, collapsed: string) {
    if words == [] then collapsed == Blank(text, 0) && forall i :: 0 <= i < |text| ==> White(text[i])
    else collapsed == Blank(text, 0) + Join(words) + Blank(text, |text| - 1)
  }

  lemma {:induction false} CollapseJoinsWords(text: string)
    ensures Shrinks(text, WordsOf(text), Collapse(text))
  {
    if |text| > 0 {
      CollapseJoinsWords(text[1..]);
      SpaceIsWhite(text[0]);
      if |text| > 1 {
        SpaceIsWhite(text[1]);
      }
      assert forall i :: 0 < i < |text| ==> text[i] == text[1..][i - 1];
      if White(text[0]) {
        ShrinksBlank(text, text[1..], WordsOf(text[1..]), Collapse(text[1..]));
      } else if |text| > 1 && !White(text[1]) {
        ShrinksLetter(text, text[1..], WordsOf(text[1..]), Collapse(text[1..]));
      } else {
        ShrinksWord(text, text[1..], WordsOf(text[1..]), Collapse(text[1..]));
      }
    }
  }

  /** Whitespace in front of whitespace adds nothing, and otherwise a blank. */
  lemma {:induction false} ShrinksBlank(text: string, tail: string, words: seq<string>, collapsed: string)
    requires |text| > 0 && White(text[0]) && Shrinks(tail, words, collapsed)
    requires |tail| == |text| - 1 && forall i :: 0 < i < |text| ==> text[i] == tail[i - 1]
    requires |tail| == 0 ==> words == []
    ensures Shrinks(text, words, if |text| > 1 && White(text[1]) then collapsed else " " + collapsed)
  {
    if |text| > 1 {
      assert text[1] == tail[0];
      assert text[|text| - 1] == tail[|tail| - 1];
    }
  }

  /** A letter in front of a letter makes the first word longer. */
  lemma {:induction false} ShrinksLetter(text: string, tail: string, words: seq<string>, collapsed: string)
    requires |text| > 1 && !White(text[0]) && !White(text[1]) && Shrinks(tail, words, collapsed) && |words| > 0
    requires |tail| == |text| - 1 && forall i :: 0 < i < |text| ==> text[i] == tail[i - 1]
    ensures Shrinks(text, [[text[0]] + words[0]] + words[1..], [text[0]] + collapsed)
  {
    assert text[1] == tail[0] && text[|text| - 1] == tail[|tail| - 1];
    assert words == [words[0]] + words[1..];
    JoinLetter(text[0], words[0], words[1..]);
  }

  /** A letter in front of whitespace, or at the end, is a word. */
  lemma {:induction false} ShrinksWord(text: string, tail: string, words: seq<string>, collapsed: string)
    requires |text| > 0 && !White(text[0]) && (|text| > 1 ==> White(text[1])) && Shrinks(tail, words, collapsed)
    requires |tail| == |text| - 1 && forall i :: 0 < i < |text| ==> text[i] == tail[i - 1]
    requires |tail| == 0 ==> words == []
    ensures Shrinks(text, [[text[0]]] + words, [text[0]] + collapsed)
  {
    JoinCons([text[0]], words);
    if |text| > 1 {
      assert text[1] == tail[0] && text[|text| - 1] == tail[|tail| - 1];
    }
  }

  lemma StripBlanks(before: string, s: string, after: string)
    requires |s| > 0 && Trimmed(s) && before in {"", " "} && after in {"", " "}
    ensures Strip(before + s + after) == s
  {
    var all := before + s + after;
    if before == " " {
      assert all[1..] == s + after;
    } else {
      assert all == s + after;
    }
    assert StripLeft(all) == s + after;
    if after == " " {
      var t := s + " ";
      assert t[|t| - 1] == ' ' && t[..|t| - 1] == s;
      assert StripRight(t) == StripRight(s);
    } else {
      assert s + after == s;
    }
  }

  lemma {:induction false} JoinedWordsAreTrimmed(words: seq<string>)
    requires |words| > 0 && forall i :: 0 <= i < |words| ==> Piece(words[i])
    ensures Piece(Join(words))
  {
    var n := |words| - 1;
    assert Piece(words[n]);
    if n > 0 {
      JoinedWordsAreTrimmed(words[..n]);
      JoinedIsPiece(Join(words[..n]), words[n]);
    }
  }

  lemma JoinedIsPiece(a: string, b: string)
    requires Piece(a) && Piece(b)
    ensures Piece(a + " " + b)
  {
    var all := a + " " + b;
    assert all[0] == a[0] && all[|all| - 1] == b[|b| - 1];
  }

  /** Normalising a text is joining its words by single spaces. */
  lemma NormalizeJoinsWords(text: string)
    ensures Normalize(text) == Join(WordsOf(text))
  {
    CollapseJoinsWords(text);
    WordsAreWords(text);
    var words := WordsOf(text);
    if |words| > 0 {
      forall i | 0 <= i < |words|
        ensures Piece(words[i])
      {
        var word := words[i];
        assert word in words && |word| > 0;
        SpaceIsWhite(word[0]);
        SpaceIsWhite(word[|word| - 1]);
      }
      JoinedWordsAreTrimmed(words);
      StripBlanks(Blank(text, 0), Join(words), Blank(text, |text| - 1));
    } else {
      assert " "[1..] == "";
    }
  }

  // ---- packing

  /** A group of sentences may form a chunk: it fits, or it is a single sentence. */
  predicate Fits(group: seq<string>, size: int) {
    |group| == 1 || (|group| > 1 && |Join(group)| <= size)
  }

  predicate Split(groups: seq<seq<string>>, size: int) {
    forall i :: 0 <= i < |groups| ==> Fits(groups[i], size)
  }

  function Concat(groups: seq<seq<string>>): seq<string> {
    if |groups| == 0 then [] else groups[0] + Concat(groups[1..])
  }

  /** Pack `rest` onto the open group `current`, closing it when the next sentence does not fit. */
  ghost function Pack(current: seq<string>, rest: seq<string>, size: int): seq<seq<string>>
    decreases |rest|
  {
    if |rest| == 0 then
      if |current| == 0 then [] else [current]
    else if |current| > 0 && |Join(current)| + |rest[0]| + 1 > size then
      [current] + Pack([rest[0]], rest[1..], size)
    else
      Pack(current + [rest[0]], rest[1..], size)
  }

  lemma {:induction false} PackKeepsSentences(current: seq<string>, rest: seq<string>, size: int)
    ensures Concat(Pack(current, rest, size)) == current + rest
    decreases |rest|
  {
    if |rest| == 0 {
      if |current| > 0 {
        assert [current][1..] == [];
        assert current + [] == current;
      }
    } else if |current| > 0 && |Join(current)| + |rest[0]| + 1 > size {
      PackKeepsSentences([rest[0]], rest[1..], size);
      var tail := Pack([rest[0]], rest[1..], size);
      assert ([current] + tail)[1..] == tail;
      assert [rest[0]] + rest[1..] == rest;
    } else {
      PackKeepsSentences(current + [rest[0]], rest[1..], size);
      assert current + [rest[0]] + rest[1..] == current + rest;
    }
  }

  lemma {:induction false} PackFits(current: seq<string>, rest: seq<string>, size: int)
    requires |current| == 0 || Fits(current, size)
    ensures Split(Pack(current, rest, size), size)
    decreases |rest|
  {
    if |rest| > 0 {
      if |current| > 0 && |Join(current)| + |rest[0]| + 1 > size {
        PackFits([rest[0]], rest[1..], size);
      } else {
        assert (current + [rest[0]])[..|current|] == current;
        PackFits(current + [rest[0]], rest[1..], size);
      }
    }
  }

  /** A contiguous part of a group is no longer than the group. */
  lemma PartIsShorter(before: seq<string>, part: seq<string>, after: seq<string>)
    requires |part| > 0
    ensures |Join(part)| <= |Join(before + part + after)|
  {
    if |before| > 0 {
      JoinConcat(before, part);
    } else {
      assert before + part == part;
    }
    if |after| > 0 {
      JoinConcat(before + part, after);
    } else {
      assert before + part + after == before + part;
    }
  }

  lemma {:induction false} ConcatNonEmpty(groups: seq<seq<string>>)
    requires |Concat(groups)| > 0
    ensures |groups| > 0
  {
  }

  /**
   Greedy stays ahead: a split of any text that ends with what is still to be packed
   needs at least as many groups.  If the first group of the other split reached past
   the open group, it would contain a part too long to fit.
   */
  lemma {:induction false} PackIsMinimal(
    before: seq<string>, current: seq<string>, rest: seq<string>, size: int, groups: seq<seq<string>>)
    requires |current| > 0
    requires Split(groups, size) && Concat(groups) == before + current + rest
    ensures |Pack(current, rest, size)| <= |groups|
    decreases |rest|
  {
    ConcatNonEmpty(groups);
    if |rest| > 0 {
      var next := rest[0];
      if |Join(current)| + |next| + 1 > size {
        var g, more := groups[0], groups[1..];
        var upTo := before + current;
        assert Fits(g, size);
        assert Concat(groups) == g + Concat(more);
        if |g| > |upTo| {
          var part, after := current + [next], g[|upTo| + 1..];
          assert part[..|current|] == current;
          assert g[|upTo|] == Concat(groups)[|upTo|] == next;
          assert g == Concat(groups)[..|g|];
          assert g[..|upTo|] == upTo;
          assert g == before + part + after;
          PartIsShorter(before, part, after);
          assert false;
        }
        assert Concat(more) == (before + current + rest)[|g|..];
        assert Concat(more) == upTo[|g|..] + [next] + rest[1..];
        PackIsMinimal(upTo[|g|..], [next], rest[1..], size, more);
      } else {
        assert before + current + rest == before + (current + [next]) + rest[1..];
        PackIsMinimal(before, current + [next], rest[1..], size, groups);
      }
    }
  }

  // ---- the chunker

  function Joined(groups: seq<seq<string>>): (r: seq<string>)
    ensures |r| == |groups|
  {
    seq(|groups|, i requires 0 <= i < |groups| => Join(groups[i]))
  }

  lemma {:induction false} JoinOfJoined(groups: seq<seq<string>>)
    requires forall i :: 0 <= i < |groups| ==> |groups[i]| > 0
    ensures Join(Joined(groups)) == Join(Concat(groups))
  {
    if |groups| == 1 {
      assert groups[0] + Concat(groups[1..]) == groups[0];
    } else if |groups| > 1 {
      JoinOfJoined(groups[1..]);
      assert Joined(groups) == [Join(groups[0])] + Joined(groups[1..]);
      JoinConcat([Join(groups[0])], Joined(groups[1..]));
      assert Concat(groups[1..]) == groups[1] + Concat(groups[1..][1..]);
      JoinConcat(groups[0], Concat(groups[1..]));
    }
  }

  /** A group could not have taken the first sentence of the next one. */
  predicate NoRoom(group: seq<string>, next: seq<string>, size: int) {
    |next| > 0 && |Join(group)| + |next[0]| + 1 > size
  }

  predicate Full(groups: seq<seq<string>>, size: int) {
    |groups| >= 2 ==> NoRoom(groups[0], groups[1], size) && Full(groups[1..], size)
  }

  lemma FullFurther(group: seq<string>, tail: seq<seq<string>>, size: int)
    requires Full(tail, size) && (|tail| > 0 ==> NoRoom(group, tail[0], size))
    ensures Full([group] + tail, size)
  {
    assert ([group] + tail)[1..] == tail;
  }

  ghost predicate StartsWith(groups: seq<seq<string>>, first: string) {
    |groups| > 0 && |groups[0]| > 0 && groups[0][0] == first
  }

  lemma {:induction false} PackIsFull(current: seq<string>, rest: seq<string>, size: int)
    ensures Full(Pack(current, rest, size), size)
    ensures |current| > 0 ==> StartsWith(Pack(current, rest, size), current[0])
    decreases |rest|
  {
    if |rest| > 0 {
      if |current| > 0 && |Join(current)| + |rest[0]| + 1 > size {
        PackIsFull([rest[0]], rest[1..], size);
        FullFurther(current, Pack([rest[0]], rest[1..], size), size);
      } else {
        PackIsFull(current + [rest[0]], rest[1..], size);
      }
    }
  }

  /** A group that begins with a part too long to fit does not fit itself. */
  lemma LongerDoesNotFit(part: seq<string>, group: seq<string>, size: int)
    requires |part| > 1 && |Join(part)| > size
    ensures part <= group ==> !Fits(group, size)
  {
    if part <= group {
      assert group == [] + part + group[|part|..];
      PartIsShorter([], part, group[|part|..]);
    }
  }

  /** What a full group and the first sentence after it come to. */
  lemma {:induction false} NextDoesNotFit(groups: seq<seq<string>>, size: int)
    requires |groups| > 1 && NoRoom(groups[0], groups[1], size) && |groups[0]| > 0
    ensures |Concat(groups)| > |groups[0]| && |Join(Concat(groups)[..|groups[0]| + 1])| > size
  {
    var first, next := groups[0], groups[1][0];
    assert Concat(groups[1..]) == groups[1] + Concat(groups[1..][1..]);
    assert Concat(groups)[..|first| + 1] == first + [next];
    JoinConcat(first, [next]);
  }

  lemma FirstIsPrefix(groups: seq<seq<string>>)
    requires |groups| > 0
    ensures groups[0] <= Concat(groups) && (|groups| == 1 ==> Concat(groups) == groups[0])
  {
  }

  /** One full split of the sentences does not start with fewer of them than another. */
  lemma {:induction false} FirstNoLarger(a: seq<seq<string>>, b: seq<seq<string>>, size: int)
    requires Concat(a) == Concat(b) && |a| > 0 && |b| > 0
    requires Fits(a[0], size) && Fits(b[0], size) && Full(a, size)
    ensures |b[0]| <= |a[0]|
  {
    FirstIsPrefix(a);
    FirstIsPrefix(b);
    if |a| > 1 {
      NextDoesNotFit(a, size);
      var longer := Concat(a)[..|a[0]| + 1];
      LongerDoesNotFit(longer, b[0], size);
      PrefixesCompare(longer, b[0], Concat(a));
    }
  }

  lemma PrefixesCompare<T>(p: seq<T>, q: seq<T>, s: seq<T>)
    requires p <= s && q <= s
    ensures p <= q <==> |p| <= |q|
  {
  }

  lemma SplitNonEmpty(groups: seq<seq<string>>, size: int)
    requires Split(groups, size)
    ensures |groups| > 0 ==> Fits(groups[0], size) && |Concat(groups)| > 0 && Split(groups[1..], size)
  {
  }

  /** So a text can be packed into full groups in one way only. */
  lemma {:induction false} FullSplitIsUnique(a: seq<seq<string>>, b: seq<seq<string>>, size: int)
    requires Concat(a) == Concat(b) && Split(a, size) && Split(b, size) && Full(a, size) && Full(b, size)
    ensures a == b
    decreases |a|
  {
    SplitNonEmpty(a, size);
    SplitNonEmpty(b, size);
    if |a| > 0 {
      ConcatNonEmpty(b);
      FirstNoLarger(a, b, size);
      FirstNoLarger(b, a, size);
      FirstIsPrefix(a);
      FirstIsPrefix(b);
      assert a[0] == Concat(a)[..|a[0]|] == b[0];
      assert Concat(a[1..]) == Concat(a)[|a[0]|..] == Concat(b[1..]);
      FullSplitIsUnique(a[1..], b[1..], size);
      assert a == [a[0]] + a[1..] && b == [b[0]] + b[1..];
    }
  }

  /** `chunks` are the joined groups of a split of the sentences, each group is full, and no split uses fewer. */
  ghost predicate MinimalSplit(chunks: seq<string>, sentences: seq<string>, size: int) {
    exists groups ::
      && chunks == Joined(groups)
      && Concat(groups) == sentences && Split(groups, size) && Full(groups, size)
      && forall other :: Concat(other) == sentences && Split(other, size) ==> |groups| <= |other|
  }

  lemma PackStart(sentences: seq<string>, size: int)
    requires |sentences| > 0
    ensures Pack([], sentences, size) == Pack([sentences[0]], sentences[1..], size)
  {
    assert [] + [sentences[0]] == [sentences[0]];
  }

  lemma PackIsLeast(sentences: seq<string>, size: int, other: seq<seq<string>>)
    requires |sentences| > 0 && Concat(other) == sentences && Split(other, size)
    ensures |Pack([], sentences, size)| <= |other|
  {
    PackStart(sentences, size);
    assert sentences == [] + [sentences[0]] + sentences[1..];
    PackIsMinimal([], [sentences[0]], sentences[1..], size, other);
  }

  lemma PackIsMinimalSplit(sentences: seq<string>, size: int)
    requires |sentences| > 0
    ensures MinimalSplit(Joined(Pack([], sentences, size)), sentences, size)
  {
    var groups := Pack([], sentences, size);
    PackKeepsSentences([], sentences, size);
    PackFits([], sentences, size);
    PackIsFull([], sentences, size);
    assert [] + sentences == sentences;
    forall other | Concat(other) == sentences && Split(other, size)
      ensures |groups| <= |other|
    {
      PackIsLeast(sentences, size, other);
    }
  }

  /** A text that fits as a whole is one chunk, which is what packing its sentences gives too. */
  lemma WholeIsMinimal(sentences: seq<string>, size: int)
    requires |sentences| > 0 && |Join(sentences)| <= size
    ensures MinimalSplit([Join(sentences)], sentences, size)
  {
    var groups := [sentences];
    assert groups[1..] == [];
    assert Concat(groups) == sentences;
    assert Joined(groups) == [Join(sentences)];
    forall other | Concat(other) == sentences && Split(other, size)
      ensures |groups| <= |other|
    {
      ConcatNonEmpty(other);
    }
  }

  lemma MinimalSplitJoins(chunks: seq<string>, sentences: seq<string>, size: int)
    requires MinimalSplit(chunks, sentences, size)
    ensures Join(chunks) == Join(sentences)
    ensures forall i :: 0 <= i < |chunks| ==> |chunks[i]| <= size || chunks[i] in sentences
  {
    var groups :| && chunks == Joined(groups) && Concat(groups) == sentences && Split(groups, size)
      && Full(groups, size)
      && forall other :: Concat(other) == sentences && Split(other, size) ==> |groups| <= |other|;
    JoinOfJoined(groups);
    forall i | 0 <= i < |chunks|
      ensures |chunks[i]| <= size || chunks[i] in sentences
    {
      if |groups[i]| == 1 {
        GroupInConcat(groups, i);
      }
    }
  }

  lemma {:induction false} GroupInConcat(groups: seq<seq<string>>, i: nat)
    requires i < |groups| && |groups[i]| > 0
    ensures groups[i][0] in Concat(groups)
  {
    if i > 0 {
      GroupInConcat(groups[1..], i - 1);
    }
  }

  /** Appending a sentence to the running text is joining one more sentence. */
  lemma JoinStripped(open: seq<string>, current: string, sentence: string)
    requires Join(open) == current && (|open| == 0 <==> |current| == 0) && Trimmed(current)
    requires Piece(sentence)
    ensures Strip(current + " " + sentence) == Join(open + [sentence])
    ensures Piece(Strip(current + " " + sentence))
  {
    var s := current + " " + sentence;
    assert (open + [sentence])[..|open|] == open;
    if |current| == 0 {
      assert s[1..] == sentence;
      assert StripLeft(s) == sentence;
    } else {
      assert s[0] == current[0] && s[|s| - 1] == sentence[|sentence| - 1];
    }
  }

  /** What the loop has packed is the same whether it closes the open group or goes on with it. */
  lemma {:induction false} PackOne(open: seq<string>, sentence: string, rest: seq<string>, size: int)
    ensures Pack(open, [sentence] + rest, size) ==
      if |open| > 0 && |Join(open)| + |sentence| + 1 > size then [open] + Pack([sentence], rest, size)
      else Pack(open + [sentence], rest, size)
  {
    assert ([sentence] + rest)[1..] == rest;
  }

  /** The groups closed and open after some of the sentences, and what the running text and the chunks are of them. */
  ghost predicate Packing(
    sentences: seq<string>, size: int, rest: seq<string>, closed: seq<seq<string>>, open: seq<string>,
    chunks: seq<string>, current: string)
  {
    && Joined(closed) == chunks && Join(open) == current
    && (|open| == 0 <==> |current| == 0) && Trimmed(current)
    && Pack([], sentences, size) == closed + Pack(open, rest, size)
  }

  lemma Regroup(
    whole: seq<seq<string>>, closed: seq<seq<string>>, open: seq<string>, tail: seq<seq<string>>)
    requires whole == closed + ([open] + tail)
    ensures whole == (closed + [open]) + tail
  {
  }

  lemma {:induction false} PackingCloses(
    sentences: seq<string>, size: int, sentence: string, rest: seq<string>, closed: seq<seq<string>>, open: seq<string>,
    chunks: seq<string>, current: string)
    requires Packing(sentences, size, [sentence] + rest, closed, open, chunks, current) && Piece(sentence)
    requires |current| + |sentence| + 1 > size && |current| > 0
    ensures Packing(sentences, size, rest, closed + [open], [sentence], chunks + [current], sentence)
  {
    PackOne(open, sentence, rest, size);
    CloseGroup(closed, open);
    Regroup(Pack([], sentences, size), closed, open, Pack([sentence], rest, size));
    assert Trimmed(sentence) && Join([sentence]) == sentence;
  }

  lemma {:induction false} PackingGoesOn(
    sentences: seq<string>, size: int, sentence: string, rest: seq<string>, closed: seq<seq<string>>, open: seq<string>,
    chunks: seq<string>, current: string)
    requires Packing(sentences, size, [sentence] + rest, closed, open, chunks, current) && Piece(sentence)
    requires !(|current| + |sentence| + 1 > size && |current| > 0)
    ensures Packing(sentences, size, rest, closed, open + [sentence], chunks, Strip(current + " " + sentence))
  {
    PackOne(open, sentence, rest, size);
    JoinStripped(open, current, sentence);
  }

  /** The packing loop: keep appending to the running text, close it when the next sentence does not fit. */
  method PackSentences(sentences: seq<string>, chunkSize: int) returns (chunks: seq<string>)
    requires forall i :: 0 <= i < |sentences| ==> Piece(sentences[i])
    ensures chunks == Joined(Pack([], sentences, chunkSize))
  {
    chunks := [];
    var current := "";
    ghost var closed: seq<seq<string>>, open: seq<string> := [], [];
    assert sentences[0..] == sentences && [] + Pack([], sentences, chunkSize) == Pack([], sentences, chunkSize);
    for k := 0 to |sentences|
      invariant Packing(sentences, chunkSize, sentences[k..], closed, open, chunks, current)
    {
      var sentence := sentences[k];
      assert sentences[k..] == [sentence] + sentences[k + 1..] && Piece(sentences[k]);
      if |current| + |sentence| + 1 > chunkSize && |current| > 0 {
        PackingCloses(sentences, chunkSize, sentence, sentences[k + 1..], closed, open, chunks, current);
        chunks := chunks + [current];
        current := sentence;
        closed, open := closed + [open], [sentence];
      } else {
        PackingGoesOn(sentences, chunkSize, sentence, sentences[k + 1..], closed, open, chunks, current);
        current := Strip(current + " " + sentence);
        open := open + [sentence];
      }
    }
    if |current| > 0 {
      CloseGroup(closed, open);
      chunks := chunks + [current];
    }
  }

  lemma CloseGroup(closed: seq<seq<string>>, open: seq<string>)
    ensures Joined(closed + [open]) == Joined(closed) + [Join(open)]
  {
  }

  /** The chunks are the fewest that these sentences can be packed into, and an over-long one is a sentence. */
  ghost predicate Packed(chunks: seq<string>, sentences: seq<string>, size: int) {
    && MinimalSplit(chunks, sentences, size)
    && forall i :: 0 <= i < |chunks| ==> |chunks[i]| <= size || chunks[i] in sentences
  }

  /**
   The chunks of a text: its words joined by single spaces, cut at the stops that
   whitespace follows, and packed into as few full chunks as there can be.
   */
  method Chunk(text: string, chunkSize: int) returns (chunks: seq<string>)
    ensures Join(chunks) == Join(WordsOf(text))
    ensures |WordsOf(text)| > 0 ==>
      exists sentences :: CutAtStops(sentences, Join(WordsOf(text))) && Packed(chunks, sentences, chunkSize)
    ensures |WordsOf(text)| == 0 ==> chunks == if chunkSize >= 0 then [""] else []
  {
    var normalized := Normalize(text);
    NormalizeIsNormal(text);
    NormalizeJoinsWords(text);
    WordsMakeText(text);
    if |normalized| > 0 {
      SentencesCutAtStops(normalized);
      SentencesRoundTrip(normalized);
    }
    if |normalized| <= chunkSize {
      if |normalized| > 0 {
        WholeIsMinimal(Sentences(normalized), chunkSize);
      }
      return [normalized];
    }
    if |normalized| == 0 {
      // The only sentence is empty, so the loop leaves the running text empty.
      return [];
    }
    chunks := PackSentences(Sentences(normalized), chunkSize);
    PackIsMinimalSplit(Sentences(normalized), chunkSize);
    MinimalSplitJoins(chunks, Sentences(normalized), chunkSize);
  }

  lemma WordsMakeText(text: string)
    ensures |WordsOf(text)| > 0 <==> |Normalize(text)| > 0
  {
    NormalizeJoinsWords(text);
    WordsAreWords(text);
    if |WordsOf(text)| > 0 {
      JoinHead(WordsOf(text));
      assert WordsOf(text)[0] in WordsOf(text);
    }
  }
}
