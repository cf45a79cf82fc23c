/** splitTextIntoSentences of src/utils/textUtils.js: the text is split
    with the capturing pattern /([。？])/, so that the pieces alternate
    between runs of other characters and single delimiters; a loop then
    gathers pieces into the current sentence, skips whitespace-only pieces,
    and completes the sentence at each delimiter. */
module TextUtils {
  import opened Common

  const PERIOD: char := '。'
  const QUESTION: char := '？'

  predicate IsDelimiter(c: char) {
    c == PERIOD || c == QUESTION
  }

  predicate NoDelimiter(s: string) {
    forall j | 0 <= j < |s| :: !IsDelimiter(s[j])
  }

  /** A piece the split captured: one delimiter. */
  predicate DelimiterPiece(p: string) {
    |p| == 1 && IsDelimiter(p[0])
  }

  /** text.split(/([。？])/): runs without a delimiter at the even positions,
      the delimiters themselves at the odd positions. */
  function Pieces(s: string): (r: seq<string>)
    ensures |r| % 2 == 1
    ensures forall i | 0 <= i < |r| :: if i % 2 == 0 then NoDelimiter(r[i]) else DelimiterPiece(r[i])
    decreases |s|
  {
    if s == [] then [""]
    else
      var rest := Pieces(s[1..]);
      if IsDelimiter(s[0]) then ["", [s[0]]] + rest
      else [[s[0]] + rest[0]] + rest[1..]
  }

  /** The pieces put back together are the text. */
  lemma {:induction false} PiecesConcat(s: string)
    ensures Concat(Pieces(s)) == s
    decreases |s|
  {
    if s != [] {
      PiecesConcat(s[1..]);
      if IsDelimiter(s[0]) {
        DelimiterPiecesConcat(s);
      } else {
        RunPiecesConcat(s);
      }
    }
  }

  /** A leading delimiter adds an empty run and itself before the rest. */
  lemma DelimiterPiecesConcat(s: string)
    requires s != [] && IsDelimiter(s[0]) && Concat(Pieces(s[1..])) == s[1..]
    ensures Concat(Pieces(s)) == s
  {
    var rest := Pieces(s[1..]);
    assert Pieces(s) == [""] + ([[s[0]]] + rest);
    ConcatPrepend([s[0]], rest);
    ConcatPrepend("", [[s[0]]] + rest);
    assert s == [s[0]] + s[1..];
  }

  /** A leading other character extends the first run of the rest. */
  lemma RunPiecesConcat(s: string)
    requires s != [] && !IsDelimiter(s[0]) && Concat(Pieces(s[1..])) == s[1..]
    ensures Concat(Pieces(s)) == s
  {
    var rest := Pieces(s[1..]);
    PiecesRun(s);
    assert [rest[0]] + rest[1..] == rest;
    ConcatExtendHead(s[0], rest[0], rest[1..], s[1..]);
    assert s == [s[0]] + s[1..];
  }

  lemma PiecesRun(s: string)
    requires s != [] && !IsDelimiter(s[0])
    ensures Pieces(s) == [[s[0]] + Pieces(s[1..])[0]] + Pieces(s[1..])[1..]
  {
  }

  lemma ConcatExtendHead(x: char, head: string, tail: seq<string>, s: string)
    requires Concat([head] + tail) == s
    ensures Concat([[x] + head] + tail) == [x] + s
  {
    ConcatPrepend(head, tail);
    ConcatPrepend([x] + head, tail);
  }

  /** The loop's state: the completed sentences and the sentence being built. */
  datatype Gather = Gather(result: seq<string>, current: string)

  /** One turn of the loop over the pieces. */
  function Step(g: Gather, piece: string): Gather {
    if Trim(piece) == "" then g
    else
      var current := g.current + piece;
      if piece == [PERIOD] || piece == [QUESTION] then Gather(g.result + [Trim(current)], "")
      else Gather(g.result, current)
  }

  /** The loop run over a list of pieces from the start. */
  function Run(pieces: seq<string>): Gather {
    if pieces == [] then Gather([], "") else Step(Run(pieces[..|pieces| - 1]), pieces[|pieces| - 1])
  }

  /** The list without its empty strings (result.filter(s => s.length > 0)). */
  function NonEmpty(xs: seq<string>): (r: seq<string>)
    ensures forall i | 0 <= i < |r| :: r[i] != ""
  {
    if xs == [] then []
    else if xs[0] == "" then NonEmpty(xs[1..])
    else [xs[0]] + NonEmpty(xs[1..])
  }

  /** What splitTextIntoSentences returns for a text ("" standing for any
      falsy argument). */
  function Sentences(text: string): seq<string> {
    if text == "" then [] else NonEmpty(Final(Run(Pieces(text))))
  }

  /** The completed sentences and, after the loop, the trimmed remainder
      when it is not blank. */
  function Final(g: Gather): seq<string> {
    if Trim(g.current) != "" then g.result + [Trim(g.current)] else g.result
  }

  method SplitTextIntoSentences(text: string) returns (result: seq<string>)
    ensures result == Sentences(text)
  {
    if text == "" {
      return [];
    }
    var sentences := Pieces(text);
    result := [];
    var currentSentence := "";
    var i := 0;
    while i < |sentences|
      invariant 0 <= i <= |sentences|
      invariant Run(sentences[..i]) == Gather(result, currentSentence)
    {
      assert sentences[..i + 1][..i] == sentences[..i];
      if Trim(sentences[i]) == "" {
        i := i + 1;
        continue;
      }
      currentSentence := currentSentence + sentences[i];
      if sentences[i] == [PERIOD] || sentences[i] == [QUESTION] {
        result := result + [Trim(currentSentence)];
        currentSentence := "";
      }
      i := i + 1;
    }
    assert sentences[..i] == sentences;
    if Trim(currentSentence) != "" {
      result := result + [Trim(currentSentence)];
    }
    result := NonEmpty(result);
  }

  // ---------------------------------------------------------------------------
  // What the sentences are
  // ---------------------------------------------------------------------------

  /** The shape of a finished sentence: trimmed, not empty, and its only
      delimiter, if any, is its last character. */
  predicate Sentence(e: string) {
    e != "" && Trim(e) == e && forall j | 0 <= j < |e| - 1 :: !IsDelimiter(e[j])
  }

  /** A sentence completed at a delimiter. */
  predicate EndsSentence(e: string) {
    Sentence(e) && IsDelimiter(e[|e| - 1])
  }

  predicate AllEndSentences(xs: seq<string>) {
    forall i | 0 <= i < |xs| :: EndsSentence(xs[i])
  }

  lemma AllEndSentencesAppend(xs: seq<string>, e: string)
    requires AllEndSentences(xs) && EndsSentence(e)
    ensures AllEndSentences(xs + [e])
  {
    forall i | 0 <= i < |xs| + 1 ensures EndsSentence((xs + [e])[i]) {
      if i < |xs| {
        assert (xs + [e])[i] == xs[i];
      }
    }
  }

  /** What the loop keeps true: completed sentences have the shape of a
      sentence and end with a delimiter; the sentence being built holds no
      delimiter; and no character other than whitespace is lost. */
  predicate GatherInvariant(g: Gather, consumed: string) {
    && AllEndSentences(g.result)
    && NoDelimiter(g.current)
    && RemoveSpaces(Concat(g.result) + g.current) == RemoveSpaces(consumed)
  }

  /** A part of `current + [d]` that reaches its end has no delimiter
      before its last character. */
  lemma SuffixPartBeforeLast(current: string, d: char, k: nat, t: string)
    requires NoDelimiter(current) && k + |t| == |current| + 1
    requires t == (current + [d])[k..k + |t|]
    ensures forall j | 0 <= j < |t| - 1 :: !IsDelimiter(t[j])
  {
    forall j | 0 <= j < |t| - 1 ensures !IsDelimiter(t[j]) {
      assert t[j] == (current + [d])[k + j] == current[k + j];
    }
  }

  /** Trimming text that ends with a delimiter keeps that delimiter last. */
  lemma TrimEndsAtDelimiter(x: string)
    requires x != [] && IsDelimiter(x[|x| - 1])
    ensures var t := Trim(x);
      t != "" && Trim(t) == t && IsDelimiter(t[|t| - 1])
  {
    assert !IsSpace(x[|x| - 1]);
    TrimKeepsLast(x);
    TrimIdempotent(x);
  }

  /** Trimming a sentence built from delimiter-free text and one delimiter
      gives a sentence ending with that delimiter. */
  lemma CompletedSentence(current: string, d: char)
    requires NoDelimiter(current) && IsDelimiter(d)
    ensures EndsSentence(Trim(current + [d]))
  {
    var x := current + [d];
    TrimEndsAtDelimiter(x);
    TrimKeepsLast(x);
    TrimIsInfix(x);
    SuffixPartBeforeLast(current, d, |x| - |TrimStart(x)|, Trim(x));
  }

  /** A contiguous part of a delimiter-free text is delimiter-free. */
  lemma InfixNoDelimiter(s: string, k: nat, t: string)
    requires NoDelimiter(s) && k + |t| <= |s| && t == s[k..k + |t|]
    ensures NoDelimiter(t)
  {
    forall j | 0 <= j < |t| ensures !IsDelimiter(t[j]) {
      assert t[j] == s[k + j];
    }
  }

  /** A trimmed non-blank delimiter-free text is a sentence. */
  lemma RemainderSentence(current: string)
    requires NoDelimiter(current) && Trim(current) != ""
    ensures Sentence(Trim(current))
  {
    TrimIdempotent(current);
    TrimIsInfix(current);
    InfixNoDelimiter(current, |current| - |TrimStart(current)|, Trim(current));
  }

  /** No characters but whitespace are lost when a sentence is completed. */
  lemma CompletionKeepsContent(result: seq<string>, current: string)
    ensures RemoveSpaces(Concat(result + [Trim(current)]) + "") == RemoveSpaces(Concat(result) + current)
  {
    var e := Trim(current);
    ConcatAppend(result, e);
    assert Concat(result + [e]) + "" == Concat(result) + e;
    RemoveSpacesConcat(Concat(result), e);
    RemoveSpacesConcat(Concat(result), current);
    TrimKeepsContent(current);
  }

  /** The content part of the invariant survives completing a sentence. */
  lemma CompletionContent(result: seq<string>, current: string, consumed: string, p: string)
    requires RemoveSpaces(Concat(result) + current) == RemoveSpaces(consumed)
    ensures RemoveSpaces(Concat(result + [Trim(current + p)]) + "") == RemoveSpaces(consumed + p)
  {
    AppendSameContent(Concat(result), current, consumed, p);
    CompletionKeepsContent(result, current + p);
  }

  /** Completing a sentence at a delimiter keeps the loop invariant. */
  lemma CompletionInvariant(g: Gather, consumed: string, p: string)
    requires GatherInvariant(g, consumed) && DelimiterPiece(p)
    ensures GatherInvariant(Gather(g.result + [Trim(g.current + p)], ""), consumed + p)
  {
    assert p == [p[0]];
    CompletedSentence(g.current, p[0]);
    AllEndSentencesAppend(g.result, Trim(g.current + p));
    CompletionContent(g.result, g.current, consumed, p);
  }

  /** A whitespace-only piece is skipped and keeps the invariant. */
  lemma SkipInvariant(g: Gather, consumed: string, p: string)
    requires GatherInvariant(g, consumed) && IsBlank(p)
    ensures GatherInvariant(g, consumed + p)
  {
    RemoveSpacesBlank(p);
    RemoveSpacesConcat(consumed, p);
    assert RemoveSpaces(consumed) + [] == RemoveSpaces(consumed);
  }

  lemma NoDelimiterConcat(a: string, b: string)
    requires NoDelimiter(a) && NoDelimiter(b)
    ensures NoDelimiter(a + b)
  {
    forall j | 0 <= j < |a + b| ensures !IsDelimiter((a + b)[j]) {
      if j < |a| { assert (a + b)[j] == a[j]; } else { assert (a + b)[j] == b[j - |a|]; }
    }
  }

  /** A delimiter-free piece joins the sentence being built and keeps the
      invariant. */
  lemma ExtendInvariant(g: Gather, consumed: string, p: string)
    requires GatherInvariant(g, consumed) && NoDelimiter(p)
    ensures GatherInvariant(Gather(g.result, g.current + p), consumed + p)
  {
    NoDelimiterConcat(g.current, p);
    AppendSameContent(Concat(g.result), g.current, consumed, p);
  }

  /** One turn of the loop keeps the invariant. */
  lemma StepInvariant(g: Gather, consumed: string, p: string)
    requires GatherInvariant(g, consumed) && (DelimiterPiece(p) || NoDelimiter(p))
    ensures GatherInvariant(Step(g, p), consumed + p)
  {
    if Trim(p) == "" {
      TrimEmptyIffBlank(p);
      SkipInvariant(g, consumed, p);
    } else if p == [PERIOD] || p == [QUESTION] {
      CompletionInvariant(g, consumed, p);
    } else {
      assert !DelimiterPiece(p) by {
        if |p| == 1 {
          assert p == [p[0]];
        }
      }
      ExtendInvariant(g, consumed, p);
    }
  }

  /** The loop keeps the invariant over any pieces a split can produce. */
  lemma {:induction false} RunInvariant(pieces: seq<string>)
    requires forall i | 0 <= i < |pieces| :: DelimiterPiece(pieces[i]) || NoDelimiter(pieces[i])
    ensures GatherInvariant(Run(pieces), Concat(pieces))
    decreases |pieces|
  {
    if pieces != [] {
      var init := pieces[..|pieces| - 1];
      var p := pieces[|pieces| - 1];
      assert pieces == init + [p];
      RunInvariant(init);
      ConcatAppend(init, p);
      StepInvariant(Run(init), Concat(init), p);
    }
  }

  predicate AllSentences(xs: seq<string>) {
    forall i | 0 <= i < |xs| :: Sentence(xs[i])
  }

  predicate AllButLastEnd(xs: seq<string>) {
    forall i | 0 <= i < |xs| - 1 :: EndsSentence(xs[i])
  }

  lemma CompletedShape(xs: seq<string>)
    requires AllEndSentences(xs)
    ensures AllSentences(xs) && AllButLastEnd(xs)
  {
    forall i | 0 <= i < |xs| ensures Sentence(xs[i]) {
      assert EndsSentence(xs[i]);
    }
  }

  lemma RemainderShape(xs: seq<string>, e: string)
    requires AllEndSentences(xs) && Sentence(e)
    ensures AllSentences(xs + [e]) && AllButLastEnd(xs + [e])
  {
    var r := xs + [e];
    forall i | 0 <= i < |r| ensures Sentence(r[i]) {
      if i < |xs| { assert r[i] == xs[i] && EndsSentence(xs[i]); }
    }
    forall i | 0 <= i < |r| - 1 ensures EndsSentence(r[i]) {
      assert r[i] == xs[i];
    }
  }

  /** The remainder added after the loop keeps the characters. */
  lemma RemainderContent(result: seq<string>, current: string, consumed: string)
    requires RemoveSpaces(Concat(result) + current) == RemoveSpaces(consumed)
    ensures RemoveSpaces(Concat(Final(Gather(result, current)))) == RemoveSpaces(consumed)
  {
    var a := Concat(result);
    RemoveSpacesConcat(a, current);
    if Trim(current) != "" {
      ConcatAppend(result, Trim(current));
      RemoveSpacesConcat(a, Trim(current));
      TrimKeepsContent(current);
    } else {
      TrimEmptyIffBlank(current);
      RemoveSpacesBlank(current);
      assert RemoveSpaces(a) + [] == RemoveSpaces(a);
    }
  }

  /** Adding the remainder after the loop gives sentences, all but the
      last completed at a delimiter, holding the characters consumed. */
  lemma FinalShape(g: Gather, consumed: string)
    requires GatherInvariant(g, consumed)
    ensures var f := Final(g);
      AllSentences(f) && AllButLastEnd(f) && RemoveSpaces(Concat(f)) == RemoveSpaces(consumed)
  {
    if Trim(g.current) != "" {
      RemainderSentence(g.current);
      RemainderShape(g.result, Trim(g.current));
    } else {
      CompletedShape(g.result);
    }
    RemainderContent(g.result, g.current, consumed);
  }

  lemma {:induction false} NonEmptyKeeps(xs: seq<string>)
    requires forall i | 0 <= i < |xs| :: xs[i] != ""
    ensures NonEmpty(xs) == xs
  {
    if xs != [] {
      NonEmptyKeeps(xs[1..]);
    }
  }

  /** Every sentence is trimmed and not empty and holds at most one
      delimiter, at its end; every sentence but the last ends with a
      delimiter; the sentences hold exactly the non-whitespace characters
      of the text, in order. */
  lemma SentencesShape(text: string)
    ensures var r := Sentences(text);
      AllSentences(r) && AllButLastEnd(r) && RemoveSpaces(Concat(r)) == RemoveSpaces(text)
  {
    if text != "" {
      var ps := Pieces(text);
      forall i | 0 <= i < |ps| ensures DelimiterPiece(ps[i]) || NoDelimiter(ps[i]) {
      }
      RunInvariant(ps);
      PiecesConcat(text);
      var f := Final(Run(ps));
      FinalShape(Run(ps), text);
      forall i | 0 <= i < |f| ensures f[i] != "" {
        assert Sentence(f[i]);
      }
      NonEmptyKeeps(f);
    }
  }

  /** A text without delimiters is split into one piece, the text itself. */
  lemma {:induction false} PiecesNoDelimiter(s: string)
    requires NoDelimiter(s)
    ensures Pieces(s) == [s]
    decreases |s|
  {
    if s != [] {
      PiecesNoDelimiter(s[1..]);
      assert [s[0]] + s[1..] == s;
    }
  }

  lemma RunOne(p: string)
    ensures Run([p]) == Step(Gather([], ""), p)
  {
    assert [p][..0] == [];
  }

  /** The loop over a single delimiter-free piece leaves it, trimmed, as
      the remainder, unless it is blank. */
  lemma FinalOfOnePiece(text: string)
    requires NoDelimiter(text) && text != ""
    ensures Final(Step(Gather([], ""), text)) == if Trim(text) == "" then [] else [Trim(text)]
  {
    if Trim(text) != "" {
      assert !IsDelimiter(text[0]);
      assert "" + text == text;
    }
  }

  /** A text without delimiters is one sentence, trimmed, unless it is blank. */
  lemma NoDelimiterOneSentence(text: string)
    requires NoDelimiter(text)
    ensures Sentences(text) == if Trim(text) == "" then [] else [Trim(text)]
  {
    if text != "" {
      PiecesNoDelimiter(text);
      RunOne(text);
      FinalOfOnePiece(text);
      var f := Final(Run(Pieces(text)));
      assert Sentences(text) == NonEmpty(f);
      if Trim(text) != "" {
        assert f == [Trim(text)];
        assert NonEmpty(f) == [Trim(text)] + NonEmpty([]);
      }
    }
  }
}
