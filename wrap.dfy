/**
 * The flipboard's word wrapper (`wrapText`): paragraphs are the pieces of the
 * text between line feeds, words the pieces of a paragraph between single
 * spaces; words are packed greedily into lines of at most `maxWidth`
 * characters, a word longer than that is cut into `maxWidth`-sized chunks,
 * a break is forced after punctuation near the end of a line, and only the
 * first `MaxLines` lines are kept.
 *
 * The functions below describe one pass of the word loop at a time
 * (`PlaceWord`, `Step`) and the lines a paragraph yields (`Pack`,
 * `ParagraphLines`); the method `WrapText` is the loop itself, proved to
 * compute `Wrap`.
 */
module Wrap {
  import opened Text

  /** The number of lines `wrapText` keeps. */
  const MaxLines: nat := 20

  function Min(a: int, b: int): int { if a <= b then a else b }

  /** The pieces an over-long word is cut into: `width` characters each, the
      last one possibly shorter; together they spell the word. */
  function Chunks(word: string, width: int): (chunks: seq<string>)
    requires width >= 1
    ensures Flatten(chunks) == word
    ensures forall k :: 0 <= k < |chunks| ==> 1 <= |chunks[k]| <= width
    ensures forall k :: 0 <= k < |chunks| - 1 ==> |chunks[k]| == width
    decreases |word|
  {
    if word == [] then []
    else
      var n := Min(width, |word|);
      var rest := Chunks(word[n..], width);
      assert word == word[..n] + word[n..];
      assert rest != [] ==> n == width;
      [word[..n]] + rest
  }

  /** The line that is pushed when the current line is given up: its trimmed
      text, unless nothing visible is left. */
  function Flush(current: string): seq<string> {
    if Trim(current) == "" then [] else [Trim(current)]
  }

  /** What one pass of the word loop emits, and the current line it leaves. */
  datatype Advance = Advance(emitted: seq<string>, current: string)

  /** `words[i + 1]`, with a missing word read as "" (both are falsy). */
  function NextWord(words: seq<string>, i: nat): string {
    if i + 1 < |words| then words[i + 1] else ""
  }

  predicate IsBreakMark(c: char) {
    c == '.' || c == '!' || c == '?' || c == ','
  }

  predicate EndsWithBreakMark(word: string) {
    word != [] && IsBreakMark(word[|word| - 1])
  }

  /** The line already fills more than 70% of the width (compared in integers). */
  predicate NearLineEnd(length: int, width: int) {
    10 * length > 7 * width
  }

  /** Placing `word` after the current line: the over-long word path, the
      "it still fits" path and the overflow path of the word loop. */
  function PlaceWord(current: string, word: string, width: int): Advance
    requires width >= 1
  {
    if |word| > width then
      Advance(Flush(current) + Chunks(word, width), if Trim(current) != "" then "" else current)
    else
      var potential := current + (if current != "" then " " else "") + word;
      if |potential| <= width then Advance([], potential)
      else Advance(Flush(current), word)
  }

  /** The punctuation break: `word` ends a clause, a next word exists, it would
      not fit after the line, and the line is already long. */
  predicate BreaksAfter(current: string, word: string, nextWord: string, width: int) {
    && nextWord != ""
    && EndsWithBreakMark(word)
    && |current + " " + nextWord| > width
    && NearLineEnd(|current|, width)
  }

  /** One full pass of the word loop: placing the word and, unless it was cut
      into chunks, the punctuation break. */
  function Step(current: string, word: string, nextWord: string, width: int): Advance
    requires width >= 1
  {
    var placed := PlaceWord(current, word, width);
    if |word| <= width && BreaksAfter(placed.current, word, nextWord, width) then
      Advance(placed.emitted + [Trim(placed.current)], "")
    else
      placed
  }

  /** The lines the word loop pushes from word `i` on, starting with the
      current line `current`, including the final flush of the paragraph. */
  function Pack(current: string, words: seq<string>, i: nat, width: int): seq<string>
    requires width >= 1 && i <= |words|
    decreases |words| - i
  {
    if i == |words| then Flush(current)
    else
      var s := Step(current, words[i], NextWord(words, i), width);
      s.emitted + Pack(s.current, words, i + 1, width)
  }

  predicate IsBlank(paragraph: string) {
    Trim(paragraph) == ""
  }

  /** The lines one paragraph contributes. */
  function ParagraphLines(paragraph: string, width: int): seq<string>
    requires width >= 1
  {
    if IsBlank(paragraph) then [""] else Pack("", Split(paragraph, ' '), 0, width)
  }

  /** The lines of all paragraphs, in order, before truncation. */
  function WrapParagraphs(paragraphs: seq<string>, width: int): seq<string>
    requires width >= 1
  {
    if paragraphs == [] then []
    else ParagraphLines(paragraphs[0], width) + WrapParagraphs(paragraphs[1..], width)
  }

  function AllLines(text: string, width: int): seq<string>
    requires width >= 1
  {
    WrapParagraphs(Split(text, '\n'), width)
  }

  /** `wrapText(text, width)`. */
  function Wrap(text: string, width: int): seq<string>
    requires width >= 1
  {
    var lines := AllLines(text, width);
    if |lines| <= MaxLines then lines else lines[..MaxLines]
  }

  // ---------------------------------------------------------------------
  // A reference wrapper without the punctuation break: plain greedy packing.

  function GreedyPack(current: string, words: seq<string>, i: nat, width: int): seq<string>
    requires width >= 1 && i <= |words|
    decreases |words| - i
  {
    if i == |words| then Flush(current)
    else
      var placed := PlaceWord(current, words[i], width);
      placed.emitted + GreedyPack(placed.current, words, i + 1, width)
  }

  function GreedyParagraphLines(paragraph: string, width: int): seq<string>
    requires width >= 1
  {
    if IsBlank(paragraph) then [""] else GreedyPack("", Split(paragraph, ' '), 0, width)
  }

  // ---------------------------------------------------------------------
  // Sequence algebra, proved apart so that it does not meet the unfoldings
  // of the packing functions.

  lemma SeqAssoc<T>(a: seq<T>, b: seq<T>, c: seq<T>)
    ensures a + (b + c) == (a + b) + c
  {
  }

  /** One step of a loop that appends the front `front` of what is still to
      come, `whole`, to what it has pushed so far. */
  lemma AppendFront<T>(pushed: seq<T>, front: seq<T>, rest: seq<T>, whole: seq<T>, target: seq<T>)
    requires pushed + whole == target && whole == front + rest
    ensures (pushed + front) + rest == target
  {
    SeqAssoc(pushed, front, rest);
  }

  predicate LinesFit(lines: seq<string>, width: int) {
    forall k :: 0 <= k < |lines| ==> |lines[k]| <= width
  }

  predicate NoEmptyLine(lines: seq<string>) {
    forall k :: 0 <= k < |lines| ==> lines[k] != ""
  }

  lemma ConcatFits(a: seq<string>, b: seq<string>, width: int)
    ensures LinesFit(a + b, width) <==> LinesFit(a, width) && LinesFit(b, width)
    ensures NoEmptyLine(a + b) <==> NoEmptyLine(a) && NoEmptyLine(b)
  {
    assert forall k :: 0 <= k < |a| ==> (a + b)[k] == a[k];
    assert forall k :: 0 <= k < |b| ==> (a + b)[|a| + k] == b[k];
  }

  lemma FlattenSingle(line: string)
    ensures Flatten([line]) == line
  {
    assert Flatten([line]) == line + Flatten([]);
  }

  // ---------------------------------------------------------------------
  // Lengths: no line is wider than the board.

  /** A flushed line is non-empty, fits where the current line did, and holds
      the current line's visible characters. */
  lemma FlushFacts(current: string)
    ensures |Flush(current)| <= 1
    ensures NoEmptyLine(Flush(current))
    ensures LinesFit(Flush(current), |current|)
    ensures Ink(Flatten(Flush(current))) == Ink(current)
  {
    InkOfTrim(current);
    if Trim(current) == "" {
      InkOfAllWhite(current);
    } else {
      FlattenSingle(Trim(current));
    }
  }

  /** When a word is placed without being cut, the current line ends with it. */
  lemma PlaceWordEndsWithWord(current: string, word: string, width: int)
    requires width >= 1 && |word| <= width
    ensures var c := PlaceWord(current, word, width).current;
      |word| <= |c| && c[|c| - |word|..] == word
  {
  }

  /** Placing a word keeps the current line within the width and pushes only
      non-empty lines that fit. */
  lemma PlaceWordFits(current: string, word: string, width: int)
    requires width >= 1 && |current| <= width
    ensures var s := PlaceWord(current, word, width);
      |s.current| <= width && LinesFit(s.emitted, width) && NoEmptyLine(s.emitted)
  {
    FlushFacts(current);
    if |word| > width {
      ConcatFits(Flush(current), Chunks(word, width), width);
    }
  }

  lemma LastOfSuffix(s: string, suffix: string)
    requires 1 <= |suffix| <= |s| && s[|s| - |suffix|..] == suffix
    ensures s[|s| - 1] == suffix[|suffix| - 1]
  {
    assert s[|s| - |suffix|..][|suffix| - 1] == s[|s| - 1];
  }

  lemma BreakMarkNotWhite(c: char)
    requires IsBreakMark(c)
    ensures !IsWhite(c)
  {
  }

  lemma VisibleLastNotBlank(s: string)
    requires s != "" && !IsWhite(s[|s| - 1])
    ensures Trim(s) != ""
  {
  }

  /** The line pushed by the punctuation break is not empty: it ends with the
      punctuation mark. */
  lemma BreakLineNotBlank(current: string, word: string, width: int)
    requires width >= 1 && |word| <= width && EndsWithBreakMark(word)
    ensures var c := PlaceWord(current, word, width).current;
      c != "" && Trim(c) != ""
  {
    PlaceWordEndsWithWord(current, word, width);
    var c := PlaceWord(current, word, width).current;
    LastOfSuffix(c, word);
    BreakMarkNotWhite(word[|word| - 1]);
    VisibleLastNotBlank(c);
  }

  /** One pass of the word loop keeps the current line within the width and
      pushes only non-empty lines that fit. */
  lemma StepFits(current: string, word: string, nextWord: string, width: int)
    requires width >= 1 && |current| <= width
    ensures var s := Step(current, word, nextWord, width);
      |s.current| <= width && LinesFit(s.emitted, width) && NoEmptyLine(s.emitted)
  {
    var placed := PlaceWord(current, word, width);
    PlaceWordFits(current, word, width);
    if |word| <= width && BreaksAfter(placed.current, word, nextWord, width) {
      BreakLineNotBlank(current, word, width);
      ConcatFits(placed.emitted, [Trim(placed.current)], width);
    }
  }

  lemma {:induction false} PackFits(current: string, words: seq<string>, i: nat, width: int)
    requires width >= 1 && i <= |words| && |current| <= width
    ensures LinesFit(Pack(current, words, i, width), width)
    ensures NoEmptyLine(Pack(current, words, i, width))
    decreases |words| - i
  {
    if i == |words| {
      FlushFacts(current);
    } else {
      var s := Step(current, words[i], NextWord(words, i), width);
      StepFits(current, words[i], NextWord(words, i), width);
      PackFits(s.current, words, i + 1, width);
      ConcatFits(s.emitted, Pack(s.current, words, i + 1, width), width);
    }
  }

  /** A blank paragraph gives exactly one empty line; any other paragraph
      gives only non-empty lines; all of them fit. */
  lemma ParagraphLinesFit(paragraph: string, width: int)
    requires width >= 1
    ensures LinesFit(ParagraphLines(paragraph, width), width)
    ensures IsBlank(paragraph) ==> ParagraphLines(paragraph, width) == [""]
    ensures !IsBlank(paragraph) ==> NoEmptyLine(ParagraphLines(paragraph, width))
  {
    if !IsBlank(paragraph) {
      PackFits("", Split(paragraph, ' '), 0, width);
    }
  }

  /** A paragraph contributes the single line "" exactly when it is blank. */
  lemma BlankParagraphIff(paragraph: string, width: int)
    requires width >= 1
    ensures ParagraphLines(paragraph, width) == [""] <==> IsBlank(paragraph)
  {
    ParagraphLinesFit(paragraph, width);
    if !IsBlank(paragraph) {
      var lines := ParagraphLines(paragraph, width);
      assert lines == [] || lines[0] != "";
    }
  }

  lemma {:induction false} WrapParagraphsFit(paragraphs: seq<string>, width: int)
    requires width >= 1
    ensures LinesFit(WrapParagraphs(paragraphs, width), width)
    decreases |paragraphs|
  {
    if paragraphs != [] {
      ParagraphLinesFit(paragraphs[0], width);
      WrapParagraphsFit(paragraphs[1..], width);
      ConcatFits(ParagraphLines(paragraphs[0], width), WrapParagraphs(paragraphs[1..], width), width);
    }
  }

  /** `wrapText` returns at most 20 lines, each at most `width` long. */
  lemma WrapFits(text: string, width: int)
    requires width >= 1
    ensures |Wrap(text, width)| <= MaxLines
    ensures LinesFit(Wrap(text, width), width)
  {
    var lines := AllLines(text, width);
    WrapParagraphsFit(Split(text, '\n'), width);
    WrapOf(text, width, lines);
    TruncatedFits(lines, width);
  }

  /** Keeping the first `MaxLines` lines keeps them fitting. */
  lemma TruncatedFits(lines: seq<string>, width: int)
    requires LinesFit(lines, width)
    ensures var kept := if |lines| <= MaxLines then lines else lines[..MaxLines];
      |kept| <= MaxLines && LinesFit(kept, width)
  {
  }

  /** The empty text is one blank paragraph, hence one empty line. */
  lemma WrapEmpty(width: int)
    requires width >= 1
    ensures Wrap("", width) == [""]
  {
    assert Split("", '\n') == [""];
    assert IsBlank("");
    assert WrapParagraphs([""], width) == [""] + WrapParagraphs([], width);
  }

  // ---------------------------------------------------------------------
  // Content: wrapping drops white characters and nothing else.

  lemma LongWordInk(current: string, word: string, width: int)
    requires width >= 1
    ensures Ink(Flatten(Flush(current) + Chunks(word, width)) + (if Trim(current) != "" then "" else current))
         == Ink(current + word)
  {
    FlushFacts(current);
    FlattenConcat(Flush(current), Chunks(word, width));
    var flushed := Flatten(Flush(current));
    if Trim(current) != "" {
      assert flushed + word + "" == flushed + word;
      InkCongruence(flushed, current, word, word);
    } else {
      InkOfAllWhite(current);
      assert flushed == "";
      assert flushed + word + current == word + current;
      InkConcat(word, current);
      InkConcat(current, word);
    }
  }

  lemma JoinedInk(current: string, word: string)
    ensures Ink(current + (if current != "" then " " else "") + word) == Ink(current + word)
  {
    var sep := if current != "" then " " else "";
    InkConcat(current, sep);
    assert Ink(sep) == [];
    assert current + [] == current;
    InkCongruence(current + sep, current, word, word);
  }

  lemma PlaceWordInk(current: string, word: string, width: int)
    requires width >= 1
    ensures var s := PlaceWord(current, word, width);
      Ink(Flatten(s.emitted) + s.current) == Ink(current + word)
  {
    if |word| > width {
      LongWordInk(current, word, width);
    } else if |current + (if current != "" then " " else "") + word| <= width {
      var potential := current + (if current != "" then " " else "") + word;
      JoinedInk(current, word);
      assert Flatten([]) + potential == potential;
    } else {
      FlushFacts(current);
      InkCongruence(Flatten(Flush(current)), current, word, word);
    }
  }

  lemma StepInk(current: string, word: string, nextWord: string, width: int)
    requires width >= 1
    ensures var s := Step(current, word, nextWord, width);
      Ink(Flatten(s.emitted) + s.current) == Ink(current + word)
  {
    var placed := PlaceWord(current, word, width);
    PlaceWordInk(current, word, width);
    if |word| <= width && BreaksAfter(placed.current, word, nextWord, width) {
      var line := Trim(placed.current);
      FlattenConcat(placed.emitted, [line]);
      FlattenSingle(line);
      InkOfTrim(placed.current);
      assert Flatten(placed.emitted + [line]) + "" == Flatten(placed.emitted) + line;
      InkCongruence(Flatten(placed.emitted), Flatten(placed.emitted), line, placed.current);
    }
  }

  /** Cutting a sequence of lines after its first `i` lines. */
  lemma FlattenFrom(lines: seq<string>, i: nat)
    requires i < |lines|
    ensures Flatten(lines[i..]) == lines[i] + Flatten(lines[i + 1..])
  {
    assert lines[i..][1..] == lines[i + 1..];
  }

  /** How the visible characters of one step and of the rest combine. */
  lemma InkCombine(emitted: string, c: string, rest: string, cur: string, w: string, tail: string)
    requires Ink(emitted + c) == Ink(cur + w)
    requires Ink(rest) == Ink(c + tail)
    ensures Ink(emitted + rest) == Ink(cur + (w + tail))
  {
    InkCongruence(emitted, emitted, rest, c + tail);
    SeqAssoc(emitted, c, tail);
    InkCongruence(emitted + c, cur + w, tail, tail);
    SeqAssoc(cur, w, tail);
  }

  /** Visible characters of two line lists side by side. */
  lemma InkAppend(a: seq<string>, b: seq<string>, x: string, y: string)
    requires Ink(Flatten(a)) == Ink(x) && Ink(Flatten(b)) == Ink(y)
    ensures Ink(Flatten(a + b)) == Ink(x + y)
  {
    FlattenConcat(a, b);
    InkCongruence(Flatten(a), x, Flatten(b), y);
  }

  lemma {:induction false} PackInk(current: string, words: seq<string>, i: nat, width: int)
    requires width >= 1 && i <= |words|
    ensures Ink(Flatten(Pack(current, words, i, width))) == Ink(current + Flatten(words[i..]))
    decreases |words| - i
  {
    if i == |words| {
      FlushFacts(current);
      assert words[i..] == [];
      assert current + Flatten(words[i..]) == current;
    } else {
      var s := Step(current, words[i], NextWord(words, i), width);
      var rest := Pack(s.current, words, i + 1, width);
      PackInk(s.current, words, i + 1, width);
      StepInk(current, words[i], NextWord(words, i), width);
      FlattenFrom(words, i);
      FlattenConcat(s.emitted, rest);
      InkCombine(Flatten(s.emitted), s.current, Flatten(rest), current, words[i], Flatten(words[i + 1..]));
    }
  }

  /** The visible characters of a paragraph's lines are those of the paragraph. */
  lemma ParagraphInk(paragraph: string, width: int)
    requires width >= 1
    ensures Ink(Flatten(ParagraphLines(paragraph, width))) == Ink(paragraph)
  {
    if IsBlank(paragraph) {
      InkOfAllWhite(paragraph);
      FlattenSingle("");
    } else {
      var words := Split(paragraph, ' ');
      PackInk("", words, 0, width);
      assert words[0..] == words;
      assert "" + Flatten(words) == Flatten(words);
      InkOfJoin(words, ' ');
    }
  }

  lemma {:induction false} WrapParagraphsInk(paragraphs: seq<string>, width: int)
    requires width >= 1
    ensures Ink(Flatten(WrapParagraphs(paragraphs, width))) == Ink(Flatten(paragraphs))
    decreases |paragraphs|
  {
    if paragraphs != [] {
      WrapParagraphsInk(paragraphs[1..], width);
      ParagraphInk(paragraphs[0], width);
      InkAppend(ParagraphLines(paragraphs[0], width), WrapParagraphs(paragraphs[1..], width),
                paragraphs[0], Flatten(paragraphs[1..]));
    }
  }

  /** Before truncation, the wrapped lines hold exactly the visible characters
      of the text, in order: line breaks, spaces and trimmed white characters
      are the only things dropped, and no word is lost or reordered. */
  lemma AllLinesKeepText(text: string, width: int)
    requires width >= 1
    ensures Ink(Flatten(AllLines(text, width))) == Ink(text)
  {
    WrapParagraphsInk(Split(text, '\n'), width);
    InkOfJoin(Split(text, '\n'), '\n');
  }

  /** Every paragraph, blank or not, contributes at least one line. */
  lemma ParagraphLinesNonEmpty(paragraph: string, width: int)
    requires width >= 1
    ensures |ParagraphLines(paragraph, width)| >= 1
  {
    if !IsBlank(paragraph) {
      ParagraphInk(paragraph, width);
      InkOfTrim(paragraph);
      var t := Trim(paragraph);
      assert Ink(t) == [t[0]] + Ink(t[1..]);
      assert Ink(Flatten(ParagraphLines(paragraph, width))) != [];
      assert Flatten(ParagraphLines(paragraph, width)) != [];
    }
  }

  // ---------------------------------------------------------------------
  // Over-long words.

  /** An over-long word is pushed as its chunks, right after the flushed
      current line, and the next word starts on a line with nothing visible
      on it. */
  lemma LongWordStartsFreshLine(current: string, word: string, nextWord: string, width: int)
    requires width >= 1 && |word| > width
    ensures var s := Step(current, word, nextWord, width);
      && s.emitted == Flush(current) + Chunks(word, width)
      && Trim(s.current) == ""
  {
  }

  /** The number of chunks is the least k with k * width >= |word|. */
  lemma {:induction false} ChunkCount(word: string, width: int)
    requires width >= 1
    ensures var k := |Chunks(word, width)|;
      (k - 1) * width < |word| <= k * width || (word == [] && k == 0)
    decreases |word|
  {
    if word != [] {
      var n := Min(width, |word|);
      ChunkCount(word[n..], width);
      CountStep(|Chunks(word[n..], width)|, |Chunks(word, width)|, width, |word|, n);
    }
  }

  /** The arithmetic of one more chunk of `n` characters. */
  lemma CountStep(k: int, total: int, width: int, len: int, n: int)
    requires width >= 1 && k >= 0 && total == k + 1 && 1 <= n <= width && n <= len
    requires len - n > 0 ==> n == width
    requires (k - 1) * width < len - n <= k * width || (len - n == 0 && k == 0)
    ensures (total - 1) * width < len <= total * width
  {
    assert (total - 1) * width == k * width;
    assert total * width == k * width + width;
    if len - n > 0 {
      assert (k - 1) * width == k * width - width;
    }
  }

  // ---------------------------------------------------------------------
  // The punctuation break never changes the result.

  /** Placing a word after a visible current line that it overflows pushes
      that line and then does what placing it on an empty line does. */
  lemma PlaceWordAfterOverflow(current: string, word: string, width: int)
    requires width >= 1
    requires current != "" && Trim(current) != ""
    requires |current + " " + word| > width
    ensures PlaceWord(current, word, width).emitted == [Trim(current)] + PlaceWord("", word, width).emitted
    ensures PlaceWord(current, word, width).current == PlaceWord("", word, width).current
  {
    PlaceWordOnEmpty(word, width);
    PlaceWordOverflowing(current, word, width);
  }

  /** Placing a word on an empty line: its chunks when it is too long, else
      the word becomes the line. */
  lemma PlaceWordOnEmpty(word: string, width: int)
    requires width >= 1
    ensures PlaceWord("", word, width)
         == if |word| > width then Advance(Chunks(word, width), "") else Advance([], word)
  {
    assert Flush("") == [] by {
      assert AllWhite("");
    }
    assert "" + "" + word == word;
    assert [] + Chunks(word, width) == Chunks(word, width);
  }

  /** Placing a word that overflows a visible current line pushes that line
      trimmed. */
  lemma PlaceWordOverflowing(current: string, word: string, width: int)
    requires width >= 1 && current != "" && Trim(current) != ""
    requires |current + " " + word| > width
    ensures PlaceWord(current, word, width)
         == if |word| > width then Advance([Trim(current)] + Chunks(word, width), "")
            else Advance([Trim(current)], word)
  {
  }

  /** When the next word would overflow a visible current line, pushing that
      line now and going on from an empty one gives the same lines as letting
      the overflow path push it. */
  lemma {:induction false} BreakMatchesOverflow(current: string, words: seq<string>, i: nat, width: int)
    requires width >= 1 && i < |words| && words[i] != ""
    requires current != "" && Trim(current) != ""
    requires |current + " " + words[i]| > width
    ensures [Trim(current)] + GreedyPack("", words, i, width) == GreedyPack(current, words, i, width)
  {
    var word := words[i];
    PlaceWordAfterOverflow(current, word, width);
    var empty := PlaceWord("", word, width);
    var rest := GreedyPack(empty.current, words, i + 1, width);
    assert GreedyPack("", words, i, width) == empty.emitted + rest;
    SeqAssoc([Trim(current)], empty.emitted, rest);
  }

  /** The forced break after punctuation only fires where plain greedy packing
      breaks anyway, so the word loop yields the lines of plain greedy packing
      (whatever the outcome of the 70% test). */
  lemma {:induction false} PackIsGreedy(current: string, words: seq<string>, i: nat, width: int)
    requires width >= 1 && i <= |words|
    ensures Pack(current, words, i, width) == GreedyPack(current, words, i, width)
    decreases |words| - i
  {
    if i < |words| {
      var word := words[i];
      var next := NextWord(words, i);
      var placed := PlaceWord(current, word, width);
      if |word| <= width && BreaksAfter(placed.current, word, next, width) {
        PackIsGreedy("", words, i + 1, width);
        BreakLineNotBlank(current, word, width);
        BreakMatchesOverflow(placed.current, words, i + 1, width);
        SeqAssoc(placed.emitted, [Trim(placed.current)], GreedyPack("", words, i + 1, width));
      } else {
        PackIsGreedy(placed.current, words, i + 1, width);
      }
    }
  }

  /** Every paragraph is wrapped exactly as plain greedy packing wraps it. */
  lemma PunctuationBreakIsRedundant(paragraph: string, width: int)
    requires width >= 1
    ensures ParagraphLines(paragraph, width) == GreedyParagraphLines(paragraph, width)
  {
    if !IsBlank(paragraph) {
      PackIsGreedy("", Split(paragraph, ' '), 0, width);
    }
  }

  // ---------------------------------------------------------------------
  // The loop itself.

  /** The chunks of `word` from position `j` on: the slice at `j`, then the
      chunks after it. */
  lemma ChunksFrom(word: string, j: nat, next: nat, width: int)
    requires width >= 1 && j < |word| && next == Min(j + width, |word|)
    ensures Chunks(word[j..], width) == [word[j..next]] + Chunks(word[next..], width)
  {
    var n := Min(width, |word| - j);
    assert word[j..][..n] == word[j..next];
    assert word[j..][n..] == word[next..];
  }

  /** One pass of the chunk loop keeps "pushed so far, then the chunks still
      to push" equal to its target. */
  lemma ChunkPush(out: seq<string>, word: string, j: nat, next: nat, width: int, target: seq<string>)
    requires width >= 1 && j < |word| && next == Min(j + width, |word|)
    requires out + Chunks(word[j..], width) == target
    ensures (out + [word[j..next]]) + Chunks(word[next..], width) == target
  {
    ChunksFrom(word, j, next, width);
    AppendFront(out, [word[j..next]], Chunks(word[next..], width), Chunks(word[j..], width), target);
  }

  /** The inner `for j` loop: an over-long word pushed in slices of
      `maxWidth` characters, the last one possibly shorter. */
  method PushChunks(lines: seq<string>, word: string, maxWidth: int) returns (out: seq<string>)
    requires maxWidth >= 1
    ensures out == lines + Chunks(word, maxWidth)
  {
    ghost var target := lines + Chunks(word, maxWidth);
    out := lines;
    var j := 0;
    assert word[Min(j, |word|)..] == word;
    while j < |word|
      invariant 0 <= j
      invariant out + Chunks(word[Min(j, |word|)..], maxWidth) == target
    {
      var next := Min(j + maxWidth, |word|);
      ChunkPush(out, word, j, next, maxWidth, target);
      out := out + [word[j..next]];
      j := j + maxWidth;
    }
    assert word[Min(j, |word|)..] == [];
    assert out + [] == out;
  }

  /** One pass of the word loop over `word`: the lines it pushes onto
      `lines` and the current line it leaves are those of `Step`. */
  method WordStep(lines: seq<string>, currentLine: string, word: string, nextWord: string, maxWidth: int)
    returns (out: seq<string>, line: string)
    requires maxWidth >= 1
    ensures out == lines + Step(currentLine, word, nextWord, maxWidth).emitted
    ensures line == Step(currentLine, word, nextWord, maxWidth).current
  {
    out, line := lines, currentLine;
    if |word| > maxWidth {
      ghost var flushed := Flush(currentLine);
      if Trim(line) != "" {
        out := out + [Trim(line)];
        line := "";
      } else {
        assert out == lines + flushed;
      }
      out := PushChunks(out, word, maxWidth);
      SeqAssoc(lines, flushed, Chunks(word, maxWidth));
    } else {
      ghost var placed := PlaceWord(currentLine, word, maxWidth);
      var potentialLine := line + (if line != "" then " " else "") + word;
      if |potentialLine| <= maxWidth {
        line := potentialLine;
        assert lines + [] == lines;
      } else {
        if Trim(line) != "" {
          out := out + [Trim(line)];
        } else {
          assert lines + [] == lines;
        }
        line := word;
      }
      assert out == lines + placed.emitted && line == placed.current;

      if nextWord != "" && EndsWithBreakMark(word) {
        var nextPotentialLine := line + " " + nextWord;
        if |nextPotentialLine| > maxWidth && NearLineEnd(|line|, maxWidth) {
          out := out + [Trim(line)];
          line := "";
          SeqAssoc(lines, placed.emitted, [Trim(placed.current)]);
        }
      }
    }
  }

  /** The word loop of one non-blank paragraph, and its final flush: the
      lines it pushes are `Pack` of its words. */
  method PackWords(lines: seq<string>, words: seq<string>, maxWidth: int) returns (out: seq<string>)
    requires maxWidth >= 1
    ensures out == lines + Pack("", words, 0, maxWidth)
  {
    ghost var target := lines + Pack("", words, 0, maxWidth);
    out := lines;
    var currentLine := "";
    var i := 0;
    while i < |words|
      invariant 0 <= i <= |words|
      invariant out + Pack(currentLine, words, i, maxWidth) == target
    {
      var word := words[i];
      var nextWord := NextWord(words, i);
      ghost var step := Step(currentLine, word, nextWord, maxWidth);
      AppendFront(out, step.emitted, Pack(step.current, words, i + 1, maxWidth),
                  Pack(currentLine, words, i, maxWidth), target);
      out, currentLine := WordStep(out, currentLine, word, nextWord, maxWidth);
      i := i + 1;
    }

    if Trim(currentLine) != "" {
      out := out + [Trim(currentLine)];
    } else {
      assert out + [] == out;
    }
  }

  /** One pass of the paragraph loop, as `WrapParagraphs` sees it. */
  lemma ParagraphStep(lines: seq<string>, paragraphs: seq<string>, p: nat, width: int, target: seq<string>)
    requires width >= 1 && p < |paragraphs|
    requires lines + WrapParagraphs(paragraphs[p..], width) == target
    ensures (lines + ParagraphLines(paragraphs[p], width)) + WrapParagraphs(paragraphs[p + 1..], width) == target
  {
    assert paragraphs[p..][1..] == paragraphs[p + 1..];
    AppendFront(lines, ParagraphLines(paragraphs[p], width), WrapParagraphs(paragraphs[p + 1..], width),
                WrapParagraphs(paragraphs[p..], width), target);
  }

  /** The `for (const paragraph of paragraphs)` loop: a blank paragraph
      pushes one empty line, any other runs the word loop. */
  method WrapEach(paragraphs: seq<string>, maxWidth: int) returns (lines: seq<string>)
    requires maxWidth >= 1
    ensures lines == WrapParagraphs(paragraphs, maxWidth)
  {
    lines := [];
    ghost var target := WrapParagraphs(paragraphs, maxWidth);
    var p := 0;
    assert paragraphs[p..] == paragraphs;
    assert lines + target == target;
    while p < |paragraphs|
      invariant 0 <= p <= |paragraphs|
      invariant lines + WrapParagraphs(paragraphs[p..], maxWidth) == target
    {
      var paragraph := paragraphs[p];
      ParagraphStep(lines, paragraphs, p, maxWidth, target);
      if Trim(paragraph) == "" {
        lines := lines + [""];
      } else {
        var words := Split(paragraph, ' ');
        lines := PackWords(lines, words, maxWidth);
      }
      p := p + 1;
    }
    assert paragraphs[p..] == [];
    assert lines + [] == lines;
  }

  lemma WrapOf(text: string, width: int, lines: seq<string>)
    requires width >= 1 && lines == AllLines(text, width)
    ensures Wrap(text, width) == if |lines| <= MaxLines then lines else lines[..MaxLines]
  {
  }

  /** `wrapText`: split into paragraphs, wrap each, keep the first twenty
      lines. */
  method WrapText(text: string, maxWidth: int) returns (result: seq<string>)
    requires maxWidth >= 1
    ensures result == Wrap(text, maxWidth)
    ensures |result| <= MaxLines && LinesFit(result, maxWidth)
  {
    var paragraphs := Split(text, '\n');
    var lines := WrapEach(paragraphs, maxWidth);
    WrapOf(text, maxWidth, lines);
    result := if |lines| <= MaxLines then lines else lines[..MaxLines];
    WrapFits(text, maxWidth);
  }

  // ---------------------------------------------------------------------
  // The two ordinary outcomes of a step.

  /** A word that fits after the current line and ends no clause. */
  lemma StepJoins(current: string, word: string, nextWord: string, width: int)
    requires width >= 1 && !EndsWithBreakMark(word)
    requires |current + (if current != "" then " " else "") + word| <= width
    ensures Step(current, word, nextWord, width)
         == Advance([], current + (if current != "" then " " else "") + word)
  {
  }

  /** A word that does not fit after the current line and ends no clause:
      the current line is given up and the word starts the next one. */
  lemma StepOverflows(current: string, word: string, nextWord: string, width: int)
    requires width >= 1 && !EndsWithBreakMark(word) && |word| <= width
    requires |current + (if current != "" then " " else "") + word| > width
    ensures Step(current, word, nextWord, width) == Advance(Flush(current), word)
  {
  }

  /** A line that neither starts nor ends with a white character is its own
      trimmed form. */
  lemma TrimKeeps(s: string)
    requires s != [] && !IsWhite(s[0]) && !IsWhite(s[|s| - 1])
    ensures Trim(s) == s
  {
    assert TrimStart(s) == s;
    assert TrimEnd(s) == s;
  }

  /** The last word of a paragraph is only placed: no next word, no break. */
  lemma StepLast(current: string, word: string, width: int)
    requires width >= 1
    ensures Step(current, word, "", width) == PlaceWord(current, word, width)
  {
  }

  /** A word that is not empty and has visible ends. */
  predicate Solid(word: string) {
    word != [] && !IsWhite(word[0]) && !IsWhite(word[|word| - 1])
  }

  /** Four words where the first two fill a line, the third does not fit
      after them and ends no clause, and the last two fill the next line:
      the paragraph wraps into exactly those two lines (as "The quick brown
      fox" does on a board ten wide). */
  lemma TwoLines(a: string, b: string, c: string, d: string, width: int)
    requires width >= 1 && Solid(a) && Solid(b) && Solid(c) && Solid(d)
    requires !EndsWithBreakMark(a) && !EndsWithBreakMark(b) && !EndsWithBreakMark(c)
    requires |a + " " + b| <= width && |a + " " + b + " " + c| > width
    requires |c + " " + d| <= width
    ensures Pack("", [a, b, c, d], 0, width) == [a + " " + b, c + " " + d]
  {
    var words := [a, b, c, d];
    FirstLine(a, b, c, words, width);
    LastLine(c, d, words, width);
  }

  /** The first line of `TwoLines`: the first two words join, the third
      overflows and pushes them. */
  lemma FirstLine(a: string, b: string, c: string, words: seq<string>, width: int)
    requires width >= 1 && |words| == 4 && words[0] == a && words[1] == b && words[2] == c
    requires Solid(a) && Solid(b) && Solid(c)
    requires !EndsWithBreakMark(a) && !EndsWithBreakMark(b) && !EndsWithBreakMark(c)
    requires |a + " " + b| <= width && |a + " " + b + " " + c| > width && |c| <= width
    ensures Pack("", words, 0, width) == [a + " " + b] + Pack(c, words, 3, width)
  {
    var ab := a + " " + b;
    assert NextWord(words, 0) == b && NextWord(words, 1) == c && NextWord(words, 2) == words[3];
    assert Step("", a, b, width) == Advance([], a) by {
      assert "" + "" + a == a;
      StepJoins("", a, b, width);
    }
    assert Step(a, b, c, width) == Advance([], ab) by {
      StepJoins(a, b, c, width);
    }
    assert Step(ab, c, words[3], width) == Advance([ab], c) by {
      assert ab[0] == a[0] && ab[|ab| - 1] == b[|b| - 1];
      TrimKeeps(ab);
      assert ab + (if ab != "" then " " else "") + c == a + " " + b + " " + c;
      StepOverflows(ab, c, words[3], width);
    }
    PackUnfold(ab, words, 2, width, [ab], c);
    PackUnfold(a, words, 1, width, [], ab);
    PackUnfold("", words, 0, width, [], a);
  }

  /** The last line of `TwoLines`: the last word joins the third, and the
      final flush pushes them. */
  lemma LastLine(c: string, d: string, words: seq<string>, width: int)
    requires width >= 1 && |words| == 4 && words[3] == d
    requires Solid(c) && Solid(d) && |c + " " + d| <= width
    ensures Pack(c, words, 3, width) == [c + " " + d]
  {
    var cd := c + " " + d;
    assert NextWord(words, 3) == "";
    assert Step(c, d, "", width) == Advance([], cd) by {
      StepLast(c, d, width);
      assert c + (if c != "" then " " else "") + d == cd;
    }
    assert Pack(cd, words, 4, width) == [cd] by {
      assert cd[0] == c[0] && cd[|cd| - 1] == d[|d| - 1];
      TrimKeeps(cd);
    }
    PackUnfold(c, words, 3, width, [], cd);
  }

  /** One unfolding of `Pack`, for a step whose outcome is already known. */
  lemma PackUnfold(current: string, words: seq<string>, i: nat, width: int, emitted: seq<string>, next: string)
    requires width >= 1 && i < |words|
    requires Step(current, words[i], NextWord(words, i), width) == Advance(emitted, next)
    ensures Pack(current, words, i, width) == emitted + Pack(next, words, i + 1, width)
  {
  }

  /** The same four words as one line of text: `wrapText` returns the two
      lines. */
  lemma TwoLinesText(a: string, b: string, c: string, d: string, width: int)
    requires width >= 1 && Solid(a) && Solid(b) && Solid(c) && Solid(d)
    requires ' ' !in a && ' ' !in b && ' ' !in c && ' ' !in d
    requires '\n' !in a && '\n' !in b && '\n' !in c && '\n' !in d
    requires !EndsWithBreakMark(a) && !EndsWithBreakMark(b) && !EndsWithBreakMark(c)
    requires |a + " " + b| <= width && |a + " " + b + " " + c| > width
    requires |c + " " + d| <= width
    ensures Wrap(a + " " + b + " " + c + " " + d, width) == [a + " " + b, c + " " + d]
  {
    var words := [a, b, c, d];
    var text := a + " " + b + " " + c + " " + d;
    assert Split(text, ' ') == words by {
      assert Join(words, ' ') == text by {
        assert words[1..] == [b, c, d] && words[1..][1..] == [c, d] && words[1..][1..][1..] == [d];
        assert Join([d], ' ') == d;
        assert Join([c, d], ' ') == c + " " + d;
        assert Join([b, c, d], ' ') == b + " " + (c + " " + d);
        assert Join(words, ' ') == a + " " + (b + " " + (c + " " + d));
      }
      SplitJoin(words, ' ');
    }
    assert Split(text, '\n') == [text] by {
      assert '\n' !in text;
      SplitJoin([text], '\n');
    }
    assert !IsBlank(text) by {
      assert text[0] == a[0];
    }
    TwoLines(a, b, c, d, width);
    assert ParagraphLines(text, width) == [a + " " + b, c + " " + d];
    assert AllLines(text, width) == ParagraphLines(text, width) + WrapParagraphs([], width) by {
      assert [text][1..] == [];
    }
  }

  /** "The quick brown fox" on a board ten wide wraps into "The quick" and
      "brown fox". */
  lemma QuickBrownFox()
    ensures Wrap("The quick brown fox", 10) == ["The quick", "brown fox"]
  {
    assert "The quick brown fox" == "The" + " " + "quick" + " " + "brown" + " " + "fox";
    assert "The" + " " + "quick" == "The quick";
    assert "brown" + " " + "fox" == "brown fox";
    TwoLinesText("The", "quick", "brown", "fox", 10);
  }
}
