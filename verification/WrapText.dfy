/** Greedy word wrap: the words of a text, in lines of at most so many bytes. */
module WrapText {
  import opened Basics
  import opened Utf8Text

  type Word = string
  type Line = seq<Word>

  // -------------------------------------------------------------------------
  // strings.Fields
  // -------------------------------------------------------------------------

  predicate IsWord(w: Word) {
    w != "" && forall i :: 0 <= i < |w| ==> !IsSpace(w[i])
  }

  predicate AreWords(ws: Line) {
    forall i :: 0 <= i < |ws| ==> IsWord(ws[i])
  }

  predicate EndsInWord(s: string) {
    s != "" && !IsSpace(s[|s| - 1])
  }

  /** The words of a text, between its runs of white space. */
  function Fields(s: string): (ws: Line)
    ensures AreWords(ws) && (EndsInWord(s) ==> ws != [])
  {
    if s == "" then []
    else
      var before, c := s[..|s| - 1], s[|s| - 1];
      if IsSpace(c) then Fields(before)
      else if EndsInWord(before) then Lengthened(Fields(before), c)
      else Fields(before) + [[c]]
  }

  function Lengthened(ws: Line, c: char): (r: Line)
    requires ws != [] && AreWords(ws) && !IsSpace(c)
    ensures AreWords(r) && |r| == |ws|
  {
    ws[|ws| - 1 := ws[|ws| - 1] + [c]]
  }

  /** A line as it is printed: its words, one space between them. */
  function Join(line: Line): string
    requires line != []
  {
    if |line| == 1 then line[0] else Join(line[..|line| - 1]) + " " + line[|line| - 1]
  }

  function Width(line: Line): nat
    requires line != []
  {
    if |line| == 1 then ByteLen(line[0]) else Width(line[..|line| - 1]) + 1 + ByteLen(line[|line| - 1])
  }

  lemma {:induction false} ByteLenAdds(s: string, t: string)
    ensures ByteLen(s + t) == ByteLen(s) + ByteLen(t)
  {
    if t == "" {
      assert s + t == s;
    } else {
      ByteLenAdds(s, t[..|t| - 1]);
      assert (s + t)[..|s + t| - 1] == s + t[..|t| - 1];
    }
  }

  lemma {:induction false} WidthIsByteLen(line: Line)
    requires line != []
    ensures ByteLen(Join(line)) == Width(line)
  {
    if |line| > 1 {
      var before, w := line[..|line| - 1], line[|line| - 1];
      WidthIsByteLen(before);
      ByteLenAdds(Join(before) + " ", w);
      ByteLenAdds(Join(before), " ");
      assert ByteLen(" ") == 1 by { assert " "[..0] == ""; }
    }
  }

  lemma FieldsMore(s: string, c: char)
    ensures Fields(s + [c]) == if IsSpace(c) then Fields(s)
                               else if EndsInWord(s) then Lengthened(Fields(s), c)
                               else Fields(s) + [[c]]
  {
    assert (s + [c])[..|s|] == s;
  }

  lemma LastLengthened(ws: Line, w: Word, c: char)
    requires AreWords(ws) && IsWord(w) && !IsSpace(c)
    ensures Lengthened(ws + [w], c) == ws + [w + [c]]
  {
  }

  lemma WordGrows(s: string, w: Word, c: char)
    requires IsWord(w) && !IsSpace(c) && EndsInWord(s + w) && Fields(s + w) == Fields(s) + [w]
    ensures Fields(s + (w + [c])) == Fields(s) + [w + [c]]
  {
    FieldsMore(s + w, c);
    LastLengthened(Fields(s), w, c);
    assert s + w + [c] == s + (w + [c]);
  }

  lemma {:induction false} FieldsOfWord(s: string, w: Word)
    requires IsWord(w) && !EndsInWord(s)
    ensures Fields(s + w) == Fields(s) + [w] && EndsInWord(s + w)
    decreases |w|
  {
    var before, c := w[..|w| - 1], w[|w| - 1];
    assert before + [c] == w;
    if before == "" {
      FieldsMore(s, c);
    } else {
      FieldsOfWord(s, before);
      WordGrows(s, before, c);
    }
  }

  lemma FieldsOfLine(s: string, ws: Line, w: Word)
    requires Fields(s) == ws && EndsInWord(s) && IsWord(w)
    ensures Fields(s + " " + w) == ws + [w] && EndsInWord(s + " " + w)
  {
    FieldsMore(s, ' ');
    FieldsOfWord(s + " ", w);
  }

  lemma FieldsOfOne(w: Word)
    requires IsWord(w)
    ensures Fields(w) == [w]
  {
    FieldsOfWord([], w);
    assert [] + w == w;
  }

  lemma JoinMore(line: Line, w: Word)
    requires line != []
    ensures Join(line + [w]) == Join(line) + " " + w
  {
    assert (line + [w])[..|line|] == line;
  }

  /** A printed line reads back as the words it was made of. */
  lemma {:induction false} FieldsOfJoined(line: Line)
    requires line != [] && AreWords(line)
    ensures Fields(Join(line)) == line && EndsInWord(Join(line))
  {
    if |line| == 1 {
      FieldsOfOne(line[0]);
      assert line == [line[0]];
    } else {
      var before, w := line[..|line| - 1], line[|line| - 1];
      assert line == before + [w];
      FieldsOfJoined(before);
      FieldsOfLine(Join(before), before, w);
      JoinMore(before, w);
    }
  }

  // -------------------------------------------------------------------------
  // Wrappings
  // -------------------------------------------------------------------------

  function Flat(lines: seq<Line>): Line {
    if lines == [] then [] else Flat(lines[..|lines| - 1]) + lines[|lines| - 1]
  }

  predicate LineOk(line: Line, width: nat) {
    line != [] && (Width(line) <= width || |line| == 1)
  }

  /** The lines hold the words in order, and none is wider than the width unless it is one word. */
  predicate IsWrapping(lines: seq<Line>, words: Line, width: nat) {
    Flat(lines) == words && forall i :: 0 <= i < |lines| ==> LineOk(lines[i], width)
  }

  /** One more word: at the end of the last line, or on a line of its own. */
  function Placed(lines: seq<Line>, w: Word, width: nat): seq<Line>
    requires lines != [] && lines[|lines| - 1] != []
  {
    var line := lines[|lines| - 1];
    if Width(line) + 1 + ByteLen(w) > width then lines + [[w]] else lines[|lines| - 1 := line + [w]]
  }

  /** wrapText's lines, word by word. */
  function Greedy(words: Line, width: nat): (lines: seq<Line>)
    ensures forall i :: 0 <= i < |lines| ==> LineOk(lines[i], width)
    ensures words != [] ==> lines != []
  {
    if words == [] then []
    else if |words| == 1 then [[words[0]]]
    else
      var before, w := Greedy(words[..|words| - 1], width), words[|words| - 1];
      var line := before[|before| - 1];
      assert (line + [w])[..|line|] == line;
      Placed(before, w, width)
  }

  lemma FlatOfOne(line: Line)
    ensures Flat([line]) == line
  {
    assert [line][..0] == [];
  }

  lemma FlatMore(lines: seq<Line>, line: Line)
    ensures Flat(lines + [line]) == Flat(lines) + line
  {
    assert (lines + [line])[..|lines|] == lines;
  }

  lemma FlatLonger(lines: seq<Line>, w: Word)
    requires lines != []
    ensures Flat(lines[|lines| - 1 := lines[|lines| - 1] + [w]]) == Flat(lines) + [w]
  {
    var n := |lines| - 1;
    assert lines[n := lines[n] + [w]][..n] == lines[..n];
    assert Flat(lines[..n]) + (lines[n] + [w]) == Flat(lines[..n]) + lines[n] + [w];
  }

  lemma PlacedFlat(lines: seq<Line>, w: Word, width: nat)
    requires lines != [] && lines[|lines| - 1] != []
    ensures Flat(Placed(lines, w, width)) == Flat(lines) + [w]
  {
    FlatMore(lines, [w]);
    FlatLonger(lines, w);
  }

  /** Greedy keeps the words exactly. */
  lemma {:induction false} GreedyWraps(words: Line, width: nat)
    ensures IsWrapping(Greedy(words, width), words, width)
  {
    if |words| == 1 {
      FlatOfOne([words[0]]);
      assert words == [words[0]];
    } else if |words| > 1 {
      var before, w := words[..|words| - 1], words[|words| - 1];
      GreedyWraps(before, width);
      PlacedFlat(Greedy(before, width), w, width);
      assert before + [w] == words;
    }
  }

  // -------------------------------------------------------------------------
  // No wrapping uses fewer lines
  // -------------------------------------------------------------------------

  /** The first wrapping uses fewer lines, or as many with no more on the last. */
  ghost predicate Ahead(a: seq<Line>, b: seq<Line>)
    requires a != [] && b != [] && a[|a| - 1] != [] && b[|b| - 1] != []
  {
    |a| < |b| || (|a| == |b| && Width(a[|a| - 1]) <= Width(b[|b| - 1]))
  }

  lemma LongerFlat(lines: seq<Line>, width: nat)
    requires forall i :: 0 <= i < |lines| ==> LineOk(lines[i], width)
    ensures |Flat(lines)| >= |lines|
  {
    if lines != [] { LongerFlat(lines[..|lines| - 1], width); }
  }

  /** A wrapping without its last word: the last line is one shorter, or gone. */
  function Unwrapped(lines: seq<Line>): seq<Line>
    requires lines != [] && lines[|lines| - 1] != []
  {
    var n := |lines| - 1;
    if |lines[n]| == 1 then lines[..n] else lines[n := lines[n][..|lines[n]| - 1]]
  }

  lemma UnwrappedWraps(lines: seq<Line>, words: Line, width: nat)
    requires lines != [] && words != [] && IsWrapping(lines, words, width)
    ensures IsWrapping(Unwrapped(lines), words[..|words| - 1], width)
    ensures lines[|lines| - 1][|lines[|lines| - 1]| - 1] == words[|words| - 1]
  {
    var n := |lines| - 1;
    var last, u := lines[n], Unwrapped(lines);
    assert LineOk(last, width);
    assert words == Flat(lines[..n]) + last;
    if |last| == 1 {
      assert words[..|words| - 1] == Flat(lines[..n]);
    } else {
      assert u[..n] == lines[..n] && u[n] == last[..|last| - 1];
      assert words[..|words| - 1] == Flat(lines[..n]) + u[n];
      assert LineOk(u[n], width);
    }
  }

  lemma LastLineOk(lines: seq<Line>, words: Line, width: nat)
    requires words != [] && IsWrapping(lines, words, width)
    ensures lines != [] && LineOk(lines[|lines| - 1], width)
  {
  }

  lemma {:induction false} GreedyIsAhead(words: Line, lines: seq<Line>, width: nat)
    requires words != [] && IsWrapping(lines, words, width)
    ensures lines != [] && lines[|lines| - 1] != [] && Ahead(Greedy(words, width), lines)
    decreases |words|
  {
    LastLineOk(lines, words, width);
    UnwrappedWraps(lines, words, width);
    var last := lines[|lines| - 1];
    if |words| == 1 {
      LongerFlat(lines, width);
      FlatOfOne(last);
      assert |lines| == 1 && lines == [last];
    } else {
      var fewer := words[..|words| - 1];
      GreedyIsAhead(fewer, Unwrapped(lines), width);
    }
  }

  /** Of all the wrappings of a text within a width, greedy's has the fewest lines. */
  lemma GreedyUsesFewestLines(words: Line, lines: seq<Line>, width: nat)
    requires IsWrapping(lines, words, width)
    ensures |Greedy(words, width)| <= |lines|
  {
    if words != [] { GreedyIsAhead(words, lines, width); }
  }

  // -------------------------------------------------------------------------
  // wrapText
  // -------------------------------------------------------------------------

  function Rendered(lines: seq<Line>): (r: seq<string>)
    requires forall i :: 0 <= i < |lines| ==> lines[i] != []
    ensures |r| == |lines| && forall i :: 0 <= i < |r| ==> r[i] == Join(lines[i])
  {
    seq(|lines|, i requires 0 <= i < |lines| => Join(lines[i]))
  }

  /** The words of a printed text, line by line. */
  function WordsOf(out: seq<string>): Line {
    if out == [] then [] else WordsOf(out[..|out| - 1]) + Fields(out[|out| - 1])
  }

  lemma {:induction false} WordsOfRendered(lines: seq<Line>)
    requires forall i :: 0 <= i < |lines| ==> lines[i] != []
    requires AreWords(Flat(lines))
    ensures WordsOf(Rendered(lines)) == Flat(lines)
  {
    if lines != [] {
      var before, line := lines[..|lines| - 1], lines[|lines| - 1];
      assert forall i :: 0 <= i < |Flat(before)| ==> Flat(before)[i] == Flat(lines)[i];
      assert forall i :: 0 <= i < |line| ==> line[i] == Flat(lines)[|Flat(before)| + i];
      WordsOfRendered(before);
      FieldsOfJoined(line);
      assert Rendered(lines)[..|lines| - 1] == Rendered(before);
    }
  }

  /** One more word: a line of its own, or the end of the last line. */
  lemma GreedyPrints(words: Line, width: nat, out: seq<string>, line: string)
    requires |words| > 1 && out + [line] == Rendered(Greedy(words[..|words| - 1], width))
    ensures var w := words[|words| - 1];
            Rendered(Greedy(words, width)) == if ByteLen(line) + 1 + ByteLen(w) > width then out + [line] + [w]
                                              else out + [line + " " + w]
  {
    var before, w := Greedy(words[..|words| - 1], width), words[|words| - 1];
    var n := |before| - 1;
    assert line == (out + [line])[n] == Join(before[n]);
    WidthIsByteLen(before[n]);
    assert (before[n] + [w])[..|before[n]|] == before[n];
    assert forall i :: 0 <= i < n ==> out[i] == (out + [line])[i] == Join(before[i]);
  }

  lemma RenderedIsRight(words: Line, width: nat, out: seq<string>)
    requires AreWords(words) && out == Rendered(Greedy(words, width))
    ensures WordsOf(out) == words
    ensures forall i :: 0 <= i < |out| ==> ByteLen(out[i]) <= width || out[i] in words
    ensures forall lines :: IsWrapping(lines, words, width) ==> |out| <= |lines|
  {
    forall lines | IsWrapping(lines, words, width) ensures |out| <= |lines| {
      GreedyUsesFewestLines(words, lines, width);
    }
    var lines := Greedy(words, width);
    GreedyWraps(words, width);
    WordsOfRendered(lines);
    forall i | 0 <= i < |out| ensures ByteLen(out[i]) <= width || out[i] in words {
      assert LineOk(lines[i], width);
      WidthIsByteLen(lines[i]);
      if Width(lines[i]) > width { InFlat(lines, i); }
    }
  }

  lemma {:induction false} InFlat(lines: seq<Line>, i: nat)
    requires i < |lines| && lines[i] != []
    ensures lines[i][0] in Flat(lines)
  {
    if i < |lines| - 1 { InFlat(lines[..|lines| - 1], i); }
  }

  /** wrapText's loop. */
  method Lay(words: Line, width: nat) returns (out: seq<string>)
    requires words != []
    ensures out == Rendered(Greedy(words, width))
  {
    out := [];
    var line := words[0];
    var i := 1;
    while i < |words|
      invariant 1 <= i <= |words|
      invariant out + [line] == Rendered(Greedy(words[..i], width))
    {
      var w := words[i];
      assert words[..i + 1][..i] == words[..i];
      GreedyPrints(words[..i + 1], width, out, line);
      if ByteLen(line) + 1 + ByteLen(w) > width {
        out := out + [line];
        line := w;
      } else {
        line := line + " " + w;
      }
      i := i + 1;
    }
    assert words[..i] == words;
    out := out + [line];
  }

  /** The words are kept exactly, a line is wider than the width only if it is one word that is, and
      no wrapping uses fewer lines. */
  method Wrap(text: string, width: nat) returns (out: seq<string>)
    ensures WordsOf(out) == Fields(text)
    ensures forall i :: 0 <= i < |out| ==> ByteLen(out[i]) <= width || out[i] in Fields(text)
    ensures forall lines :: IsWrapping(lines, Fields(text), width) ==> |out| <= |lines|
  {
    var words := Fields(text);
    if |words| == 0 {
      out := [];
    } else {
      out := Lay(words, width);
    }
    RenderedIsRight(words, width, out);
  }
}
