/** dialog.py: the text box that types out its pages letter by letter.

    A dialog starts in `Spawn`, is shown (`Typewriter`), types one letter
    every `FrameMax` ticks, and when the page is done waits in `Next` (more
    pages follow) or `Exit` (that was the last one). `render_dialog_text`
    wraps a page onto the box's two lines and lays out one letter per
    character the font has; glyph images are outside the model, a letter
    keeps the font-sheet cell it is cut from and where it is drawn. */
module Dialogs {
  import opened Wrappers

  const LetterH: nat := 12
  const LetterW: nat := 6
  /** Characters that fit on the first line. */
  const CharsPerLine: nat := 29
  /** Ticks per typed letter. */
  const FrameMax: nat := 2

  /** The rows of the font sheet, top to bottom (font.py's `text_rows`). */
  const FontRows: seq<string> := [
    "ABCDEFGHIJKLMNOPQRSTUVWXYZ",
    "abcdefghijklmnopqrstuvwxyz",
    "0123456789,.#!?#'\"\"-/##\U{E9} "]

  // ----- text helpers -----

  /** Position of the first `c` in `s` (Python's `s.index(c)`). */
  function CharIndex(s: string, c: char): (i: nat)
    requires c in s
    ensures i < |s| && s[i] == c && c !in s[..i]
  {
    if s[0] == c then 0 else 1 + CharIndex(s[1..], c)
  }

  /** `text.replace(':', '-')`. */
  function Replaced(s: string): (r: string)
    ensures |r| == |s| && ':' !in r
    ensures forall i :: 0 <= i < |s| ==> r[i] == (if s[i] == ':' then '-' else s[i])
  {
    seq(|s|, i requires 0 <= i < |s| => if s[i] == ':' then '-' else s[i])
  }

  /** `s.split(' ')`: cut at every space; neighbouring spaces give empty
      words, and there is always at least one word. */
  function Split(s: string): (r: seq<string>)
    ensures |r| >= 1
    ensures forall k :: 0 <= k < |r| ==> ' ' !in r[k]
    decreases |s|
  {
    if ' ' !in s then [s]
    else
      var i := CharIndex(s, ' ');
      [s[..i]] + Split(s[i + 1..])
  }

  /** `' '.join(ws)`. */
  function Join(ws: seq<string>): string {
    if ws == [] then ""
    else if |ws| == 1 then ws[0]
    else ws[0] + " " + Join(ws[1..])
  }

  /** Joining the words of a split gives the text back. */
  lemma {:induction false} JoinSplit(s: string)
    ensures Join(Split(s)) == s
    decreases |s|
  {
    if ' ' in s {
      var i := CharIndex(s, ' ');
      var rest := s[i + 1..];
      SplitAtSpace(s);
      JoinCons(s[..i], Split(rest));
      JoinSplit(rest);
      assert Join(Split(s)) == s[..i] + " " + rest;
    }
  }

  /** One step of `Split` at the first space, and the text it cuts. */
  lemma SplitAtSpace(s: string)
    requires ' ' in s
    ensures Split(s) == [s[..CharIndex(s, ' ')]] + Split(s[CharIndex(s, ' ') + 1..])
    ensures s == s[..CharIndex(s, ' ')] + " " + s[CharIndex(s, ' ') + 1..]
  {
    var i := CharIndex(s, ' ');
    assert s[i] == ' ';
    assert s == s[..i] + [s[i]] + s[i + 1..];
  }

  lemma JoinCons(w: string, ws: seq<string>)
    requires |ws| >= 1
    ensures Join([w] + ws) == w + " " + Join(ws)
  {
    assert ([w] + ws)[1..] == ws;
  }

  /** After a space-free word, the first space is the one that follows it. */
  lemma FirstSpaceAfterWord(w: string, rest: string)
    requires ' ' !in w
    ensures CharIndex(w + " " + rest, ' ') == |w|
  {
    var s := w + " " + rest;
    var i := CharIndex(s, ' ');
    assert s[|w|] == ' ';
    assert forall j :: 0 <= j < |w| ==> s[j] == w[j];
    assert i <= |w| by {
      assert forall j :: |w| < j <= |s| ==> s[..j][|w|] == ' ';
    }
  }

  /** Splitting a join of space-free words gives the words back. */
  lemma {:induction false} SplitJoin(ws: seq<string>)
    requires |ws| >= 1 && forall k :: 0 <= k < |ws| ==> ' ' !in ws[k]
    ensures Split(Join(ws)) == ws
  {
    if |ws| > 1 {
      var rest := Join(ws[1..]);
      var s := ws[0] + " " + rest;
      assert Join(ws) == s;
      assert ' ' !in ws[0];
      FirstSpaceAfterWord(ws[0], rest);
      assert s[..|ws[0]|] == ws[0] && s[|ws[0]| + 1..] == rest;
      SplitAtSpace(s);
      assert Split(s) == [ws[0]] + Split(rest);
      SplitJoin(ws[1..]);
      assert [ws[0]] + ws[1..] == ws;
    }
  }

  // ----- word wrap -----

  /** The first `n` words, joined, fit on a line. */
  predicate Fits(words: seq<string>, n: nat)
    requires n <= |words|
  {
    |Join(words[..n])| <= CharsPerLine
  }

  /** Greedy first line: having taken `i` words it takes one more while the
      line with it would still fit. */
  function TakeCount(words: seq<string>, i: nat): (k: nat)
    requires 1 <= i <= |words|
    ensures i <= k <= |words|
    ensures k == |words| || !Fits(words, k + 1)
    ensures forall j :: i < j <= k ==> Fits(words, j)
    decreases |words| - i
  {
    if i == |words| then i
    else if !Fits(words, i + 1) then i
    else TakeCount(words, i + 1)
  }

  /** How many words the first line gets: the first word always, then every
      next word while the line stays within `CharsPerLine`. */
  function FirstLineCount(words: seq<string>): (k: nat)
    requires |words| >= 1
    ensures 1 <= k <= |words|
    ensures forall j :: 1 < j <= k ==> Fits(words, j)
    ensures k == |words| || !Fits(words, k + 1)
  {
    TakeCount(words, 1)
  }

  /** The words of a page, split onto the box's two lines; the second line
      gets every word left over, however long. */
  function Lines(text: string): (r: (seq<string>, seq<string>))
    ensures |r.0| >= 1 && r.0 + r.1 == Split(Replaced(text))
  {
    var ws := Split(Replaced(text));
    var k := FirstLineCount(ws);
    assert ws[..k] + ws[k..] == ws;
    (ws[..k], ws[k..])
  }

  // ----- letter layout -----

  /** A letter of the typed page: the font-sheet cell `(row, column)` its
      glyph comes from, and its offset inside the text area. */
  datatype Letter = Letter(glyph: (nat, nat), x: int, y: int)

  /** The first font row at or after `n` that holds `c`. */
  function RowOf(font: seq<string>, c: char, n: nat): (r: Option<nat>)
    requires n <= |font|
    ensures r.Some? ==> n <= r.value < |font| && c in font[r.value]
                        && forall m :: n <= m < r.value ==> c !in font[m]
    ensures r.None? ==> forall m :: n <= m < |font| ==> c !in font[m]
    decreases |font| - n
  {
    if n == |font| then None
    else if c in font[n] then Some(n)
    else RowOf(font, c, n + 1)
  }

  /** Where the font keeps `c`: the first row holding it and its first
      position there; `None` for a character the font lacks. */
  function Glyph(font: seq<string>, c: char): (r: Option<(nat, nat)>)
    ensures r.None? ==> forall n :: 0 <= n < |font| ==> c !in font[n]
    ensures r.Some? ==> r.value.0 < |font| && r.value.1 < |font[r.value.0]|
                        && font[r.value.0][r.value.1] == c
                        && (forall m :: 0 <= m < r.value.0 ==> c !in font[m])
                        && c !in font[r.value.0][..r.value.1]
  {
    match RowOf(font, c, 0)
    case None => None
    case Some(n) => Some((n, CharIndex(font[n], c)))
  }

  /** The font holds '#' four times in its last row; the first of them,
      column 12, is the cell drawn. */
  lemma HashGlyph()
    ensures Glyph(FontRows, '#') == Some((2, 12))
  {
    assert '#' !in FontRows[0] && '#' !in FontRows[1];
    assert FontRows[2][12] == '#' && '#' !in FontRows[2][..12];
  }

  /** The letters of line `l` from character `pos` on: one per character the
      font has, `LetterW + 1` = 7 pixels apart, `LetterH` = 12 pixels per
      line, left to right. A character the font lacks leaves a gap. */
  function LineLetters(font: seq<string>, line: string, l: nat, pos: nat): (r: seq<Letter>)
    requires pos <= |line|
    ensures |r| <= |line| - pos
    ensures forall k :: 0 <= k < |r| ==> r[k].y == 12 * l && 7 * pos <= r[k].x < 7 * |line|
    ensures forall a, b :: 0 <= a < b < |r| ==> r[a].x < r[b].x
    decreases |line| - pos
  {
    if pos == |line| then []
    else
      var rest := LineLetters(font, line, l, pos + 1);
      match Glyph(font, line[pos])
      case None => rest
      case Some(g) => [Letter(g, 7 * pos, 12 * l)] + rest
  }

  /** Every letter is that of a character at or after `pos` the font has:
      cut from its cell, in its column. */
  lemma {:induction false} LettersPlaced(font: seq<string>, line: string, l: nat, pos: nat)
    requires pos <= |line|
    ensures forall k :: 0 <= k < |LineLetters(font, line, l, pos)| ==>
              exists i :: pos <= i < |line| && Glyph(font, line[i]).Some?
                          && LineLetters(font, line, l, pos)[k] == Letter(Glyph(font, line[i]).value, 7 * i, 12 * l)
    decreases |line| - pos
  {
    if pos < |line| {
      LettersPlaced(font, line, l, pos + 1);
      var r := LineLetters(font, line, l, pos);
      var rest := LineLetters(font, line, l, pos + 1);
      forall k | 0 <= k < |r|
        ensures exists i :: pos <= i < |line| && Glyph(font, line[i]).Some?
                            && r[k] == Letter(Glyph(font, line[i]).value, 7 * i, 12 * l)
      {
        if Glyph(font, line[pos]).Some? {
          if k == 0 {
            assert r[0] == Letter(Glyph(font, line[pos]).value, 7 * pos, 12 * l);
          } else {
            var i :| pos + 1 <= i < |line| && Glyph(font, line[i]).Some?
                     && rest[k - 1] == Letter(Glyph(font, line[i]).value, 7 * i, 12 * l);
            assert r[k] == rest[k - 1];
          }
        } else {
          var i :| pos + 1 <= i < |line| && Glyph(font, line[i]).Some?
                   && rest[k] == Letter(Glyph(font, line[i]).value, 7 * i, 12 * l);
          assert r[k] == rest[k];
        }
      }
    } else {
      assert LineLetters(font, line, l, pos) == [];
    }
  }

  /** No character the font has is left out. */
  lemma {:induction false} LettersComplete(font: seq<string>, line: string, l: nat, pos: nat)
    requires pos <= |line|
    ensures forall i :: pos <= i < |line| && Glyph(font, line[i]).Some? ==>
      Letter(Glyph(font, line[i]).value, 7 * i, 12 * l) in LineLetters(font, line, l, pos)
    decreases |line| - pos
  {
    if pos < |line| {
      LettersComplete(font, line, l, pos + 1);
      var r := LineLetters(font, line, l, pos);
      var rest := LineLetters(font, line, l, pos + 1);
      forall i | pos <= i < |line| && Glyph(font, line[i]).Some?
        ensures Letter(Glyph(font, line[i]).value, 7 * i, 12 * l) in r
      {
        if i == pos {
          assert r[0] == Letter(Glyph(font, line[i]).value, 7 * i, 12 * l);
        } else {
          var e := Letter(Glyph(font, line[i]).value, 7 * i, 12 * l);
          assert e in rest;
          var k :| 0 <= k < |rest| && rest[k] == e;
          if Glyph(font, line[pos]).Some? {
            assert r[k + 1] == e;
          } else {
            assert r[k] == e;
          }
        }
      }
    }
  }

  /** The letters `render_dialog_text` lays out for a page: no more than
      the two lines have characters, all on the first (y 0) or the second
      (y 12) line, and in reading order. */
  function Layout(text: string): (r: seq<Letter>)
    ensures |r| <= |Join(Lines(text).0)| + |Join(Lines(text).1)|
    ensures forall k :: 0 <= k < |r| ==> r[k].y == 0 || r[k].y == 12
    ensures forall a, b :: 0 <= a < b < |r| ==> r[a].y < r[b].y || (r[a].y == r[b].y && r[a].x < r[b].x)
  {
    var (line0, line1) := Lines(text);
    var first := LineLetters(FontRows, Join(line0), 0, 0);
    var second := LineLetters(FontRows, Join(line1), 1, 0);
    ReadingOrder(first, second);
    first + second
  }

  /** Two lines of letters, each left to right, the first above the second,
      read in order when put one after the other. */
  lemma ReadingOrder(first: seq<Letter>, second: seq<Letter>)
    requires forall k :: 0 <= k < |first| ==> first[k].y == 0
    requires forall k :: 0 <= k < |second| ==> second[k].y == 12
    requires forall a, b :: 0 <= a < b < |first| ==> first[a].x < first[b].x
    requires forall a, b :: 0 <= a < b < |second| ==> second[a].x < second[b].x
    ensures var r := first + second;
      forall a, b :: 0 <= a < b < |r| ==> r[a].y < r[b].y || (r[a].y == r[b].y && r[a].x < r[b].x)
  {
    var r := first + second;
    forall a, b | 0 <= a < b < |r|
      ensures r[a].y < r[b].y || (r[a].y == r[b].y && r[a].x < r[b].x)
    {
      if b < |first| {
        assert r[a] == first[a] && r[b] == first[b];
      } else if a >= |first| {
        assert r[a] == second[a - |first|] && r[b] == second[b - |first|];
      } else {
        assert r[a] == first[a] && r[b] == second[b - |first|];
      }
    }
  }

  /** The font lookup of `render_dialog_text`: the rows are searched in
      order and the first holding `c` gives the glyph. */
  method FindGlyph(font: seq<string>, c: char) returns (g: Option<(nat, nat)>)
    ensures g == Glyph(font, c)
  {
    var n := 0;
    while n < |font|
      invariant 0 <= n <= |font| && RowOf(font, c, 0) == RowOf(font, c, n)
    {
      if c in font[n] {
        return Some((n, CharIndex(font[n], c)));
      }
      n := n + 1;
    }
    return None;
  }

  /** The letters of one line, character by character. */
  method LayOutLine(font: seq<string>, line: string, l: nat) returns (letters: seq<Letter>)
    ensures letters == LineLetters(font, line, l, 0)
  {
    letters := [];
    var pos := 0;
    while pos < |line|
      invariant 0 <= pos <= |line|
      invariant LineLetters(font, line, l, 0) == letters + LineLetters(font, line, l, pos)
    {
      var g := FindGlyph(font, line[pos]);
      if g.Some? {
        letters := letters + [Letter(g.value, 7 * pos, 12 * l)];
      }
      pos := pos + 1;
    }
  }

  /** The word-wrap loop of `render_dialog_text`: words move to the first
      line until the next one would not fit. */
  method WrapFirstLine(all: seq<string>) returns (line0: seq<string>, words: seq<string>)
    requires |all| >= 1
    ensures line0 == all[..FirstLineCount(all)] && words == all[FirstLineCount(all)..]
  {
    words := all;
    line0 := [];
    var exceeded := false;
    ghost var n := 0;
    while words != [] && !exceeded
      invariant 0 <= n <= |all| && line0 == all[..n] && words == all[n..]
      invariant n == 0 ==> !exceeded
      invariant 1 <= n < |all| ==> (exceeded <==> !Fits(all, n + 1))
      invariant exceeded ==> 1 <= n < |all|
      invariant 1 <= n ==> FirstLineCount(all) == TakeCount(all, n)
      decreases |all| - n
    {
      line0 := line0 + [words[0]];
      words := words[1..];
      n := n + 1;
      assert line0 == all[..n];
      if words != [] {
        assert line0 + [words[0]] == all[..n + 1];
        exceeded := |Join(line0 + [words[0]])| > CharsPerLine;
      }
    }
  }

  /** `render_dialog_text(text)`: wrap, then lay out line by line. */
  method RenderDialogText(text: string) returns (letters: seq<Letter>)
    ensures letters == Layout(text)
  {
    var line0, words := WrapFirstLine(Split(Replaced(text)));
    letters := [];
    var l := 0;
    while l < 2
      invariant 0 <= l <= 2
      invariant letters == (if l == 0 then [] else if l == 1 then LineLetters(FontRows, Join(line0), 0, 0) else Layout(text))
    {
      var more := LayOutLine(FontRows, Join(if l == 0 then line0 else words), l);
      letters := letters + more;
      l := l + 1;
    }
  }

  // ----- the typewriter -----

  datatype Phase = Spawn | Typewriter | Next | Exit

  datatype DialogState = DialogState(
    phase: Phase,
    letter: nat,
    page: nat,
    frameCounter: nat,
    letterObjs: seq<Letter>)

  /** `set_next_state`: the page is done; `Next` if another page follows,
      `Exit` after the last. */
  function PageDone(s: DialogState, pageCount: nat): (r: DialogState)
    ensures r.frameCounter == 0 && (r.phase == Next <==> s.page + 1 < pageCount)
    ensures r.phase == Next || r.phase == Exit
    ensures r.(phase := s.phase, frameCounter := s.frameCounter) == s
  {
    s.(frameCounter := 0, phase := if s.page < pageCount - 1 then Next else Exit)
  }

  /** `animate`: only while typing. On the page's first tick it lays out the
      page's letters; every `FrameMax` ticks the next letter shows; when the
      last one is reached the page is done. `None` where the page index is
      out of range (IndexError). */
  function Animated(s: DialogState, pages: seq<string>): (r: Option<DialogState>)
    ensures s.phase != Typewriter ==> r == Some(s)
    ensures r.None? <==> s.phase == Typewriter && s.page >= |pages|
    ensures r.Some? && s.phase == Typewriter ==>
      var stepped := s.frameCounter + 1 == FrameMax;
      var letter := if stepped then s.letter + 1 else s.letter;
      var ends := letter == |pages[s.page]|;
      && r.value.page == s.page
      && r.value.letter == letter
      && r.value.frameCounter == (if stepped || ends then 0 else s.frameCounter + 1)
      && r.value.phase == (if !ends then Typewriter else if s.page + 1 < |pages| then Next else Exit)
      && r.value.letterObjs == (if s.letterObjs == [] then Layout(pages[s.page]) else s.letterObjs)
  {
    if s.phase != Typewriter then Some(s)
    else if s.page >= |pages| then None
    else
      var objs := if s.letterObjs == [] then Layout(pages[s.page]) else s.letterObjs;
      var counter := s.frameCounter + 1;
      var t := if counter == FrameMax then s.(letterObjs := objs, frameCounter := 0, letter := s.letter + 1)
               else s.(letterObjs := objs, frameCounter := counter);
      if t.letter == |pages[s.page]| then Some(PageDone(t, |pages|)) else Some(t)
  }

  /** What typing keeps: a page in range, the tick counter below
      `FrameMax`, and the letter not past the page's end (at the end only
      on a fresh tick count, so that reaching it is never missed). */
  predicate Typing(s: DialogState, pages: seq<string>) {
    && s.phase == Typewriter && s.page < |pages| && s.frameCounter < FrameMax
    && (s.letter < |pages[s.page]| || (s.letter == |pages[s.page]| && s.frameCounter + 1 < FrameMax))
  }

  /** While typing, `letter <= len(pages[page])` holds; the page ends in
      `Next` or `Exit` exactly when its last letter is reached. */
  lemma TypingPreserved(s: DialogState, pages: seq<string>)
    requires Typing(s, pages)
    ensures var r := Animated(s, pages);
            && r.Some? && r.value.page == s.page
            && (r.value.phase == Typewriter ==> Typing(r.value, pages) && r.value.letter < |pages[s.page]|)
            && (r.value.phase != Typewriter ==> r.value.letter == |pages[s.page]| && r.value.frameCounter == 0)
  {
  }

  function AnimatedTimes(s: DialogState, pages: seq<string>, k: nat): (r: Option<DialogState>)
    decreases k
  {
    if k == 0 then Some(s)
    else match Animated(s, pages)
      case None => None
      case Some(t) => AnimatedTimes(t, pages, k - 1)
  }

  /** From the start of a letter, a page of `n` letters still to type is
      done after exactly `2 * n` ticks, on the page it started on. */
  lemma {:induction false} PageTakesTwoTicksPerLetter(s: DialogState, pages: seq<string>)
    requires s.phase == Typewriter && s.page < |pages| && s.frameCounter == 0
    requires s.letter < |pages[s.page]|
    ensures var r := AnimatedTimes(s, pages, FrameMax * (|pages[s.page]| - s.letter));
            && r.Some? && r.value.page == s.page && r.value.letter == |pages[s.page]|
            && r.value.frameCounter == 0
            && r.value.phase == (if s.page + 1 < |pages| then Next else Exit)
    decreases |pages[s.page]| - s.letter
  {
    var t1 := Animated(s, pages).value;
    var t2 := Animated(t1, pages).value;
    assert t1.phase == Typewriter && t1.frameCounter == 1 && t1.letter == s.letter;
    var m := |pages[s.page]| - s.letter;
    assert AnimatedTimes(s, pages, FrameMax * m) == AnimatedTimes(t2, pages, FrameMax * m - 2);
    if s.letter + 1 < |pages[s.page]| {
      assert t2.phase == Typewriter && t2.frameCounter == 0 && t2.letter == s.letter + 1;
      PageTakesTwoTicksPerLetter(t2, pages);
    } else {
      assert FrameMax * m - 2 == 0;
    }
  }

  /** The other half: before those `2 * n` ticks are over the page is still
      being typed, one letter every `FrameMax` ticks. */
  lemma {:induction false} TypingUntilPageDone(s: DialogState, pages: seq<string>, k: nat)
    requires s.phase == Typewriter && s.page < |pages| && s.frameCounter == 0
    requires s.letter < |pages[s.page]| && k < FrameMax * (|pages[s.page]| - s.letter)
    ensures var r := AnimatedTimes(s, pages, k);
            && r.Some? && r.value.phase == Typewriter && r.value.page == s.page
            && r.value.letter == s.letter + k / FrameMax && r.value.frameCounter == k % FrameMax
    decreases k
  {
    var t1 := Animated(s, pages).value;
    assert t1.phase == Typewriter && t1.page == s.page && t1.frameCounter == 1 && t1.letter == s.letter;
    if k == 1 {
      assert AnimatedTimes(s, pages, 1) == AnimatedTimes(t1, pages, 0);
    } else if k >= 2 {
      var t2 := Animated(t1, pages).value;
      assert t2.phase == Typewriter && t2.page == s.page && t2.frameCounter == 0 && t2.letter == s.letter + 1;
      assert AnimatedTimes(s, pages, k) == AnimatedTimes(t2, pages, k - 2);
      TypingUntilPageDone(t2, pages, k - 2);
    }
  }

  /** `skip`: the rest of the page shows at once, then the page is done;
      `None` where the page index is out of range. */
  function Skipped(s: DialogState, pages: seq<string>): (r: Option<DialogState>)
    ensures r.Some? <==> s.page < |pages|
    ensures r.Some? ==> r.value.letter >= |pages[s.page]| && r.value.letter >= s.letter
                        && (s.letter <= |pages[s.page]| ==> r.value.letter == |pages[s.page]|)
                        && r.value.frameCounter == 0 && (r.value.phase == Next || r.value.phase == Exit)
                        && (r.value.phase == Next <==> s.page + 1 < |pages|)
                        && r.value.page == s.page && r.value.letterObjs == s.letterObjs
  {
    if s.page >= |pages| then None
    else
      var letter := if s.letter < |pages[s.page]| then |pages[s.page]| else s.letter;
      Some(PageDone(s.(letter := letter), |pages|))
  }

  /** `next_page`: the next page, typed from its first letter. */
  function TurnedPage(s: DialogState): (r: DialogState)
    ensures r.phase == Typewriter && r.letter == 0 && r.page == s.page + 1 && r.letterObjs == []
    ensures r.frameCounter == s.frameCounter
  {
    s.(letter := 0, page := s.page + 1, letterObjs := [], phase := Typewriter)
  }

  /** Turning the page from `Next` lands on a page that exists, and typing
      it goes on as before. */
  lemma NextPageInRange(s: DialogState, pages: seq<string>)
    requires s.phase == Next && s.page + 1 < |pages| && s.frameCounter == 0
    ensures Typing(TurnedPage(s), pages)
  {
  }

  /** `update` without the drawing: in `Next` it first places the continue
      button beside the last letter, which raises IndexError (`None`) when
      the page has no letters; then it animates. */
  function Updated(s: DialogState, pages: seq<string>): (r: Option<DialogState>)
    ensures s.phase == Next ==> (r.Some? <==> s.letterObjs != []) && (r.Some? ==> r.value == s)
    ensures s.phase != Next ==> r == Animated(s, pages)
  {
    if s.phase == Next && s.letterObjs == [] then None else Animated(s, pages)
  }

  class Dialog {
    const pages: seq<string>
    var phase: Phase
    var letter: nat
    var page: nat
    var frameCounter: nat
    var letterObjs: seq<Letter>

    function State(): DialogState
      reads this
    {
      DialogState(phase, letter, page, frameCounter, letterObjs)
    }

    constructor (pages: seq<string>)
      ensures this.pages == pages && State() == DialogState(Spawn, 0, 0, 0, [])
    {
      this.pages := pages;
      phase := Spawn;
      letter := 0;
      page := 0;
      frameCounter := 0;
      letterObjs := [];
    }

    /** `display`: start typing. */
    method Display()
      modifies this
      ensures State() == old(State()).(phase := Typewriter)
    {
      phase := Typewriter;
    }

    method SetNextState()
      modifies this
      ensures State() == PageDone(old(State()), |pages|)
    {
      frameCounter := 0;
      if page < |pages| - 1 {
        phase := Next;
      } else {
        phase := Exit;
      }
    }

    /** `ok` is false where the source raises IndexError. */
    method Animate() returns (ok: bool)
      modifies this
      ensures ok == Animated(old(State()), pages).Some?
      ensures ok ==> State() == Animated(old(State()), pages).value
    {
      ok := true;
      if phase == Typewriter {
        if page >= |pages| {
          ok := false;
          return;
        }
        if letterObjs == [] {
          letterObjs := RenderDialogText(pages[page]);
        }
        frameCounter := frameCounter + 1;
        if frameCounter == FrameMax {
          frameCounter := 0;
          letter := letter + 1;
        }
        if letter == |pages[page]| {
          SetNextState();
        }
      }
    }

    method NextPage()
      modifies this
      ensures State() == TurnedPage(old(State()))
    {
      letter := 0;
      page := page + 1;
      letterObjs := [];
      phase := Typewriter;
    }

    /** `ok` is false where the source raises IndexError. */
    method Skip() returns (ok: bool)
      modifies this
      ensures ok == Skipped(old(State()), pages).Some?
      ensures ok ==> State() == Skipped(old(State()), pages).value
    {
      if page >= |pages| {
        return false;
      }
      while letter < |pages[page]|
        invariant page == old(page) && phase == old(phase) && frameCounter == old(frameCounter)
        invariant letterObjs == old(letterObjs)
        invariant letter == old(letter) || (old(letter) < letter <= |pages[page]|)
        decreases |pages[page]| - letter
      {
        letter := letter + 1;
      }
      SetNextState();
      ok := true;
    }

    /** `ok` is false where the source raises IndexError. */
    method Update() returns (ok: bool)
      modifies this
      ensures ok == Updated(old(State()), pages).Some?
      ensures ok ==> State() == Updated(old(State()), pages).value
    {
      if phase == Next && letterObjs == [] {
        return false;
      }
      ok := Animate();
    }
  }
}
