/**
  Where the text of the generated page stands: a reader of the content stream's text operators,
  after sections 9.4.1 to 9.4.3 of ISO 32000-1, that places every string it shows.
 */
module PdfPage {
  import opened Chars
  import opened WordWrap
  import opened PdfText

  datatype Placed = Placed(x: int, y: int, text: string)

  /** What the reader has met: operands not used yet, and the word it is in. */
  datatype Cursor = Cursor(x: int, y: int, leading: int, operands: seq<int>, text: string, word: string, placed: seq<Placed>)

  predicate IsDigit(c: char) { '0' <= c <= '9' }

  function Digits(word: string, value: nat): nat
    requires forall i :: 0 <= i < |word| ==> IsDigit(word[i])
  {
    if word == "" then value
    else
      assert IsDigit(word[0]);
      Digits(word[1..], 10 * value + (word[0] as int - '0' as int))
  }

  function Operand(c: Cursor, fromLast: nat): int {
    if fromLast < |c.operands| then c.operands[|c.operands| - 1 - fromLast] else 0
  }

  /** The effect of an operator, or of an operand. */
  function Obey(c: Cursor, word: string): Cursor {
    if word == "BT" then c.(x := 0, y := 0, operands := [])
    else if word == "TL" then c.(leading := Operand(c, 0), operands := [])
    else if word == "Td" then c.(x := c.x + Operand(c, 1), y := c.y + Operand(c, 0), operands := [])
    else if word == "T*" then c.(y := c.y - c.leading, operands := [])
    else if word == "Tj" then c.(placed := c.placed + [Placed(c.x, c.y, c.text)], operands := [])
    else if forall i :: 0 <= i < |word| ==> IsDigit(word[i]) then c.(operands := c.operands + [Digits(word, 0)])
    else if word[0] == '/' then c
    else c.(operands := [])
  }

  function EndWord(c: Cursor): Cursor {
    if c.word == "" then c else Obey(c.(word := ""), c.word)
  }

  /** The strings shown by the stream and where they stand. */
  function Place(s: string, c: Cursor): seq<Placed>
    decreases |s|
  {
    if s == "" then EndWord(c).placed
    else if IsWhitespace(s[0]) then Place(s[1..], EndWord(c))
    else if s[0] == '(' then
      var r := ReadLiteral(s[1..], 0);
      if r.None? then c.placed
      else
        ReadShortens(s[1..], 0);
        Place(r.value.rest, EndWord(c).(text := r.value.text))
    else Place(s[1..], c.(word := c.word + [s[0]]))
  }

  const START: Cursor := Cursor(0, 0, 0, [], "", "", [])

  predicate Plain(word: string) {
    forall i :: 0 <= i < |word| ==> !IsWhitespace(word[i]) && word[i] != '('
  }

  lemma {:induction false} ReadWord(word: string, rest: string, c: Cursor)
    requires Plain(word)
    ensures Place(word + rest, c) == Place(rest, c.(word := c.word + word))
    decreases |word|
  {
    if word == "" {
      assert word + rest == rest && c.word + word == c.word;
    } else {
      assert (word + rest)[1..] == word[1..] + rest;
      assert (c.word + [word[0]]) + word[1..] == c.word + word;
      ReadWord(word[1..], rest, c.(word := c.word + [word[0]]));
    }
  }

  lemma ReadOperator(word: string, space: char, rest: string, c: Cursor)
    requires Plain(word) && word != "" && IsWhitespace(space) && c.word == ""
    ensures Place(word + ([space] + rest), c) == Place(rest, Obey(c, word))
  {
    ReadWord(word, [space] + rest, c);
    assert "" + word == word && ([space] + rest)[1..] == rest;
  }

  lemma ReadNumber(word: string, n: nat, space: char, rest: string, c: Cursor)
    requires word != "" && forall i :: 0 <= i < |word| ==> IsDigit(word[i])
    requires n == Digits(word, 0) && IsWhitespace(space) && c.word == ""
    ensures Place(word + ([space] + rest), c) == Place(rest, c.(operands := c.operands + [n]))
  {
    assert IsDigit(word[0]);
    ReadOperator(word, space, rest, c);
  }

  lemma Numbers()
    ensures Digits("11", 0) == 11 && Digits("14", 0) == 14 && Digits("50", 0) == 50 && Digits("792", 0) == 792
  {
    assert "11"[1..] == "1" && "14"[1..] == "4" && "50"[1..] == "0" && "792"[1..] == "92" && "92"[1..] == "2";
    assert Digits("1", 1) == 11 && Digits("4", 1) == 14 && Digits("0", 5) == 50;
    assert Digits("2", 79) == 792 && Digits("92", 7) == 792;
  }

  lemma BeginText(rest: string)
    ensures Place("BT\n" + rest, START) == Place(rest, START)
  {
    assert "BT\n" + rest == "BT" + (['\n'] + rest);
    ReadOperator("BT", '\n', rest, START);
  }

  lemma SetFont(rest: string)
    ensures Place("/F1 11 Tf\n" + rest, START) == Place(rest, START)
  {
    Numbers();
    var font := "Tf" + (['\n'] + rest);
    var size := "11" + ([' '] + font);
    assert "/F1 11 Tf\n" + rest == "/F1" + ([' '] + size);
    ReadOperator("/F1", ' ', size, START);
    ReadNumber("11", 11, ' ', font, START);
    ReadOperator("Tf", '\n', rest, START.(operands := [] + [11]));
  }

  lemma SetLeading(rest: string)
    ensures Place("14 TL\n" + rest, START) == Place(rest, START.(leading := 14))
  {
    Numbers();
    var leading := "TL" + (['\n'] + rest);
    assert "14 TL\n" + rest == "14" + ([' '] + leading);
    ReadNumber("14", 14, ' ', leading, START);
    ReadOperator("TL", '\n', rest, START.(operands := [] + [14]));
  }

  lemma ReadPair(a: string, m: nat, b: string, n: nat, rest: string, c: Cursor)
    requires a != "" && (forall i :: 0 <= i < |a| ==> IsDigit(a[i])) && m == Digits(a, 0)
    requires b != "" && (forall i :: 0 <= i < |b| ==> IsDigit(b[i])) && n == Digits(b, 0)
    requires c.word == "" && c.operands == []
    ensures Place(a + ([' '] + (b + ([' '] + rest))), c) == Place(rest, c.(operands := [m, n]))
  {
    ReadNumber(a, m, ' ', b + ([' '] + rest), c);
    assert c.operands + [m] == [m];
    ReadNumber(b, n, ' ', rest, c.(operands := [m]));
    assert [m] + [n] == [m, n];
  }

  lemma MoveTo(rest: string, c: Cursor)
    requires c.word == "" && c.operands == []
    ensures Place("50 792 Td\n" + rest, c) == Place(rest, c.(x := c.x + 50, y := c.y + 792))
  {
    Numbers();
    var move := "Td" + (['\n'] + rest);
    assert "50 792 Td\n" + rest == "50" + ([' '] + ("792" + ([' '] + move)));
    ReadPair("50", 50, "792", 792, move, c);
    ReadOperator("Td", '\n', rest, c.(operands := [50, 792]));
    Moves(c, 50, 792);
  }

  lemma Moves(c: Cursor, dx: int, dy: int)
    requires c.operands == []
    ensures Obey(c.(operands := [dx, dy]), "Td") == c.(x := c.x + dx, y := c.y + dy)
  {
  }

  lemma Associate<T>(a: seq<T>, b: seq<T>, c: seq<T>)
    ensures (a + b) + c == a + (b + c)
  {
  }

  lemma HeaderParts(rest: string)
    ensures HEADER + rest == "BT\n" + ("/F1 11 Tf\n" + ("14 TL\n" + ("50 792 Td\n" + rest)))
  {
    var font, leading := "/F1 11 Tf\n", "14 TL\n" + "50 792 Td\n";
    assert HEADER == "BT\n" + (font + leading);
    Associate("BT\n", font + leading, rest);
    Associate(font, leading, rest);
    Associate("14 TL\n", "50 792 Td\n", rest);
  }

  /** The header puts the first line at (50, 792) and 14 units between lines. */
  lemma HeaderSets(rest: string)
    ensures Place(HEADER + rest, START) == Place(rest, START.(x := 50, y := 792, leading := 14))
  {
    var move := "50 792 Td\n" + rest;
    HeaderParts(rest);
    BeginText("/F1 11 Tf\n" + ("14 TL\n" + move));
    SetFont("14 TL\n" + move);
    SetLeading(move);
    MoveTo(rest, START.(leading := 14));
  }

  lemma PlaceShown(line: string, rest: string, c: Cursor)
    requires '\r' !in line && c.word == "" && c.operands == []
    ensures Place(Shown(line) + rest, c)
         == Place(rest, c.(text := line, placed := c.placed + [Placed(c.x, c.y, line)]))
  {
    var s, after := Shown(line) + rest, [' '] + ("Tj" + (['\n'] + rest));
    assert s[0] == '(' && s[1..] == EscapePdfText(line) + ")" + after;
    LiteralRoundTrip(line, after);
    assert after[1..] == "Tj" + (['\n'] + rest);
    ReadOperator("Tj", '\n', rest, c.(text := line));
  }

  /** The lines one below the other from (x, y) on. */
  ghost function Column(lines: seq<string>, x: int, y: int): seq<Placed> {
    if lines == [] then [] else [Placed(x, y, lines[0])] + Column(lines[1..], x, y - 14)
  }

  lemma {:induction false} ColumnAt(lines: seq<string>, x: int, y: int)
    ensures |Column(lines, x, y)| == |lines|
    ensures forall i :: 0 <= i < |lines| ==> Column(lines, x, y)[i] == Placed(x, y - 14 * i, lines[i])
  {
    if lines != [] {
      ColumnAt(lines[1..], x, y - 14);
    }
  }

  function Below(c: Cursor, line: string): Cursor {
    c.(y := c.y - 14, text := line, placed := c.placed + [Placed(c.x, c.y - 14, line)])
  }

  lemma PlaceBelow(line: string, rest: string, c: Cursor)
    requires '\r' !in line && c.word == "" && c.operands == [] && c.leading == 14
    ensures Place("T*" + (['\n'] + (Shown(line) + rest)), c) == Place(rest, Below(c, line))
  {
    ReadOperator("T*", '\n', Shown(line) + rest, c);
    PlaceShown(line, rest, c.(y := c.y - 14));
  }

  lemma NextPart(shown: string, others: string, rest: string)
    ensures ("T*\n" + shown + others) + rest == "T*" + (['\n'] + (shown + (others + rest)))
  {
    Associate("T*\n" + shown, others, rest);
    Associate("T*\n", shown, others + rest);
    Associate("T*", ['\n'], shown + (others + rest));
    assert "T*" + ['\n'] == "T*\n";
  }

  lemma PlaceNext(lines: seq<string>, rest: string, c: Cursor)
    requires NoCr(lines) && lines != [] && c.word == "" && c.operands == [] && c.leading == 14
    ensures Place(Following(lines) + rest, c) == Place(Following(lines[1..]) + rest, Below(c, lines[0]))
  {
    NextPart(Shown(lines[0]), Following(lines[1..]), rest);
    PlaceBelow(lines[0], Following(lines[1..]) + rest, c);
  }

  lemma {:induction false} PlaceFollowing(lines: seq<string>, rest: string, c: Cursor) returns (last: Cursor)
    requires NoCr(lines) && c.word == "" && c.operands == [] && c.leading == 14
    ensures last.word == "" && last.placed == c.placed + Column(lines, c.x, c.y - 14)
    ensures Place(Following(lines) + rest, c) == Place(rest, last)
    decreases |lines|
  {
    if lines == [] {
      assert Following(lines) + rest == rest && c.placed + [] == c.placed;
      last := c;
    } else {
      var next, line := Below(c, lines[0]), [Placed(c.x, c.y - 14, lines[0])];
      PlaceNext(lines, rest, c);
      last := PlaceFollowing(lines[1..], rest, next);
      Associate(c.placed, line, Column(lines[1..], next.x, next.y - 14));
    }
  }

  lemma PlaceFooter(c: Cursor)
    requires c.word == ""
    ensures Place(FOOTER, c) == c.placed
  {
    assert FOOTER == "ET" + (['\n'] + "");
    ReadOperator("ET", '\n', "", c);
  }

  /** Line i of the page starts at x = 50 and stands 14 units below the line before it. */
  lemma LinesAreStacked(lines: seq<string>)
    requires NoCr(lines)
    ensures var placed := Place(ContentStream(lines), START);
      |placed| == |lines| && forall i :: 0 <= i < |lines| ==> placed[i] == Placed(50, 792 - 14 * i, lines[i])
  {
    var c := START.(x := 50, y := 792, leading := 14);
    if lines == [] {
      HeaderSets(FOOTER);
      assert HEADER + "" + FOOTER == HEADER + FOOTER;
      PlaceFooter(c);
    } else {
      var tail := Following(lines[1..]) + FOOTER;
      assert ContentStream(lines) == HEADER + (Shown(lines[0]) + tail);
      HeaderSets(Shown(lines[0]) + tail);
      PlaceShown(lines[0], tail, c);
      var first := c.(text := lines[0], placed := [Placed(50, 792, lines[0])]);
      assert c.placed + [Placed(50, 792, lines[0])] == first.placed;
      var last := PlaceFollowing(lines[1..], FOOTER, first);
      PlaceFooter(last);
      ColumnAt(lines[1..], 50, 778);
    }
  }

  /** Every baseline is on the page, which is 842 units high from 0 up. */
  ghost predicate OnThePage(placed: seq<Placed>) {
    forall i :: 0 <= i < |placed| ==> 0 <= placed[i].y <= 842
  }

  /** There is one page only: the whole text is on it exactly when it wraps to at most 57 lines. */
  lemma OnePageHolds57Lines(text: string)
    ensures OnThePage(Place(ContentStream(Wrapped(text, MAX_CHARS)), START)) <==> |Wrapped(text, MAX_CHARS)| <= 57
  {
    var lines := Wrapped(text, MAX_CHARS);
    WrappedHasNoCr(text, MAX_CHARS);
    LinesAreStacked(lines);
    var placed := Place(ContentStream(lines), START);
    if |lines| > 57 {
      assert placed[57].y == 792 - 14 * 57;
    }
  }
}
