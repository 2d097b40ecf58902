/**
  The text layer of the generated PDF: escaped literal strings shown line by line, and a reader
  of literal strings after section 7.3.4.2 of ISO 32000-1 that recovers them.
 */
module PdfText {
  import opened Seqs
  import opened WordWrap

  // ---- Escaping ----

  /** `str::replace` of one character by a string. */
  function Replace(s: string, c: char, with: string): string {
    if s == "" then "" else (if s[0] == c then with else [s[0]]) + Replace(s[1..], c, with)
  }

  function EscapePdfText(s: string): string {
    Replace(Replace(Replace(s, '\\', "\\\\"), '(', "\\("), ')', "\\)")
  }

  /** One character's escape. */
  function Escape(c: char): string {
    if c == '\\' || c == '(' || c == ')' then ['\\', c] else [c]
  }

  lemma {:induction false} ReplaceAppend(a: string, b: string, c: char, with: string)
    ensures Replace(a + b, c, with) == Replace(a, c, with) + Replace(b, c, with)
  {
    if a == "" {
      assert a + b == b;
    } else {
      assert (a + b)[1..] == a[1..] + b;
      ReplaceAppend(a[1..], b, c, with);
    }
  }

  lemma EscapeAppend(a: string, b: string)
    ensures EscapePdfText(a + b) == EscapePdfText(a) + EscapePdfText(b)
  {
    ReplaceAppend(a, b, '\\', "\\\\");
    var x, y := Replace(a, '\\', "\\\\"), Replace(b, '\\', "\\\\");
    ReplaceAppend(x, y, '(', "\\(");
    ReplaceAppend(Replace(x, '(', "\\("), Replace(y, '(', "\\("), ')', "\\)");
  }

  lemma ReplaceOne(c: char, d: char, with: string)
    ensures Replace([c], d, with) == if c == d then with else [c]
  {
    assert [c][1..] == "";
  }

  lemma ReplaceTwo(a: char, b: char, d: char, with: string)
    ensures Replace([a, b], d, with) == (if a == d then with else [a]) + (if b == d then with else [b])
  {
    assert [a, b][1..] == [b];
    ReplaceOne(b, d, with);
  }

  /** The three replacements in sequence escape each character once: later ones leave earlier escapes alone. */
  lemma EscapeOne(c: char)
    ensures EscapePdfText([c]) == Escape(c)
  {
    ReplaceOne(c, '\\', "\\\\");
    ReplaceOne(c, '(', "\\(");
    ReplaceOne(c, ')', "\\)");
    ReplaceTwo('\\', c, '(', "\\(");
    ReplaceTwo('\\', c, ')', "\\)");
  }

  // ---- Reading a literal string ----

  datatype Read = Read(text: string, rest: string)

  predicate IsOctal(c: char) { '0' <= c <= '7' }

  /** The value of up to three octal digits; overflow beyond one byte is ignored. */
  function Octal(digits: string, value: nat): char
    requires forall i :: 0 <= i < |digits| ==> IsOctal(digits[i])
  {
    if digits == "" then (value % 256) as char
    else
      assert IsOctal(digits[0]);
      Octal(digits[1..], value * 8 + (digits[0] as int - '0' as int))
  }

  /** How many of the first `limit` characters are octal digits. */
  function OctalDigits(s: string, limit: nat): (n: nat)
    ensures n <= |s| && n <= limit && forall i :: 0 <= i < n ==> IsOctal(s[i])
  {
    if s == "" || limit == 0 || !IsOctal(s[0]) then 0 else 1 + OctalDigits(s[1..], limit - 1)
  }

  /** What follows a backslash: the character it stands for (or none) and the length it takes. */
  function Escaped(s: string): (string, nat)
    requires s != ""
    ensures 1 <= Escaped(s).1 <= |s|
  {
    var c := s[0];
    if c == 'n' then ("\n", 1)
    else if c == 'r' then ("\r", 1)
    else if c == 't' then ("\t", 1)
    else if c == 'b' then ("\U{0008}", 1)
    else if c == 'f' then ("\U{000C}", 1)
    else if c == '\r' && |s| > 1 && s[1] == '\n' then ("", 2)
    else if c == '\r' || c == '\n' then ("", 1)
    else if IsOctal(c) then
      var n := OctalDigits(s, 3);
      ([Octal(s[..n], 0)], n)
    else ([c], 1)
  }

  function Prepend(text: string, r: Option<Read>): Option<Read> {
    if r.None? then None else Some(Read(text + r.value.text, r.value.rest))
  }

  /** Reads up to the parenthesis that closes the string; `depth` balanced ones are open inside it. */
  function ReadLiteral(s: string, depth: nat): Option<Read>
    decreases |s|
  {
    if s == "" then None
    else if s[0] == '\\' then
      if |s| == 1 then None
      else
        var (text, n) := Escaped(s[1..]);
        Prepend(text, ReadLiteral(s[1 + n..], depth))
    else if s[0] == ')' then
      if depth == 0 then Some(Read("", s[1..])) else Prepend(")", ReadLiteral(s[1..], depth - 1))
    else if s[0] == '(' then Prepend("(", ReadLiteral(s[1..], depth + 1))
    else if s[0] == '\r' then Prepend("\n", ReadLiteral(s[if |s| > 1 && s[1] == '\n' then 2 else 1..], depth))
    else Prepend([s[0]], ReadLiteral(s[1..], depth))
  }

  /** Unescaped ends of line read as line feeds. */
  function NormalEol(s: string): string
    decreases |s|
  {
    if s == "" then ""
    else if s[0] == '\r' then "\n" + NormalEol(s[if |s| > 1 && s[1] == '\n' then 2 else 1..])
    else [s[0]] + NormalEol(s[1..])
  }

  lemma ReadOne(c: char, rest: string)
    requires c != '\r'
    ensures ReadLiteral(Escape(c) + rest, 0) == Prepend([c], ReadLiteral(rest, 0))
  {
    var s := Escape(c) + rest;
    if c == '\\' || c == '(' || c == ')' {
      assert s[1..] == [c] + rest;
      assert s[2..] == rest;
    } else {
      assert s[1..] == rest;
    }
  }

  lemma EscapeFirst(s: string, rest: string)
    requires s != ""
    ensures EscapePdfText(s) + ")" + rest == Escape(s[0]) + (EscapePdfText(s[1..]) + ")" + rest)
  {
    assert s == [s[0]] + s[1..];
    EscapeAppend([s[0]], s[1..]);
    EscapeOne(s[0]);
  }

  /** An escaped string reads back with only its ends of line changed, and the reader stops at its own parenthesis. */
  lemma {:induction false} EscapedReads(s: string, rest: string)
    ensures ReadLiteral(EscapePdfText(s) + ")" + rest, 0) == Some(Read(NormalEol(s), rest))
    decreases |s|
  {
    if s == "" {
      assert EscapePdfText(s) + ")" + rest == ")" + rest;
      assert (")" + rest)[1..] == rest;
    } else {
      EscapeFirst(s, rest);
      var tail := EscapePdfText(s[1..]) + ")" + rest;
      var whole := Escape(s[0]) + tail;
      if s[0] != '\r' {
        EscapedReads(s[1..], rest);
        ReadOne(s[0], tail);
      } else {
        assert whole[1..] == tail;
        if |s| > 1 {
          EscapeFirst(s[1..], rest);
          assert s[1..][1..] == s[2..];
          assert tail[0] == Escape(s[1])[0];
        }
        if |s| > 1 && s[1] == '\n' {
          assert whole[2..] == EscapePdfText(s[2..]) + ")" + rest;
          EscapedReads(s[2..], rest);
        } else {
          EscapedReads(s[1..], rest);
        }
      }
    }
  }

  lemma {:induction false} NormalEolFacts(s: string)
    ensures '\r' !in NormalEol(s)
    ensures '\r' !in s ==> NormalEol(s) == s
    decreases |s|
  {
    if s != "" {
      if s[0] == '\r' && |s| > 1 && s[1] == '\n' {
        NormalEolFacts(s[2..]);
      } else {
        NormalEolFacts(s[1..]);
      }
    }
  }

  /** A string comes back exactly when it holds no carriage return, which nothing escapes. */
  lemma LiteralRoundTrip(s: string, rest: string)
    ensures ReadLiteral(EscapePdfText(s) + ")" + rest, 0) == Some(Read(s, rest)) <==> '\r' !in s
  {
    EscapedReads(s, rest);
    NormalEolFacts(s);
  }

  // ---- The content stream ----

  const HEADER: string := "BT\n/F1 11 Tf\n14 TL\n50 792 Td\n"
  const FOOTER: string := "ET\n"
  const MAX_CHARS: nat := 90

  function Shown(line: string): string { "(" + EscapePdfText(line) + ") Tj\n" }

  /** The lines after the first, each on its own text line. */
  function Following(lines: seq<string>): string {
    if lines == [] then "" else "T*\n" + Shown(lines[0]) + Following(lines[1..])
  }

  function ContentStream(lines: seq<string>): string {
    HEADER + (if lines == [] then "" else Shown(lines[0]) + Following(lines[1..])) + FOOTER
  }

  method BuildStream(lines: seq<string>) returns (stream: string)
    ensures stream == ContentStream(lines)
  {
    stream := HEADER;
    for i := 0 to |lines|
      invariant i == 0 ==> stream == HEADER
      invariant i > 0 ==> stream + Following(lines[i..]) == HEADER + (Shown(lines[0]) + Following(lines[1..]))
    {
      var escaped := EscapePdfText(lines[i]);
      if i == 0 {
        stream := stream + ("(" + escaped + ") Tj\n");
        assert stream + Following(lines[1..]) == HEADER + (Shown(lines[0]) + Following(lines[1..]));
      } else {
        FollowingStep(stream, lines, i);
        stream := stream + ("T*\n(" + escaped + ") Tj\n");
      }
    }
    assert lines[|lines|..] == [];
    assert stream + "" == stream;
    stream := stream + FOOTER;
  }

  lemma FollowingStep(stream: string, lines: seq<string>, i: nat)
    requires i < |lines|
    ensures stream + Following(lines[i..]) == stream + ("T*\n(" + EscapePdfText(lines[i]) + ") Tj\n") + Following(lines[i + 1..])
  {
    assert lines[i..][1..] == lines[i + 1..];
    assert "T*\n(" == "T*\n" + "(";
    assert "T*\n" + Shown(lines[i]) == "T*\n(" + EscapePdfText(lines[i]) + ") Tj\n";
  }

  /** The strings a content stream shows, in order. */
  function Strings(s: string): seq<string>
    decreases |s|
  {
    if s == "" then []
    else if s[0] != '(' then Strings(s[1..])
    else
      var r := ReadLiteral(s[1..], 0);
      if r.None? then []
      else
        ReadShortens(s[1..], 0);
        [r.value.text] + Strings(r.value.rest)
  }

  lemma {:induction false} ReadShortens(s: string, depth: nat)
    ensures var r := ReadLiteral(s, depth); r.Some? ==> |r.value.rest| < |s|
    decreases |s|
  {
    if s != "" {
      if s[0] == '\\' {
        if |s| > 1 {
          var (text, n) := Escaped(s[1..]);
          ReadShortens(s[1 + n..], depth);
        }
      } else if s[0] == ')' {
        if depth > 0 {
          ReadShortens(s[1..], depth - 1);
        }
      } else if s[0] == '(' {
        ReadShortens(s[1..], depth + 1);
      } else if s[0] == '\r' && |s| > 1 && s[1] == '\n' {
        ReadShortens(s[2..], depth);
      } else {
        ReadShortens(s[1..], depth);
      }
    }
  }

  lemma {:induction false} SkipOperators(ops: string, rest: string)
    requires '(' !in ops
    ensures Strings(ops + rest) == Strings(rest)
  {
    if ops == "" {
      assert ops + rest == rest;
    } else {
      assert (ops + rest)[1..] == ops[1..] + rest;
      SkipOperators(ops[1..], rest);
    }
  }

  lemma ReadShown(line: string, rest: string)
    requires '\r' !in line
    ensures Strings(Shown(line) + rest) == [line] + Strings(rest)
  {
    var s, after := Shown(line) + rest, " Tj\n" + rest;
    assert s[0] == '(' && s[1..] == EscapePdfText(line) + ")" + after;
    LiteralRoundTrip(line, after);
    SkipOperators(" Tj\n", rest);
  }

  ghost predicate NoCr(lines: seq<string>) {
    forall i :: 0 <= i < |lines| ==> '\r' !in lines[i]
  }

  lemma {:induction false} ReadFollowing(lines: seq<string>, rest: string)
    requires NoCr(lines)
    ensures Strings(Following(lines) + rest) == lines + Strings(rest)
  {
    if lines == [] {
      assert Following(lines) + rest == rest && lines + Strings(rest) == Strings(rest);
    } else {
      var tail := Following(lines[1..]) + rest;
      assert Following(lines) + rest == "T*\n" + (Shown(lines[0]) + tail);
      SkipOperators("T*\n", Shown(lines[0]) + tail);
      ReadShown(lines[0], tail);
      ReadFollowing(lines[1..], rest);
      assert lines == [lines[0]] + lines[1..];
    }
  }

  /** The page shows exactly the lines it was built from. */
  lemma StreamRoundTrip(lines: seq<string>)
    requires NoCr(lines)
    ensures Strings(ContentStream(lines)) == lines
  {
    SkipOperators(FOOTER, "");
    assert FOOTER + "" == FOOTER;
    if lines == [] {
      SkipOperators(HEADER, FOOTER);
      assert HEADER + "" + FOOTER == HEADER + FOOTER;
    } else {
      var tail := Following(lines[1..]) + FOOTER;
      assert ContentStream(lines) == HEADER + (Shown(lines[0]) + tail);
      SkipOperators(HEADER, Shown(lines[0]) + tail);
      ReadShown(lines[0], tail);
      ReadFollowing(lines[1..], FOOTER);
      assert lines == [lines[0]] + lines[1..];
    }
  }

  // ---- From text to page and back ----

  lemma {:induction false} JoinHasNoCr(group: seq<string>)
    requires AreWords(group)
    ensures '\r' !in Join(group)
  {
    if group != [] {
      assert IsWord(group[0]);
      JoinHasNoCr(group[1..]);
    }
  }

  lemma {:induction false} WordsHaveNoCr(groups: seq<seq<string>>)
    requires AreWords(Flatten(groups))
    ensures NoCr(JoinAll(groups))
  {
    if groups != [] {
      FlattenIsWords(groups);
      JoinHasNoCr(groups[0]);
      WordsHaveNoCr(groups[1..]);
    }
  }

  lemma WrappedHasNoCr(text: string, max: nat)
    ensures NoCr(Wrapped(text, max))
  {
    GroupsAreValid(Lines(text), max);
    LinesKeepWords("", text);
    assert "" + text == text;
    WordsAreWords("", text);
    WordsHaveNoCr(GroupsOf(Lines(text), max));
  }

  /** Reading the page's strings back and splitting them at spaces gives the words of the text. */
  lemma PageHoldsTheWords(text: string)
    ensures var shown := Strings(ContentStream(Wrapped(text, MAX_CHARS)));
            if Words(text) == [] then shown == [" "] else SplitAll(shown) == Words(text)
  {
    WrappedHasNoCr(text, MAX_CHARS);
    StreamRoundTrip(Wrapped(text, MAX_CHARS));
    WrappedKeepsWords(text, MAX_CHARS);
  }

  method RenderText(text: string) returns (stream: string)
    ensures stream == ContentStream(Wrapped(text, MAX_CHARS))
  {
    var lines := WrapLines(text, MAX_CHARS);
    stream := BuildStream(lines);
  }
}
