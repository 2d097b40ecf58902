/** Greedy line wrapping of the receipt's text. Widths are counted in characters. */
module WordWrap {
  import opened Chars

  // ---- Lines and words ----

  /** `char::is_whitespace`-separated words; `word` is the one being read. */
  function WordsFrom(word: string, s: string): seq<string>
    decreases |s|
  {
    if s == "" then Flush(word)
    else if IsWhitespace(s[0]) then Flush(word) + WordsFrom("", s[1..])
    else WordsFrom(word + [s[0]], s[1..])
  }

  function Flush(word: string): seq<string> { if word == "" then [] else [word] }

  function Words(s: string): seq<string> { WordsFrom("", s) }

  function StripCr(line: string): string {
    if line != "" && line[|line| - 1] == '\r' then line[..|line| - 1] else line
  }

  /** The lines ended by '\n' or "\r\n"; `line` is the one being read. */
  function LinesFrom(line: string, s: string): seq<string>
    decreases |s|
  {
    if s == "" then Flush(line)
    else if s[0] == '\n' then [StripCr(line)] + LinesFrom("", s[1..])
    else LinesFrom(line + [s[0]], s[1..])
  }

  function Lines(s: string): seq<string> { LinesFrom("", s) }

  function Trim(s: string): string
    decreases |s|
  {
    if s != "" && IsWhitespace(s[0]) then Trim(s[1..])
    else if s != "" && IsWhitespace(s[|s| - 1]) then Trim(s[..|s| - 1])
    else s
  }

  ghost predicate IsWord(w: string) {
    w != "" && forall i :: 0 <= i < |w| ==> !IsWhitespace(w[i])
  }

  ghost predicate AreWords(ws: seq<string>) {
    forall i :: 0 <= i < |ws| ==> IsWord(ws[i])
  }

  lemma {:induction false} WordsAreWords(word: string, s: string)
    requires word == "" || IsWord(word)
    ensures AreWords(WordsFrom(word, s))
    decreases |s|
  {
    if s != "" {
      if IsWhitespace(s[0]) {
        WordsAreWords("", s[1..]);
      } else {
        WordsAreWords(word + [s[0]], s[1..]);
      }
    }
  }

  /** Whitespace ends a word wherever it stands. */
  lemma {:induction false} WordsSplit(word: string, a: string, c: char, b: string)
    requires IsWhitespace(c)
    ensures WordsFrom(word, a + [c] + b) == WordsFrom(word, a) + Words(b)
    decreases |a|
  {
    var s := a + [c] + b;
    if a == "" {
      assert s[1..] == b;
    } else {
      assert s[1..] == a[1..] + [c] + b;
      if IsWhitespace(a[0]) {
        WordsSplit("", a[1..], c, b);
      } else {
        WordsSplit(word + [a[0]], a[1..], c, b);
      }
    }
  }

  lemma {:induction false} TrimKeepsWords(s: string)
    ensures Words(Trim(s)) == Words(s)
    decreases |s|
  {
    if s != "" && IsWhitespace(s[0]) {
      TrimKeepsWords(s[1..]);
      WordsSplit("", "", s[0], s[1..]);
      assert s == "" + [s[0]] + s[1..];
    } else if s != "" && IsWhitespace(s[|s| - 1]) {
      var n := |s| - 1;
      TrimKeepsWords(s[..n]);
      WordsSplit("", s[..n], s[n], "");
      assert s == s[..n] + [s[n]] + "";
    }
  }

  function WordsOfLines(lines: seq<string>): seq<string> {
    if lines == [] then [] else Words(lines[0]) + WordsOfLines(lines[1..])
  }

  /** Reading words line by line gives the words of the whole text. */
  lemma {:induction false} LinesKeepWords(line: string, s: string)
    ensures WordsOfLines(LinesFrom(line, s)) == Words(line + s)
    decreases |s|
  {
    if s == "" {
      assert line + s == line;
      if line != "" {
        assert WordsOfLines([line]) == Words(line) + WordsOfLines([]);
      }
    } else if s[0] == '\n' {
      LinesKeepWords("", s[1..]);
      assert "" + s[1..] == s[1..];
      StripKeepsWords(line);
      WordsSplit("", line, '\n', s[1..]);
      assert line + s == line + ['\n'] + s[1..];
    } else {
      LinesKeepWords(line + [s[0]], s[1..]);
      assert line + [s[0]] + s[1..] == line + s;
    }
  }

  lemma StripKeepsWords(line: string)
    ensures Words(StripCr(line)) == Words(line)
  {
    if StripCr(line) != line {
      var n := |line| - 1;
      WordsSplit("", line[..n], '\r', "");
      assert line == line[..n] + ['\r'] + "";
    }
  }

  // ---- Groups of words and their text ----

  /** Characters of the words and one space before each. */
  function Cost(ws: seq<string>): nat {
    if ws == [] then 0 else 1 + |ws[0]| + Cost(ws[1..])
  }

  function Join(ws: seq<string>): string {
    if ws == [] then "" else if |ws| == 1 then ws[0] else ws[0] + " " + Join(ws[1..])
  }

  lemma {:induction false} JoinLength(ws: seq<string>)
    requires ws != []
    ensures |Join(ws)| + 1 == Cost(ws)
  {
    if |ws| > 1 {
      JoinLength(ws[1..]);
    }
  }

  lemma {:induction false} JoinAppend(ws: seq<string>, w: string)
    requires ws != []
    ensures Join(ws + [w]) == Join(ws) + " " + w
  {
    if |ws| == 1 {
      assert (ws + [w])[1..] == [w];
    } else {
      assert (ws + [w])[1..] == ws[1..] + [w];
      JoinAppend(ws[1..], w);
    }
  }

  lemma {:induction false} CostAppend(a: seq<string>, b: seq<string>)
    ensures Cost(a + b) == Cost(a) + Cost(b)
  {
    if a == [] {
      assert a + b == b;
    } else {
      assert (a + b)[1..] == a[1..] + b;
      CostAppend(a[1..], b);
    }
  }

  function Flatten(groups: seq<seq<string>>): seq<string> {
    if groups == [] then [] else groups[0] + Flatten(groups[1..])
  }

  lemma {:induction false} FlattenAppend(a: seq<seq<string>>, b: seq<seq<string>>)
    ensures Flatten(a + b) == Flatten(a) + Flatten(b)
  {
    if a == [] {
      assert a + b == b;
    } else {
      assert (a + b)[1..] == a[1..] + b;
      FlattenAppend(a[1..], b);
    }
  }

  // ---- The greedy choice ----

  /** How far the words from `i` on fit after a line of `used` characters. */
  function Reach(ws: seq<string>, i: nat, used: nat, max: nat): (end: nat)
    requires i <= |ws|
    ensures i <= end <= |ws|
    decreases |ws| - i
  {
    if i == |ws| || used + |ws[i]| + 1 > max then i else Reach(ws, i + 1, used + |ws[i]| + 1, max)
  }

  /** Where the line that starts at `start` ends: it takes one word whatever its length. */
  function LineEnd(ws: seq<string>, start: nat, max: nat): (end: nat)
    requires start < |ws|
    ensures start < end <= |ws|
  {
    Reach(ws, start + 1, |ws[start]|, max)
  }

  function GreedyFrom(ws: seq<string>, start: nat, max: nat): seq<seq<string>>
    requires start <= |ws|
    decreases |ws| - start
  {
    if start == |ws| then []
    else [ws[start..LineEnd(ws, start, max)]] + GreedyFrom(ws, LineEnd(ws, start, max), max)
  }

  function Greedy(ws: seq<string>, max: nat): seq<seq<string>> { GreedyFrom(ws, 0, max) }

  // ---- Greedy is valid and uses the fewest lines ----

  ghost predicate Fits(group: seq<string>, max: nat) {
    group != [] && (|group| == 1 || Cost(group) <= max + 1)
  }

  /** The groups are lines that fit (or one over-long word each), and hold the words in order. */
  ghost predicate IsWrapping(groups: seq<seq<string>>, ws: seq<string>, max: nat) {
    Flatten(groups) == ws && forall i :: 0 <= i < |groups| ==> Fits(groups[i], max)
  }

  lemma {:induction false} ReachFits(ws: seq<string>, i: nat, used: nat, max: nat)
    requires i <= |ws|
    ensures var end := Reach(ws, i, used, max); end > i ==> used + Cost(ws[i..end]) <= max
    decreases |ws| - i
  {
    var end := Reach(ws, i, used, max);
    if end > i {
      ReachFits(ws, i + 1, used + |ws[i]| + 1, max);
      assert ws[i..end][1..] == ws[i + 1..end];
    }
  }

  lemma {:induction false} ReachIsMost(ws: seq<string>, i: nat, used: nat, max: nat, m: nat)
    requires i <= m <= |ws| && used + Cost(ws[i..m]) <= max
    ensures m <= Reach(ws, i, used, max)
    decreases |ws| - i
  {
    if i < m {
      assert ws[i..m][1..] == ws[i + 1..m];
      ReachIsMost(ws, i + 1, used + |ws[i]| + 1, max, m);
    }
  }

  lemma LineFits(ws: seq<string>, start: nat, max: nat)
    requires start < |ws|
    ensures Fits(ws[start..LineEnd(ws, start, max)], max)
  {
    var end := LineEnd(ws, start, max);
    ReachFits(ws, start + 1, |ws[start]|, max);
    assert ws[start..end][1..] == ws[start + 1..end];
  }

  lemma PrependLine(first: seq<string>, groups: seq<seq<string>>, ws: seq<string>, max: nat)
    requires Fits(first, max) && IsWrapping(groups, ws, max)
    ensures IsWrapping([first] + groups, first + ws, max)
  {
    assert ([first] + groups)[1..] == groups;
  }

  lemma {:induction false} GreedyIsWrapping(ws: seq<string>, start: nat, max: nat)
    requires start <= |ws|
    ensures IsWrapping(GreedyFrom(ws, start, max), ws[start..], max)
    decreases |ws| - start
  {
    if start < |ws| {
      var end := LineEnd(ws, start, max);
      GreedyIsWrapping(ws, end, max);
      LineFits(ws, start, max);
      PrependLine(ws[start..end], GreedyFrom(ws, end, max), ws[end..], max);
      assert ws[start..] == ws[start..end] + ws[end..];
    }
  }

  /** Starting further on, greedy's line reaches at least as far as any fitting line. */
  lemma LineReaches(ws: seq<string>, from: nat, start: nat, end: nat, max: nat)
    requires from <= start < end <= |ws| && Fits(ws[from..end], max)
    ensures LineEnd(ws, start, max) >= end
  {
    if start + 1 < end {
      assert ws[from..end] == ws[from..start] + ws[start..end];
      CostAppend(ws[from..start], ws[start..end]);
      assert ws[start..end][1..] == ws[start + 1..end];
      ReachIsMost(ws, start + 1, |ws[start]|, max, end);
    }
  }

  lemma DropLine(ws: seq<string>, groups: seq<seq<string>>, from: nat, max: nat)
    requires from < |ws| && IsWrapping(groups, ws[from..], max)
    ensures groups != [] && from < from + |groups[0]| <= |ws|
    ensures Fits(ws[from..from + |groups[0]|], max)
    ensures IsWrapping(groups[1..], ws[from + |groups[0]|..], max)
  {
    assert groups != [];
    var n := |groups[0]|;
    assert ws[from..] == groups[0] + Flatten(groups[1..]);
    assert ws[from..from + n] == ws[from..][..n] == groups[0];
    assert ws[from + n..] == ws[from..][n..] == Flatten(groups[1..]);
  }

  /** Greedy on a later start needs no more lines than any wrapping of an earlier one. */
  lemma {:induction false} GreedyStaysAhead(ws: seq<string>, groups: seq<seq<string>>, from: nat, start: nat, max: nat)
    requires from <= start <= |ws| && IsWrapping(groups, ws[from..], max)
    ensures |GreedyFrom(ws, start, max)| <= |groups|
    decreases |groups|
  {
    if start < |ws| {
      DropLine(ws, groups, from, max);
      var end := from + |groups[0]|;
      if end <= start {
        GreedyStaysAhead(ws, groups[1..], end, start, max);
      } else {
        LineReaches(ws, from, start, end, max);
        GreedyStaysAhead(ws, groups[1..], end, LineEnd(ws, start, max), max);
      }
    }
  }

  /** Greedy's lines are a wrapping of the words, and no wrapping of them has fewer lines. */
  lemma GreedyUsesFewestLines(ws: seq<string>, max: nat)
    ensures IsWrapping(Greedy(ws, max), ws, max)
    ensures forall groups :: IsWrapping(groups, ws, max) ==> |Greedy(ws, max)| <= |groups|
  {
    assert ws[0..] == ws;
    GreedyIsWrapping(ws, 0, max);
    forall groups | IsWrapping(groups, ws, max) ensures |Greedy(ws, max)| <= |groups| {
      GreedyStaysAhead(ws, groups, 0, 0, max);
    }
  }

  // ---- The source's loop ----

  function JoinAll(groups: seq<seq<string>>): seq<string> {
    if groups == [] then [] else [Join(groups[0])] + JoinAll(groups[1..])
  }

  lemma {:induction false} JoinAllAppend(a: seq<seq<string>>, b: seq<seq<string>>)
    ensures JoinAll(a + b) == JoinAll(a) + JoinAll(b)
  {
    if a == [] {
      assert a + b == b;
    } else {
      assert (a + b)[1..] == a[1..] + b;
      JoinAllAppend(a[1..], b);
    }
  }

  /** The groups of every input line in turn. */
  function GroupsOf(lines: seq<string>, max: nat): seq<seq<string>> {
    if lines == [] then [] else Greedy(Words(lines[0]), max) + GroupsOf(lines[1..], max)
  }

  /** The wrapped text; a text without words becomes one line holding a space. */
  function Wrapped(text: string, max: nat): seq<string> {
    var lines := JoinAll(GroupsOf(Lines(text), max));
    if lines == [] then [" "] else lines
  }

  lemma LineEnds(ws: seq<string>, start: nat, end: nat, max: nat)
    requires start < |ws| && end == LineEnd(ws, start, max)
    ensures JoinAll(GreedyFrom(ws, start, max)) == [Join(ws[start..end])] + JoinAll(GreedyFrom(ws, end, max))
  {
    var rest := GreedyFrom(ws, end, max);
    assert ([ws[start..end]] + rest)[1..] == rest;
  }

  /** `current` holds the words from `start` to `i`, and may still grow to its line's end. */
  ghost predicate Growing(ws: seq<string>, start: nat, i: nat, current: string, max: nat) {
    start < i <= |ws| && current == Join(ws[start..i]) && LineEnd(ws, start, max) == Reach(ws, i, |current|, max)
  }

  lemma NextWord(ws: seq<string>, start: nat, i: nat, current: string, max: nat)
    requires Growing(ws, start, i, current, max) && i < |ws|
    ensures if |current| + |ws[i]| + 1 > max then
              JoinAll(GreedyFrom(ws, start, max)) == [current] + JoinAll(GreedyFrom(ws, i, max))
            else Growing(ws, start, i + 1, current + " " + ws[i], max)
  {
    if |current| + |ws[i]| + 1 > max {
      LineEnds(ws, start, i, max);
    } else {
      assert ws[start..i + 1] == ws[start..i] + [ws[i]];
      JoinAppend(ws[start..i], ws[i]);
    }
  }

  lemma FirstWord(ws: seq<string>, i: nat, max: nat)
    requires i < |ws|
    ensures Growing(ws, i, i + 1, ws[i], max)
  {
    assert ws[i..i + 1] == [ws[i]];
  }

  /** These lines and the greedy ones from `start` on are all of them. */
  ghost predicate Built(lines: seq<string>, ws: seq<string>, start: nat, max: nat) {
    start <= |ws| && lines + JoinAll(GreedyFrom(ws, start, max)) == JoinAll(Greedy(ws, max))
  }

  lemma LineBuilt(lines: seq<string>, ws: seq<string>, start: nat, end: nat, line: string, max: nat)
    requires Built(lines, ws, start, max) && end <= |ws|
    requires JoinAll(GreedyFrom(ws, start, max)) == [line] + JoinAll(GreedyFrom(ws, end, max))
    ensures Built(lines + [line], ws, end, max)
  {
    var rest := JoinAll(GreedyFrom(ws, end, max));
    assert (lines + [line]) + rest == lines + ([line] + rest);
  }

  method WrapWords(words: seq<string>, max: nat) returns (lines: seq<string>)
    requires AreWords(words)
    ensures lines == JoinAll(Greedy(words, max))
  {
    lines := [];
    var current := "";
    // The line being built holds the words from `start`.
    ghost var start: nat := 0;
    for i := 0 to |words|
      invariant (current == "" <==> i == 0) && start <= i
      invariant if i == 0 then start == 0 else Growing(words, start, i, current, max)
      invariant Built(lines, words, start, max)
    {
      var word := words[i];
      assert IsWord(word);
      FirstWord(words, i, max);
      var needsSpace := current != "";
      if needsSpace {
        NextWord(words, start, i, current, max);
      }
      var projected := |current| + |word| + if needsSpace then 1 else 0;
      if projected > max && current != "" {
        LineBuilt(lines, words, start, i, current, max);
        lines := lines + [current];
        current, start := word, i;
      } else {
        if needsSpace {
          current := current + " ";
        }
        current := current + word;
      }
    }
    if current != "" {
      LineEnds(words, start, |words|, max);
      LineBuilt(lines, words, start, |words|, current, max);
      lines := lines + [current];
    }
  }

  /** The lines as trimmed, without the blank ones. */
  function Normalized(lines: seq<string>): seq<string> {
    if lines == [] then []
    else (if Trim(lines[0]) == "" then [] else [Trim(lines[0])]) + Normalized(lines[1..])
  }

  lemma {:induction false} NormalizedKeepsGroups(lines: seq<string>, max: nat)
    ensures GroupsOf(Normalized(lines), max) == GroupsOf(lines, max)
  {
    if lines != [] {
      NormalizedKeepsGroups(lines[1..], max);
      TrimKeepsWords(lines[0]);
      assert Words("") == [] && Greedy([], max) == [];
      if Trim(lines[0]) == "" {
        assert Normalized(lines) == Normalized(lines[1..]);
      } else {
        assert Normalized(lines)[1..] == Normalized(lines[1..]);
      }
    }
  }

  method WrapLines(text: string, max: nat) returns (lines: seq<string>)
    ensures lines == Wrapped(text, max)
  {
    var normalized := Normalized(Lines(text));
    NormalizedKeepsGroups(Lines(text), max);
    lines := [];
    for i := 0 to |normalized|
      invariant JoinAll(GroupsOf(normalized, max)) == lines + JoinAll(GroupsOf(normalized[i..], max))
    {
      WordsAreWords("", normalized[i]);
      var wrapped := WrapWords(Words(normalized[i]), max);
      assert normalized[i..][1..] == normalized[i + 1..];
      JoinAllAppend(Greedy(Words(normalized[i]), max), GroupsOf(normalized[i + 1..], max));
      lines := lines + wrapped;
    }
    if lines == [] {
      lines := lines + [" "];
    }
  }

  // ---- What the wrapped text holds ----

  lemma {:induction false} GroupsAreValid(lines: seq<string>, max: nat)
    ensures Flatten(GroupsOf(lines, max)) == WordsOfLines(lines)
    ensures forall i :: 0 <= i < |GroupsOf(lines, max)| ==> Fits(GroupsOf(lines, max)[i], max)
  {
    if lines != [] {
      GroupsAreValid(lines[1..], max);
      GreedyUsesFewestLines(Words(lines[0]), max);
      FlattenAppend(Greedy(Words(lines[0]), max), GroupsOf(lines[1..], max));
    }
  }

  function SplitFrom(part: string, s: string): seq<string>
    decreases |s|
  {
    if s == "" then [part]
    else if s[0] == ' ' then [part] + SplitFrom("", s[1..])
    else SplitFrom(part + [s[0]], s[1..])
  }

  /** The parts between single spaces. */
  function SplitSpaces(s: string): seq<string> { SplitFrom("", s) }

  lemma {:induction false} SplitWord(part: string, w: string, rest: string)
    requires forall i :: 0 <= i < |w| ==> w[i] != ' '
    ensures SplitFrom(part, w + rest) == SplitFrom(part + w, rest)
    decreases |w|
  {
    if w == "" {
      assert w + rest == rest && part + w == part;
    } else {
      assert (w + rest)[1..] == w[1..] + rest;
      assert part + [w[0]] + w[1..] == part + w;
      SplitWord(part + [w[0]], w[1..], rest);
    }
  }

  lemma {:induction false} SplitJoin(group: seq<string>)
    requires group != [] && AreWords(group)
    ensures SplitSpaces(Join(group)) == group
  {
    assert IsWord(group[0]);
    if |group| == 1 {
      assert group[0] + "" == group[0] && "" + group[0] == group[0];
      SplitWord("", group[0], "");
    } else {
      var rest := Join(group[1..]);
      assert Join(group) == group[0] + (" " + rest);
      assert "" + group[0] == group[0];
      SplitWord("", group[0], " " + rest);
      assert (" " + rest)[1..] == rest;
      SplitJoin(group[1..]);
    }
  }

  function SplitAll(lines: seq<string>): seq<string> {
    if lines == [] then [] else SplitSpaces(lines[0]) + SplitAll(lines[1..])
  }

  lemma FlattenIsWords(groups: seq<seq<string>>)
    requires groups != [] && AreWords(Flatten(groups))
    ensures AreWords(groups[0]) && AreWords(Flatten(groups[1..]))
  {
    var all, rest := Flatten(groups), Flatten(groups[1..]);
    assert forall i :: 0 <= i < |groups[0]| ==> groups[0][i] == all[i];
    assert forall i :: 0 <= i < |rest| ==> rest[i] == all[|groups[0]| + i];
  }

  lemma {:induction false} SplitAllJoinAll(groups: seq<seq<string>>)
    requires AreWords(Flatten(groups)) && forall i :: 0 <= i < |groups| ==> groups[i] != []
    ensures SplitAll(JoinAll(groups)) == Flatten(groups)
  {
    if groups != [] {
      FlattenIsWords(groups);
      SplitJoin(groups[0]);
      SplitAllJoinAll(groups[1..]);
    }
  }

  /** Wrapping loses, invents and reorders no word: splitting its lines at spaces gives them all back. */
  lemma WrappedKeepsWords(text: string, max: nat)
    ensures Words(text) == [] <==> Wrapped(text, max) == [" "]
    ensures Words(text) != [] ==> SplitAll(Wrapped(text, max)) == Words(text)
  {
    var lines := Lines(text);
    var groups := GroupsOf(lines, max);
    GroupsAreValid(lines, max);
    LinesKeepWords("", text);
    assert "" + text == text;
    WordsAreWords("", text);
    SplitAllJoinAll(groups);
    if Words(text) != [] {
      assert groups != [];
      assert SplitAll(JoinAll(groups)) == Words(text);
      BlankIsNoWord();
      assert IsWord(Words(text)[0]);
    } else if groups != [] {
      assert false;
    }
  }

  lemma BlankIsNoWord()
    ensures SplitAll([" "]) == ["", ""] && !IsWord("")
  {
    assert (" ")[1..] == "";
    assert SplitFrom("", " ") == [""] + SplitFrom("", "");
    assert SplitAll([" "]) == SplitSpaces(" ") + SplitAll([]);
  }

  lemma {:induction false} JoinAllAt(groups: seq<seq<string>>)
    ensures |JoinAll(groups)| == |groups|
    ensures forall i :: 0 <= i < |groups| ==> JoinAll(groups)[i] == Join(groups[i])
  {
    if groups != [] {
      JoinAllAt(groups[1..]);
    }
  }

  /** Every line of a text with words fits the width, unless it is one word that cannot. */
  lemma WrappedFits(text: string, max: nat, i: nat)
    requires Words(text) != [] && i < |Wrapped(text, max)|
    ensures |Wrapped(text, max)[i]| <= max || Wrapped(text, max)[i] in Words(text)
  {
    var groups := GroupsOf(Lines(text), max);
    GroupsAreValid(Lines(text), max);
    LinesKeepWords("", text);
    assert "" + text == text;
    JoinAllAt(groups);
    WrappedKeepsWords(text, max);
    assert groups != [];
    JoinLength(groups[i]);
    if |groups[i]| == 1 {
      FlattenHolds(groups, i);
    }
  }

  lemma {:induction false} FlattenHolds(groups: seq<seq<string>>, i: nat)
    requires i < |groups| && groups[i] != []
    ensures groups[i][0] in Flatten(groups)
  {
    if i > 0 {
      FlattenHolds(groups[1..], i - 1);
    }
  }

  // ---- Where words and lines end ----

  lemma {:induction false} WordGoesOn(word: string, s: string)
    requires forall i :: 0 <= i < |s| ==> !IsWhitespace(s[i])
    ensures WordsFrom(word, s) == Flush(word + s)
    decreases |s|
  {
    if s == "" {
      assert word + s == word;
    } else {
      WordGoesOn(word + [s[0]], s[1..]);
      assert word + [s[0]] + s[1..] == word + s;
    }
  }

  /** White space, and nothing else, parts words. */
  lemma WordsArePartedByWhitespace(a: string, c: char, b: string)
    ensures IsWhitespace(c) ==> Words(a + [c] + b) == Words(a) + Words(b)
    ensures IsWord(a) ==> Words(a) == [a]
    ensures Words("") == []
  {
    if IsWhitespace(c) {
      WordsSplit("", a, c, b);
    }
    if IsWord(a) {
      WordGoesOn("", a);
      assert "" + a == a;
    }
  }

  lemma {:induction false} BreakGroups(line: string, a: string, b: string, max: nat)
    ensures GroupsOf(LinesFrom(line, a + ['\n'] + b), max) == GroupsOf(LinesFrom(line, a), max) + GroupsOf(Lines(b), max)
    decreases |a|
  {
    var s := a + ['\n'] + b;
    if a == "" {
      assert s[1..] == b;
      StripKeepsWords(line);
      assert Words("") == [] && Greedy([], max) == [];
      assert ([StripCr(line)] + Lines(b))[1..] == Lines(b);
      assert GroupsOf(Flush(line), max) == Greedy(Words(line), max) by {
        if line != "" {
          assert GroupsOf([line], max) == Greedy(Words(line), max) + GroupsOf([], max);
        }
      }
    } else {
      assert s[1..] == a[1..] + ['\n'] + b;
      if a[0] == '\n' {
        BreakGroups("", a[1..], b, max);
        assert ([StripCr(line)] + LinesFrom("", s[1..]))[1..] == LinesFrom("", s[1..]);
        assert ([StripCr(line)] + LinesFrom("", a[1..]))[1..] == LinesFrom("", a[1..]);
      } else {
        BreakGroups(line + [a[0]], a[1..], b, max);
      }
    }
  }

  lemma GroupsAreWords(text: string, max: nat)
    ensures GroupsOf(Lines(text), max) == [] <==> Words(text) == []
    ensures Words(text) != [] ==> Wrapped(text, max) == JoinAll(GroupsOf(Lines(text), max))
  {
    var groups := GroupsOf(Lines(text), max);
    GroupsAreValid(Lines(text), max);
    LinesKeepWords("", text);
    assert "" + text == text;
    JoinAllAt(groups);
    if groups != [] {
      assert Fits(groups[0], max);
    }
  }

  /** A line break ends a printed line: the text before it and the text after it are wrapped on their own. */
  lemma BreakEndsALine(a: string, b: string, max: nat)
    ensures var whole := Wrapped(a + ['\n'] + b, max);
            whole == if Words(a) == [] then Wrapped(b, max)
                     else if Words(b) == [] then Wrapped(a, max)
                     else Wrapped(a, max) + Wrapped(b, max)
  {
    var text := a + ['\n'] + b;
    BreakGroups("", a, b, max);
    WordsArePartedByWhitespace(a, '\n', b);
    JoinAllAppend(GroupsOf(Lines(a), max), GroupsOf(Lines(b), max));
    GroupsAreWords(text, max);
    GroupsAreWords(a, max);
    GroupsAreWords(b, max);
  }

  lemma {:induction false} OneLine(line: string, s: string)
    requires forall i :: 0 <= i < |s| ==> s[i] != '\n'
    ensures LinesFrom(line, s) == Flush(line + s)
    decreases |s|
  {
    if s == "" {
      assert line + s == line;
    } else {
      OneLine(line + [s[0]], s[1..]);
      assert line + [s[0]] + s[1..] == line + s;
    }
  }

  /** Text without a line break takes as few printed lines as its words can be put on. */
  lemma UnbrokenTextTakesFewestLines(text: string, max: nat, groups: seq<seq<string>>)
    requires (forall i :: 0 <= i < |text| ==> text[i] != '\n') && IsWrapping(groups, Words(text), max) && groups != []
    ensures |Wrapped(text, max)| <= |groups|
  {
    OneLine("", text);
    assert "" + text == text;
    GreedyUsesFewestLines(Words(text), max);
    GroupsAreWords(text, max);
    if text != "" {
      assert GroupsOf([text], max) == Greedy(Words(text), max) + GroupsOf([], max);
    }
    JoinAllAt(GroupsOf(Lines(text), max));
  }
}
