/**
 Text in the private Markdown records: white space brought to single blanks, five characters escaped
 by successive replacements, and table rows built from the result.
 */
module MarkdownText {
  import opened Wrappers
  import opened Whitespace

  // ----- white space -----

  /** str.split() without arguments: the runs of characters that are not white space. */
  function Words(s: string): (r: seq<string>)
    ensures AreWords(r)
    decreases |s|
  {
    if s == "" then []
    else if IsSpace(s[0]) then Words(s[1..])
    else
      var n := WordLength(s);
      [s[..n]] + Words(s[n..])
  }

  predicate NoSpace(s: string) {
    forall i :: 0 <= i < |s| ==> !IsSpace(s[i])
  }

  function WordLength(s: string): (n: nat)
    ensures n <= |s| && NoSpace(s[..n]) && (n < |s| ==> IsSpace(s[n]))
    ensures s != "" && !IsSpace(s[0]) ==> n > 0
  {
    if s == "" || IsSpace(s[0]) then 0
    else
      var n := WordLength(s[1..]);
      assert s[..n + 1] == [s[0]] + s[1..][..n];
      n + 1
  }

  /** " ".join(words). */
  function Joined(words: seq<string>): string {
    if words == [] then ""
    else if |words| == 1 then words[0]
    else words[0] + ([' '] + Joined(words[1..]))
  }

  function Normalized(s: string): string {
    Joined(Words(s))
  }

  predicate AreWords(words: seq<string>) {
    forall i :: 0 <= i < |words| ==> words[i] != "" && NoSpace(words[i])
  }

  lemma {:induction false} WordsOfJoined(words: seq<string>)
    requires AreWords(words)
    ensures Words(Joined(words)) == words
    decreases |words|
  {
    if |words| == 1 {
      WholeWord(words[0], "");
      assert words[0] + "" == words[0];
    } else if |words| > 1 {
      WordsOfJoined(words[1..]);
      SpacedWord(words[0], Joined(words[1..]));
    }
  }

  lemma SpacedWord(word: string, rest: string)
    requires word != "" && NoSpace(word)
    ensures Words(word + ([' '] + rest)) == [word] + Words(rest)
  {
    WholeWord(word, [' '] + rest);
    assert ([' '] + rest)[1..] == rest;
  }

  lemma {:induction false} WordLengthIs(s: string, n: nat)
    requires n <= |s| && NoSpace(s[..n]) && (n < |s| ==> IsSpace(s[n]))
    ensures WordLength(s) == n
    decreases n
  {
    if n > 0 {
      assert s[..n][0] == s[0];
      assert s[1..][..n - 1] == s[..n][1..];
      WordLengthIs(s[1..], n - 1);
    }
  }

  lemma WholeWord(word: string, after: string)
    requires word != "" && NoSpace(word) && (after == "" || IsSpace(after[0]))
    ensures Words(word + after) == [word] + Words(after)
  {
    var s := word + after;
    assert s[..|word|] == word && s[|word|..] == after;
    assert s[0] == word[0];
    WordLengthIs(s, |word|);
  }

  /** Normalising again changes nothing. */
  lemma NormalizedIsStable(s: string)
    ensures Normalized(Normalized(s)) == Normalized(s)
  {
    WordsOfJoined(Words(s));
  }

  /** What is left of a text without its white space. */
  function NonSpaces(s: string): string {
    if s == [] then []
    else if IsSpace(s[0]) then NonSpaces(s[1..])
    else [s[0]] + NonSpaces(s[1..])
  }

  lemma {:induction false} NonSpacesSplit(a: string, b: string)
    ensures NonSpaces(a + b) == NonSpaces(a) + NonSpaces(b)
    decreases |a|
  {
    if a == "" {
      assert a + b == b;
    } else {
      NonSpacesSplit(a[1..], b);
      assert (a + b)[1..] == a[1..] + b;
    }
  }

  lemma JoinedWith(word: string, words: seq<string>)
    ensures NonSpaces(Joined([word] + words)) == NonSpaces(word) + NonSpaces(Joined(words))
  {
    var joined := Joined(words);
    assert ([word] + words)[1..] == words;
    if words == [] {
      assert Joined([word] + words) == word && NonSpaces(joined) == [];
    } else {
      assert Joined([word] + words) == word + ([' '] + joined);
      NonSpacesSplit(word, [' '] + joined);
      BlankInFront(joined);
    }
  }

  lemma BlankInFront(s: string)
    ensures NonSpaces([' '] + s) == NonSpaces(s)
  {
    assert ([' '] + s)[1..] == s;
  }

  /** Normalising drops and adds nothing but white space. */
  lemma {:induction false} NormalizedKeepsText(s: string)
    ensures NonSpaces(Normalized(s)) == NonSpaces(s)
    decreases |s|
  {
    if s != "" && IsSpace(s[0]) {
      NormalizedKeepsText(s[1..]);
    } else if s != "" {
      var n := WordLength(s);
      NormalizedKeepsText(s[n..]);
      JoinedWith(s[..n], Words(s[n..]));
      NonSpacesSplit(s[..n], s[n..]);
      assert s == s[..n] + s[n..];
    }
  }

  // ----- escaping -----

  predicate IsSpecial(c: char) {
    c == '\\' || c == '`' || c == '[' || c == ']' || c == '|'
  }

  /** str.replace of one character by a backslash and itself. */
  function ReplaceOne(s: string, c: char): string {
    if s == "" then "" else (if s[0] == c then ['\\', c] else [s[0]]) + ReplaceOne(s[1..], c)
  }

  /** The five replacements, in the order they are made. */
  function EscapedBySteps(s: string): string {
    ReplaceOne(ReplaceOne(ReplaceOne(ReplaceOne(ReplaceOne(s, '\\'), '`'), '['), ']'), '|')
  }

  /** Every special character escaped in one pass. */
  function Escaped(s: string): string {
    if s == "" then "" else (if IsSpecial(s[0]) then ['\\', s[0]] else [s[0]]) + Escaped(s[1..])
  }

  lemma {:induction false} ReplaceSplit(a: string, b: string, c: char)
    ensures ReplaceOne(a + b, c) == ReplaceOne(a, c) + ReplaceOne(b, c)
    decreases |a|
  {
    if a == "" {
      assert a + b == b;
    } else {
      assert (a + b)[1..] == a[1..] + b;
      ReplaceSplit(a[1..], b, c);
    }
  }

  lemma ReplaceShort(x: char, c: char)
    ensures ReplaceOne([x], c) == if x == c then ['\\', c] else [x]
    ensures x != c && c != '\\' ==> ReplaceOne(['\\', x], c) == ['\\', x]
    ensures c != '\\' ==> ReplaceOne(['\\', c], c) == ['\\', '\\', c]
  {
    assert [x][1..] == "" && ['\\', x][1..] == [x] && ['\\', c][1..] == [c] && [c][1..] == "";
  }

  /** The steps on one character. */
  lemma StepsOnOne(x: char)
    ensures EscapedBySteps([x]) == if IsSpecial(x) then ['\\', x] else [x]
  {
    ReplaceShort(x, '\\');
    ReplaceShort(x, '`');
    ReplaceShort(x, '[');
    ReplaceShort(x, ']');
    ReplaceShort(x, '|');
  }

  lemma StepsSplit(a: string, b: string)
    ensures EscapedBySteps(a + b) == EscapedBySteps(a) + EscapedBySteps(b)
  {
    ReplaceSplit(a, b, '\\');
    var a1, b1 := ReplaceOne(a, '\\'), ReplaceOne(b, '\\');
    ReplaceSplit(a1, b1, '`');
    var a2, b2 := ReplaceOne(a1, '`'), ReplaceOne(b1, '`');
    ReplaceSplit(a2, b2, '[');
    var a3, b3 := ReplaceOne(a2, '['), ReplaceOne(b2, '[');
    ReplaceSplit(a3, b3, ']');
    ReplaceSplit(ReplaceOne(a3, ']'), ReplaceOne(b3, ']'), '|');
  }

  /** The five replacements, made one after the other, are a single pass: no replacement touches what
      an earlier one put in. */
  lemma {:induction false} StepsAreOnePass(s: string)
    ensures EscapedBySteps(s) == Escaped(s)
  {
    if s != "" {
      StepsOnOne(s[0]);
      StepsSplit([s[0]], s[1..]);
      assert s == [s[0]] + s[1..];
      StepsAreOnePass(s[1..]);
    }
  }

  /** Reading escaped text back: a backslash stands for the character after it. */
  function Unescaped(s: string): string {
    if s == "" then ""
    else if s[0] == '\\' && |s| > 1 then [s[1]] + Unescaped(s[2..])
    else [s[0]] + Unescaped(s[1..])
  }

  lemma {:induction false} UnescapeInvertsEscape(s: string)
    ensures Unescaped(Escaped(s)) == s
  {
    if s != "" {
      UnescapeInvertsEscape(s[1..]);
      var e := Escaped(s);
      if IsSpecial(s[0]) {
        assert e[2..] == Escaped(s[1..]);
      } else {
        assert e[1..] == Escaped(s[1..]);
      }
    }
  }

  // ----- backslash runs -----

  /** How many backslashes stand right before position `i`. */
  function RunBefore(s: string, i: nat): (n: nat)
    requires i <= |s|
    ensures n <= i
  {
    if i == 0 || s[i - 1] != '\\' then 0 else 1 + RunBefore(s, i - 1)
  }

  lemma {:induction false} RunInside(a: string, b: string, i: nat)
    requires i <= |b|
    ensures RunBefore(a + b, |a| + i) == RunBefore(b, i) + if RunBefore(b, i) == i then RunBefore(a + b, |a|) else 0
    decreases i
  {
    if i > 0 {
      assert (a + b)[|a| + i - 1] == b[i - 1];
      RunInside(a, b, i - 1);
    }
  }

  /** In escaped text every special character that is not a backslash is escaped: an odd run of
      backslashes stands right before it. */
  lemma {:induction false} EscapedRunsAreOdd(s: string, i: nat)
    requires i < |Escaped(s)| && IsSpecial(Escaped(s)[i]) && Escaped(s)[i] != '\\'
    ensures RunBefore(Escaped(s), i) % 2 == 1
    decreases |s|
  {
    var e := Escaped(s[1..]);
    var head := if IsSpecial(s[0]) then ['\\', s[0]] else [s[0]];
    assert Escaped(s) == head + e;
    if i >= |head| {
      EscapedRunsAreOdd(s[1..], i - |head|);
      RunInside(head, e, i - |head|);
      if RunBefore(e, i - |head|) == i - |head| {
        HeadRun(head, e, s[0]);
      }
    } else {
      assert i == 1 && head[0] == '\\';
      AfterOneBackslash(head, e);
    }
  }

  lemma AfterOneBackslash(head: string, e: string)
    requires |head| == 2 && head[0] == '\\'
    ensures RunBefore(head + e, 1) == 1
  {
    assert RunBefore(head + e, 0) == 0;
  }

  /** What one escaped character contributes to a run that starts after it: nothing or a pair. */
  lemma HeadRun(head: string, e: string, c: char)
    requires head == if IsSpecial(c) then ['\\', c] else [c]
    ensures RunBefore(head + e, |head|) % 2 == 0
  {
    var s := head + e;
    assert s[0] == head[0];
    if IsSpecial(c) {
      assert s[1] == c && RunBefore(s, 0) == 0 && RunBefore(s, 1) == 1;
    } else {
      assert RunBefore(s, 1) == 0;
    }
  }

  // ----- the text of a field -----

  /** _markdown_text: a field that is not text counts as empty. */
  function MarkdownText(value: Option<string>, limit: nat): (r: Result<string, ()>)
    ensures r.Ok? <==> value.Some? && 0 < |Normalized(value.value)| <= limit
    ensures r.Ok? ==> r.value == EscapedBySteps(Normalized(value.value))
  {
    var normalized := if value.Some? then Normalized(value.value) else "";
    if normalized == "" || |normalized| > limit then Err(()) else Ok(EscapedBySteps(normalized))
  }

  /** What a field says can be read back from its text, up to white space. */
  lemma FieldReadsBack(value: string, limit: nat)
    requires MarkdownText(Some(value), limit).Ok?
    ensures Unescaped(MarkdownText(Some(value), limit).value) == Normalized(value)
  {
    StepsAreOnePass(Normalized(value));
    UnescapeInvertsEscape(Normalized(value));
  }

  // ----- table rows -----

  /** A row split at the pipes that are not escaped; the text before the first and after the last
      count as cells. */
  function Split(s: string): (r: seq<string>)
    ensures r != []
    decreases |s|
  {
    if s == "" then [""]
    else if s[0] == '|' then [""] + Split(s[1..])
    else if s[0] == '\\' && |s| > 1 then
      var r := Split(s[2..]);
      [s[..2] + r[0]] + r[1..]
    else
      var r := Split(s[1..]);
      [[s[0]] + r[0]] + r[1..]
  }

  /** Text without a pipe of its own: an unescaped pipe or a backslash that would escape what follows. */
  predicate Closed(s: string)
    decreases |s|
  {
    s != "" ==>
      if s[0] == '\\' then |s| > 1 && Closed(s[2..]) else s[0] != '|' && Closed(s[1..])
  }

  lemma {:induction false} EscapedIsClosed(s: string)
    ensures Closed(Escaped(s))
  {
    if s != "" {
      EscapedIsClosed(s[1..]);
      var e := Escaped(s);
      if IsSpecial(s[0]) {
        assert e[2..] == Escaped(s[1..]);
      } else {
        assert e[1..] == Escaped(s[1..]);
      }
    }
  }

  lemma {:induction false} SplitAfterClosed(a: string, b: string)
    requires Closed(a)
    ensures Split(a + b) == [a + Split(b)[0]] + Split(b)[1..]
    decreases |a|
  {
    var s := a + b;
    if a == "" {
      assert s == b;
      assert a + Split(b)[0] == Split(b)[0];
    } else if a[0] == '\\' {
      SplitAfterClosed(a[2..], b);
      assert s[2..] == a[2..] + b && s[..2] == a[..2];
      assert a[..2] + (a[2..] + Split(b)[0]) == a + Split(b)[0];
    } else {
      SplitAfterClosed(a[1..], b);
      assert s[1..] == a[1..] + b && s[0] == a[0];
      assert [a[0]] + (a[1..] + Split(b)[0]) == a + Split(b)[0];
    }
  }

  /** A cell with a blank on either side. */
  function Pad(cell: string): string {
    [' '] + cell + [' ']
  }

  /** A row as it is built: the cells between pipes, a blank on either side of each. */
  function Row(cells: seq<string>): string {
    if cells == [] then ['|'] else ['|'] + (Pad(cells[0]) + Row(cells[1..]))
  }

  function Padded(cells: seq<string>): (r: seq<string>)
    ensures |r| == |cells| && forall i :: 0 <= i < |r| ==> r[i] == Pad(cells[i])
  {
    if cells == [] then [] else [Pad(cells[0])] + Padded(cells[1..])
  }

  lemma SplitPipe(s: string)
    ensures Split(['|'] + s) == [""] + Split(s)
  {
    assert (['|'] + s)[1..] == s;
  }

  lemma SplitCell(cell: string, rest: string, cells: seq<string>)
    requires Closed(cell) && Split(rest) == [""] + cells
    ensures Split(['|'] + (cell + rest)) == [""] + ([cell] + cells)
  {
    SplitPipe(cell + rest);
    SplitAfterClosed(cell, rest);
    assert cell + "" == cell;
    assert Split(rest)[1..] == cells;
  }

  /** A row of closed cells splits into exactly those cells. */
  lemma {:induction false} RowSplits(cells: seq<string>)
    requires forall i :: 0 <= i < |cells| ==> Closed(cells[i])
    ensures Split(Row(cells)) == [""] + (Padded(cells) + [""])
    decreases |cells|
  {
    if cells == [] {
      SplitPipe("");
      assert ['|'] + "" == ['|'];
    } else {
      RowSplits(cells[1..]);
      PaddedIsClosed(cells[0]);
      SplitCell(Pad(cells[0]), Row(cells[1..]), Padded(cells[1..]) + [""]);
      assert [Pad(cells[0])] + (Padded(cells[1..]) + [""]) == Padded(cells) + [""];
    }
  }

  lemma {:induction false} ClosedSplit(a: string, b: string)
    requires Closed(a) && Closed(b)
    ensures Closed(a + b)
    decreases |a|
  {
    if a == "" {
      assert a + b == b;
    } else if a[0] == '\\' {
      ClosedSplit(a[2..], b);
      assert (a + b)[2..] == a[2..] + b;
    } else {
      ClosedSplit(a[1..], b);
      assert (a + b)[1..] == a[1..] + b;
    }
  }

  lemma PaddedIsClosed(cell: string)
    requires Closed(cell)
    ensures Closed(Pad(cell))
  {
    assert [' '][1..] == "";
    ClosedSplit([' '], cell);
    ClosedSplit([' '] + cell, [' ']);
  }

  // ----- review rows -----

  /** A review as read: its texts, and its numbers as they are printed. */
  datatype Review = Review(
    category: Option<string>, decision: Option<string>, paid: Option<string>, reason: Option<string>,
    title: Option<string>, corrections: Printed, runtime: Printed, peak: Option<Printed>)

  predicate IsPrinted(s: string) {
    forall i :: 0 <= i < |s| ==> s[i] != '|' && s[i] != '\\'
  }

  /** A number as it is printed: without pipe or backslash. */
  type Printed = s: string | IsPrinted(s) witness ""

  lemma {:induction false} PrintedIsClosed(s: string)
    requires IsPrinted(s)
    ensures Closed(s)
  {
    if s != "" {
      PrintedIsClosed(s[1..]);
    }
  }

  type Field = Result<string, ()>

  function EightCells(title: Field, category: Field, decision: Field, reason: Field, paid: Field, r: Review)
    : (c: Option<seq<string>>)
    ensures c.Some? ==> |c.value| == 8
  {
    if category.Err? || decision.Err? || paid.Err? || reason.Err? || title.Err? then None
    else
      Some([title.value, category.value, decision.value, reason.value, r.corrections, paid.value, r.runtime,
            if r.peak.Some? then r.peak.value else "not recorded"])
  }

  /** The eight cells of a review, or nothing when a text is missing or too long. */
  function Cells(r: Review): (c: Option<seq<string>>)
    ensures c.Some? ==> |c.value| == 8
  {
    EightCells(MarkdownText(r.title, 80), MarkdownText(r.category, 40), MarkdownText(r.decision, 20),
               MarkdownText(r.reason, 40), MarkdownText(r.paid, 20), r)
  }

  predicate FitsField(value: Option<string>, limit: nat) {
    value.Some? && 1 <= |Normalized(value.value)| <= limit
  }

  predicate TellsText(cell: string, value: Option<string>) {
    value.Some? && Unescaped(cell) == Normalized(value.value)
  }

  lemma FieldTells(value: Option<string>, limit: nat)
    ensures MarkdownText(value, limit).Ok? <==> FitsField(value, limit)
    ensures MarkdownText(value, limit).Ok? ==> TellsText(MarkdownText(value, limit).value, value)
  {
    if MarkdownText(value, limit).Ok? {
      FieldReadsBack(value.value, limit);
    }
  }

  /** A review has a row exactly when each of its five texts fits. */
  lemma CellsExactly(r: Review)
    ensures Cells(r).Some? <==>
            && FitsField(r.title, 80) && FitsField(r.category, 40) && FitsField(r.decision, 20)
            && FitsField(r.reason, 40) && FitsField(r.paid, 20)
  {
  }

  /** What its cells say, the texts as they are read back. */
  lemma CellsTell(r: Review)
    requires Cells(r).Some?
    ensures var c := Cells(r).value;
            && TellsText(c[0], r.title) && TellsText(c[1], r.category) && TellsText(c[2], r.decision)
            && TellsText(c[3], r.reason) && c[4] == r.corrections && TellsText(c[5], r.paid)
            && c[6] == r.runtime && (r.peak.Some? ==> c[7] == r.peak.value)
  {
    var title, category := MarkdownText(r.title, 80), MarkdownText(r.category, 40);
    var decision := MarkdownText(r.decision, 20);
    var reason, paid := MarkdownText(r.reason, 40), MarkdownText(r.paid, 20);
    EightTell(title, category, decision, reason, paid, r);
    FieldTells(r.title, 80);
    FieldTells(r.category, 40);
    FieldTells(r.decision, 20);
    FieldTells(r.reason, 40);
    FieldTells(r.paid, 20);
  }

  lemma EightTell(title: Field, category: Field, decision: Field, reason: Field, paid: Field, r: Review)
    requires EightCells(title, category, decision, reason, paid, r).Some?
    ensures title.Ok? && category.Ok? && decision.Ok? && reason.Ok? && paid.Ok?
    ensures var c := EightCells(title, category, decision, reason, paid, r).value;
            && c[0] == title.value && c[1] == category.value && c[2] == decision.value && c[3] == reason.value
            && c[4] == r.corrections && c[5] == paid.value && c[6] == r.runtime
            && (r.peak.Some? ==> c[7] == r.peak.value)
  {
  }

  predicate ClosedField(f: Field) {
    f.Ok? ==> Closed(f.value)
  }

  lemma FieldIsClosed(value: Option<string>, limit: nat)
    ensures ClosedField(MarkdownText(value, limit))
  {
    if MarkdownText(value, limit).Ok? {
      StepsAreOnePass(Normalized(value.value));
      EscapedIsClosed(Normalized(value.value));
    }
  }

  lemma EightClosed(title: Field, category: Field, decision: Field, reason: Field, paid: Field, r: Review)
    requires ClosedField(title) && ClosedField(category) && ClosedField(decision)
    requires ClosedField(reason) && ClosedField(paid)
    requires EightCells(title, category, decision, reason, paid, r).Some?
    ensures var c := EightCells(title, category, decision, reason, paid, r).value;
            forall i :: 0 <= i < 8 ==> Closed(c[i])
  {
    PrintedIsClosed(r.corrections);
    PrintedIsClosed(r.runtime);
    PrintedIsClosed(if r.peak.Some? then r.peak.value else "not recorded");
  }

  lemma CellsAreClosed(r: Review)
    requires Cells(r).Some?
    ensures forall i :: 0 <= i < 8 ==> Closed(Cells(r).value[i])
  {
    FieldIsClosed(r.category, 40);
    FieldIsClosed(r.decision, 20);
    FieldIsClosed(r.paid, 20);
    FieldIsClosed(r.reason, 40);
    FieldIsClosed(r.title, 80);
    EightClosed(MarkdownText(r.title, 80), MarkdownText(r.category, 40), MarkdownText(r.decision, 20),
                MarkdownText(r.reason, 40), MarkdownText(r.paid, 20), r);
  }

  /** A row that splits at its unescaped pipes into the eight cells of its review and nothing else. */
  predicate RowFits(cells: Option<seq<string>>, row: string) {
    cells.Some? && |cells.value| == 8 && Split(row) == [""] + (Padded(cells.value) + [""])
  }

  const NO_REVIEWS_LABEL := "No reviewed runs yet"

  lemma LabelIsPrinted()
    ensures IsPrinted(NO_REVIEWS_LABEL)
  {
  }

  function BlankCells(title: string, dash: string): (c: seq<string>)
    ensures |c| == 8
  {
    [title, dash, dash, dash, dash, dash, dash, dash]
  }

  method BuildRow(r: Review) returns (row: Option<string>)
    ensures row.None? <==> Cells(r).None?
    ensures row.Some? ==> RowFits(Cells(r), row.value)
  {
    var cells := Cells(r);
    if cells.None? {
      return None;
    }
    CellsAreClosed(r);
    RowSplits(cells.value);
    return Some(Row(cells.value));
  }

  /** The row that stands in when nothing was reviewed. */
  method BuildBlankRow(title: string, dash: string) returns (row: string)
    requires IsPrinted(title) && IsPrinted(dash)
    ensures Split(row) == [""] + (Padded(BlankCells(title, dash)) + [""])
  {
    BlankCellsAreClosed(title, dash);
    RowSplits(BlankCells(title, dash));
    return Row(BlankCells(title, dash));
  }

  method NoReviewsRow() returns (row: string)
    ensures Split(row) == [""] + (Padded(BlankCells("No reviewed runs yet", "-")) + [""])
  {
    LabelIsPrinted();
    row := BuildBlankRow(NO_REVIEWS_LABEL, "-");
  }

  ghost function AllCells(reviews: seq<Review>): seq<Option<seq<string>>> {
    seq(|reviews|, i requires 0 <= i < |reviews| => Cells(reviews[i]))
  }

  /** The rows of the first `n` reviews, given by their cells. */
  ghost predicate RowsFit(cells: seq<Option<seq<string>>>, n: nat, rows: seq<string>)
    requires n <= |cells|
  {
    |rows| == n && forall i :: 0 <= i < n ==> RowFits(cells[i], rows[i])
  }

  lemma RowsFitNext(cells: seq<Option<seq<string>>>, n: nat, rows: seq<string>, row: string)
    requires n < |cells| && RowsFit(cells, n, rows) && RowFits(cells[n], row)
    ensures RowsFit(cells, n + 1, rows + [row])
  {
  }

  /** Whatever the reviews say, every review row has exactly its eight cells. */
  method ReviewRows(reviews: seq<Review>) returns (rows: Option<seq<string>>)
    ensures rows.None? <==> exists i :: 0 <= i < |reviews| && Cells(reviews[i]).None?
    ensures rows.Some? && reviews != [] ==>
              |rows.value| == |reviews| && forall i :: 0 <= i < |reviews| ==> RowFits(Cells(reviews[i]), rows.value[i])
    ensures rows.Some? && reviews == [] ==>
              |rows.value| == 1
              && Split(rows.value[0]) == [""] + (Padded(BlankCells("No reviewed runs yet", "-")) + [""])
  {
    var built: seq<string> := [];
    ghost var cells := AllCells(reviews);
    var i := 0;
    while i < |reviews|
      invariant i <= |reviews| && RowsFit(cells, i, built)
    {
      var row := BuildRow(reviews[i]);
      if row.None? {
        return None;
      }
      RowsFitNext(cells, i, built, row.value);
      built := built + [row.value];
      i := i + 1;
    }
    forall k | 0 <= k < |reviews| ensures RowFits(Cells(reviews[k]), built[k]) {
      assert cells[k] == Cells(reviews[k]);
    }
    if built == [] {
      var row := NoReviewsRow();
      built := built + [row];
    }
    return Some(built);
  }

  lemma BlankCellsAreClosed(title: string, dash: string)
    requires IsPrinted(title) && IsPrinted(dash)
    ensures forall i :: 0 <= i < 8 ==> Closed(BlankCells(title, dash)[i])
  {
    PrintedIsClosed(title);
    PrintedIsClosed(dash);
  }
}
