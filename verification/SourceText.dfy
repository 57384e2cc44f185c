/** Source bodies as sequences of Unicode scalar values, their `splitlines`
    lines, and the UTF-16 offsets the change pipeline attaches to line spans. */
module SourceText {
  import opened Sorting

  datatype LineSpan = LineSpan(startLine: nat, endLine: nat) {
    predicate Valid() { 1 <= startLine <= endLine }
  }

  datatype ExactRange = ExactRange(startLine: nat, endLine: nat, startOffset: nat, endOffset: nat) {
    predicate Valid() { 1 <= startLine <= endLine && startOffset <= endOffset }

    predicate Contains(other: ExactRange) {
      startOffset <= other.startOffset && other.endOffset <= endOffset
    }
  }

  // ------------------------------------------------------ counting over text

  function Total(weight: char -> nat, text: string): nat {
    if text == [] then 0 else weight(text[0]) + Total(weight, text[1..])
  }

  lemma {:induction false} TotalConcat(weight: char -> nat, a: string, b: string)
    ensures Total(weight, a + b) == Total(weight, a) + Total(weight, b)
  {
    if a == [] {
      assert a + b == b;
    } else {
      TotalConcat(weight, a[1..], b);
      assert (a + b)[0] == a[0] && (a + b)[1..] == a[1..] + b;
    }
  }

  function Utf16Width(c: char): nat {
    if c as int > 0xFFFF then 2 else 1
  }

  function Utf16Length(text: string): nat {
    Total(Utf16Width, text)
  }

  /** The UTF-16 code units of a character: itself, or a surrogate pair. */
  function Utf16Units(c: char): seq<int> {
    var code := c as int;
    if code < 0x1_0000 then [code]
    else [0xD800 + (code - 0x1_0000) / 0x400, 0xDC00 + (code - 0x1_0000) % 0x400]
  }

  function Utf16Encoded(text: string): seq<int> {
    if text == [] then [] else Utf16Units(text[0]) + Utf16Encoded(text[1..])
  }

  /** A unit outside the surrogates stands for itself; a high and a low surrogate give
      the character back. */
  lemma Utf16UnitsDecode(c: char)
    ensures var units := Utf16Units(c);
      && |units| == Utf16Width(c)
      && (|units| == 1 ==> units[0] == c as int && !(0xD800 <= units[0] < 0xE000))
      && (|units| == 2 ==>
            && 0xD800 <= units[0] < 0xDC00 <= units[1] < 0xE000
            && 0x1_0000 + (units[0] - 0xD800) * 0x400 + (units[1] - 0xDC00) == c as int)
  {
  }

  /** Offsets count UTF-16 code units. */
  lemma {:induction false} Utf16LengthCounts(text: string)
    ensures Utf16Length(text) == |Utf16Encoded(text)|
  {
    if text != [] {
      Utf16UnitsDecode(text[0]);
      Utf16LengthCounts(text[1..]);
    }
  }

  function NewlineWeight(c: char): nat {
    if c == '\n' then 1 else 0
  }

  function Newlines(text: string): nat {
    Total(NewlineWeight, text)
  }

  // ---------------------------------------------------------------- lines

  /** The characters at which Python's `str.splitlines` breaks. */
  predicate IsBreak(c: char) {
    c in {'\n', '\r', '\U{0B}', '\U{0C}', '\U{1C}', '\U{1D}', '\U{1E}', '\U{85}', '\U{2028}', '\U{2029}'}
  }

  /** Length of the first line, its terminator included. */
  function FirstLine(text: string): (n: nat)
    requires text != []
    ensures 1 <= n <= |text|
    ensures forall i | 0 <= i < n - 1 :: text[i] != '\n'
    ensures forall i | 0 <= i < n - 1 && IsBreak(text[i]) :: text[i] == '\r' && i == n - 2 && text[n - 1] == '\n'
    ensures n < |text| ==> IsBreak(text[n - 1])
    ensures n < |text| && text[n - 1] == '\r' ==> text[n] != '\n'
  {
    if text[0] == '\r' && |text| > 1 && text[1] == '\n' then 2
    else if IsBreak(text[0]) || |text| == 1 then 1
    else 1 + FirstLine(text[1..])
  }

  /** `text.splitlines(keepends=True)`. */
  function Lines(text: string): seq<string> {
    if text == [] then []
    else var n := FirstLine(text); [text[..n]] + Lines(text[n..])
  }

  function Join(lines: seq<string>): string {
    Flat((line: string) => line, lines)
  }

  predicate EndsWithNewline(line: string) {
    line != [] && line[|line| - 1] == '\n'
  }

  lemma {:induction false} JoinLines(text: string)
    ensures Join(Lines(text)) == text
  {
    if text != [] {
      var n := FirstLine(text);
      JoinLines(text[n..]);
      assert Lines(text)[1..] == Lines(text[n..]);
      assert text == text[..n] + text[n..];
    }
  }

  lemma JoinConcat(a: seq<string>, b: seq<string>)
    ensures Join(a + b) == Join(a) + Join(b)
  {
    FlatConcat((line: string) => line, a, b);
  }

  lemma JoinOne(line: string)
    ensures Join([line]) == line
  {
    assert Flat((l: string) => l, [line]) == line + Flat((l: string) => l, [line][1..]);
  }

  /** Dropping whole leading lines of a text leaves a text with the other lines. */
  lemma {:induction false} LinesPrefix(text: string, k: nat)
    requires k <= |Lines(text)|
    ensures |Join(Lines(text)[..k])| <= |text|
    ensures text[..|Join(Lines(text)[..k])|] == Join(Lines(text)[..k])
    ensures text[|Join(Lines(text)[..k])|..] == Join(Lines(text)[k..])
  {
    var lines := Lines(text);
    JoinLines(text);
    JoinConcat(lines[..k], lines[k..]);
    assert lines == lines[..k] + lines[k..];
  }

  /** The pieces of a text between its "\n" characters. */
  function SplitNewlines(text: string): (pieces: seq<string>)
    ensures pieces != []
  {
    if text == [] then [[]]
    else
      var rest := SplitNewlines(text[1..]);
      if text[0] == '\n' then [[]] + rest else [[text[0]] + rest[0]] + rest[1..]
  }

  lemma {:induction false} PiecesCountNewlines(text: string)
    ensures |SplitNewlines(text)| == Newlines(text) + 1
  {
    if text != [] {
      PiecesCountNewlines(text[1..]);
    }
  }

  /** A line break by "\n" happens at most once per line, at its end. */
  lemma {:induction false} LineNewlines(text: string, k: nat)
    requires k < |Lines(text)|
    ensures Lines(text)[k] != []
    ensures Newlines(Lines(text)[k]) == if EndsWithNewline(Lines(text)[k]) then 1 else 0
  {
    var n := FirstLine(text);
    if k == 0 {
      var body, last := text[..n - 1], text[n - 1];
      assert text[..n] == body + [last];
      TotalConcat(NewlineWeight, body, [last]);
      NoNewlines(body);
    } else {
      LineNewlines(text[n..], k - 1);
    }
  }

  lemma {:induction false} NoNewlines(text: string)
    requires forall i | 0 <= i < |text| :: text[i] != '\n'
    ensures Newlines(text) == 0
  {
    if text != [] {
      NoNewlines(text[1..]);
    }
  }

  // ------------------------------------------------- line spans as ranges

  function RangeOfLines(lines: seq<string>, startLine: nat, endLine: nat): ExactRange
    requires 1 <= startLine <= endLine <= |lines|
  {
    var startOffset := Utf16Length(Join(lines[..startLine - 1]));
    ExactRange(startLine, endLine, startOffset,
               startOffset + Utf16Length(Join(lines[startLine - 1..endLine])))
  }

  /** The normalizer's range of a line span; None when the span leaves the source. */
  function ExactLineRange(content: string, span: LineSpan): Option<ExactRange>
    requires span.Valid()
  {
    var lines := Lines(content);
    if span.endLine > |lines| then None
    else Some(RangeOfLines(lines, span.startLine, span.endLine))
  }

  /** The review builder's own recomputation, from bare line numbers. */
  function FullLineRange(source: string, startLine: nat, endLine: nat): Option<ExactRange> {
    var lines := Lines(source);
    if startLine < 1 || endLine < startLine || endLine > |lines| then None
    else Some(RangeOfLines(lines, startLine, endLine))
  }

  /** A line without its terminator. */
  function LineBody(line: string): string {
    if line == [] || !IsBreak(line[|line| - 1]) then line
    else if |line| >= 2 && line[|line| - 1] == '\n' && line[|line| - 2] == '\r' then line[..|line| - 2]
    else line[..|line| - 1]
  }

  function JoinBodies(lines: seq<string>): string {
    if lines == [] then [] else if |lines| == 1 then LineBody(lines[0])
    else LineBody(lines[0]) + "\n" + JoinBodies(lines[1..])
  }

  /** `extract_lines`: the lines of a span that exist, joined by "\n". */
  function ExtractLines(source: string, span: LineSpan): string {
    var lines := Lines(source);
    var start := if span.startLine < 1 then 1 else span.startLine;
    var end := if span.endLine < |lines| then span.endLine else |lines|;
    if end < start then [] else JoinBodies(lines[start - 1..end])
  }

  /** The start offset of line `k + 1`, as the UTF-16 length of what precedes it. */
  lemma RangeOffsets(content: string, startLine: nat, endLine: nat)
    requires 1 <= startLine <= endLine <= |Lines(content)|
    ensures var r := RangeOfLines(Lines(content), startLine, endLine);
      && r.Valid()
      && r.startOffset == Utf16Length(Join(Lines(content)[..startLine - 1]))
      && r.endOffset == Utf16Length(Join(Lines(content)[..endLine]))
  {
    var lines := Lines(content);
    assert lines[..endLine] == lines[..startLine - 1] + lines[startLine - 1..endLine];
    JoinConcat(lines[..startLine - 1], lines[startLine - 1..endLine]);
    TotalConcat(Utf16Width, Join(lines[..startLine - 1]), Join(lines[startLine - 1..endLine]));
  }

  /** Line ranges are exact slices: cut by offsets, a span's text is its own lines. */
  lemma RangeIsExactSlice(content: string, span: LineSpan)
    requires span.Valid()
    ensures ExactLineRange(content, span).Some? <==> span.endLine <= |Lines(content)|
    ensures ExactLineRange(content, span).Some? ==>
      exists p, q | 0 <= p <= q <= |content| ::
        && content[p..q] == Join(Lines(content)[span.startLine - 1..span.endLine])
        && ExactLineRange(content, span).value ==
             ExactRange(span.startLine, span.endLine, Utf16Length(content[..p]), Utf16Length(content[..q]))
  {
    var lines := Lines(content);
    if span.endLine <= |lines| {
      RangeOffsets(content, span.startLine, span.endLine);
      LinesPrefix(content, span.startLine - 1);
      LinesPrefix(content, span.endLine);
      var head, body := Join(lines[..span.startLine - 1]), Join(lines[span.startLine - 1..span.endLine]);
      assert lines[..span.endLine] == lines[..span.startLine - 1] + lines[span.startLine - 1..span.endLine];
      JoinConcat(lines[..span.startLine - 1], lines[span.startLine - 1..span.endLine]);
      var p, q := |head|, |head + body|;
      assert content[..q] == head + body && content[..p] == head;
      assert content[p..q] == content[..q][p..] == body;
    }
  }

  /** Adjacent spans meet at one offset and join to the joined span's range. */
  lemma RangesCompose(content: string, a: nat, b: nat, c: nat)
    requires 1 <= a <= b < c <= |Lines(content)|
    ensures
      var left := ExactLineRange(content, LineSpan(a, b)).value;
      var right := ExactLineRange(content, LineSpan(b + 1, c)).value;
      && left.endOffset == right.startOffset
      && ExactLineRange(content, LineSpan(a, c)) ==
           Some(ExactRange(a, c, left.startOffset, right.endOffset))
  {
    RangeOffsets(content, a, b);
    RangeOffsets(content, b + 1, c);
    RangeOffsets(content, a, c);
  }

  /** The span of all lines runs from 0 to the UTF-16 length of the source. */
  lemma FullSpanCoversSource(content: string)
    requires content != []
    ensures |Lines(content)| >= 1
    ensures ExactLineRange(content, LineSpan(1, |Lines(content)|)) ==
            Some(ExactRange(1, |Lines(content)|, 0, Utf16Length(content)))
  {
    RangeOffsets(content, 1, |Lines(content)|);
    JoinLines(content);
    assert Lines(content)[..|Lines(content)|] == Lines(content);
  }

  // ---------------------------------------------- UTF-16 boundaries of a text

  ghost predicate BoundaryTable(source: string, table: map<nat, nat>) {
    forall offset: nat, index: nat ::
      (offset in table && table[offset] == index)
      <==> (index <= |source| && Utf16Length(source[..index]) == offset)
  }

  lemma {:induction false} PrefixLengthsGrow(source: string, i: nat, j: nat)
    requires i < j <= |source|
    ensures Utf16Length(source[..i]) < Utf16Length(source[..j])
  {
    assert source[..j] == source[..i] + source[i..j];
    TotalConcat(Utf16Width, source[..i], source[i..j]);
    assert source[i..j] != [];
    assert Utf16Width(source[i..j][0]) >= 1;
  }

  /** The offset table of a text, character by character. */
  function Boundaries(source: string): map<nat, nat> {
    if source == [] then map[0 := 0]
    else Boundaries(source[..|source| - 1])[Utf16Length(source) := |source|]
  }

  /** The table maps exactly the UTF-16 offsets between characters to their indices. */
  lemma {:induction false} BoundariesExact(source: string)
    ensures BoundaryTable(source, Boundaries(source))
  {
    if source != [] {
      var init := source[..|source| - 1];
      BoundariesExact(init);
      forall i: nat | i <= |init| ensures source[..i] == init[..i] && Utf16Length(source[..i]) < Utf16Length(source) {
        PrefixLengthsGrow(source, i, |source|);
        assert source[..|source|] == source;
      }
      assert source[..|source|] == source;
    }
  }

  /** `_utf16_boundaries`: one pass with a running offset. */
  method Utf16Boundaries(source: string) returns (boundaries: map<nat, nat>)
    ensures boundaries == Boundaries(source)
  {
    boundaries := map[0 := 0];
    var offset := 0;
    var index := 0;
    while index < |source|
      invariant index <= |source|
      invariant offset == Utf16Length(source[..index])
      invariant boundaries == Boundaries(source[..index])
    {
      var character := source[index];
      assert source[..index + 1] == source[..index] + [character];
      assert source[..index + 1][..index] == source[..index];
      TotalConcat(Utf16Width, source[..index], [character]);
      offset := offset + if character as int > 0xFFFF then 2 else 1;
      index := index + 1;
      boundaries := boundaries[offset := index];
    }
    assert source[..index] == source;
  }

  /** The line/offset check applied to every parser structure. */
  predicate ParseRangeOk(source: string, r: ExactRange) {
    var boundaries := Boundaries(source);
    && r.endLine <= |Lines(source)|
    && r.startOffset in boundaries && r.endOffset in boundaries
    && var startIndex, endIndex := boundaries[r.startOffset], boundaries[r.endOffset];
    && startIndex <= |source| && endIndex <= |source|
    && Newlines(source[..startIndex]) + 1 == r.startLine
    && var mappedEndLine := Newlines(source[..endIndex]) + 1;
    && (mappedEndLine == r.endLine
        || (endIndex > 0 && source[endIndex - 1] == '\n' && mappedEndLine == r.endLine + 1))
  }

  /** How many of the first `k` lines end in "\n". */
  function NewlineEnded(lines: seq<string>): nat {
    if lines == [] then 0
    else NewlineEnded(lines[..|lines| - 1]) + if EndsWithNewline(lines[|lines| - 1]) then 1 else 0
  }

  lemma {:induction false} NewlineEndedBound(lines: seq<string>)
    ensures NewlineEnded(lines) <= |lines|
    ensures NewlineEnded(lines) == |lines| <==> forall i | 0 <= i < |lines| :: EndsWithNewline(lines[i])
  {
    if lines != [] {
      NewlineEndedBound(lines[..|lines| - 1]);
      assert forall i | 0 <= i < |lines| - 1 :: lines[..|lines| - 1][i] == lines[i];
    }
  }

  lemma {:induction false} NewlinesOfPrefix(source: string, k: nat)
    requires k <= |Lines(source)|
    ensures Newlines(Join(Lines(source)[..k])) == NewlineEnded(Lines(source)[..k])
  {
    var lines := Lines(source);
    if k > 0 {
      NewlinesOfPrefix(source, k - 1);
      LineNewlines(source, k - 1);
      assert lines[..k][..k - 1] == lines[..k - 1];
      assert lines[..k] == lines[..k - 1] + [lines[k - 1]];
      JoinConcat(lines[..k - 1], [lines[k - 1]]);
      JoinOne(lines[k - 1]);
      TotalConcat(NewlineWeight, Join(lines[..k - 1]), lines[k - 1]);
    }
  }

  /** Every full-line range sits on computed boundaries, at the indices of its lines. */
  lemma RangeOnBoundaries(source: string, a: nat, b: nat)
    requires 1 <= a <= b <= |Lines(source)|
    ensures var r, boundaries := RangeOfLines(Lines(source), a, b), Boundaries(source);
      && r.startOffset in boundaries && r.endOffset in boundaries
      && boundaries[r.startOffset] == |Join(Lines(source)[..a - 1])| <= |source|
      && boundaries[r.endOffset] == |Join(Lines(source)[..b])| <= |source|
  {
    BoundariesExact(source);
    RangeOffsets(source, a, b);
    LinesPrefix(source, a - 1);
    LinesPrefix(source, b);
  }

  lemma LastCharacterOfPrefix(source: string, b: nat)
    requires 1 <= b <= |Lines(source)|
    ensures var q := |Join(Lines(source)[..b])|;
      1 <= q <= |source| && (source[q - 1] == '\n' <==> EndsWithNewline(Lines(source)[b - 1]))
  {
    var lines := Lines(source);
    LinesPrefix(source, b);
    LineNewlines(source, b - 1);
    assert lines[..b] == lines[..b - 1] + [lines[b - 1]];
    JoinConcat(lines[..b - 1], [lines[b - 1]]);
    JoinOne(lines[b - 1]);
    var q := |Join(lines[..b])|;
    assert source[..q][q - 1] == Join(lines[..b])[q - 1] == lines[b - 1][|lines[b - 1]| - 1];
  }

  /** The start check: every earlier line ends in "\n". */
  lemma StartLineCounted(source: string, a: nat)
    requires 1 <= a <= |Lines(source)|
    ensures Newlines(Join(Lines(source)[..a - 1])) + 1 == a <==> forall i | 0 <= i < a - 1 :: EndsWithNewline(Lines(source)[i])
  {
    NewlinesOfPrefix(source, a - 1);
    NewlineEndedBound(Lines(source)[..a - 1]);
    assert forall i | 0 <= i < a - 1 :: Lines(source)[..a - 1][i] == Lines(source)[i];
  }

  /** The end check: at most one line up to the end lacks its "\n". */
  lemma EndLineCounted(source: string, b: nat)
    requires 1 <= b <= |Lines(source)|
    ensures var q := |Join(Lines(source)[..b])|;
      && 1 <= q <= |source|
      && var mapped := Newlines(Join(Lines(source)[..b])) + 1;
         (mapped == b || (source[q - 1] == '\n' && mapped == b + 1)) <==> NewlineEnded(Lines(source)[..b]) >= b - 1
  {
    NewlinesOfPrefix(source, b);
    NewlineEndedBound(Lines(source)[..b]);
    LastCharacterOfPrefix(source, b);
    assert Lines(source)[..b][b - 1] == Lines(source)[b - 1];
  }

  /** Exactly when the newline-counting check accepts a full-line range: every line
      before it ends in "\n", and at most one of its own lines does not. */
  lemma FullLineRangeAcceptedIff(source: string, a: nat, b: nat)
    requires 1 <= a <= b <= |Lines(source)|
    ensures FullLineRange(source, a, b).Some?
    ensures ParseRangeOk(source, FullLineRange(source, a, b).value)
       <==> (&& (forall i | 0 <= i < a - 1 :: EndsWithNewline(Lines(source)[i]))
             && NewlineEnded(Lines(source)[..b]) >= b - 1)
  {
    RangeOnBoundaries(source, a, b);
    LinesPrefix(source, a - 1);
    LinesPrefix(source, b);
    StartLineCounted(source, a);
    EndLineCounted(source, b);
  }

  /** All full-line ranges pass exactly when every line but the last ends in "\n". */
  lemma AllFullLineRangesAcceptedIff(source: string)
    ensures (forall a: nat, b: nat | 1 <= a <= b <= |Lines(source)| ::
               ParseRangeOk(source, RangeOfLines(Lines(source), a, b)))
       <==> (forall i | 0 <= i < |Lines(source)| - 1 :: EndsWithNewline(Lines(source)[i]))
  {
    var lines := Lines(source);
    var n := |lines|;
    if forall i | 0 <= i < n - 1 :: EndsWithNewline(lines[i]) {
      forall a: nat, b: nat | 1 <= a <= b <= n
        ensures ParseRangeOk(source, RangeOfLines(lines, a, b))
      {
        FullLineRangeAcceptedIff(source, a, b);
        NewlineEndedBound(lines[..b][..b - 1]);
        assert forall i | 0 <= i < b - 1 :: lines[..b][..b - 1][i] == lines[i];
      }
    } else {
      FullLineRangeAcceptedIff(source, n, n);
      assert !ParseRangeOk(source, RangeOfLines(lines, n, n));
    }
  }

  /** Line ends are "\n" or "\r\n" only. */
  predicate OnlyNewlineBreaks(text: string) {
    forall i | 0 <= i < |text| && IsBreak(text[i]) ::
      text[i] == '\n' || (text[i] == '\r' && i + 1 < |text| && text[i + 1] == '\n')
  }

  lemma {:induction false} NewlineBreaksEndLines(text: string)
    requires OnlyNewlineBreaks(text)
    ensures forall i | 0 <= i < |Lines(text)| - 1 :: EndsWithNewline(Lines(text)[i])
  {
    if text != [] {
      var n := FirstLine(text);
      var rest := text[n..];
      assert forall i | 0 <= i < |rest| :: rest[i] == text[n + i];
      NewlineBreaksEndLines(rest);
      if rest != [] {
        assert IsBreak(text[n - 1]);
        assert text[..n][n - 1] == text[n - 1] == '\n';
      }
    }
  }

  /** A text without other line ends has every full-line range accepted. */
  lemma NewlineTextAccepted(source: string, a: nat, b: nat)
    requires forall i | 0 <= i < |source| && IsBreak(source[i]) ::
      source[i] == '\n' || (source[i] == '\r' && i + 1 < |source| && source[i + 1] == '\n')
    requires 1 <= a <= b <= |Lines(source)|
    ensures ParseRangeOk(source, FullLineRange(source, a, b).value)
  {
    assert OnlyNewlineBreaks(source);
    NewlineBreaksEndLines(source);
    AllFullLineRangesAcceptedIff(source);
  }

  /** A lone carriage return already breaks the agreement. */
  lemma CarriageReturnRejected()
    ensures FullLineRange("a\rb", 2, 2).Some?
    ensures !ParseRangeOk("a\rb", FullLineRange("a\rb", 2, 2).value)
  {
    var text := "a\rb";
    assert text[1..] == "\rb" && text[2..] == "b";
    assert FirstLine("\rb") == 1;
    assert FirstLine(text) == 2;
    assert FirstLine("b") == 1 && "b"[1..] == [];
    assert Lines("b") == ["b"[..1]] + Lines([]);
    assert Lines(text) == [text[..2]] + Lines("b");
    FullLineRangeAcceptedIff(text, 2, 2);
  }
}
