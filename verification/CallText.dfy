/** `normalizeCallText` and `v2LiteralDisplay`: the sidecar's two text canonicalizers. */
module CallText {

  /** The characters JavaScript's `\s` matches and `trim` removes. */
  predicate IsSpace(c: char) {
    || c in {'\t', '\n', '\U{0B}', '\U{0C}', '\r', ' ', '\U{A0}', '\U{1680}'}
    || c in {'\U{2028}', '\U{2029}', '\U{202F}', '\U{205F}', '\U{3000}', '\U{FEFF}'}
    || '\U{2000}' <= c <= '\U{200A}'
  }

  predicate IsQuote(c: char) { c == '\'' || c == '"' || c == '`' }

  /** Where the scan is: outside quotes, or inside one with an escape pending or not. */
  datatype Mode = Plain | Quoted(quote: char, escaped: bool)

  function Next(m: Mode, c: char): Mode {
    match m
    case Plain => if IsQuote(c) then Quoted(c, false) else Plain
    case Quoted(quote, escaped) =>
      if escaped then Quoted(quote, false)
      else if c == '\\' then Quoted(quote, true)
      else if c == quote then Plain
      else m
  }

  function ModeAfter(text: string): Mode {
    if text == [] then Plain else Next(ModeAfter(text[..|text| - 1]), text[|text| - 1])
  }

  /** A character with the answer whether it stands inside quotes. */
  type Tagged = (char, bool)

  function Tags(text: string): (tags: seq<Tagged>)
    ensures |tags| == |text|
    ensures forall i | 0 <= i < |text| :: tags[i] == (text[i], ModeAfter(text[..i]).Quoted?)
  {
    seq(|text|, i requires 0 <= i < |text| => (text[i], ModeAfter(text[..i]).Quoted?))
  }

  predicate Kept(t: Tagged) { t.1 || !IsSpace(t.0) }

  function Filter(tags: seq<Tagged>): seq<Tagged> {
    if tags == [] then []
    else Filter(tags[..|tags| - 1]) + if Kept(tags[|tags| - 1]) then [tags[|tags| - 1]] else []
  }

  function Chars(tags: seq<Tagged>): string {
    seq(|tags|, i requires 0 <= i < |tags| => tags[i].0)
  }

  /** The text without the whitespace that stands outside quotes. */
  function Normalized(text: string): string {
    Chars(Filter(Tags(text)))
  }

  lemma TagsSnoc(text: string, c: char)
    ensures Tags(text + [c]) == Tags(text) + [(c, ModeAfter(text).Quoted?)]
    ensures ModeAfter(text + [c]) == Next(ModeAfter(text), c)
  {
    var longer := text + [c];
    assert longer[..|text|] == text;
    forall i | 0 <= i < |text| ensures longer[..i] == text[..i] {
    }
  }

  lemma NormalizedSnoc(text: string, c: char)
    ensures Normalized(text + [c]) ==
      Normalized(text) + if ModeAfter(text).Quoted? || !IsSpace(c) then [c] else []
  {
    TagsSnoc(text, c);
    var tags, t := Tags(text), (c, ModeAfter(text).Quoted?);
    assert (tags + [t])[..|tags|] == tags;
  }

  /** `normalizeCallText`: one pass with a current quote and an escape flag. */
  method NormalizeCallText(text: string) returns (normalized: string)
    ensures normalized == Normalized(text)
  {
    normalized := "";
    var quoting, quote, escaped := false, ' ', false;
    for n := 0 to |text|
      invariant normalized == Normalized(text[..n])
      invariant ModeAfter(text[..n]) == if quoting then Quoted(quote, escaped) else Plain
    {
      var c := text[n];
      assert text[..n + 1] == text[..n] + [c];
      NormalizedSnoc(text[..n], c);
      TagsSnoc(text[..n], c);
      if quoting {
        normalized := normalized + [c];
        if escaped {
          escaped := false;
        } else if c == '\\' {
          escaped := true;
        } else if c == quote {
          quoting := false;
        }
      } else if IsQuote(c) {
        quoting, quote, escaped := true, c, false;
        normalized := normalized + [c];
      } else if !IsSpace(c) {
        normalized := normalized + [c];
      }
    }
    assert text[..|text|] == text;
  }

  lemma FilterSnoc(tags: seq<Tagged>, t: Tagged)
    ensures Filter(tags + [t]) == if Kept(t) then Filter(tags) + [t] else Filter(tags)
  {
    assert (tags + [t])[..|tags|] == tags;
  }

  lemma SpaceKeepsMode(m: Mode, c: char)
    requires m.Plain? && IsSpace(c)
    ensures Next(m, c) == m
  {
  }

  lemma TagsOneMore(init: string, last: char)
    requires Tags(Normalized(init)) == Filter(Tags(init)) && ModeAfter(Normalized(init)) == ModeAfter(init)
    ensures Tags(Normalized(init + [last])) == Filter(Tags(init + [last]))
    ensures ModeAfter(Normalized(init + [last])) == ModeAfter(init + [last])
  {
    var t := (last, ModeAfter(init).Quoted?);
    NormalizedSnoc(init, last);
    TagsSnoc(init, last);
    FilterSnoc(Tags(init), t);
    if Kept(t) {
      TagsSnoc(Normalized(init), last);
    } else {
      SpaceKeepsMode(ModeAfter(init), last);
      assert Normalized(init) + [] == Normalized(init);
    }
  }

  /** Normalizing keeps every tagged character but the spaces outside quotes, and no
      character moves into or out of quotes. */
  lemma {:induction false} NormalizedTags(text: string)
    ensures Tags(Normalized(text)) == Filter(Tags(text))
    ensures ModeAfter(Normalized(text)) == ModeAfter(text)
  {
    if text == [] {
      assert Tags(text) == [] && Normalized(text) == [];
    } else {
      var init, last := text[..|text| - 1], text[|text| - 1];
      NormalizedTags(init);
      TagsOneMore(init, last);
      assert text == init + [last];
    }
  }

  /** No whitespace is left outside quotes. */
  lemma {:induction false} FilterKeeps(tags: seq<Tagged>)
    ensures forall i | 0 <= i < |Filter(tags)| :: Kept(Filter(tags)[i])
    ensures (forall i | 0 <= i < |tags| :: Kept(tags[i])) ==> Filter(tags) == tags
  {
    if tags != [] {
      FilterKeeps(tags[..|tags| - 1]);
    }
  }

  lemma NoOuterSpace(text: string, k: nat)
    requires k < |Normalized(text)| && IsSpace(Normalized(text)[k])
    ensures ModeAfter(Normalized(text)[..k]).Quoted?
  {
    NormalizedTags(text);
    FilterKeeps(Tags(text));
    assert Kept(Tags(Normalized(text))[k]);
  }

  /** Idempotent for every input, with unterminated and escaped quotes alike. */
  lemma NormalizeIdempotent(text: string)
    ensures Normalized(Normalized(text)) == Normalized(text)
  {
    NormalizedTags(text);
    FilterKeeps(Tags(text));
    FilterKeeps(Tags(Normalized(text)));
    assert Chars(Tags(Normalized(text))) == Normalized(text);
  }

  /** The characters inside quotes, in order. */
  function QuotedPart(tags: seq<Tagged>): string {
    if tags == [] then []
    else QuotedPart(tags[..|tags| - 1]) + if tags[|tags| - 1].1 then [tags[|tags| - 1].0] else []
  }

  lemma {:induction false} FilterKeepsQuoted(tags: seq<Tagged>)
    ensures QuotedPart(Filter(tags)) == QuotedPart(tags)
  {
    if tags != [] {
      var init, last := tags[..|tags| - 1], tags[|tags| - 1];
      FilterKeepsQuoted(init);
      FilterSnoc(init, last);
      assert tags == init + [last];
      if Kept(last) {
        assert (Filter(init) + [last])[..|Filter(init)|] == Filter(init);
      }
    }
  }

  /** Every quoted character is kept, in order. */
  lemma QuotedKept(text: string)
    ensures QuotedPart(Tags(Normalized(text))) == QuotedPart(Tags(text))
  {
    NormalizedTags(text);
    FilterKeepsQuoted(Tags(text));
  }

  // ------------------------------------------------------------ whole literals

  /** Characters up to the closing quote: a backslash takes the next one with it, and
      none else is the quote. */
  predicate LiteralBody(quote: char, body: string) {
    if body == [] then true
    else if body[0] as int == 0x5C then |body| >= 2 && LiteralBody(quote, body[2..])
    else body[0] != quote && LiteralBody(quote, body[1..])
  }

  /** Apostrophe, quotation mark or grave accent, by code point. */
  predicate QuoteCode(c: char) { c as int in {0x27, 0x22, 0x60} }

  predicate SpaceCode(c: char) {
    || 0x09 <= c as int <= 0x0D || 0x2000 <= c as int <= 0x200A
    || c as int in {0x20, 0xA0, 0x1680, 0x2028, 0x2029, 0x202F, 0x205F, 0x3000, 0xFEFF}
  }

  function WithoutSpace(text: string): string {
    if text == [] then [] else (if SpaceCode(text[0]) then [] else [text[0]]) + WithoutSpace(text[1..])
  }

  /** What the scan keeps of a text it meets in a mode. */
  function Rest(m: Mode, text: string): string
    decreases |text|
  {
    if text == [] then [] else KeptChar(m, text[0]) + Rest(Next(m, text[0]), text[1..])
  }

  function KeptChar(m: Mode, c: char): string { if m.Quoted? || !IsSpace(c) then [c] else [] }

  function ModeFrom(m: Mode, text: string): Mode
    decreases |text|
  {
    if text == [] then m else ModeFrom(Next(m, text[0]), text[1..])
  }

  lemma Regroup(a: string, b: string, c: string)
    ensures a + (b + c) == a + b + c
  {
  }

  lemma {:induction false} ScanFrom(before: string, text: string)
    ensures Normalized(before + text) == Normalized(before) + Rest(ModeAfter(before), text)
    ensures ModeAfter(before + text) == ModeFrom(ModeAfter(before), text)
    decreases |text|
  {
    if text == [] {
      assert before + text == before;
      assert Normalized(before) + [] == Normalized(before);
    } else {
      var longer, m := before + [text[0]], ModeAfter(before);
      assert before + text == longer + text[1..];
      NormalizedSnoc(before, text[0]);
      TagsSnoc(before, text[0]);
      ScanFrom(longer, text[1..]);
      Regroup(Normalized(before), KeptChar(m, text[0]), Rest(Next(m, text[0]), text[1..]));
    }
  }

  lemma ScanWhole(text: string)
    ensures Normalized(text) == Rest(Plain, text)
  {
    assert [] + text == text && Normalized([]) == [] && [] + Rest(Plain, text) == Rest(Plain, text);
    ScanFrom([], text);
  }

  lemma {:induction false} RestConcat(m: Mode, a: string, b: string)
    ensures Rest(m, a + b) == Rest(m, a) + Rest(ModeFrom(m, a), b)
    decreases |a|
  {
    if a == [] {
      assert a + b == b && [] + Rest(m, b) == Rest(m, b);
    } else {
      assert (a + b)[1..] == a[1..] + b;
      var next := Next(m, a[0]);
      RestConcat(next, a[1..], b);
      Regroup(KeptChar(m, a[0]), Rest(next, a[1..]), Rest(ModeFrom(m, a), b));
    }
  }

  lemma RestCons(m: Mode, c: char, text: string)
    ensures Rest(m, [c] + text) == KeptChar(m, c) + Rest(Next(m, c), text)
  {
    assert ([c] + text)[1..] == text;
  }

  lemma {:induction false} BodyIsKept(quote: char, body: string)
    requires LiteralBody(quote, body) && quote != '\\'
    ensures Rest(Quoted(quote, false), body) == body && ModeFrom(Quoted(quote, false), body) == Quoted(quote, false)
    decreases |body|
  {
    if body != [] {
      var m := Quoted(quote, false);
      if body[0] as int == 0x5C {
        assert body[0] == '\\' && body[1..][1..] == body[2..];
        BodyIsKept(quote, body[2..]);
        assert Rest(Quoted(quote, true), body[1..]) == [body[1]] + body[2..] == body[1..];
      } else {
        BodyIsKept(quote, body[1..]);
      }
      assert body == [body[0]] + body[1..];
    }
  }

  /** A quoted literal is kept as it is, and what follows is normalized on its own. */
  lemma LiteralKept(quote: char, body: string, rest: string)
    requires QuoteCode(quote) && LiteralBody(quote, body)
    ensures Normalized([quote] + (body + ([quote] + rest))) == [quote] + (body + ([quote] + Normalized(rest)))
  {
    var m := Quoted(quote, false);
    assert IsQuote(quote) && quote != '\\' && !IsSpace(quote);
    ScanWhole([quote] + (body + ([quote] + rest)));
    ScanWhole(rest);
    RestCons(Plain, quote, body + ([quote] + rest));
    BodyIsKept(quote, body);
    RestConcat(m, body, [quote] + rest);
    RestCons(m, quote, rest);
  }

  /** Outside quotes exactly the whitespace goes. */
  lemma PlainLosesSpace(text: string, rest: string)
    requires forall i | 0 <= i < |text| :: !QuoteCode(text[i])
    ensures Normalized(text + rest) == WithoutSpace(text) + Normalized(rest)
  {
    ScanWhole(text + rest);
    ScanWhole(rest);
    PlainRest(text);
    RestConcat(Plain, text, rest);
  }

  lemma {:induction false} PlainRest(text: string)
    requires forall i | 0 <= i < |text| :: !QuoteCode(text[i])
    ensures Rest(Plain, text) == WithoutSpace(text) && ModeFrom(Plain, text) == Plain
  {
    if text != [] {
      assert !QuoteCode(text[0]) && forall i | 0 <= i < |text[1..]| :: text[1..][i] == text[i + 1];
      SpaceCodes(text[0]);
      PlainRest(text[1..]);
    }
  }

  lemma SpaceCodes(c: char)
    ensures IsSpace(c) <==> SpaceCode(c)
  {
  }

  // ------------------------------------------------------- displayed literals

  /** `replaceAll` of one character. */
  function ReplaceAll(text: string, c: char, written: string): string {
    if text == [] then [] else (if text[0] == c then written else [text[0]]) + ReplaceAll(text[1..], c, written)
  }

  lemma {:induction false} ReplaceConcat(a: string, b: string, c: char, written: string)
    ensures ReplaceAll(a + b, c, written) == ReplaceAll(a, c, written) + ReplaceAll(b, c, written)
  {
    if a == [] {
      assert a + b == b;
    } else {
      ReplaceConcat(a[1..], b, c, written);
      assert (a + b)[1..] == a[1..] + b && (a + b)[0] == a[0];
      var first := if a[0] == c then written else [a[0]];
      assert ReplaceAll(a + b, c, written) == first + ReplaceAll(a[1..] + b, c, written);
    }
  }

  /** `v2LiteralDisplay`: four passes over the whole text. */
  function LiteralDisplay(text: string): string {
    ReplaceAll(ReplaceAll(ReplaceAll(ReplaceAll(text, '\\', "\\\\"), '\r', "\\r"), '\n', "\\n"), '\t', "\\t")
  }

  function EscapeOf(c: char): string {
    match c
    case '\\' => "\\\\"
    case '\r' => "\\r"
    case '\n' => "\\n"
    case '\t' => "\\t"
    case _ => [c]
  }

  /** The escape, one character at a time. */
  function Escaped(text: string): string {
    if text == [] then [] else EscapeOf(text[0]) + Escaped(text[1..])
  }

  lemma ReplaceTwo(a: char, b: char, c: char, written: string)
    ensures ReplaceAll([a], c, written) == if a == c then written else [a]
    ensures a != c && b != c ==> ReplaceAll([a, b], c, written) == [a, b]
  {
    assert [a][1..] == [] && [a, b][1..] == [b] && [b][1..] == [];
  }

  lemma DisplayOne(c: char)
    ensures LiteralDisplay([c]) == EscapeOf(c)
  {
    ReplaceTwo(c, c, '\\', "\\\\");
    ReplaceTwo('\\', '\\', '\r', "\\r");
    ReplaceTwo('\\', '\\', '\n', "\\n");
    ReplaceTwo('\\', '\\', '\t', "\\t");
    ReplaceTwo(c, c, '\r', "\\r");
    ReplaceTwo('\\', 'r', '\n', "\\n");
    ReplaceTwo('\\', 'r', '\t', "\\t");
    ReplaceTwo(c, c, '\n', "\\n");
    ReplaceTwo('\\', 'n', '\t', "\\t");
    ReplaceTwo(c, c, '\t', "\\t");
  }

  lemma DisplayConcat(a: string, b: string)
    ensures LiteralDisplay(a + b) == LiteralDisplay(a) + LiteralDisplay(b)
  {
    var a1, b1 := ReplaceAll(a, '\\', "\\\\"), ReplaceAll(b, '\\', "\\\\");
    ReplaceConcat(a, b, '\\', "\\\\");
    var a2, b2 := ReplaceAll(a1, '\r', "\\r"), ReplaceAll(b1, '\r', "\\r");
    ReplaceConcat(a1, b1, '\r', "\\r");
    ReplaceConcat(a2, b2, '\n', "\\n");
    ReplaceConcat(ReplaceAll(a2, '\n', "\\n"), ReplaceAll(b2, '\n', "\\n"), '\t', "\\t");
  }

  /** The four passes are one character-by-character escape: no later pass touches
      what an earlier one wrote. */
  lemma {:induction false} DisplayIsEscape(text: string)
    ensures LiteralDisplay(text) == Escaped(text)
  {
    if text != [] {
      assert text == [text[0]] + text[1..];
      DisplayConcat([text[0]], text[1..]);
      DisplayOne(text[0]);
      DisplayIsEscape(text[1..]);
    }
  }

  /** Reads a displayed literal back. */
  function Unescaped(shown: string): string {
    if shown == [] then []
    else if shown[0] == '\\' && |shown| > 1 then
      [match shown[1] case 'r' => '\r' case 'n' => '\n' case 't' => '\t' case _ => shown[1]] + Unescaped(shown[2..])
    else [shown[0]] + Unescaped(shown[1..])
  }

  lemma {:induction false} UnescapeEscaped(text: string)
    ensures Unescaped(Escaped(text)) == text
  {
    if text != [] {
      var first, rest := EscapeOf(text[0]), Escaped(text[1..]);
      UnescapeEscaped(text[1..]);
      assert |first| == 2 ==> (first + rest)[2..] == rest;
      assert |first| == 1 ==> (first + rest)[1..] == rest;
    }
  }

  /** Distinct literals never display alike. */
  lemma DisplayInjective(a: string, b: string)
    requires LiteralDisplay(a) == LiteralDisplay(b)
    ensures a == b
  {
    DisplayIsEscape(a);
    DisplayIsEscape(b);
    UnescapeEscaped(a);
    UnescapeEscaped(b);
  }
}
