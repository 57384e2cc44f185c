/** The text of a unit id: quoted parts between delimiters, so that equal ids mean equal
    parts. */
module UnitIds {
  import opened Sorting
  import opened SourceText
  import opened ChangeModel
  import opened FileAnalysis
  import opened ReviewUnits

  // ---------------------------------------------------------------- numbers

  function Digit(n: nat): char
    requires n < 10
  {
    "0123456789"[n]
  }

  function Decimal(n: nat): string {
    if n < 10 then [Digit(n)] else Decimal(n / 10) + [Digit(n % 10)]
  }

  predicate IsDigit(c: char) { '0' <= c <= '9' }

  lemma {:induction false} DecimalDigits(n: nat)
    ensures Decimal(n) != [] && forall i | 0 <= i < |Decimal(n)| :: IsDigit(Decimal(n)[i])
  {
    if n >= 10 {
      DecimalDigits(n / 10);
    }
  }

  lemma DecimalLength(n: nat)
    ensures |Decimal(n)| == 1 <==> n < 10
  {
    DecimalDigits(n / 10);
  }

  lemma DigitInjective(m: nat, n: nat)
    requires m < 10 && n < 10 && Digit(m) == Digit(n)
    ensures m == n
  {
  }

  lemma {:induction false} DecimalInjective(m: nat, n: nat)
    requires Decimal(m) == Decimal(n)
    ensures m == n
  {
    DecimalLength(m);
    DecimalLength(n);
    var s := Decimal(m);
    if m < 10 {
      assert Digit(m) == s[0] == Digit(n);
      DigitInjective(m, n);
    } else {
      assert Decimal(m / 10) == s[..|s| - 1] == Decimal(n / 10);
      DecimalInjective(m / 10, n / 10);
      assert Digit(m % 10) == s[|s| - 1] == Digit(n % 10);
      DigitInjective(m % 10, n % 10);
    }
  }

  // ---------------------------------------------------------------- quoting

  /** The UTF-8 bytes of a character. */
  function Utf8(c: char): (bytes: seq<nat>)
    ensures bytes != [] && forall i | 0 <= i < |bytes| :: bytes[i] < 256
  {
    var n := c as int;
    if n < 0x80 then [n]
    else if n < 0x800 then [0xC0 + n / 0x40, 0x80 + n % 0x40]
    else if n < 0x1_0000 then [0xE0 + n / 0x1000, 0x80 + n / 0x40 % 0x40, 0x80 + n % 0x40]
    else [0xF0 + n / 0x4_0000, 0x80 + n / 0x1000 % 0x40, 0x80 + n / 0x40 % 0x40, 0x80 + n % 0x40]
  }

  /** How many bytes follow from the first one. */
  function Utf8Size(first: nat): nat {
    if first < 0x80 then 1 else if first < 0xE0 then 2 else if first < 0xF0 then 3 else 4
  }

  /** The code point of well-formed bytes. */
  function FromUtf8(bytes: seq<int>): int {
    if |bytes| == 1 then bytes[0]
    else if |bytes| == 2 then (bytes[0] - 0xC0) * 0x40 + (bytes[1] - 0x80)
    else if |bytes| == 3 then ((bytes[0] - 0xE0) * 0x40 + (bytes[1] - 0x80)) * 0x40 + (bytes[2] - 0x80)
    else if |bytes| == 4 then (((bytes[0] - 0xF0) * 0x40 + (bytes[1] - 0x80)) * 0x40 + (bytes[2] - 0x80)) * 0x40 + (bytes[3] - 0x80)
    else 0
  }

  lemma DivTwice(n: nat)
    ensures n / 0x1000 == n / 0x40 / 0x40 && n / 0x4_0000 == n / 0x40 / 0x40 / 0x40
    ensures n / 0x40 * 0x40 + n % 0x40 == n
  {
  }

  lemma Utf8Decodes(c: char)
    ensures FromUtf8(Utf8(c)) == c as int
  {
    DivTwice(c as int);
    DivTwice(c as int / 0x40);
    DivTwice(c as int / 0x1000);
  }

  lemma Utf8Injective(c: char, d: char)
    requires Utf8(c) == Utf8(d)
    ensures c == d
  {
    Utf8Decodes(c);
    Utf8Decodes(d);
  }

  lemma Utf8Length(c: char)
    ensures |Utf8(c)| == Utf8Size(Utf8(c)[0])
  {
  }

  function Percent(byte: nat): string
    requires byte < 256
  {
    ['%', "0123456789ABCDEF"[byte / 16], "0123456789ABCDEF"[byte % 16]]
  }

  lemma HexInjective(m: nat, n: nat)
    requires m < 16 && n < 16 && "0123456789ABCDEF"[m] == "0123456789ABCDEF"[n]
    ensures m == n
  {
  }

  lemma PercentInjective(a: nat, b: nat, x: string, y: string)
    requires a < 256 && b < 256 && Percent(a) + x == Percent(b) + y
    ensures a == b && x == y
  {
    var p, q := Percent(a) + x, Percent(b) + y;
    assert p[1] == Percent(a)[1] && q[1] == Percent(b)[1] && p[2] == Percent(a)[2] && q[2] == Percent(b)[2];
    HexInjective(a / 16, b / 16);
    HexInjective(a % 16, b % 16);
    assert p[3..] == x && q[3..] == y;
  }

  function Percents(bytes: seq<nat>): string
    requires forall i | 0 <= i < |bytes| :: bytes[i] < 256
  {
    if bytes == [] then [] else Percent(bytes[0]) + Percents(bytes[1..])
  }

  lemma {:induction false} PercentsInjective(a: seq<nat>, b: seq<nat>, x: string, y: string)
    requires (forall i | 0 <= i < |a| :: a[i] < 256) && forall i | 0 <= i < |b| :: b[i] < 256
    requires |a| == |b| && Percents(a) + x == Percents(b) + y
    ensures a == b && x == y
  {
    if a == [] {
      assert Percents(a) + x == x && Percents(b) + y == y;
    } else {
      assert Percents(a) + x == Percent(a[0]) + (Percents(a[1..]) + x);
      assert Percents(b) + y == Percent(b[0]) + (Percents(b[1..]) + y);
      PercentInjective(a[0], b[0], Percents(a[1..]) + x, Percents(b[1..]) + y);
      PercentsInjective(a[1..], b[1..], x, y);
      assert a == [a[0]] + a[1..] && b == [b[0]] + b[1..];
    }
  }

  /** What `quote` leaves alone; paths keep their slashes. */
  predicate IsSafe(c: char, path: bool) {
    || 'a' <= c <= 'z' || 'A' <= c <= 'Z' || '0' <= c <= '9'
    || c == '.' || c == '_' || c == '-' || c == '$' || c == '~' || (path && c == '/')
  }

  function QuoteChar(c: char, path: bool): string {
    if IsSafe(c, path) then [c] else Percents(Utf8(c))
  }

  /** `_identity_component`: `quote` of a part. */
  function Quote(text: string, path: bool): string {
    if text == [] then [] else QuoteChar(text[0], path) + Quote(text[1..], path)
  }

  lemma PercentsFirst(bytes: seq<nat>, rest: string)
    requires bytes != [] && forall i | 0 <= i < |bytes| :: bytes[i] < 256
    ensures Percents(bytes) + rest == Percent(bytes[0]) + (Percents(bytes[1..]) + rest)
    ensures Percents(bytes) != [] && (Percents(bytes) + rest)[0] == '%'
  {
    var first, more := Percent(bytes[0]), Percents(bytes[1..]);
    assert Percents(bytes) == first + more;
    Regroup(first, more, rest);
  }

  lemma Regroup(a: string, b: string, c: string)
    requires a != []
    ensures a + b + c == a + (b + c) && a + b != [] && (a + b + c)[0] == a[0]
  {
  }

  /** The first character tells whether the quoted one was safe. */
  lemma QuoteCharFirst(c: char, path: bool, rest: string)
    ensures QuoteChar(c, path) != [] && ((QuoteChar(c, path) + rest)[0] == '%' <==> !IsSafe(c, path))
  {
    PercentsFirst(Utf8(c), rest);
  }

  lemma EncodedInjective(c: char, d: char, x: string, y: string)
    requires Percents(Utf8(c)) + x == Percents(Utf8(d)) + y
    ensures c == d && x == y
  {
    PercentsFirst(Utf8(c), x);
    PercentsFirst(Utf8(d), y);
    PercentInjective(Utf8(c)[0], Utf8(d)[0], Percents(Utf8(c)[1..]) + x, Percents(Utf8(d)[1..]) + y);
    Utf8Length(c);
    Utf8Length(d);
    PercentsInjective(Utf8(c), Utf8(d), x, y);
    Utf8Injective(c, d);
  }

  lemma QuoteCharInjective(c: char, d: char, path: bool, x: string, y: string)
    requires QuoteChar(c, path) + x == QuoteChar(d, path) + y
    ensures c == d && x == y
  {
    QuoteCharFirst(c, path, x);
    QuoteCharFirst(d, path, y);
    if IsSafe(c, path) {
      assert ([c] + x)[0] == c && ([c] + x)[1..] == x;
      assert ([d] + y)[0] == d && ([d] + y)[1..] == y;
    } else {
      EncodedInjective(c, d, x, y);
    }
  }

  lemma QuoteEmpty(text: string, path: bool)
    ensures Quote(text, path) == [] <==> text == []
  {
    if text != [] {
      QuoteCharFirst(text[0], path, []);
    }
  }

  lemma {:induction false} QuoteInjective(a: string, b: string, path: bool)
    requires Quote(a, path) == Quote(b, path)
    ensures a == b
  {
    QuoteEmpty(a, path);
    QuoteEmpty(b, path);
    if a != [] {
      QuoteCharInjective(a[0], b[0], path, Quote(a[1..], path), Quote(b[1..], path));
      QuoteInjective(a[1..], b[1..], path);
      assert a == [a[0]] + a[1..] && b == [b[0]] + b[1..];
    }
  }

  /** Neither delimiter occurs in the text. */
  predicate Plain(text: string) { forall i | 0 <= i < |text| :: text[i] != ':' && text[i] != '@' }

  lemma PlainConcat(a: string, b: string)
    requires Plain(a) && Plain(b)
    ensures Plain(a + b)
  {
  }

  lemma {:induction false} PercentsPlain(bytes: seq<nat>)
    requires forall i | 0 <= i < |bytes| :: bytes[i] < 256
    ensures Plain(Percents(bytes))
  {
    if bytes != [] {
      PercentsPlain(bytes[1..]);
      assert Plain("0123456789ABCDEF");
      PlainConcat(Percent(bytes[0]), Percents(bytes[1..]));
    }
  }

  lemma {:induction false} QuotePlain(text: string, path: bool)
    ensures Plain(Quote(text, path))
  {
    if text != [] {
      QuotePlain(text[1..], path);
      PercentsPlain(Utf8(text[0]));
      PlainConcat(QuoteChar(text[0], path), Quote(text[1..], path));
    }
  }

  /** Safe texts, such as unit kinds, are left as they are. */
  lemma {:induction false} SafeKept(text: string)
    requires forall i | 0 <= i < |text| :: IsSafe(text[i], false)
    ensures Quote(text, false) == text
  {
    if text != [] {
      assert IsSafe(text[0], false) && forall i | 0 <= i < |text[1..]| :: text[1..][i] == text[i + 1];
      SafeKept(text[1..]);
    }
  }

  /** Lower-case letters and underscores only. */
  predicate IsWord(text: string) { forall i | 0 <= i < |text| :: 'a' <= text[i] <= 'z' || text[i] == '_' }

  lemma KindsAreWords()
    ensures IsWord("struct") && IsWord("class") && IsWord("function") && IsWord("method") && IsWord("build_method")
    ensures IsWord("builder") && IsWord("ui_block") && IsWord("field_region") && IsWord("import_region") && IsWord("fallback")
  {
  }

  /** Unit kinds are words, so quoting leaves them as they are. */
  lemma WordKept(word: string)
    requires IsWord(word)
    ensures Quote(word, false) == word
  {
    SafeKept(word);
  }

  // -------------------------------------------------------------------- parts

  /** The texts with ":" between them. */
  function JoinColons(parts: seq<string>): string {
    if parts == [] then [] else if |parts| == 1 then parts[0] else parts[0] + ":" + JoinColons(parts[1..])
  }

  predicate AllPlain(parts: seq<string>) { forall i | 0 <= i < |parts| :: Plain(parts[i]) }

  /** A plain text before a delimiter is found again. */
  lemma FirstPart(a: string, b: string, x: string, y: string, c: char)
    requires Plain(a) && Plain(b) && (c == ':' || c == '@') && a + ([c] + x) == b + ([c] + y)
    ensures a == b && x == y
  {
    var p, q := a + ([c] + x), b + ([c] + y);
    assert forall i | 0 <= i < |a| :: p[i] != c;
    assert forall i | 0 <= i < |b| :: q[i] != c;
    assert p[|a|] == c && q[|b|] == c;
    assert |a| == |b|;
    assert p[..|a|] == a && q[..|b|] == b;
    assert p[|a| + 1..] == x && q[|b| + 1..] == y;
  }

  lemma PlainIffOne(parts: seq<string>)
    requires parts != [] && AllPlain(parts)
    ensures Plain(JoinColons(parts)) <==> |parts| == 1
  {
    if |parts| > 1 {
      assert JoinColons(parts)[|parts[0]|] == ':';
    }
  }

  lemma {:induction false} JoinColonsInjective(a: seq<string>, b: seq<string>)
    requires a != [] && b != [] && AllPlain(a) && AllPlain(b) && JoinColons(a) == JoinColons(b)
    ensures a == b
  {
    PlainIffOne(a);
    PlainIffOne(b);
    if |a| > 1 {
      assert JoinColons(a) == a[0] + ([':'] + JoinColons(a[1..])) && JoinColons(b) == b[0] + ([':'] + JoinColons(b[1..]));
      FirstPart(a[0], b[0], JoinColons(a[1..]), JoinColons(b[1..]), ':');
      JoinColonsInjective(a[1..], b[1..]);
      assert a == [a[0]] + a[1..] && b == [b[0]] + b[1..];
    }
  }

  // ---------------------------------------------------------------------- ids

  /** Two numbers after letters: "L3-L5", "O10-20". */
  function Pair(first: string, m: nat, second: string, n: nat): string {
    first + Decimal(m) + "-" + second + Decimal(n)
  }

  /** The hexadecimal digits at the end of a source id, as a parameter. */
  type Digest = string -> string

  ghost predicate SoundDigest(digest: Digest) {
    && (forall a, b | digest(a) == digest(b) :: a == b)
    && (forall a :: Plain(digest(a)))
  }

  function RoleText(role: Side): string {
    match role case Base => "base" case Head => "head"
  }

  /** `_with_source_identity`. */
  function ScopeParts(digest: Digest, scope: Option<Scope>): seq<string> {
    match scope case None => [] case Some(s) => ["R" + RoleText(s.role), "S" + digest(s.refId)]
  }

  /** `declaration_unit_id` and `fallback_unit_id`, after the path. */
  function IdParts(digest: Digest, i: Identity, scope: Option<Scope>): seq<string> {
    var span := SpanPart("L", i.sourceSpan);
    if i.kind == "fallback" then
      ["fallback", "fallback", span, SpanPart("C", i.contextSpan)] + ScopeParts(digest, scope)
    else
      [Quote(i.kind, false), Quote(i.symbol, false), span]
      + OffsetParts(i.offsets) + ScopeParts(digest, scope)
  }

  function UnitId(digest: Digest): Naming {
    (i: Identity, scope: Option<Scope>) => Quote(i.file, true) + "@" + JoinColons(IdParts(digest, i, scope))
  }

  lemma DigitsPlain(n: nat)
    ensures Plain(Decimal(n)) && forall i | 0 <= i < |Decimal(n)| :: Decimal(n)[i] != '-'
  {
    DecimalDigits(n);
  }

  lemma PairPlain(first: string, m: nat, second: string, n: nat)
    requires Plain(first) && Plain(second)
    ensures Plain(Pair(first, m, second, n))
  {
    DigitsPlain(m);
    DigitsPlain(n);
  }

  /** Two numbers after the same letters are read back. */
  lemma PairInjective(first: string, second: string, m: nat, n: nat, k: nat, l: nat)
    requires Pair(first, m, second, n) == Pair(first, k, second, l)
    ensures m == k && n == l
  {
    var a, b := Decimal(m), Decimal(k);
    var x, y := second + Decimal(n), second + Decimal(l);
    DigitsPlain(m);
    DigitsPlain(k);
    var p, q := Pair(first, m, second, n), Pair(first, k, second, l);
    assert p[|first|..] == a + (['-'] + x) && q[|first|..] == b + (['-'] + y);
    BeforeDash(a, b, x, y);
    DecimalInjective(m, k);
    assert x[|second|..] == Decimal(n) && y[|second|..] == Decimal(l);
    DecimalInjective(n, l);
  }

  lemma BeforeDash(a: string, b: string, x: string, y: string)
    requires (forall i | 0 <= i < |a| :: a[i] != '-') && (forall i | 0 <= i < |b| :: b[i] != '-')
    requires a + (['-'] + x) == b + (['-'] + y)
    ensures a == b && x == y
  {
    var p, q := a + (['-'] + x), b + (['-'] + y);
    assert forall i | 0 <= i < |a| :: p[i] != '-';
    assert forall i | 0 <= i < |b| :: q[i] != '-';
    assert p[|a|] == '-' && q[|b|] == '-';
    assert |a| == |b|;
    assert p[..|a|] == a && q[..|b|] == b;
    assert p[|a| + 1..] == x && q[|b| + 1..] == y;
  }

  lemma ScopePartsPlain(digest: Digest, scope: Option<Scope>)
    requires SoundDigest(digest)
    ensures AllPlain(ScopeParts(digest, scope))
  {
    assert Plain("Rbase") && Plain("Rhead");
    if scope.Some? {
      assert "R" + RoleText(Base) == "Rbase" && "R" + RoleText(Head) == "Rhead";
      PlainConcat("S", digest(scope.value.refId));
    }
  }

  lemma ScopePartsInjective(digest: Digest, s: Option<Scope>, t: Option<Scope>)
    requires SoundDigest(digest) && ScopeParts(digest, s) == ScopeParts(digest, t)
    ensures s == t
  {
    assert |ScopeParts(digest, s)| == |ScopeParts(digest, t)|;
    if s.Some? {
      var p, q := ScopeParts(digest, s), ScopeParts(digest, t);
      assert p[0][1..] == RoleText(s.value.role) && q[0][1..] == RoleText(t.value.role);
      assert "base" != "head" by {
        assert "base"[0] != "head"[0];
      }
      assert p[1][1..] == digest(s.value.refId) && q[1][1..] == digest(t.value.refId);
    }
  }

  function OffsetParts(offsets: Option<(nat, nat)>): seq<string> {
    match offsets case None => [] case Some(o) => [Pair("O", o.0, "", o.1)]
  }

  lemma OffsetPartsPlain(offsets: Option<(nat, nat)>)
    ensures AllPlain(OffsetParts(offsets))
  {
    if offsets.Some? {
      PairPlain("O", offsets.value.0, "", offsets.value.1);
    }
  }

  lemma AllPlainConcat(a: seq<string>, b: seq<string>)
    requires AllPlain(a) && AllPlain(b)
    ensures AllPlain(a + b)
  {
  }

  function SpanPart(letter: string, span: LineSpan): string { Pair(letter, span.startLine, "L", span.endLine) }

  lemma SpanPartPlain(span: LineSpan)
    ensures Plain(SpanPart("L", span)) && Plain(SpanPart("C", span))
  {
    PairPlain("L", span.startLine, "L", span.endLine);
    PairPlain("C", span.startLine, "L", span.endLine);
  }

  lemma FallbackPartsPlain(i: Identity)
    ensures AllPlain(["fallback", "fallback", SpanPart("L", i.sourceSpan), SpanPart("C", i.contextSpan)])
  {
    SpanPartPlain(i.sourceSpan);
    SpanPartPlain(i.contextSpan);
    assert Plain("fallback");
  }

  lemma DeclaredPartsPlain(i: Identity)
    ensures AllPlain([Quote(i.kind, false), Quote(i.symbol, false), SpanPart("L", i.sourceSpan)] + OffsetParts(i.offsets))
  {
    SpanPartPlain(i.sourceSpan);
    QuotePlain(i.kind, false);
    QuotePlain(i.symbol, false);
    OffsetPartsPlain(i.offsets);
    AllPlainConcat([Quote(i.kind, false), Quote(i.symbol, false), SpanPart("L", i.sourceSpan)], OffsetParts(i.offsets));
  }

  lemma IdPartsPlain(digest: Digest, i: Identity, scope: Option<Scope>)
    requires SoundDigest(digest)
    ensures IdParts(digest, i, scope) != [] && AllPlain(IdParts(digest, i, scope))
  {
    ScopePartsPlain(digest, scope);
    if i.kind == "fallback" {
      FallbackPartsPlain(i);
      AllPlainConcat(["fallback", "fallback", SpanPart("L", i.sourceSpan), SpanPart("C", i.contextSpan)], ScopeParts(digest, scope));
    } else {
      DeclaredPartsPlain(i);
      AllPlainConcat([Quote(i.kind, false), Quote(i.symbol, false), SpanPart("L", i.sourceSpan)] + OffsetParts(i.offsets), ScopeParts(digest, scope));
    }
  }

  lemma SpanInjective(letter: string, a: LineSpan, b: LineSpan)
    requires SpanPart(letter, a) == SpanPart(letter, b)
    ensures a == b
  {
    PairInjective(letter, "L", a.startLine, a.endLine, b.startLine, b.endLine);
  }

  lemma OffsetsInjective(a: Option<(nat, nat)>, b: Option<(nat, nat)>)
    requires OffsetParts(a) == OffsetParts(b)
    ensures a == b
  {
    assert |OffsetParts(a)| == |OffsetParts(b)|;
    if a.Some? {
      assert OffsetParts(a)[0] == OffsetParts(b)[0];
      PairInjective("O", "", a.value.0, a.value.1, b.value.0, b.value.1);
    }
  }

  lemma KindFirst(digest: Digest, i: Identity, scope: Option<Scope>)
    ensures IdParts(digest, i, scope) != [] && IdParts(digest, i, scope)[0] == Quote(i.kind, false)
  {
    KindsAreWords();
    WordKept("fallback");
  }

  lemma FallbackPartsInjective(digest: Digest, i: Identity, j: Identity, s: Option<Scope>, t: Option<Scope>)
    requires SoundDigest(digest) && i.kind == "fallback" && j.kind == "fallback"
    requires IdParts(digest, i, s) == IdParts(digest, j, t)
    ensures i.sourceSpan == j.sourceSpan && i.contextSpan == j.contextSpan && s == t
  {
    var p, q := IdParts(digest, i, s), IdParts(digest, j, t);
    assert p[2] == SpanPart("L", i.sourceSpan) && q[2] == SpanPart("L", j.sourceSpan);
    assert p[3] == SpanPart("C", i.contextSpan) && q[3] == SpanPart("C", j.contextSpan);
    SpanInjective("L", i.sourceSpan, j.sourceSpan);
    SpanInjective("C", i.contextSpan, j.contextSpan);
    assert p[4..] == ScopeParts(digest, s) && q[4..] == ScopeParts(digest, t);
    ScopePartsInjective(digest, s, t);
  }

  lemma HeadsAndTails(p: seq<string>, q: seq<string>, x: seq<string>, y: seq<string>)
    requires |p| == |q| && p + x == q + y
    ensures p == q && x == y
  {
    assert p == (p + x)[..|p|] && q == (q + y)[..|q|];
    assert x == (p + x)[|p|..] && y == (q + y)[|q|..];
  }

  function DeclaredHead(i: Identity): seq<string> { [Quote(i.kind, false), Quote(i.symbol, false), SpanPart("L", i.sourceSpan)] }

  lemma DeclaredSplit(digest: Digest, i: Identity, s: Option<Scope>)
    requires i.kind != "fallback"
    ensures IdParts(digest, i, s) == DeclaredHead(i) + (OffsetParts(i.offsets) + ScopeParts(digest, s))
  {
  }

  lemma DeclaredHeadsInjective(i: Identity, j: Identity)
    requires DeclaredHead(i) == DeclaredHead(j)
    ensures i.symbol == j.symbol && i.sourceSpan == j.sourceSpan
  {
    assert DeclaredHead(i)[1] == DeclaredHead(j)[1] && DeclaredHead(i)[2] == DeclaredHead(j)[2];
    QuoteInjective(i.symbol, j.symbol, false);
    SpanInjective("L", i.sourceSpan, j.sourceSpan);
  }

  lemma DeclaredPartsInjective(digest: Digest, i: Identity, j: Identity, s: Option<Scope>, t: Option<Scope>)
    requires SoundDigest(digest) && i.kind != "fallback" && j.kind != "fallback"
    requires IdParts(digest, i, s) == IdParts(digest, j, t)
    ensures i.symbol == j.symbol && i.sourceSpan == j.sourceSpan && i.offsets == j.offsets && s == t
  {
    DeclaredSplit(digest, i, s);
    DeclaredSplit(digest, j, t);
    HeadsAndTails(DeclaredHead(i), DeclaredHead(j), OffsetParts(i.offsets) + ScopeParts(digest, s), OffsetParts(j.offsets) + ScopeParts(digest, t));
    DeclaredHeadsInjective(i, j);
    TailsInjective(digest, i.offsets, j.offsets, s, t);
  }

  /** The length of the tail tells which of offsets and scope it holds. */
  lemma TailsInjective(digest: Digest, a: Option<(nat, nat)>, b: Option<(nat, nat)>, s: Option<Scope>, t: Option<Scope>)
    requires SoundDigest(digest) && OffsetParts(a) + ScopeParts(digest, s) == OffsetParts(b) + ScopeParts(digest, t)
    ensures a == b && s == t
  {
    var p, q := OffsetParts(a) + ScopeParts(digest, s), OffsetParts(b) + ScopeParts(digest, t);
    assert |p| == |q|;
    var n := |OffsetParts(a)|;
    assert n == |OffsetParts(b)|;
    assert p[..n] == OffsetParts(a) && q[..n] == OffsetParts(b) && p[n..] == ScopeParts(digest, s) && q[n..] == ScopeParts(digest, t);
    OffsetsInjective(a, b);
    ScopePartsInjective(digest, s, t);
  }

  lemma PartsInjective(digest: Digest, i: Identity, j: Identity, s: Option<Scope>, t: Option<Scope>)
    requires SoundDigest(digest) && IdParts(digest, i, s) == IdParts(digest, j, t) && i.file == j.file
    ensures NameOf(i) == NameOf(j) && s == t
  {
    KindFirst(digest, i, s);
    KindFirst(digest, j, t);
    QuoteInjective(i.kind, j.kind, false);
    if i.kind == "fallback" {
      FallbackPartsInjective(digest, i, j, s, t);
    } else {
      DeclaredPartsInjective(digest, i, j, s, t);
    }
  }

  /** Path and parts are read back from an id. */
  lemma IdSplits(a: string, b: string, p: seq<string>, q: seq<string>)
    requires p != [] && q != [] && AllPlain(p) && AllPlain(q)
    requires Quote(a, true) + "@" + JoinColons(p) == Quote(b, true) + "@" + JoinColons(q)
    ensures a == b && p == q
  {
    QuotePlain(a, true);
    QuotePlain(b, true);
    AtSplits(Quote(a, true), Quote(b, true), JoinColons(p), JoinColons(q));
    QuoteInjective(a, b, true);
    JoinColonsInjective(p, q);
  }

  lemma AtSplits(a: string, b: string, x: string, y: string)
    requires Plain(a) && Plain(b) && a + "@" + x == b + "@" + y
    ensures a == b && x == y
  {
    assert a + "@" + x == a + (['@'] + x) && b + "@" + y == b + (['@'] + y);
    FirstPart(a, b, x, y, '@');
  }

  lemma IdsInjective(digest: Digest, i: Identity, j: Identity, s: Option<Scope>, t: Option<Scope>)
    requires SoundDigest(digest) && UnitId(digest)(i, s) == UnitId(digest)(j, t)
    ensures NameOf(i) == NameOf(j) && s == t
  {
    IdPartsPlain(digest, i, s);
    IdPartsPlain(digest, j, t);
    IdSplits(i.file, j.file, IdParts(digest, i, s), IdParts(digest, j, t));
    PartsInjective(digest, i, j, s, t);
  }

  lemma NamesGiveIds(digest: Digest, i: Identity, j: Identity, s: Option<Scope>)
    requires NameOf(i) == NameOf(j)
    ensures UnitId(digest)(i, s) == UnitId(digest)(j, s)
  {
    assert i.file == j.file;
    assert IdParts(digest, i, s) == IdParts(digest, j, s);
  }

  /** Ids as the builder writes them are equal exactly for equal spelled-out parts of
      one role and source. */
  lemma UnitIdsAreSound(digest: Digest)
    requires SoundDigest(digest)
    ensures SoundNaming(UnitId(digest))
  {
    forall i, j, s, t ensures UnitId(digest)(i, s) == UnitId(digest)(j, t) <==> NameOf(i) == NameOf(j) && s == t {
      if UnitId(digest)(i, s) == UnitId(digest)(j, t) {
        IdsInjective(digest, i, j, s, t);
      }
      if NameOf(i) == NameOf(j) && s == t {
        NamesGiveIds(digest, i, j, s);
      }
    }
  }
}
