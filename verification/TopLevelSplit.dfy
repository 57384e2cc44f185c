/** `_split_top_level`: commas outside all brackets, with counters that never go
    below zero. */
module TopLevelSplit {
  import opened Sorting
  import Delimiters

  datatype Depths = Depths(paren: nat, bracket: nat, brace: nat, angle: nat) {
    predicate AtTop() { paren == 0 && bracket == 0 && brace == 0 && angle == 0 }
  }

  const TOP := Depths(0, 0, 0, 0)

  function Down(depth: nat): nat { if depth == 0 then 0 else depth - 1 }

  /** The counters after one character. */
  function Step(d: Depths, c: char): Depths {
    match c
    case '(' => d.(paren := d.paren + 1)
    case ')' => d.(paren := Down(d.paren))
    case '[' => d.(bracket := d.bracket + 1)
    case ']' => d.(bracket := Down(d.bracket))
    case '{' => d.(brace := d.brace + 1)
    case '}' => d.(brace := Down(d.brace))
    case '<' => d.(angle := d.angle + 1)
    case '>' => d.(angle := Down(d.angle))
    case _ => d
  }

  function DepthAfter(text: string, from: Depths): Depths {
    if text == [] then from else Step(DepthAfter(text[..|text| - 1], from), text[|text| - 1])
  }

  lemma {:induction false} DepthConcat(a: string, b: string, from: Depths)
    ensures DepthAfter(a + b, from) == DepthAfter(b, DepthAfter(a, from))
  {
    if b == [] {
      assert a + b == a;
    } else {
      var init := b[..|b| - 1];
      DepthConcat(a, init, from);
      assert (a + b)[..|a + b| - 1] == a + init;
    }
  }

  /** A comma at which all counters are zero. */
  predicate CutsAt(text: string, k: nat) {
    k < |text| && text[k] == ',' && DepthAfter(text[..k], TOP).AtTop()
  }

  /** The first cut at or after `k`, or the length of the text. */
  function FirstCutFrom(text: string, k: nat): (n: nat)
    requires k <= |text|
    ensures k <= n <= |text|
    decreases |text| - k
  {
    if k == |text| || CutsAt(text, k) then k else FirstCutFrom(text, k + 1)
  }

  lemma {:induction false} FirstCutFound(text: string, k: nat)
    requires k <= |text|
    ensures var n := FirstCutFrom(text, k);
      && (n < |text| ==> CutsAt(text, n))
      && forall j: nat | k <= j < n :: !CutsAt(text, j)
    decreases |text| - k
  {
    if k < |text| && !CutsAt(text, k) {
      FirstCutFound(text, k + 1);
    }
  }

  function FirstCut(text: string): nat { FirstCutFrom(text, 0) }

  /** The text up to its first cut, then the parts of what follows it. */
  function Parts(text: string): (parts: seq<string>)
    ensures parts != []
    decreases |text|
  {
    var n := FirstCut(text);
    if n == |text| then [text] else [text[..n]] + Parts(text[n + 1..])
  }

  function JoinCommas(parts: seq<string>): string {
    if parts == [] then [] else if |parts| == 1 then parts[0]
    else parts[0] + "," + JoinCommas(parts[1..])
  }

  lemma CutIs(text: string, n: nat)
    requires n <= |text| && (n < |text| ==> CutsAt(text, n))
    requires forall j: nat | j < n :: !CutsAt(text, j)
    ensures FirstCut(text) == n
  {
    FirstCutFound(text, 0);
  }

  /** After a cut the counters start again at zero. */
  lemma DepthAfterCut(text: string, n: nat, k: nat)
    requires CutsAt(text, n) && n + 1 + k <= |text|
    ensures DepthAfter(text[..n + 1 + k], TOP) == DepthAfter(text[n + 1..][..k], TOP)
  {
    var more := text[n + 1..][..k];
    assert text[..n + 1 + k] == text[..n] + ([','] + more);
    DepthConcat(text[..n], [','] + more, TOP);
    DepthConcat([','], more, TOP);
    assert DepthAfter([','], TOP) == Step(DepthAfter([','][..0], TOP), ',');
  }

  lemma CutsAfter(text: string, n: nat, k: nat)
    requires CutsAt(text, n)
    ensures CutsAt(text[n + 1..], k) <==> CutsAt(text, n + 1 + k)
  {
    if n + 1 + k < |text| {
      DepthAfterCut(text, n, k);
    }
  }

  /** Cuts before a position see only the text before it. */
  lemma CutsOfPrefix(text: string, n: nat, k: nat)
    requires k < n <= |text|
    ensures CutsAt(text[..n], k) <==> CutsAt(text, k)
  {
    assert text[..n][..k] == text[..k];
  }

  // ------------------------------------------ what the clamped counters mean

  /** `most` is the largest excess of openers over closers in any suffix. */
  ghost predicate LargestExcess(text: string, opening: char, closing: char, most: int) {
    && (forall k: nat | k <= |text| :: Delimiters.Nesting(text, opening, closing, k, |text|) <= most)
    && (exists k: nat :: k <= |text| && Delimiters.Nesting(text, opening, closing, k, |text|) == most)
  }

  lemma {:induction false} PrefixNesting(text: string, opening: char, closing: char, a: nat, k: nat, n: nat)
    requires a <= k <= n <= |text|
    ensures Delimiters.Nesting(text[..n], opening, closing, a, k) == Delimiters.Nesting(text, opening, closing, a, k)
    decreases k
  {
    if a < k {
      PrefixNesting(text, opening, closing, a, k - 1, n);
    }
  }

  /** A counter that goes up at openers and down at closers, never below zero, keeps
      the largest excess. */
  lemma ExcessStep(text: string, opening: char, closing: char, most: nat)
    requires text != [] && opening != closing && LargestExcess(text[..|text| - 1], opening, closing, most)
    ensures LargestExcess(text, opening, closing,
              if text[|text| - 1] == opening then most + 1 else if text[|text| - 1] == closing then Down(most) else most)
  {
    var n := |text| - 1;
    var init := text[..n];
    forall k: nat | k <= n
      ensures Delimiters.Nesting(text, opening, closing, k, |text|)
           == Delimiters.Nesting(init, opening, closing, k, n) + Delimiters.Weight(text[n], opening, closing)
    {
      PrefixNesting(text, opening, closing, k, n, n);
    }
    assert Delimiters.Nesting(text, opening, closing, |text|, |text|) == 0;
    var k: nat :| k <= n && Delimiters.Nesting(init, opening, closing, k, n) == most;
    assert Delimiters.Nesting(text, opening, closing, k, |text|) == most + Delimiters.Weight(text[n], opening, closing);
  }

  /** After a text each counter is the largest excess of its own brackets. */
  ghost predicate CountsExcess(text: string, d: Depths) {
    && LargestExcess(text, '(', ')', d.paren)
    && LargestExcess(text, '[', ']', d.bracket)
    && LargestExcess(text, '{', '}', d.brace)
    && LargestExcess(text, '<', '>', d.angle)
  }

  lemma EmptyExcess(opening: char, closing: char)
    ensures LargestExcess([], opening, closing, 0)
  {
    assert Delimiters.Nesting([], opening, closing, 0, 0) == 0;
  }

  lemma {:induction false} DepthsAreExcesses(text: string)
    ensures CountsExcess(text, DepthAfter(text, TOP))
  {
    if text == [] {
      EmptyExcess('(', ')');
      EmptyExcess('[', ']');
      EmptyExcess('{', '}');
      EmptyExcess('<', '>');
    } else {
      var init := text[..|text| - 1];
      DepthsAreExcesses(init);
      var d := DepthAfter(init, TOP);
      ExcessStep(text, '(', ')', d.paren);
      ExcessStep(text, '[', ']', d.bracket);
      ExcessStep(text, '{', '}', d.brace);
      ExcessStep(text, '<', '>', d.angle);
    }
  }

  /** Some suffix of the text has more openers than closers. */
  ghost predicate HasOpenSuffix(text: string, opening: char, closing: char) {
    exists k: nat :: k <= |text| && Delimiters.Nesting(text, opening, closing, k, |text|) > 0
  }

  /** No bracket of any kind is open at the end of the text. */
  ghost predicate NothingOpen(text: string) {
    && !HasOpenSuffix(text, '(', ')') && !HasOpenSuffix(text, '[', ']')
    && !HasOpenSuffix(text, '{', '}') && !HasOpenSuffix(text, '<', '>')
  }

  lemma ZeroExcessIff(text: string, opening: char, closing: char, most: nat)
    requires LargestExcess(text, opening, closing, most)
    ensures most == 0 <==> !HasOpenSuffix(text, opening, closing)
  {
  }

  lemma AtTopIffNothingOpen(text: string)
    ensures DepthAfter(text, TOP).AtTop() <==> NothingOpen(text)
  {
    DepthsAreExcesses(text);
    var d := DepthAfter(text, TOP);
    ZeroExcessIff(text, '(', ')', d.paren);
    ZeroExcessIff(text, '[', ']', d.bracket);
    ZeroExcessIff(text, '{', '}', d.brace);
    ZeroExcessIff(text, '<', '>', d.angle);
  }

  /** A comma before which no suffix has more openers than closers of any kind. */
  ghost predicate OuterComma(text: string, k: nat) {
    k < |text| && text[k] == ',' && NothingOpen(text[..k])
  }

  lemma CutsAreOuterCommas(text: string, k: nat)
    ensures CutsAt(text, k) <==> OuterComma(text, k)
  {
    if k < |text| {
      AtTopIffNothingOpen(text[..k]);
    }
  }

  // -------------------------------------------------------------- the loop

  lemma NextCharacter(text: string, start: nat, offset: nat)
    requires start <= offset < |text|
    ensures DepthAfter(text[start..offset + 1], TOP) == Step(DepthAfter(text[start..offset], TOP), text[offset])
    ensures CutsAt(text[start..], offset - start) <==> text[offset] == ',' && DepthAfter(text[start..offset], TOP).AtTop()
  {
    assert text[start..offset + 1][..offset - start] == text[start..offset];
    assert text[start..][..offset - start] == text[start..offset];
  }

  lemma CutHere(text: string, start: nat, offset: nat)
    requires start <= offset < |text| && CutsAt(text[start..], offset - start)
    requires forall j: nat | j < offset - start :: !CutsAt(text[start..], j)
    ensures Parts(text[start..]) == [text[start..offset]] + Parts(text[offset + 1..])
  {
    var rest := text[start..];
    CutIs(rest, offset - start);
    assert rest[..offset - start] == text[start..offset];
    assert rest[offset - start + 1..] == text[offset + 1..];
  }

  /** The state of the scan: finished parts, the open part's start, its counters. */
  ghost predicate ScanOk(text: string, parts: seq<string>, start: nat, offset: nat, depths: Depths) {
    && start <= offset <= |text|
    && parts + Parts(text[start..]) == Parts(text)
    && depths == DepthAfter(text[start..offset], TOP)
    && forall j: nat | j < offset - start :: !CutsAt(text[start..], j)
  }

  lemma ScanCut(text: string, parts: seq<string>, start: nat, offset: nat, depths: Depths)
    requires ScanOk(text, parts, start, offset, depths)
    requires offset < |text| && text[offset] == ',' && depths.AtTop()
    ensures ScanOk(text, parts + [text[start..offset]], offset + 1, offset + 1, depths)
  {
    NextCharacter(text, start, offset);
    CutHere(text, start, offset);
    Reassociate(parts, [text[start..offset]], Parts(text[offset + 1..]));
    assert text[offset + 1..offset + 1] == [];
  }

  lemma ScanStep(text: string, parts: seq<string>, start: nat, offset: nat, depths: Depths)
    requires ScanOk(text, parts, start, offset, depths)
    requires offset < |text| && !(text[offset] == ',' && depths.AtTop())
    ensures ScanOk(text, parts, start, offset + 1, Step(depths, text[offset]))
  {
    NextCharacter(text, start, offset);
  }

  lemma ScanEnd(text: string, parts: seq<string>, start: nat, depths: Depths)
    requires ScanOk(text, parts, start, |text|, depths)
    ensures parts + [text[start..]] == Parts(text)
  {
    CutIs(text[start..], |text| - start);
  }

  /** `_split_top_level`: four counters, a start offset and a part list. The parts are
      the text cut at exactly its outer commas. */
  method SplitTopLevel(text: string) returns (parts: seq<string>)
    ensures parts == Parts(text)
    ensures JoinCommas(parts) == text
    ensures forall k: nat :: IsBoundary(parts, k) <==> OuterComma(text, k)
  {
    parts := [];
    var start := 0;
    var depths := TOP;
    var offset := 0;
    assert text[0..] == text && text[0..0] == [];
    while offset < |text|
      invariant ScanOk(text, parts, start, offset, depths)
    {
      if text[offset] == ',' && depths.AtTop() {
        ScanCut(text, parts, start, offset, depths);
        parts := parts + [text[start..offset]];
        start := offset + 1;
      } else {
        ScanStep(text, parts, start, offset, depths);
        depths := Step(depths, text[offset]);
      }
      offset := offset + 1;
    }
    ScanEnd(text, parts, start, depths);
    parts := parts + [text[start..]];
    PartsJoin(text);
    forall k: nat ensures IsBoundary(parts, k) <==> OuterComma(text, k) {
      BoundariesAreCuts(text, k);
      CutsAreOuterCommas(text, k);
    }
  }

  // --------------------------------------------------------------- theorems

  /** Joining the parts with commas gives the input back. */
  lemma {:induction false} PartsJoin(text: string)
    ensures JoinCommas(Parts(text)) == text
    decreases |text|
  {
    var n := FirstCut(text);
    FirstCutFound(text, 0);
    if n < |text| {
      PartsJoin(text[n + 1..]);
      assert Parts(text)[1..] == Parts(text[n + 1..]);
      assert text == text[..n] + "," + text[n + 1..];
    }
  }

  /** Splitting a part again returns just that part. */
  lemma {:induction false} PartsStable(text: string, part: string)
    requires part in Parts(text)
    ensures Parts(part) == [part]
    decreases |text|
  {
    var n := FirstCut(text);
    FirstCutFound(text, 0);
    if part == text[..n] {
      forall j: nat | j < n ensures !CutsAt(part, j) {
        CutsOfPrefix(text, n, j);
      }
      CutIs(part, n);
    } else {
      PartsStable(text[n + 1..], part);
    }
  }

  lemma {:induction false} JoinSplit(parts: seq<string>, more: seq<string>)
    requires parts != [] && more != []
    ensures JoinCommas(parts + more) == JoinCommas(parts) + "," + JoinCommas(more)
  {
    if |parts| == 1 {
      assert (parts + more)[1..] == more;
    } else {
      JoinSplit(parts[1..], more);
      assert (parts + more)[1..] == parts[1..] + more;
    }
  }

  /** The offset at which the first `i` parts end. */
  function EndOf(parts: seq<string>, i: nat): nat
    requires i <= |parts|
  {
    |JoinCommas(parts[..i])|
  }

  lemma EndOfTail(parts: seq<string>, i: nat)
    requires 1 < i <= |parts|
    ensures EndOf(parts, i) == |parts[0]| + 1 + EndOf(parts[1..], i - 1)
  {
    assert parts[..i][1..] == parts[1..][..i - 1];
  }

  /** Some two consecutive parts are separated by the comma at `k`. */
  ghost predicate IsBoundary(parts: seq<string>, k: nat) {
    exists i | 0 < i < |parts| :: EndOf(parts, i) == k
  }

  lemma BoundaryStep(parts: seq<string>, k: nat)
    requires |parts| > 1
    ensures IsBoundary(parts, k) <==>
      k == |parts[0]| || (k > |parts[0]| && IsBoundary(parts[1..], k - |parts[0]| - 1))
  {
    var n := |parts[0]|;
    assert EndOf(parts, 1) == n by {
      assert parts[..1] == [parts[0]];
    }
    if i :| 1 < i < |parts| && EndOf(parts, i) == k {
      EndOfTail(parts, i);
      assert EndOf(parts[1..], i - 1) == k - n - 1;
    }
    if k > n {
      if i :| 0 < i < |parts[1..]| && EndOf(parts[1..], i) == k - n - 1 {
        EndOfTail(parts, i + 1);
        assert EndOf(parts, i + 1) == k;
      }
    }
  }

  lemma PartsStep(text: string, n: nat, head: string, rest: string)
    requires n < |text| && FirstCut(text) == n && text[..n] == head && text[n + 1..] == rest
    ensures Parts(text) == [head] + Parts(rest) && Parts(text)[0] == head && Parts(text)[1..] == Parts(rest)
  {
  }

  /** The boundaries between parts are exactly the cuts. */
  lemma {:induction false} BoundariesAreCuts(text: string, k: nat)
    ensures CutsAt(text, k) <==> IsBoundary(Parts(text), k)
    decreases |text|
  {
    var n := FirstCut(text);
    FirstCutFound(text, 0);
    if n < |text| {
      PartsStep(text, n, text[..n], text[n + 1..]);
      BoundaryStep(Parts(text), k);
      if n < k {
        BoundariesAreCuts(text[n + 1..], k - n - 1);
        CutsAfter(text, n, k - n - 1);
      }
    }
  }

  lemma RestAtTop(a: string, n: nat)
    requires CutsAt(a, n) && DepthAfter(a, TOP).AtTop()
    ensures DepthAfter(a[n + 1..], TOP).AtTop()
  {
    DepthAfterCut(a, n, |a| - n - 1);
    assert a[..|a|] == a && a[n + 1..][..|a| - n - 1] == a[n + 1..];
  }

  /** `text` is `a`, a comma, then `b`. */
  predicate Joined(text: string, a: string, b: string) {
    |text| == |a| + 1 + |b| && text[..|a|] == a && text[|a|] == ',' && text[|a| + 1..] == b
  }

  lemma JoinedRest(text: string, a: string, b: string, n: nat)
    requires Joined(text, a, b) && n < |a|
    ensures text[..n] == a[..n] && Joined(text[n + 1..], a[n + 1..], b)
  {
  }

  lemma FirstCutOfJoined(text: string, a: string, b: string)
    requires Joined(text, a, b) && DepthAfter(a, TOP).AtTop()
    ensures FirstCut(text) == FirstCut(a)
  {
    var n := FirstCut(a);
    FirstCutFound(a, 0);
    assert CutsAt(text, |a|);
    forall j: nat | j < |a| ensures CutsAt(text, j) <==> CutsAt(a, j) {
      CutsOfPrefix(text, |a|, j);
    }
    CutIs(text, n);
  }

  lemma {:induction false} SplitAtCut(text: string, a: string, b: string)
    requires Joined(text, a, b) && DepthAfter(a, TOP).AtTop()
    ensures Parts(text) == Parts(a) + Parts(b)
    decreases |a|
  {
    var n := FirstCut(a);
    FirstCutOfJoined(text, a, b);
    if n < |a| {
      FirstCutFound(a, 0);
      RestAtTop(a, n);
      JoinedRest(text, a, b, n);
      SplitAtCut(text[n + 1..], a[n + 1..], b);
      PartsStep(a, n, a[..n], a[n + 1..]);
      PartsStep(text, n, a[..n], text[n + 1..]);
      Reassociate([a[..n]], Parts(a[n + 1..]), Parts(b));
    } else {
      PartsStep(text, n, a, b);
    }
  }

  /** Splitting a + "," + b is the concatenation of both splits exactly when no suffix
      of a has more openers than closers of any kind. */
  lemma SplitConcatIff(a: string, b: string)
    ensures Parts(a + "," + b) == Parts(a) + Parts(b) <==> NothingOpen(a)
  {
    AtTopIffNothingOpen(a);
    var text := a + "," + b;
    assert Joined(text, a, b);
    if DepthAfter(a, TOP).AtTop() {
      SplitAtCut(text, a, b);
    } else if Parts(text) == Parts(a) + Parts(b) {
      PartsJoin(a);
      SharedBoundary(text, Parts(a), Parts(b));
    }
  }

  lemma SharedBoundary(text: string, parts: seq<string>, more: seq<string>)
    requires Parts(text) == parts + more && parts != [] && more != []
    ensures CutsAt(text, |JoinCommas(parts)|)
  {
    assert (parts + more)[..|parts|] == parts;
    assert EndOf(parts + more, |parts|) == |JoinCommas(parts)|;
    BoundariesAreCuts(text, |JoinCommas(parts)|);
  }
}
