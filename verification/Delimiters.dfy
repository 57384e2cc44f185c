/** `_delimiter_pairs`: stack matching of one kind of delimiter in any text. */
module Delimiters {

  type Span = (nat, nat)

  type Pairs = map<nat, Span>

  function Weight(c: char, opening: char, closing: char): int {
    if c == opening then 1 else if c == closing then -1 else 0
  }

  /** Openers minus closers in source[s..k]. */
  function Nesting(source: string, opening: char, closing: char, s: nat, k: nat): int
    requires s <= k <= |source|
    decreases k
  {
    if s == k then 0
    else Nesting(source, opening, closing, s, k - 1) + Weight(source[k - 1], opening, closing)
  }

  lemma {:induction false} NestingSplit(source: string, opening: char, closing: char, a: nat, b: nat, c: nat)
    requires a <= b <= c <= |source|
    ensures Nesting(source, opening, closing, a, c) ==
      Nesting(source, opening, closing, a, b) + Nesting(source, opening, closing, b, c)
    decreases c
  {
    if b < c {
      NestingSplit(source, opening, closing, a, b, c - 1);
    }
  }

  /** The nesting opened at `s` has not returned to zero anywhere up to `k`. */
  predicate OpenTo(source: string, opening: char, closing: char, s: nat, k: nat) {
    && s < k <= |source| && source[s] == opening
    && forall m | s < m <= k :: Nesting(source, opening, closing, s, m) > 0
  }

  /** `e` is the first later position where the nesting opened at `s` returns to zero. */
  predicate Matches(source: string, opening: char, closing: char, s: nat, e: nat) {
    && e < |source| && OpenTo(source, opening, closing, s, e)
    && Nesting(source, opening, closing, s, e + 1) == 0
  }

  /** What the scan knows after `i` characters: the stack holds exactly the openers
      still open, and its depths are the nesting since each of them. */
  ghost predicate StackOk(source: string, opening: char, closing: char, stack: seq<nat>, i: nat)
    requires i <= |source|
  {
    && (forall j | 0 <= j < |stack| :: OpenTo(source, opening, closing, stack[j], i))
    && (forall j | 0 <= j < |stack| :: Nesting(source, opening, closing, stack[j], i) == |stack| - j)
    && (forall s: nat | OpenTo(source, opening, closing, s, i) :: s in stack)
  }

  ghost predicate PairsOk(source: string, opening: char, closing: char, pairs: Pairs, i: nat) {
    && (forall s | s in pairs :: pairs[s].0 == s && pairs[s].1 < i && Matches(source, opening, closing, s, pairs[s].1))
    && (forall s: nat, e: nat | e < i && Matches(source, opening, closing, s, e) :: s in pairs)
  }

  lemma OpenStep(source: string, opening: char, closing: char, s: nat, i: nat)
    requires s < i < |source|
    ensures OpenTo(source, opening, closing, s, i + 1) <==>
      OpenTo(source, opening, closing, s, i)
      && Nesting(source, opening, closing, s, i) + Weight(source[i], opening, closing) > 0
  {
    assert Nesting(source, opening, closing, s, i + 1) ==
      Nesting(source, opening, closing, s, i) + Weight(source[i], opening, closing);
  }

  lemma Push(source: string, opening: char, closing: char, stack: seq<nat>, i: nat)
    requires i < |source| && StackOk(source, opening, closing, stack, i) && source[i] == opening
    ensures StackOk(source, opening, closing, stack + [i], i + 1)
  {
    assert Nesting(source, opening, closing, i, i + 1) == Nesting(source, opening, closing, i, i) + 1;
    forall s: nat | s < i && OpenTo(source, opening, closing, s, i + 1) ensures s in stack {
      OpenStep(source, opening, closing, s, i);
    }
    forall j | 0 <= j < |stack| ensures OpenTo(source, opening, closing, stack[j], i + 1) {
      OpenStep(source, opening, closing, stack[j], i);
    }
  }

  lemma Pop(source: string, opening: char, closing: char, stack: seq<nat>, i: nat)
    requires i < |source| && StackOk(source, opening, closing, stack, i)
    requires source[i] != opening && source[i] == closing && stack != []
    ensures StackOk(source, opening, closing, stack[..|stack| - 1], i + 1)
    ensures Matches(source, opening, closing, stack[|stack| - 1], i)
  {
    var top := |stack| - 1;
    forall s: nat | OpenTo(source, opening, closing, s, i + 1) ensures s in stack[..top] {
      assert s != i;
      OpenStep(source, opening, closing, s, i);
      var j :| 0 <= j < |stack| && stack[j] == s;
      assert j < top;
    }
    forall j | 0 <= j < top ensures OpenTo(source, opening, closing, stack[j], i + 1) {
      OpenStep(source, opening, closing, stack[j], i);
    }
  }

  lemma Skip(source: string, opening: char, closing: char, stack: seq<nat>, i: nat)
    requires i < |source| && StackOk(source, opening, closing, stack, i)
    requires source[i] != opening && (source[i] != closing || stack == [])
    ensures StackOk(source, opening, closing, stack, i + 1)
  {
    forall s: nat | OpenTo(source, opening, closing, s, i + 1) ensures s in stack {
      assert s != i;
      OpenStep(source, opening, closing, s, i);
    }
    forall j | 0 <= j < |stack| ensures OpenTo(source, opening, closing, stack[j], i + 1) {
      OpenStep(source, opening, closing, stack[j], i);
    }
  }

  /** Only the top of the stack can be matched by a character. */
  lemma MatchedIsTop(source: string, opening: char, closing: char, stack: seq<nat>, i: nat, s: nat)
    requires i < |source| && StackOk(source, opening, closing, stack, i) && Matches(source, opening, closing, s, i)
    ensures source[i] != opening && source[i] == closing && stack != [] && s == stack[|stack| - 1]
  {
    assert s in stack;
    var j :| 0 <= j < |stack| && stack[j] == s;
    assert Nesting(source, opening, closing, s, i) + Weight(source[i], opening, closing) == 0;
  }

  /** The table holds a pair exactly for the openers whose nesting returns to zero,
      and each pair ends where that first happens. */
  ghost predicate PairsExact(source: string, opening: char, closing: char, pairs: Pairs) {
    && (forall s | s in pairs :: pairs[s].0 == s)
    && (forall s: nat, e: nat :: (s in pairs && pairs[s].1 == e) <==> Matches(source, opening, closing, s, e))
  }

  /** `_delimiter_pairs`, with its stack of open offsets. */
  method DelimiterPairs(source: string, opening: char, closing: char) returns (pairs: Pairs)
    ensures PairsExact(source, opening, closing, pairs)
  {
    var stack: seq<nat> := [];
    pairs := map[];
    var offset := 0;
    while offset < |source|
      invariant offset <= |source|
      invariant StackOk(source, opening, closing, stack, offset)
      invariant PairsOk(source, opening, closing, pairs, offset)
    {
      forall s: nat | Matches(source, opening, closing, s, offset)
        ensures source[offset] != opening && source[offset] == closing && stack != [] && s == stack[|stack| - 1]
      {
        MatchedIsTop(source, opening, closing, stack, offset, s);
      }
      if source[offset] == opening {
        Push(source, opening, closing, stack, offset);
        stack := stack + [offset];
      } else if source[offset] == closing && stack != [] {
        Pop(source, opening, closing, stack, offset);
        var start := stack[|stack| - 1];
        stack := stack[..|stack| - 1];
        pairs := pairs[start := (start, offset)];
      } else {
        Skip(source, opening, closing, stack, offset);
      }
      offset := offset + 1;
    }
    forall s: nat, e: nat | Matches(source, opening, closing, s, e) ensures s in pairs && pairs[s].1 == e {
      MatchUnique(source, opening, closing, s, e, pairs[s].1);
    }
  }

  lemma MatchUnique(source: string, opening: char, closing: char, s: nat, e: nat, f: nat)
    requires Matches(source, opening, closing, s, e) && Matches(source, opening, closing, s, f)
    ensures e == f
  {
  }

  /** Every opener is either matched or still open at the end of the text. */
  lemma MatchedOrOpen(source: string, opening: char, closing: char, s: nat)
    requires s < |source| && source[s] == opening
    ensures (exists e: nat :: Matches(source, opening, closing, s, e)) <==> !OpenTo(source, opening, closing, s, |source|)
  {
    assert Nesting(source, opening, closing, s, s + 1) == Nesting(source, opening, closing, s, s) + 1;
    var k := s + 1;
    while k < |source| && Nesting(source, opening, closing, s, k + 1) > 0
      invariant s < k <= |source| && OpenTo(source, opening, closing, s, k)
    {
      OpenStep(source, opening, closing, s, k);
      k := k + 1;
    }
    if k < |source| {
      assert Matches(source, opening, closing, s, k);
    } else {
      forall e: nat | e < |source| ensures !Matches(source, opening, closing, s, e) {
        assert s < e ==> Nesting(source, opening, closing, s, e + 1) > 0;
      }
    }
  }

  predicate Inside(inner: Span, outer: Span) {
    outer.0 <= inner.0 && inner.1 <= outer.1
  }

  predicate StrictlyInside(inner: Span, outer: Span) {
    outer.0 < inner.0 && inner.1 < outer.1
  }

  predicate Apart(a: Span, b: Span) {
    a.1 < b.0 || b.1 < a.0
  }

  /** Two pairs are disjoint or strictly nested; in particular no closer is used twice. */
  lemma PairsNestOrMiss(source: string, opening: char, closing: char, a: Span, b: Span)
    requires Matches(source, opening, closing, a.0, a.1) && Matches(source, opening, closing, b.0, b.1)
    ensures a == b || Apart(a, b) || StrictlyInside(a, b) || StrictlyInside(b, a)
    ensures a == b || a.1 < b.0 || b.1 < a.0 || a.0 < b.0 <= b.1 < a.1 || b.0 < a.0 <= a.1 < b.1
    ensures a.1 == b.1 ==> a == b
  {
    if a.0 == b.0 {
      MatchUnique(source, opening, closing, a.0, a.1, b.1);
    } else if a.0 < b.0 {
      LaterOpener(source, opening, closing, a, b);
    } else {
      LaterOpener(source, opening, closing, b, a);
    }
  }

  lemma LaterOpener(source: string, opening: char, closing: char, a: Span, b: Span)
    requires Matches(source, opening, closing, a.0, a.1) && Matches(source, opening, closing, b.0, b.1)
    requires a.0 < b.0
    ensures a.1 < b.0 || b.1 < a.1
  {
    if b.0 <= a.1 <= b.1 {
      NestingSplit(source, opening, closing, a.0, b.0, a.1 + 1);
    }
  }
}
