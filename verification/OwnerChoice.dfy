/** `v2OwnerForRange`: the declaration or region that owns an occurrence. */
module OwnerChoice {
  import opened Sorting

  datatype Item = Item(localId: string, startOffset: nat, endOffset: nat)

  datatype OwnerKind = DeclarationOwner | RegionOwner

  datatype Candidate = Candidate(kind: OwnerKind, item: Item)

  datatype Ref = Ref(kind: OwnerKind, localId: string)

  /** `localeCompare`, as a parameter. */
  type Locale = (string, string) -> int

  /** A total order on strings: only equal strings compare as zero. */
  ghost predicate TotalOrder(locale: Locale) {
    && (forall a, b :: locale(a, b) == 0 <==> a == b)
    && (forall a, b :: locale(a, b) < 0 <==> locale(b, a) > 0)
    && (forall a, b, c | locale(a, b) <= 0 && locale(b, c) <= 0 :: locale(a, c) <= 0)
  }

  function Width(item: Item): int { item.endOffset - item.startOffset }

  predicate Holds(item: Item, startOffset: nat, endOffset: nat) {
    item.startOffset <= startOffset && endOffset <= item.endOffset
  }

  /** The sort's comparison: narrower first, then regions, then by id. */
  function Compare(locale: Locale, left: Candidate, right: Candidate): int {
    if Width(left.item) != Width(right.item) then Width(left.item) - Width(right.item)
    else if left.kind != right.kind then (if left.kind == RegionOwner then -1 else 1)
    else locale(left.item.localId, right.item.localId)
  }

  function Place(locale: Locale, x: Candidate, xs: seq<Candidate>): seq<Candidate> {
    if xs == [] || Compare(locale, x, xs[0]) <= 0 then [x] + xs
    else [xs[0]] + Place(locale, x, xs[1..])
  }

  /** A stable sort by `Compare`. */
  function SortCandidates(locale: Locale, xs: seq<Candidate>): seq<Candidate> {
    if xs == [] then [] else Place(locale, xs[0], SortCandidates(locale, xs[1..]))
  }

  function Around(kind: OwnerKind, startOffset: nat, endOffset: nat): Item -> seq<Candidate> {
    (item: Item) => if Holds(item, startOffset, endOffset) then [Candidate(kind, item)] else []
  }

  function CandidatesAround(declarations: seq<Item>, regions: seq<Item>, startOffset: nat, endOffset: nat): seq<Candidate> {
    Flat(Around(DeclarationOwner, startOffset, endOffset), declarations)
    + Flat(Around(RegionOwner, startOffset, endOffset), regions)
  }

  /** The chosen owner as a function of both lists. */
  function OwnerOf(locale: Locale, declarations: seq<Item>, regions: seq<Item>, startOffset: nat, endOffset: nat): Option<Ref> {
    var sorted := SortCandidates(locale, CandidatesAround(declarations, regions, startOffset, endOffset));
    if sorted == [] then None else Some(Ref(sorted[0].kind, sorted[0].item.localId))
  }

  /** One of the two collecting loops. */
  method Collect(kind: OwnerKind, items: seq<Item>, startOffset: nat, endOffset: nat, before: seq<Candidate>)
    returns (candidates: seq<Candidate>)
    ensures candidates == before + Flat(Around(kind, startOffset, endOffset), items)
  {
    candidates := before;
    ghost var around := Around(kind, startOffset, endOffset);
    assert before + Flat(around, items[..0]) == before;
    for n := 0 to |items|
      invariant candidates == before + Flat(around, items[..n])
    {
      FlatAt(around, items, n);
      assert before + Flat(around, items[..n]) + around(items[n]) == before + Flat(around, items[..n + 1]);
      if Holds(items[n], startOffset, endOffset) {
        candidates := candidates + [Candidate(kind, items[n])];
      }
    }
    assert items[..|items|] == items;
  }

  /** `v2OwnerForRange`. */
  method OwnerForRange(locale: Locale, declarations: seq<Item>, regions: seq<Item>, startOffset: nat, endOffset: nat)
    returns (owner: Option<Ref>)
    ensures owner == OwnerOf(locale, declarations, regions, startOffset, endOffset)
  {
    var candidates := Collect(DeclarationOwner, declarations, startOffset, endOffset, []);
    assert [] + Flat(Around(DeclarationOwner, startOffset, endOffset), declarations)
        == Flat(Around(DeclarationOwner, startOffset, endOffset), declarations);
    candidates := Collect(RegionOwner, regions, startOffset, endOffset, candidates);
    candidates := SortCandidates(locale, candidates);
    owner := if candidates == [] then None else Some(Ref(candidates[0].kind, candidates[0].item.localId));
  }

  // --------------------------------------------------------------- theorems

  lemma CompareTotal(locale: Locale, a: Candidate, b: Candidate, c: Candidate)
    requires TotalOrder(locale)
    ensures Compare(locale, a, b) > 0 <==> Compare(locale, b, a) < 0
    ensures Compare(locale, a, b) <= 0 && Compare(locale, b, c) <= 0 ==> Compare(locale, a, c) <= 0
  {
  }

  lemma {:induction false} PlaceMembers(locale: Locale, x: Candidate, xs: seq<Candidate>)
    ensures forall c :: c in Place(locale, x, xs) <==> c == x || c in xs
    ensures Place(locale, x, xs) != []
    ensures Place(locale, x, xs)[0] == if xs == [] || Compare(locale, x, xs[0]) <= 0 then x else xs[0]
  {
    if xs != [] && Compare(locale, x, xs[0]) > 0 {
      PlaceMembers(locale, x, xs[1..]);
      assert forall c :: c in xs <==> c == xs[0] || c in xs[1..];
    }
  }

  /** The first candidate after sorting is a least one. */
  lemma {:induction false} SortedHead(locale: Locale, xs: seq<Candidate>)
    requires TotalOrder(locale)
    ensures forall c :: c in SortCandidates(locale, xs) <==> c in xs
    ensures SortCandidates(locale, xs) == [] <==> xs == []
    ensures xs != [] ==>
      SortCandidates(locale, xs)[0] in xs
      && forall c | c in xs :: Compare(locale, SortCandidates(locale, xs)[0], c) <= 0
  {
    if xs != [] {
      var rest := SortCandidates(locale, xs[1..]);
      SortedHead(locale, xs[1..]);
      PlaceMembers(locale, xs[0], rest);
      assert forall c :: c in xs <==> c == xs[0] || c in xs[1..];
      var head := SortCandidates(locale, xs)[0];
      forall c | c in xs ensures Compare(locale, head, c) <= 0 {
        if rest != [] {
          CompareTotal(locale, head, xs[0], rest[0]);
          CompareTotal(locale, xs[0], rest[0], c);
          CompareTotal(locale, rest[0], xs[0], c);
        }
        CompareTotal(locale, xs[0], xs[0], xs[0]);
      }
    }
  }

  ghost predicate IsCandidate(c: Candidate, declarations: seq<Item>, regions: seq<Item>, startOffset: nat, endOffset: nat) {
    Holds(c.item, startOffset, endOffset) && c.item in if c.kind == DeclarationOwner then declarations else regions
  }

  lemma CandidateMembers(declarations: seq<Item>, regions: seq<Item>, startOffset: nat, endOffset: nat, c: Candidate)
    ensures c in CandidatesAround(declarations, regions, startOffset, endOffset)
       <==> IsCandidate(c, declarations, regions, startOffset, endOffset)
  {
    var ds, rs := Around(DeclarationOwner, startOffset, endOffset), Around(RegionOwner, startOffset, endOffset);
    FlatMember(ds, declarations, c);
    FlatMember(rs, regions, c);
    if IsCandidate(c, declarations, regions, startOffset, endOffset) {
      assert c in (if c.kind == DeclarationOwner then ds else rs)(c.item);
    }
  }

  /** The item of that sort holds the range. */
  ghost predicate HoldsRange(kind: OwnerKind, item: Item, declarations: seq<Item>, regions: seq<Item>, startOffset: nat, endOffset: nat) {
    && item.startOffset <= startOffset && endOffset <= item.endOffset
    && match kind case DeclarationOwner => item in declarations case RegionOwner => item in regions
  }

  /** Not wider; if as wide, not a declaration where the other is a region; if of the
      same sort, not of a later id. */
  ghost predicate NotAfter(locale: Locale, kind: OwnerKind, item: Item, other: OwnerKind, rival: Item) {
    var width, rivalWidth := item.endOffset - item.startOffset, rival.endOffset - rival.startOffset;
    || width < rivalWidth
    || (width == rivalWidth && kind == RegionOwner && other == DeclarationOwner)
    || (width == rivalWidth && kind == other && locale(item.localId, rival.localId) <= 0)
  }

  /** The owner of a range holds it and no declaration or region that holds it is
      narrower; of equally narrow ones a region wins, and of those of one sort the one
      whose id comes first. There is no owner exactly when nothing holds the range. */
  lemma OwnerIsNarrowest(locale: Locale, declarations: seq<Item>, regions: seq<Item>, startOffset: nat, endOffset: nat)
    requires TotalOrder(locale)
    ensures var owner := OwnerOf(locale, declarations, regions, startOffset, endOffset);
      && (owner.None? <==> forall kind, item: Item :: !HoldsRange(kind, item, declarations, regions, startOffset, endOffset))
      && (owner.Some? ==> exists item: Item ::
            && item.localId == owner.value.localId
            && HoldsRange(owner.value.kind, item, declarations, regions, startOffset, endOffset)
            && forall kind, rival | HoldsRange(kind, rival, declarations, regions, startOffset, endOffset) ::
                 NotAfter(locale, owner.value.kind, item, kind, rival))
  {
    var candidates := CandidatesAround(declarations, regions, startOffset, endOffset);
    SortedHead(locale, candidates);
    forall kind, item
      ensures Candidate(kind, item) in candidates <==> HoldsRange(kind, item, declarations, regions, startOffset, endOffset)
    {
      CandidateMembers(declarations, regions, startOffset, endOffset, Candidate(kind, item));
    }
    if candidates != [] {
      var c := SortCandidates(locale, candidates)[0];
      assert c == Candidate(c.kind, c.item) && HoldsRange(c.kind, c.item, declarations, regions, startOffset, endOffset);
      forall kind, rival | HoldsRange(kind, rival, declarations, regions, startOffset, endOffset)
        ensures NotAfter(locale, c.kind, c.item, kind, rival)
      {
        assert Compare(locale, c, Candidate(kind, rival)) <= 0;
      }
      assert candidates[0] == Candidate(candidates[0].kind, candidates[0].item);
    }
  }

  /** The owner does not depend on the order of the two lists. */
  lemma OwnerIgnoresOrder(locale: Locale, declarations: seq<Item>, regions: seq<Item>,
                          otherDeclarations: seq<Item>, otherRegions: seq<Item>, startOffset: nat, endOffset: nat)
    requires TotalOrder(locale)
    requires forall item :: item in declarations <==> item in otherDeclarations
    requires forall item :: item in regions <==> item in otherRegions
    ensures OwnerOf(locale, declarations, regions, startOffset, endOffset)
         == OwnerOf(locale, otherDeclarations, otherRegions, startOffset, endOffset)
  {
    var xs := CandidatesAround(declarations, regions, startOffset, endOffset);
    var ys := CandidatesAround(otherDeclarations, otherRegions, startOffset, endOffset);
    forall c ensures c in xs <==> c in ys {
      CandidateMembers(declarations, regions, startOffset, endOffset, c);
      CandidateMembers(otherDeclarations, otherRegions, startOffset, endOffset, c);
    }
    assert ys != [] ==> ys[0] in ys;
    assert xs != [] ==> xs[0] in xs;
    SortedHead(locale, xs);
    SortedHead(locale, ys);
    if xs != [] {
      var a, b := SortCandidates(locale, xs)[0], SortCandidates(locale, ys)[0];
      assert Compare(locale, a, b) <= 0 && Compare(locale, b, a) <= 0;
      CompareTotal(locale, a, b, a);
    }
  }
}
