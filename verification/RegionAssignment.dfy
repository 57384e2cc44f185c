/** `_assign_regions`: each changed line goes to its innermost review regions. */
module RegionAssignment {
  import opened Ordering
  import opened Sorting
  import opened SourceText
  import opened FileAnalysis
  import opened LineRuns

  datatype Assignment = Assignment(region: Region, lines: seq<nat>)

  /** `_strictly_contains_region`. */
  predicate StrictlyAround(outer: Region, inner: Region) {
    && outer.range.Contains(inner.range)
    && (outer.range.startOffset != inner.range.startOffset || outer.range.endOffset != inner.range.endOffset)
  }

  function Candidates(regions: seq<Region>, line: nat): set<Region> {
    set r | r in regions && r.ContainsLine(line)
  }

  /** The candidates with no other candidate strictly inside them. */
  function Innermost(regions: seq<Region>, line: nat): set<Region> {
    set r | r in Candidates(regions, line) && forall other | other in Candidates(regions, line) :: !StrictlyAround(r, other)
  }

  function RegionLines(regions: seq<Region>, changed: set<nat>, r: Region): set<nat> {
    set line | line in changed && r in Innermost(regions, line)
  }

  function RemainingLines(regions: seq<Region>, changed: set<nat>): set<nat> {
    set line | line in changed && Candidates(regions, line) == {}
  }

  function AssignmentKey(a: Assignment): Key { RegionKey(a.region) }

  function AssignmentOf(regions: seq<Region>, changed: set<nat>): Region -> seq<Assignment> {
    (r: Region) =>
      if RegionLines(regions, changed, r) == {} then []
      else [Assignment(r, SortedLines(RegionLines(regions, changed, r)))]
  }

  /** Every region that got a line, with its lines in order, in region order. */
  function Assignments(regions: seq<Region>, changed: set<nat>): seq<Assignment> {
    SortBy(Flat(AssignmentOf(regions, changed), regions), AssignmentKey)
  }

  lemma AssignmentMembers(regions: seq<Region>, changed: set<nat>)
    ensures forall a :: a in Assignments(regions, changed) <==>
      && a.region in regions
      && RegionLines(regions, changed, a.region) != {}
      && a.lines == SortedLines(RegionLines(regions, changed, a.region))
  {
    var make := AssignmentOf(regions, changed);
    SortBySorts(Flat(make, regions), AssignmentKey);
    forall a ensures a in Assignments(regions, changed) <==>
      && a.region in regions
      && RegionLines(regions, changed, a.region) != {}
      && a.lines == SortedLines(RegionLines(regions, changed, a.region))
    {
      FlatMember(make, regions, a);
      if a.region in regions && RegionLines(regions, changed, a.region) != {}
         && a.lines == SortedLines(RegionLines(regions, changed, a.region)) {
        assert a in make(a.region);
      }
    }
  }

  lemma StrictlyAroundIsStrict(a: Region, b: Region, c: Region)
    requires a.range.Valid() && b.range.Valid()
    ensures !StrictlyAround(a, a)
    ensures StrictlyAround(a, b) ==> Width(b.range) < Width(a.range)
    ensures StrictlyAround(a, b) && StrictlyAround(b, c) ==> StrictlyAround(a, c)
  {
  }

  /** Below every candidate there is an innermost one inside it. */
  lemma {:induction false} InnermostInside(regions: seq<Region>, line: nat, r: Region) returns (inner: Region)
    requires forall q | q in regions :: q.range.Valid()
    requires r in Candidates(regions, line)
    ensures inner in Innermost(regions, line)
    ensures inner == r || StrictlyAround(r, inner)
    decreases Width(r.range)
  {
    if r in Innermost(regions, line) {
      inner := r;
    } else {
      var next :| next in Candidates(regions, line) && StrictlyAround(r, next);
      StrictlyAroundIsStrict(r, next, next);
      inner := InnermostInside(regions, line, next);
      StrictlyAroundIsStrict(r, next, inner);
    }
  }

  /** Assignment loses no line: assigned and remaining lines are disjoint and are
      together the changed lines, and any region around a line keeps it assigned. */
  lemma NoLineLost(regions: seq<Region>, changed: set<nat>, line: nat)
    requires forall q | q in regions :: q.range.Valid()
    requires line in changed
    ensures line in RemainingLines(regions, changed)
       <==> !exists a :: a in Assignments(regions, changed) && line in a.lines
    ensures line in RemainingLines(regions, changed) <==> !exists r :: r in regions && r.ContainsLine(line)
  {
    AssignmentMembers(regions, changed);
    if line !in RemainingLines(regions, changed) {
      var r :| r in Candidates(regions, line);
      var inner := InnermostInside(regions, line, r);
      assert line in RegionLines(regions, changed, inner);
      var a := Assignment(inner, SortedLines(RegionLines(regions, changed, inner)));
      assert a in Assignments(regions, changed) && line in a.lines;
    } else {
      assert forall r | r in regions :: r.ContainsLine(line) ==> r in Candidates(regions, line);
      forall a | a in Assignments(regions, changed) ensures line !in a.lines {
        assert line !in RegionLines(regions, changed, a.region);
      }
    }
  }

  /** A line's chosen regions are exactly its candidates with nothing strictly
      smaller around the line inside them. */
  lemma ChosenRegions(regions: seq<Region>, changed: set<nat>, line: nat, r: Region)
    requires line in changed && r in regions
    ensures (exists a :: a in Assignments(regions, changed) && a.region == r && line in a.lines)
       <==> (r.ContainsLine(line) && forall other | other in regions && other.ContainsLine(line) :: !StrictlyAround(r, other))
  {
    AssignmentMembers(regions, changed);
    var a := Assignment(r, SortedLines(RegionLines(regions, changed, r)));
    assert line in a.lines <==> r in Innermost(regions, line);
    if r in Innermost(regions, line) {
      assert a in Assignments(regions, changed);
    }
    assert forall other | other in regions && other.ContainsLine(line) :: other in Candidates(regions, line);
  }

  // ---------------------------------------------------------------- the loop

  function RegionPriorityKey(r: Region): Key {
    [Num(r.range.endLine - r.range.startLine + 1), Num(r.range.endOffset - r.range.startOffset),
     Num(r.range.startLine), Num(r.range.startOffset), Text(r.kind), Text(r.symbol), Text(r.id)]
  }

  predicate SomethingInside(r: Region, candidates: seq<Region>) {
    exists other :: other in candidates && StrictlyAround(r, other)
  }

  method InnermostCandidates(regions: seq<Region>, line: nat) returns (any: bool, innermost: seq<Region>)
    ensures any <==> Candidates(regions, line) != {}
    ensures forall r :: r in innermost <==> r in Innermost(regions, line)
  {
    var candidates: seq<Region> := [];
    for i := 0 to |regions|
      invariant forall r :: r in candidates <==> r in regions[..i] && r.ContainsLine(line)
    {
      if regions[i].ContainsLine(line) {
        candidates := candidates + [regions[i]];
      }
    }
    assert regions[..|regions|] == regions;
    assert forall r :: r in candidates <==> r in Candidates(regions, line);
    any := candidates != [];
    assert any ==> candidates[0] in Candidates(regions, line);
    innermost := [];
    for i := 0 to |candidates|
      invariant forall r :: r in innermost <==> r in candidates[..i] && !SomethingInside(r, candidates)
    {
      if !SomethingInside(candidates[i], candidates) {
        innermost := innermost + [candidates[i]];
      }
    }
    assert candidates[..|candidates|] == candidates;
  }

  predicate IdsIdentify(regions: seq<Region>) {
    forall r, q | r in regions && q in regions && r.id == q.id :: r == q
  }

  /** What a valid analysis says of its regions. */
  ghost predicate RegionsProper(regions: seq<Region>) {
    && (forall r | r in regions :: RegionShapeOk(r))
    && IdsIdentify(regions) && NoRepeats(regions)
  }

  /** What the dictionary holds once the lines in `done` have been handled. */
  ghost predicate Recorded(regions: seq<Region>, done: set<nat>, linesByRegion: map<string, set<nat>>) {
    && (forall r | r in regions ::
          LinesAt(linesByRegion, r.id) == RegionLines(regions, done, r))
    && (forall id | id in linesByRegion :: linesByRegion[id] != {} && exists r :: r in regions && r.id == id)
  }

  function LinesAt(table: map<string, set<nat>>, id: string): set<nat> {
    if id in table then table[id] else {}
  }

  /** Between two lines: `line` has been recorded for the regions in `given` only. */
  ghost predicate PartlyRecorded(regions: seq<Region>, done: set<nat>, line: nat, given: seq<Region>, table: map<string, set<nat>>) {
    && (forall r | r in regions ::
          LinesAt(table, r.id) == RegionLines(regions, done, r) + if r in given then {line} else {})
    && (forall id | id in table :: table[id] != {} && exists r :: r in regions && r.id == id)
  }

  lemma RecordStep(regions: seq<Region>, done: set<nat>, line: nat, given: seq<Region>, table: map<string, set<nat>>, r: Region)
    requires IdsIdentify(regions) && r in regions
    requires PartlyRecorded(regions, done, line, given, table)
    ensures PartlyRecorded(regions, done, line, given + [r], table[r.id := LinesAt(table, r.id) + {line}])
  {
    var next := table[r.id := LinesAt(table, r.id) + {line}];
    forall q | q in regions
      ensures LinesAt(next, q.id) == RegionLines(regions, done, q) + if q in given + [r] then {line} else {}
    {
      if q.id == r.id {
        assert q == r;
      }
    }
  }

  lemma RecordedLine(regions: seq<Region>, done: set<nat>, line: nat, given: seq<Region>, table: map<string, set<nat>>)
    requires PartlyRecorded(regions, done, line, given, table)
    requires forall r :: r in given <==> r in Innermost(regions, line)
    ensures Recorded(regions, done + {line}, table)
  {
    assert forall r | r in regions ::
      RegionLines(regions, done + {line}, r) == RegionLines(regions, done, r) + if r in Innermost(regions, line) then {line} else {};
  }

  /** The inner loop: the line goes into the set of each selected region. */
  method RecordSelected(regions: seq<Region>, ghost done: set<nat>, line: nat, selected: seq<Region>, table: map<string, set<nat>>)
    returns (linesByRegion: map<string, set<nat>>)
    requires IdsIdentify(regions) && forall r | r in selected :: r in regions
    requires PartlyRecorded(regions, done, line, [], table)
    ensures PartlyRecorded(regions, done, line, selected, linesByRegion)
  {
    linesByRegion := table;
    assert selected[..0] == [];
    for i := 0 to |selected|
      invariant PartlyRecorded(regions, done, line, selected[..i], linesByRegion)
    {
      RecordStep(regions, done, line, selected[..i], linesByRegion, selected[i]);
      TakeOneMore(selected, i);
      linesByRegion := linesByRegion[selected[i].id := LinesAt(linesByRegion, selected[i].id) + {line}];
    }
    assert selected[..|selected|] == selected;
  }

  method RecordLine(regions: seq<Region>, ghost done: set<nat>, line: nat, innermost: seq<Region>, table: map<string, set<nat>>)
    returns (linesByRegion: map<string, set<nat>>)
    requires IdsIdentify(regions)
    requires Recorded(regions, done, table)
    requires forall r :: r in innermost <==> r in Innermost(regions, line)
    ensures Recorded(regions, done + {line}, linesByRegion)
  {
    var selected := SortBy(innermost, RegionPriorityKey);
    SortBySorts(innermost, RegionPriorityKey);
    linesByRegion := RecordSelected(regions, done, line, selected, table);
    RecordedLine(regions, done, line, selected, linesByRegion);
  }

  /** The lines still unassigned after `done` has been handled. */
  function RemainingAfter(regions: seq<Region>, changed: set<nat>, done: set<nat>): set<nat> {
    set line | line in changed && !(line in done && Candidates(regions, line) != {})
  }

  lemma RemainingStep(regions: seq<Region>, changed: set<nat>, done: set<nat>, line: nat)
    requires line in changed && line !in done
    ensures RemainingAfter(regions, changed, done + {line}) ==
      RemainingAfter(regions, changed, done) - if Candidates(regions, line) != {} then {line} else {}
    ensures line in RemainingAfter(regions, changed, done)
  {
  }

  lemma PrefixStep(ordered: seq<nat>, n: nat)
    requires StrictlySorted(ordered, NumberKey) && n < |ordered|
    ensures Elements(ordered[..n + 1]) == Elements(ordered[..n]) + {ordered[n]}
    ensures ordered[n] !in Elements(ordered[..n])
  {
    StrictNumbers(ordered);
    assert ordered[..n + 1] == ordered[..n] + [ordered[n]];
  }

  /** The imperative assignment: a dictionary of line sets filled line by line. */
  method AssignRegions(regions: seq<Region>, changed: set<nat>)
    returns (assignments: seq<Assignment>, remaining: set<nat>)
    requires IdsIdentify(regions) && NoRepeats(regions)
    ensures assignments == Assignments(regions, changed)
    ensures remaining == RemainingLines(regions, changed)
  {
    var linesByRegion: map<string, set<nat>> := map[];
    remaining := changed;
    var ordered := SortedLines(changed);
    ghost var done: set<nat> := {};
    assert forall r | r in regions :: RegionLines(regions, {}, r) == {};
    var n := 0;
    while n < |ordered|
      invariant n <= |ordered| && done == Elements(ordered[..n])
      invariant Recorded(regions, done, linesByRegion)
      invariant remaining == RemainingAfter(regions, changed, done)
    {
      var line := ordered[n];
      PrefixStep(ordered, n);
      assert line in ordered;
      RemainingStep(regions, changed, done, line);
      var any, innermost := InnermostCandidates(regions, line);
      if any {
        linesByRegion := RecordLine(regions, done, line, innermost, linesByRegion);
        remaining := remaining - {line};
      } else {
        NothingRecorded(regions, done, line, linesByRegion);
      }
      done := done + {line};
      n := n + 1;
    }
    assert ordered[..n] == ordered && done == changed;
    assignments := ListAssignments(regions, changed, linesByRegion);
  }

  lemma NothingRecorded(regions: seq<Region>, done: set<nat>, line: nat, table: map<string, set<nat>>)
    requires Recorded(regions, done, table) && Candidates(regions, line) == {}
    ensures Recorded(regions, done + {line}, table)
  {
    assert Innermost(regions, line) == {};
    assert forall r | r in regions :: RegionLines(regions, done + {line}, r) == RegionLines(regions, done, r);
  }

  function RegionById(regions: seq<Region>): map<string, Region> {
    TableBy(IdOfRegion, regions)
  }

  /** The dictionary's items, one assignment per region id that got a line. */
  method ListItems(regions: seq<Region>, linesByRegion: map<string, set<nat>>, ids: seq<string>)
    returns (listed: seq<Assignment>)
    requires forall id | id in ids :: id in linesByRegion && id in RegionById(regions)
    ensures |listed| == |ids|
    ensures forall k | 0 <= k < |ids| ::
      listed[k] == Assignment(RegionById(regions)[ids[k]], SortedLines(linesByRegion[ids[k]]))
  {
    var regionById := RegionById(regions);
    listed := [];
    for i := 0 to |ids|
      invariant |listed| == i
      invariant forall k | 0 <= k < i :: listed[k] == Assignment(regionById[ids[k]], SortedLines(linesByRegion[ids[k]]))
    {
      listed := listed + [Assignment(regionById[ids[i]], SortedLines(linesByRegion[ids[i]]))];
    }
  }

  lemma RegionsById(regions: seq<Region>)
    requires IdsIdentify(regions)
    ensures forall r | r in regions :: r.id in RegionById(regions) && RegionById(regions)[r.id] == r
  {
    assert forall r: Region :: IdOfRegion(r) == r.id;
    TableByFinds(IdOfRegion, regions);
  }

  lemma ListedItems(regions: seq<Region>, changed: set<nat>, table: map<string, set<nat>>, ids: seq<string>, listed: seq<Assignment>)
    requires IdsIdentify(regions) && Recorded(regions, changed, table)
    requires forall id :: id in ids <==> id in table
    requires forall id | id in ids :: id in RegionById(regions)
    requires |listed| == |ids|
    requires forall k | 0 <= k < |ids| ::
      listed[k] == Assignment(RegionById(regions)[ids[k]], SortedLines(table[ids[k]]))
    ensures forall a :: a in listed <==> a in Assignments(regions, changed)
    ensures forall k | 0 <= k < |ids| :: listed[k].region.id == ids[k]
  {
    RegionsById(regions);
    AssignmentMembers(regions, changed);
    forall k | 0 <= k < |ids| ensures listed[k] in Assignments(regions, changed) && listed[k].region.id == ids[k] {
      assert ids[k] in table;
      assert exists r :: r in regions && r.id == ids[k];
      var r :| r in regions && r.id == ids[k];
      assert RegionById(regions)[ids[k]] == r && listed[k].region == r;
      assert LinesAt(table, r.id) == table[ids[k]];
    }
    forall a | a in Assignments(regions, changed) ensures a in listed {
      assert LinesAt(table, a.region.id) != {};
      assert a.region.id in ids;
      var k :| 0 <= k < |ids| && ids[k] == a.region.id;
      assert listed[k] == a;
    }
  }

  /** Turns the dictionary into the sorted assignment list. */
  method ListAssignments(regions: seq<Region>, changed: set<nat>, linesByRegion: map<string, set<nat>>)
    returns (assignments: seq<Assignment>)
    requires IdsIdentify(regions) && NoRepeats(regions)
    requires Recorded(regions, changed, linesByRegion)
    ensures assignments == Assignments(regions, changed)
  {
    RegionsById(regions);
    var ids := SortedSet(linesByRegion.Keys, TextKey);
    var listed := ListItems(regions, linesByRegion, ids);
    StrictIsSorted(ids, TextKey);
    ListedItems(regions, changed, linesByRegion, ids, listed);
    forall i, j | 0 <= i < j < |listed| ensures listed[i].region.id != listed[j].region.id {
      NoRepeatsIndices(ids, i, j);
    }
    ListingIsAssignments(regions, changed, listed);
    assignments := SortBy(listed, AssignmentKey);
  }

  lemma ListingIsAssignments(regions: seq<Region>, changed: set<nat>, listed: seq<Assignment>)
    requires IdsIdentify(regions) && NoRepeats(regions)
    requires forall a :: a in listed <==> a in Assignments(regions, changed)
    requires forall i, j | 0 <= i < j < |listed| :: listed[i].region.id != listed[j].region.id
    ensures SortBy(listed, AssignmentKey) == Assignments(regions, changed)
  {
    var made := Flat(AssignmentOf(regions, changed), regions);
    DistinctIndicesNoRepeats(listed);
    MadeOnce(regions, changed);
    SortBySorts(made, AssignmentKey);
    assert forall a :: a in made <==> a in listed;
    SameElementsSameBag(listed, made);
    AssignmentKeysIdentify(regions, changed, listed);
    SortByCanonical(listed, made, AssignmentKey);
  }

  lemma AssignmentKeysIdentify(regions: seq<Region>, changed: set<nat>, listed: seq<Assignment>)
    requires IdsIdentify(regions)
    requires forall a | a in listed :: a in Assignments(regions, changed)
    ensures KeyInjective(listed, AssignmentKey)
  {
    AssignmentMembers(regions, changed);
    forall a, b | a in listed && b in listed && AssignmentKey(a) == AssignmentKey(b) ensures a == b {
      assert AssignmentKey(a)[6] == Text(a.region.id) && AssignmentKey(b)[6] == Text(b.region.id);
    }
  }

  lemma MadeOnce(regions: seq<Region>, changed: set<nat>)
    requires NoRepeats(regions)
    ensures NoRepeats(Flat(AssignmentOf(regions, changed), regions))
  {
    var make := AssignmentOf(regions, changed);
    forall i, j, a | 0 <= i < j < |regions| && a in make(regions[i]) ensures a !in make(regions[j]) {
      NoRepeatsIndices(regions, i, j);
    }
    forall r | r in regions ensures NoRepeats(make(r)) {
      DistinctIndicesNoRepeats(make(r));
    }
    FlatNoRepeats(make, regions);
  }
}
