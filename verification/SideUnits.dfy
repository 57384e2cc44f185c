/** What units one built side has, from its parse, its atoms and what the declaration
    builder returned. */
module SideUnits {
  import opened Ordering
  import opened Sorting
  import opened SourceText
  import opened ChangeModel
  import opened FileAnalysis
  import opened LineRuns
  import opened RegionAssignment
  import opened ReviewUnits
  import opened SourceResult
  import opened SourceProofs
  import opened SourceSuccess
  import opened SideOutcome

  // ---------------------------------------------------------- the description

  /** The atom changes the line on the job's side. */
  predicate ChangesLine(job: Job, a: ChangeAtom, line: nat) {
    a in job.atoms
    && match job.role
       case Base => a.oldRef == Some(job.snapshot.ref.id) && line in a.deletedLines
       case Head => a.newRef == Some(job.snapshot.ref.id) && line in a.addedLines
  }

  predicate OnLine(r: Region, line: nat) { r.range.startLine <= line <= r.range.endLine }

  /** The changed line lies in the region and in no other one that has its offsets
      within the region's, unless they are the same. */
  ghost predicate GetsLine(job: Job, r: Region, line: nat) {
    && (exists a :: ChangesLine(job, a, line))
    && OnLine(r, line)
    && forall q | q in job.analysis.regions && OnLine(q, line)
                  && r.range.startOffset <= q.range.startOffset && q.range.endOffset <= r.range.endOffset ::
         q.range.startOffset == r.range.startOffset && q.range.endOffset == r.range.endOffset
  }

  /** The parser-quality codes of the side's units. */
  ghost predicate CodesAre(a: Analysis, codes: set<QualityCode>) {
    && (ParserDegraded in codes <==> a.quality.layer == ParseDegraded)
    && (ParserErrorNodes in codes <==>
          (a.quality.errorNodes.Some? && a.quality.errorNodes.value >= 1) || "parser_error_nodes" in a.diagnostics)
    && (ParserMissingNodes in codes <==>
          (a.quality.missingNodes.Some? && a.quality.missingNodes.value >= 1) || "parser_missing_nodes" in a.diagnostics)
  }

  /** What every unit of the side has: its place, its lines in order, those in its
      context shown on its own side only, and the atoms of its lines. */
  ghost predicate Placed(job: Job, u: Unit) {
    && u.scope == Some(Scope(job.role, job.snapshot.ref.id)) && u.sourceRefId == Some(job.snapshot.ref.id)
    && u.fileChangedLines != [] && LinesOk(u.fileChangedLines)
    && (if job.role == Base then u.changedNewLines == [] else u.changedOldLines == [])
    && LinesOk(if job.role == Base then u.changedOldLines else u.changedNewLines)
    && (forall line :: line in (if job.role == Base then u.changedOldLines else u.changedNewLines) <==>
          line in u.fileChangedLines && u.identity.contextSpan.startLine <= line <= u.identity.contextSpan.endLine)
    && (forall id :: id in u.atomIds <==> exists a, line :: ChangesLine(job, a, line) && line in u.fileChangedLines && a.id == id)
  }

  /** The unit of a region: the region's identity, and its lines that stay. */
  ghost predicate OfRegion(job: Job, staying: set<nat>, r: Region, u: Unit) {
    && r in job.analysis.regions && Placed(job, u)
    && u.owner == Some(RegionOwner(r.id))
    && u.identity.file == job.snapshot.ref.path && u.identity.kind == r.kind && u.identity.symbol == r.symbol
    && u.identity.sourceSpan == LineSpan(r.range.startLine, r.range.endLine)
    && u.identity.contextSpan == LineSpan(r.range.startLine, r.range.endLine)
    && u.identity.offsets == Some((r.range.startOffset, r.range.endOffset))
    && CodesAre(job.analysis, u.quality) && u.degraded == (r.recovered || u.quality != {})
    && forall line :: line in u.fileChangedLines <==> GetsLine(job, r, line) && line in staying
  }

  /** What is left of a unit of the declaration builder. */
  ghost predicate OfDeclared(job: Job, staying: set<nat>, d: Unit, u: Unit) {
    && Placed(job, u)
    && u.identity == d.identity && u.text == d.text && u.owner == d.owner
    && (exists codes :: CodesAre(job.analysis, codes) && u.quality == d.quality + codes && u.degraded == (d.degraded || codes != {}))
    && forall line :: line in u.fileChangedLines <==> line in d.fileChangedLines && line in staying
  }

  // ------------------------------------------------------------- the readings

  lemma SideAtomsChange(job: Job, a: ChangeAtom, line: nat)
    ensures a in SideAtoms(job) && line in SideLines(a, job.role) <==> ChangesLine(job, a, line)
  {
  }

  lemma GetsLineIs(job: Job, r: Region, line: nat)
    requires r in job.analysis.regions
    ensures line in RegionLines(job.analysis.regions, ChangedLines(job), r) <==> GetsLine(job, r, line)
  {
    forall a ensures a in SideAtoms(job) && line in SideLines(a, job.role) <==> ChangesLine(job, a, line) {
      SideAtomsChange(job, a, line);
    }
    assert line in ChangedLines(job) <==> exists a :: ChangesLine(job, a, line);
    InnermostIs(job.analysis.regions, r, line);
  }

  lemma InnermostIs(regions: seq<Region>, r: Region, line: nat)
    requires r in regions
    ensures r in Innermost(regions, line) <==>
      && OnLine(r, line)
      && forall q | q in regions && OnLine(q, line)
                    && r.range.startOffset <= q.range.startOffset && q.range.endOffset <= r.range.endOffset ::
           q.range.startOffset == r.range.startOffset && q.range.endOffset == r.range.endOffset
  {
    assert forall q :: q in Candidates(regions, line) <==> q in regions && OnLine(q, line);
  }

  lemma CodesOfAnalysis(a: Analysis)
    ensures CodesAre(a, QualityCodes(a))
  {
  }

  lemma BoundIsPlaced(naming: Naming, job: Job, owners: LineOwners, u: Unit)
    requires OwnersAre(owners, SideAtoms(job), job.role)
    requires BoundUnit(naming, job.Bound(), owners, u) && u.fileChangedLines != []
    ensures Placed(job, u)
  {
    ProjectMembers(u.fileChangedLines, u.identity.contextSpan, true);
    ProjectOk(u.fileChangedLines, u.identity.contextSpan, true);
    forall id ensures id in u.atomIds <==> exists a, line :: ChangesLine(job, a, line) && line in u.fileChangedLines && a.id == id {
      NamesAre(job, owners, u.fileChangedLines, id);
    }
  }

  lemma NamesAre(job: Job, owners: LineOwners, lines: seq<nat>, id: string)
    requires OwnersAre(owners, SideAtoms(job), job.role) && AllOwned(owners, lines)
    ensures id in AtomsOfLines(owners, lines) <==> exists a, line :: ChangesLine(job, a, line) && line in lines && a.id == id
  {
    if line :| line in lines && owners[line] == id {
      var a :| a in SideAtoms(job) && a.id == owners[line] && line in SideLines(a, job.role);
      SideAtomsChange(job, a, line);
    }
    if a, line :| ChangesLine(job, a, line) && line in lines && a.id == id {
      SideAtomsChange(job, a, line);
    }
  }

  lemma {:induction false} ProjectOk(lines: seq<nat>, span: LineSpan, inside: bool)
    requires LinesOk(lines)
    ensures LinesOk(Project(lines, span, inside))
  {
    if lines != [] {
      ProjectOk(lines[1..], span, inside);
      ProjectMembers(lines[1..], span, inside);
      var rest := Project(lines[1..], span, inside);
      forall i | 0 <= i < |rest| ensures lines[0] < rest[i] {
        assert rest[i] in lines[1..];
      }
    }
  }

  lemma KeptAre(owners: LineOwners, gone: set<string>, staying: set<nat>, lines: seq<nat>)
    requires StayingIs(owners, gone, staying) && AllOwned(owners, lines)
    ensures forall line :: line in Keeping(owners, gone)(lines) <==> line in lines && line in staying
  {
  }

  lemma RegionUnitParts(b: Binding, owners: LineOwners, a: Assignment)
    requires RegionStep(b, owners)(a).Some?
    ensures var u, span := RegionStep(b, owners)(a).value, LineSpan(a.region.range.startLine, a.region.range.endLine);
      && u.owner == Some(RegionOwner(a.region.id))
      && u.identity == Identity(b.path, a.region.kind, a.region.symbol, span, span, Some((a.region.range.startOffset, a.region.range.endOffset)))
      && u.quality == b.codes && u.degraded == (a.region.recovered || b.codes != {}) && u.fileChangedLines == a.lines
  {
  }

  lemma RegionKept(tools: Tools, job: Job, owners: LineOwners, staying: set<nat>, gone: set<string>, a: Assignment, u: Unit, v: Unit)
    requires RegionsProper(job.analysis.regions) && owners.Keys == ChangedLines(job)
    requires a in Assignments(job.analysis.regions, owners.Keys) && RegionStep(BindingOf(tools, job), owners)(a) == Some(u)
    requires StayingIs(owners, gone, staying) && Shrunk(Keeping(owners, gone), u, v) && Placed(job, v)
    ensures OfRegion(job, staying, a.region, v)
  {
    AssignmentFacts(job.analysis.regions, owners, a);
    RegionUnitParts(BindingOf(tools, job), owners, a);
    CodesOfAnalysis(job.analysis);
    KeptAre(owners, gone, staying, u.fileChangedLines);
    forall line ensures line in v.fileChangedLines <==> GetsLine(job, a.region, line) && line in staying {
      GetsLineIs(job, a.region, line);
    }
  }

  lemma DeclaredParts(b: Binding, owners: LineOwners, d: Unit)
    requires ScopeStep(b, owners)(d).Some?
    ensures var u := ScopeStep(b, owners)(d).value;
      && u.identity == d.identity && u.text == d.text && u.owner == d.owner && u.fileChangedLines == d.fileChangedLines
      && AllOwned(owners, d.fileChangedLines)
      && u.quality == d.quality + b.codes && u.degraded == (d.degraded || b.codes != {})
  {
  }

  lemma DeclaredKept(tools: Tools, job: Job, owners: LineOwners, staying: set<nat>, gone: set<string>, d: Unit, u: Unit, v: Unit)
    requires ScopeStep(BindingOf(tools, job), owners)(d) == Some(u)
    requires StayingIs(owners, gone, staying) && Shrunk(Keeping(owners, gone), u, v) && Placed(job, v)
    ensures OfDeclared(job, staying, d, v)
  {
    DeclaredParts(BindingOf(tools, job), owners, d);
    CodesOfAnalysis(job.analysis);
    KeptAre(owners, gone, staying, d.fileChangedLines);
  }

  // --------------------------------------------------- which units can be bound

  /** Increasing lines: those of the list inside (or outside) the span. */
  ghost predicate PartOf(part: seq<nat>, lines: seq<nat>, span: LineSpan, inside: bool) {
    && (forall i, j | 0 <= i < j < |part| :: part[i] < part[j])
    && forall line :: line in part <==> line in lines && (span.startLine <= line <= span.endLine) == inside
  }

  /** Its name, spans, source, owner and quality. */
  ghost predicate DeclaredNameFits(b: Binding, d: Unit) {
    var source, context := d.identity.sourceSpan, d.identity.contextSpan;
    && IsText(d.identity.symbol)
    && d.identity.kind in {"struct", "class", "function", "method", "build_method", "builder", "ui_block",
                           "field_region", "import_region", "fallback"}
    && 1 <= context.startLine <= source.startLine <= source.endLine <= context.endLine
    && (d.identity.offsets.Some? ==> d.identity.offsets.value.0 < d.identity.offsets.value.1)
    && d.fileChangedLines != [] && d.sourceRefId == Some(b.scope.refId)
    && (if d.identity.kind == "fallback" then d.owner == None
        else d.owner.Some? && d.owner.value.RegionOwner? == (d.identity.kind in {"field_region", "import_region"}))
    && (d.degraded || b.codes != {} || (d.quality == {} && d.identity.kind != "fallback"))
  }

  /** Its line lists, all projected from its changed lines. */
  ghost predicate DeclaredLinesFit(b: Binding, d: Unit) {
    && d.changedLines == d.fileChangedLines
    && PartOf(d.changedNewLines, d.fileChangedLines, d.identity.contextSpan, true)
    && PartOf(d.outsideLines, d.fileChangedLines, d.identity.contextSpan, false)
    && |d.unitChangedLines| == |d.changedNewLines|
    && (forall i | 0 <= i < |d.unitChangedLines| :: d.unitChangedLines[i] == d.changedNewLines[i] - d.identity.contextSpan.startLine + 1)
    && (b.scope.role == Head ==> d.changedOldLines == [])
  }

  ghost predicate Increasing(lines: seq<nat>) {
    && (forall i | 0 <= i < |lines| :: lines[i] >= 1)
    && (forall i, j | 0 <= i < j < |lines| :: lines[i] < lines[j])
  }

  /** What a unit of the declaration builder must be for the side to take it. */
  ghost predicate DeclaredFits(b: Binding, owners: LineOwners, d: Unit) {
    && DeclaredNameFits(b, d) && DeclaredLinesFit(b, d) && Increasing(d.fileChangedLines)
    && forall line | line in d.fileChangedLines :: line in owners
  }

  lemma ProjectIs(part: seq<nat>, lines: seq<nat>, span: LineSpan, inside: bool)
    requires LinesOk(lines)
    ensures PartOf(part, lines, span, inside) <==> part == Project(lines, span, inside)
  {
    ProjectMembers(lines, span, inside);
    ProjectOk(lines, span, inside);
    if PartOf(part, lines, span, inside) {
      assert forall i, j | 0 <= i < j < |part| :: KeyLess(NumberKey(part[i]), NumberKey(part[j]));
      var other := Project(lines, span, inside);
      assert forall i, j | 0 <= i < j < |other| :: KeyLess(NumberKey(other[i]), NumberKey(other[j]));
      StrictlySortedUnique(part, other, NumberKey);
    }
  }

  lemma RelativeIs(relative: seq<int>, lines: seq<nat>, span: LineSpan)
    ensures relative == Relative(lines, span) <==>
      |relative| == |lines| && forall i | 0 <= i < |relative| :: relative[i] == lines[i] - span.startLine + 1
  {
  }

  lemma DraftLinesFitIff(b: Binding, owners: LineOwners, d: Unit)
    requires AllOwned(owners, d.fileChangedLines) && LinesOk(d.fileChangedLines)
    ensures LinesFit(ScopedDraft(b.naming, b.scope, owners, b.codes, d)) <==> DeclaredLinesFit(b, d)
  {
    ProjectIs(d.changedNewLines, d.fileChangedLines, d.identity.contextSpan, true);
    ProjectIs(d.outsideLines, d.fileChangedLines, d.identity.contextSpan, false);
    RelativeIs(d.unitChangedLines, d.changedNewLines, d.identity.contextSpan);
    assert Effective(ScopedDraft(b.naming, b.scope, owners, b.codes, d)) == d.changedNewLines;
  }

  lemma DraftNameOkIff(b: Binding, owners: LineOwners, d: Unit)
    requires AllOwned(owners, d.fileChangedLines)
    ensures var u := ScopedDraft(b.naming, b.scope, owners, b.codes, d);
      IdentityOk(b.naming, u) && NamesOk(u) && OwnedOk(u) && QualityOk(u) <==> DeclaredNameFits(b, d)
  {
  }

  lemma DraftOkParts(b: Binding, owners: LineOwners, d: Unit)
    requires AllOwned(owners, d.fileChangedLines)
    ensures var u := ScopedDraft(b.naming, b.scope, owners, b.codes, d);
      UnitOk(b.naming, u) <==> (IdentityOk(b.naming, u) && NamesOk(u) && OwnedOk(u) && QualityOk(u)) && LinesFit(u)
    ensures LinesFit(ScopedDraft(b.naming, b.scope, owners, b.codes, d)) ==> LinesOk(d.fileChangedLines)
  {
  }

  lemma StepIsDraft(b: Binding, owners: LineOwners, d: Unit)
    ensures ScopeStep(b, owners)(d).Some? <==>
      AllOwned(owners, d.fileChangedLines) && UnitOk(b.naming, ScopedDraft(b.naming, b.scope, owners, b.codes, d))
  {
  }

  lemma IncreasingIs(lines: seq<nat>)
    ensures Increasing(lines) <==> LinesOk(lines)
  {
  }

  /** A side takes a unit of the declaration builder exactly when it fits. */
  lemma DeclaredAcceptedIff(b: Binding, owners: LineOwners, d: Unit)
    ensures ScopeStep(b, owners)(d).Some? <==> DeclaredFits(b, owners, d)
  {
    StepIsDraft(b, owners, d);
    IncreasingIs(d.fileChangedLines);
    if AllOwned(owners, d.fileChangedLines) {
      DraftOkParts(b, owners, d);
      DraftNameOkIff(b, owners, d);
      if LinesOk(d.fileChangedLines) {
        DraftLinesFitIff(b, owners, d);
      }
    }
  }

  // ------------------------------------------------------------- the theorem

  /** Every bound unit is a region's or the builder's. */
  lemma BoundOrigin(tools: Tools, job: Job, owners: LineOwners, u: Unit)
    requires BoundUnits(tools, job, owners).Some? && u in BoundUnits(tools, job, owners).value && owners.Keys == ChangedLines(job)
    ensures || (exists a :: a in Assignments(job.analysis.regions, owners.Keys) && RegionStep(BindingOf(tools, job), owners)(a) == Some(u))
            || (exists d :: d in DeclaredUnits(tools, job) && ScopeStep(BindingOf(tools, job), owners)(d) == Some(u))
  {
    BoundMembers(tools, job, owners);
    RegionUnitCount(tools, job, owners);
    var us, vs := RegionUnits(tools, job, owners).value, ScopedUnits(tools, job, owners).value;
    if u in us {
      var k :| 0 <= k < |us| && us[k] == u;
      RegionUnitAt(tools, job, owners, k);
      assert Assignments(job.analysis.regions, owners.Keys)[k] in Assignments(job.analysis.regions, owners.Keys);
    } else {
      var k :| 0 <= k < |vs| && vs[k] == u;
      ScopedUnitAt(tools, job, owners, k);
      assert Built(tools, job, owners)[k] in DeclaredUnits(tools, job);
    }
  }

  lemma RegionBound(tools: Tools, job: Job, owners: LineOwners, a: Assignment) returns (u: Unit)
    requires BoundUnits(tools, job, owners).Some? && a in Assignments(job.analysis.regions, owners.Keys)
    ensures u in BoundUnits(tools, job, owners).value && RegionStep(BindingOf(tools, job), owners)(a) == Some(u)
  {
    BoundMembers(tools, job, owners);
    var assignments := Assignments(job.analysis.regions, owners.Keys);
    var k :| 0 <= k < |assignments| && assignments[k] == a;
    RegionUnitAt(tools, job, owners, k);
    u := RegionUnits(tools, job, owners).value[k];
    assert u in RegionUnits(tools, job, owners).value;
  }

  lemma DeclaredBound(tools: Tools, job: Job, owners: LineOwners, d: Unit) returns (u: Unit)
    requires BoundUnits(tools, job, owners).Some? && owners.Keys == ChangedLines(job) && d in DeclaredUnits(tools, job)
    ensures u in BoundUnits(tools, job, owners).value && ScopeStep(BindingOf(tools, job), owners)(d) == Some(u)
  {
    BoundMembers(tools, job, owners);
    var k :| 0 <= k < |Built(tools, job, owners)| && Built(tools, job, owners)[k] == d;
    ScopedUnitAt(tools, job, owners, k);
    u := ScopedUnits(tools, job, owners).value[k];
    assert u in ScopedUnits(tools, job, owners).value;
  }

  /** What is known of the kept units of a side with atoms. */
  ghost predicate Kept(tools: Tools, job: Job, owners: LineOwners, gone: set<string>, kept: seq<Unit>) {
    && OwnersAre(owners, SideAtoms(job), job.role) && owners.Keys == ChangedLines(job)
    && BoundUnits(tools, job, owners).Some?
    && AllBound(tools.naming, job.Bound(), owners, BoundUnits(tools, job, owners).value)
    && AllBound(tools.naming, job.Bound(), owners, kept)
    && (forall v | v in kept :: v.fileChangedLines != [])
    && StayingIs(owners, gone, StayingLines(tools, job))
    && Carries(StayingId(owners, gone), Keeping(owners, gone), BoundUnits(tools, job, owners).value, kept)
  }

  lemma BuiltIsKept(tools: Tools, job: Job) returns (owners: LineOwners, gone: set<string>)
    requires AtomsProper(job.atoms) && RegionsProper(job.analysis.regions)
    requires Build(tools, job).Some? && SideAtoms(job) != []
    ensures Kept(tools, job, owners, gone, Build(tools, job).value.units)
  {
    owners := OwnersOf(SideAtoms(job), job.role).value;
    OwnersSpec(SideAtoms(job), job.role);
    OwnedLinesAreChanged(owners, job);
    BoundUnitsAllBound(tools, job, owners);
    var units := BoundUnits(tools, job, owners).value;
    var withdrawn := Unassigned(units, owners, SideAtoms(job), job.role);
    gone := AsSet(withdrawn);
    FinalUnits(tools, job, owners, units, withdrawn);
    KeptUnitsSpec(tools, job, owners, units);
    UnitsNameSideAtoms(tools.naming, job.Bound(), owners, SideAtoms(job), Build(tools, job).value.units);
    StayingLinesAre(tools, job, owners, withdrawn);
  }

  lemma KeptUnitIs(tools: Tools, job: Job, owners: LineOwners, gone: set<string>, kept: seq<Unit>, u: Unit, v: Unit)
    requires RegionsProper(job.analysis.regions) && Kept(tools, job, owners, gone, kept)
    requires u in BoundUnits(tools, job, owners).value && v in kept && Shrunk(Keeping(owners, gone), u, v)
    ensures var staying := StayingLines(tools, job);
      (exists r :: OfRegion(job, staying, r, v)) || exists d :: d in DeclaredUnits(tools, job) && OfDeclared(job, staying, d, v)
  {
    BoundIsPlaced(tools.naming, job, owners, v);
    BoundOrigin(tools, job, owners, u);
    if a :| a in Assignments(job.analysis.regions, owners.Keys) && RegionStep(BindingOf(tools, job), owners)(a) == Some(u) {
      RegionKept(tools, job, owners, StayingLines(tools, job), gone, a, u, v);
    } else {
      var d :| d in DeclaredUnits(tools, job) && ScopeStep(BindingOf(tools, job), owners)(d) == Some(u);
      DeclaredKept(tools, job, owners, StayingLines(tools, job), gone, d, u, v);
    }
  }

  lemma StayingUnitKept(tools: Tools, job: Job, owners: LineOwners, gone: set<string>, kept: seq<Unit>, u: Unit) returns (v: Unit)
    requires Kept(tools, job, owners, gone, kept) && u in BoundUnits(tools, job, owners).value
    requires Stay(StayingLines(tools, job), u.fileChangedLines)
    ensures v in kept && Shrunk(Keeping(owners, gone), u, v) && Placed(job, v)
  {
    assert BoundUnit(tools.naming, job.Bound(), owners, u);
    StayingIdOf(owners, gone, StayingLines(tools, job), u);
    assert GoesOn(Keeping(owners, gone), u, kept);
    v :| v in kept && Shrunk(Keeping(owners, gone), u, v);
    BoundIsPlaced(tools.naming, job, owners, v);
  }

  lemma RegionHasUnit(tools: Tools, job: Job, owners: LineOwners, gone: set<string>, kept: seq<Unit>, r: Region, line: nat) returns (v: Unit)
    requires RegionsProper(job.analysis.regions) && Kept(tools, job, owners, gone, kept)
    requires r in job.analysis.regions && GetsLine(job, r, line) && line in StayingLines(tools, job)
    ensures v in kept && OfRegion(job, StayingLines(tools, job), r, v)
  {
    GetsLineIs(job, r, line);
    ChosenIffAssigned(job.analysis.regions, owners.Keys, r);
    var a :| a in Assignments(job.analysis.regions, owners.Keys) && a.region == r;
    AssignmentFacts(job.analysis.regions, owners, a);
    var u := RegionBound(tools, job, owners, a);
    RegionUnitParts(BindingOf(tools, job), owners, a);
    v := StayingUnitKept(tools, job, owners, gone, kept, u);
    RegionKept(tools, job, owners, StayingLines(tools, job), gone, a, u, v);
  }

  lemma DeclaredHasUnit(tools: Tools, job: Job, owners: LineOwners, gone: set<string>, kept: seq<Unit>, d: Unit) returns (v: Unit)
    requires Kept(tools, job, owners, gone, kept)
    requires d in DeclaredUnits(tools, job) && Stay(StayingLines(tools, job), d.fileChangedLines)
    ensures v in kept && OfDeclared(job, StayingLines(tools, job), d, v)
  {
    var u := DeclaredBound(tools, job, owners, d);
    DeclaredParts(BindingOf(tools, job), owners, d);
    v := StayingUnitKept(tools, job, owners, gone, kept, u);
    DeclaredKept(tools, job, owners, StayingLines(tools, job), gone, d, u, v);
  }

  ghost predicate HasOrigin(tools: Tools, job: Job, u: Unit) {
    || (exists r :: OfRegion(job, StayingLines(tools, job), r, u))
    || (exists d :: d in DeclaredUnits(tools, job) && OfDeclared(job, StayingLines(tools, job), d, u))
  }

  ghost predicate HasUnitOf(tools: Tools, job: Job, r: Region, units: seq<Unit>) {
    exists v :: v in units && OfRegion(job, StayingLines(tools, job), r, v)
  }

  ghost predicate HasRestOf(tools: Tools, job: Job, d: Unit, units: seq<Unit>) {
    exists v :: v in units && OfDeclared(job, StayingLines(tools, job), d, v)
  }

  /** The region gets a changed line of an atom that stays. */
  ghost predicate KeepsLine(tools: Tools, job: Job, r: Region) {
    exists line :: line in StayingLines(tools, job) && GetsLine(job, r, line)
  }

  lemma KeptHaveOrigins(tools: Tools, job: Job, owners: LineOwners, gone: set<string>, kept: seq<Unit>)
    requires RegionsProper(job.analysis.regions) && Kept(tools, job, owners, gone, kept)
    ensures forall v | v in kept :: HasOrigin(tools, job, v)
  {
    forall v | v in kept ensures HasOrigin(tools, job, v) {
      assert ComesFrom(StayingId(owners, gone), Keeping(owners, gone), BoundUnits(tools, job, owners).value, v);
      var u :| u in BoundUnits(tools, job, owners).value && Shrunk(Keeping(owners, gone), u, v);
      KeptUnitIs(tools, job, owners, gone, kept, u, v);
    }
  }

  lemma RegionsHaveUnits(tools: Tools, job: Job, owners: LineOwners, gone: set<string>, kept: seq<Unit>)
    requires RegionsProper(job.analysis.regions) && Kept(tools, job, owners, gone, kept)
    ensures forall r | r in job.analysis.regions && KeepsLine(tools, job, r) :: HasUnitOf(tools, job, r, kept)
  {
    forall r | r in job.analysis.regions && KeepsLine(tools, job, r) ensures HasUnitOf(tools, job, r, kept) {
      var line :| line in StayingLines(tools, job) && GetsLine(job, r, line);
      var v := RegionHasUnit(tools, job, owners, gone, kept, r, line);
    }
  }

  lemma DeclaredHaveUnits(tools: Tools, job: Job, owners: LineOwners, gone: set<string>, kept: seq<Unit>)
    requires Kept(tools, job, owners, gone, kept)
    ensures forall d | d in DeclaredUnits(tools, job) && Stay(StayingLines(tools, job), d.fileChangedLines) :: HasRestOf(tools, job, d, kept)
  {
    forall d | d in DeclaredUnits(tools, job) && Stay(StayingLines(tools, job), d.fileChangedLines) ensures HasRestOf(tools, job, d, kept) {
      var v := DeclaredHasUnit(tools, job, owners, gone, kept, d);
    }
  }

  lemma NoAtomsNoUnits(tools: Tools, job: Job)
    requires SideAtoms(job) == [] && Build(tools, job).Some?
    ensures Build(tools, job).value.units == [] && StayingLines(tools, job) == {}
  {
  }

  /** A unit for every region that keeps a line, the rest of every declared unit that
      keeps one, and no others. */
  ghost predicate UnitsSay(tools: Tools, job: Job, units: seq<Unit>) {
    && (forall u | u in units :: HasOrigin(tools, job, u))
    && (forall r | r in job.analysis.regions && KeepsLine(tools, job, r) :: HasUnitOf(tools, job, r, units))
    && (forall d | d in DeclaredUnits(tools, job) && Stay(StayingLines(tools, job), d.fileChangedLines) :: HasRestOf(tools, job, d, units))
  }

  /** A built side has exactly these units. */
  lemma SideUnitsAre(tools: Tools, job: Job)
    requires AtomsProper(job.atoms) && RegionsProper(job.analysis.regions) && Build(tools, job).Some?
    ensures UnitsSay(tools, job, Build(tools, job).value.units)
  {
    if SideAtoms(job) == [] {
      NoAtomsNoUnits(tools, job);
    } else {
      var owners, gone := BuiltIsKept(tools, job);
      KeptHaveOrigins(tools, job, owners, gone, Build(tools, job).value.units);
      RegionsHaveUnits(tools, job, owners, gone, Build(tools, job).value.units);
      DeclaredHaveUnits(tools, job, owners, gone, Build(tools, job).value.units);
    }
  }
}
