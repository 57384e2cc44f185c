/** When one source side builds, in terms of the parse, the atoms and what the
    declaration builder returns. */
module SourceSuccess {
  import opened Ordering
  import opened Sorting
  import opened SourceText
  import opened ChangeModel
  import opened FileAnalysis
  import opened LineRuns
  import opened RegionAssignment
  import opened ReviewUnits
  import opened SourceResult
  import opened SourceProofs

  // ------------------------------------------------------------ the condition

  /** The changed lines no region contains go to the declaration builder. */
  function LeftLines(job: Job): set<nat> {
    RemainingLines(job.analysis.regions, ChangedLines(job))
  }

  function DeclaredUnits(tools: Tools, job: Job): seq<Unit> {
    DeclarationUnits(tools, job, LeftLines(job))
  }

  /** What the declaration builder owes for one unit: a fresh valid unit of the file,
      over lines it was given and none outside its context, with an owner unless it is
      a fallback, with its text and with the quality codes the warnings ask for. */
  ghost predicate BuilderUnitOk(tools: Tools, job: Job, u: Unit) {
    && UnitOk(tools.naming, u) && u.scope.None? && u.identity.kind !in REGION_KINDS
    && u.identity.file == job.snapshot.ref.path && u.sourceRefId == Some(job.snapshot.ref.id)
    && (u.identity.kind != "fallback" ==> u.owner.Some?)
    && u.outsideLines == [] && u.fileChangedLines != []
    && (forall line | line in u.fileChangedLines :: line in LeftLines(job))
    && TextOk(job.snapshot.content, u)
    && RequiredCodes(job.analysis.quality) <= u.quality
  }

  ghost predicate LineRespecting(tools: Tools, job: Job) {
    forall u | u in DeclaredUnits(tools, job) :: BuilderUnitOk(tools, job, u)
  }

  /** An id can be made for the region: its offset range is not empty. */
  predicate Nameable(r: Region) { r.range.startOffset < r.range.endOffset }

  predicate Chosen(job: Job, r: Region) {
    r in job.analysis.regions && RegionLines(job.analysis.regions, ChangedLines(job), r) != {}
  }

  /** The regions get one unit id. */
  predicate SameName(r: Region, q: Region) {
    r.kind == q.kind && r.symbol == q.symbol && r.range == q.range
  }

  /** The lines of the atoms that stay: those none of whose lines is lost. */
  ghost function StayingLines(tools: Tools, job: Job): set<nat> {
    set a, line | a in SideAtoms(job) && line in SideLines(a, job.role) && !LosesLine(tools, job, a) :: line
  }

  ghost predicate Stay(staying: set<nat>, lines: seq<nat>) {
    exists line :: line in lines && line in staying
  }

  ghost predicate RegionStays(job: Job, staying: set<nat>, r: Region) {
    exists line :: line in RegionLines(job.analysis.regions, ChangedLines(job), r) && line in staying
  }

  /** Of two regions with one name, neither keeps a line. */
  ghost predicate NoTwins(job: Job, staying: set<nat>) {
    forall r, q | r in job.analysis.regions && q in job.analysis.regions && r != q && SameName(r, q) ::
      !RegionStays(job, staying, r)
  }

  /** Units that keep a line have different names. */
  ghost predicate NamesApart(built: seq<Unit>, staying: set<nat>) {
    forall i, j | 0 <= i < j < |built| && Stay(staying, built[i].fileChangedLines) && Stay(staying, built[j].fileChangedLines) ::
      NameOf(built[i].identity) != NameOf(built[j].identity)
  }

  /** Region units only carry the codes that node counts and diagnostics give. */
  ghost predicate QualityAgrees(job: Job, staying: set<nat>) {
    (exists r :: r in job.analysis.regions && RegionStays(job, staying, r)) ==>
      RequiredCodes(job.analysis.quality) <= QualityCodes(job.analysis)
  }

  /** Every chosen region can be named; of regions with one name none keeps a line;
      declared units that keep a line have different names; and where a region keeps a
      line, the warnings ask for no code that node counts and diagnostics do not give. */
  ghost predicate Buildable(tools: Tools, job: Job) {
    var staying := StayingLines(tools, job);
    && (forall r | Chosen(job, r) :: Nameable(r))
    && NoTwins(job, staying)
    && NamesApart(DeclaredUnits(tools, job), staying)
    && QualityAgrees(job, staying)
  }

  // ------------------------------------------------------- making the units

  lemma SortedLinesOk(lines: set<nat>)
    requires forall line | line in lines :: line >= 1
    ensures LinesOk(SortedLines(lines))
  {
    StrictNumbers(SortedLines(lines));
    forall i | 0 <= i < |SortedLines(lines)| ensures SortedLines(lines)[i] >= 1 {
      assert SortedLines(lines)[i] in SortedLines(lines);
    }
  }

  lemma RegionLinesFit(b: Binding, owners: LineOwners, a: Assignment)
    requires a.region.range.Valid() && LinesOk(a.lines) && AllOwned(owners, a.lines)
    requires forall line | line in a.lines :: a.region.ContainsLine(line)
    ensures LinesFit(RegionUnitDraft(b, owners, a))
  {
    var span := LineSpan(a.region.range.startLine, a.region.range.endLine);
    assert forall line | line in a.lines :: InSpan(span, line);
    ProjectAll(a.lines, span);
  }

  lemma RegionDraftParts(b: Binding, owners: LineOwners, a: Assignment)
    requires RegionShapeOk(a.region) && a.lines != [] && AllOwned(owners, a.lines)
    ensures var u := RegionUnitDraft(b, owners, a);
      NamesOk(u) && OwnedOk(u) && QualityOk(u) && (IdentityOk(b.naming, u) <==> Nameable(a.region))
  {
  }

  lemma RegionDraftOkIff(b: Binding, owners: LineOwners, a: Assignment)
    requires RegionShapeOk(a.region) && a.lines != [] && LinesOk(a.lines) && AllOwned(owners, a.lines)
    requires forall line | line in a.lines :: a.region.ContainsLine(line)
    ensures UnitOk(b.naming, RegionUnitDraft(b, owners, a)) <==> Nameable(a.region)
  {
    RegionLinesFit(b, owners, a);
    RegionDraftParts(b, owners, a);
  }

  lemma AssignmentFacts(regions: seq<Region>, owners: LineOwners, a: Assignment)
    requires RegionsProper(regions) && a in Assignments(regions, owners.Keys)
    ensures a.region in regions && RegionShapeOk(a.region)
    ensures a.lines != [] && LinesOk(a.lines) && AllOwned(owners, a.lines)
    ensures forall line | line in a.lines :: a.region.ContainsLine(line)
    ensures forall line :: line in a.lines <==> line in RegionLines(regions, owners.Keys, a.region)
  {
    AssignmentMembers(regions, owners.Keys);
    var lines := RegionLines(regions, owners.Keys, a.region);
    assert a.lines == SortedLines(lines);
    forall line | line in a.lines ensures line in owners && a.region.ContainsLine(line) {
      assert line in lines;
    }
    SortedLinesOk(lines);
    var line :| line in lines;
    assert line in a.lines;
  }

  /** A region unit can be made exactly when the region can be named. */
  lemma RegionStepSucceedsIff(b: Binding, owners: LineOwners, regions: seq<Region>, a: Assignment)
    requires RegionsProper(regions) && a in Assignments(regions, owners.Keys)
    ensures RegionStep(b, owners)(a).Some? <==> Nameable(a.region)
    ensures RegionStep(b, owners)(a).Some? ==>
      RegionStep(b, owners)(a).value.outsideLines == [] && TextOk(b.content, RegionStep(b, owners)(a).value)
  {
    AssignmentFacts(regions, owners, a);
    RegionDraftOkIff(b, owners, a);
  }

  lemma AssignedNameable(tools: Tools, job: Job, owners: LineOwners)
    requires RegionsProper(job.analysis.regions)
    ensures RegionUnits(tools, job, owners).Some?
       <==> forall a | a in Assignments(job.analysis.regions, owners.Keys) :: Nameable(a.region)
  {
    var regions, b := job.analysis.regions, BindingOf(tools, job);
    var step := RegionStep(b, owners);
    TraverseSpec(step, Assignments(regions, owners.Keys));
    forall a | a in Assignments(regions, owners.Keys) ensures step(a).Some? <==> Nameable(a.region) {
      RegionStepSucceedsIff(b, owners, regions, a);
    }
  }

  lemma ChosenIffAssigned(regions: seq<Region>, changed: set<nat>, r: Region)
    ensures (r in regions && RegionLines(regions, changed, r) != {})
       <==> exists a :: a in Assignments(regions, changed) && a.region == r
  {
    AssignmentMembers(regions, changed);
    if r in regions && RegionLines(regions, changed, r) != {} {
      assert Assignment(r, SortedLines(RegionLines(regions, changed, r))) in Assignments(regions, changed);
    }
  }

  lemma RegionUnitsSucceedIff(tools: Tools, job: Job, owners: LineOwners)
    requires RegionsProper(job.analysis.regions) && owners.Keys == ChangedLines(job)
    ensures RegionUnits(tools, job, owners).Some? <==> forall r | Chosen(job, r) :: Nameable(r)
  {
    AssignedNameable(tools, job, owners);
    forall r ensures Chosen(job, r) <==> exists a :: a in Assignments(job.analysis.regions, owners.Keys) && a.region == r {
      ChosenIffAssigned(job.analysis.regions, owners.Keys, r);
    }
  }

  lemma ScopedUnitsSucceed(tools: Tools, job: Job, owners: LineOwners)
    requires LineRespecting(tools, job) && owners.Keys == ChangedLines(job)
    ensures ScopedUnits(tools, job, owners).Some?
  {
    var b, built := BindingOf(tools, job), Built(tools, job, owners);
    TraverseSpec(ScopeStep(b, owners), built);
    forall u | u in built ensures ScopeStep(b, owners)(u).Some? {
      assert BuilderUnitOk(tools, job, u);
      ScopedUnitSucceedsIff(b.naming, b.scope, owners, b.codes, u);
    }
  }

  /** A unit as every later step finds it. */
  ghost predicate MadeOk(tools: Tools, job: Job, u: Unit) {
    u.outsideLines == [] && u.identity.file == job.snapshot.ref.path && TextOk(job.snapshot.content, u)
  }

  lemma RegionUnitsMade(tools: Tools, job: Job, owners: LineOwners)
    requires RegionsProper(job.analysis.regions) && RegionUnits(tools, job, owners).Some?
    ensures forall u | u in RegionUnits(tools, job, owners).value :: MadeOk(tools, job, u)
  {
    var us := RegionUnits(tools, job, owners).value;
    RegionUnitCount(tools, job, owners);
    forall u | u in us ensures MadeOk(tools, job, u) {
      var k :| 0 <= k < |us| && us[k] == u;
      RegionUnitAt(tools, job, owners, k);
      var a := Assignments(job.analysis.regions, owners.Keys)[k];
      RegionStepSucceedsIff(BindingOf(tools, job), owners, job.analysis.regions, a);
    }
  }

  lemma ScopedUnitKeeps(b: Binding, owners: LineOwners, u: Unit)
    requires ScopeStep(b, owners)(u).Some?
    ensures var v := ScopeStep(b, owners)(u).value;
      v.outsideLines == u.outsideLines && v.identity == u.identity && v.text == u.text
  {
  }

  lemma ScopedUnitsMade(tools: Tools, job: Job, owners: LineOwners)
    requires LineRespecting(tools, job) && owners.Keys == ChangedLines(job) && ScopedUnits(tools, job, owners).Some?
    ensures forall v | v in ScopedUnits(tools, job, owners).value :: MadeOk(tools, job, v)
  {
    var vs := ScopedUnits(tools, job, owners).value;
    RegionUnitCount(tools, job, owners);
    forall v | v in vs ensures MadeOk(tools, job, v) {
      var k :| 0 <= k < |vs| && vs[k] == v;
      ScopedUnitAt(tools, job, owners, k);
      var u := Built(tools, job, owners)[k];
      assert u in DeclaredUnits(tools, job) && BuilderUnitOk(tools, job, u);
      ScopedUnitKeeps(BindingOf(tools, job), owners, u);
    }
  }

  lemma SortedMade(tools: Tools, job: Job, us: seq<Unit>, vs: seq<Unit>)
    requires forall u | u in us :: MadeOk(tools, job, u)
    requires forall v | v in vs :: MadeOk(tools, job, v)
    ensures forall u | u in SortBy(us + vs, UnitKey) :: MadeOk(tools, job, u)
    ensures TextsOk(job.snapshot.content, SortBy(us + vs, UnitKey))
  {
    SortBySorts(us + vs, UnitKey);
    forall u | u in SortBy(us + vs, UnitKey) ensures MadeOk(tools, job, u) {
      assert u in us + vs;
    }
  }

  lemma BoundFromBoth(tools: Tools, job: Job, owners: LineOwners, us: seq<Unit>, vs: seq<Unit>)
    requires RegionUnits(tools, job, owners) == Some(us) && ScopedUnits(tools, job, owners) == Some(vs)
    requires TextsOk(job.snapshot.content, SortBy(us + vs, UnitKey))
    ensures BoundUnits(tools, job, owners) == Some(SortBy(us + vs, UnitKey))
  {
  }

  /** With a line-respecting builder all units of the side can be made and bound
      exactly when every chosen region can be named. */
  lemma BoundUnitsExistIff(tools: Tools, job: Job, owners: LineOwners)
    requires RegionsProper(job.analysis.regions) && LineRespecting(tools, job) && owners.Keys == ChangedLines(job)
    ensures BoundUnits(tools, job, owners).Some? <==> forall r | Chosen(job, r) :: Nameable(r)
    ensures BoundUnits(tools, job, owners).Some? ==>
      forall u | u in BoundUnits(tools, job, owners).value :: MadeOk(tools, job, u)
  {
    RegionUnitsSucceedIff(tools, job, owners);
    if RegionUnits(tools, job, owners).Some? {
      ScopedUnitsSucceed(tools, job, owners);
      RegionUnitsMade(tools, job, owners);
      ScopedUnitsMade(tools, job, owners);
      SortedMade(tools, job, RegionUnits(tools, job, owners).value, ScopedUnits(tools, job, owners).value);
      BoundFromBoth(tools, job, owners, RegionUnits(tools, job, owners).value, ScopedUnits(tools, job, owners).value);
    }
  }
}
