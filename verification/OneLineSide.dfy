/** A side whose only change is its only line, built without any declared unit: the
    regions alone decide whether it builds and whether the change stays. */
module OneLineSide {
  import opened Ordering
  import opened Sorting
  import opened SourceText
  import opened ChangeModel
  import opened FileAnalysis
  import opened LineRuns
  import opened RegionAssignment
  import opened ReviewUnits
  import opened SourceResult
  import opened SourceProofs
  import opened SourceSuccess

  const LINE := ExactRange(1, 1, 0, 1)

  /** A declaration builder that finds no declaration around any line. */
  function NoUnits(snapshot: Snapshot, analysis: Analysis, hunks: seq<Hunk>): seq<Unit> { [] }

  /** The atom replaces line 1, all there is. */
  predicate ReplacesTheLine(a: ChangeAtom) {
    && a.kind == Replacement && a.oldRef.Some? && a.newRef.Some?
    && a.oldSpan == Some(LINE) && a.newSpan == Some(LINE)
    && a.deletedLines == [1] && a.addedLines == [1]
  }

  predicate OneLineJob(job: Job, a: ChangeAtom) {
    && ReplacesTheLine(a) && job.atoms == [a]
    && SideRef(a, job.role) == Some(job.snapshot.ref.id)
  }

  lemma SideIsAtom(job: Job, a: ChangeAtom)
    requires OneLineJob(job, a)
    ensures SideAtoms(job) == [a] && ChangedLines(job) == {1}
  {
    assert [a][1..] == [];
    assert AtomsOn([], job.role, job.snapshot.ref.id) == [];
    assert SideAtoms(job) == [a];
    assert a in SideAtoms(job) && 1 in SideLines(a, job.role);
    forall line | line in ChangedLines(job) ensures line == 1 {
      assert line in SideLines(a, job.role);
    }
  }

  lemma NothingDeclared(naming: Naming, job: Job)
    ensures DeclaredUnits(Tools(naming, NoUnits), job) == []
    ensures LineRespecting(Tools(naming, NoUnits), job)
  {
  }

  /** The atom loses its line exactly when no region contains it. */
  lemma LosesIff(naming: Naming, job: Job, a: ChangeAtom)
    requires OneLineJob(job, a)
    ensures LosesLine(Tools(naming, NoUnits), job, a) <==> !HasRegion(job.analysis.regions, 1)
  {
    var tools := Tools(naming, NoUnits);
    NothingDeclared(naming, job);
    assert forall line :: line in SideLines(a, job.role) <==> line == 1;
    assert Coverable(tools, job, 1) <==> HasRegion(job.analysis.regions, 1);
  }

  lemma StayingIs(naming: Naming, job: Job, a: ChangeAtom)
    requires OneLineJob(job, a)
    ensures 1 in StayingLines(Tools(naming, NoUnits), job) <==> HasRegion(job.analysis.regions, 1)
  {
    SideIsAtom(job, a);
    LosesIff(naming, job, a);
    assert 1 in SideLines(a, job.role);
  }

  /** Every region of one range around the line gets it. */
  lemma RegionGetsLine(job: Job, a: ChangeAtom, r: Region)
    requires OneLineJob(job, a) && r in job.analysis.regions && r.ContainsLine(1)
    requires forall q | q in job.analysis.regions :: q.range == r.range
    ensures 1 in RegionLines(job.analysis.regions, ChangedLines(job), r)
  {
    SideIsAtom(job, a);
    forall other | other in Candidates(job.analysis.regions, 1) ensures !StrictlyAround(r, other) {
      assert other in job.analysis.regions;
    }
  }

  lemma RegionKeepsLine(naming: Naming, job: Job, a: ChangeAtom, r: Region)
    requires OneLineJob(job, a) && r in job.analysis.regions && r.ContainsLine(1)
    requires forall q | q in job.analysis.regions :: q.range == r.range
    ensures RegionStays(job, StayingLines(Tools(naming, NoUnits), job), r)
  {
    RegionGetsLine(job, a, r);
    StayingIs(naming, job, a);
    assert HasRegion(job.analysis.regions, 1);
  }

  // -------------------------------------------------------------- the cases

  /** At most one region, not empty and of agreeing quality: the side builds. */
  lemma OneRegionBuildable(naming: Naming, job: Job, a: ChangeAtom)
    requires OneLineJob(job, a)
    requires |job.analysis.regions| <= 1 && forall r | r in job.analysis.regions :: Nameable(r)
    requires RequiredCodes(job.analysis.quality) <= QualityCodes(job.analysis)
    ensures Buildable(Tools(naming, NoUnits), job)
  {
    NothingDeclared(naming, job);
    NothingClashes(StayingLines(Tools(naming, NoUnits), job));
    OneRegionNoTwins(job, StayingLines(Tools(naming, NoUnits), job));
  }

  lemma NothingClashes(staying: set<nat>)
    ensures NamesApart([], staying)
  {
  }

  lemma OneRegionNoTwins(job: Job, staying: set<nat>)
    requires |job.analysis.regions| <= 1
    ensures NoTwins(job, staying)
  {
    var regions := job.analysis.regions;
    assert forall r, q | r in regions && q in regions :: r == q;
  }

  /** A region of no characters around the line: its unit cannot get an id. */
  lemma EmptyRegionUnbuildable(naming: Naming, job: Job, a: ChangeAtom, r: Region)
    requires OneLineJob(job, a) && job.analysis.regions == [r] && r.ContainsLine(1) && !Nameable(r)
    ensures !Buildable(Tools(naming, NoUnits), job)
  {
    RegionGetsLine(job, a, r);
    assert Chosen(job, r);
  }

  /** Two regions of one kind, symbol and range around the line: one id for two units. */
  lemma TwinsUnbuildable(naming: Naming, job: Job, a: ChangeAtom, r: Region, q: Region)
    requires OneLineJob(job, a) && r in job.analysis.regions && q in job.analysis.regions && r != q && SameName(r, q)
    requires forall s | s in job.analysis.regions :: s.range == r.range
    requires r.ContainsLine(1)
    ensures !Buildable(Tools(naming, NoUnits), job)
  {
    RegionKeepsLine(naming, job, a, r);
  }

  /** A warning that neither node counts nor diagnostics repeat. */
  lemma GapUnbuildable(naming: Naming, job: Job, a: ChangeAtom, r: Region)
    requires OneLineJob(job, a) && job.analysis.regions == [r] && r.ContainsLine(1)
    requires !(RequiredCodes(job.analysis.quality) <= QualityCodes(job.analysis))
    ensures !Buildable(Tools(naming, NoUnits), job)
  {
    RegionKeepsLine(naming, job, a, r);
  }
}
