/** One source side builds exactly when it is `Buildable`. */
module SideBuilds {
  import opened Ordering
  import opened Sorting
  import opened ChangeModel
  import opened FileAnalysis
  import opened RegionAssignment
  import opened ReviewUnits
  import opened SourceResult
  import opened SourceProofs
  import opened SourceSuccess
  import opened SideOutcome

  // ------------------------------------------------------------ unique ids

  /** The ids the final units carry are pairwise distinct exactly when no region twins
      and no equally named declared units keep a line. */
  lemma IdsDistinctIff(tools: Tools, job: Job, owners: LineOwners, staying: set<nat>, ids: Unit -> seq<string>)
    requires SoundNaming(tools.naming) && RegionsProper(job.analysis.regions) && LineRespecting(tools, job)
    requires owners.Keys == ChangedLines(job) && BoundUnits(tools, job, owners).Some?
    requires ListsStaying(staying, ids, BoundUnits(tools, job, owners).value)
    ensures NoRepeats(Flat(ids, BoundUnits(tools, job, owners).value))
       <==> NoTwins(job, staying) && NamesApart(DeclaredUnits(tools, job), staying)
  {
    BoundMembers(tools, job, owners);
    var us, vs := RegionUnits(tools, job, owners).value, ScopedUnits(tools, job, owners).value;
    SortKeepsRepeats(staying, ids, us + vs);
    ListsParts(staying, ids, us, vs);
    NoRepeatsIffApart(ids, us + vs);
    AssignmentsAre(job, owners);
    RegionUnitsMadeFor(tools, job, owners);
    DeclaredUnitsBound(tools, job, owners);
    BuilderKinds(tools, job);
    SortsApart(tools, job, ids, Assignments(job.analysis.regions, owners.Keys), us, DeclaredUnits(tools, job), vs);
    ApartJoin(ids, us, vs);
    RegionUnitsApartIff(tools, job, owners, staying, ids, us);
    DeclaredUnitsApartIff(tools, job, staying, ids, DeclaredUnits(tools, job), vs);
  }

  lemma BuilderKinds(tools: Tools, job: Job)
    requires LineRespecting(tools, job)
    ensures forall u | u in DeclaredUnits(tools, job) :: u.identity.kind !in REGION_KINDS
  {
    forall u | u in DeclaredUnits(tools, job) ensures u.identity.kind !in REGION_KINDS {
      assert BuilderUnitOk(tools, job, u);
    }
  }

  /** Sorting changes neither what is listed nor whether ids repeat. */
  lemma SortKeepsRepeats(staying: set<nat>, ids: Unit -> seq<string>, units: seq<Unit>)
    requires ListsStaying(staying, ids, SortBy(units, UnitKey))
    ensures ListsStaying(staying, ids, units) && forall u | u in units :: ids(u) == [] || ids(u) == [u.id]
    ensures NoRepeats(Flat(ids, SortBy(units, UnitKey))) <==> NoRepeats(Flat(ids, units))
  {
    var sorted := SortBy(units, UnitKey);
    SortBySorts(units, UnitKey);
    forall u | u in units ensures ids(u) == if Stay(staying, u.fileChangedLines) then [u.id] else [] {
      assert u in sorted;
      var k :| 0 <= k < |sorted| && sorted[k] == u;
    }
    FlatBag(ids, units, sorted);
    SameBagRepeats(Flat(ids, units), Flat(ids, sorted));
  }

  lemma SameBagRepeats<T>(xs: seq<T>, ys: seq<T>)
    requires multiset(xs) == multiset(ys)
    ensures NoRepeats(xs) <==> NoRepeats(ys)
  {
    if NoRepeats(xs) {
      NoRepeatsBag(xs, ys);
    }
    if NoRepeats(ys) {
      NoRepeatsBag(ys, xs);
    }
  }

  lemma ListsParts(staying: set<nat>, ids: Unit -> seq<string>, us: seq<Unit>, vs: seq<Unit>)
    requires ListsStaying(staying, ids, us + vs)
    ensures ListsStaying(staying, ids, us) && ListsStaying(staying, ids, vs)
  {
    forall i | 0 <= i < |us| ensures ids(us[i]) == if Stay(staying, us[i].fileChangedLines) then [us[i].id] else [] {
      assert (us + vs)[i] == us[i];
    }
    forall i | 0 <= i < |vs| ensures ids(vs[i]) == if Stay(staying, vs[i].fileChangedLines) then [vs[i].id] else [] {
      assert (us + vs)[|us| + i] == vs[i];
    }
  }

  // --------------------------------------------------------------- quality

  predicate HasCodes(required: set<QualityCode>, u: Unit) { required <= u.quality }

  /** Every listed unit carries the required codes. */
  ghost predicate ListedCarry(required: set<QualityCode>, ids: Unit -> seq<string>, units: seq<Unit>) {
    forall u | u in units && ids(u) != [] :: HasCodes(required, u)
  }

  ghost predicate AllCarry(required: set<QualityCode>, units: seq<Unit>) {
    forall u | u in units :: HasCodes(required, u)
  }

  lemma KeptCarryIff(required: set<QualityCode>, ids: Unit -> seq<string>, keep: seq<nat> -> seq<nat>, units: seq<Unit>, kept: seq<Unit>)
    requires Carries(ids, keep, units, kept)
    ensures AllCarry(required, kept) <==> ListedCarry(required, ids, units)
  {
    if AllCarry(required, kept) {
      KeptCarry(required, ids, keep, units, kept);
    }
    if ListedCarry(required, ids, units) {
      forall v | v in kept ensures HasCodes(required, v) {
        assert ComesFrom(ids, keep, units, v);
        var u :| u in units && ids(u) != [] && Shrunk(keep, u, v);
        assert HasCodes(required, u);
      }
    }
  }

  lemma KeptCarry(required: set<QualityCode>, ids: Unit -> seq<string>, keep: seq<nat> -> seq<nat>, units: seq<Unit>, kept: seq<Unit>)
    requires Carries(ids, keep, units, kept) && AllCarry(required, kept)
    ensures ListedCarry(required, ids, units)
  {
    forall u | u in units && ids(u) != [] ensures HasCodes(required, u) {
      assert GoesOn(keep, u, kept);
      var v :| v in kept && Shrunk(keep, u, v);
      assert HasCodes(required, v);
    }
  }

  lemma DeclaredCarry(tools: Tools, job: Job, vs: seq<Unit>)
    requires LineRespecting(tools, job) && BoundAs(tools, job, DeclaredUnits(tools, job), vs)
    ensures AllCarry(RequiredCodes(job.analysis.quality), vs)
  {
    forall v | v in vs ensures HasCodes(RequiredCodes(job.analysis.quality), v) {
      var k :| 0 <= k < |vs| && vs[k] == v;
      assert BuilderUnitOk(tools, job, DeclaredUnits(tools, job)[k]);
    }
  }

  lemma RegionsCarryIff(tools: Tools, job: Job, owners: LineOwners, staying: set<nat>, ids: Unit -> seq<string>, us: seq<Unit>)
    requires RegionsProper(job.analysis.regions) && owners.Keys == ChangedLines(job)
    requires RegionUnits(tools, job, owners) == Some(us) && ListsStaying(staying, ids, us)
    ensures ListedCarry(RequiredCodes(job.analysis.quality), ids, us) <==> QualityAgrees(job, staying)
  {
    var assignments := Assignments(job.analysis.regions, owners.Keys);
    AssignmentsAre(job, owners);
    RegionUnitsMadeFor(tools, job, owners);
    forall k | 0 <= k < |us| ensures ids(us[k]) != [] <==> RegionStays(job, staying, assignments[k].region) {
      UnitStaysIff(job, staying, assignments[k], us[k]);
    }
    if r :| r in job.analysis.regions && RegionStays(job, staying, r) {
      var k := StayingRegionAssigned(job, owners, staying, r);
      assert us[k] in us && ids(us[k]) != [];
    }
  }

  lemma ListedCarryJoin(required: set<QualityCode>, ids: Unit -> seq<string>, us: seq<Unit>, vs: seq<Unit>, all: seq<Unit>)
    requires forall u :: u in all <==> u in us || u in vs
    requires AllCarry(required, vs)
    ensures ListedCarry(required, ids, all) <==> ListedCarry(required, ids, us)
  {
  }

  /** All units that keep a line carry the required codes exactly when node counts and
      diagnostics give them, wherever a region keeps a line. */
  lemma QualityIff(tools: Tools, job: Job, owners: LineOwners, staying: set<nat>, ids: Unit -> seq<string>)
    requires RegionsProper(job.analysis.regions) && LineRespecting(tools, job)
    requires owners.Keys == ChangedLines(job) && BoundUnits(tools, job, owners).Some?
    requires ListsStaying(staying, ids, BoundUnits(tools, job, owners).value)
    ensures ListedCarry(RequiredCodes(job.analysis.quality), ids, BoundUnits(tools, job, owners).value)
       <==> QualityAgrees(job, staying)
  {
    BoundMembers(tools, job, owners);
    var us, vs := RegionUnits(tools, job, owners).value, ScopedUnits(tools, job, owners).value;
    SortKeepsRepeats(staying, ids, us + vs);
    ListsParts(staying, ids, us, vs);
    DeclaredUnitsBound(tools, job, owners);
    DeclaredCarry(tools, job, vs);
    RegionsCarryIff(tools, job, owners, staying, ids, us);
    ListedCarryJoin(RequiredCodes(job.analysis.quality), ids, us, vs, BoundUnits(tools, job, owners).value);
  }

  // -------------------------------------------------------- the result's checks

  lemma ReportedLineNotShown(tools: Tools, job: Job, owners: LineOwners, units: seq<Unit>, kept: seq<Unit>, line: nat)
    requires OwnersAre(owners, SideAtoms(job), job.role) && AtomsProper(SideAtoms(job))
    requires job.role == Head && BoundUnits(tools, job, owners) == Some(units)
    requires AllBound(tools.naming, job.Bound(), owners, kept)
    requires Separated(job.role, SideAtoms(job), kept, Unassigned(units, owners, SideAtoms(job), job.role))
    requires line in UnassignedLines(tools, job, owners, Unassigned(units, owners, SideAtoms(job), job.role))
    ensures line !in NewLinesOf(kept)
  {
    var withdrawn := Unassigned(units, owners, SideAtoms(job), job.role);
    ReportedIffWithdrawn(tools, job, owners, units, line);
    WithdrawnOwnersUnshown(tools.naming, job.Bound(), owners, SideAtoms(job), kept, withdrawn, line);
    forall u | u in kept ensures line !in u.changedNewLines {
      assert BoundUnit(tools.naming, job.Bound(), owners, u);
      assert u.changedNewLines == Effective(u);
    }
  }

  lemma KeptUnitsSeparated(tools: Tools, job: Job, owners: LineOwners, units: seq<Unit>, withdrawn: seq<string>, kept: seq<Unit>)
    requires OwnersAre(owners, SideAtoms(job), job.role) && AtomsProper(SideAtoms(job))
    requires BoundUnits(tools, job, owners) == Some(units)
    requires withdrawn == Unassigned(units, owners, SideAtoms(job), job.role)
    requires KeptUnits(tools, job, owners, units, withdrawn) == Some(kept)
    ensures AllBound(tools.naming, job.Bound(), owners, kept) && Sorted(kept, UnitKey)
    ensures Separated(job.role, SideAtoms(job), kept, withdrawn)
  {
    BoundUnitsAllBound(tools, job, owners);
    KeptUnitsSpec(tools, job, owners, units);
  }

  /** What the result says about lines and atoms always passes its checks. */
  lemma FinalReportsOk(tools: Tools, job: Job, owners: LineOwners, units: seq<Unit>, kept: seq<Unit>)
    requires OwnersAre(owners, SideAtoms(job), job.role) && AtomsProper(SideAtoms(job))
    requires BoundUnits(tools, job, owners) == Some(units)
    requires AllBound(tools.naming, job.Bound(), owners, kept)
    requires Separated(job.role, SideAtoms(job), kept, Unassigned(units, owners, SideAtoms(job), job.role))
    ensures var withdrawn := Unassigned(units, owners, SideAtoms(job), job.role);
      ReportsOk(ResultOf(job, kept, UnassignedLines(tools, job, owners, withdrawn), withdrawn))
  {
    var withdrawn := Unassigned(units, owners, SideAtoms(job), job.role);
    var lines := UnassignedLines(tools, job, owners, withdrawn);
    forall line | line in lines ensures line !in NewLinesOf(kept) {
      ReportedLineNotShown(tools, job, owners, units, kept, line);
    }
    WithdrawnNotNamed(kept, withdrawn);
  }

  lemma WithdrawnNotNamed(kept: seq<Unit>, withdrawn: seq<string>)
    requires forall u, id | u in kept && id in u.atomIds :: id !in withdrawn
    ensures forall id | id in withdrawn :: id !in NamedAtoms(kept)
  {
  }

  lemma KeptUnitsExist(tools: Tools, job: Job, owners: LineOwners, units: seq<Unit>, withdrawn: seq<string>)
    requires AllBound(tools.naming, job.Bound(), owners, units) && forall u | u in units :: u.outsideLines == []
    ensures KeptUnits(tools, job, owners, units, withdrawn).Some?
  {
    var gone := AsSet(withdrawn);
    var step := KeepStep(tools.naming, job.role, owners, gone);
    TraverseSpec(step, units);
    forall u | u in units ensures step(u).Some? {
      assert BoundUnit(tools.naming, job.Bound(), owners, u);
      KeepStepSucceeds(tools.naming, job.role, owners, gone, u);
    }
  }

  lemma KeptFilesAndScopes(naming: Naming, scope: Scope, owners: LineOwners, path: string, ids: Unit -> seq<string>,
                            keep: seq<nat> -> seq<nat>, units: seq<Unit>, kept: seq<Unit>)
    requires AllBound(naming, scope, owners, kept) && Carries(ids, keep, units, kept)
    requires forall u | u in units :: u.identity.file == path
    ensures forall v | v in kept :: UnitOk(naming, v) && v.identity.file == path && v.scope == Some(scope)
  {
    forall v | v in kept ensures UnitOk(naming, v) && v.identity.file == path && v.scope == Some(scope) {
      assert ComesFrom(ids, keep, units, v);
      assert BoundUnit(naming, scope, owners, v);
    }
  }

  lemma ResultOkIff(naming: Naming, r: FileResult)
    requires forall u | u in r.units :: UnitOk(naming, u) && u.identity.file == r.path && u.scope == Some(r.scope)
    requires Sorted(r.units, UnitKey) && ReportsOk(r)
    ensures ResultOk(naming, r) <==> NoRepeats(Map(IdOfUnit, r.units)) && AllCarry(RequiredCodes(r.parserQuality), r.units)
  {
    if ResultOk(naming, r) {
      forall u | u in r.units ensures HasCodes(RequiredCodes(r.parserQuality), u) {
        assert UnitFits(naming, r, u);
      }
    }
    if AllCarry(RequiredCodes(r.parserQuality), r.units) {
      forall u | u in r.units ensures UnitFits(naming, r, u) {
        assert HasCodes(RequiredCodes(r.parserQuality), u);
      }
    }
  }

  /** Once all units are bound, the side is finished exactly when names and quality of
      the units that keep a line agree. */
  lemma FinishSucceedsIff(tools: Tools, job: Job, owners: LineOwners, units: seq<Unit>)
    requires SoundNaming(tools.naming) && RegionsProper(job.analysis.regions) && LineRespecting(tools, job)
    requires OwnersAre(owners, SideAtoms(job), job.role) && AtomsProper(SideAtoms(job))
    requires BoundUnits(tools, job, owners) == Some(units) && forall u | u in units :: MadeOk(tools, job, u)
    ensures var staying := StayingLines(tools, job);
      Finish(tools, job, owners, units).Some? <==>
        NoTwins(job, staying) && NamesApart(DeclaredUnits(tools, job), staying) && QualityAgrees(job, staying)
  {
    var withdrawn := Unassigned(units, owners, SideAtoms(job), job.role);
    BoundUnitsAllBound(tools, job, owners);
    KeptUnitsExist(tools, job, owners, units, withdrawn);
    var kept := KeptUnits(tools, job, owners, units, withdrawn).value;
    FinishedIff(tools, job, owners, units, withdrawn, kept);
    OwnedLinesAreChanged(owners, job);
    var ids := StayingId(owners, AsSet(withdrawn));
    StayingLinesAre(tools, job, owners, withdrawn);
    StayingIdsListed(tools.naming, job.Bound(), owners, AsSet(withdrawn), StayingLines(tools, job), units);
    IdsDistinctIff(tools, job, owners, StayingLines(tools, job), ids);
    QualityIff(tools, job, owners, StayingLines(tools, job), ids);
  }

  /** What the side ends with. */
  function FinalResult(tools: Tools, job: Job, owners: LineOwners, kept: seq<Unit>, withdrawn: seq<string>): FileResult {
    ResultOf(job, kept, UnassignedLines(tools, job, owners, withdrawn), withdrawn)
  }

  lemma FinishIffResultOk(tools: Tools, job: Job, owners: LineOwners, units: seq<Unit>, withdrawn: seq<string>, kept: seq<Unit>)
    requires withdrawn == Unassigned(units, owners, SideAtoms(job), job.role)
    requires KeptUnits(tools, job, owners, units, withdrawn) == Some(kept)
    ensures Finish(tools, job, owners, units).Some? <==> ResultOk(tools.naming, FinalResult(tools, job, owners, kept, withdrawn))
  {
  }

  lemma FinalResultOkIff(tools: Tools, job: Job, owners: LineOwners, units: seq<Unit>, withdrawn: seq<string>, kept: seq<Unit>)
    requires OwnersAre(owners, SideAtoms(job), job.role) && AtomsProper(SideAtoms(job))
    requires BoundUnits(tools, job, owners) == Some(units) && forall u | u in units :: MadeOk(tools, job, u)
    requires withdrawn == Unassigned(units, owners, SideAtoms(job), job.role)
    requires KeptUnits(tools, job, owners, units, withdrawn) == Some(kept)
    requires Carries(StayingId(owners, AsSet(withdrawn)), Keeping(owners, AsSet(withdrawn)), units, kept)
    ensures ResultOk(tools.naming, FinalResult(tools, job, owners, kept, withdrawn))
       <==> NoRepeats(Map(IdOfUnit, kept)) && AllCarry(RequiredCodes(job.analysis.quality), kept)
  {
    KeptUnitsSeparated(tools, job, owners, units, withdrawn, kept);
    FinalReportsOk(tools, job, owners, units, kept);
    KeptFilesAndScopes(tools.naming, job.Bound(), owners, job.snapshot.ref.path, StayingId(owners, AsSet(withdrawn)),
                       Keeping(owners, AsSet(withdrawn)), units, kept);
    ResultOkIff(tools.naming, FinalResult(tools, job, owners, kept, withdrawn));
  }

  lemma FinishedIff(tools: Tools, job: Job, owners: LineOwners, units: seq<Unit>, withdrawn: seq<string>, kept: seq<Unit>)
    requires OwnersAre(owners, SideAtoms(job), job.role) && AtomsProper(SideAtoms(job))
    requires BoundUnits(tools, job, owners) == Some(units) && forall u | u in units :: MadeOk(tools, job, u)
    requires AllBound(tools.naming, job.Bound(), owners, units)
    requires withdrawn == Unassigned(units, owners, SideAtoms(job), job.role)
    requires KeptUnits(tools, job, owners, units, withdrawn) == Some(kept)
    ensures var ids := StayingId(owners, AsSet(withdrawn));
      Finish(tools, job, owners, units).Some? <==>
        NoRepeats(Flat(ids, units)) && ListedCarry(RequiredCodes(job.analysis.quality), ids, units)
  {
    var ids := StayingId(owners, AsSet(withdrawn));
    FinalUnits(tools, job, owners, units, withdrawn);
    SameBagRepeats(Map(IdOfUnit, kept), Flat(ids, units));
    KeptCarryIff(RequiredCodes(job.analysis.quality), ids, Keeping(owners, AsSet(withdrawn)), units, kept);
    FinalResultOkIff(tools, job, owners, units, withdrawn, kept);
    FinishIffResultOk(tools, job, owners, units, withdrawn, kept);
  }

  lemma EmptySideBuilds(tools: Tools, job: Job)
    requires SideAtoms(job) == []
    ensures Build(tools, job).Some?
  {
    var r := EmptyResult(job);
    DistinctIndicesNoRepeats(Map(IdOfUnit, r.units));
    assert ResultOk(tools.naming, r);
  }

  /** A side whose line claims and ranges are in order builds exactly when it has no
      atoms or is `Buildable`. */
  lemma SideBuildsIff(tools: Tools, job: Job)
    requires SoundNaming(tools.naming) && LineRespecting(tools, job)
    requires AtomsProper(job.atoms) && RegionsProper(job.analysis.regions)
    requires RangesOk(job.snapshot.content, SideAtoms(job), job.role) && OwnersOf(SideAtoms(job), job.role).Some?
    ensures Build(tools, job).Some? <==> SideAtoms(job) == [] || Buildable(tools, job)
  {
    if SideAtoms(job) == [] {
      EmptySideBuilds(tools, job);
    } else {
      var owners := OwnersOf(SideAtoms(job), job.role).value;
      OwnersSpec(SideAtoms(job), job.role);
      OwnedLinesAreChanged(owners, job);
      BoundUnitsExistIff(tools, job, owners);
      if BoundUnits(tools, job, owners).Some? {
        FinishSucceedsIff(tools, job, owners, BoundUnits(tools, job, owners).value);
      }
    }
  }

  // ------------------------------------ when the builder checks its own ids

  /** Units with distinct ids of one scope have distinct names. */
  lemma DistinctIdsNamesApart(naming: Naming, built: seq<Unit>, staying: set<nat>)
    requires SoundNaming(naming) && NoRepeats(Map(IdOfUnit, built))
    requires forall u | u in built :: u.scope.None? && u.id == naming(u.identity, None)
    ensures NamesApart(built, staying)
  {
    forall i, j | 0 <= i < j < |built| ensures NameOf(built[i].identity) != NameOf(built[j].identity) {
      NoRepeatsIndices(Map(IdOfUnit, built), i, j);
      assert Map(IdOfUnit, built)[i] == built[i].id && Map(IdOfUnit, built)[j] == built[j].id;
      assert built[i] in built && built[j] in built;
    }
  }

  /** The part of `Buildable` that speaks of regions. */
  ghost predicate RegionsBuildable(tools: Tools, job: Job) {
    var staying := StayingLines(tools, job);
    (forall r | Chosen(job, r) :: Nameable(r)) && NoTwins(job, staying) && QualityAgrees(job, staying)
  }

  /** With a builder whose own units have distinct ids, the regions alone decide. */
  lemma SideBuildsByRegions(tools: Tools, job: Job)
    requires SoundNaming(tools.naming) && LineRespecting(tools, job)
    requires NoRepeats(Map(IdOfUnit, DeclaredUnits(tools, job)))
    requires AtomsProper(job.atoms) && RegionsProper(job.analysis.regions)
    requires RangesOk(job.snapshot.content, SideAtoms(job), job.role) && OwnersOf(SideAtoms(job), job.role).Some?
    ensures Build(tools, job).Some? <==> SideAtoms(job) == [] || RegionsBuildable(tools, job)
  {
    SideBuildsIff(tools, job);
    UnboundIds(tools, job);
    DistinctIdsNamesApart(tools.naming, DeclaredUnits(tools, job), StayingLines(tools, job));
  }

  lemma UnboundIds(tools: Tools, job: Job)
    requires LineRespecting(tools, job)
    ensures forall u | u in DeclaredUnits(tools, job) :: u.scope.None? && u.id == tools.naming(u.identity, None)
  {
    forall u | u in DeclaredUnits(tools, job) ensures u.scope.None? && u.id == tools.naming(u.identity, None) {
      assert BuilderUnitOk(tools, job, u);
    }
  }
}
