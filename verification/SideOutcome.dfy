/** The exact condition under which one source side builds. */
module SideOutcome {
  import opened Ordering
  import opened Sorting
  import opened ChangeModel
  import opened FileAnalysis
  import opened LineRuns
  import opened RegionAssignment
  import opened ReviewUnits
  import opened SourceResult
  import opened SourceProofs
  import opened SourceSuccess

  // ------------------------------------------------ what reaches the result

  /** The id of a unit that keeps a line, and nothing for one that does not. */
  function StayingId(owners: LineOwners, withdrawn: set<string>): Unit -> seq<string> {
    (u: Unit) =>
      if AllOwned(owners, u.fileChangedLines) && KeptLines(owners, withdrawn, u.fileChangedLines) != [] then [u.id] else []
  }

  /** The lines whose atom stays, for any list of lines. */
  function Keeping(owners: LineOwners, withdrawn: set<string>): seq<nat> -> seq<nat> {
    (lines: seq<nat>) => if AllOwned(owners, lines) then KeptLines(owners, withdrawn, lines) else []
  }

  /** `v` is `u` with fewer lines. */
  ghost predicate Shrunk(keep: seq<nat> -> seq<nat>, u: Unit, v: Unit) {
    && v.fileChangedLines == keep(u.fileChangedLines)
    && v.identity == u.identity && v.id == u.id && v.scope == u.scope && v.text == u.text
    && v.sourceRefId == u.sourceRefId && v.owner == u.owner
    && v.degraded == u.degraded && v.quality == u.quality
  }

  /** Shrinking keeps everything but the lines and atoms. */
  lemma KeepStepKeeps(naming: Naming, role: Side, owners: LineOwners, withdrawn: set<string>, u: Unit)
    requires KeepStep(naming, role, owners, withdrawn)(u).Some?
    ensures var out := KeepStep(naming, role, owners, withdrawn)(u).value;
      && Map(IdOfUnit, out) == StayingId(owners, withdrawn)(u)
      && (forall v | v in out :: Shrunk(Keeping(owners, withdrawn), u, v))
  {
  }

  lemma {:induction false} IdsOfKept(ids: Unit -> seq<string>, units: seq<Unit>, outs: seq<seq<Unit>>)
    requires |units| == |outs| && forall i | 0 <= i < |units| :: Map(IdOfUnit, outs[i]) == ids(units[i])
    ensures Map(IdOfUnit, Flat(Same, outs)) == Flat(ids, units)
  {
    if units != [] {
      IdsOfKept(ids, units[1..], outs[1..]);
      MapConcat(IdOfUnit, outs[0], Flat(Same, outs[1..]));
    }
  }

  /** The final unit is what is left of one that keeps its id. */
  ghost predicate ComesFrom(ids: Unit -> seq<string>, keep: seq<nat> -> seq<nat>, units: seq<Unit>, v: Unit) {
    exists u :: u in units && ids(u) != [] && Shrunk(keep, u, v)
  }

  /** Something is left of the unit. */
  ghost predicate GoesOn(keep: seq<nat> -> seq<nat>, u: Unit, kept: seq<Unit>) {
    exists v :: v in kept && Shrunk(keep, u, v)
  }

  ghost predicate Carries(ids: Unit -> seq<string>, keep: seq<nat> -> seq<nat>, units: seq<Unit>, kept: seq<Unit>) {
    && (forall v | v in kept :: ComesFrom(ids, keep, units, v))
    && (forall u | u in units && ids(u) != [] :: GoesOn(keep, u, kept))
  }

  lemma StepCarries(ids: Unit -> seq<string>, keep: seq<nat> -> seq<nat>, units: seq<Unit>, outs: seq<seq<Unit>>, i: nat)
    requires |units| == |outs| && i < |units| && Map(IdOfUnit, outs[i]) == ids(units[i])
    requires forall v | v in outs[i] :: Shrunk(keep, units[i], v)
    ensures forall v | v in outs[i] :: ids(units[i]) != [] && Shrunk(keep, units[i], v)
    ensures ids(units[i]) != [] ==> exists v :: v in outs[i] && Shrunk(keep, units[i], v)
  {
    if ids(units[i]) != [] {
      assert outs[i][0] in outs[i];
    }
  }

  lemma OutputsCarry(ids: Unit -> seq<string>, keep: seq<nat> -> seq<nat>, units: seq<Unit>, outs: seq<seq<Unit>>)
    requires |units| == |outs|
    requires forall i | 0 <= i < |units| :: Map(IdOfUnit, outs[i]) == ids(units[i])
    requires forall i, v | 0 <= i < |units| && v in outs[i] :: Shrunk(keep, units[i], v)
    ensures Carries(ids, keep, units, Flat(Same, outs))
  {
    forall v | v in Flat(Same, outs) ensures ComesFrom(ids, keep, units, v) {
      FlatIndex(Same, outs, v);
      var i :| 0 <= i < |outs| && v in Same(outs[i]);
      StepCarries(ids, keep, units, outs, i);
      assert units[i] in units;
    }
    forall u | u in units && ids(u) != [] ensures GoesOn(keep, u, Flat(Same, outs)) {
      var i :| 0 <= i < |units| && units[i] == u;
      StepCarries(ids, keep, units, outs, i);
      var v :| v in outs[i] && Shrunk(keep, u, v);
      assert v in Same(outs[i]);
      FlatIndex(Same, outs, v);
    }
  }

  lemma DropKeeps(naming: Naming, role: Side, owners: LineOwners, withdrawn: set<string>, units: seq<Unit>)
    requires DropAtoms(naming, role, owners, withdrawn, units).Some?
    ensures var kept := DropAtoms(naming, role, owners, withdrawn, units).value;
      && multiset(Map(IdOfUnit, kept)) == multiset(Flat(StayingId(owners, withdrawn), units))
      && Carries(StayingId(owners, withdrawn), Keeping(owners, withdrawn), units, kept)
  {
    var step, ids := KeepStep(naming, role, owners, withdrawn), StayingId(owners, withdrawn);
    TraverseSpec(step, units);
    var outs := Traverse(step, units).value;
    forall i | 0 <= i < |units|
      ensures Map(IdOfUnit, outs[i]) == ids(units[i])
      ensures forall v: Unit | v in outs[i] :: Shrunk(Keeping(owners, withdrawn), units[i], v)
    {
      assert step(units[i]) == Some(outs[i]);
      KeepStepKeeps(naming, role, owners, withdrawn, units[i]);
    }
    IdsOfKept(ids, units, outs);
    OutputsCarry(ids, Keeping(owners, withdrawn), units, outs);
    SortedKeeps(ids, Keeping(owners, withdrawn), units, Flat(Same, outs));
  }

  lemma SortedKeeps(ids: Unit -> seq<string>, keep: seq<nat> -> seq<nat>, units: seq<Unit>, made: seq<Unit>)
    ensures multiset(Map(IdOfUnit, SortBy(made, UnitKey))) == multiset(Map(IdOfUnit, made))
    ensures Carries(ids, keep, units, made) ==> Carries(ids, keep, units, SortBy(made, UnitKey))
  {
    SortBySorts(made, UnitKey);
    MapBag(IdOfUnit, SortBy(made, UnitKey), made);
    if Carries(ids, keep, units, made) {
      forall u | u in units && ids(u) != [] ensures GoesOn(keep, u, SortBy(made, UnitKey)) {
        var v :| v in made && Shrunk(keep, u, v);
        assert v in SortBy(made, UnitKey);
      }
    }
  }

  lemma {:induction false} AllStayIds(ids: Unit -> seq<string>, units: seq<Unit>)
    requires forall i | 0 <= i < |units| :: ids(units[i]) == [units[i].id]
    ensures Flat(ids, units) == Map(IdOfUnit, units)
  {
    if units != [] {
      assert forall i | 0 <= i < |units[1..]| :: units[1..][i] == units[i + 1];
      AllStayIds(ids, units[1..]);
      assert Map(IdOfUnit, units) == [IdOfUnit(units[0])] + Map(IdOfUnit, units[1..]);
    }
  }

  function AsSet(ids: seq<string>): set<string> { set id | id in ids }

  lemma NothingWithdrawn(naming: Naming, scope: Scope, owners: LineOwners, u: Unit)
    requires BoundUnit(naming, scope, owners, u)
    ensures StayingId(owners, {})(u) == [u.id]
  {
    assert u.fileChangedLines[0] in KeptLines(owners, {}, u.fileChangedLines);
  }

  lemma AllStay(naming: Naming, scope: Scope, owners: LineOwners, units: seq<Unit>)
    requires AllBound(naming, scope, owners, units)
    ensures forall u | u in units :: StayingId(owners, {})(u) == [u.id]
  {
    forall u | u in units ensures StayingId(owners, {})(u) == [u.id] {
      NothingWithdrawn(naming, scope, owners, u);
    }
  }

  lemma {:induction false} KeptAll(owners: LineOwners, lines: seq<nat>)
    requires AllOwned(owners, lines)
    ensures KeptLines(owners, {}, lines) == lines
  {
    if lines != [] {
      assert AllOwned(owners, lines[1..]);
      KeptAll(owners, lines[1..]);
    }
  }

  lemma AllCarried(naming: Naming, scope: Scope, owners: LineOwners, ids: Unit -> seq<string>, units: seq<Unit>)
    requires AllBound(naming, scope, owners, units) && forall u | u in units :: ids(u) == [u.id]
    ensures Carries(ids, Keeping(owners, {}), units, units)
  {
    forall u | u in units ensures ComesFrom(ids, Keeping(owners, {}), units, u) && GoesOn(Keeping(owners, {}), u, units) {
      assert ids(u) == [u.id] && BoundUnit(naming, scope, owners, u);
      KeptAll(owners, u.fileChangedLines);
      assert Shrunk(Keeping(owners, {}), u, u);
    }
  }

  /** The final units are those that keep a line, with the lines whose atom stays and
      otherwise as they were. */
  lemma FinalUnits(tools: Tools, job: Job, owners: LineOwners, units: seq<Unit>, withdrawn: seq<string>)
    requires AllBound(tools.naming, job.Bound(), owners, units)
    requires KeptUnits(tools, job, owners, units, withdrawn).Some?
    ensures var kept, ids := KeptUnits(tools, job, owners, units, withdrawn).value, StayingId(owners, AsSet(withdrawn));
      && multiset(Map(IdOfUnit, kept)) == multiset(Flat(ids, units))
      && Carries(ids, Keeping(owners, AsSet(withdrawn)), units, kept)
  {
    if withdrawn == [] {
      assert AsSet(withdrawn) == {};
      AllStay(tools.naming, job.Bound(), owners, units);
      assert forall i | 0 <= i < |units| :: units[i] in units;
      AllStayIds(StayingId(owners, {}), units);
      AllCarried(tools.naming, job.Bound(), owners, StayingId(owners, {}), units);
    } else {
      DropKeeps(tools.naming, job.role, owners, AsSet(withdrawn), units);
    }
  }

  // --------------------------------------------------------- pairwise distinct

  /** Both units are listed, under one id. */
  predicate Clash(ids: Unit -> seq<string>, u: Unit, v: Unit) {
    ids(u) != [] && ids(v) != [] && u.id == v.id
  }

  ghost predicate Apart(ids: Unit -> seq<string>, units: seq<Unit>) {
    forall i, j | 0 <= i < j < |units| :: !Clash(ids, units[i], units[j])
  }

  ghost predicate CrossApart(ids: Unit -> seq<string>, us: seq<Unit>, vs: seq<Unit>) {
    forall i, j | 0 <= i < |us| && 0 <= j < |vs| :: !Clash(ids, us[i], vs[j])
  }

  lemma NoRepeatsIffApart(ids: Unit -> seq<string>, units: seq<Unit>)
    requires forall u | u in units :: ids(u) == [] || ids(u) == [u.id]
    ensures NoRepeats(Flat(ids, units)) <==> Apart(ids, units)
  {
    if Apart(ids, units) {
      forall i, j, id | 0 <= i < j < |units| && id in ids(units[i]) ensures id !in ids(units[j]) {
        assert units[i] in units && units[j] in units && !Clash(ids, units[i], units[j]);
      }
      FlatNoRepeats(ids, units);
    }
    if NoRepeats(Flat(ids, units)) {
      forall i, j | 0 <= i < j < |units| ensures !Clash(ids, units[i], units[j]) {
        assert units[i] in units && units[j] in units;
        if ids(units[i]) != [] {
          FlatOneOrigin(ids, units, i, j, units[i].id);
        }
      }
    }
  }

  lemma ApartParts(ids: Unit -> seq<string>, us: seq<Unit>, vs: seq<Unit>)
    requires Apart(ids, us + vs)
    ensures Apart(ids, us) && Apart(ids, vs)
  {
    var all := us + vs;
    forall i, j | 0 <= i < j < |us| ensures !Clash(ids, us[i], us[j]) {
      assert all[i] == us[i] && all[j] == us[j];
    }
    forall i, j | 0 <= i < j < |vs| ensures !Clash(ids, vs[i], vs[j]) {
      assert all[|us| + i] == vs[i] && all[|us| + j] == vs[j];
    }
  }

  lemma ApartJoin(ids: Unit -> seq<string>, us: seq<Unit>, vs: seq<Unit>)
    requires CrossApart(ids, us, vs)
    ensures Apart(ids, us + vs) <==> Apart(ids, us) && Apart(ids, vs)
  {
    if Apart(ids, us + vs) {
      ApartParts(ids, us, vs);
    }
  }

  // ------------------------------------------------------- which lines stay

  lemma OwnerOf(owners: LineOwners, side: seq<ChangeAtom>, role: Side, line: nat) returns (a: ChangeAtom)
    requires OwnersAre(owners, side, role) && AtomsProper(side) && line in owners
    ensures a in side && a.id == owners[line] && line in SideLines(a, role)
    ensures forall b | b in side && line in SideLines(b, role) :: b == a
  {
    a :| a in side && a.id == owners[line] && line in SideLines(a, role);
  }

  /** The owner of a changed line is not withdrawn exactly when its atom loses no line. */
  lemma OwnerStaysIff(tools: Tools, job: Job, owners: LineOwners, line: nat)
    requires OwnersAre(owners, SideAtoms(job), job.role) && AtomsProper(SideAtoms(job)) && line in owners
    requires BoundUnits(tools, job, owners).Some? && RangesValid(job.analysis.regions)
    ensures owners[line] !in Unassigned(BoundUnits(tools, job, owners).value, owners, SideAtoms(job), job.role)
       <==> line in StayingLines(tools, job)
  {
    var a := OwnerOf(owners, SideAtoms(job), job.role, line);
    UnassignedIffLosesLine(tools, job, owners, a);
  }

  /** An owned line is among the staying ones exactly when its owner is not withdrawn. */
  ghost predicate StayingIs(owners: LineOwners, gone: set<string>, staying: set<nat>) {
    forall line | line in owners :: owners[line] !in gone <==> line in staying
  }

  lemma StayingLinesAre(tools: Tools, job: Job, owners: LineOwners, withdrawn: seq<string>)
    requires OwnersAre(owners, SideAtoms(job), job.role) && AtomsProper(SideAtoms(job))
    requires BoundUnits(tools, job, owners).Some? && RangesValid(job.analysis.regions)
    requires withdrawn == Unassigned(BoundUnits(tools, job, owners).value, owners, SideAtoms(job), job.role)
    ensures StayingIs(owners, AsSet(withdrawn), StayingLines(tools, job))
  {
    forall line | line in owners ensures owners[line] !in AsSet(withdrawn) <==> line in StayingLines(tools, job) {
      OwnerStaysIff(tools, job, owners, line);
    }
  }

  /** The ids list exactly the units that keep a line. */
  ghost predicate ListsStaying(staying: set<nat>, ids: Unit -> seq<string>, units: seq<Unit>) {
    forall i | 0 <= i < |units| :: ids(units[i]) == if Stay(staying, units[i].fileChangedLines) then [units[i].id] else []
  }

  lemma StayingIdOf(owners: LineOwners, gone: set<string>, staying: set<nat>, u: Unit)
    requires StayingIs(owners, gone, staying) && AllOwned(owners, u.fileChangedLines)
    ensures StayingId(owners, gone)(u) == if Stay(staying, u.fileChangedLines) then [u.id] else []
  {
    var kept := KeptLines(owners, gone, u.fileChangedLines);
    if kept != [] {
      assert kept[0] in kept;
    }
    if Stay(staying, u.fileChangedLines) {
      var line :| line in u.fileChangedLines && line in staying;
      assert line in kept;
    }
  }

  lemma StayingIdsListed(naming: Naming, scope: Scope, owners: LineOwners, gone: set<string>, staying: set<nat>, units: seq<Unit>)
    requires StayingIs(owners, gone, staying) && AllBound(naming, scope, owners, units)
    ensures ListsStaying(staying, StayingId(owners, gone), units)
  {
    forall i | 0 <= i < |units|
      ensures StayingId(owners, gone)(units[i]) == if Stay(staying, units[i].fileChangedLines) then [units[i].id] else []
    {
      assert BoundUnit(naming, scope, owners, units[i]);
      StayingIdOf(owners, gone, staying, units[i]);
    }
  }

  // -------------------------------------------------------- regions and twins

  lemma AssignmentsApart(regions: seq<Region>, changed: set<nat>, i: nat, j: nat)
    requires RegionsProper(regions) && i < j < |Assignments(regions, changed)|
    ensures Assignments(regions, changed)[i].region != Assignments(regions, changed)[j].region
  {
    var assignments, made := Assignments(regions, changed), Flat(AssignmentOf(regions, changed), regions);
    MadeOnce(regions, changed);
    SortBySorts(made, AssignmentKey);
    NoRepeatsBag(made, assignments);
    NoRepeatsIndices(assignments, i, j);
    AssignmentMembers(regions, changed);
    assert assignments[i] in assignments && assignments[j] in assignments;
  }

  /** Regions of one name are chosen for the same lines. */
  lemma TwinsShareLines(regions: seq<Region>, changed: set<nat>, r: Region, q: Region)
    requires r in regions && q in regions && SameName(r, q)
    ensures RegionLines(regions, changed, r) == RegionLines(regions, changed, q)
  {
    forall line | line in changed ensures r in Innermost(regions, line) <==> q in Innermost(regions, line) {
      assert forall other :: StrictlyAround(r, other) <==> StrictlyAround(q, other);
    }
  }

  lemma SameRegionName(path: string, r: Region, q: Region)
    requires RegionShapeOk(r) && RegionShapeOk(q)
    ensures NameOf(RegionIdentity(path, r)) == NameOf(RegionIdentity(path, q)) <==>
      r.kind == q.kind && r.symbol == q.symbol && r.range.startLine == q.range.startLine && r.range.endLine == q.range.endLine
      && r.range.startOffset == q.range.startOffset && r.range.endOffset == q.range.endOffset
  {
  }

  /** The units made for the assignments, one by one. */
  ghost predicate RegionUnitsFor(tools: Tools, job: Job, assignments: seq<Assignment>, us: seq<Unit>) {
    && |us| == |assignments|
    && forall k | 0 <= k < |us| ::
         && us[k].fileChangedLines == assignments[k].lines
         && us[k].identity == RegionIdentity(job.snapshot.ref.path, assignments[k].region)
         && us[k].id == tools.naming(us[k].identity, Some(job.Bound()))
         && us[k].quality == QualityCodes(job.analysis)
  }

  lemma RegionUnitsMadeFor(tools: Tools, job: Job, owners: LineOwners)
    requires RegionUnits(tools, job, owners).Some?
    ensures RegionUnitsFor(tools, job, Assignments(job.analysis.regions, owners.Keys), RegionUnits(tools, job, owners).value)
  {
    RegionUnitCount(tools, job, owners);
    forall k | 0 <= k < |RegionUnits(tools, job, owners).value| {
      RegionUnitAt(tools, job, owners, k);
    }
  }

  /** What the proofs below use of the assignments. */
  ghost predicate AssignmentsFor(job: Job, assignments: seq<Assignment>) {
    && (forall k | 0 <= k < |assignments| ::
          && assignments[k].region in job.analysis.regions && RegionShapeOk(assignments[k].region)
          && forall line :: line in assignments[k].lines <==>
               line in RegionLines(job.analysis.regions, ChangedLines(job), assignments[k].region))
    && (forall i, j | 0 <= i < j < |assignments| :: assignments[i].region != assignments[j].region)
  }

  lemma AssignmentsAre(job: Job, owners: LineOwners)
    requires RegionsProper(job.analysis.regions) && owners.Keys == ChangedLines(job)
    ensures AssignmentsFor(job, Assignments(job.analysis.regions, owners.Keys))
  {
    var regions := job.analysis.regions;
    var assignments := Assignments(regions, owners.Keys);
    forall k | 0 <= k < |assignments| {
      AssignmentFacts(regions, owners, assignments[k]);
    }
    forall i, j | 0 <= i < j < |assignments| ensures assignments[i].region != assignments[j].region {
      AssignmentsApart(regions, owners.Keys, i, j);
    }
  }

  /** Two region units clash exactly when their regions have one name and keep a line. */
  lemma RegionPair(tools: Tools, job: Job, staying: set<nat>, ids: Unit -> seq<string>,
                   assignments: seq<Assignment>, us: seq<Unit>, i: nat, j: nat)
    requires SoundNaming(tools.naming) && AssignmentsFor(job, assignments) && RegionUnitsFor(tools, job, assignments, us)
    requires ListsStaying(staying, ids, us) && i < |us| && j < |us|
    ensures Clash(ids, us[i], us[j]) <==>
      && RegionStays(job, staying, assignments[i].region) && RegionStays(job, staying, assignments[j].region)
      && SameName(assignments[i].region, assignments[j].region)
  {
    UnitStaysIff(job, staying, assignments[i], us[i]);
    UnitStaysIff(job, staying, assignments[j], us[j]);
    UnitNamesIff(tools, job, assignments[i].region, assignments[j].region, us[i], us[j]);
  }

  lemma UnitStaysIff(job: Job, staying: set<nat>, a: Assignment, u: Unit)
    requires u.fileChangedLines == a.lines
    requires forall line :: line in a.lines <==> line in RegionLines(job.analysis.regions, ChangedLines(job), a.region)
    ensures Stay(staying, u.fileChangedLines) <==> RegionStays(job, staying, a.region)
  {
  }

  lemma UnitNamesIff(tools: Tools, job: Job, r: Region, q: Region, u: Unit, v: Unit)
    requires SoundNaming(tools.naming) && RegionShapeOk(r) && RegionShapeOk(q)
    requires u.identity == RegionIdentity(job.snapshot.ref.path, r) && u.id == tools.naming(u.identity, Some(job.Bound()))
    requires v.identity == RegionIdentity(job.snapshot.ref.path, q) && v.id == tools.naming(v.identity, Some(job.Bound()))
    ensures u.id == v.id <==> SameName(r, q)
  {
    SameRegionName(job.snapshot.ref.path, r, q);
  }

  lemma StayingRegionAssigned(job: Job, owners: LineOwners, staying: set<nat>, r: Region) returns (k: nat)
    requires owners.Keys == ChangedLines(job)
    requires r in job.analysis.regions && RegionStays(job, staying, r)
    ensures k < |Assignments(job.analysis.regions, owners.Keys)| && Assignments(job.analysis.regions, owners.Keys)[k].region == r
  {
    k := ChosenRegionAt(job.analysis.regions, owners.Keys, r);
  }

  lemma ChosenRegionAt(regions: seq<Region>, changed: set<nat>, r: Region) returns (k: nat)
    requires r in regions && RegionLines(regions, changed, r) != {}
    ensures k < |Assignments(regions, changed)| && Assignments(regions, changed)[k].region == r
  {
    ChosenIffAssigned(regions, changed, r);
    k :| 0 <= k < |Assignments(regions, changed)| && Assignments(regions, changed)[k].region == r;
  }

  lemma TwinsClash(tools: Tools, job: Job, owners: LineOwners, staying: set<nat>, ids: Unit -> seq<string>, us: seq<Unit>, r: Region, q: Region)
    requires SoundNaming(tools.naming) && RegionsProper(job.analysis.regions) && owners.Keys == ChangedLines(job)
    requires AssignmentsFor(job, Assignments(job.analysis.regions, owners.Keys))
    requires RegionUnitsFor(tools, job, Assignments(job.analysis.regions, owners.Keys), us) && ListsStaying(staying, ids, us)
    requires r in job.analysis.regions && q in job.analysis.regions && r != q && SameName(r, q) && RegionStays(job, staying, r)
    ensures !Apart(ids, us)
  {
    TwinsShareLines(job.analysis.regions, ChangedLines(job), r, q);
    var i := StayingRegionAssigned(job, owners, staying, r);
    var j := StayingRegionAssigned(job, owners, staying, q);
    RegionPair(tools, job, staying, ids, Assignments(job.analysis.regions, owners.Keys), us, i, j);
    assert i != j && Clash(ids, us[i], us[j]) && Clash(ids, us[j], us[i]);
  }

  lemma NoTwinsApart(tools: Tools, job: Job, staying: set<nat>, ids: Unit -> seq<string>, assignments: seq<Assignment>, us: seq<Unit>)
    requires SoundNaming(tools.naming) && NoTwins(job, staying)
    requires AssignmentsFor(job, assignments) && RegionUnitsFor(tools, job, assignments, us) && ListsStaying(staying, ids, us)
    ensures Apart(ids, us)
  {
    forall i, j | 0 <= i < j < |us| ensures !Clash(ids, us[i], us[j]) {
      RegionPair(tools, job, staying, ids, assignments, us, i, j);
    }
  }

  /** The region units that keep a line have distinct ids exactly when there are no
      staying twins. */
  lemma RegionUnitsApartIff(tools: Tools, job: Job, owners: LineOwners, staying: set<nat>, ids: Unit -> seq<string>, us: seq<Unit>)
    requires SoundNaming(tools.naming) && RegionsProper(job.analysis.regions) && owners.Keys == ChangedLines(job)
    requires RegionUnits(tools, job, owners) == Some(us) && ListsStaying(staying, ids, us)
    ensures Apart(ids, us) <==> NoTwins(job, staying)
  {
    AssignmentsAre(job, owners);
    RegionUnitsMadeFor(tools, job, owners);
    if NoTwins(job, staying) {
      NoTwinsApart(tools, job, staying, ids, Assignments(job.analysis.regions, owners.Keys), us);
    } else {
      var r, q :| r in job.analysis.regions && q in job.analysis.regions && r != q && SameName(r, q) && RegionStays(job, staying, r);
      TwinsClash(tools, job, owners, staying, ids, us, r, q);
    }
  }

  // ----------------------------------------------------------- declared units

  /** The builder's units as bound, one by one. */
  ghost predicate BoundAs(tools: Tools, job: Job, built: seq<Unit>, vs: seq<Unit>) {
    && |vs| == |built|
    && forall k | 0 <= k < |vs| ::
         && vs[k].fileChangedLines == built[k].fileChangedLines && vs[k].identity == built[k].identity
         && vs[k].id == tools.naming(built[k].identity, Some(job.Bound()))
         && vs[k].quality == built[k].quality + QualityCodes(job.analysis)
  }

  lemma DeclaredUnitsBound(tools: Tools, job: Job, owners: LineOwners)
    requires ScopedUnits(tools, job, owners).Some? && owners.Keys == ChangedLines(job)
    ensures BoundAs(tools, job, DeclaredUnits(tools, job), ScopedUnits(tools, job, owners).value)
  {
    RegionUnitCount(tools, job, owners);
    forall k | 0 <= k < |ScopedUnits(tools, job, owners).value| {
      ScopedUnitAt(tools, job, owners, k);
    }
  }

  lemma DeclaredUnitsApartIff(tools: Tools, job: Job, staying: set<nat>, ids: Unit -> seq<string>, built: seq<Unit>, vs: seq<Unit>)
    requires SoundNaming(tools.naming) && BoundAs(tools, job, built, vs) && ListsStaying(staying, ids, vs)
    ensures Apart(ids, vs) <==> NamesApart(built, staying)
  {
    forall i, j | 0 <= i < j < |vs|
      ensures Clash(ids, vs[i], vs[j]) <==>
        && Stay(staying, built[i].fileChangedLines) && Stay(staying, built[j].fileChangedLines)
        && NameOf(built[i].identity) == NameOf(built[j].identity)
    {
    }
  }

  /** Region units and declared units never share an id. */
  lemma SortsApart(tools: Tools, job: Job, ids: Unit -> seq<string>, assignments: seq<Assignment>, us: seq<Unit>, built: seq<Unit>, vs: seq<Unit>)
    requires SoundNaming(tools.naming) && AssignmentsFor(job, assignments)
    requires RegionUnitsFor(tools, job, assignments, us) && BoundAs(tools, job, built, vs)
    requires forall u | u in built :: u.identity.kind !in REGION_KINDS
    ensures CrossApart(ids, us, vs)
  {
    forall i, j | 0 <= i < |us| && 0 <= j < |vs| ensures !Clash(ids, us[i], vs[j]) {
      assert RegionShapeOk(assignments[i].region) && built[j] in built;
      KindsApart(tools, us[i].identity, vs[j].identity, Some(job.Bound()));
    }
  }

  lemma KindsApart(tools: Tools, i: Identity, j: Identity, scope: Option<Scope>)
    requires SoundNaming(tools.naming) && i.kind in REGION_KINDS && j.kind !in REGION_KINDS
    ensures tools.naming(i, scope) != tools.naming(j, scope)
  {
    assert i.kind != "fallback";
  }
}
