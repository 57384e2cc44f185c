/** Atoms are all-or-nothing on each source side, and no changed line is lost. */
module SourceProofs {
  import opened Ordering
  import opened Sorting
  import opened SourceText
  import opened ChangeModel
  import opened FileAnalysis
  import opened LineRuns
  import opened RegionAssignment
  import opened ReviewUnits
  import opened SourceResult

  /** What ChangeAtom validation and unique ids give the side's atoms. */
  ghost predicate AtomsProper(atoms: seq<ChangeAtom>) {
    && (forall a | a in atoms :: AtomKindOk(a))
    && (forall a, b | a in atoms && b in atoms && a.id == b.id :: a == b)
  }

  /** Each line of a side atom is owned by it, and nothing else is owned. */
  ghost predicate OwnersAre(owners: LineOwners, side: seq<ChangeAtom>, role: Side) {
    && (forall a, line | a in side && line in SideLines(a, role) :: line in owners && owners[line] == a.id)
    && (forall line | line in owners :: exists a :: a in side && a.id == owners[line] && line in SideLines(a, role))
  }

  lemma OwnersSpec(side: seq<ChangeAtom>, role: Side)
    requires OwnersOf(side, role).Some?
    ensures OwnersAre(OwnersOf(side, role).value, side, role)
  {
    var claims := Flat(ClaimsOf(role), side);
    var owners := OwnersOf(side, role).value;
    EnterSpec(claims);
    forall a, line | a in side && line in SideLines(a, role) ensures line in owners && owners[line] == a.id {
      ClaimMembers(a, role, line, a.id);
      assert (line, a.id) in ClaimsOf(role)(a);
      FlatMember(ClaimsOf(role), side, (line, a.id));
    }
    forall line | line in owners ensures exists a :: a in side && a.id == owners[line] && line in SideLines(a, role) {
      assert (line, owners[line]) in claims;
      FlatMember(ClaimsOf(role), side, (line, owners[line]));
      var a :| a in side && (line, owners[line]) in ClaimsOf(role)(a);
      ClaimMembers(a, role, line, owners[line]);
    }
  }

  lemma ClaimMembers(a: ChangeAtom, role: Side, line: nat, id: string)
    ensures (line, id) in AtomClaims(a, role) <==> a.id == id && line in SideLines(a, role)
  {
    var claims, lines := AtomClaims(a, role), SideLines(a, role);
    if a.id == id && line in lines {
      var i :| 0 <= i < |lines| && lines[i] == line;
      assert claims[i] == (line, id);
    }
  }

  /** A unit bound to the side: valid, over owned lines, naming exactly their atoms. */
  predicate BoundUnit(naming: Naming, scope: Scope, owners: LineOwners, u: Unit) {
    && UnitOk(naming, u) && u.scope == Some(scope)
    && AllOwned(owners, u.fileChangedLines)
    && u.atomIds == AtomsOfLines(owners, u.fileChangedLines)
  }

  predicate AllBound(naming: Naming, scope: Scope, owners: LineOwners, units: seq<Unit>) {
    forall u | u in units :: BoundUnit(naming, scope, owners, u)
  }

  lemma EffectiveLinesOwned(naming: Naming, scope: Scope, owners: LineOwners, u: Unit, line: nat)
    requires BoundUnit(naming, scope, owners, u) && line in Effective(u)
    ensures line in u.fileChangedLines && line in owners && owners[line] in u.atomIds
  {
    ProjectMembers(u.fileChangedLines, u.identity.contextSpan, true);
  }

  lemma RegionUnitsBound(b: Binding, owners: LineOwners, assignments: seq<Assignment>)
    requires Traverse(RegionStep(b, owners), assignments).Some?
    ensures AllBound(b.naming, b.scope, owners, Traverse(RegionStep(b, owners), assignments).value)
  {
    var step := RegionStep(b, owners);
    TraverseSpec(step, assignments);
    var us := Traverse(step, assignments).value;
    forall u | u in us ensures BoundUnit(b.naming, b.scope, owners, u) {
      var i :| 0 <= i < |us| && us[i] == u;
      assert step(assignments[i]) == Some(u);
    }
  }

  lemma ScopedUnitsBound(b: Binding, owners: LineOwners, built: seq<Unit>)
    requires Traverse(ScopeStep(b, owners), built).Some?
    ensures AllBound(b.naming, b.scope, owners, Traverse(ScopeStep(b, owners), built).value)
  {
    var step := ScopeStep(b, owners);
    TraverseSpec(step, built);
    var us := Traverse(step, built).value;
    forall u | u in us ensures BoundUnit(b.naming, b.scope, owners, u) {
      var i :| 0 <= i < |us| && us[i] == u;
      assert step(built[i]) == Some(u);
    }
  }

  /** The bound units are the region units and the bound declaration units, sorted. */
  lemma BoundMembers(tools: Tools, job: Job, owners: LineOwners)
    requires BoundUnits(tools, job, owners).Some?
    ensures RegionUnits(tools, job, owners).Some? && ScopedUnits(tools, job, owners).Some?
    ensures var us, vs := RegionUnits(tools, job, owners).value, ScopedUnits(tools, job, owners).value;
      && BoundUnits(tools, job, owners).value == SortBy(us + vs, UnitKey)
      && Sorted(BoundUnits(tools, job, owners).value, UnitKey)
      && forall u :: u in BoundUnits(tools, job, owners).value <==> u in us || u in vs
  {
    var us, vs := RegionUnits(tools, job, owners).value, ScopedUnits(tools, job, owners).value;
    SortBySorts(us + vs, UnitKey);
  }

  lemma BoundUnitsAllBound(tools: Tools, job: Job, owners: LineOwners)
    requires BoundUnits(tools, job, owners).Some?
    ensures AllBound(tools.naming, job.Bound(), owners, BoundUnits(tools, job, owners).value)
    ensures Sorted(BoundUnits(tools, job, owners).value, UnitKey)
  {
    var regions := job.analysis.regions;
    BoundMembers(tools, job, owners);
    RegionUnitsBound(BindingOf(tools, job), owners, Assignments(regions, owners.Keys));
    ScopedUnitsBound(BindingOf(tools, job), owners, DeclarationUnits(tools, job, RemainingLines(regions, owners.Keys)));
  }

  /** A kept unit is bound again, shows all its lines, and names no withdrawn atom. */
  lemma KeptUnitBound(naming: Naming, role: Side, scope: Scope, owners: LineOwners, withdrawn: set<string>, u: Unit)
    requires BoundUnit(naming, scope, owners, u) && scope.role == role
    requires UnitOk(naming, KeptUnit(role, owners, withdrawn, u))
    ensures var v := KeptUnit(role, owners, withdrawn, u);
      && BoundUnit(naming, scope, owners, v)
      && Effective(v) == v.fileChangedLines == KeptLines(owners, withdrawn, u.fileChangedLines)
      && (forall id | id in v.atomIds :: id !in withdrawn)
  {
  }

  ghost predicate ShownBy(units: seq<Unit>, line: nat) {
    exists u :: u in units && line in Effective(u)
  }

  ghost predicate NamedBy(units: seq<Unit>, id: string) {
    exists u :: u in units && id in u.atomIds
  }

  /** Withdrawal keeps exactly the shown lines of the atoms that stay. */
  ghost predicate Withdrew(naming: Naming, scope: Scope, owners: LineOwners, withdrawn: set<string>, units: seq<Unit>, kept: seq<Unit>) {
    && AllBound(naming, scope, owners, kept)
    && (forall v | v in kept :: Effective(v) == v.fileChangedLines != [])
    && (forall v, id | v in kept && id in v.atomIds :: id !in withdrawn)
    && (forall u, line | u in units && line in u.fileChangedLines && line in owners && owners[line] !in withdrawn :: ShownBy(kept, line))
    && (forall v, line | v in kept && line in Effective(v) :: line in owners && owners[line] !in withdrawn
          && exists u :: u in units && line in u.fileChangedLines)
  }

  lemma KeepStepResult(naming: Naming, role: Side, scope: Scope, owners: LineOwners, withdrawn: set<string>, u: Unit)
    requires BoundUnit(naming, scope, owners, u) && scope.role == role
    requires KeepStep(naming, role, owners, withdrawn)(u).Some?
    ensures var out := KeepStep(naming, role, owners, withdrawn)(u).value;
      var lines := KeptLines(owners, withdrawn, u.fileChangedLines);
      && (lines == [] ==> out == [])
      && (lines != [] ==> out == [KeptUnit(role, owners, withdrawn, u)])
      && (forall v | v in out :: BoundUnit(naming, scope, owners, v)
            && Effective(v) == v.fileChangedLines == lines && lines != []
            && forall id | id in v.atomIds :: id !in withdrawn)
  {
    if KeptLines(owners, withdrawn, u.fileChangedLines) != [] {
      KeptUnitBound(naming, role, scope, owners, withdrawn, u);
    }
  }

  lemma DropAtomsSpec(naming: Naming, role: Side, scope: Scope, owners: LineOwners, withdrawn: set<string>, units: seq<Unit>)
    requires AllBound(naming, scope, owners, units) && scope.role == role
    requires DropAtoms(naming, role, owners, withdrawn, units).Some?
    ensures Withdrew(naming, scope, owners, withdrawn, units, DropAtoms(naming, role, owners, withdrawn, units).value)
    ensures Sorted(DropAtoms(naming, role, owners, withdrawn, units).value, UnitKey)
  {
    var step := KeepStep(naming, role, owners, withdrawn);
    TraverseSpec(step, units);
    var outs := Traverse(step, units).value;
    var kept := DropAtoms(naming, role, owners, withdrawn, units).value;
    SortBySorts(Flat(Same, outs), UnitKey);
    forall v | v in kept
      ensures BoundUnit(naming, scope, owners, v) && Effective(v) == v.fileChangedLines != []
      ensures forall id | id in v.atomIds :: id !in withdrawn
      ensures exists u :: u in units && v.fileChangedLines == KeptLines(owners, withdrawn, u.fileChangedLines)
    {
      FlatIndex(Same, outs, v);
      var i :| 0 <= i < |outs| && v in Same(outs[i]);
      assert units[i] in units && step(units[i]) == Some(outs[i]);
      KeepStepResult(naming, role, scope, owners, withdrawn, units[i]);
    }
    forall u, line | u in units && line in u.fileChangedLines && line in owners && owners[line] !in withdrawn ensures ShownBy(kept, line) {
      var i :| 0 <= i < |units| && units[i] == u;
      assert step(u) == Some(outs[i]);
      KeepStepResult(naming, role, scope, owners, withdrawn, u);
      assert line in KeptLines(owners, withdrawn, u.fileChangedLines);
      var v := KeptUnit(role, owners, withdrawn, u);
      assert outs[i] == [v] && v in Same(outs[i]);
      FlatIndex(Same, outs, v);
      assert v in kept && line in Effective(v);
    }
  }

  // ------------------------------------------------------- the side's theorem

  /** Every line of the atom is shown by some unit. */
  ghost predicate Covered(units: seq<Unit>, a: ChangeAtom, role: Side) {
    forall line | line in SideLines(a, role) :: ShownBy(units, line)
  }

  lemma AssignedIffCovered(naming: Naming, scope: Scope, owners: LineOwners, units: seq<Unit>, side: seq<ChangeAtom>, a: ChangeAtom)
    requires AllBound(naming, scope, owners, units)
    requires OwnersAre(owners, side, scope.role) && AtomsProper(side) && a in side
    ensures AssignedLines(units, owners, a.id) == TargetLines(a, scope.role) <==> Covered(units, a, scope.role)
  {
    var shown, target := AssignedLines(units, owners, a.id), TargetLines(a, scope.role);
    forall line | line in shown ensures line in target {
      var b :| b in side && b.id == a.id && line in SideLines(b, scope.role);
    }
    forall line | line in target ensures line in shown <==> ShownBy(units, line) {
      assert line in owners && owners[line] == a.id;
      if ShownBy(units, line) {
        var u :| u in units && line in Effective(u);
      }
    }
    if Covered(units, a, scope.role) {
      assert target <= shown;
    }
  }

  /** A side atom is named by some unit exactly when it was not withdrawn. */
  ghost predicate NamedIffAssigned(side: seq<ChangeAtom>, r: FileResult) {
    forall a | a in side :: a.id in r.unassignedAtoms <==> !NamedBy(r.units, a.id)
  }

  ghost predicate AssignedCovered(role: Side, side: seq<ChangeAtom>, r: FileResult) {
    forall a | a in side && a.id !in r.unassignedAtoms :: Covered(r.units, a, role)
  }

  /** A unit that shows a line of an atom names the atom. */
  ghost predicate ShowersName(role: Side, side: seq<ChangeAtom>, units: seq<Unit>) {
    forall a, line, u | a in side && line in SideLines(a, role) && u in units && line in Effective(u) :: a.id in u.atomIds
  }

  ghost predicate NamesFromSide(side: seq<ChangeAtom>, units: seq<Unit>) {
    forall u, id | u in units && id in u.atomIds :: exists a :: a in side && a.id == id
  }

  ghost predicate WithdrawnFromSide(side: seq<ChangeAtom>, ids: seq<string>) {
    forall id | id in ids :: exists a :: a in side && a.id == id
  }

  /** What a finished side promises about its atoms and lines. */
  ghost predicate AllOrNothing(role: Side, side: seq<ChangeAtom>, r: FileResult) {
    && NamedIffAssigned(side, r)
    && AssignedCovered(role, side, r)
    && ShowersName(role, side, r.units)
    && NamesFromSide(side, r.units)
    && WithdrawnFromSide(side, r.unassignedAtoms)
    && (forall u | u in r.units :: u.fileChangedLines != [])
  }

  lemma UnassignedIffUncovered(naming: Naming, scope: Scope, owners: LineOwners, units: seq<Unit>, side: seq<ChangeAtom>)
    requires AllBound(naming, scope, owners, units)
    requires OwnersAre(owners, side, scope.role) && AtomsProper(side)
    ensures forall a | a in side :: a.id in Unassigned(units, owners, side, scope.role) <==> !Covered(units, a, scope.role)
  {
    forall a | a in side
      ensures a.id in Unassigned(units, owners, side, scope.role) <==> !Covered(units, a, scope.role)
    {
      AssignedIffCovered(naming, scope, owners, units, side, a);
    }
  }

  lemma SideLineNonEmpty(side: seq<ChangeAtom>, role: Side, a: ChangeAtom)
    requires AtomsProper(side) && a in side && SideRef(a, role).Some?
    ensures SideLines(a, role) != []
  {
  }

  /** The unit list a side ends with, whether or not atoms had to be withdrawn. */
  lemma KeptUnitsSpec(tools: Tools, job: Job, owners: LineOwners, units: seq<Unit>)
    requires OwnersAre(owners, SideAtoms(job), job.role) && AtomsProper(SideAtoms(job))
    requires AllBound(tools.naming, job.Bound(), owners, units) && Sorted(units, UnitKey)
    requires var withdrawn := Unassigned(units, owners, SideAtoms(job), job.role);
      KeptUnits(tools, job, owners, units, withdrawn).Some?
    ensures var withdrawn := Unassigned(units, owners, SideAtoms(job), job.role);
      var kept := KeptUnits(tools, job, owners, units, withdrawn).value;
      && AllBound(tools.naming, job.Bound(), owners, kept) && Sorted(kept, UnitKey)
      && Separated(job.role, SideAtoms(job), kept, withdrawn)
      && (forall u, line | u in kept && line in u.fileChangedLines :: line in owners && owners[line] !in withdrawn)
  {
    var side := SideAtoms(job);
    var withdrawn := Unassigned(units, owners, side, job.role);
    UnassignedIffUncovered(tools.naming, job.Bound(), owners, units, side);
    if withdrawn != [] {
      var gone := set id | id in withdrawn;
      DropAtomsSpec(tools.naming, job.role, job.Bound(), owners, gone, units);
      var kept := KeptUnits(tools, job, owners, units, withdrawn).value;
      forall a, line | a in side && a.id !in withdrawn && line in SideLines(a, job.role) ensures ShownBy(kept, line) {
        assert Covered(units, a, job.role);
        var u :| u in units && line in Effective(u);
        EffectiveLinesOwned(tools.naming, job.Bound(), owners, u, line);
        assert owners[line] == a.id;
      }
    } else {
      assert forall a | a in side :: Covered(units, a, job.role);
    }
  }

  lemma UnitsNameSideAtoms(naming: Naming, scope: Scope, owners: LineOwners, side: seq<ChangeAtom>, units: seq<Unit>)
    requires OwnersAre(owners, side, scope.role) && AllBound(naming, scope, owners, units)
    ensures NamesFromSide(side, units)
    ensures forall u | u in units :: u.fileChangedLines != []
  {
    forall u, id | u in units && id in u.atomIds ensures exists a :: a in side && a.id == id {
      assert BoundUnit(naming, scope, owners, u);
      var line :| line in u.fileChangedLines && owners[line] == id;
    }
    forall u | u in units ensures u.fileChangedLines != [] {
      assert BoundUnit(naming, scope, owners, u) && NamesOk(u);
    }
  }

  lemma ShowingUnitsName(naming: Naming, scope: Scope, owners: LineOwners, side: seq<ChangeAtom>, units: seq<Unit>)
    requires OwnersAre(owners, side, scope.role) && AllBound(naming, scope, owners, units)
    ensures ShowersName(scope.role, side, units)
  {
    forall a, line, u | a in side && line in SideLines(a, scope.role) && u in units && line in Effective(u)
      ensures a.id in u.atomIds
    {
      EffectiveLinesOwned(naming, scope, owners, u, line);
    }
  }

  lemma StayingAtomsNamed(role: Side, side: seq<ChangeAtom>, r: FileResult)
    requires forall a | a in side :: SideLines(a, role) != []
    requires ShowersName(role, side, r.units)
    requires Separated(role, side, r.units, r.unassignedAtoms)
    ensures NamedIffAssigned(side, r) && AssignedCovered(role, side, r)
  {
    forall a | a in side && a.id !in r.unassignedAtoms ensures Covered(r.units, a, role) {
    }
    forall a | a in side && a.id !in r.unassignedAtoms ensures NamedBy(r.units, a.id) {
      var line := SideLines(a, role)[0];
      assert ShownBy(r.units, line);
      var u :| u in r.units && line in Effective(u);
      assert line in SideLines(a, role) && a.id in u.atomIds;
    }
  }

  /** Every atom that stays is shown in full, and no withdrawn atom is named. */
  ghost predicate Separated(role: Side, side: seq<ChangeAtom>, kept: seq<Unit>, withdrawn: seq<string>) {
    && (forall a, line | a in side && a.id !in withdrawn && line in SideLines(a, role) :: ShownBy(kept, line))
    && (forall u, id | u in kept && id in u.atomIds :: id !in withdrawn)
  }

  lemma SeparatedSide(naming: Naming, scope: Scope, owners: LineOwners, side: seq<ChangeAtom>, r: FileResult)
    requires OwnersAre(owners, side, scope.role)
    requires forall a | a in side :: SideLines(a, scope.role) != []
    requires AllBound(naming, scope, owners, r.units)
    requires Separated(scope.role, side, r.units, r.unassignedAtoms)
    requires WithdrawnFromSide(side, r.unassignedAtoms)
    ensures AllOrNothing(scope.role, side, r)
  {
    UnitsNameSideAtoms(naming, scope, owners, side, r.units);
    ShowingUnitsName(naming, scope, owners, side, r.units);
    StayingAtomsNamed(scope.role, side, r);
  }

  lemma SideLinesNonEmpty(job: Job)
    requires AtomsProper(SideAtoms(job))
    ensures forall a | a in SideAtoms(job) :: SideLines(a, job.role) != []
  {
    forall a | a in SideAtoms(job) ensures SideLines(a, job.role) != [] {
      SideLineNonEmpty(SideAtoms(job), job.role, a);
    }
  }

  /** All-or-nothing: after withdrawal a side atom is named by some unit exactly when
      it is not in the unassigned list; named atoms stay fully shown, every unit that
      shows one of their lines names them, and no kept unit is empty. */
  lemma FinishedSide(tools: Tools, job: Job, owners: LineOwners, units: seq<Unit>)
    requires OwnersAre(owners, SideAtoms(job), job.role) && AtomsProper(SideAtoms(job))
    requires AllBound(tools.naming, job.Bound(), owners, units) && Sorted(units, UnitKey)
    requires Finish(tools, job, owners, units).Some?
    ensures AllOrNothing(job.role, SideAtoms(job), Finish(tools, job, owners, units).value)
  {
    KeptUnitsSpec(tools, job, owners, units);
    SideLinesNonEmpty(job);
    var r := Finish(tools, job, owners, units).value;
    assert r.unassignedAtoms == Unassigned(units, owners, SideAtoms(job), job.role);
    SeparatedSide(tools.naming, job.Bound(), owners, SideAtoms(job), r);
  }

  lemma BuildAllOrNothing(tools: Tools, job: Job)
    requires AtomsProper(job.atoms)
    requires Build(tools, job).Some?
    ensures AllOrNothing(job.role, SideAtoms(job), Build(tools, job).value)
    ensures Build(tools, job).value.fileId == job.fileId && Build(tools, job).value.scope == job.Bound()
  {
    var side := SideAtoms(job);
    OwnersSpec(side, job.role);
    var owners := OwnersOf(side, job.role).value;
    if side != [] {
      BoundUnitsAllBound(tools, job, owners);
      FinishedSide(tools, job, owners, BoundUnits(tools, job, owners).value);
    }
  }

  /** Withdrawing is final: recomputing the unassigned atoms from the kept units
      gives the same list. */
  lemma UnassignedIsStable(tools: Tools, job: Job, owners: LineOwners, units: seq<Unit>)
    requires OwnersAre(owners, SideAtoms(job), job.role) && AtomsProper(SideAtoms(job))
    requires AllBound(tools.naming, job.Bound(), owners, units) && Sorted(units, UnitKey)
    requires Finish(tools, job, owners, units).Some?
    ensures var r := Finish(tools, job, owners, units).value;
      Unassigned(r.units, owners, SideAtoms(job), job.role) == r.unassignedAtoms
  {
    var side := SideAtoms(job);
    var r := Finish(tools, job, owners, units).value;
    KeptUnitsSpec(tools, job, owners, units);
    UnassignedIffUncovered(tools.naming, job.Bound(), owners, r.units, side);
    var again := Unassigned(r.units, owners, side, job.role);
    forall a | a in side ensures a.id in again <==> a.id in r.unassignedAtoms {
      SideLineNonEmpty(side, job.role, a);
      if Covered(r.units, a, job.role) {
        WithdrawnUncovered(tools.naming, job.Bound(), owners, r.units, side, a);
      }
    }
    assert forall id :: id in again <==> id in r.unassignedAtoms;
    StrictlySortedUnique(again, r.unassignedAtoms, TextKey);
  }

  lemma WithdrawnUncovered(naming: Naming, scope: Scope, owners: LineOwners, kept: seq<Unit>, side: seq<ChangeAtom>, a: ChangeAtom)
    requires AllBound(naming, scope, owners, kept)
    requires OwnersAre(owners, side, scope.role) && a in side && SideLines(a, scope.role) != []
    requires Covered(kept, a, scope.role)
    ensures exists u, line :: u in kept && line in u.fileChangedLines && line in owners && owners[line] == a.id
  {
    var line := SideLines(a, scope.role)[0];
    assert ShownBy(kept, line);
    var u :| u in kept && line in Effective(u);
    EffectiveLinesOwned(naming, scope, owners, u, line);
  }

  // --------------------------------------------------- the reported lines

  /** A region unit shows its region's lines under the region's id. */
  lemma RegionUnitShape(b: Binding, owners: LineOwners, a: Assignment)
    requires RegionStep(b, owners)(a).Some?
    ensures var u := RegionStep(b, owners)(a).value;
      && Effective(u) == u.fileChangedLines == a.lines
      && u.identity == RegionIdentity(b.path, a.region) && u.id == b.naming(u.identity, Some(b.scope))
      && u.quality == b.codes
  {
  }

  /** A bound declaration unit shows what it showed, under its new id. */
  lemma ScopedUnitShape(b: Binding, owners: LineOwners, u: Unit)
    requires ScopeStep(b, owners)(u).Some?
    ensures var v := ScopeStep(b, owners)(u).value;
      && Effective(v) == u.changedNewLines && v.fileChangedLines == u.fileChangedLines
      && v.identity == u.identity && v.id == b.naming(u.identity, Some(b.scope))
      && v.quality == u.quality + b.codes
  {
  }

  lemma RegionUnitAt(tools: Tools, job: Job, owners: LineOwners, k: nat)
    requires RegionUnits(tools, job, owners).Some?
    requires k < |Assignments(job.analysis.regions, owners.Keys)|
    ensures k < |RegionUnits(tools, job, owners).value|
    ensures var u, a := RegionUnits(tools, job, owners).value[k], Assignments(job.analysis.regions, owners.Keys)[k];
      && RegionStep(BindingOf(tools, job), owners)(a) == Some(u)
      && Effective(u) == u.fileChangedLines == a.lines
      && u.identity == RegionIdentity(job.snapshot.ref.path, a.region) && u.id == tools.naming(u.identity, Some(job.Bound()))
      && u.quality == QualityCodes(job.analysis)
  {
    var step, assignments := RegionStep(BindingOf(tools, job), owners), Assignments(job.analysis.regions, owners.Keys);
    TraverseSpec(step, assignments);
    assert step(assignments[k]) == Some(RegionUnits(tools, job, owners).value[k]);
    RegionUnitShape(BindingOf(tools, job), owners, assignments[k]);
  }

  /** The declaration units built for the lines no region took. */
  function Built(tools: Tools, job: Job, owners: LineOwners): seq<Unit> {
    DeclarationUnits(tools, job, RemainingLines(job.analysis.regions, owners.Keys))
  }

  lemma ScopedUnitAt(tools: Tools, job: Job, owners: LineOwners, k: nat)
    requires ScopedUnits(tools, job, owners).Some? && k < |Built(tools, job, owners)|
    ensures k < |ScopedUnits(tools, job, owners).value|
    ensures var v, u := ScopedUnits(tools, job, owners).value[k], Built(tools, job, owners)[k];
      && ScopeStep(BindingOf(tools, job), owners)(u) == Some(v)
      && Effective(v) == u.changedNewLines && v.fileChangedLines == u.fileChangedLines
      && v.identity == u.identity && v.id == tools.naming(u.identity, Some(job.Bound()))
      && v.quality == u.quality + QualityCodes(job.analysis)
  {
    var step, built := ScopeStep(BindingOf(tools, job), owners), Built(tools, job, owners);
    TraverseSpec(step, built);
    assert step(built[k]) == Some(ScopedUnits(tools, job, owners).value[k]);
    ScopedUnitShape(BindingOf(tools, job), owners, built[k]);
  }

  lemma RegionUnitCount(tools: Tools, job: Job, owners: LineOwners)
    ensures RegionUnits(tools, job, owners).Some? ==>
      |RegionUnits(tools, job, owners).value| == |Assignments(job.analysis.regions, owners.Keys)|
    ensures ScopedUnits(tools, job, owners).Some? ==>
      |ScopedUnits(tools, job, owners).value| == |Built(tools, job, owners)|
  {
    TraverseSpec(RegionStep(BindingOf(tools, job), owners), Assignments(job.analysis.regions, owners.Keys));
    TraverseSpec(ScopeStep(BindingOf(tools, job), owners), Built(tools, job, owners));
  }

  // ------------------------------------------------ what decides about a line

  ghost predicate HasRegion(regions: seq<Region>, line: nat) {
    exists r :: r in regions && r.ContainsLine(line)
  }

  ghost predicate HasUnit(units: seq<Unit>, line: nat) {
    exists u :: u in units && line in u.changedNewLines
  }

  /** A region contains the line, or the declaration builder shows it when given the
      changed lines that no region contains. */
  ghost predicate Coverable(tools: Tools, job: Job, line: nat) {
    || HasRegion(job.analysis.regions, line)
    || HasUnit(DeclarationUnits(tools, job, RemainingLines(job.analysis.regions, ChangedLines(job))), line)
  }

  predicate RangesValid(regions: seq<Region>) {
    forall r | r in regions :: r.range.Valid()
  }

  lemma OwnedLinesAreChanged(owners: LineOwners, job: Job)
    requires OwnersAre(owners, SideAtoms(job), job.role)
    ensures owners.Keys == ChangedLines(job)
  {
  }

  lemma ShowingUnitAssigned(tools: Tools, job: Job, owners: LineOwners, line: nat, u: Unit)
    requires RegionUnits(tools, job, owners).Some? && u in RegionUnits(tools, job, owners).value && line in Effective(u)
    ensures exists a :: a in Assignments(job.analysis.regions, owners.Keys) && line in a.lines
  {
    var assignments, us := Assignments(job.analysis.regions, owners.Keys), RegionUnits(tools, job, owners).value;
    RegionUnitCount(tools, job, owners);
    var k :| 0 <= k < |us| && us[k] == u;
    RegionUnitAt(tools, job, owners, k);
    assert assignments[k] in assignments;
  }

  lemma AssignedLineShown(tools: Tools, job: Job, owners: LineOwners, line: nat, a: Assignment)
    requires RegionUnits(tools, job, owners).Some? && a in Assignments(job.analysis.regions, owners.Keys) && line in a.lines
    ensures exists u :: u in RegionUnits(tools, job, owners).value && line in Effective(u)
  {
    var assignments, us := Assignments(job.analysis.regions, owners.Keys), RegionUnits(tools, job, owners).value;
    RegionUnitCount(tools, job, owners);
    var k :| 0 <= k < |assignments| && assignments[k] == a;
    RegionUnitAt(tools, job, owners, k);
    assert us[k] in us;
  }

  lemma RegionUnitShowing(tools: Tools, job: Job, owners: LineOwners, line: nat)
    requires RegionUnits(tools, job, owners).Some? && RangesValid(job.analysis.regions) && line in owners
    ensures (exists u :: u in RegionUnits(tools, job, owners).value && line in Effective(u)) <==> HasRegion(job.analysis.regions, line)
  {
    NoLineLost(job.analysis.regions, owners.Keys, line);
    if u :| u in RegionUnits(tools, job, owners).value && line in Effective(u) {
      ShowingUnitAssigned(tools, job, owners, line, u);
    }
    if a :| a in Assignments(job.analysis.regions, owners.Keys) && line in a.lines {
      AssignedLineShown(tools, job, owners, line, a);
    }
  }

  lemma ScopedUnitShowing(tools: Tools, job: Job, owners: LineOwners, line: nat)
    requires ScopedUnits(tools, job, owners).Some?
    ensures (exists u :: u in ScopedUnits(tools, job, owners).value && line in Effective(u)) <==> HasUnit(Built(tools, job, owners), line)
  {
    var built, vs := Built(tools, job, owners), ScopedUnits(tools, job, owners).value;
    RegionUnitCount(tools, job, owners);
    if v :| v in vs && line in Effective(v) {
      var k :| 0 <= k < |vs| && vs[k] == v;
      ScopedUnitAt(tools, job, owners, k);
      assert built[k] in built;
    }
    if u :| u in built && line in u.changedNewLines {
      var k :| 0 <= k < |built| && built[k] == u;
      ScopedUnitAt(tools, job, owners, k);
      assert vs[k] in vs;
    }
  }

  /** Before any withdrawal a changed line is shown exactly when a region contains it
      or the declaration builder shows it. */
  lemma ShownIffCoverable(tools: Tools, job: Job, owners: LineOwners, line: nat)
    requires OwnersAre(owners, SideAtoms(job), job.role) && line in owners
    requires BoundUnits(tools, job, owners).Some? && RangesValid(job.analysis.regions)
    ensures ShownBy(BoundUnits(tools, job, owners).value, line) <==> Coverable(tools, job, line)
  {
    OwnedLinesAreChanged(owners, job);
    BoundMembers(tools, job, owners);
    RegionUnitShowing(tools, job, owners, line);
    ScopedUnitShowing(tools, job, owners, line);
  }

  /** Some line of the atom is neither in a region nor shown by the builder. */
  ghost predicate LosesLine(tools: Tools, job: Job, a: ChangeAtom) {
    exists line :: line in SideLines(a, job.role) && !Coverable(tools, job, line)
  }

  ghost predicate ShownAsCoverable(tools: Tools, job: Job, units: seq<Unit>, line: nat) {
    ShownBy(units, line) <==> Coverable(tools, job, line)
  }

  /** Exactly the coverable ones of the lines are shown. */
  ghost predicate ShowsCoverable(tools: Tools, job: Job, units: seq<Unit>, lines: seq<nat>) {
    forall line | line in lines :: ShownAsCoverable(tools, job, units, line)
  }

  lemma LineShownIffCoverable(tools: Tools, job: Job, owners: LineOwners, units: seq<Unit>, line: nat)
    requires OwnersAre(owners, SideAtoms(job), job.role) && line in owners
    requires BoundUnits(tools, job, owners) == Some(units) && RangesValid(job.analysis.regions)
    ensures ShownAsCoverable(tools, job, units, line)
  {
    ShownIffCoverable(tools, job, owners, line);
  }

  lemma LinesShownIffCoverable(tools: Tools, job: Job, owners: LineOwners, units: seq<Unit>, lines: seq<nat>)
    requires OwnersAre(owners, SideAtoms(job), job.role) && AllOwned(owners, lines)
    requires BoundUnits(tools, job, owners) == Some(units) && RangesValid(job.analysis.regions)
    ensures ShowsCoverable(tools, job, units, lines)
  {
    forall line | line in lines ensures ShownAsCoverable(tools, job, units, line) {
      LineShownIffCoverable(tools, job, owners, units, line);
    }
  }

  lemma CoveredIffKeepsLines(tools: Tools, job: Job, units: seq<Unit>, a: ChangeAtom)
    requires ShowsCoverable(tools, job, units, SideLines(a, job.role))
    ensures Covered(units, a, job.role) <==> !LosesLine(tools, job, a)
  {
    forall line | line in SideLines(a, job.role) ensures ShownBy(units, line) <==> Coverable(tools, job, line) {
      assert ShownAsCoverable(tools, job, units, line);
    }
  }

  lemma AtomLinesOwned(owners: LineOwners, side: seq<ChangeAtom>, role: Side, a: ChangeAtom)
    requires OwnersAre(owners, side, role) && a in side
    ensures AllOwned(owners, SideLines(a, role))
  {
  }

  lemma AtomUnassignedIffUncovered(naming: Naming, scope: Scope, owners: LineOwners, units: seq<Unit>, side: seq<ChangeAtom>, a: ChangeAtom)
    requires AllBound(naming, scope, owners, units) && OwnersAre(owners, side, scope.role) && AtomsProper(side) && a in side
    ensures a.id in Unassigned(units, owners, side, scope.role) <==> !Covered(units, a, scope.role)
  {
    UnassignedIffUncovered(naming, scope, owners, units, side);
  }

  lemma UnassignedIffLosesLine(tools: Tools, job: Job, owners: LineOwners, a: ChangeAtom)
    requires OwnersAre(owners, SideAtoms(job), job.role) && AtomsProper(SideAtoms(job)) && a in SideAtoms(job)
    requires BoundUnits(tools, job, owners).Some? && RangesValid(job.analysis.regions)
    ensures a.id in Unassigned(BoundUnits(tools, job, owners).value, owners, SideAtoms(job), job.role)
       <==> LosesLine(tools, job, a)
  {
    AtomLinesOwned(owners, SideAtoms(job), job.role, a);
    LinesShownIffCoverable(tools, job, owners, BoundUnits(tools, job, owners).value, SideLines(a, job.role));
    CoveredIffKeepsLines(tools, job, BoundUnits(tools, job, owners).value, a);
    BoundUnitsAllBound(tools, job, owners);
    AtomUnassignedIffUncovered(tools.naming, job.Bound(), owners, BoundUnits(tools, job, owners).value, SideAtoms(job), a);
  }

  /** A built side withdraws an atom exactly when one of its lines there is neither in
      a region nor shown by the declaration builder. */
  lemma WithdrawnIffLosesLine(tools: Tools, job: Job, a: ChangeAtom)
    requires AtomsProper(job.atoms) && a in SideAtoms(job) && RangesValid(job.analysis.regions)
    requires Build(tools, job).Some?
    ensures a.id in Build(tools, job).value.unassignedAtoms <==> LosesLine(tools, job, a)
  {
    OwnersSpec(SideAtoms(job), job.role);
    UnassignedIffLosesLine(tools, job, OwnersOf(SideAtoms(job), job.role).value, a);
  }

  /** A line no region surrounds and no declared unit shows is shown by no unit. */
  lemma UnbuiltLinesUnshown(tools: Tools, job: Job, owners: LineOwners, line: nat)
    requires job.role == Head && BoundUnits(tools, job, owners).Some?
    requires line in UnbuiltLines(tools, job, RemainingLines(job.analysis.regions, owners.Keys))
    ensures line in owners
    ensures !ShownBy(BoundUnits(tools, job, owners).value, line)
  {
    var remaining := RemainingLines(job.analysis.regions, owners.Keys);
    LineRunsExpand(remaining);
    HunksExpand(LineRunsOf(remaining));
    BoundMembers(tools, job, owners);
    RegionUnitsMiss(tools, job, owners, line);
    ScopedUnitShowing(tools, job, owners, line);
  }

  lemma RegionUnitsMiss(tools: Tools, job: Job, owners: LineOwners, line: nat)
    requires RegionUnits(tools, job, owners).Some? && line in RemainingLines(job.analysis.regions, owners.Keys)
    ensures forall u | u in RegionUnits(tools, job, owners).value :: line !in Effective(u)
  {
    var us := RegionUnits(tools, job, owners).value;
    RegionUnitCount(tools, job, owners);
    forall u | u in us ensures line !in Effective(u) {
      var k :| 0 <= k < |us| && us[k] == u;
      RegionUnitAt(tools, job, owners, k);
      RemainingNotAssigned(job.analysis.regions, owners.Keys, Assignments(job.analysis.regions, owners.Keys)[k], line);
    }
  }

  lemma RemainingNotAssigned(regions: seq<Region>, changed: set<nat>, a: Assignment, line: nat)
    requires a in Assignments(regions, changed) && line in RemainingLines(regions, changed)
    ensures line !in a.lines
  {
    AssignmentMembers(regions, changed);
    assert line !in RegionLines(regions, changed, a.region);
  }

  lemma WithdrawnOwnersUnshown(naming: Naming, scope: Scope, owners: LineOwners, side: seq<ChangeAtom>, kept: seq<Unit>, withdrawn: seq<string>, line: nat)
    requires OwnersAre(owners, side, scope.role) && AllBound(naming, scope, owners, kept)
    requires Separated(scope.role, side, kept, withdrawn)
    requires line in owners
    ensures owners[line] in withdrawn <==> !ShownBy(kept, line)
  {
    var a :| a in side && a.id == owners[line] && line in SideLines(a, scope.role);
    forall u | u in kept && line in Effective(u) ensures owners[line] !in withdrawn {
      EffectiveLinesOwned(naming, scope, owners, u, line);
    }
  }

  lemma UnbuiltOwnersWithdrawn(tools: Tools, job: Job, owners: LineOwners, units: seq<Unit>, line: nat)
    requires OwnersAre(owners, SideAtoms(job), Head) && AtomsProper(SideAtoms(job))
    requires job.role == Head && BoundUnits(tools, job, owners) == Some(units)
    requires line in UnbuiltLines(tools, job, RemainingLines(job.analysis.regions, owners.Keys))
    ensures line in owners && owners[line] in Unassigned(units, owners, SideAtoms(job), Head)
  {
    var side := SideAtoms(job);
    BoundUnitsAllBound(tools, job, owners);
    UnassignedIffUncovered(tools.naming, job.Bound(), owners, units, side);
    UnbuiltLinesUnshown(tools, job, owners, line);
    var a :| a in side && a.id == owners[line] && line in SideLines(a, Head);
    assert !Covered(units, a, Head);
  }

  lemma LinesOfAtomsOwned(owners: LineOwners, side: seq<ChangeAtom>, role: Side, ids: seq<string>, line: nat)
    requires OwnersAre(owners, side, role)
    ensures line in LinesOfAtoms(side, role, ids) <==> line in owners && owners[line] in ids
  {
    if line in owners && owners[line] in ids {
      var a :| a in side && a.id == owners[line] && line in SideLines(a, role);
    }
  }

  lemma ReportedIffWithdrawn(tools: Tools, job: Job, owners: LineOwners, units: seq<Unit>, line: nat)
    requires OwnersAre(owners, SideAtoms(job), job.role) && AtomsProper(SideAtoms(job))
    requires job.role == Head && BoundUnits(tools, job, owners) == Some(units)
    ensures var withdrawn := Unassigned(units, owners, SideAtoms(job), job.role);
      line in UnassignedLines(tools, job, owners, withdrawn) <==> line in owners && owners[line] in withdrawn
  {
    var withdrawn := Unassigned(units, owners, SideAtoms(job), job.role);
    LinesOfAtomsOwned(owners, SideAtoms(job), Head, withdrawn, line);
    if line in UnbuiltLines(tools, job, RemainingLines(job.analysis.regions, owners.Keys)) {
      UnbuiltOwnersWithdrawn(tools, job, owners, units, line);
    }
  }

  /** On the head side the reported unassigned lines are exactly the changed lines
      that no unit shows: nothing is lost and nothing is reported twice. The base
      side reports no lines, whatever was withdrawn. */
  lemma ReportedLines(tools: Tools, job: Job, owners: LineOwners)
    requires OwnersAre(owners, SideAtoms(job), job.role) && AtomsProper(SideAtoms(job))
    requires BoundUnits(tools, job, owners).Some?
    requires Finish(tools, job, owners, BoundUnits(tools, job, owners).value).Some?
    ensures var r := Finish(tools, job, owners, BoundUnits(tools, job, owners).value).value;
      && (job.role == Base ==> r.unassignedLines == [])
      && (job.role == Head ==> forall line ::
            line in r.unassignedLines <==> line in owners && !ShownBy(r.units, line))
  {
    var units := BoundUnits(tools, job, owners).value;
    var r := Finish(tools, job, owners, units).value;
    BoundUnitsAllBound(tools, job, owners);
    KeptUnitsSpec(tools, job, owners, units);
    if job.role == Head {
      forall line ensures line in r.unassignedLines <==> line in owners && !ShownBy(r.units, line) {
        ReportedIffWithdrawn(tools, job, owners, units, line);
        if line in owners {
          WithdrawnOwnersUnshown(tools.naming, job.Bound(), owners, SideAtoms(job), r.units, r.unassignedAtoms, line);
        }
      }
    }
  }
}
