/** Conservation over the whole build: every changed line of every source-backed file
    is shown by units that name its atom, or the atom is reported unassigned. */
module ReviewProofs {
  import opened Ordering
  import opened Sorting
  import opened ChangeModel
  import opened FileAnalysis
  import opened RegionAssignment
  import opened ReviewUnits
  import opened SourceResult
  import opened SourceProofs
  import opened ChangeReview

  /** Every atom passed its own validation when it was built. */
  ghost predicate ProperAtoms(env: Env, cs: ChangeSet) {
    forall a | a in cs.atoms :: AtomOk(env, a)
  }

  // ---------------------------------------------------------- files and atoms

  lemma EntryOk(env: Env, cs: ChangeSet, f: ChangedFile)
    requires FileEntriesOk(env, cs) && f in cs.files
    ensures FileEntryOk(env, cs.header, TableOf(cs.sources), AtomTable(cs.atoms), f)
  {
    var i :| 0 <= i < |cs.files| && cs.files[i] == f;
    assert FileEntryOk(env, cs.header, TableOf(cs.sources), AtomTable(cs.atoms), cs.files[i]);
  }

  lemma ResolvedAtoms(cs: ChangeSet, f: ChangedFile)
    requires FileAtoms(AtomTable(cs.atoms), f).Some?
    ensures var atoms := AtomsOfFile(cs, f);
      && |atoms| == |f.atomIds|
      && forall k | 0 <= k < |atoms| :: atoms[k] in cs.atoms && atoms[k].id == f.atomIds[k]
  {
    var byId := AtomTable(cs.atoms);
    var atoms := AtomsOfFile(cs, f);
    TraverseSpec(Lookup(byId), f.atomIds);
    TableByContents(IdOfAtom, cs.atoms);
    forall k | 0 <= k < |atoms| ensures atoms[k] in cs.atoms && atoms[k].id == f.atomIds[k] {
      assert Lookup(byId)(f.atomIds[k]) == Some(atoms[k]);
    }
  }

  lemma FileAtomFacts(env: Env, cs: ChangeSet, f: ChangedFile)
    requires FileEntriesOk(env, cs) && f in cs.files
    ensures forall a | a in AtomsOfFile(cs, f) :: a in cs.atoms && AtomBelongs(f, a) && a.id in f.atomIds
    ensures OneAtomPerLine(AtomsOfFile(cs, f))
    ensures FileOk(env, f)
  {
    EntryOk(env, cs, f);
    ResolvedAtoms(cs, f);
    var atoms := AtomsOfFile(cs, f);
    forall a | a in atoms ensures a in cs.atoms && AtomBelongs(f, a) && a.id in f.atomIds {
      var k :| 0 <= k < |atoms| && atoms[k] == a;
    }
  }

  lemma AtomsIdentified(cs: ChangeSet, a: ChangeAtom, b: ChangeAtom)
    requires NoRepeats(AtomIds(cs.atoms))
    requires a in cs.atoms && b in cs.atoms && a.id == b.id
    ensures a == b
  {
    var i :| 0 <= i < |cs.atoms| && cs.atoms[i] == a;
    var j :| 0 <= j < |cs.atoms| && cs.atoms[j] == b;
    if i < j {
      NoRepeatsIndices(AtomIds(cs.atoms), i, j);
    } else if j < i {
      NoRepeatsIndices(AtomIds(cs.atoms), j, i);
    }
  }

  lemma FileAtomsProper(env: Env, cs: ChangeSet, f: ChangedFile)
    requires ChangeSetOk(env, cs) && ProperAtoms(env, cs) && f in cs.files
    ensures AtomsProper(AtomsOfFile(cs, f))
  {
    FileAtomFacts(env, cs, f);
    forall a, b | a in AtomsOfFile(cs, f) && b in AtomsOfFile(cs, f) && a.id == b.id ensures a == b {
      AtomsIdentified(cs, a, b);
    }
  }

  lemma FilesIdentified(cs: ChangeSet, f: ChangedFile, g: ChangedFile)
    requires FileListOk(cs) && f in cs.files && g in cs.files && f.id == g.id
    ensures f == g
  {
    var i :| 0 <= i < |cs.files| && cs.files[i] == f;
    var j :| 0 <= j < |cs.files| && cs.files[j] == g;
    if i < j {
      NoRepeatsIndices(Map(IdOfFile, cs.files), i, j);
    } else if j < i {
      NoRepeatsIndices(Map(IdOfFile, cs.files), j, i);
    }
  }

  /** An atom id is listed by one file only. */
  lemma OneFilePerAtom(cs: ChangeSet, f: ChangedFile, g: ChangedFile, id: string)
    requires OwnershipOk(cs) && NoRepeats(AtomIds(cs.atoms))
    requires f in cs.files && g in cs.files && id in f.atomIds && id in g.atomIds
    ensures f == g
  {
    var ids := Flat(AtomIdsOf, cs.files);
    NoRepeatsBag(AtomIds(cs.atoms), ids);
    var i :| 0 <= i < |cs.files| && cs.files[i] == f;
    var j :| 0 <= j < |cs.files| && cs.files[j] == g;
    if i < j {
      FlatOneOrigin(AtomIdsOf, cs.files, i, j, id);
    } else if j < i {
      FlatOneOrigin(AtomIdsOf, cs.files, j, i, id);
    }
  }

  // ----------------------------------------------------------- jobs, results

  lemma RefsAreSources(cs: ChangeSet, f: ChangedFile, role: Side)
    requires OwnershipOk(cs) && f in cs.files && FileRef(f, role).Some?
    ensures FileRef(f, role).value in SourceIds(cs)
  {
    var id := FileRef(f, role).value;
    assert id in RefsOf(f);
    FlatMember(RefsOf, cs.files, id);
    assert id in set k | k in ReferencedIds(cs.files);
  }

  lemma SourcesKnown(env: Env, inp: Inputs, f: ChangedFile, role: Side)
    requires InputsOk(env, inp) && f in inp.changeSet.files && FileRef(f, role).Some?
    ensures SideKnown(inp, f, role) && JobAt(inp, f, role).snapshot.ref.id == FileRef(f, role).value
  {
    RefsAreSources(inp.changeSet, f, role);
    SourceChecked(env, inp, FileRef(f, role).value);
  }

  lemma SideJobListed(env: Env, inp: Inputs, f: ChangedFile, role: Side)
    requires InputsOk(env, inp) && f in inp.changeSet.files && !f.isBinary && FileRef(f, role).Some?
    ensures SideKnown(inp, f, role) && JobAt(inp, f, role) in Jobs(inp)
  {
    SourcesKnown(env, inp, f, role);
    assert JobAt(inp, f, role) in FileJobs(inp)(f);
    FlatMember(FileJobs(inp), inp.changeSet.files, JobAt(inp, f, role));
  }

  predicate ResultFor(r: FileResult, f: ChangedFile, role: Side) {
    r.fileId == f.id && r.scope.role == role
  }

  lemma StepResults(tools: Tools, jobs: seq<Job>, results: seq<FileResult>)
    requires Traverse(BuildStep(tools), jobs) == Some(results)
    ensures forall job | job in jobs :: Build(tools, job).Some? && Build(tools, job).value in results
    ensures forall r | r in results :: exists job :: job in jobs && Build(tools, job) == Some(r)
  {
    var step := BuildStep(tools);
    TraverseSpec(step, jobs);
    forall job | job in jobs ensures Build(tools, job).Some? && Build(tools, job).value in results {
      var i :| 0 <= i < |jobs| && jobs[i] == job;
      assert step(job) == Some(results[i]);
    }
    forall r | r in results ensures exists job :: job in jobs && Build(tools, job) == Some(r) {
      var i :| 0 <= i < |results| && results[i] == r;
      assert jobs[i] in jobs && step(jobs[i]) == Some(r);
    }
  }

  /** What the finished batch's results are: the built jobs, one for one. */
  lemma BatchResults(env: Env, tools: Tools, inp: Inputs, b: Batch)
    requires BuildAll(env, tools, inp) == Some(b)
    ensures InputsOk(env, inp) && BatchOk(b)
    ensures forall job | job in Jobs(inp) :: Build(tools, job).Some? && Build(tools, job).value in b.results
    ensures forall r | r in b.results :: exists job :: job in Jobs(inp) && Build(tools, job) == Some(r)
  {
    var results := Traverse(BuildStep(tools), Jobs(inp)).value;
    StepResults(tools, Jobs(inp), results);
    SortBySorts(results, ResultKey);
    assert b.results == SortBy(results, ResultKey);
  }

  lemma JobOrigin(inp: Inputs, job: Job) returns (f: ChangedFile)
    requires job in Jobs(inp)
    ensures f in inp.changeSet.files && !f.isBinary
    ensures SideKnown(inp, f, job.role) && job == JobAt(inp, f, job.role)
  {
    FlatMember(FileJobs(inp), inp.changeSet.files, job);
    f :| f in inp.changeSet.files && job in FileJobs(inp)(f);
  }

  lemma JobAtoms(env: Env, inp: Inputs, job: Job)
    requires InputsOk(env, inp) && ProperAtoms(env, inp.changeSet) && job in Jobs(inp)
    ensures AtomsProper(job.atoms)
  {
    var f := JobOrigin(inp, job);
    FileAtomsProper(env, inp.changeSet, f);
  }

  lemma JobRegions(env: Env, inp: Inputs, job: Job)
    requires InputsOk(env, inp) && job in Jobs(inp)
    ensures RegionsProper(job.analysis.regions) && RangesValid(job.analysis.regions)
  {
    var f := JobOrigin(inp, job);
    SourceChecked(env, inp, FileRef(f, job.role).value);
  }

  // ------------------------------------------------------ what a build settles

  /** The atoms of a file with lines on one of its sides. */
  function FileSide(cs: ChangeSet, f: ChangedFile, role: Side): seq<ChangeAtom> {
    if FileRef(f, role).None? then [] else AtomsOn(AtomsOfFile(cs, f), role, FileRef(f, role).value)
  }

  /** `r` is the all-or-nothing result of a side that the file has. */
  ghost predicate SideSettled(cs: ChangeSet, f: ChangedFile, r: FileResult) {
    && r.fileId == f.id && FileRef(f, r.scope.role).Some?
    && AllOrNothing(r.scope.role, FileSide(cs, f, r.scope.role), r)
  }

  ghost predicate HasResult(b: Batch, f: ChangedFile, role: Side) {
    exists r :: r in b.results && ResultFor(r, f, role)
  }

  /** One settled result per side of every source-backed file, and no others. */
  ghost predicate Settled(cs: ChangeSet, b: Batch) {
    && (forall r | r in b.results :: exists f :: f in cs.files && SideSettled(cs, f, r))
    && (forall f, role | f in cs.files && !f.isBinary && FileRef(f, role).Some? :: HasResult(b, f, role))
    && (forall r, q | r in b.results && q in b.results && r.fileId == q.fileId && r.scope.role == q.scope.role :: r == q)
    && (forall id :: id in b.unassigned <==> exists r :: r in b.results && id in r.unassignedAtoms)
  }

  /** Files and atoms are told apart by id, and an atom sits in one file, on its sides. */
  ghost predicate Placed(cs: ChangeSet) {
    && (forall f, g | f in cs.files && g in cs.files && f.id == g.id :: f == g)
    && (forall f | f in cs.files :: AtomsInPlace(cs, f))
    && AtomsApart(cs)
  }

  ghost predicate AtomsApart(cs: ChangeSet) {
    forall f, g, a, c | f in cs.files && g in cs.files && a in AtomsOfFile(cs, f) && c in AtomsOfFile(cs, g) && a.id == c.id ::
      f == g && a == c
  }

  ghost predicate AtomsInPlace(cs: ChangeSet, f: ChangedFile) {
    && (forall a | a in AtomsOfFile(cs, f) :: AtomKindOk(a) && !f.isBinary)
    && (forall a, role | a in AtomsOfFile(cs, f) && SideRef(a, role).Some? :: SideRef(a, role) == FileRef(f, role))
  }

  lemma AtomsArePlaced(env: Env, cs: ChangeSet)
    requires ChangeSetOk(env, cs) && ProperAtoms(env, cs)
    ensures Placed(cs)
  {
    forall f, g | f in cs.files && g in cs.files && f.id == g.id ensures f == g {
      FilesIdentified(cs, f, g);
    }
    forall f | f in cs.files ensures AtomsInPlace(cs, f) {
      FilePlaced(env, cs, f);
    }
    AtomsAreApart(env, cs);
  }

  lemma FilePlaced(env: Env, cs: ChangeSet, f: ChangedFile)
    requires FileEntriesOk(env, cs) && ProperAtoms(env, cs) && f in cs.files
    ensures AtomsInPlace(cs, f)
  {
    FileAtomFacts(env, cs, f);
  }

  lemma AtomsAreApart(env: Env, cs: ChangeSet)
    requires ChangeSetOk(env, cs)
    ensures AtomsApart(cs)
  {
    forall f, g, a, c | f in cs.files && g in cs.files && a in AtomsOfFile(cs, f) && c in AtomsOfFile(cs, g) && a.id == c.id
      ensures f == g && a == c
    {
      FileAtomFacts(env, cs, f);
      FileAtomFacts(env, cs, g);
      OneFilePerAtom(cs, f, g, a.id);
      AtomsIdentified(cs, a, c);
    }
  }

  lemma JobSettled(env: Env, tools: Tools, inp: Inputs, job: Job) returns (f: ChangedFile)
    requires InputsOk(env, inp) && ProperAtoms(env, inp.changeSet)
    requires job in Jobs(inp) && Build(tools, job).Some?
    ensures f in inp.changeSet.files && SideKnown(inp, f, job.role) && job == JobAt(inp, f, job.role)
    ensures SideSettled(inp.changeSet, f, Build(tools, job).value)
    ensures Build(tools, job).value.scope.role == job.role
  {
    f := JobOrigin(inp, job);
    JobAtoms(env, inp, job);
    SourcesKnown(env, inp, f, job.role);
    BuildAllOrNothing(tools, job);
  }

  lemma OneResultPerSide(env: Env, tools: Tools, inp: Inputs, b: Batch, r: FileResult, q: FileResult)
    requires BuildAll(env, tools, inp) == Some(b) && ProperAtoms(env, inp.changeSet)
    requires r in b.results && q in b.results && r.fileId == q.fileId && r.scope.role == q.scope.role
    ensures r == q
  {
    BatchResults(env, tools, inp, b);
    var i :| i in Jobs(inp) && Build(tools, i) == Some(r);
    var j :| j in Jobs(inp) && Build(tools, j) == Some(q);
    var f := JobSettled(env, tools, inp, i);
    var g := JobSettled(env, tools, inp, j);
    FilesIdentified(inp.changeSet, f, g);
  }

  lemma EverySideBuilt(env: Env, tools: Tools, inp: Inputs, b: Batch, f: ChangedFile, role: Side)
    requires BuildAll(env, tools, inp) == Some(b) && ProperAtoms(env, inp.changeSet)
    requires f in inp.changeSet.files && !f.isBinary && FileRef(f, role).Some?
    ensures HasResult(b, f, role)
  {
    BatchResults(env, tools, inp, b);
    SideJobListed(env, inp, f, role);
    var job := JobAt(inp, f, role);
    JobAtoms(env, inp, job);
    BuildAllOrNothing(tools, job);
    assert ResultFor(Build(tools, job).value, f, role);
  }

  lemma BuildSettles(env: Env, tools: Tools, inp: Inputs, b: Batch)
    requires BuildAll(env, tools, inp) == Some(b) && ProperAtoms(env, inp.changeSet)
    ensures Settled(inp.changeSet, b) && Placed(inp.changeSet)
  {
    BatchResults(env, tools, inp, b);
    AtomsArePlaced(env, inp.changeSet);
    forall r | r in b.results ensures exists f :: f in inp.changeSet.files && SideSettled(inp.changeSet, f, r) {
      var job :| job in Jobs(inp) && Build(tools, job) == Some(r);
      var f := JobSettled(env, tools, inp, job);
    }
    forall f, role | f in inp.changeSet.files && !f.isBinary && FileRef(f, role).Some? ensures HasResult(b, f, role) {
      EverySideBuilt(env, tools, inp, b, f, role);
    }
    forall r, q | r in b.results && q in b.results && r.fileId == q.fileId && r.scope.role == q.scope.role ensures r == q {
      OneResultPerSide(env, tools, inp, b, r, q);
    }
    forall id ensures id in b.unassigned <==> exists r :: r in b.results && id in r.unassignedAtoms {
      assert id in b.unassigned <==> id in UnassignedIds(b.results);
    }
  }

  // ------------------------------------------------------------- shown, named

  /** Some unit of the file's side shows the line. */
  ghost predicate ShownIn(b: Batch, f: ChangedFile, role: Side, line: nat) {
    exists r :: r in b.results && ResultFor(r, f, role) && ShownBy(r.units, line)
  }

  /** Every deleted line is in a base unit and every added line in a head unit. */
  ghost predicate FullyShown(b: Batch, f: ChangedFile, a: ChangeAtom) {
    && (forall line | line in a.deletedLines :: ShownIn(b, f, Base, line))
    && (forall line | line in a.addedLines :: ShownIn(b, f, Head, line))
  }

  /** The atom was withdrawn from the file's side. */
  ghost predicate WithdrawnOn(b: Batch, f: ChangedFile, role: Side, id: string) {
    exists r :: r in b.results && ResultFor(r, f, role) && id in r.unassignedAtoms
  }

  ghost predicate NamedOn(b: Batch, f: ChangedFile, role: Side, id: string) {
    exists r :: r in b.results && ResultFor(r, f, role) && NamedBy(r.units, id)
  }

  /** Some unit of the whole build names the atom. */
  ghost predicate NamedIn(b: Batch, id: string) {
    exists r :: r in b.results && NamedBy(r.units, id)
  }

  /** The result of the side an atom has lines on, and the atom among its atoms. */
  lemma SettledSide(cs: ChangeSet, b: Batch, f: ChangedFile, a: ChangeAtom, role: Side) returns (r: FileResult)
    requires Settled(cs, b) && Placed(cs)
    requires f in cs.files && a in AtomsOfFile(cs, f) && SideRef(a, role).Some?
    ensures r in b.results && ResultFor(r, f, role)
    ensures forall q | q in b.results && ResultFor(q, f, role) :: q == r
    ensures a in FileSide(cs, f, role) && AllOrNothing(role, FileSide(cs, f, role), r)
    ensures SideLines(a, role) != []
  {
    assert AtomsInPlace(cs, f);
    assert HasResult(b, f, role);
    r :| r in b.results && ResultFor(r, f, role);
    var g :| g in cs.files && SideSettled(cs, g, r);
    assert g == f;
  }

  lemma WithdrawnIffUnshown(role: Side, side: seq<ChangeAtom>, r: FileResult, a: ChangeAtom)
    requires AllOrNothing(role, side, r) && a in side && SideLines(a, role) != []
    ensures a.id in r.unassignedAtoms <==> !Covered(r.units, a, role)
  {
    if Covered(r.units, a, role) {
      var line := SideLines(a, role)[0];
      assert line in SideLines(a, role) && ShownBy(r.units, line);
      var u :| u in r.units && line in Effective(u);
      assert a.id in u.atomIds && NamedBy(r.units, a.id);
    }
  }

  /** An id a result withdraws or names is an atom of the result's file and side. */
  lemma MentionedAtom(cs: ChangeSet, b: Batch, f: ChangedFile, a: ChangeAtom, r: FileResult)
    requires Settled(cs, b) && Placed(cs)
    requires f in cs.files && a in AtomsOfFile(cs, f)
    requires r in b.results && (a.id in r.unassignedAtoms || NamedBy(r.units, a.id))
    ensures r.fileId == f.id && SideRef(a, r.scope.role).Some?
  {
    var g :| g in cs.files && SideSettled(cs, g, r);
    var side := FileSide(cs, g, r.scope.role);
    var c :| c in side && c.id == a.id;
    assert c in AtomsOfFile(cs, g);
  }

  lemma NotMentioned(cs: ChangeSet, b: Batch, f: ChangedFile, a: ChangeAtom, role: Side)
    requires Settled(cs, b) && Placed(cs) && f in cs.files && a in AtomsOfFile(cs, f)
    requires SideRef(a, role).None?
    ensures !WithdrawnOn(b, f, role, a.id) && !NamedOn(b, f, role, a.id)
  {
    forall r | r in b.results && ResultFor(r, f, role) ensures a.id !in r.unassignedAtoms && !NamedBy(r.units, a.id) {
      if a.id in r.unassignedAtoms || NamedBy(r.units, a.id) {
        MentionedAtom(cs, b, f, a, r);
      }
    }
  }

  /** Per side: an atom is withdrawn exactly when one of its lines there is not shown. */
  lemma SideVerdict(cs: ChangeSet, b: Batch, f: ChangedFile, a: ChangeAtom, role: Side)
    requires Settled(cs, b) && Placed(cs) && f in cs.files && a in AtomsOfFile(cs, f)
    ensures WithdrawnOn(b, f, role, a.id) <==> exists line :: line in SideLines(a, role) && !ShownIn(b, f, role, line)
  {
    if SideRef(a, role).Some? {
      var r := SettledSide(cs, b, f, a, role);
      WithdrawnIffUnshown(role, FileSide(cs, f, role), r, a);
      assert forall line :: ShownIn(b, f, role, line) <==> ShownBy(r.units, line);
    } else {
      assert AtomsInPlace(cs, f) && SideLines(a, role) == [];
      NotMentioned(cs, b, f, a, role);
    }
  }

  lemma ReportedSomewhere(cs: ChangeSet, b: Batch, f: ChangedFile, a: ChangeAtom)
    requires Settled(cs, b) && Placed(cs) && f in cs.files && a in AtomsOfFile(cs, f)
    ensures a.id in b.unassigned <==> WithdrawnOn(b, f, Base, a.id) || WithdrawnOn(b, f, Head, a.id)
  {
    if a.id in b.unassigned {
      WithdrawnSomewhere(cs, b, f, a);
    }
  }

  lemma WithdrawnSomewhere(cs: ChangeSet, b: Batch, f: ChangedFile, a: ChangeAtom)
    requires Settled(cs, b) && Placed(cs) && f in cs.files && a in AtomsOfFile(cs, f)
    requires a.id in b.unassigned
    ensures WithdrawnOn(b, f, Base, a.id) || WithdrawnOn(b, f, Head, a.id)
  {
    var r :| r in b.results && a.id in r.unassignedAtoms;
    MentionedAtom(cs, b, f, a, r);
    assert ResultFor(r, f, r.scope.role);
  }

  lemma SideNamedIff(cs: ChangeSet, b: Batch, f: ChangedFile, a: ChangeAtom, role: Side)
    requires Settled(cs, b) && Placed(cs) && f in cs.files && a in AtomsOfFile(cs, f)
    ensures SideRef(a, role).Some? <==> SideLines(a, role) != []
    ensures NamedOn(b, f, role, a.id) <==> SideLines(a, role) != [] && !WithdrawnOn(b, f, role, a.id)
  {
    assert AtomsInPlace(cs, f);
    if SideRef(a, role).Some? {
      var r := SettledSide(cs, b, f, a, role);
    } else {
      NotMentioned(cs, b, f, a, role);
    }
  }

  // ---------------------------------------------------------------- theorems

  /** Conservation: an atom is absent from the build's unassigned list exactly when
      every deleted line is in a base unit of its file and every added line in a head
      unit of its file. */
  lemma UnassignedIffLineLost(env: Env, tools: Tools, inp: Inputs, b: Batch, f: ChangedFile, a: ChangeAtom)
    requires BuildAll(env, tools, inp) == Some(b) && ProperAtoms(env, inp.changeSet)
    requires f in inp.changeSet.files && a in AtomsOfFile(inp.changeSet, f)
    ensures a.id !in b.unassigned <==> FullyShown(b, f, a)
  {
    BuildSettles(env, tools, inp, b);
    LostLine(inp.changeSet, b, f, a);
  }

  lemma LostLine(cs: ChangeSet, b: Batch, f: ChangedFile, a: ChangeAtom)
    requires Settled(cs, b) && Placed(cs) && f in cs.files && a in AtomsOfFile(cs, f)
    ensures a.id !in b.unassigned <==> FullyShown(b, f, a)
  {
    ReportedSomewhere(cs, b, f, a);
    SideVerdict(cs, b, f, a, Base);
    SideVerdict(cs, b, f, a, Head);
  }

  /** Each unit of the file's side that holds one of an atom's lines names the atom. */
  lemma ShowingUnitNamesAtom(env: Env, tools: Tools, inp: Inputs, b: Batch, f: ChangedFile, a: ChangeAtom,
                             r: FileResult, u: Unit, line: nat)
    requires BuildAll(env, tools, inp) == Some(b) && ProperAtoms(env, inp.changeSet)
    requires f in inp.changeSet.files && a in AtomsOfFile(inp.changeSet, f)
    requires r in b.results && r.fileId == f.id && u in r.units
    requires line in Effective(u) && line in SideLines(a, r.scope.role)
    ensures a.id in u.atomIds
  {
    BuildSettles(env, tools, inp, b);
    SideNamedIff(inp.changeSet, b, f, a, r.scope.role);
    var q := SettledSide(inp.changeSet, b, f, a, r.scope.role);
    assert ResultFor(r, f, r.scope.role);
  }

  /** Every atom belongs to a source-backed file, so none escapes the theorems here. */
  lemma EveryAtomHasAFile(env: Env, cs: ChangeSet, a: ChangeAtom) returns (f: ChangedFile)
    requires ChangeSetOk(env, cs) && a in cs.atoms
    ensures f in cs.files && !f.isBinary && a in AtomsOfFile(cs, f)
  {
    var ids := AtomIds(cs.atoms);
    var k :| 0 <= k < |cs.atoms| && cs.atoms[k] == a;
    assert ids[k] in multiset(ids);
    assert a.id in Flat(AtomIdsOf, cs.files);
    FlatMember(AtomIdsOf, cs.files, a.id);
    f :| f in cs.files && a.id in AtomIdsOf(f);
    FileAtomFacts(env, cs, f);
    ListedAtom(env, cs, f, a);
  }

  lemma ListedAtom(env: Env, cs: ChangeSet, f: ChangedFile, a: ChangeAtom)
    requires FileEntriesOk(env, cs) && NoRepeats(AtomIds(cs.atoms))
    requires a in cs.atoms && f in cs.files && a.id in f.atomIds
    ensures a in AtomsOfFile(cs, f)
  {
    EntryOk(env, cs, f);
    ResolvedAtoms(cs, f);
    var k :| 0 <= k < |f.atomIds| && f.atomIds[k] == a.id;
    AtomsIdentified(cs, a, AtomsOfFile(cs, f)[k]);
  }

  // --------------------------------------------------- from parse and builder

  /** Some line of the atom on this side lies in no region and is not shown by what the
      declaration builder returns for the side. */
  ghost predicate LosesOn(tools: Tools, inp: Inputs, f: ChangedFile, role: Side, a: ChangeAtom) {
    SideKnown(inp, f, role) && LosesLine(tools, JobAt(inp, f, role), a)
  }

  lemma WithdrawnOnIffLoses(env: Env, tools: Tools, inp: Inputs, b: Batch, f: ChangedFile, a: ChangeAtom, role: Side)
    requires BuildAll(env, tools, inp) == Some(b) && ProperAtoms(env, inp.changeSet)
    requires f in inp.changeSet.files && a in AtomsOfFile(inp.changeSet, f)
    ensures WithdrawnOn(b, f, role, a.id) <==> LosesOn(tools, inp, f, role, a)
  {
    BuildSettles(env, tools, inp, b);
    assert AtomsInPlace(inp.changeSet, f);
    if SideRef(a, role).Some? {
      SideLoses(env, tools, inp, b, f, a, role);
    } else {
      NotMentioned(inp.changeSet, b, f, a, role);
      NoLines(a, role);
    }
  }

  lemma SideLoses(env: Env, tools: Tools, inp: Inputs, b: Batch, f: ChangedFile, a: ChangeAtom, role: Side)
    requires BuildAll(env, tools, inp) == Some(b) && ProperAtoms(env, inp.changeSet)
    requires Settled(inp.changeSet, b) && Placed(inp.changeSet)
    requires f in inp.changeSet.files && !f.isBinary && a in AtomsOfFile(inp.changeSet, f)
    requires SideRef(a, role).Some? && SideRef(a, role) == FileRef(f, role)
    ensures WithdrawnOn(b, f, role, a.id) <==> LosesOn(tools, inp, f, role, a)
  {
    var r := SettledSide(inp.changeSet, b, f, a, role);
    BatchResults(env, tools, inp, b);
    SideJobListed(env, inp, f, role);
    JobLoses(env, tools, inp, b, f, a, role, r);
  }

  lemma NoLines(a: ChangeAtom, role: Side)
    requires AtomKindOk(a) && SideRef(a, role).None?
    ensures SideLines(a, role) == []
  {
  }

  lemma JobLoses(env: Env, tools: Tools, inp: Inputs, b: Batch, f: ChangedFile, a: ChangeAtom, role: Side, r: FileResult)
    requires InputsOk(env, inp) && ProperAtoms(env, inp.changeSet)
    requires f in inp.changeSet.files && a in AtomsOfFile(inp.changeSet, f) && SideRef(a, role) == FileRef(f, role)
    requires SideKnown(inp, f, role) && JobAt(inp, f, role) in Jobs(inp)
    requires Build(tools, JobAt(inp, f, role)).Some? && Build(tools, JobAt(inp, f, role)).value in b.results
    requires ResultFor(r, f, role) && forall q | q in b.results && ResultFor(q, f, role) :: q == r
    requires r in b.results
    ensures WithdrawnOn(b, f, role, a.id) <==> LosesLine(tools, JobAt(inp, f, role), a)
  {
    var job := JobAt(inp, f, role);
    JobAtoms(env, inp, job);
    JobRegions(env, inp, job);
    BuildAllOrNothing(tools, job);
    SourceChecked(env, inp, FileRef(f, role).value);
    assert ResultFor(Build(tools, job).value, f, role) && a in SideAtoms(job);
    WithdrawnIffLosesLine(tools, job, a);
  }

  /** An atom is listed as unassigned exactly when on some side one of its lines lies in
      no region and is not shown by the declaration builder. */
  lemma ReportedIffLosesLine(env: Env, tools: Tools, inp: Inputs, b: Batch, f: ChangedFile, a: ChangeAtom)
    requires BuildAll(env, tools, inp) == Some(b) && ProperAtoms(env, inp.changeSet)
    requires f in inp.changeSet.files && a in AtomsOfFile(inp.changeSet, f)
    ensures a.id in b.unassigned <==> LosesOn(tools, inp, f, Base, a) || LosesOn(tools, inp, f, Head, a)
  {
    BuildSettles(env, tools, inp, b);
    ReportedSomewhere(inp.changeSet, b, f, a);
    WithdrawnOnIffLoses(env, tools, inp, b, f, a, Base);
    WithdrawnOnIffLoses(env, tools, inp, b, f, a, Head);
  }

  /** An atom is named by no unit of the build exactly when it loses a line on every
      side it has lines on. */
  lemma NamedNowhereIff(env: Env, tools: Tools, inp: Inputs, b: Batch, f: ChangedFile, a: ChangeAtom)
    requires BuildAll(env, tools, inp) == Some(b) && ProperAtoms(env, inp.changeSet)
    requires f in inp.changeSet.files && a in AtomsOfFile(inp.changeSet, f)
    ensures !NamedIn(b, a.id) <==>
      && (a.deletedLines != [] ==> LosesOn(tools, inp, f, Base, a))
      && (a.addedLines != [] ==> LosesOn(tools, inp, f, Head, a))
  {
    BuildSettles(env, tools, inp, b);
    NamedSomewhere(inp.changeSet, b, f, a);
    SideNamedIff(inp.changeSet, b, f, a, Base);
    SideNamedIff(inp.changeSet, b, f, a, Head);
    WithdrawnOnIffLoses(env, tools, inp, b, f, a, Base);
    WithdrawnOnIffLoses(env, tools, inp, b, f, a, Head);
  }

  /** A place in the unassigned list means that no unit names the atom exactly when an
      atom with lines on both sides loses a line on both of them or on neither. */
  lemma UnassignedMeansUnnamedIff(env: Env, tools: Tools, inp: Inputs, b: Batch, f: ChangedFile, a: ChangeAtom)
    requires BuildAll(env, tools, inp) == Some(b) && ProperAtoms(env, inp.changeSet)
    requires f in inp.changeSet.files && a in AtomsOfFile(inp.changeSet, f)
    ensures (a.id in b.unassigned ==> !NamedIn(b, a.id)) <==>
      (a.deletedLines != [] && a.addedLines != [] ==>
         (LosesOn(tools, inp, f, Base, a) <==> LosesOn(tools, inp, f, Head, a)))
  {
    ReportedIffLosesLine(env, tools, inp, b, f, a);
    NamedNowhereIff(env, tools, inp, b, f, a);
    LosingNeedsLines(tools, inp, f, a, Base);
    LosingNeedsLines(tools, inp, f, a, Head);
  }

  lemma LosingNeedsLines(tools: Tools, inp: Inputs, f: ChangedFile, a: ChangeAtom, role: Side)
    ensures LosesOn(tools, inp, f, role, a) ==> SideLines(a, role) != []
  {
  }

  lemma NamedSomewhere(cs: ChangeSet, b: Batch, f: ChangedFile, a: ChangeAtom)
    requires Settled(cs, b) && Placed(cs) && f in cs.files && a in AtomsOfFile(cs, f)
    ensures NamedIn(b, a.id) <==> NamedOn(b, f, Base, a.id) || NamedOn(b, f, Head, a.id)
  {
    forall r | r in b.results && NamedBy(r.units, a.id) ensures ResultFor(r, f, r.scope.role) {
      MentionedAtom(cs, b, f, a, r);
    }
  }
}
