/** A whole diff, from input to accepted build inputs: a file's only character is
    replaced, and both sides come with any parse of theirs that is valid. */
module OneLineDiff {
  import opened Ordering
  import opened Sorting
  import opened SourceText
  import opened ChangeModel
  import opened Normalizer
  import opened NormalizerProofs
  import opened FileAnalysis
  import opened ReviewUnits
  import opened SourceResult
  import opened SourceProofs
  import Review = ChangeReview
  import opened ReviewProofs
  import opened ReviewSuccess
  import opened NormalizedReview
  import opened SourceSuccess
  import opened OneLineSide

  const REPLACE_LINE := AtomInput(Replacement, Some(LineSpan(1, 1)), Some(LineSpan(1, 1)), [1], [1], [])

  /** A file at `path` whose only character goes from `was` to `now`. */
  datatype Edit = Edit(header: Header, path: string, was: string, now: string) {
    function SourceOn(env: Env, role: Side): SourceRef {
      var text, revision := if role == Base then was else now, if role == Base then header.base else header.head;
      var hash := env.hash(ContentPayload(text));
      SourceRef(env.hash(SourcePayload(header.repository, revision, path, hash)), header.repository, revision, path, hash)
    }

    function SnapshotOfSide(env: Env, role: Side): Snapshot {
      Snapshot(SourceOn(env, role), if role == Base then was else now)
    }

    function Input(env: Env): FileInput {
      FileInput(Modified, Some(path), Some(path), Some(SnapshotOfSide(env, Base)), Some(SnapshotOfSide(env, Head)),
                [REPLACE_LINE], false)
    }
  }

  predicate OneCharacter(text: string) {
    |text| == 1 && Utf16Width(text[0]) == 1 && !IsBreak(text[0])
  }

  ghost predicate Setting(env: Env, e: Edit) {
    && SoundHash(env) && env.pathOk(e.path) && HeaderOk(e.header) && e.header.base != e.header.head
    && OneCharacter(e.was) && OneCharacter(e.now) && e.was != e.now
  }

  // ------------------------------------------------------------ normalization

  lemma OneLine(text: string)
    requires |text| == 1 && Utf16Width(text[0]) == 1
    ensures |Lines(text)| == 1 && FullLineRange(text, 1, 1) == Some(LINE)
  {
    assert text[..1] == text && text[1..] == [];
    assert Lines(text) == [text];
    assert Lines(text)[..0] == [] && Lines(text)[0..1] == [text];
    JoinOne(text);
    assert Utf16Length(text) == Utf16Width(text[0]) + Utf16Length(text[1..]);
  }

  lemma EditIsInput(env: Env, e: Edit)
    requires Setting(env, e)
    ensures FileInputOk(env, e.Input(env)) && FileShapeOk(e.header, e.Input(env))
    ensures e.SourceOn(env, Base).id != e.SourceOn(env, Head).id
    ensures e.SourceOn(env, Base).contentHash != e.SourceOn(env, Head).contentHash
  {
    assert StrictlySorted<DiffPosition>([], PositionKey);
    assert ContentPayload(e.was) != ContentPayload(e.now);
  }

  lemma LineAtomOk(env: Env, a: ChangeAtom)
    requires ReplacesTheLine(a) && a.positions == [] && a.id == AtomId(env, a)
    requires IsText(a.version) && IsText(a.oldRef.value) && IsText(a.newRef.value)
    ensures AtomOk(env, a)
  {
    assert StrictlySorted<DiffPosition>([], PositionKey);
  }

  lemma LineSpanned(snapshot: Snapshot)
    requires OneCharacter(snapshot.content)
    ensures SpanOf(Some(LineSpan(1, 1)), Some(snapshot)) == Some(Some(LINE))
  {
    OneLine(snapshot.content);
  }

  lemma LineNormalized(env: Env, e: Edit) returns (a: ChangeAtom)
    requires Setting(env, e)
    ensures AtomStep(env, e.header, e.Input(env))(REPLACE_LINE) == Some(a)
    ensures ReplacesTheLine(a)
  {
    var f := e.Input(env);
    EditIsInput(env, e);
    LineSpanned(e.SnapshotOfSide(env, Base));
    LineSpanned(e.SnapshotOfSide(env, Head));
    IdsAreText(env, f, []);
    var draft := ChangeAtom("", Replacement, SnapshotId(f.oldSnapshot), SnapshotId(f.newSnapshot),
                            Some(LINE), Some(LINE), [1], [1], [], e.header.version);
    a := draft.(id := AtomId(env, draft));
    LineAtomOk(env, a);
  }

  lemma OneAtomFits(f: FileInput, a: ChangeAtom)
    requires ReplacesTheLine(a) && f.status == Modified && f.oldSnapshot.Some? && f.newSnapshot.Some?
    requires f.oldSnapshot.value.ref.contentHash != f.newSnapshot.value.ref.contentHash
    ensures FileAtomsOk(f, [a])
  {
    assert Flat(DeletedOf, [a]) == DeletedOf(a) + Flat(DeletedOf, [a][1..]);
    assert Flat(AddedOf, [a]) == AddedOf(a) + Flat(AddedOf, [a][1..]);
    assert DeletedLines([a]) == [1] && AddedLines([a]) == [1];
    DistinctIndicesNoRepeats([1]);
  }

  lemma TraverseOne<T, U>(f: T -> Option<U>, x: T, u: U)
    requires f(x) == Some(u)
    ensures Traverse(f, [x]) == Some([u])
  {
    assert [x][1..] == [] && Traverse(f, [x][1..]) == Some([]);
    assert [u] + [] == [u];
  }

  lemma SortOne<T>(x: T, key: T -> Key)
    ensures SortBy([x], key) == [x]
  {
    assert [x][1..] == [];
    assert SortBy([x], key) == Insert(x, SortBy([x][1..], key), key);
  }

  lemma PartOfOne(env: Env, h: Header, f: FileInput, p: FileParts, a: ChangeAtom)
    requires NormalizeFile(env, h, f) == Some(p) && !f.isBinary
    requires Traverse(AtomStep(env, h, f), f.atoms) == Some([a])
    ensures p.atoms == [a] && !p.file.isBinary
    ensures p.file.oldRef == SnapshotId(f.oldSnapshot) && p.file.newRef == SnapshotId(f.newSnapshot)
  {
    SortOne(a, AtomOrder(TableOf(SnapshotRefs(f))));
  }

  /** The file is accepted and contributes one record and one atom. */
  lemma EditPart(env: Env, e: Edit) returns (p: FileParts, a: ChangeAtom)
    requires Setting(env, e)
    ensures FileAccepted(env, e.header, e.Input(env))
    ensures NormalizeFile(env, e.header, e.Input(env)) == Some(p)
    ensures p.atoms == [a] && ReplacesTheLine(a)
    ensures !p.file.isBinary && OnSides(env, e, p.file)
  {
    var f := e.Input(env);
    EditIsInput(env, e);
    a := LineNormalized(env, e);
    TraverseOne(AtomStep(env, e.header, f), REPLACE_LINE, a);
    OneAtomFits(f, a);
    NormalizeFileSpec(env, e.header, f);
    p := NormalizeFile(env, e.header, f).value;
    PartOfOne(env, e.header, f, p, a);
  }

  /** The file record names the edit's two sources. */
  predicate OnSides(env: Env, e: Edit, file: ChangedFile) {
    file.oldRef == Some(e.SourceOn(env, Base).id) && file.newRef == Some(e.SourceOn(env, Head).id)
  }

  lemma OnePath(f: FileInput)
    requires f.oldPath.Some? && f.newPath.Some?
    ensures InputPathsUnique([f])
  {
    assert [f][1..] == [];
    assert Flat(InputOldPath, [f]) == InputOldPath(f) + Flat(InputOldPath, []);
    assert Flat(InputNewPath, [f]) == InputNewPath(f) + Flat(InputNewPath, []);
    DistinctIndicesNoRepeats(Flat(InputOldPath, [f]));
    DistinctIndicesNoRepeats(Flat(InputNewPath, [f]));
  }

  /** The set assembled from one part has that part's file and atoms. */
  lemma OnePartSet(env: Env, h: Header, p: FileParts)
    requires SoundHash(env) && PartsOk(env, h, p)
    ensures Assemble(env, h, [p]).files == [p.file]
    ensures Review.AtomsOfFile(Assemble(env, h, [p]), p.file) == p.atoms
  {
    assert PartFiles([p]) == [p.file];
    SortOne(p.file, FileKey);
    FileAtomsFound(env, h, [p], p);
  }

  lemma NormalizedOne(env: Env, h: Header, f: FileInput, p: FileParts, cs: ChangeSet)
    requires NormalizeFile(env, h, f) == Some(p) && Normalize(env, h, [f]) == Some(cs)
    ensures cs == Assemble(env, h, [p])
  {
    TraverseOne(FileStep(env, h), f, p);
  }

  lemma OneFileNormalizes(env: Env, h: Header, f: FileInput)
    requires SoundHash(env) && HeaderOk(h) && FileInputOk(env, f) && FileAccepted(env, h, f) && InputPathsUnique([f])
    ensures NormalizerProofs.InputsOk(env, [f])
    ensures Normalize(env, h, [f]).Some? && ChangeSetOk(env, Normalize(env, h, [f]).value)
  {
    assert AllAccepted(env, h, [f]);
    NormalizeSucceedsIff(env, h, [f]);
  }

  /** The diff normalizes to a set of one file with one atom. */
  lemma EditNormalizes(env: Env, e: Edit) returns (cs: ChangeSet, file: ChangedFile, a: ChangeAtom)
    requires Setting(env, e)
    ensures NormalizerProofs.InputsOk(env, [e.Input(env)])
    ensures Normalize(env, e.header, [e.Input(env)]) == Some(cs) && ChangeSetOk(env, cs)
    ensures cs.files == [file] && !file.isBinary && OnSides(env, e, file)
    ensures Review.AtomsOfFile(cs, file) == [a] && ReplacesTheLine(a)
  {
    EditIsInput(env, e);
    var p, atom := EditPart(env, e);
    a, file := atom, p.file;
    OnePath(e.Input(env));
    OneFileNormalizes(env, e.header, e.Input(env));
    cs := Normalize(env, e.header, [e.Input(env)]).value;
    NormalizedOne(env, e.header, e.Input(env), p, cs);
    NormalizeFileSpec(env, e.header, e.Input(env));
    OnePartSet(env, e.header, p);
  }

  // ------------------------------------------------------- the build's inputs

  /** The snapshots the diff was normalized from, and a parse for each. */
  function Given(env: Env, e: Edit, cs: ChangeSet, parsed: Side -> Analysis): Review.Inputs {
    var before, after := e.SourceOn(env, Base), e.SourceOn(env, Head);
    Review.Inputs(cs, map[before.id := e.SnapshotOfSide(env, Base), after.id := e.SnapshotOfSide(env, Head)],
                  map[before.id := Review.Parse(before, parsed(Base)), after.id := Review.Parse(after, parsed(Head))])
  }

  /** The parse is valid for the source. */
  predicate Fits(env: Env, snapshot: Snapshot, a: Analysis) {
    AnalysisOk(env, snapshot.ref.id, a) && Review.ParseRangesOk(snapshot.content, a)
  }

  ghost predicate ParsesFit(env: Env, e: Edit, parsed: Side -> Analysis) {
    forall role :: Fits(env, e.SnapshotOfSide(env, role), parsed(role))
  }

  lemma TwoIds(env: Env, e: Edit, cs: ChangeSet, file: ChangedFile)
    requires OwnershipOk(cs) && cs.files == [file] && OnSides(env, e, file)
    ensures Review.SourceIds(cs) == {e.SourceOn(env, Base).id, e.SourceOn(env, Head).id}
  {
    assert [file][1..] == [] && Flat(RefsOf, [file]) == RefsOf(file) + Flat(RefsOf, []);
    assert RefsOf(file) == [e.SourceOn(env, Base).id, e.SourceOn(env, Head).id];
    assert Flat(RefsOf, [file]) == [e.SourceOn(env, Base).id, e.SourceOn(env, Head).id];
    assert Review.SourceIds(cs) == set id | id in ReferencedIds(cs.files);
  }

  lemma EditSourceOk(env: Env, e: Edit, role: Side)
    requires Setting(env, e)
    ensures SourceRefOk(env, e.SourceOn(env, role))
  {
  }

  lemma TwoSources(env: Env, e: Edit, cs: ChangeSet, s: SourceRef)
    requires Setting(env, e) && SourcesOk(env, cs) && s in cs.sources
    requires Review.SourceIds(cs) == {e.SourceOn(env, Base).id, e.SourceOn(env, Head).id}
    ensures s == e.SourceOn(env, Base) || s == e.SourceOn(env, Head)
  {
    var i :| 0 <= i < |cs.sources| && cs.sources[i] == s;
    assert s.id in Review.SourceIds(cs);
    EditSourceOk(env, e, Base);
    EditSourceOk(env, e, Head);
    SourcesWithOneIdAgree(env, s, if s.id == e.SourceOn(env, Base).id then e.SourceOn(env, Base) else e.SourceOn(env, Head));
  }

  lemma SideInputsOk(env: Env, e: Edit, parsed: Side -> Analysis, role: Side)
    requires Setting(env, e) && Fits(env, e.SnapshotOfSide(env, role), parsed(role))
    ensures Review.SourceInputOk(env, e.SourceOn(env, role), e.SnapshotOfSide(env, role),
                                 Review.Parse(e.SourceOn(env, role), parsed(role)))
  {
  }

  lemma SideGiven(env: Env, e: Edit, cs: ChangeSet, parsed: Side -> Analysis, role: Side)
    requires e.SourceOn(env, Base).id != e.SourceOn(env, Head).id
    ensures var inp, id := Given(env, e, cs, parsed), e.SourceOn(env, role).id;
      && id in inp.snapshots && inp.snapshots[id] == e.SnapshotOfSide(env, role)
      && id in inp.parses && inp.parses[id] == Review.Parse(e.SourceOn(env, role), parsed(role))
  {
  }

  lemma GivenTablesOk(env: Env, e: Edit, cs: ChangeSet, parsed: Side -> Analysis, file: ChangedFile)
    requires Setting(env, e) && ParsesFit(env, e, parsed)
    requires SourcesOk(env, cs) && OwnershipOk(cs) && cs.files == [file] && OnSides(env, e, file)
    ensures Review.TablesOk(env, Given(env, e, cs, parsed))
  {
    EditIsInput(env, e);
    TwoIds(env, e, cs, file);
    forall s | s in cs.sources ensures SourceGiven(env, Given(env, e, cs, parsed), s) {
      SourceIsGiven(env, e, cs, parsed, s);
    }
    TablesFromSources(env, Given(env, e, cs, parsed));
  }

  predicate SourceGiven(env: Env, inp: Review.Inputs, s: SourceRef) {
    && s.id in inp.snapshots && s.id in inp.parses
    && Review.SourceInputOk(env, s, inp.snapshots[s.id], inp.parses[s.id])
  }

  lemma TablesFromSources(env: Env, inp: Review.Inputs)
    requires inp.snapshots.Keys == Review.SourceIds(inp.changeSet) && inp.parses.Keys == Review.SourceIds(inp.changeSet)
    requires forall s | s in inp.changeSet.sources :: SourceGiven(env, inp, s)
    ensures Review.TablesOk(env, inp)
  {
  }

  lemma SourceIsGiven(env: Env, e: Edit, cs: ChangeSet, parsed: Side -> Analysis, s: SourceRef)
    requires Setting(env, e) && ParsesFit(env, e, parsed) && SourcesOk(env, cs) && s in cs.sources
    requires e.SourceOn(env, Base).id != e.SourceOn(env, Head).id
    requires Review.SourceIds(cs) == {e.SourceOn(env, Base).id, e.SourceOn(env, Head).id}
    ensures SourceGiven(env, Given(env, e, cs, parsed), s)
  {
    TwoSources(env, e, cs, s);
    var role := if s == e.SourceOn(env, Base) then Base else Head;
    SideGiven(env, e, cs, parsed, role);
    SideInputsOk(env, e, parsed, role);
  }

  // ---------------------------------------------------------------- the jobs

  /** Either side of the file is a one-line job over the given parse. */
  ghost predicate SideIs(inp: Review.Inputs, file: ChangedFile, a: ChangeAtom, parsed: Side -> Analysis, role: Side) {
    && Review.SideKnown(inp, file, role)
    && OneLineJob(Review.JobAt(inp, file, role), a)
    && Review.JobAt(inp, file, role).analysis == parsed(role)
    && Review.JobAt(inp, file, role) in Review.Jobs(inp)
  }

  lemma SideListed(inp: Review.Inputs, file: ChangedFile, role: Side)
    requires inp.changeSet.files == [file] && !file.isBinary && Review.SideKnown(inp, file, role)
    ensures Review.JobAt(inp, file, role) in Review.Jobs(inp)
  {
    assert Review.JobAt(inp, file, role) in Review.FileJobs(inp)(file);
    FlatMember(Review.FileJobs(inp), inp.changeSet.files, Review.JobAt(inp, file, role));
  }

  lemma BothSides(env: Env, e: Edit, cs: ChangeSet, parsed: Side -> Analysis, file: ChangedFile, a: ChangeAtom, role: Side)
    requires e.SourceOn(env, Base).id != e.SourceOn(env, Head).id
    requires cs.files == [file] && !file.isBinary && OnSides(env, e, file)
    requires ReplacesTheLine(a) && Review.AtomsOfFile(cs, file) == [a] && AtomBelongs(file, a)
    ensures SideIs(Given(env, e, cs, parsed), file, a, parsed, role)
  {
    var inp := Given(env, e, cs, parsed);
    SideGiven(env, e, cs, parsed, role);
    assert Review.SideKnown(inp, file, role);
    SideListed(inp, file, role);
  }

  /** No declared unit, so nothing for the builder to get wrong. */
  lemma AllRespect(naming: Naming, inp: Review.Inputs)
    ensures AllRespecting(Tools(naming, NoUnits), inp)
  {
    forall job | job in Review.Jobs(inp) ensures LineRespecting(Tools(naming, NoUnits), job) {
      NothingDeclared(naming, job);
    }
  }

  /** The edit as build inputs that pass every check before the first unit is made. */
  ghost predicate PassesChecks(env: Env, naming: Naming, e: Edit, inp: Review.Inputs) {
    && Normalize(env, e.header, [e.Input(env)]) == Some(inp.changeSet)
    && Review.InputsOk(env, inp) && ProperAtoms(env, inp.changeSet) && AllRangesOk(inp)
    && AllRespecting(Tools(naming, NoUnits), inp)
  }

  lemma EditAccepted(env: Env, naming: Naming, e: Edit, parsed: Side -> Analysis)
    returns (inp: Review.Inputs, file: ChangedFile, a: ChangeAtom)
    requires Setting(env, e) && ParsesFit(env, e, parsed)
    ensures PassesChecks(env, naming, e, inp)
    ensures inp.changeSet.files == [file] && a in inp.changeSet.atoms && a in Review.AtomsOfFile(inp.changeSet, file)
    ensures ReplacesTheLine(a)
    ensures SideIs(inp, file, a, parsed, Base) && SideIs(inp, file, a, parsed, Head)
    ensures forall job | job in Review.Jobs(inp) :: OneLineJob(job, a) && job.analysis == parsed(job.role)
  {
    var cs, one, atom := EditNormalizes(env, e);
    inp, file, a := Given(env, e, cs, parsed), one, atom;
    GivenTablesOk(env, e, cs, parsed, file);
    NormalizedIsAccepted(env, e.header, [e.Input(env)], inp);
    AllRespect(naming, inp);
    AtomPlaced(env, cs, file, a);
    EditIsInput(env, e);
    BothSides(env, e, cs, parsed, file, a, Base);
    BothSides(env, e, cs, parsed, file, a, Head);
    JobsAreSides(inp, file, a, parsed);
  }

  lemma AtomPlaced(env: Env, cs: ChangeSet, file: ChangedFile, a: ChangeAtom)
    requires ChangeSetOk(env, cs) && cs.files == [file] && Review.AtomsOfFile(cs, file) == [a]
    ensures a in cs.atoms && AtomBelongs(file, a) && a in Review.AtomsOfFile(cs, file)
  {
    assert a in Review.AtomsOfFile(cs, file);
    FileAtomFacts(env, cs, file);
  }

  lemma JobsAreSides(inp: Review.Inputs, file: ChangedFile, a: ChangeAtom, parsed: Side -> Analysis)
    requires inp.changeSet.files == [file]
    requires SideIs(inp, file, a, parsed, Base) && SideIs(inp, file, a, parsed, Head)
    ensures forall job | job in Review.Jobs(inp) :: OneLineJob(job, a) && job.analysis == parsed(job.role)
  {
    forall job | job in Review.Jobs(inp) ensures OneLineJob(job, a) && job.analysis == parsed(job.role) {
      var f := JobOrigin(inp, job);
      assert f == file;
    }
  }
}
