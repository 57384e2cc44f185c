/** From raw diff to review units: what the normalizer builds, the review builder's
    own recomputations on the same snapshots accept. */
module NormalizedReview {
  import opened Ordering
  import opened Sorting
  import opened SourceText
  import opened ChangeModel
  import opened Normalizer
  import opened NormalizerProofs
  import opened SourceResult
  import opened ReviewUnits
  import Review = ChangeReview
  import opened ReviewProofs
  import opened ReviewSuccess

  function SnapshotOn(f: FileInput, role: Side): Option<Snapshot> {
    if role == Base then f.oldSnapshot else f.newSnapshot
  }

  /** What a normalized file carries over from its input. */
  ghost predicate MadeFrom(f: FileInput, p: FileParts) {
    && p.file.status == f.status && p.file.isBinary == f.isBinary
    && (!f.isBinary ==>
          && p.file.oldRef == SnapshotId(f.oldSnapshot) && p.file.newRef == SnapshotId(f.newSnapshot)
          && StatusAtomsOk(f.status, f.oldSnapshot, f.newSnapshot, p.atoms))
    && (forall a | a in p.atoms :: SpansRecomputed(f, a))
  }

  /** Each range of the atom is what the review builder computes from its lines. */
  predicate SpansRecomputed(f: FileInput, a: ChangeAtom) {
    forall role: Side {:trigger SideRef(a, role)} | SideRef(a, role).Some? ::
      && SideSpan(a, role).Some? && SnapshotOn(f, role).Some?
      && var r := SideSpan(a, role).value;
         FullLineRange(SnapshotOn(f, role).value.content, r.startLine, r.endLine) == Some(r)
  }

  lemma AtomSpansRecomputed(env: Env, h: Header, f: FileInput, a: AtomInput)
    requires AtomStep(env, h, f)(a).Some?
    ensures SpansRecomputed(f, AtomStep(env, h, f)(a).value)
  {
  }

  lemma DraftSpansRecomputed(env: Env, h: Header, f: FileInput)
    requires Traverse(AtomStep(env, h, f), f.atoms).Some?
    ensures forall b | b in Traverse(AtomStep(env, h, f), f.atoms).value :: SpansRecomputed(f, b)
  {
    TraverseSpec(AtomStep(env, h, f), f.atoms);
    var drafts := Traverse(AtomStep(env, h, f), f.atoms).value;
    forall b | b in drafts ensures SpansRecomputed(f, b) {
      var i :| 0 <= i < |drafts| && drafts[i] == b;
      AtomSpansRecomputed(env, h, f, f.atoms[i]);
    }
  }

  lemma NormalizedFrom(env: Env, h: Header, f: FileInput)
    requires NormalizeFile(env, h, f).Some?
    ensures MadeFrom(f, NormalizeFile(env, h, f).value)
  {
    if !f.isBinary {
      DraftSpansRecomputed(env, h, f);
      var drafts := Traverse(AtomStep(env, h, f), f.atoms).value;
      SortBySorts(drafts, AtomOrder(TableOf(SnapshotRefs(f))));
    }
  }

  /** Each file of the set comes from an input file, with its own atoms. */
  lemma FileOrigin(env: Env, h: Header, files: seq<FileInput>, cs: ChangeSet, file: ChangedFile)
    returns (f: FileInput, p: FileParts)
    requires SoundHash(env) && InputsOk(env, files) && Normalize(env, h, files) == Some(cs) && file in cs.files
    ensures f in files && FileInputOk(env, f) && p.file == file && MadeFrom(f, p)
    ensures Review.AtomsOfFile(cs, file) == p.atoms
    ensures PartsOk(env, h, p)
  {
    var step := FileStep(env, h);
    TraverseSpec(step, files);
    var parts := Traverse(step, files).value;
    forall q | q in parts ensures PartsOk(env, h, q) && exists g :: g in files && step(g) == Some(q) {
      var i :| 0 <= i < |parts| && parts[i] == q;
      assert files[i] in files && step(files[i]) == Some(q);
      NormalizeFileSpec(env, h, files[i]);
    }
    AssembledFiles(env, h, parts);
    p :| p in parts && p.file == file;
    f :| f in files && step(f) == Some(p);
    NormalizedFrom(env, h, f);
    FileAtomsFound(env, h, parts, p);
  }

  /** Two snapshots of one source id are equal: the id fixes the source, its content
      hash fixes the text. */
  lemma SnapshotsAgree(env: Env, s: Snapshot, t: Snapshot)
    requires SoundHash(env) && SnapshotOk(env, s) && SnapshotOk(env, t) && s.ref.id == t.ref.id
    ensures s == t
  {
    SourcesWithOneIdAgree(env, s.ref, t.ref);
    assert ContentPayload(s.content) == ContentPayload(t.content);
  }

  lemma GivenSnapshotOk(env: Env, inp: Review.Inputs, id: string)
    requires SourcesOk(env, inp.changeSet) && Review.TablesOk(env, inp) && id in Review.SourceIds(inp.changeSet)
    ensures SnapshotOk(env, inp.snapshots[id]) && inp.snapshots[id].ref.id == id
  {
    var cs := inp.changeSet;
    var s :| s in cs.sources && s.id == id;
    var i :| 0 <= i < |cs.sources| && cs.sources[i] == s;
    assert Review.SourceInputOk(env, s, inp.snapshots[s.id], inp.parses[s.id]);
  }

  /** The review builder is handed the very snapshots the file was normalized from. */
  lemma SameSnapshots(env: Env, inp: Review.Inputs, f: FileInput, p: FileParts, role: Side)
    requires SoundHash(env) && ChangeSetOk(env, inp.changeSet) && Review.TablesOk(env, inp)
    requires p.file in inp.changeSet.files && !f.isBinary && FileInputOk(env, f) && MadeFrom(f, p)
    ensures Review.SnapshotFor(inp, Review.FileRef(p.file, role)) == SnapshotOn(f, role)
  {
    if SnapshotOn(f, role).Some? {
      var s := SnapshotOn(f, role).value;
      RefsAreSources(inp.changeSet, p.file, role);
      GivenSnapshotOk(env, inp, s.ref.id);
      SnapshotsAgree(env, s, inp.snapshots[s.ref.id]);
    }
  }

  lemma SameSemantics(inp: Review.Inputs, f: FileInput, p: FileParts)
    requires MadeFrom(f, p) && Review.AtomsOfFile(inp.changeSet, p.file) == p.atoms
    requires f.isBinary || forall role :: Review.SnapshotFor(inp, Review.FileRef(p.file, role)) == SnapshotOn(f, role)
    ensures Review.FileSemanticsOk(inp, p.file)
  {
    if !f.isBinary {
      assert Review.SnapshotFor(inp, Review.FileRef(p.file, Base)) == f.oldSnapshot;
      assert Review.SnapshotFor(inp, Review.FileRef(p.file, Head)) == f.newSnapshot;
    }
  }

  lemma SemanticsAccepted(env: Env, h: Header, files: seq<FileInput>, inp: Review.Inputs, file: ChangedFile)
    requires SoundHash(env) && InputsOk(env, files) && Normalize(env, h, files) == Some(inp.changeSet)
    requires Review.TablesOk(env, inp) && file in inp.changeSet.files
    ensures Review.FileSemanticsOk(inp, file)
  {
    var f, p := FileOrigin(env, h, files, inp.changeSet, file);
    if !f.isBinary {
      forall role ensures Review.SnapshotFor(inp, Review.FileRef(p.file, role)) == SnapshotOn(f, role) {
        SameSnapshots(env, inp, f, p, role);
      }
    }
    SameSemantics(inp, f, p);
  }

  lemma RangesAccepted(env: Env, h: Header, files: seq<FileInput>, inp: Review.Inputs, job: Job)
    requires SoundHash(env) && InputsOk(env, files) && Normalize(env, h, files) == Some(inp.changeSet)
    requires Review.TablesOk(env, inp) && job in Review.Jobs(inp)
    ensures RangesOk(job.snapshot.content, SideAtoms(job), job.role)
  {
    var file := JobOrigin(inp, job);
    var f, p := FileOrigin(env, h, files, inp.changeSet, file);
    SameSnapshots(env, inp, f, p, job.role);
    forall a | a in SideAtoms(job) ensures SpansRecomputed(f, a) && SideRef(a, job.role).Some? {
    }
  }

  lemma AtomsProperlyBuilt(env: Env, h: Header, files: seq<FileInput>, cs: ChangeSet)
    requires SoundHash(env) && InputsOk(env, files) && Normalize(env, h, files) == Some(cs)
    ensures ProperAtoms(env, cs)
  {
    forall a | a in cs.atoms ensures AtomOk(env, a) {
      var file := EveryAtomHasAFile(env, cs, a);
      var f, p := FileOrigin(env, h, files, cs, file);
    }
  }

  /** Round trip between the two components: given any snapshots and parses that match
      a normalized ChangeSet's sources, the review builder accepts the ChangeSet, every
      file's status and atoms, and every atom range. */
  lemma NormalizedIsAccepted(env: Env, h: Header, files: seq<FileInput>, inp: Review.Inputs)
    requires SoundHash(env) && InputsOk(env, files)
    requires Normalize(env, h, files) == Some(inp.changeSet)
    requires Review.TablesOk(env, inp)
    ensures Review.InputsOk(env, inp) && ProperAtoms(env, inp.changeSet) && AllRangesOk(inp)
  {
    AtomsProperlyBuilt(env, h, files, inp.changeSet);
    forall f | f in inp.changeSet.files ensures Review.FileSemanticsOk(inp, f) {
      SemanticsAccepted(env, h, files, inp, f);
    }
    forall job | job in Review.Jobs(inp) ensures RangesOk(job.snapshot.content, SideAtoms(job), job.role) {
      RangesAccepted(env, h, files, inp, job);
    }
  }

  /** End to end: a normalized ChangeSet with matching sources and a line-respecting
      builder builds exactly when every side with atoms is `Buildable`. */
  lemma NormalizedBuildsIff(env: Env, h: Header, files: seq<FileInput>, tools: Tools, inp: Review.Inputs)
    requires SoundHash(env) && SoundNaming(tools.naming) && InputsOk(env, files)
    requires Normalize(env, h, files) == Some(inp.changeSet)
    requires Review.TablesOk(env, inp) && AllRespecting(tools, inp)
    ensures Review.BuildAll(env, tools, inp).Some? <==> AllBuildable(tools, inp)
  {
    NormalizedIsAccepted(env, h, files, inp);
    RespectedBuildSucceedsIff(env, tools, inp);
  }
}
