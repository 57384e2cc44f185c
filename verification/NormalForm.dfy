/** The ChangeSet is an exact normal form: its id identifies the diff up to the order
    of files and atoms. */
module NormalForm {
  import opened Ordering
  import opened Sorting
  import opened SourceText
  import opened ChangeModel
  import opened Normalizer
  import opened NormalizerProofs

  function LinesOfRange(span: Option<ExactRange>): Option<LineSpan> {
    if span.None? then None else Some(LineSpan(span.value.startLine, span.value.endLine))
  }

  /** The atom input a normalized atom was made from. */
  function AtomSource(b: ChangeAtom): AtomInput {
    AtomInput(b.kind, LinesOfRange(b.oldSpan), LinesOfRange(b.newSpan), b.addedLines, b.deletedLines, b.positions)
  }

  lemma SpanRecovered(span: Option<LineSpan>, snapshot: Option<Snapshot>)
    requires span.Some? ==> span.value.Valid()
    ensures SpanOf(span, snapshot).Some? ==> LinesOfRange(SpanOf(span, snapshot).value) == span
  {
  }

  lemma AtomRecovered(env: Env, h: Header, f: FileInput, a: AtomInput)
    requires AtomStep(env, h, f)(a).Some?
    ensures AtomSource(AtomStep(env, h, f)(a).value) == a
  {
    SpanRecovered(a.oldSpan, f.oldSnapshot);
    SpanRecovered(a.newSpan, f.newSnapshot);
    var b := NormalizeAtom(env, h, f, a).value;
    assert Some(b.oldSpan) == SpanOf(a.oldSpan, f.oldSnapshot) && Some(b.newSpan) == SpanOf(a.newSpan, f.newSnapshot);
  }

  lemma DraftsRecovered(env: Env, h: Header, f: FileInput)
    requires Traverse(AtomStep(env, h, f), f.atoms).Some?
    ensures Map(AtomSource, Traverse(AtomStep(env, h, f), f.atoms).value) == f.atoms
  {
    var step := AtomStep(env, h, f);
    TraverseSpec(step, f.atoms);
    var drafts := Traverse(step, f.atoms).value;
    forall i | 0 <= i < |f.atoms| ensures AtomSource(drafts[i]) == f.atoms[i] {
      assert step(f.atoms[i]) == Some(drafts[i]);
      AtomRecovered(env, h, f, f.atoms[i]);
    }
  }

  /** The atoms of a normalized file say which atoms went in. */
  lemma AtomsRecovered(env: Env, h: Header, f: FileInput, p: FileParts)
    requires NormalizeFile(env, h, f) == Some(p)
    ensures multiset(Map(AtomSource, p.atoms)) == multiset(f.atoms)
  {
    if f.isBinary {
      assert p.atoms == [] && f.atoms == [];
    } else {
      var drafts := Traverse(AtomStep(env, h, f), f.atoms).value;
      var order := AtomOrder(TableOf(SnapshotRefs(f)));
      DraftsRecovered(env, h, f);
      SortBySorts(drafts, order);
      MapBag(AtomSource, p.atoms, drafts);
    }
  }

  /** The file record says which status, paths and sources went in. */
  ghost predicate RecordOf(f: FileInput, file: ChangedFile) {
    && file.status == f.status && file.oldPath == f.oldPath && file.newPath == f.newPath && file.isBinary == f.isBinary
    && file.oldRef == SnapshotId(f.oldSnapshot) && file.newRef == SnapshotId(f.newSnapshot)
  }

  lemma FileRecorded(env: Env, h: Header, f: FileInput, p: FileParts)
    requires NormalizeFile(env, h, f) == Some(p)
    ensures RecordOf(f, p.file)
    ensures p.file.atomIds == AtomIds(p.atoms)
  {
  }

  lemma SnapshotRecovered(env: Env, s: Option<Snapshot>, t: Option<Snapshot>)
    requires SoundHash(env) && SnapshotId(s) == SnapshotId(t)
    requires s.Some? ==> SnapshotOk(env, s.value)
    requires t.Some? ==> SnapshotOk(env, t.value)
    ensures s == t
  {
    if s.Some? {
      SourcesWithOneIdAgree(env, s.value.ref, t.value.ref);
      assert ContentPayload(s.value.content) == ContentPayload(t.value.content);
    }
  }

  lemma SameIdsSameAtoms(env: Env, xs: seq<ChangeAtom>, ys: seq<ChangeAtom>)
    requires SoundHash(env) && AtomIds(xs) == AtomIds(ys)
    requires forall a | a in xs :: AtomOk(env, a)
    requires forall a | a in ys :: AtomOk(env, a)
    ensures xs == ys
  {
    assert |xs| == |AtomIds(xs)| == |ys|;
    forall i | 0 <= i < |xs| ensures xs[i] == ys[i] {
      assert xs[i] in xs && ys[i] in ys;
      assert AtomIds(xs)[i] == AtomIds(ys)[i];
      AtomsWithOneIdAgree(env, xs[i], ys[i]);
    }
  }

  /** Two inputs with one file record are equal up to the order of their atoms. */
  lemma InputRecovered(env: Env, h: Header, f: FileInput, g: FileInput, p: FileParts, q: FileParts)
    requires SoundHash(env) && FileInputOk(env, f) && FileInputOk(env, g)
    requires NormalizeFile(env, h, f) == Some(p) && NormalizeFile(env, h, g) == Some(q)
    requires p.file == q.file
    ensures BagOf(f) == BagOf(g)
  {
    FileRecorded(env, h, f, p);
    FileRecorded(env, h, g, q);
    NormalizeFileSpec(env, h, f);
    NormalizeFileSpec(env, h, g);
    SnapshotRecovered(env, f.oldSnapshot, g.oldSnapshot);
    SnapshotRecovered(env, f.newSnapshot, g.newSnapshot);
    SameIdsSameAtoms(env, p.atoms, q.atoms);
    AtomsRecovered(env, h, f, p);
    AtomsRecovered(env, h, g, q);
  }

  /** The record an input is normalized to. */
  function RecordMade(step: FileInput -> Option<FileParts>): FileInput -> Option<ChangedFile> {
    (f: FileInput) => match step(f) case None => None case Some(p) => Some(p.file)
  }

  lemma RecordsMade(step: FileInput -> Option<FileParts>, files: seq<FileInput>, parts: seq<FileParts>)
    requires Traverse(step, files) == Some(parts)
    ensures Map(RecordMade(step), files) == Map(WrapFile, PartFiles(parts))
  {
    TraverseSpec(step, files);
    forall i | 0 <= i < |files| ensures RecordMade(step)(files[i]) == WrapFile(PartFiles(parts)[i]) {
      assert step(files[i]) == Some(parts[i]);
    }
  }

  function WrapFile(f: ChangedFile): Option<ChangedFile> { Some(f) }

  lemma SetFiles(env: Env, h: Header, files: seq<FileInput>, cs: ChangeSet)
    requires Normalize(env, h, files) == Some(cs)
    ensures Traverse(FileStep(env, h), files).Some?
    ensures multiset(cs.files) == multiset(PartFiles(Traverse(FileStep(env, h), files).value))
    ensures cs.header == h
    ensures cs.id == env.hash(SetPayload(cs.header, cs.sources, cs.files, cs.atoms, cs.diagnostics))
  {
    SortBySorts(PartFiles(Traverse(FileStep(env, h), files).value), FileKey);
  }

  /** Diffs with one ChangeSet hold the same files with the same atoms. */
  lemma InputsRecovered(env: Env, h: Header, files: seq<FileInput>, other: seq<FileInput>, cs: ChangeSet)
    requires SoundHash(env) && InputsOk(env, files) && InputsOk(env, other)
    requires Normalize(env, h, files) == Some(cs) && Normalize(env, h, other) == Some(cs)
    ensures multiset(Map(BagOf, files)) == multiset(Map(BagOf, other))
  {
    var step := FileStep(env, h);
    SetFiles(env, h, files, cs);
    SetFiles(env, h, other, cs);
    var ps, qs := Traverse(step, files).value, Traverse(step, other).value;
    RecordsMade(step, files, ps);
    RecordsMade(step, other, qs);
    MapBag(WrapFile, PartFiles(ps), PartFiles(qs));
    TraverseSpec(step, files);
    TraverseSpec(step, other);
    forall f, g | f in files && g in other && RecordMade(step)(f) == RecordMade(step)(g) ensures BagOf(f) == BagOf(g) {
      assert step(f).Some? && step(g).Some?;
      InputRecovered(env, h, f, g, step(f).value, step(g).value);
    }
    MapBagVia(RecordMade(step), BagOf, files, other);
  }

  /** A normalized diff's id is shared by exactly the accepted diffs with the same
      header and the same files and atoms, in any order. */
  lemma IdIdentifiesDiff(env: Env, h: Header, files: seq<FileInput>, k: Header, other: seq<FileInput>)
    requires SoundHash(env) && InputsOk(env, files) && InputsOk(env, other)
    requires Normalize(env, h, files).Some? && Normalize(env, k, other).Some?
    ensures Normalize(env, h, files).value.id == Normalize(env, k, other).value.id
       <==> h == k && multiset(Map(BagOf, files)) == multiset(Map(BagOf, other))
  {
    var cs, ds := Normalize(env, h, files).value, Normalize(env, k, other).value;
    SetFiles(env, h, files, cs);
    SetFiles(env, k, other, ds);
    if cs.id == ds.id {
      SameIdSameSet(env, cs, ds);
      InputsRecovered(env, h, files, other, cs);
    } else if h == k && multiset(Map(BagOf, files)) == multiset(Map(BagOf, other)) {
      InputOrderIrrelevant(env, h, files, other);
    }
  }

  lemma SameIdSameSet(env: Env, cs: ChangeSet, ds: ChangeSet)
    requires SoundHash(env) && cs.id == ds.id
    requires cs.id == env.hash(SetPayload(cs.header, cs.sources, cs.files, cs.atoms, cs.diagnostics))
    requires ds.id == env.hash(SetPayload(ds.header, ds.sources, ds.files, ds.atoms, ds.diagnostics))
    ensures cs == ds
  {
  }
}
