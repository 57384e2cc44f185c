/** The normalizer only builds valid ChangeSets, and forgets input order. */
module NormalizerProofs {
  import opened Ordering
  import opened Sorting
  import opened SourceText
  import opened ChangeModel
  import opened Normalizer

  ghost predicate InputsOk(env: Env, files: seq<FileInput>) {
    forall f | f in files :: FileInputOk(env, f)
  }

  // ------------------------------------------------- one file in isolation

  /** When the loop body accepts a file: its shape, its atoms one by one, and
      their lines; never the built file's own validation. */
  ghost predicate FileAccepted(env: Env, h: Header, f: FileInput) {
    && FileShapeOk(h, f)
    && (!f.isBinary ==>
          && Traverse(AtomStep(env, h, f), f.atoms).Some?
          && FileAtomsOk(f, Traverse(AtomStep(env, h, f), f.atoms).value))
  }

  predicate AtomsFit(env: Env, h: Header, file: ChangedFile, atoms: seq<ChangeAtom>) {
    forall a | a in atoms :: AtomOk(env, a) && a.version == h.version && AtomBelongs(file, a)
  }

  predicate SourcesFit(env: Env, h: Header, file: ChangedFile, sources: seq<SourceRef>) {
    && (forall s | s in sources :: SourceRefOk(env, s) && s.repository == h.repository)
    && FileSourceOk(TableOf(sources), file.oldRef, h.base, file.oldPath)
    && FileSourceOk(TableOf(sources), file.newRef, h.head, file.newPath)
    && (forall s | s in sources :: file.oldRef == Some(s.id) || file.newRef == Some(s.id))
  }

  /** Everything later steps need to know about a normalized file. */
  predicate PartsOk(env: Env, h: Header, p: FileParts) {
    && FileOk(env, p.file)
    && p.file.atomIds == AtomIds(p.atoms)
    && AtomsFit(env, h, p.file, p.atoms)
    && SourcesFit(env, h, p.file, p.sources)
    && Sorted(p.atoms, AtomOrder(TableOf(p.sources)))
    && OneAtomPerLine(p.atoms)
  }

  lemma AtomsWithOneIdAgree(env: Env, a: ChangeAtom, b: ChangeAtom)
    requires SoundHash(env) && AtomOk(env, a) && AtomOk(env, b) && a.id == b.id
    ensures a == b
  {
  }

  lemma SourcesWithOneIdAgree(env: Env, s: SourceRef, t: SourceRef)
    requires SoundHash(env) && SourceRefOk(env, s) && SourceRefOk(env, t) && s.id == t.id
    ensures s == t
  {
  }

  lemma FilesWithOneIdAgree(env: Env, f: ChangedFile, g: ChangedFile)
    requires SoundHash(env) && FileOk(env, f) && FileOk(env, g) && f.id == g.id
    ensures f == g
  {
  }

  lemma NormalizedAtom(env: Env, h: Header, f: FileInput, a: AtomInput)
    requires AtomStep(env, h, f)(a).Some?
    ensures var b := AtomStep(env, h, f)(a).value;
      && DraftFits(env, h, f, b)
      && b.addedLines == a.addedLines && b.deletedLines == a.deletedLines && b.kind == a.kind
  {
  }

  /** No two atoms of a file with one owner per line are equal: each holds a line. */
  lemma OwnedLinesNoRepeats(env: Env, atoms: seq<ChangeAtom>)
    requires SoundHash(env)
    requires forall a | a in atoms :: AtomOk(env, a)
    requires OneAtomPerLine(atoms)
    ensures NoRepeats(AtomIds(atoms))
  {
    forall i, j | 0 <= i < j < |atoms| ensures AtomIds(atoms)[i] != AtomIds(atoms)[j] {
      assert AtomOk(env, atoms[i]) && AtomOk(env, atoms[j]);
      if atoms[i].deletedLines != [] {
        FlatOneOrigin(DeletedOf, atoms, i, j, atoms[i].deletedLines[0]);
      } else {
        FlatOneOrigin(AddedOf, atoms, i, j, atoms[i].addedLines[0]);
      }
      assert atoms[i] != atoms[j];
      if atoms[i].id == atoms[j].id {
        AtomsWithOneIdAgree(env, atoms[i], atoms[j]);
      }
    }
    DistinctIndicesNoRepeats(AtomIds(atoms));
  }

  lemma LineBags(atoms: seq<ChangeAtom>, sorted: seq<ChangeAtom>)
    requires multiset(atoms) == multiset(sorted)
    ensures multiset(DeletedLines(atoms)) == multiset(DeletedLines(sorted))
    ensures multiset(AddedLines(atoms)) == multiset(AddedLines(sorted))
    ensures OneAtomPerLine(atoms) ==> OneAtomPerLine(sorted)
  {
    FlatBag(DeletedOf, atoms, sorted);
    FlatBag(AddedOf, atoms, sorted);
    if OneAtomPerLine(atoms) {
      NoRepeatsBag(DeletedLines(atoms), DeletedLines(sorted));
      NoRepeatsBag(AddedLines(atoms), AddedLines(sorted));
    }
  }

  /** The atom semantics of a file do not see the order of its atoms. */
  lemma FileAtomsOkBag(f: FileInput, atoms: seq<ChangeAtom>, other: seq<ChangeAtom>)
    requires multiset(atoms) == multiset(other)
    ensures FileAtomsOk(f, atoms) == FileAtomsOk(f, other)
  {
    LineBags(atoms, other);
    LineBags(other, atoms);
    assert forall a :: a in atoms <==> a in multiset(atoms);
    assert forall a :: a in other <==> a in multiset(other);
    assert |multiset(atoms)| == |multiset(other)|;
  }

  lemma SnapshotTable(env: Env, f: FileInput)
    requires SoundHash(env) && FileInputOk(env, f)
    ensures forall s | s in SnapshotRefs(f) :: s.id in TableOf(SnapshotRefs(f)) && TableOf(SnapshotRefs(f))[s.id] == s
  {
    var refs := SnapshotRefs(f);
    forall s, t | s in refs && t in refs && s.id == t.id ensures s == t {
      SourcesWithOneIdAgree(env, s, t);
    }
    TableByFinds(IdOfSource, refs);
    assert forall s | s in refs :: IdOfSource(s) == s.id;
  }

  lemma SnapshotsFit(env: Env, h: Header, f: FileInput, atoms: seq<ChangeAtom>)
    requires SoundHash(env) && FileInputOk(env, f) && FileShapeOk(h, f) && !f.isBinary
    ensures SourcesFit(env, h, MakeFile(env, f, atoms), SnapshotRefs(f))
  {
    SnapshotTable(env, f);
    assert f.oldSnapshot.Some? ==> f.oldSnapshot.value.ref in SnapshotRefs(f);
    assert f.newSnapshot.Some? ==> f.newSnapshot.value.ref in SnapshotRefs(f);
  }

  /** A normalized atom names only the sources of the file it was made for. */
  predicate DraftFits(env: Env, h: Header, f: FileInput, b: ChangeAtom) {
    && AtomOk(env, b) && b.version == h.version
    && (b.oldRef.Some? ==> b.oldRef == SnapshotId(f.oldSnapshot))
    && (b.newRef.Some? ==> b.newRef == SnapshotId(f.newSnapshot))
  }

  lemma DraftsOk(env: Env, h: Header, f: FileInput)
    requires Traverse(AtomStep(env, h, f), f.atoms).Some?
    ensures forall b | b in Traverse(AtomStep(env, h, f), f.atoms).value :: DraftFits(env, h, f, b)
  {
    TraverseSpec(AtomStep(env, h, f), f.atoms);
    var drafts := Traverse(AtomStep(env, h, f), f.atoms).value;
    forall b | b in drafts ensures DraftFits(env, h, f, b) {
      var i :| 0 <= i < |drafts| && drafts[i] == b;
      NormalizedAtom(env, h, f, f.atoms[i]);
    }
  }

  lemma IdsAreText(env: Env, f: FileInput, atoms: seq<ChangeAtom>)
    requires SoundHash(env) && FileInputOk(env, f)
    requires forall a | a in atoms :: AtomOk(env, a)
    ensures forall i | 0 <= i < |atoms| :: AtomIds(atoms)[i] != ""
    ensures f.oldSnapshot.Some? ==> IsText(f.oldSnapshot.value.ref.id)
    ensures f.newSnapshot.Some? ==> IsText(f.newSnapshot.value.ref.id)
  {
    forall i | 0 <= i < |atoms| ensures AtomIds(atoms)[i] != "" {
      var a := atoms[i];
      assert a in atoms;
      assert IsText(env.hash(AtomPayload(a.kind, a.oldRef, a.newRef, a.oldSpan, a.newSpan,
                                         a.addedLines, a.deletedLines, a.positions, a.version)));
    }
    if f.oldSnapshot.Some? {
      var s := f.oldSnapshot.value.ref;
      assert IsText(env.hash(SourcePayload(s.repository, s.revision, s.path, s.contentHash)));
    }
    if f.newSnapshot.Some? {
      var s := f.newSnapshot.value.ref;
      assert IsText(env.hash(SourcePayload(s.repository, s.revision, s.path, s.contentHash)));
    }
  }

  /** A file accepted by the local checks builds a valid ChangedFile. */
  lemma MadeFileOk(env: Env, h: Header, f: FileInput, atoms: seq<ChangeAtom>)
    requires SoundHash(env) && FileInputOk(env, f) && FileShapeOk(h, f)
    requires f.isBinary ==> atoms == []
    requires !f.isBinary ==> FileAtomsOk(f, atoms)
    requires forall a | a in atoms :: AtomOk(env, a)
    ensures FileOk(env, MakeFile(env, f, atoms))
  {
    if !f.isBinary {
      OwnedLinesNoRepeats(env, atoms);
      IdsAreText(env, f, atoms);
    }
  }

  lemma TextFileParts(env: Env, h: Header, f: FileInput, atoms: seq<ChangeAtom>)
    requires SoundHash(env) && FileInputOk(env, f) && FileShapeOk(h, f) && !f.isBinary
    requires FileAtomsOk(f, atoms) && Sorted(atoms, AtomOrder(TableOf(SnapshotRefs(f))))
    requires forall b | b in atoms :: DraftFits(env, h, f, b)
    ensures FileOk(env, MakeFile(env, f, atoms))
    ensures PartsOk(env, h, FileParts(MakeFile(env, f, atoms), atoms, SnapshotRefs(f)))
  {
    MadeFileOk(env, h, f, atoms);
    SnapshotsFit(env, h, f, atoms);
    assert AtomsFit(env, h, MakeFile(env, f, atoms), atoms);
  }

  /** Exactly when a file is accepted, and what it then contributes. */
  lemma NormalizeFileSpec(env: Env, h: Header, f: FileInput)
    requires SoundHash(env) && FileInputOk(env, f)
    ensures NormalizeFile(env, h, f).Some? <==> FileAccepted(env, h, f)
    ensures NormalizeFile(env, h, f).Some? ==> PartsOk(env, h, NormalizeFile(env, h, f).value)
  {
    if FileShapeOk(h, f) && f.isBinary {
      MadeFileOk(env, h, f, []);
      assert Sorted<ChangeAtom>([], AtomOrder(TableOf([])));
    } else if FileShapeOk(h, f) {
      var drafts := Traverse(AtomStep(env, h, f), f.atoms);
      TraverseSpec(AtomStep(env, h, f), f.atoms);
      if drafts.Some? {
        DraftsOk(env, h, f);
        BuildTextFileSpec(env, h, f, drafts.value);
      }
    }
  }

  lemma BuildTextFileSpec(env: Env, h: Header, f: FileInput, drafts: seq<ChangeAtom>)
    requires SoundHash(env) && FileInputOk(env, f) && FileShapeOk(h, f) && !f.isBinary
    requires forall b | b in drafts :: DraftFits(env, h, f, b)
    ensures BuildTextFile(env, f, drafts).Some? <==> FileAtomsOk(f, drafts)
    ensures BuildTextFile(env, f, drafts).Some? ==> PartsOk(env, h, BuildTextFile(env, f, drafts).value)
  {
    var order := AtomOrder(TableOf(SnapshotRefs(f)));
    var atoms := SortBy(drafts, order);
    SortBySorts(drafts, order);
    FileAtomsOkBag(f, drafts, atoms);
    if FileAtomsOk(f, atoms) {
      TextFileParts(env, h, f, atoms);
    }
  }

  // --------------------------------------------------- the assembled whole

  ghost predicate AllPartsOk(env: Env, h: Header, parts: seq<FileParts>) {
    forall p | p in parts :: PartsOk(env, h, p)
  }

  lemma PartSourcesAgree(env: Env, h: Header, parts: seq<FileParts>)
    requires SoundHash(env) && AllPartsOk(env, h, parts)
    ensures forall s | s in PartSources(parts) :: SourceRefOk(env, s) && s.repository == h.repository
    ensures forall s, t | s in PartSources(parts) && t in PartSources(parts) && s.id == t.id :: s == t
    ensures forall p, s | p in parts && s in p.sources :: s in PartSources(parts)
    ensures forall s | s in PartSources(parts) :: exists p :: p in parts && s in p.sources
  {
    forall s | s in PartSources(parts)
      ensures SourceRefOk(env, s) && s.repository == h.repository
      ensures exists p :: p in parts && s in p.sources
    {
      FlatMember(SourcesOfPart, parts, s);
    }
    forall s, t | s in PartSources(parts) && t in PartSources(parts) && s.id == t.id ensures s == t {
      SourcesWithOneIdAgree(env, s, t);
    }
    forall p, s | p in parts && s in p.sources ensures s in PartSources(parts) {
      FlatMember(SourcesOfPart, parts, s);
    }
  }

  /** The global table agrees with every file's own table. */
  lemma TablesAgree(env: Env, h: Header, parts: seq<FileParts>, p: FileParts)
    requires SoundHash(env) && AllPartsOk(env, h, parts) && p in parts
    ensures forall id | id in TableOf(p.sources) ::
      id in TableOf(PartSources(parts)) && TableOf(PartSources(parts))[id] == TableOf(p.sources)[id]
  {
    PartSourcesAgree(env, h, parts);
    TableByFinds(IdOfSource, PartSources(parts));
    TableByContents(IdOfSource, p.sources);
  }

  /** The sorted source list holds exactly the dictionary's entries, in id order. */
  lemma ListingOfTable(table: SourceTable)
    requires forall id | id in table :: table[id].id == id
    ensures forall s :: s in SortedSources(table) <==> s.id in table && table[s.id] == s
    ensures forall i | 0 <= i < |SortedSources(table)| :: SortedSources(table)[i].id == SortedSet(table.Keys, TextKey)[i]
  {
    var ids, refs := SortedSet(table.Keys, TextKey), SortedSources(table);
    forall i | 0 <= i < |refs| ensures refs[i].id == ids[i] && ids[i] in table {
      assert ids[i] in ids;
    }
    forall s: SourceRef | s.id in table && table[s.id] == s ensures s in refs {
      assert s.id in ids;
      var i :| 0 <= i < |ids| && ids[i] == s.id;
      assert refs[i] == s;
    }
  }

  /** Reading the sorted source list back gives the dictionary it came from. */
  lemma TableOfListing(table: SourceTable)
    requires forall id | id in table :: table[id].id == id
    ensures TableOf(SortedSources(table)) == table
  {
    var refs := SortedSources(table);
    ListingOfTable(table);
    TableByFinds(IdOfSource, refs);
    TableByContents(IdOfSource, refs);
    forall k ensures k in TableOf(refs) <==> k in table {
      if k in table {
        assert table[k] in refs && IdOfSource(table[k]) == k;
      }
    }
  }

  lemma PartTable(env: Env, h: Header, parts: seq<FileParts>)
    requires SoundHash(env) && AllPartsOk(env, h, parts)
    ensures var table := TableOf(PartSources(parts));
      && (forall id | id in table :: table[id].id == id)
      && (forall s :: s in PartSources(parts) <==> s.id in table && table[s.id] == s)
  {
    PartSourcesAgree(env, h, parts);
    TableByFinds(IdOfSource, PartSources(parts));
    TableByContents(IdOfSource, PartSources(parts));
    assert forall s: SourceRef :: IdOfSource(s) == s.id;
  }

  lemma SortedSourcesMembers(env: Env, h: Header, parts: seq<FileParts>)
    requires SoundHash(env) && AllPartsOk(env, h, parts)
    ensures var table := TableOf(PartSources(parts));
      && (forall s :: s in SortedSources(table) <==> s in PartSources(parts))
      && (forall i | 0 <= i < |SortedSources(table)| ::
            SortedSources(table)[i].id == SortedSet(table.Keys, TextKey)[i])
  {
    PartTable(env, h, parts);
    ListingOfTable(TableOf(PartSources(parts)));
  }

  /** The sorted source list is a listing of the dictionary, and gives it back. */
  lemma SortedSourcesOk(env: Env, h: Header, parts: seq<FileParts>)
    requires SoundHash(env) && AllPartsOk(env, h, parts)
    ensures var table := TableOf(PartSources(parts));
      && StrictlySorted(SortedSources(table), SourceKey)
      && (forall s :: s in SortedSources(table) <==> s in PartSources(parts))
      && TableOf(SortedSources(table)) == table
  {
    var table := TableOf(PartSources(parts));
    var ids := SortedSet(table.Keys, TextKey);
    var refs := SortedSources(table);
    SortedSourcesMembers(env, h, parts);
    PartTable(env, h, parts);
    TableOfListing(table);
    forall i, j | 0 <= i < j < |refs| ensures KeyLess(SourceKey(refs[i]), SourceKey(refs[j])) {
      assert KeyLess(TextKey(ids[i]), TextKey(ids[j]));
    }
  }

  lemma PartFilesMembers(parts: seq<FileParts>)
    ensures forall f :: f in PartFiles(parts) <==> exists p :: p in parts && p.file == f
  {
    forall f | f in PartFiles(parts) ensures exists p :: p in parts && p.file == f {
      var i :| 0 <= i < |parts| && PartFiles(parts)[i] == f;
      assert parts[i] in parts;
    }
    forall p | p in parts ensures p.file in PartFiles(parts) {
      var i :| 0 <= i < |parts| && parts[i] == p;
      assert PartFiles(parts)[i] == p.file;
    }
  }

  /** The paths of the sorted files are the paths of the parts. */
  lemma UniquePathsAnyOrder(files: seq<ChangedFile>, other: seq<ChangedFile>)
    requires multiset(files) == multiset(other) && PathsUnique(files)
    ensures PathsUnique(other)
  {
    FlatBag(OldPathOf, files, other);
    FlatBag(NewPathOf, files, other);
    NoRepeatsBag(OldPaths(files), OldPaths(other));
    NoRepeatsBag(NewPaths(files), NewPaths(other));
  }

  /** Files at two positions never share a path on one side. */
  lemma DistinctPaths(files: seq<ChangedFile>, i: nat, j: nat)
    requires PathsUnique(files) && i < j < |files|
    ensures files[i].oldPath.Some? ==> files[i].oldPath != files[j].oldPath
    ensures files[i].newPath.Some? ==> files[i].newPath != files[j].newPath
  {
    if files[i].oldPath.Some? {
      FlatOneOrigin(OldPathOf, files, i, j, files[i].oldPath.value);
    }
    if files[i].newPath.Some? {
      FlatOneOrigin(NewPathOf, files, i, j, files[i].newPath.value);
    }
  }

  lemma FileListValid(env: Env, h: Header, parts: seq<FileParts>)
    requires SoundHash(env) && AllPartsOk(env, h, parts)
    requires PathsUnique(Assemble(env, h, parts).files)
    ensures FileListOk(Assemble(env, h, parts))
  {
    var files := Assemble(env, h, parts).files;
    SortBySorts(PartFiles(parts), FileKey);
    PartFilesMembers(parts);
    var ids := Map(IdOfFile, files);
    forall i, j | 0 <= i < j < |ids| ensures ids[i] != ids[j] {
      DistinctPaths(files, i, j);
      assert files[i] in files && files[j] in files;
      assert FileOk(env, files[i]) && FileOk(env, files[j]);
      if files[i].id == files[j].id {
        FilesWithOneIdAgree(env, files[i], files[j]);
      }
    }
    DistinctIndicesNoRepeats(ids);
  }

  /** Two parts that share an atom share a source, hence a path on some side. */
  lemma SharedAtomSharesPath(env: Env, h: Header, parts: seq<FileParts>, p: FileParts, q: FileParts, a: ChangeAtom)
    requires SoundHash(env) && AllPartsOk(env, h, parts) && p in parts && q in parts
    requires a in p.atoms && a in q.atoms
    ensures (p.file.oldPath.Some? && p.file.oldPath == q.file.oldPath) || (p.file.newPath.Some? && p.file.newPath == q.file.newPath)
  {
    assert AtomOk(env, a) && AtomBelongs(p.file, a) && AtomBelongs(q.file, a);
    assert a.oldRef.Some? || a.newRef.Some?;
    TablesAgree(env, h, parts, p);
    TablesAgree(env, h, parts, q);
  }

  lemma ListedAtom(env: Env, h: Header, p: FileParts, id: string) returns (a: ChangeAtom)
    requires PartsOk(env, h, p) && id in p.file.atomIds
    ensures a in p.atoms && a.id == id && AtomOk(env, a)
  {
    var k :| 0 <= k < |p.atoms| && p.file.atomIds[k] == id;
    a := p.atoms[k];
    assert a in p.atoms;
  }

  /** Atoms of different files differ: they would share a source, hence a path. */
  lemma AtomsOfTwoFiles(env: Env, h: Header, parts: seq<FileParts>, i: nat, j: nat, id: string)
    requires SoundHash(env) && AllPartsOk(env, h, parts) && PathsUnique(PartFiles(parts))
    requires i < j < |parts| && id in parts[i].file.atomIds
    ensures id !in parts[j].file.atomIds
  {
    var p, q := parts[i], parts[j];
    assert p in parts && q in parts;
    DistinctPaths(PartFiles(parts), i, j);
    if id in q.file.atomIds {
      var a := ListedAtom(env, h, p, id);
      var b := ListedAtom(env, h, q, id);
      AtomsWithOneIdAgree(env, a, b);
      SharedAtomSharesPath(env, h, parts, p, q, a);
    }
  }

  function AtomIdsOfPart(p: FileParts): seq<string> { p.file.atomIds }

  predicate ListsOwnAtoms(p: FileParts) { p.file.atomIds == AtomIds(p.atoms) }

  lemma {:induction false} PartAtomIdsByPart(parts: seq<FileParts>)
    requires forall p | p in parts :: ListsOwnAtoms(p)
    ensures AtomIds(PartAtoms(parts)) == Flat(AtomIdsOfPart, parts) == Flat(AtomIdsOf, PartFiles(parts))
  {
    if parts != [] {
      var p, rest := parts[0], parts[1..];
      assert p in parts;
      PartAtomIdsByPart(rest);
      MapConcat(IdOfAtom, p.atoms, PartAtoms(rest));
      assert PartFiles(parts)[1..] == PartFiles(rest);
    }
  }

  lemma PartAtomIds(env: Env, h: Header, parts: seq<FileParts>)
    requires AllPartsOk(env, h, parts)
    ensures AtomIds(PartAtoms(parts)) == Flat(AtomIdsOfPart, parts) == Flat(AtomIdsOf, PartFiles(parts))
  {
    forall p | p in parts ensures ListsOwnAtoms(p) {
      assert PartsOk(env, h, p);
    }
    PartAtomIdsByPart(parts);
  }

  lemma PartAtomIdsUnique(env: Env, h: Header, parts: seq<FileParts>)
    requires SoundHash(env) && AllPartsOk(env, h, parts) && PathsUnique(PartFiles(parts))
    ensures NoRepeats(AtomIds(PartAtoms(parts)))
  {
    forall i, j, id | 0 <= i < j < |parts| && id in AtomIdsOfPart(parts[i]) ensures id !in AtomIdsOfPart(parts[j]) {
      AtomsOfTwoFiles(env, h, parts, i, j, id);
    }
    FlatNoRepeats(AtomIdsOfPart, parts);
    PartAtomIds(env, h, parts);
  }

  lemma PartAtomMembers(parts: seq<FileParts>)
    ensures forall a :: a in PartAtoms(parts) <==> exists p :: p in parts && a in p.atoms
  {
    forall a ensures a in PartAtoms(parts) <==> exists p :: p in parts && a in p.atoms {
      FlatMember(AtomsOfPart, parts, a);
    }
  }

  lemma AtomSourcesKnown(env: Env, h: Header, parts: seq<FileParts>, p: FileParts, a: ChangeAtom)
    requires SoundHash(env) && AllPartsOk(env, h, parts) && p in parts && a in p.atoms
    ensures KnownSources(TableOf(PartSources(parts)), a)
    ensures AtomKey(TableOf(PartSources(parts)), a) == AtomKey(TableOf(p.sources), a)
  {
    TablesAgree(env, h, parts, p);
  }

  lemma AtomListValid(env: Env, h: Header, parts: seq<FileParts>)
    requires SoundHash(env) && AllPartsOk(env, h, parts) && PathsUnique(PartFiles(parts))
    ensures AtomListOk(Assemble(env, h, parts))
  {
    var cs := Assemble(env, h, parts);
    var table := TableOf(PartSources(parts));
    SortedSourcesOk(env, h, parts);
    SortBySorts(PartAtoms(parts), AtomOrder(table));
    SortedFixpoint(cs.atoms, AtomOrder(table));
    PartAtomIdsUnique(env, h, parts);
    MapBag(IdOfAtom, PartAtoms(parts), cs.atoms);
    NoRepeatsBag(AtomIds(PartAtoms(parts)), AtomIds(cs.atoms));
    PartAtomMembers(parts);
    forall i | 0 <= i < |cs.atoms|
      ensures cs.atoms[i].version == h.version && KnownSources(table, cs.atoms[i])
    {
      assert cs.atoms[i] in cs.atoms && cs.atoms[i] in PartAtoms(parts);
      var p :| p in parts && cs.atoms[i] in p.atoms;
      AtomSourcesKnown(env, h, parts, p, cs.atoms[i]);
    }
  }

  lemma AssembledAtoms(env: Env, h: Header, parts: seq<FileParts>)
    requires SoundHash(env) && AllPartsOk(env, h, parts)
    ensures var atoms := Assemble(env, h, parts).atoms;
      && multiset(atoms) == multiset(PartAtoms(parts))
      && (forall a :: a in atoms <==> exists p :: p in parts && a in p.atoms)
      && (forall a | a in atoms :: a.id in AtomTable(atoms) && AtomTable(atoms)[a.id] == a)
  {
    var atoms := Assemble(env, h, parts).atoms;
    SortBySorts(PartAtoms(parts), AtomOrder(TableOf(PartSources(parts))));
    PartAtomMembers(parts);
    forall a, b | a in atoms && b in atoms && a.id == b.id ensures a == b {
      AtomsWithOneIdAgree(env, a, b);
    }
    TableByFinds(IdOfAtom, atoms);
    assert forall a | a in atoms :: IdOfAtom(a) == a.id;
  }

  /** Looking a file's ids up in the whole atom table gives the file's own atoms. */
  lemma FileAtomsFound(env: Env, h: Header, parts: seq<FileParts>, p: FileParts)
    requires SoundHash(env) && AllPartsOk(env, h, parts) && p in parts
    ensures FileAtoms(AtomTable(Assemble(env, h, parts).atoms), p.file) == Some(p.atoms)
  {
    var byId := AtomTable(Assemble(env, h, parts).atoms);
    AssembledAtoms(env, h, parts);
    forall i | 0 <= i < |p.atoms| ensures Lookup(byId)(p.file.atomIds[i]) == Some(p.atoms[i]) {
      assert p.atoms[i] in p.atoms;
    }
    LookupAll(byId, p.file.atomIds, p.atoms);
  }

  lemma LookupAll<T>(table: map<string, T>, ids: seq<string>, values: seq<T>)
    requires |ids| == |values|
    requires forall i | 0 <= i < |ids| :: Lookup(table)(ids[i]) == Some(values[i])
    ensures Traverse(Lookup(table), ids) == Some(values)
  {
    forall id | id in ids ensures Lookup(table)(id).Some? {
      var i :| 0 <= i < |ids| && ids[i] == id;
      assert Lookup(table)(ids[i]) == Some(values[i]);
    }
    TraverseSpec(Lookup(table), ids);
    var found := Traverse(Lookup(table), ids);
    assert forall i | 0 <= i < |ids| :: Some(found.value[i]) == Lookup(table)(ids[i]);
    assert found.value == values;
  }

  lemma FileEntryValid(env: Env, h: Header, parts: seq<FileParts>, p: FileParts)
    requires SoundHash(env) && AllPartsOk(env, h, parts) && p in parts
    ensures var cs := Assemble(env, h, parts);
      FileEntryOk(env, h, TableOf(cs.sources), AtomTable(cs.atoms), p.file)
  {
    var table := TableOf(PartSources(parts));
    SortedSourcesOk(env, h, parts);
    FileAtomsFound(env, h, parts, p);
    TablesAgree(env, h, parts, p);
    forall i | 0 <= i < |p.atoms|
      ensures AtomBelongs(p.file, p.atoms[i]) && KnownSources(table, p.atoms[i])
      ensures AtomKey(table, p.atoms[i]) == AtomKey(TableOf(p.sources), p.atoms[i])
    {
      assert p.atoms[i] in p.atoms;
      AtomSourcesKnown(env, h, parts, p, p.atoms[i]);
    }
    SortedFixpoint(p.atoms, AtomOrder(table));
  }

  lemma FileEntriesValid(env: Env, h: Header, parts: seq<FileParts>)
    requires SoundHash(env) && AllPartsOk(env, h, parts)
    ensures FileEntriesOk(env, Assemble(env, h, parts))
  {
    var cs := Assemble(env, h, parts);
    SortBySorts(PartFiles(parts), FileKey);
    PartFilesMembers(parts);
    forall i | 0 <= i < |cs.files|
      ensures FileEntryOk(env, h, TableOf(cs.sources), AtomTable(cs.atoms), cs.files[i])
    {
      assert cs.files[i] in cs.files;
      var p :| p in parts && p.file == cs.files[i];
      FileEntryValid(env, h, parts, p);
    }
  }

  lemma ReferencedIdsMembers(files: seq<ChangedFile>, id: string)
    ensures id in ReferencedIds(files) <==> exists f :: f in files && (f.oldRef == Some(id) || f.newRef == Some(id))
  {
    FlatMember(RefsOf, files, id);
    forall f: ChangedFile
      ensures id in OptionList(f.oldRef) + OptionList(f.newRef) <==> (f.oldRef == Some(id) || f.newRef == Some(id))
    {
    }
  }

  lemma AtomsOwnedOnce(env: Env, h: Header, parts: seq<FileParts>)
    requires SoundHash(env) && AllPartsOk(env, h, parts)
    ensures var cs := Assemble(env, h, parts);
      multiset(Flat(AtomIdsOf, cs.files)) == multiset(AtomIds(cs.atoms))
  {
    var cs := Assemble(env, h, parts);
    SortBySorts(PartFiles(parts), FileKey);
    AssembledAtoms(env, h, parts);
    FlatBag(AtomIdsOf, PartFiles(parts), cs.files);
    MapBag(IdOfAtom, PartAtoms(parts), cs.atoms);
    PartAtomIds(env, h, parts);
  }

  lemma AssembledFiles(env: Env, h: Header, parts: seq<FileParts>)
    ensures var files := Assemble(env, h, parts).files;
      && multiset(files) == multiset(PartFiles(parts))
      && Sorted(files, FileKey)
      && (forall f :: f in files <==> exists p :: p in parts && p.file == f)
  {
    SortBySorts(PartFiles(parts), FileKey);
    PartFilesMembers(parts);
  }

  /** A file's source ids are exactly the ids of the sources it contributed. */
  lemma PartRefs(env: Env, h: Header, p: FileParts, id: string)
    requires PartsOk(env, h, p)
    ensures (p.file.oldRef == Some(id) || p.file.newRef == Some(id))
      <==> exists s :: s in p.sources && s.id == id
  {
    TableByContents(IdOfSource, p.sources);
    assert forall s: SourceRef :: IdOfSource(s) == s.id;
  }

  lemma SourcesUsed(env: Env, h: Header, parts: seq<FileParts>, id: string)
    requires SoundHash(env) && AllPartsOk(env, h, parts)
    ensures id in ReferencedIds(Assemble(env, h, parts).files)
      <==> exists s :: s in Assemble(env, h, parts).sources && s.id == id
  {
    var cs := Assemble(env, h, parts);
    AssembledFiles(env, h, parts);
    SortedSourcesMembers(env, h, parts);
    PartSourcesAgree(env, h, parts);
    ReferencedIdsMembers(cs.files, id);
    forall p | p in parts
      ensures (p.file.oldRef == Some(id) || p.file.newRef == Some(id)) <==> exists s :: s in p.sources && s.id == id
    {
      PartRefs(env, h, p, id);
    }
    if id in ReferencedIds(cs.files) {
      var f :| f in cs.files && (f.oldRef == Some(id) || f.newRef == Some(id));
      var p :| p in parts && p.file == f;
      var s :| s in p.sources && s.id == id;
      assert s in cs.sources;
    }
    if s :| s in cs.sources && s.id == id {
      var p :| p in parts && s in p.sources;
      assert p.file in cs.files;
    }
  }

  lemma OwnershipValid(env: Env, h: Header, parts: seq<FileParts>)
    requires SoundHash(env) && AllPartsOk(env, h, parts)
    ensures OwnershipOk(Assemble(env, h, parts))
  {
    AtomsOwnedOnce(env, h, parts);
    forall id
      ensures id in ReferencedIds(Assemble(env, h, parts).files)
        <==> exists s :: s in Assemble(env, h, parts).sources && s.id == id
    {
      SourcesUsed(env, h, parts, id);
    }
  }

  lemma BinaryIdMembers(files: seq<ChangedFile>, id: string)
    ensures id in BinaryFileIds(files) <==> exists f :: f in files && f.isBinary && f.id == id
  {
    FlatMember(BinaryIdOf, files, id);
  }

  lemma {:induction false} BinaryIdsUnique(files: seq<ChangedFile>)
    requires NoRepeats(Map(IdOfFile, files))
    ensures NoRepeats(BinaryFileIds(files))
  {
    var ids := Map(IdOfFile, files);
    forall i, j, u | 0 <= i < j < |files| && u in BinaryIdOf(files[i]) ensures u !in BinaryIdOf(files[j]) {
      NoRepeatsIndices(ids, i, j);
    }
    forall f | f in files ensures NoRepeats(BinaryIdOf(f)) {
      DistinctIndicesNoRepeats(BinaryIdOf(f));
    }
    FlatNoRepeats(BinaryIdOf, files);
  }

  /** The diagnostics are one per binary file id, in strict order. */
  lemma DiagnosticsListing(env: Env, files: seq<ChangedFile>)
    requires NoRepeats(Map(IdOfFile, files))
    ensures var ds := Diagnostics(env, files);
      && Sorted(ds, DiagnosticKey) && NoRepeats(ds)
      && (forall d :: d in ds <==> d.fileId in BinaryFileIds(files) && d == DiagnosticOf(env, d.fileId))
  {
    var ids := BinaryFileIds(files);
    var drafts := Map(DiagnosticMaker(env), ids);
    BinaryIdsUnique(files);
    forall i, j | 0 <= i < j < |drafts| ensures drafts[i] != drafts[j] {
      NoRepeatsIndices(ids, i, j);
    }
    DistinctIndicesNoRepeats(drafts);
    SortBySorts(drafts, DiagnosticKey);
    NoRepeatsBag(drafts, Diagnostics(env, files));
    forall d ensures d in drafts <==> d.fileId in ids && d == DiagnosticOf(env, d.fileId) {
      if d.fileId in ids && d == DiagnosticOf(env, d.fileId) {
        var i :| 0 <= i < |ids| && ids[i] == d.fileId;
        assert drafts[i] == d;
      }
    }
  }

  lemma DiagnosticsValid(env: Env, h: Header, parts: seq<FileParts>)
    requires FileListOk(Assemble(env, h, parts))
    ensures DiagnosticsOk(env, Assemble(env, h, parts))
  {
    var cs := Assemble(env, h, parts);
    DiagnosticsListing(env, cs.files);
    DiagnosticsStrict(env, cs.diagnostics);
    forall f | f in cs.files ensures f.isBinary <==> exists d :: d in cs.diagnostics && d.fileId == f.id {
      BinaryIdMembers(cs.files, f.id);
      if f.id in BinaryFileIds(cs.files) {
        assert DiagnosticOf(env, f.id) in cs.diagnostics;
        var g :| g in cs.files && g.isBinary && g.id == f.id;
        SameIdSameFile(cs.files, f, g);
      }
    }
    forall d | d in cs.diagnostics ensures exists f :: f in cs.files && f.id == d.fileId {
      BinaryIdMembers(cs.files, d.fileId);
    }
  }

  lemma SameIdSameFile(files: seq<ChangedFile>, f: ChangedFile, g: ChangedFile)
    requires NoRepeats(Map(IdOfFile, files))
    requires f in files && g in files && f.id == g.id
    ensures f == g
  {
    var ids := Map(IdOfFile, files);
    var i :| 0 <= i < |files| && files[i] == f;
    var j :| 0 <= j < |files| && files[j] == g;
    if i < j {
      NoRepeatsIndices(ids, i, j);
    } else if j < i {
      NoRepeatsIndices(ids, j, i);
    }
  }

  lemma DiagnosticsStrict(env: Env, ds: seq<Diagnostic>)
    requires Sorted(ds, DiagnosticKey) && NoRepeats(ds)
    requires forall d | d in ds :: d == DiagnosticOf(env, d.fileId)
    ensures StrictlySorted(ds, DiagnosticKey)
    ensures forall i, j | 0 <= i < j < |ds| :: ds[i].fileId != ds[j].fileId
  {
    forall i, j | 0 <= i < j < |ds|
      ensures KeyLess(DiagnosticKey(ds[i]), DiagnosticKey(ds[j])) && ds[i].fileId != ds[j].fileId
    {
      NoRepeatsIndices(ds, i, j);
      assert ds[i] in ds && ds[j] in ds;
      assert DiagnosticKey(ds[i])[0] == Text(ds[i].fileId) && DiagnosticKey(ds[j])[0] == Text(ds[j].fileId);
      KeyTrichotomy(DiagnosticKey(ds[i]), DiagnosticKey(ds[j]));
    }
  }

  ghost predicate AllAccepted(env: Env, h: Header, files: seq<FileInput>) {
    forall f | f in files :: FileAccepted(env, h, f)
  }

  /** The parts of accepted inputs. */
  lemma AcceptedParts(env: Env, h: Header, files: seq<FileInput>)
    requires SoundHash(env) && InputsOk(env, files)
    ensures Traverse(FileStep(env, h), files).Some? <==> AllAccepted(env, h, files)
    ensures Traverse(FileStep(env, h), files).Some? ==>
      AllPartsOk(env, h, Traverse(FileStep(env, h), files).value)
  {
    TraverseSpec(FileStep(env, h), files);
    forall f | f in files
      ensures FileStep(env, h)(f).Some? <==> FileAccepted(env, h, f)
      ensures FileStep(env, h)(f).Some? ==> PartsOk(env, h, FileStep(env, h)(f).value)
    {
      NormalizeFileSpec(env, h, f);
    }
    if Traverse(FileStep(env, h), files).Some? {
      var parts := Traverse(FileStep(env, h), files).value;
      forall p | p in parts ensures PartsOk(env, h, p) {
        var i :| 0 <= i < |parts| && parts[i] == p;
        assert files[i] in files;
      }
    }
  }

  /** Assembling parts with unique paths satisfies every clause of `ChangeSet.validate`. */
  lemma AssembledIsValid(env: Env, h: Header, parts: seq<FileParts>)
    requires SoundHash(env) && HeaderOk(h) && AllPartsOk(env, h, parts)
    requires PathsUnique(Assemble(env, h, parts).files)
    ensures ChangeSetOk(env, Assemble(env, h, parts))
  {
    var cs := Assemble(env, h, parts);
    SortBySorts(PartFiles(parts), FileKey);
    UniquePathsAnyOrder(cs.files, PartFiles(parts));
    SourcesValid(env, h, parts);
    FileListValid(env, h, parts);
    AtomListValid(env, h, parts);
    FileEntriesValid(env, h, parts);
    OwnershipValid(env, h, parts);
    DiagnosticsValid(env, h, parts);
  }

  lemma SourcesValid(env: Env, h: Header, parts: seq<FileParts>)
    requires SoundHash(env) && AllPartsOk(env, h, parts)
    ensures SourcesOk(env, Assemble(env, h, parts))
  {
    var cs := Assemble(env, h, parts);
    SortedSourcesOk(env, h, parts);
    PartSourcesAgree(env, h, parts);
    forall i | 0 <= i < |cs.sources|
      ensures SourceRefOk(env, cs.sources[i]) && cs.sources[i].repository == h.repository
      ensures cs.sources[i].revision in {h.base, h.head}
    {
      var s := cs.sources[i];
      assert s in cs.sources && s in PartSources(parts);
      var p :| p in parts && s in p.sources;
      SourceRevision(env, h, p, s);
    }
  }

  lemma SourceRevision(env: Env, h: Header, p: FileParts, s: SourceRef)
    requires SoundHash(env) && PartsOk(env, h, p) && s in p.sources
    ensures s.revision in {h.base, h.head}
  {
    TableByContents(IdOfSource, p.sources);
    assert IdOfSource(s) == s.id && s.id in TableOf(p.sources);
    assert IdOfSource(TableOf(p.sources)[s.id]) == s.id;
    SourcesWithOneIdAgree(env, s, TableOf(p.sources)[s.id]);
  }

  // ------------------------------------------------------- success, exactly

  function InputOldPath(f: FileInput): seq<string> { OptionList(f.oldPath) }
  function InputNewPath(f: FileInput): seq<string> { OptionList(f.newPath) }

  /** No base path, and no head path, is used by two inputs. */
  predicate InputPathsUnique(files: seq<FileInput>) {
    NoRepeats(Flat(InputOldPath, files)) && NoRepeats(Flat(InputNewPath, files))
  }

  predicate SamePaths(f: FileInput, p: FileParts) {
    p.file.oldPath == f.oldPath && p.file.newPath == f.newPath
  }

  lemma {:induction false} PartPaths(files: seq<FileInput>, parts: seq<FileParts>)
    requires |files| == |parts| && forall i | 0 <= i < |files| :: SamePaths(files[i], parts[i])
    ensures OldPaths(PartFiles(parts)) == Flat(InputOldPath, files)
    ensures NewPaths(PartFiles(parts)) == Flat(InputNewPath, files)
  {
    if files != [] {
      PartPaths(files[1..], parts[1..]);
      assert PartFiles(parts)[1..] == PartFiles(parts[1..]);
      assert SamePaths(files[0], parts[0]) && PartFiles(parts)[0] == parts[0].file;
    }
  }

  lemma StepPaths(env: Env, h: Header, files: seq<FileInput>, parts: seq<FileParts>)
    requires Traverse(FileStep(env, h), files) == Some(parts)
    ensures PathsUnique(PartFiles(parts)) <==> InputPathsUnique(files)
  {
    TraverseSpec(FileStep(env, h), files);
    forall i | 0 <= i < |files| ensures SamePaths(files[i], parts[i]) {
      assert FileStep(env, h)(files[i]) == Some(parts[i]);
    }
    PartPaths(files, parts);
  }

  /** Normalization succeeds exactly when the header, every file on its own, and
      path uniqueness are fine; the global validator never adds a refusal. */
  lemma NormalizeSucceedsIff(env: Env, h: Header, files: seq<FileInput>)
    requires SoundHash(env) && InputsOk(env, files)
    ensures Normalize(env, h, files).Some? <==> HeaderOk(h) && AllAccepted(env, h, files) && InputPathsUnique(files)
    ensures Normalize(env, h, files).Some? ==> ChangeSetOk(env, Normalize(env, h, files).value)
  {
    AcceptedParts(env, h, files);
    var parts := Traverse(FileStep(env, h), files);
    if HeaderOk(h) && parts.Some? {
      StepPaths(env, h, files, parts.value);
      AcceptIff(env, h, parts.value);
    }
  }

  lemma AcceptIff(env: Env, h: Header, parts: seq<FileParts>)
    requires SoundHash(env) && HeaderOk(h) && AllPartsOk(env, h, parts)
    ensures Accept(env, Assemble(env, h, parts)).Some? <==> PathsUnique(PartFiles(parts))
  {
    var cs := Assemble(env, h, parts);
    AssembledFiles(env, h, parts);
    if PathsUnique(PartFiles(parts)) {
      UniquePathsAnyOrder(PartFiles(parts), cs.files);
      AssembledIsValid(env, h, parts);
    } else if PathsUnique(cs.files) {
      UniquePathsAnyOrder(cs.files, PartFiles(parts));
    }
  }

  // ------------------------------------------------- order is forgotten

  /** A file input without the order of its atoms. */
  datatype FileBag = FileBag(rest: FileInput, atoms: multiset<AtomInput>)

  function BagOf(f: FileInput): FileBag {
    FileBag(f.(atoms := []), multiset(f.atoms))
  }

  lemma AtomOrderInjective(env: Env, table: SourceTable, atoms: seq<ChangeAtom>)
    requires SoundHash(env) && forall a | a in atoms :: AtomOk(env, a)
    ensures KeyInjective(atoms, AtomOrder(table))
  {
    forall a, b | a in atoms && b in atoms && AtomOrder(table)(a) == AtomOrder(table)(b) ensures a == b {
      assert AtomKey(table, a)[7] == AtomKey(table, b)[7];
      AtomsWithOneIdAgree(env, a, b);
    }
  }

  lemma BuildTextFileBag(env: Env, h: Header, f: FileInput, g: FileInput, ds: seq<ChangeAtom>, es: seq<ChangeAtom>)
    requires SoundHash(env) && FileShapeOk(h, f) && !f.isBinary
    requires f.(atoms := []) == g.(atoms := []) && multiset(ds) == multiset(es)
    requires forall a | a in ds :: AtomOk(env, a)
    ensures BuildTextFile(env, f, ds) == BuildTextFile(env, g, es)
  {
    var table := TableOf(SnapshotRefs(f));
    AtomOrderInjective(env, table, ds);
    SortByCanonical(ds, es, AtomOrder(table));
  }

  /** Permuting the atoms of a file changes nothing about the file. */
  lemma NormalizeFileBag(env: Env, h: Header, f: FileInput, g: FileInput)
    requires SoundHash(env) && BagOf(f) == BagOf(g)
    ensures NormalizeFile(env, h, f) == NormalizeFile(env, h, g)
  {
    assert FileShapeOk(h, f) == FileShapeOk(h, g) by {
      assert |multiset(f.atoms)| == |f.atoms| && |multiset(g.atoms)| == |g.atoms|;
    }
    if FileShapeOk(h, f) && !f.isBinary {
      var step := AtomStep(env, h, f);
      MapBag(step, f.atoms, g.atoms);
      TraverseBag(step, f.atoms, g.atoms);
      TraverseAgree(step, AtomStep(env, h, g), g.atoms);
      if Traverse(step, f.atoms).Some? {
        DraftsOk(env, h, f);
        BuildTextFileBag(env, h, f, g, Traverse(step, f.atoms).value, Traverse(step, g.atoms).value);
      }
    }
  }

  lemma {:induction false} TraverseAgree<T, U>(f: T -> Option<U>, g: T -> Option<U>, xs: seq<T>)
    requires forall x | x in xs :: f(x) == g(x)
    ensures Traverse(f, xs) == Traverse(g, xs)
  {
    if xs != [] {
      assert xs[0] in xs;
      TraverseAgree(f, g, xs[1..]);
    }
  }

  /** Equal bags of parts assemble to one ChangeSet. */
  lemma AssembleBag(env: Env, h: Header, ps: seq<FileParts>, qs: seq<FileParts>)
    requires SoundHash(env) && AllPartsOk(env, h, ps) && multiset(ps) == multiset(qs)
    ensures Assemble(env, h, ps) == Assemble(env, h, qs)
  {
    assert forall q :: q in qs <==> q in multiset(qs);
    assert forall p :: p in ps <==> p in multiset(ps);
    MapBag(FileOfPart, ps, qs);
    FlatBag(AtomsOfPart, ps, qs);
    FlatBag(SourcesOfPart, ps, qs);
    PartTablesEqual(env, h, ps, qs);
    FilesSortEqually(env, h, ps, qs);
    PartAtomMembers(ps);
    AtomOrderInjective(env, TableOf(PartSources(ps)), PartAtoms(ps));
    SortByCanonical(PartAtoms(ps), PartAtoms(qs), AtomOrder(TableOf(PartSources(ps))));
  }

  lemma FilesSortEqually(env: Env, h: Header, ps: seq<FileParts>, qs: seq<FileParts>)
    requires SoundHash(env) && AllPartsOk(env, h, ps)
    requires multiset(PartFiles(ps)) == multiset(PartFiles(qs))
    ensures SortBy(PartFiles(ps), FileKey) == SortBy(PartFiles(qs), FileKey)
  {
    PartFilesMembers(ps);
    forall f, g | f in PartFiles(ps) && g in PartFiles(ps) && FileKey(f) == FileKey(g) ensures f == g {
      assert FileKey(f)[3] == FileKey(g)[3];
      FilesWithOneIdAgree(env, f, g);
    }
    SortByCanonical(PartFiles(ps), PartFiles(qs), FileKey);
  }

  lemma PartTablesEqual(env: Env, h: Header, ps: seq<FileParts>, qs: seq<FileParts>)
    requires SoundHash(env) && AllPartsOk(env, h, ps)
    requires multiset(PartSources(ps)) == multiset(PartSources(qs))
    ensures TableOf(PartSources(ps)) == TableOf(PartSources(qs))
  {
    PartSourcesAgree(env, h, ps);
    forall s ensures s in PartSources(ps) <==> s in PartSources(qs) {
      assert s in PartSources(ps) <==> s in multiset(PartSources(ps));
      assert s in PartSources(qs) <==> s in multiset(PartSources(qs));
    }
    TableBySameElements(IdOfSource, PartSources(ps), PartSources(qs));
  }

  /** Permuting the files, and the atoms inside any file, changes neither whether
      normalization succeeds nor the ChangeSet it yields. */
  lemma InputOrderIrrelevant(env: Env, h: Header, files: seq<FileInput>, other: seq<FileInput>)
    requires SoundHash(env) && InputsOk(env, files)
    requires multiset(Map(BagOf, files)) == multiset(Map(BagOf, other))
    ensures Normalize(env, h, files) == Normalize(env, h, other)
  {
    var step := FileStep(env, h);
    forall f, g | f in files && g in other && BagOf(f) == BagOf(g) ensures step(f) == step(g) {
      NormalizeFileBag(env, h, f, g);
    }
    MapBagVia(BagOf, step, files, other);
    TraverseBag(step, files, other);
    AcceptedParts(env, h, files);
    if Traverse(step, files).Some? {
      AssembleBag(env, h, Traverse(step, files).value, Traverse(step, other).value);
    }
  }
}
