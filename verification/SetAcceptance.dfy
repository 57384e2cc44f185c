/** What a valid ChangeSet is, record by record, without tables or sort keys. */
module SetAcceptance {
  import opened Ordering
  import opened Sorting
  import opened ChangeModel
  import Validator = ChangeSetValidator
  import opened DiffAcceptance
  import opened DiffOutput

  // ---------------------------------------------------------- the description

  ghost predicate SourceFits(env: Env, cs: ChangeSet, s: SourceRef) {
    && Printable(s.repository) && Printable(s.revision) && env.pathOk(s.path)
    && s.id == env.hash(SourcePayload(s.repository, s.revision, s.path, s.contentHash))
    && s.repository == cs.header.repository && (s.revision == cs.header.base || s.revision == cs.header.head)
    && exists c :: c in cs.files && (c.oldRef == Some(s.id) || c.newRef == Some(s.id))
  }

  /** A reference names a source of that revision at that path. */
  ghost predicate RefFits(cs: ChangeSet, ref: Option<string>, revision: string, path: Option<string>) {
    ref.Some? ==> exists s :: s in cs.sources && s.id == ref.value && s.revision == revision && path == Some(s.path)
  }

  predicate RecordPathsFit(c: ChangedFile) {
    match c.status
    case Added => c.oldPath == None && c.newPath != None
    case Deleted => c.oldPath != None && c.newPath == None
    case Modified => c.oldPath != None && c.newPath == c.oldPath
    case Renamed => c.oldPath != None && c.newPath != None && c.newPath != c.oldPath
  }

  /** A binary file names no sources and no atoms; another one the sources of its status. */
  predicate RecordSidesFit(c: ChangedFile) {
    if c.isBinary then c.oldRef == None && c.newRef == None && c.atomIds == []
    else match c.status
      case Added => c.oldRef == None && c.newRef != None
      case Deleted => c.oldRef != None && c.newRef == None
      case Modified => c.oldRef != None && c.newRef != None && c.atomIds != []
      case Renamed => c.oldRef != None && c.newRef != None
  }

  /** The record on its own. */
  ghost predicate RecordFits(env: Env, c: ChangedFile) {
    && (c.oldPath.Some? ==> env.pathOk(c.oldPath.value)) && (c.newPath.Some? ==> env.pathOk(c.newPath.value))
    && (c.oldRef.Some? ==> Printable(c.oldRef.value)) && (c.newRef.Some? ==> Printable(c.newRef.value))
    && RecordPathsFit(c) && RecordSidesFit(c)
    && (forall i | 0 <= i < |c.atomIds| :: c.atomIds[i] != "")
    && (forall i, j | 0 <= i < j < |c.atomIds| :: c.atomIds[i] != c.atomIds[j])
    && c.id == env.hash(FilePayload(c.status, c.oldPath, c.newPath, c.oldRef, c.newRef, c.atomIds, c.isBinary))
  }

  /** An atom that names no other sources than the file. */
  predicate OfFile(c: ChangedFile, a: ChangeAtom) {
    && (a.oldRef == None || a.oldRef == c.oldRef)
    && (a.newRef == None || a.newRef == c.newRef)
  }

  ghost predicate NamesOwnAtom(cs: ChangeSet, c: ChangedFile, id: string) {
    exists a :: a in cs.atoms && a.id == id && OfFile(c, a)
  }

  /** The ids name atoms of the file, in order, and no line has two of them. */
  ghost predicate RecordAtomsFit(cs: ChangeSet, c: ChangedFile) {
    && (forall i | 0 <= i < |c.atomIds| :: NamesOwnAtom(cs, c, c.atomIds[i]))
    && (forall i, j, a, b | 0 <= i < j < |c.atomIds| && a in cs.atoms && b in cs.atoms && a.id == c.atomIds[i] && b.id == c.atomIds[j] ::
          AtomsInOrder(cs, a, b) && LinesOfTwo(a, b))
  }

  ghost predicate LinesOfTwo(a: ChangeAtom, b: ChangeAtom) {
    forall line: nat ::
      && (line in a.addedLines ==> line !in b.addedLines)
      && (line in a.deletedLines ==> line !in b.deletedLines)
  }

  ghost predicate FilesInOrder(cs: ChangeSet) {
    forall i, j | 0 <= i < j < |cs.files| :: !FileBefore(cs.files[j], cs.files[i])
  }

  ghost predicate AllFilesApart(cs: ChangeSet) {
    forall i, j | 0 <= i < j < |cs.files| :: FilesApart(cs.files[i], cs.files[j])
  }

  ghost predicate RecordsFit(env: Env, cs: ChangeSet) {
    forall c | c in cs.files :: EntryFits(env, cs, c)
  }

  /** The record, its atoms and its sources. */
  ghost predicate EntryFits(env: Env, cs: ChangeSet, c: ChangedFile) {
    && RecordFits(env, c) && RecordAtomsFit(cs, c)
    && RefFits(cs, c.oldRef, cs.header.base, c.oldPath) && RefFits(cs, c.newRef, cs.header.head, c.newPath)
  }

  /** No shared id, base path, head path or atom. */
  ghost predicate FilesApart(c: ChangedFile, d: ChangedFile) {
    && c.id != d.id
    && (c.oldPath.Some? ==> c.oldPath != d.oldPath) && (c.newPath.Some? ==> c.newPath != d.newPath)
    && forall id | id in c.atomIds :: id !in d.atomIds
  }

  ghost predicate Named(cs: ChangeSet, ref: Option<string>) {
    ref.Some? ==> exists s :: s in cs.sources && s.id == ref.value
  }

  ghost predicate InFile(files: seq<ChangedFile>, id: string) {
    exists c :: c in files && id in c.atomIds
  }

  ghost predicate AtomIdsApart(cs: ChangeSet) {
    forall i, j | 0 <= i < j < |cs.atoms| :: cs.atoms[i].id != cs.atoms[j].id
  }

  ghost predicate AtomsSorted(cs: ChangeSet) {
    forall i, j | 0 <= i < j < |cs.atoms| :: AtomsInOrder(cs, cs.atoms[i], cs.atoms[j])
  }

  ghost predicate AtomsNamed(cs: ChangeSet) {
    forall a | a in cs.atoms :: Named(cs, a.oldRef) && Named(cs, a.newRef)
  }

  ghost predicate AtomsOfVersion(cs: ChangeSet) {
    forall a | a in cs.atoms :: a.version == cs.header.version
  }

  ghost predicate AtomsInFiles(cs: ChangeSet) {
    forall a | a in cs.atoms :: InFile(cs.files, a.id)
  }

  ghost predicate SourcesOrdered(cs: ChangeSet) {
    forall i, j | 0 <= i < j < |cs.sources| :: TextBefore(cs.sources[i].id, cs.sources[j].id)
  }

  ghost predicate SourcesFit(env: Env, cs: ChangeSet) {
    forall s | s in cs.sources :: SourceFits(env, cs, s)
  }

  ghost predicate DiagnosticsFit(env: Env, cs: ChangeSet) {
    && (forall i, j | 0 <= i < j < |cs.diagnostics| :: TextBefore(cs.diagnostics[i].fileId, cs.diagnostics[j].fileId))
    && DiagnosticsMatch(env, cs)
  }

  ghost predicate ChangeSetFits(env: Env, cs: ChangeSet) {
    && HeaderFits(cs.header)
    && SourcesOrdered(cs) && SourcesFit(env, cs)
    && FilesInOrder(cs) && AllFilesApart(cs) && RecordsFit(env, cs)
    && AtomIdsApart(cs) && AtomsSorted(cs) && AtomsNamed(cs) && AtomsOfVersion(cs) && AtomsInFiles(cs)
    && DiagnosticsFit(env, cs)
    && cs.id == env.hash(SetPayload(cs.header, cs.sources, cs.files, cs.atoms, cs.diagnostics))
  }

  // ----------------------------------------------------------------- sources

  lemma SourceIdsOrdered(sources: seq<SourceRef>)
    ensures StrictlySorted(sources, SourceKey) <==> forall i, j | 0 <= i < j < |sources| :: TextBefore(sources[i].id, sources[j].id)
  {
    forall i, j | 0 <= i < j < |sources| ensures KeyLess(SourceKey(sources[i]), SourceKey(sources[j])) <==> TextBefore(sources[i].id, sources[j].id) {
      LastText(sources[i].id, sources[j].id);
    }
  }

  lemma TextBeforeDiffers(s: string, t: string)
    requires TextBefore(s, t)
    ensures s != t
  {
    TextLessIs(s, t);
    TextTrichotomy(s, s);
  }

  /** Looking up a source id among ordered sources finds the one that has it. */
  lemma SourceFound(cs: ChangeSet, id: string, s: SourceRef)
    requires SourcesOrdered(cs)
    ensures id in TableOf(cs.sources) && TableOf(cs.sources)[id] == s <==> s in cs.sources && s.id == id
  {
    forall x, y | x in cs.sources && y in cs.sources && IdOfSource(x) == IdOfSource(y) ensures x == y {
      var i :| 0 <= i < |cs.sources| && cs.sources[i] == x;
      var j :| 0 <= j < |cs.sources| && cs.sources[j] == y;
      if i < j {
        TextBeforeDiffers(x.id, y.id);
      } else if j < i {
        TextBeforeDiffers(y.id, x.id);
      }
    }
    TableByFinds(IdOfSource, cs.sources);
    TableByContents(IdOfSource, cs.sources);
    assert IdOfSource(s) == s.id;
  }

  lemma RefFitsIs(cs: ChangeSet, ref: Option<string>, revision: string, path: Option<string>)
    requires SourcesOrdered(cs)
    ensures RefFits(cs, ref, revision, path) <==> FileSourceOk(TableOf(cs.sources), ref, revision, path)
  {
    if ref.Some? {
      var table := TableOf(cs.sources);
      if ref.value in table {
        SourceFound(cs, ref.value, table[ref.value]);
      }
      forall s | s in cs.sources && s.id == ref.value ensures ref.value in table && table[ref.value] == s {
        SourceFound(cs, ref.value, s);
      }
    }
  }

  lemma NamedIs(cs: ChangeSet, ref: Option<string>)
    ensures Named(cs, ref) <==> KnownSource(TableOf(cs.sources), ref)
  {
    TableByContents(IdOfSource, cs.sources);
    assert forall s: SourceRef :: IdOfSource(s) == s.id;
  }

  lemma ReferencedIs(files: seq<ChangedFile>, id: string)
    ensures id in ReferencedIds(files) <==> exists c :: c in files && (c.oldRef == Some(id) || c.newRef == Some(id))
  {
    FlatMember(RefsOf, files, id);
    forall c ensures id in RefsOf(c) <==> c.oldRef == Some(id) || c.newRef == Some(id) {
    }
  }

  /** A source on its own. */
  ghost predicate SourceOk(env: Env, cs: ChangeSet, s: SourceRef) {
    SourceRefOk(env, s) && s.repository == cs.header.repository && s.revision in {cs.header.base, cs.header.head}
  }

  lemma SourceFitsIs(env: Env, cs: ChangeSet, s: SourceRef)
    ensures SourceFits(env, cs, s) <==> SourceOk(env, cs, s) && s.id in ReferencedIds(cs.files)
  {
    PrintableIs(s.repository);
    PrintableIs(s.revision);
    ReferencedIs(cs.files, s.id);
  }

  lemma AllReferencedIs(cs: ChangeSet)
    requires forall c | c in cs.files :: Named(cs, c.oldRef) && Named(cs, c.newRef)
    ensures (set id | id in ReferencedIds(cs.files)) == (set s | s in cs.sources :: s.id)
       <==> forall s | s in cs.sources :: s.id in ReferencedIds(cs.files)
  {
    var referenced, ids := set id | id in ReferencedIds(cs.files), set s | s in cs.sources :: s.id;
    forall id | id in referenced ensures id in ids {
      ReferencedIs(cs.files, id);
    }
    forall s | s in cs.sources ensures s.id in ids {
    }
    assert referenced <= ids;
    if forall s | s in cs.sources :: s.id in ReferencedIds(cs.files) {
      assert ids <= referenced;
    }
    if referenced == ids {
      assert forall s | s in cs.sources :: s.id in referenced;
    }
  }

  lemma SourcesOkIs(env: Env, cs: ChangeSet)
    ensures SourcesOk(env, cs) <==> SourcesOrdered(cs) && forall s | s in cs.sources :: SourceOk(env, cs, s)
  {
    SourceIdsOrdered(cs.sources);
    if SourcesOk(env, cs) {
      forall s | s in cs.sources ensures SourceOk(env, cs, s) {
        var i :| 0 <= i < |cs.sources| && cs.sources[i] == s;
      }
    }
    if SourcesOrdered(cs) && forall s | s in cs.sources :: SourceOk(env, cs, s) {
      forall i | 0 <= i < |cs.sources| ensures SourceOk(env, cs, cs.sources[i]) {
        assert cs.sources[i] in cs.sources;
      }
    }
  }

  lemma SourcesFitIs(env: Env, cs: ChangeSet)
    requires SourcesOrdered(cs) && forall c | c in cs.files :: Named(cs, c.oldRef) && Named(cs, c.newRef)
    ensures SourcesFit(env, cs) <==>
      SourcesOk(env, cs) && (set id | id in ReferencedIds(cs.files)) == (set s | s in cs.sources :: s.id)
  {
    SourcesOkIs(env, cs);
    AllReferencedIs(cs);
    forall s | s in cs.sources {
      SourceFitsIs(env, cs, s);
    }
  }

  // ------------------------------------------------------------------- atoms

  lemma PathSaidOnce(cs: ChangeSet, ref: Option<string>, path: string)
    requires SourcesOrdered(cs)
    requires KnownSource(TableOf(cs.sources), ref)
    ensures PathSaid(cs, ref, path) <==> path == RefPath(TableOf(cs.sources), ref)
  {
    PathSaidIs(cs, ref);
    if ref.Some? {
      forall s | s in cs.sources && s.id == ref.value ensures TableOf(cs.sources)[ref.value] == s {
        SourceFound(cs, ref.value, s);
      }
    }
  }

  lemma PathsSaid(cs: ChangeSet, a: ChangeAtom)
    requires SourcesOrdered(cs)
    requires KnownSources(TableOf(cs.sources), a)
    ensures forall path :: PathSaid(cs, a.oldRef, path) <==> path == RefPath(TableOf(cs.sources), a.oldRef)
    ensures forall path :: PathSaid(cs, a.newRef, path) <==> path == RefPath(TableOf(cs.sources), a.newRef)
  {
    forall path ensures PathSaid(cs, a.oldRef, path) <==> path == RefPath(TableOf(cs.sources), a.oldRef) {
      PathSaidOnce(cs, a.oldRef, path);
    }
    forall path ensures PathSaid(cs, a.newRef, path) <==> path == RefPath(TableOf(cs.sources), a.newRef) {
      PathSaidOnce(cs, a.newRef, path);
    }
  }

  lemma AtomsInOrderIs(cs: ChangeSet, a: ChangeAtom, b: ChangeAtom)
    requires SourcesOrdered(cs)
    requires KnownSources(TableOf(cs.sources), a) && KnownSources(TableOf(cs.sources), b)
    ensures AtomsInOrder(cs, a, b) <==> !KeyLess(AtomOrder(TableOf(cs.sources))(b), AtomOrder(TableOf(cs.sources))(a))
  {
    AtomOrderIs(TableOf(cs.sources), b, a);
    PathsSaid(cs, a);
    PathsSaid(cs, b);
  }

  /** The conditions under which atoms can be looked up and compared. */
  ghost predicate Usable(cs: ChangeSet) {
    SourcesOrdered(cs) && (forall a | a in cs.atoms :: KnownSources(TableOf(cs.sources), a)) && AtomIdsApart(cs)
  }

  lemma AtomFound(cs: ChangeSet, id: string, a: ChangeAtom)
    requires Usable(cs)
    ensures id in AtomTable(cs.atoms) && AtomTable(cs.atoms)[id] == a <==> a in cs.atoms && a.id == id
  {
    forall x, y | x in cs.atoms && y in cs.atoms && IdOfAtom(x) == IdOfAtom(y) ensures x == y {
      var i :| 0 <= i < |cs.atoms| && cs.atoms[i] == x;
      var j :| 0 <= j < |cs.atoms| && cs.atoms[j] == y;
    }
    TableByFinds(IdOfAtom, cs.atoms);
    TableByContents(IdOfAtom, cs.atoms);
    assert IdOfAtom(a) == a.id;
  }

  lemma SortedAtomsIs(cs: ChangeSet, atoms: seq<ChangeAtom>)
    requires Usable(cs) && forall a | a in atoms :: a in cs.atoms
    ensures Sorted(atoms, AtomOrder(TableOf(cs.sources))) <==> forall i, j | 0 <= i < j < |atoms| :: AtomsInOrder(cs, atoms[i], atoms[j])
  {
    var order := AtomOrder(TableOf(cs.sources));
    forall i, j | 0 <= i < j < |atoms|
      ensures AtomsInOrder(cs, atoms[i], atoms[j]) <==> !KeyLess(order(atoms[j]), order(atoms[i]))
    {
      assert atoms[i] in atoms && atoms[j] in atoms;
      AtomsInOrderIs(cs, atoms[i], atoms[j]);
    }
  }

  /** Atoms told apart by id are sorted exactly when their ids read as after sorting. */
  lemma SortedIdsIs(atoms: seq<ChangeAtom>, order: ChangeAtom -> Key)
    requires forall a, b | a in atoms && b in atoms && a.id == b.id :: a == b
    ensures AtomIds(atoms) == AtomIds(SortBy(atoms, order)) <==> Sorted(atoms, order)
  {
    var sorted := SortBy(atoms, order);
    SortBySorts(atoms, order);
    SortedFixpoint(atoms, order);
    if AtomIds(atoms) == AtomIds(sorted) {
      forall i | 0 <= i < |atoms| ensures atoms[i] == sorted[i] {
        assert AtomIds(atoms)[i] == AtomIds(sorted)[i] && sorted[i] in atoms && atoms[i] in atoms;
      }
    }
  }

  lemma AtomListIs(cs: ChangeSet)
    requires Usable(cs)
    ensures cs.atoms == SortBy(cs.atoms, AtomOrder(TableOf(cs.sources)))
       <==> AtomsSorted(cs)
  {
    SortedFixpoint(cs.atoms, AtomOrder(TableOf(cs.sources)));
    SortedAtomsIs(cs, cs.atoms);
  }

  // ------------------------------------------------------------- file records

  lemma RecordFitsIs(env: Env, c: ChangedFile)
    ensures RecordFits(env, c) <==> FileOk(env, c)
  {
    if c.oldRef.Some? {
      PrintableIs(c.oldRef.value);
    }
    if c.newRef.Some? {
      PrintableIs(c.newRef.value);
    }
    DistinctIs(c.atomIds);
  }

  lemma DistinctIs(ids: seq<string>)
    ensures NoRepeats(ids) <==> forall i, j | 0 <= i < j < |ids| :: ids[i] != ids[j]
  {
    if NoRepeats(ids) {
      forall i, j | 0 <= i < j < |ids| ensures ids[i] != ids[j] {
        NoRepeatsIndices(ids, i, j);
      }
    }
    if forall i, j | 0 <= i < j < |ids| :: ids[i] != ids[j] {
      DistinctIndicesNoRepeats(ids);
    }
  }

  /** Every id of the record names an atom of the set. */
  ghost predicate AllNamed(cs: ChangeSet, c: ChangedFile) {
    forall i | 0 <= i < |c.atomIds| :: NamesAtom(cs, c.atomIds[i])
  }

  ghost predicate NamesAtom(cs: ChangeSet, id: string) {
    exists a :: a in cs.atoms && a.id == id
  }

  lemma LookupSucceedsIff(cs: ChangeSet, c: ChangedFile)
    requires Usable(cs)
    ensures FileAtoms(AtomTable(cs.atoms), c).Some? <==> AllNamed(cs, c)
    ensures FileAtoms(AtomTable(cs.atoms), c).Some? ==>
      Resolves(cs, c, FileAtoms(AtomTable(cs.atoms), c).value)
  {
    var byId := AtomTable(cs.atoms);
    TraverseSpec(Lookup(byId), c.atomIds);
    forall id ensures Lookup(byId)(id).Some? <==> NamesAtom(cs, id) {
      if id in byId {
        AtomFound(cs, id, byId[id]);
      }
      if a :| a in cs.atoms && a.id == id {
        AtomFound(cs, id, a);
      }
    }
    if AllNamed(cs, c) {
      forall id | id in c.atomIds ensures Lookup(byId)(id).Some? {
        var i :| 0 <= i < |c.atomIds| && c.atomIds[i] == id;
      }
    }
    if FileAtoms(byId, c).Some? {
      forall i | 0 <= i < |c.atomIds| ensures c.atomIds[i] in c.atomIds && Lookup(byId)(c.atomIds[i]) == Some(FileAtoms(byId, c).value[i]) {
      }
      forall i | 0 <= i < |c.atomIds| {
        AtomFound(cs, c.atomIds[i], FileAtoms(byId, c).value[i]);
      }
    }
  }

  /** The atoms with the record's ids, one by one. */
  ghost predicate Resolves(cs: ChangeSet, c: ChangedFile, atoms: seq<ChangeAtom>) {
    |atoms| == |c.atomIds| && forall i | 0 <= i < |atoms| :: atoms[i] in cs.atoms && atoms[i].id == c.atomIds[i]
  }

  lemma IdsGiveAtoms(cs: ChangeSet, a: ChangeAtom, b: ChangeAtom)
    requires Usable(cs) && a in cs.atoms && b in cs.atoms && a.id == b.id
    ensures a == b
  {
    var i :| 0 <= i < |cs.atoms| && cs.atoms[i] == a;
    var j :| 0 <= j < |cs.atoms| && cs.atoms[j] == b;
  }

  lemma ResolvedFitsIs(cs: ChangeSet, c: ChangedFile, atoms: seq<ChangeAtom>)
    requires Usable(cs) && Resolves(cs, c, atoms)
    ensures RecordAtomsFit(cs, c) <==>
      && (forall i | 0 <= i < |atoms| :: OfFile(c, atoms[i]))
      && forall i, j | 0 <= i < j < |atoms| :: AtomsInOrder(cs, atoms[i], atoms[j]) && LinesOfTwo(atoms[i], atoms[j])
  {
    forall i, a | 0 <= i < |atoms| && a in cs.atoms && a.id == c.atomIds[i] ensures a == atoms[i] {
      IdsGiveAtoms(cs, a, atoms[i]);
    }
    if RecordAtomsFit(cs, c) {
      forall i | 0 <= i < |atoms| ensures OfFile(c, atoms[i]) {
        assert NamesOwnAtom(cs, c, c.atomIds[i]);
        var a :| a in cs.atoms && a.id == c.atomIds[i] && OfFile(c, a);
      }
    }
    if forall i | 0 <= i < |atoms| :: OfFile(c, atoms[i]) {
      forall i | 0 <= i < |c.atomIds| ensures NamesOwnAtom(cs, c, c.atomIds[i]) {
        assert OfFile(c, atoms[i]) && atoms[i] in cs.atoms;
      }
    }
  }

  lemma LinesOfTwoIs(atoms: seq<ChangeAtom>)
    requires forall a | a in atoms :: LinesOk(a.addedLines) && LinesOk(a.deletedLines)
    ensures OneAtomPerLine(atoms) <==> forall i, j | 0 <= i < j < |atoms| :: LinesOfTwo(atoms[i], atoms[j])
  {
    forall a | a in atoms ensures NoRepeats(AddedOf(a)) && NoRepeats(DeletedOf(a)) {
      LinesNoRepeats(a.addedLines);
      LinesNoRepeats(a.deletedLines);
    }
    FlatApartIff(AddedOf, atoms);
    FlatApartIff(DeletedOf, atoms);
    if OneAtomPerLine(atoms) {
      forall i, j | 0 <= i < j < |atoms| ensures LinesOfTwo(atoms[i], atoms[j]) {
        assert forall line: nat | line in AddedOf(atoms[i]) :: line !in AddedOf(atoms[j]);
        assert forall line: nat | line in DeletedOf(atoms[i]) :: line !in DeletedOf(atoms[j]);
      }
    }
    if forall i, j | 0 <= i < j < |atoms| :: LinesOfTwo(atoms[i], atoms[j]) {
      forall i, j, line: nat | 0 <= i < j < |atoms| && line in AddedOf(atoms[i]) ensures line !in AddedOf(atoms[j]) {
        assert LinesOfTwo(atoms[i], atoms[j]);
      }
      forall i, j, line: nat | 0 <= i < j < |atoms| && line in DeletedOf(atoms[i]) ensures line !in DeletedOf(atoms[j]) {
        assert LinesOfTwo(atoms[i], atoms[j]);
      }
    }
  }

  lemma BelongsIs(c: ChangedFile, a: ChangeAtom)
    ensures OfFile(c, a) <==> AtomBelongs(c, a)
  {
  }

  /** The entry's clauses about atoms. */
  ghost predicate EntryAtomsOk(cs: ChangeSet, c: ChangedFile) {
    var table, atoms := TableOf(cs.sources), FileAtoms(AtomTable(cs.atoms), c);
    && atoms.Some?
    && (forall i | 0 <= i < |atoms.value| :: AtomBelongs(c, atoms.value[i]) && KnownSources(table, atoms.value[i]))
    && c.atomIds == AtomIds(SortBy(atoms.value, AtomOrder(table)))
    && OneAtomPerLine(atoms.value)
  }

  lemma ResolvedOk(env: Env, cs: ChangeSet, c: ChangedFile, atoms: seq<ChangeAtom>)
    requires Usable(cs) && (forall a | a in cs.atoms :: AtomOk(env, a)) && Resolves(cs, c, atoms)
    ensures RecordAtomsFit(cs, c) <==>
      && (forall i | 0 <= i < |atoms| :: AtomBelongs(c, atoms[i]))
      && Sorted(atoms, AtomOrder(TableOf(cs.sources))) && OneAtomPerLine(atoms)
  {
    ResolvedFitsIs(cs, c, atoms);
    forall a | a in atoms ensures a in cs.atoms {
      var i :| 0 <= i < |atoms| && atoms[i] == a;
    }
    forall a | a in atoms ensures LinesOk(a.addedLines) && LinesOk(a.deletedLines) {
      assert AtomOk(env, a);
    }
    LinesOfTwoIs(atoms);
    SortedAtomsIs(cs, atoms);
    forall i | 0 <= i < |atoms| {
      BelongsIs(c, atoms[i]);
    }
  }

  lemma ResolvedIdsTell(cs: ChangeSet, c: ChangedFile, atoms: seq<ChangeAtom>)
    requires Usable(cs) && Resolves(cs, c, atoms)
    ensures forall a, b | a in atoms && b in atoms && a.id == b.id :: a == b
    ensures AtomIds(atoms) == c.atomIds
  {
    forall a | a in atoms ensures a in cs.atoms {
      var i :| 0 <= i < |atoms| && atoms[i] == a;
    }
    forall a, b | a in atoms && b in atoms && a.id == b.id ensures a == b {
      IdsGiveAtoms(cs, a, b);
    }
  }

  lemma ResolvedIdsSorted(cs: ChangeSet, c: ChangedFile, atoms: seq<ChangeAtom>)
    requires Usable(cs) && Resolves(cs, c, atoms)
    ensures c.atomIds == AtomIds(SortBy(atoms, AtomOrder(TableOf(cs.sources)))) <==> Sorted(atoms, AtomOrder(TableOf(cs.sources)))
  {
    ResolvedIdsTell(cs, c, atoms);
    SortedIdsIs(atoms, AtomOrder(TableOf(cs.sources)));
  }

  lemma RecordAtomsFitIs(env: Env, cs: ChangeSet, c: ChangedFile)
    requires Usable(cs) && forall a | a in cs.atoms :: AtomOk(env, a)
    ensures RecordAtomsFit(cs, c) <==> EntryAtomsOk(cs, c)
  {
    LookupSucceedsIff(cs, c);
    var found := FileAtoms(AtomTable(cs.atoms), c);
    if found.Some? {
      ResolvedOk(env, cs, c, found.value);
      ResolvedIdsSorted(cs, c, found.value);
    }
  }

  // ------------------------------------------------------------- the file list

  lemma PathShared(p: Option<string>, q: Option<string>)
    ensures !Shared(OptionList(p), OptionList(q)) <==> (p.Some? ==> p != q)
  {
    SharedPath(p, q);
  }

  lemma ListsOfFilesApart(files: seq<ChangedFile>)
    requires forall c | c in files :: NoRepeats(c.atomIds)
    ensures NoRepeats(Map(IdOfFile, files)) && PathsUnique(files) && NoRepeats(Flat(AtomIdsOf, files))
       <==> forall i, j | 0 <= i < j < |files| :: FilesApart(files[i], files[j])
  {
    forall c | c in files ensures NoRepeats(OldPathOf(c)) && NoRepeats(NewPathOf(c)) && NoRepeats(AtomIdsOf(c)) {
      DistinctIndicesNoRepeats(OldPathOf(c));
      DistinctIndicesNoRepeats(NewPathOf(c));
    }
    ListsApartIff(OldPathOf, files);
    ListsApartIff(NewPathOf, files);
    ListsApartIff(AtomIdsOf, files);
    DistinctIs(Map(IdOfFile, files));
    forall i, j | 0 <= i < j < |files|
      ensures FilesApart(files[i], files[j]) <==>
        && Map(IdOfFile, files)[i] != Map(IdOfFile, files)[j]
        && !Shared(OldPathOf(files[i]), OldPathOf(files[j])) && !Shared(NewPathOf(files[i]), NewPathOf(files[j]))
        && !Shared(AtomIdsOf(files[i]), AtomIdsOf(files[j]))
    {
      PathShared(files[i].oldPath, files[j].oldPath);
      PathShared(files[i].newPath, files[j].newPath);
    }
  }

  lemma FilesSortedIs(files: seq<ChangedFile>)
    ensures Sorted(files, FileKey) <==> forall i, j | 0 <= i < j < |files| :: !FileBefore(files[j], files[i])
  {
    forall i, j | 0 <= i < j < |files| ensures KeyLess(FileKey(files[j]), FileKey(files[i])) <==> FileBefore(files[j], files[i]) {
      FileOrderIs(files[j], files[i]);
    }
  }

  lemma ListedIs(files: seq<ChangedFile>, id: string)
    ensures id in Flat(AtomIdsOf, files) <==> InFile(files, id)
  {
    FlatMember(AtomIdsOf, files, id);
    if c :| c in files && id in c.atomIds {
      assert id in AtomIdsOf(c);
    }
  }

  /** With all ids resolved, atoms sit in exactly one file exactly when no two files
      share an atom and every atom is in some file. */
  lemma OwnersAreIs(cs: ChangeSet)
    requires Usable(cs) && (forall c | c in cs.files :: NoRepeats(c.atomIds) && AllNamed(cs, c))
    ensures multiset(Flat(AtomIdsOf, cs.files)) == multiset(AtomIds(cs.atoms)) <==>
      NoRepeats(Flat(AtomIdsOf, cs.files)) && forall a | a in cs.atoms :: InFile(cs.files, a.id)
  {
    var ids, all := AtomIds(cs.atoms), Flat(AtomIdsOf, cs.files);
    DistinctIs(ids);
    forall id ensures id in all <==> InFile(cs.files, id) {
      ListedIs(cs.files, id);
    }
    if multiset(all) == multiset(ids) {
      NoRepeatsBag(ids, all);
      forall a | a in cs.atoms ensures InFile(cs.files, a.id) {
        AtomIdListed(cs.atoms, a);
        assert a.id in multiset(ids) && a.id in multiset(all) && a.id in all;
      }
    }
    if NoRepeats(all) && forall a | a in cs.atoms :: InFile(cs.files, a.id) {
      AllListed(cs);
      SameElementsSameBag(all, ids);
    }
  }

  lemma AllListed(cs: ChangeSet)
    requires forall c | c in cs.files :: AllNamed(cs, c)
    requires forall a | a in cs.atoms :: InFile(cs.files, a.id)
    ensures forall id :: id in Flat(AtomIdsOf, cs.files) <==> id in AtomIds(cs.atoms)
  {
    forall id ensures id in Flat(AtomIdsOf, cs.files) <==> id in AtomIds(cs.atoms) {
      ListedIs(cs.files, id);
      if c :| c in cs.files && id in c.atomIds {
        NamedId(cs, c, id);
      }
      if id in AtomIds(cs.atoms) {
        var i :| 0 <= i < |cs.atoms| && AtomIds(cs.atoms)[i] == id;
        assert cs.atoms[i] in cs.atoms;
      }
    }
  }

  lemma NamedId(cs: ChangeSet, c: ChangedFile, id: string)
    requires AllNamed(cs, c) && id in c.atomIds
    ensures id in AtomIds(cs.atoms)
  {
    var i :| 0 <= i < |c.atomIds| && c.atomIds[i] == id;
    assert NamesAtom(cs, c.atomIds[i]);
    var a :| a in cs.atoms && a.id == c.atomIds[i];
    AtomIdListed(cs.atoms, a);
  }

  lemma AtomIdListed(atoms: seq<ChangeAtom>, a: ChangeAtom)
    requires a in atoms
    ensures a.id in AtomIds(atoms)
  {
    var i :| 0 <= i < |atoms| && atoms[i] == a;
    assert AtomIds(atoms)[i] == a.id;
  }

  // ------------------------------------------------------------- the whole set

  ghost predicate FileIdsTell(files: seq<ChangedFile>) {
    forall c, d | c in files && d in files && c.id == d.id :: c == d
  }

  lemma DiagnosticsIs(env: Env, cs: ChangeSet)
    requires FileIdsTell(cs.files)
    ensures DiagnosticsFit(env, cs) <==> DiagnosticsOk(env, cs)
  {
    if DiagnosticsOk(env, cs) {
      DiagnosticOrder(cs.diagnostics);
      forall d ensures d in cs.diagnostics <==> BinaryFile(env, cs.files, d) {
        if d in cs.diagnostics {
          DiagnosedIsBinary(env, cs, d);
        }
        if BinaryFile(env, cs.files, d) {
          BinaryIsDiagnosed(env, cs, d);
        }
      }
    }
    if DiagnosticsFit(env, cs) {
      DiagnosticsSorted(env, cs);
    }
  }

  lemma DiagnosticIsMade(env: Env, cs: ChangeSet, d: Diagnostic)
    requires DiagnosticsOk(env, cs) && d in cs.diagnostics
    ensures d == DiagnosticOf(env, d.fileId)
  {
    var i :| 0 <= i < |cs.diagnostics| && cs.diagnostics[i] == d;
  }

  lemma DiagnosedIsBinary(env: Env, cs: ChangeSet, d: Diagnostic)
    requires DiagnosticsOk(env, cs) && d in cs.diagnostics
    ensures BinaryFile(env, cs.files, d)
  {
    DiagnosticIsMade(env, cs, d);
    var f :| f in cs.files && f.id == d.fileId;
    assert f.isBinary;
  }

  lemma BinaryIsDiagnosed(env: Env, cs: ChangeSet, d: Diagnostic)
    requires DiagnosticsOk(env, cs) && BinaryFile(env, cs.files, d)
    ensures d in cs.diagnostics
  {
    var c :| c in cs.files && c.isBinary && d.fileId == c.id && d.id == env.hash(DiagnosticPayload(c.id));
    var e :| e in cs.diagnostics && e.fileId == c.id;
    DiagnosticIsMade(env, cs, e);
  }

  lemma DiagnosticsSorted(env: Env, cs: ChangeSet)
    requires DiagnosticsFit(env, cs) && FileIdsTell(cs.files)
    ensures DiagnosticsOk(env, cs)
  {
    var ds := cs.diagnostics;
    forall i, j | 0 <= i < j < |ds| ensures KeyLess(DiagnosticKey(ds[i]), DiagnosticKey(ds[j])) && ds[i].fileId != ds[j].fileId {
      TextBeforeDiffers(ds[i].fileId, ds[j].fileId);
      DiagnosticsBefore(ds[i], ds[j]);
    }
    forall i | 0 <= i < |ds| ensures ds[i] == DiagnosticOf(env, ds[i].fileId) {
      assert BinaryFile(env, cs.files, ds[i]);
    }
    forall f | f in cs.files && f.isBinary ensures exists d :: d in ds && d.fileId == f.id {
      assert BinaryFile(env, cs.files, DiagnosticOf(env, f.id));
    }
    forall d | d in ds ensures exists f :: f in cs.files && f.isBinary && f.id == d.fileId {
      assert BinaryFile(env, cs.files, d);
    }
  }

  // Both readings of a set, clause group by clause group, once its atoms are usable.

  lemma FileEntriesIs(env: Env, cs: ChangeSet)
    requires Usable(cs) && forall a | a in cs.atoms :: AtomOk(env, a)
    ensures FileEntriesOk(env, cs) <==> RecordsFit(env, cs)
  {
    forall c ensures FileEntryOk(env, cs.header, TableOf(cs.sources), AtomTable(cs.atoms), c) <==> EntryFits(env, cs, c) {
      EntryIs(env, cs, c);
    }
    EntriesByElement(env, cs);
  }

  lemma EntriesByElement(env: Env, cs: ChangeSet)
    ensures FileEntriesOk(env, cs) <==>
      forall c | c in cs.files :: FileEntryOk(env, cs.header, TableOf(cs.sources), AtomTable(cs.atoms), c)
  {
    if FileEntriesOk(env, cs) {
      forall c | c in cs.files ensures FileEntryOk(env, cs.header, TableOf(cs.sources), AtomTable(cs.atoms), c) {
        var i :| 0 <= i < |cs.files| && cs.files[i] == c;
      }
    }
  }

  lemma EntryIs(env: Env, cs: ChangeSet, c: ChangedFile)
    requires Usable(cs) && forall a | a in cs.atoms :: AtomOk(env, a)
    ensures FileEntryOk(env, cs.header, TableOf(cs.sources), AtomTable(cs.atoms), c) <==> EntryFits(env, cs, c)
  {
    RecordFitsIs(env, c);
    RecordAtomsFitIs(env, cs, c);
    RefFitsIs(cs, c.oldRef, cs.header.base, c.oldPath);
    RefFitsIs(cs, c.newRef, cs.header.head, c.newPath);
  }

  /** The lists of a set whose records fit. */
  lemma ListsIs(cs: ChangeSet)
    requires Usable(cs)
    requires forall c | c in cs.files :: NoRepeats(c.atomIds) && AllNamed(cs, c)
    ensures FileListOk(cs) && multiset(Flat(AtomIdsOf, cs.files)) == multiset(AtomIds(cs.atoms))
       <==> FilesInOrder(cs) && AllFilesApart(cs) && AtomsInFiles(cs)
  {
    FilesSortedIs(cs.files);
    ListsOfFilesApart(cs.files);
    OwnersAreIs(cs);
  }

  lemma RecordsNamed(env: Env, cs: ChangeSet, c: ChangedFile)
    requires RecordFits(env, c) && RecordAtomsFit(cs, c)
    ensures NoRepeats(c.atomIds) && AllNamed(cs, c)
  {
    DistinctIs(c.atomIds);
    forall i | 0 <= i < |c.atomIds| ensures NamesAtom(cs, c.atomIds[i]) {
      assert NamesOwnAtom(cs, c, c.atomIds[i]);
    }
  }

  lemma RefNames(cs: ChangeSet, ref: Option<string>, revision: string, path: Option<string>)
    requires RefFits(cs, ref, revision, path)
    ensures Named(cs, ref)
  {
  }

  lemma FileIdsFromLists(cs: ChangeSet)
    requires NoRepeats(Map(IdOfFile, cs.files))
    ensures FileIdsTell(cs.files)
  {
    DistinctIs(Map(IdOfFile, cs.files));
    forall c, d | c in cs.files && d in cs.files && c.id == d.id ensures c == d {
      var i :| 0 <= i < |cs.files| && cs.files[i] == c;
      var j :| 0 <= j < |cs.files| && cs.files[j] == d;
      assert Map(IdOfFile, cs.files)[i] == c.id && Map(IdOfFile, cs.files)[j] == d.id;
    }
  }

  /** What both readings agree on before the records: ordered sources, known and distinct atoms. */
  lemma UsableIs(env: Env, cs: ChangeSet)
    ensures ChangeSetOk(env, cs) ==> Usable(cs)
    ensures ChangeSetFits(env, cs) ==> Usable(cs)
  {
    SourceIdsOrdered(cs.sources);
    DistinctIs(AtomIds(cs.atoms));
    if ChangeSetOk(env, cs) {
      forall a | a in cs.atoms ensures KnownSources(TableOf(cs.sources), a) {
        var i :| 0 <= i < |cs.atoms| && cs.atoms[i] == a;
      }
      forall i, j | 0 <= i < j < |cs.atoms| ensures cs.atoms[i].id != cs.atoms[j].id {
        assert AtomIds(cs.atoms)[i] != AtomIds(cs.atoms)[j];
      }
    }
    if ChangeSetFits(env, cs) {
      forall a | a in cs.atoms ensures KnownSources(TableOf(cs.sources), a) {
        NamedIs(cs, a.oldRef);
        NamedIs(cs, a.newRef);
      }
    }
  }

  lemma FilesNamed(env: Env, cs: ChangeSet)
    requires RecordsFit(env, cs)
    ensures forall c | c in cs.files :: NoRepeats(c.atomIds) && AllNamed(cs, c)
    ensures forall c | c in cs.files :: Named(cs, c.oldRef) && Named(cs, c.newRef)
  {
    forall c | c in cs.files
      ensures NoRepeats(c.atomIds) && AllNamed(cs, c)
      ensures Named(cs, c.oldRef) && Named(cs, c.newRef)
    {
      assert EntryFits(env, cs, c);
      RecordsNamed(env, cs, c);
      RefNames(cs, c.oldRef, cs.header.base, c.oldPath);
      RefNames(cs, c.newRef, cs.header.head, c.newPath);
    }
  }

  lemma RestIs(env: Env, cs: ChangeSet)
    requires Usable(cs) && RecordsFit(env, cs)
    ensures SourcesOk(env, cs) && FileListOk(cs) && OwnershipOk(cs)
       <==> SourcesFit(env, cs) && FilesInOrder(cs) && AllFilesApart(cs) && AtomsInFiles(cs)
  {
    FilesNamed(env, cs);
    SourcesFitIs(env, cs);
    ListsIs(cs);
  }

  lemma AtomsIs(cs: ChangeSet)
    requires Usable(cs)
    ensures AtomListOk(cs) <==> AtomsSorted(cs) && AtomsOfVersion(cs)
  {
    DistinctIs(AtomIds(cs.atoms));
    forall i, j | 0 <= i < j < |cs.atoms| ensures AtomIds(cs.atoms)[i] != AtomIds(cs.atoms)[j] {
    }
    AtomListIs(cs);
    if AtomListOk(cs) {
      forall a | a in cs.atoms ensures a.version == cs.header.version {
        var i :| 0 <= i < |cs.atoms| && cs.atoms[i] == a;
      }
    }
  }

  lemma AtomsAreNamed(cs: ChangeSet)
    requires Usable(cs)
    ensures AtomsNamed(cs)
  {
    forall a | a in cs.atoms ensures Named(cs, a.oldRef) && Named(cs, a.newRef) {
      NamedIs(cs, a.oldRef);
      NamedIs(cs, a.newRef);
    }
  }

  ghost predicate IdIsHash(env: Env, cs: ChangeSet) {
    cs.id == env.hash(SetPayload(cs.header, cs.sources, cs.files, cs.atoms, cs.diagnostics))
  }

  lemma OkParts(env: Env, cs: ChangeSet)
    ensures ChangeSetOk(env, cs) <==>
      && HeaderOk(cs.header) && FileEntriesOk(env, cs) && AtomListOk(cs)
      && (SourcesOk(env, cs) && FileListOk(cs) && OwnershipOk(cs)) && DiagnosticsOk(env, cs) && IdIsHash(env, cs)
  {
  }

  lemma FitsParts(env: Env, cs: ChangeSet)
    requires Usable(cs)
    ensures ChangeSetFits(env, cs) <==>
      && HeaderFits(cs.header) && RecordsFit(env, cs) && (AtomsSorted(cs) && AtomsOfVersion(cs))
      && (SourcesFit(env, cs) && FilesInOrder(cs) && AllFilesApart(cs) && AtomsInFiles(cs))
      && DiagnosticsFit(env, cs) && IdIsHash(env, cs)
  {
    AtomsAreNamed(cs);
  }

  lemma DiagnosticsOfFiles(env: Env, cs: ChangeSet)
    requires FileListOk(cs)
    ensures DiagnosticsFit(env, cs) <==> DiagnosticsOk(env, cs)
  {
    FileIdsFromLists(cs);
    DiagnosticsIs(env, cs);
  }

  /** A set of valid atoms is valid exactly when its records fit together. */
  lemma ValidIffFits(env: Env, cs: ChangeSet)
    requires forall a | a in cs.atoms :: AtomOk(env, a)
    ensures ChangeSetOk(env, cs) <==> ChangeSetFits(env, cs)
  {
    UsableIs(env, cs);
    if Usable(cs) {
      OkParts(env, cs);
      FitsParts(env, cs);
      HeaderIs(cs.header);
      FileEntriesIs(env, cs);
      AtomsIs(cs);
      if RecordsFit(env, cs) {
        RestIs(env, cs);
        if FileListOk(cs) {
          DiagnosticsOfFiles(env, cs);
        }
      }
    }
  }

  /** `ChangeSet.validate`, for atoms that passed their own checks. */
  method ValidateChangeSet(env: Env, cs: ChangeSet) returns (ok: bool)
    requires forall a | a in cs.atoms :: AtomOk(env, a)
    ensures ok <==> ChangeSetFits(env, cs)
  {
    ValidIffFits(env, cs);
    ok := Validator.Validate(env, cs);
  }
}
