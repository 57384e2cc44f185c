/** `ChangeSet.validate` as it runs: dictionaries, accumulators and early exits. */
module ChangeSetValidator {
  import opened Ordering
  import opened Sorting
  import opened ChangeModel

  /** `sorted(xs) == sorted(ys)` compares the two bags. */
  lemma SortedTextsEqualIff(xs: seq<string>, ys: seq<string>)
    ensures SortBy(xs, TextKey) == SortBy(ys, TextKey) <==> multiset(xs) == multiset(ys)
  {
    SortBySorts(xs, TextKey);
    SortBySorts(ys, TextKey);
    if multiset(xs) == multiset(ys) {
      SortByCanonical(xs, ys, TextKey);
    }
  }

  /** The loop over the sources. */
  method CheckSources(env: Env, cs: ChangeSet) returns (ok: bool)
    ensures ok == SourcesOk(env, cs)
  {
    if !StrictlySorted(cs.sources, SourceKey) {
      return false;
    }
    for n := 0 to |cs.sources|
      invariant forall i | 0 <= i < n ::
        && SourceRefOk(env, cs.sources[i])
        && cs.sources[i].repository == cs.header.repository
        && cs.sources[i].revision in {cs.header.base, cs.header.head}
    {
      var source := cs.sources[n];
      if !SourceRefOk(env, source) || source.repository != cs.header.repository
         || (source.revision != cs.header.base && source.revision != cs.header.head) {
        return false;
      }
    }
    ok := true;
  }

  /** The loop over the atom versions, then the stable order. */
  method CheckAtoms(cs: ChangeSet, sourceById: SourceTable) returns (ok: bool)
    requires sourceById == TableOf(cs.sources)
    ensures ok == AtomListOk(cs)
  {
    if !NoRepeats(AtomIds(cs.atoms)) {
      return false;
    }
    for n := 0 to |cs.atoms|
      invariant forall i | 0 <= i < n :: cs.atoms[i].version == cs.header.version && KnownSources(sourceById, cs.atoms[i])
    {
      if cs.atoms[n].version != cs.header.version || !KnownSources(sourceById, cs.atoms[n]) {
        return false;
      }
    }
    ok := cs.atoms == SortBy(cs.atoms, AtomOrder(sourceById));
  }

  predicate AtomFits(table: SourceTable, f: ChangedFile, a: ChangeAtom) {
    AtomBelongs(f, a) && KnownSources(table, a)
  }

  /** The inner loop: a file's atoms, looked up and checked one by one. */
  method FindFileAtoms(table: SourceTable, byId: map<string, ChangeAtom>, f: ChangedFile) returns (atoms: Option<seq<ChangeAtom>>)
    ensures atoms.Some? ==> FileAtoms(byId, f) == atoms
    ensures atoms.Some? <==>
      FileAtoms(byId, f).Some? && forall i | 0 <= i < |FileAtoms(byId, f).value| :: AtomFits(table, f, FileAtoms(byId, f).value[i])
  {
    var found: seq<ChangeAtom> := [];
    ghost var step := Lookup(byId);
    TraverseSpec(step, f.atomIds);
    for n := 0 to |f.atomIds|
      invariant Traverse(step, f.atomIds[..n]) == Some(found)
      invariant forall i | 0 <= i < |found| :: AtomFits(table, f, found[i])
    {
      var id := f.atomIds[n];
      TraversePrefix(step, f.atomIds, n);
      if id !in byId {
        assert step(id).None?;
        return None;
      }
      assert step(id) == Some(byId[id]);
      if !AtomFits(table, f, byId[id]) {
        if FileAtoms(byId, f).Some? {
          assert step(f.atomIds[n]) == Some(FileAtoms(byId, f).value[n]);
        }
        return None;
      }
      found := found + [byId[id]];
    }
    assert f.atomIds[..|f.atomIds|] == f.atomIds;
    atoms := Some(found);
  }

  /** The body of the loop over the files. */
  method CheckFile(env: Env, h: Header, table: SourceTable, byId: map<string, ChangeAtom>, f: ChangedFile) returns (ok: bool)
    ensures ok == FileEntryOk(env, h, table, byId, f)
  {
    if !FileOk(env, f) || !FileSourceOk(table, f.oldRef, h.base, f.oldPath) || !FileSourceOk(table, f.newRef, h.head, f.newPath) {
      return false;
    }
    var atoms := FindFileAtoms(table, byId, f);
    if atoms.None? {
      return false;
    }
    assert forall i | 0 <= i < |atoms.value| :: AtomFits(table, f, atoms.value[i]);
    ok := f.atomIds == AtomIds(SortBy(atoms.value, AtomOrder(table))) && OneAtomPerLine(atoms.value);
  }

  /** The loop over the files, with the atom ids they use. */
  method CheckFiles(env: Env, cs: ChangeSet, table: SourceTable, byId: map<string, ChangeAtom>)
    returns (ok: bool, used: seq<string>)
    requires table == TableOf(cs.sources) && byId == AtomTable(cs.atoms)
    ensures ok == FileEntriesOk(env, cs)
    ensures ok ==> used == Flat(AtomIdsOf, cs.files)
  {
    used := [];
    assert Flat(AtomIdsOf, cs.files[..0]) == [];
    for n := 0 to |cs.files|
      invariant forall i | 0 <= i < n :: FileEntryOk(env, cs.header, table, byId, cs.files[i])
      invariant used == Flat(AtomIdsOf, cs.files[..n])
    {
      var valid := CheckFile(env, cs.header, table, byId, cs.files[n]);
      if !valid {
        return false, used;
      }
      FlatAt(AtomIdsOf, cs.files, n);
      used := used + cs.files[n].atomIds;
    }
    assert cs.files[..|cs.files|] == cs.files;
    ok := true;
  }

  /** The source ids the files name. */
  function NamedSources(files: seq<ChangedFile>): set<string> {
    set id | id in Flat(RefsOf, files)
  }

  function IdSet(ref: Option<string>): set<string> { if ref.Some? then {ref.value} else {} }

  lemma FileNames(f: ChangedFile)
    ensures (set id | id in RefsOf(f)) == IdSet(f.oldRef) + IdSet(f.newRef)
  {
  }

  lemma NamesOneMore(files: seq<ChangedFile>, n: nat)
    requires n < |files|
    ensures NamedSources(files[..n + 1]) == NamedSources(files[..n]) + IdSet(files[n].oldRef) + IdSet(files[n].newRef)
  {
    FlatAt(RefsOf, files, n);
    FileNames(files[n]);
    SetOfConcat(Flat(RefsOf, files[..n]), RefsOf(files[n]));
  }

  lemma SetOfConcat(xs: seq<string>, ys: seq<string>)
    ensures (set id | id in xs + ys) == (set id | id in xs) + (set id | id in ys)
  {
  }

  /** The loop that collects the source ids the files name. */
  method CollectReferences(files: seq<ChangedFile>) returns (referenced: set<string>)
    ensures referenced == set id | id in ReferencedIds(files)
  {
    referenced := {};
    for n := 0 to |files|
      invariant referenced == NamedSources(files[..n])
    {
      NamesOneMore(files, n);
      if files[n].oldRef.Some? {
        referenced := referenced + {files[n].oldRef.value};
      }
      if files[n].newRef.Some? {
        referenced := referenced + {files[n].newRef.value};
      }
    }
    assert files[..|files|] == files;
  }

  predicate DiagnosticListOk(env: Env, ds: seq<Diagnostic>) {
    && StrictlySorted(ds, DiagnosticKey)
    && (forall i | 0 <= i < |ds| :: ds[i] == DiagnosticOf(env, ds[i].fileId))
    && (forall i, j | 0 <= i < j < |ds| :: ds[i].fileId != ds[j].fileId)
  }

  /** The loop that asks for one diagnostic per binary file and none elsewhere. */
  method CheckDiagnostics(env: Env, cs: ChangeSet) returns (ok: bool)
    ensures ok == DiagnosticsOk(env, cs)
  {
    if !DiagnosticListOk(env, cs.diagnostics) {
      return false;
    }
    var diagnosed := set d | d in cs.diagnostics :: d.fileId;
    for n := 0 to |cs.files|
      invariant forall f | f in cs.files[..n] :: f.isBinary <==> f.id in diagnosed
    {
      var f := cs.files[n];
      assert forall g :: g in cs.files[..n + 1] <==> g in cs.files[..n] || g == f;
      if f.isBinary != (f.id in diagnosed) {
        assert f in cs.files && (f.id in diagnosed <==> exists d :: d in cs.diagnostics && d.fileId == f.id);
        return false;
      }
    }
    assert cs.files[..|cs.files|] == cs.files;
    assert forall id :: id in diagnosed <==> exists d :: d in cs.diagnostics && d.fileId == id;
    var fileIds := set f | f in cs.files :: f.id;
    ok := diagnosed <= fileIds;
    assert ok <==> forall d | d in cs.diagnostics :: d.fileId in fileIds;
  }

  /** `ChangeSet.validate`, check by check. */
  method Validate(env: Env, cs: ChangeSet) returns (ok: bool)
    ensures ok == ChangeSetOk(env, cs)
  {
    if !HeaderOk(cs.header) {
      return false;
    }
    ok := CheckSources(env, cs);
    if !ok || !FileListOk(cs) {
      return false;
    }
    var sourceById, atomById := TableOf(cs.sources), AtomTable(cs.atoms);
    ok := CheckAtoms(cs, sourceById);
    if !ok {
      return;
    }
    var used;
    ok, used := CheckFiles(env, cs, sourceById, atomById);
    if !ok {
      return;
    }
    SortedTextsEqualIff(used, AtomIds(cs.atoms));
    if SortBy(used, TextKey) != SortBy(AtomIds(cs.atoms), TextKey) {
      return false;
    }
    var referenced := CollectReferences(cs.files);
    if referenced != set s | s in cs.sources :: s.id {
      return false;
    }
    ok := CheckDiagnostics(env, cs);
    ok := ok && cs.id == env.hash(SetPayload(cs.header, cs.sources, cs.files, cs.atoms, cs.diagnostics));
  }
}
