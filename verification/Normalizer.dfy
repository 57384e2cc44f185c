/** `normalize_change_set`: from unordered files and atoms to one canonical ChangeSet. */
module Normalizer {
  import opened Ordering
  import opened Sorting
  import opened SourceText
  import opened ChangeModel
  import opened ChangeSetValidator

  /** What one accepted file contributes. */
  datatype FileParts = FileParts(file: ChangedFile, atoms: seq<ChangeAtom>, sources: seq<SourceRef>)

  // --------------------------------------------------------------- one atom

  function SpanOf(span: Option<LineSpan>, snapshot: Option<Snapshot>): Option<Option<ExactRange>>
    requires span.Some? ==> span.value.Valid()
  {
    if span.None? then Some(None)
    else if snapshot.None? then None
    else match ExactLineRange(snapshot.value.content, span.value)
      case None => None
      case Some(r) => Some(Some(r))
  }

  function RefOf(span: Option<ExactRange>, snapshot: Option<Snapshot>): Option<string> {
    if span.Some? && snapshot.Some? then Some(snapshot.value.ref.id) else None
  }

  /** `_normalize_atom`; None where it, or the atom's own validation, raises. */
  function NormalizeAtom(env: Env, h: Header, f: FileInput, a: AtomInput): Option<ChangeAtom>
    requires AtomInputOk(a)
  {
    match (SpanOf(a.oldSpan, f.oldSnapshot), SpanOf(a.newSpan, f.newSnapshot))
    case (Some(oldSpan), Some(newSpan)) =>
      var draft := ChangeAtom("", a.kind, RefOf(oldSpan, f.oldSnapshot), RefOf(newSpan, f.newSnapshot),
                              oldSpan, newSpan, a.addedLines, a.deletedLines, a.positions, h.version);
      var atom := draft.(id := AtomId(env, draft));
      if AtomOk(env, atom) then Some(atom) else None
    case _ => None
  }

  function AtomStep(env: Env, h: Header, f: FileInput): AtomInput -> Option<ChangeAtom> {
    (a: AtomInput) => if AtomInputOk(a) then NormalizeAtom(env, h, f, a) else None
  }

  // --------------------------------------------------------------- one file

  predicate SnapshotMatches(snapshot: Option<Snapshot>, repository: string, revision: string, path: Option<string>) {
    snapshot.Some? ==>
      && snapshot.value.ref.repository == repository
      && snapshot.value.ref.revision == revision
      && path == Some(snapshot.value.ref.path)
  }

  /** `_validate_file_input`. */
  predicate FileShapeOk(h: Header, f: FileInput) {
    && StatusPathsOk(f.status, f.oldPath, f.newPath)
    && (if f.isBinary then f.oldSnapshot.None? && f.newSnapshot.None? && f.atoms == []
        else && f.oldSnapshot.Some? == HasBase(f.status)
             && f.newSnapshot.Some? == HasHead(f.status)
             && SnapshotMatches(f.oldSnapshot, h.repository, h.base, f.oldPath)
             && SnapshotMatches(f.newSnapshot, h.repository, h.head, f.newPath))
  }

  /** `_validate_file_atom_semantics`. */
  predicate FileAtomsOk(f: FileInput, atoms: seq<ChangeAtom>) {
    OneAtomPerLine(atoms) && StatusAtomsOk(f.status, f.oldSnapshot, f.newSnapshot, atoms)
  }

  function SnapshotRefs(f: FileInput): seq<SourceRef> {
    (if f.oldSnapshot.Some? then [f.oldSnapshot.value.ref] else [])
    + (if f.newSnapshot.Some? then [f.newSnapshot.value.ref] else [])
  }

  function SnapshotId(s: Option<Snapshot>): Option<string> {
    if s.Some? then Some(s.value.ref.id) else None
  }

  function MakeFile(env: Env, f: FileInput, atoms: seq<ChangeAtom>): ChangedFile {
    var draft := ChangedFile("", f.status, f.oldPath, f.newPath,
                             if f.isBinary then None else SnapshotId(f.oldSnapshot),
                             if f.isBinary then None else SnapshotId(f.newSnapshot),
                             AtomIds(atoms), f.isBinary);
    draft.(id := FileId(env, draft))
  }

  function BuildTextFile(env: Env, f: FileInput, drafts: seq<ChangeAtom>): Option<FileParts> {
    var atoms := SortBy(drafts, AtomOrder(TableOf(SnapshotRefs(f))));
    var file := MakeFile(env, f, atoms);
    if FileAtomsOk(f, atoms) && FileOk(env, file)
    then Some(FileParts(file, atoms, SnapshotRefs(f))) else None
  }

  /** The loop body of the normalizer, up to the file's own validation. */
  function NormalizeFile(env: Env, h: Header, f: FileInput): Option<FileParts> {
    if !FileShapeOk(h, f) then None
    else if f.isBinary then
      var file := MakeFile(env, f, []);
      if FileOk(env, file) then Some(FileParts(file, [], [])) else None
    else match Traverse(AtomStep(env, h, f), f.atoms)
      case None => None
      case Some(drafts) => BuildTextFile(env, f, drafts)
  }

  function FileStep(env: Env, h: Header): FileInput -> Option<FileParts> {
    (f: FileInput) => NormalizeFile(env, h, f)
  }

  // -------------------------------------------------------------- all files

  function FileOfPart(p: FileParts): ChangedFile { p.file }
  function AtomsOfPart(p: FileParts): seq<ChangeAtom> { p.atoms }
  function SourcesOfPart(p: FileParts): seq<SourceRef> { p.sources }
  function BinaryIdOf(f: ChangedFile): seq<string> { if f.isBinary then [f.id] else [] }

  function PartFiles(parts: seq<FileParts>): seq<ChangedFile> {
    Map(FileOfPart, parts)
  }

  function PartAtoms(parts: seq<FileParts>): seq<ChangeAtom> {
    Flat(AtomsOfPart, parts)
  }

  function PartSources(parts: seq<FileParts>): seq<SourceRef> {
    Flat(SourcesOfPart, parts)
  }

  /** `sorted(source_by_id.values(), key=source_ref_id)`. */
  function SortedSources(table: SourceTable): (r: seq<SourceRef>)
    ensures |r| == |SortedSet(table.Keys, TextKey)|
    ensures forall i | 0 <= i < |r| :: r[i] == table[SortedSet(table.Keys, TextKey)[i]]
  {
    var ids := SortedSet(table.Keys, TextKey);
    seq(|ids|, i requires 0 <= i < |ids| => table[ids[i]])
  }

  function BinaryFileIds(files: seq<ChangedFile>): seq<string> {
    Flat(BinaryIdOf, files)
  }

  function DiagnosticMaker(env: Env): string -> Diagnostic {
    (id: string) => DiagnosticOf(env, id)
  }

  function Diagnostics(env: Env, files: seq<ChangedFile>): seq<Diagnostic> {
    SortBy(Map(DiagnosticMaker(env), BinaryFileIds(files)), DiagnosticKey)
  }

  function MakeSet(env: Env, h: Header, sources: seq<SourceRef>, files: seq<ChangedFile>,
                   atoms: seq<ChangeAtom>, diagnostics: seq<Diagnostic>): ChangeSet {
    ChangeSet(env.hash(SetPayload(h, sources, files, atoms, diagnostics)), h, sources, files, atoms, diagnostics)
  }

  function Draft(env: Env, h: Header, files: seq<ChangedFile>, atoms: seq<ChangeAtom>, table: SourceTable): ChangeSet {
    var sortedFiles := SortBy(files, FileKey);
    MakeSet(env, h, SortedSources(table), sortedFiles,
            SortBy(atoms, AtomOrder(table)), Diagnostics(env, sortedFiles))
  }

  function Assemble(env: Env, h: Header, parts: seq<FileParts>): ChangeSet {
    Draft(env, h, PartFiles(parts), PartAtoms(parts), TableOf(PartSources(parts)))
  }

  /** Path uniqueness, then the ChangeSet's own validation. */
  function Accept(env: Env, cs: ChangeSet): Option<ChangeSet> {
    if PathsUnique(cs.files) && ChangeSetOk(env, cs) then Some(cs) else None
  }

  /** The whole normalizer as a function; None where the source raises. */
  function Normalize(env: Env, h: Header, files: seq<FileInput>): Option<ChangeSet> {
    if !HeaderOk(h) then None
    else match Traverse(FileStep(env, h), files)
      case None => None
      case Some(parts) => Accept(env, Assemble(env, h, parts))
  }

  lemma PartsSnoc(parts: seq<FileParts>, p: FileParts)
    ensures PartFiles(parts + [p]) == PartFiles(parts) + [p.file]
    ensures PartAtoms(parts + [p]) == PartAtoms(parts) + p.atoms
    ensures PartSources(parts + [p]) == PartSources(parts) + p.sources
  {
    FlatSnoc(AtomsOfPart, parts, p);
    FlatSnoc(SourcesOfPart, parts, p);
  }

  /** The loop over the files: both lists and the source dictionary grow file by file. */
  method GatherFiles(files: seq<FileInput>, step: FileInput -> Option<FileParts>)
    returns (ok: bool, normalizedFiles: seq<ChangedFile>, allAtoms: seq<ChangeAtom>, sourceById: SourceTable)
    ensures ok == Traverse(step, files).Some?
    ensures ok ==>
      && normalizedFiles == PartFiles(Traverse(step, files).value)
      && allAtoms == PartAtoms(Traverse(step, files).value)
      && sourceById == TableOf(PartSources(Traverse(step, files).value))
  {
    normalizedFiles, allAtoms, sourceById := [], [], map[];
    ghost var parts: seq<FileParts> := [];
    for n := 0 to |files|
      invariant Traverse(step, files[..n]) == Some(parts)
      invariant normalizedFiles == PartFiles(parts)
      invariant allAtoms == PartAtoms(parts)
      invariant sourceById == TableOf(PartSources(parts))
    {
      TraversePrefix(step, files, n);
      var result := step(files[n]);
      if result.None? {
        ok := false;
        return;
      }
      var p := result.value;
      PartsSnoc(parts, p);
      normalizedFiles := normalizedFiles + [p.file];
      allAtoms := allAtoms + p.atoms;
      sourceById := AddSources(sourceById, PartSources(parts), p.sources);
      parts := parts + [p];
    }
    assert files[..|files|] == files;
    ok := true;
  }

  /** `normalize_change_set`: gather file by file, then sort, check paths and build. */
  method NormalizeChangeSet(env: Env, h: Header, files: seq<FileInput>) returns (r: Option<ChangeSet>)
    ensures r == Normalize(env, h, files)
  {
    if !HeaderOk(h) {
      return None;
    }
    var ok, normalizedFiles, allAtoms, sourceById := GatherFiles(files, FileStep(env, h));
    if !ok {
      return None;
    }
    r := SortAndBuild(env, h, normalizedFiles, allAtoms, sourceById);
  }

  /** The normalizer's tail: sort, check path uniqueness, build and validate. */
  method SortAndBuild(env: Env, h: Header, files: seq<ChangedFile>, atoms: seq<ChangeAtom>, sourceById: SourceTable)
    returns (r: Option<ChangeSet>)
    ensures r == Accept(env, Draft(env, h, files, atoms, sourceById))
  {
    var sortedFiles := SortBy(files, FileKey);
    if !PathsUnique(sortedFiles) {
      return None;
    }
    var cs := MakeSet(env, h, SortedSources(sourceById), sortedFiles,
                      SortBy(atoms, AtomOrder(sourceById)), Diagnostics(env, sortedFiles));
    var valid := Validate(env, cs);
    r := if valid then Some(cs) else None;
  }

  /** The inner loop that records a file's base and head sources. */
  method AddSources(table: SourceTable, ghost known: seq<SourceRef>, refs: seq<SourceRef>)
    returns (r: SourceTable)
    requires table == TableOf(known)
    ensures r == TableOf(known + refs)
  {
    r := table;
    var i := 0;
    assert known + refs[..0] == known;
    while i < |refs|
      invariant i <= |refs|
      invariant r == TableOf(known + refs[..i])
    {
      TableBySnoc(IdOfSource, known + refs[..i], refs[i]);
      assert known + refs[..i] + [refs[i]] == known + refs[..i + 1];
      r := r[refs[i].id := refs[i]];
      i := i + 1;
    }
    assert refs[..i] == refs;
  }
}
