/** The values of a ChangeSet and the checks each value makes on itself when built. */
module ChangeModel {
  import opened Ordering
  import opened Sorting
  import opened SourceText

  datatype AtomKind = Addition | Deletion | Replacement
  datatype FileStatus = Added | Modified | Deleted | Renamed
  datatype Side = Base | Head

  datatype DiffPosition = DiffPosition(side: Side, sourceLine: nat, diffPosition: nat)

  datatype SourceRef = SourceRef(id: string, repository: string, revision: string, path: string, contentHash: string)

  /** What owns a structure of a parsed source. */
  datatype OwnerRef = DeclarationOwner(id: string) | RegionOwner(id: string)

  datatype Snapshot = Snapshot(ref: SourceRef, content: string)

  datatype AtomInput = AtomInput(
    kind: AtomKind,
    oldSpan: Option<LineSpan>,
    newSpan: Option<LineSpan>,
    addedLines: seq<nat>,
    deletedLines: seq<nat>,
    positions: seq<DiffPosition>)

  datatype FileInput = FileInput(
    status: FileStatus,
    oldPath: Option<string>,
    newPath: Option<string>,
    oldSnapshot: Option<Snapshot>,
    newSnapshot: Option<Snapshot>,
    atoms: seq<AtomInput>,
    isBinary: bool)

  datatype ChangeAtom = ChangeAtom(
    id: string,
    kind: AtomKind,
    oldRef: Option<string>,
    newRef: Option<string>,
    oldSpan: Option<ExactRange>,
    newSpan: Option<ExactRange>,
    addedLines: seq<nat>,
    deletedLines: seq<nat>,
    positions: seq<DiffPosition>,
    version: string)

  datatype ChangedFile = ChangedFile(
    id: string,
    status: FileStatus,
    oldPath: Option<string>,
    newPath: Option<string>,
    oldRef: Option<string>,
    newRef: Option<string>,
    atomIds: seq<string>,
    isBinary: bool)

  // The only diagnostic code is "binary_source_unavailable".
  datatype Diagnostic = Diagnostic(id: string, fileId: string)

  datatype Header = Header(repository: string, base: string, head: string, version: string)

  datatype ChangeSet = ChangeSet(
    id: string,
    header: Header,
    sources: seq<SourceRef>,
    files: seq<ChangedFile>,
    atoms: seq<ChangeAtom>,
    diagnostics: seq<Diagnostic>)

  // ------------------------------------------------------------- identities

  /** What is hashed into an identity; each constructor has its own id prefix. */
  datatype Payload =
    | ContentPayload(text: string)
    | SourcePayload(repository: string, revision: string, path: string, contentHash: string)
    | AtomPayload(kind: AtomKind, oldRef: Option<string>, newRef: Option<string>,
                  oldSpan: Option<ExactRange>, newSpan: Option<ExactRange>,
                  addedLines: seq<nat>, deletedLines: seq<nat>,
                  positions: seq<DiffPosition>, version: string)
    | FilePayload(status: FileStatus, oldPath: Option<string>, newPath: Option<string>,
                  oldRef: Option<string>, newRef: Option<string>, atomIds: seq<string>, isBinary: bool)
    | DiagnosticPayload(fileId: string)
    | DeclarationPayload(sourceId: string, declarationKind: string, qualifiedName: string, range: ExactRange)
    | RegionPayload(sourceId: string, regionKind: string, symbol: string, range: ExactRange, ownerId: Option<string>)
    | FactPayload(sourceId: string, factKind: string, name: string, canonicalName: Option<string>,
                  startOffset: nat, endOffset: nat, owner: Option<OwnerRef>)
    | SetPayload(header: Header, sources: seq<SourceRef>, files: seq<ChangedFile>,
                 atoms: seq<ChangeAtom>, diagnostics: seq<Diagnostic>)

  /** The hash behind every id, and the path normal form, as parameters. */
  datatype Env = Env(hash: Payload -> string, pathOk: string -> bool)

  /** `_require_text`: non-empty, no control characters. */
  predicate IsText(s: string) {
    s != [] && forall c | c in s :: c as int >= 32
  }

  ghost predicate SoundHash(env: Env) {
    && (forall p, q | env.hash(p) == env.hash(q) :: p == q)
    && (forall p :: IsText(env.hash(p)))
  }

  // ------------------------------------------------------------- sort keys

  function KindText(kind: AtomKind): string {
    match kind case Addition => "addition" case Deletion => "deletion" case Replacement => "replacement"
  }

  function StatusText(status: FileStatus): string {
    match status
    case Added => "added" case Modified => "modified" case Deleted => "deleted" case Renamed => "renamed"
  }

  function PathText(path: Option<string>): string {
    if path.Some? then path.value else ""
  }

  function FileKey(f: ChangedFile): Key {
    [Text(PathText(f.oldPath)), Text(PathText(f.newPath)), Text(StatusText(f.status)), Text(f.id)]
  }

  type SourceTable = map<string, SourceRef>

  predicate KnownSource(table: SourceTable, ref: Option<string>) {
    ref.Some? ==> ref.value in table
  }

  predicate KnownSources(table: SourceTable, a: ChangeAtom) {
    KnownSource(table, a.oldRef) && KnownSource(table, a.newRef)
  }

  function RefPath(table: SourceTable, ref: Option<string>): string {
    if ref.Some? && ref.value in table then table[ref.value].path else ""
  }

  function StartOf(span: Option<ExactRange>): nat {
    if span.Some? then span.value.startLine else 0
  }

  function EndOf(span: Option<ExactRange>): nat {
    if span.Some? then span.value.endLine else 0
  }

  /** The atom order; the source raises unless `KnownSources` holds. */
  function AtomKey(table: SourceTable, a: ChangeAtom): Key {
    [Text(RefPath(table, a.oldRef)), Text(RefPath(table, a.newRef)),
     Num(StartOf(a.oldSpan)), Num(EndOf(a.oldSpan)), Num(StartOf(a.newSpan)), Num(EndOf(a.newSpan)),
     Text(KindText(a.kind)), Text(a.id)]
  }

  function AtomOrder(table: SourceTable): ChangeAtom -> Key {
    (a: ChangeAtom) => AtomKey(table, a)
  }

  function SourceKey(s: SourceRef): Key { [Text(s.id)] }

  function DiagnosticKey(d: Diagnostic): Key {
    [Text(d.fileId), Text("binary_source_unavailable"), Text(d.id)]
  }

  function SideText(side: Side): string {
    match side case Base => "base" case Head => "head"
  }

  function PositionKey(p: DiffPosition): Key {
    [Num(p.diffPosition), Text(SideText(p.side)), Num(p.sourceLine)]
  }

  // ------------------------------------------- self-checks of built values

  /** `_require_sorted_lines`: 1-based, equal to its own `sorted(set(...))`. */
  predicate LinesOk(lines: seq<nat>) {
    && (forall i | 0 <= i < |lines| :: lines[i] >= 1)
    && (forall i, j | 0 <= i < j < |lines| :: lines[i] < lines[j])
  }

  predicate PositionsOk(ps: seq<DiffPosition>) {
    && (forall i | 0 <= i < |ps| :: ps[i].sourceLine >= 1 && ps[i].diffPosition >= 1)
    && StrictlySorted(ps, PositionKey)
    && (forall i, j | 0 <= i < j < |ps| :: ps[i].diffPosition != ps[j].diffPosition)
    && (forall i, j | 0 <= i < j < |ps| :: ps[i].side != ps[j].side || ps[i].sourceLine != ps[j].sourceLine)
  }

  predicate AtomInputOk(a: AtomInput) {
    && (a.oldSpan.Some? ==> a.oldSpan.value.Valid())
    && (a.newSpan.Some? ==> a.newSpan.value.Valid())
    && LinesOk(a.addedLines) && LinesOk(a.deletedLines)
    && PositionsOk(a.positions)
  }

  predicate SourceRefOk(env: Env, s: SourceRef) {
    && IsText(s.repository) && IsText(s.revision) && env.pathOk(s.path)
    && s.id == env.hash(SourcePayload(s.repository, s.revision, s.path, s.contentHash))
  }

  predicate SnapshotOk(env: Env, s: Snapshot) {
    SourceRefOk(env, s.ref) && s.ref.contentHash == env.hash(ContentPayload(s.content))
  }

  predicate FileInputOk(env: Env, f: FileInput) {
    && (f.oldPath.Some? ==> env.pathOk(f.oldPath.value))
    && (f.newPath.Some? ==> env.pathOk(f.newPath.value))
    && (f.oldSnapshot.Some? ==> SnapshotOk(env, f.oldSnapshot.value))
    && (f.newSnapshot.Some? ==> SnapshotOk(env, f.newSnapshot.value))
    && (forall i | 0 <= i < |f.atoms| :: AtomInputOk(f.atoms[i]))
  }

  function AtomId(env: Env, a: ChangeAtom): string {
    env.hash(AtomPayload(a.kind, a.oldRef, a.newRef, a.oldSpan, a.newSpan,
                         a.addedLines, a.deletedLines, a.positions, a.version))
  }

  predicate AtomKindOk(a: ChangeAtom) {
    match a.kind
    case Addition =>
      a.oldRef.None? && a.oldSpan.None? && a.deletedLines == []
      && a.newRef.Some? && a.newSpan.Some? && a.addedLines != []
    case Deletion =>
      a.newRef.None? && a.newSpan.None? && a.addedLines == []
      && a.oldRef.Some? && a.oldSpan.Some? && a.deletedLines != []
    case Replacement =>
      a.oldRef.Some? && a.newRef.Some? && a.oldSpan.Some? && a.newSpan.Some?
      && a.addedLines != [] && a.deletedLines != []
  }

  predicate LinesInside(lines: seq<nat>, span: Option<ExactRange>) {
    span.Some? ==> forall i | 0 <= i < |lines| :: span.value.startLine <= lines[i] <= span.value.endLine
  }

  /** `ChangeAtom.validate`. */
  predicate AtomOk(env: Env, a: ChangeAtom) {
    && IsText(a.version)
    && (a.oldRef.Some? ==> IsText(a.oldRef.value))
    && (a.newRef.Some? ==> IsText(a.newRef.value))
    && (a.oldSpan.Some? ==> a.oldSpan.value.Valid())
    && (a.newSpan.Some? ==> a.newSpan.value.Valid())
    && LinesOk(a.addedLines) && LinesOk(a.deletedLines)
    && PositionsOk(a.positions)
    && AtomKindOk(a)
    && LinesInside(a.deletedLines, a.oldSpan) && LinesInside(a.addedLines, a.newSpan)
    && (forall i | 0 <= i < |a.positions| ::
          a.positions[i].sourceLine in (if a.positions[i].side.Base? then a.deletedLines else a.addedLines))
    && a.id == AtomId(env, a)
  }

  /** The path shape each status demands, of inputs and of built files alike. */
  predicate StatusPathsOk(status: FileStatus, oldPath: Option<string>, newPath: Option<string>) {
    match status
    case Added => oldPath.None? && newPath.Some?
    case Deleted => oldPath.Some? && newPath.None?
    case Modified => oldPath.Some? && oldPath == newPath
    case Renamed => oldPath.Some? && newPath.Some? && oldPath != newPath
  }

  predicate HasBase(status: FileStatus) { status != Added }

  predicate HasHead(status: FileStatus) { status != Deleted }

  function FileId(env: Env, f: ChangedFile): string {
    env.hash(FilePayload(f.status, f.oldPath, f.newPath, f.oldRef, f.newRef, f.atomIds, f.isBinary))
  }

  /** `ChangedFile.validate`. */
  predicate FileOk(env: Env, f: ChangedFile) {
    && (f.oldPath.Some? ==> env.pathOk(f.oldPath.value))
    && (f.newPath.Some? ==> env.pathOk(f.newPath.value))
    && (f.oldRef.Some? ==> IsText(f.oldRef.value))
    && (f.newRef.Some? ==> IsText(f.newRef.value))
    && (forall i | 0 <= i < |f.atomIds| :: f.atomIds[i] != "")
    && NoRepeats(f.atomIds)
    && StatusPathsOk(f.status, f.oldPath, f.newPath)
    && (if f.isBinary then f.oldRef.None? && f.newRef.None? && f.atomIds == []
        else && f.oldRef.Some? == HasBase(f.status)
             && f.newRef.Some? == HasHead(f.status)
             && (f.status.Modified? ==> f.atomIds != []))
    && f.id == FileId(env, f)
  }

  function DiagnosticOf(env: Env, fileId: string): Diagnostic {
    Diagnostic(env.hash(DiagnosticPayload(fileId)), fileId)
  }

  // ----------------------------------------------------- whole-set validator

  function OptionList<T>(o: Option<T>): seq<T> {
    if o.Some? then [o.value] else []
  }

  function IdOfSource(s: SourceRef): string { s.id }
  function IdOfAtom(a: ChangeAtom): string { a.id }
  function IdOfFile(f: ChangedFile): string { f.id }
  function OldPathOf(f: ChangedFile): seq<string> { OptionList(f.oldPath) }
  function NewPathOf(f: ChangedFile): seq<string> { OptionList(f.newPath) }
  function RefsOf(f: ChangedFile): seq<string> { OptionList(f.oldRef) + OptionList(f.newRef) }
  function AtomIdsOf(f: ChangedFile): seq<string> { f.atomIds }
  function DeletedOf(a: ChangeAtom): seq<nat> { a.deletedLines }
  function AddedOf(a: ChangeAtom): seq<nat> { a.addedLines }

  function OldPaths(files: seq<ChangedFile>): seq<string> {
    Flat(OldPathOf, files)
  }

  function NewPaths(files: seq<ChangedFile>): seq<string> {
    Flat(NewPathOf, files)
  }

  /** `_validate_file_path_uniqueness`. */
  predicate PathsUnique(files: seq<ChangedFile>) {
    NoRepeats(OldPaths(files)) && NoRepeats(NewPaths(files))
  }

  function DeletedLines(atoms: seq<ChangeAtom>): seq<nat> {
    Flat(DeletedOf, atoms)
  }

  function AddedLines(atoms: seq<ChangeAtom>): seq<nat> {
    Flat(AddedOf, atoms)
  }

  predicate OneAtomPerLine(atoms: seq<ChangeAtom>) {
    NoRepeats(DeletedLines(atoms)) && NoRepeats(AddedLines(atoms))
  }

  function LineNumbers(content: string): seq<nat> {
    seq(|Lines(content)|, i requires 0 <= i => i + 1)
  }

  /** What a file's status demands of its snapshots and atoms; checked by the
      normalizer and again by the review builder. Equal sorted lists are equal bags. */
  predicate StatusAtomsOk(status: FileStatus, base: Option<Snapshot>, head: Option<Snapshot>, atoms: seq<ChangeAtom>) {
    match status
    case Added =>
      && head.Some?
      && (forall a | a in atoms :: a.kind == Addition)
      && multiset(AddedLines(atoms)) == multiset(LineNumbers(head.value.content))
    case Deleted =>
      && base.Some?
      && (forall a | a in atoms :: a.kind == Deletion)
      && multiset(DeletedLines(atoms)) == multiset(LineNumbers(base.value.content))
    case _ =>
      && base.Some? && head.Some?
      && if base.value.ref.contentHash == head.value.ref.contentHash
         then status == Renamed && atoms == []
         else atoms != []
  }

  function AtomIds(atoms: seq<ChangeAtom>): seq<string> {
    Map(IdOfAtom, atoms)
  }

  function TableOf(sources: seq<SourceRef>): SourceTable {
    TableBy(IdOfSource, sources)
  }

  function AtomTable(atoms: seq<ChangeAtom>): map<string, ChangeAtom> {
    TableBy(IdOfAtom, atoms)
  }

  /** The base (or head) source a file names exists, at its endpoint and path. */
  predicate FileSourceOk(table: SourceTable, ref: Option<string>, revision: string, path: Option<string>) {
    ref.Some? ==>
      && ref.value in table
      && table[ref.value].revision == revision
      && path == Some(table[ref.value].path)
  }

  predicate AtomBelongs(f: ChangedFile, a: ChangeAtom) {
    && (a.oldRef.Some? ==> a.oldRef == f.oldRef)
    && (a.newRef.Some? ==> a.newRef == f.newRef)
  }

  function Lookup<T>(table: map<string, T>): string -> Option<T> {
    (id: string) => if id in table then Some(table[id]) else None
  }

  /** The atoms a file lists, resolved by id; None for a dangling id. */
  function FileAtoms(byId: map<string, ChangeAtom>, f: ChangedFile): Option<seq<ChangeAtom>> {
    Traverse(Lookup(byId), f.atomIds)
  }

  /** What `ChangeSet.validate` asks of one file. */
  predicate FileEntryOk(env: Env, h: Header, table: SourceTable, byId: map<string, ChangeAtom>, f: ChangedFile) {
    && FileOk(env, f)
    && FileSourceOk(table, f.oldRef, h.base, f.oldPath)
    && FileSourceOk(table, f.newRef, h.head, f.newPath)
    && FileAtoms(byId, f).Some?
    && var atoms := FileAtoms(byId, f).value;
    && (forall i | 0 <= i < |atoms| :: AtomBelongs(f, atoms[i]) && KnownSources(table, atoms[i]))
    && f.atomIds == AtomIds(SortBy(atoms, AtomOrder(table)))
    && OneAtomPerLine(atoms)
  }

  predicate SourcesOk(env: Env, cs: ChangeSet) {
    && StrictlySorted(cs.sources, SourceKey)
    && (forall i | 0 <= i < |cs.sources| ::
          && SourceRefOk(env, cs.sources[i])
          && cs.sources[i].repository == cs.header.repository
          && cs.sources[i].revision in {cs.header.base, cs.header.head})
  }

  predicate FileListOk(cs: ChangeSet) {
    && Sorted(cs.files, FileKey)
    && NoRepeats(Map(IdOfFile, cs.files))
    && PathsUnique(cs.files)
  }

  predicate AtomListOk(cs: ChangeSet) {
    var table := TableOf(cs.sources);
    && NoRepeats(AtomIds(cs.atoms))
    && (forall i | 0 <= i < |cs.atoms| ::
          cs.atoms[i].version == cs.header.version && KnownSources(table, cs.atoms[i]))
    && cs.atoms == SortBy(cs.atoms, AtomOrder(table))
  }

  predicate FileEntriesOk(env: Env, cs: ChangeSet) {
    forall i | 0 <= i < |cs.files| ::
      FileEntryOk(env, cs.header, TableOf(cs.sources), AtomTable(cs.atoms), cs.files[i])
  }

  function ReferencedIds(files: seq<ChangedFile>): seq<string> {
    Flat(RefsOf, files)
  }

  /** Every atom in exactly one file, every source in some file. */
  predicate OwnershipOk(cs: ChangeSet) {
    && multiset(Flat(AtomIdsOf, cs.files)) == multiset(AtomIds(cs.atoms))
    && (set id | id in ReferencedIds(cs.files)) == (set s | s in cs.sources :: s.id)
  }

  predicate DiagnosticsOk(env: Env, cs: ChangeSet) {
    && StrictlySorted(cs.diagnostics, DiagnosticKey)
    && (forall i | 0 <= i < |cs.diagnostics| :: cs.diagnostics[i] == DiagnosticOf(env, cs.diagnostics[i].fileId))
    && (forall i, j | 0 <= i < j < |cs.diagnostics| :: cs.diagnostics[i].fileId != cs.diagnostics[j].fileId)
    && (forall f | f in cs.files ::
          f.isBinary <==> exists d :: d in cs.diagnostics && d.fileId == f.id)
    && (forall d | d in cs.diagnostics :: exists f :: f in cs.files && f.id == d.fileId)
  }

  predicate HeaderOk(h: Header) {
    IsText(h.repository) && IsText(h.base) && IsText(h.head) && IsText(h.version)
  }

  /** `ChangeSet.validate`, clause group by clause group. */
  predicate ChangeSetOk(env: Env, cs: ChangeSet) {
    && HeaderOk(cs.header)
    && SourcesOk(env, cs)
    && FileListOk(cs)
    && AtomListOk(cs)
    && FileEntriesOk(env, cs)
    && OwnershipOk(cs)
    && DiagnosticsOk(env, cs)
    && cs.id == env.hash(SetPayload(cs.header, cs.sources, cs.files, cs.atoms, cs.diagnostics))
  }
}
