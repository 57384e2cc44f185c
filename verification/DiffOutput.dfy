/** What a normalized ChangeSet says, field by field, and the order it says it in. */
module DiffOutput {
  import opened Ordering
  import opened Sorting
  import opened SourceText
  import opened ChangeModel
  import opened Normalizer
  import opened NormalizerProofs
  import opened DiffAcceptance

  // ---------------------------------------------------------- the description

  /** The range cuts the span's lines out of the text, in UTF-16 code units. */
  ghost predicate RangeSays(content: string, span: LineSpan, r: ExactRange)
    requires span.Valid() && span.endLine <= |Lines(content)|
  {
    && r.startLine == span.startLine && r.endLine == span.endLine
    && exists p: nat, q: nat :: p <= q <= |content|
         && content[p..q] == Join(Lines(content)[span.startLine - 1..span.endLine])
         && content[..p] == Join(Lines(content)[..span.startLine - 1])
         && r.startOffset == |Utf16Encoded(content[..p])| && r.endOffset == |Utf16Encoded(content[..q])|
  }

  /** One side of an atom: nothing, or the source and the exact range of the span. */
  ghost predicate SideSays(snapshot: Option<Snapshot>, span: Option<LineSpan>, ref: Option<string>, range: Option<ExactRange>) {
    match span
    case None => ref == None && range == None
    case Some(lines) =>
      && snapshot.Some? && ref == Some(snapshot.value.ref.id)
      && lines.Valid() && lines.endLine <= |Lines(snapshot.value.content)|
      && range.Some? && RangeSays(snapshot.value.content, lines, range.value)
  }

  /** The atom says what the input says, and its id is the hash of that. */
  ghost predicate AtomSays(env: Env, h: Header, f: FileInput, a: AtomInput, b: ChangeAtom) {
    && b.kind == a.kind && b.addedLines == a.addedLines && b.deletedLines == a.deletedLines && b.positions == a.positions
    && b.version == h.version
    && SideSays(f.oldSnapshot, a.oldSpan, b.oldRef, b.oldSpan) && SideSays(f.newSnapshot, a.newSpan, b.newRef, b.newSpan)
    && b.id == env.hash(AtomPayload(b.kind, b.oldRef, b.newRef, b.oldSpan, b.newSpan, b.addedLines, b.deletedLines, b.positions, b.version))
  }

  function RefSaid(snapshot: Option<Snapshot>): Option<string> {
    match snapshot case None => None case Some(s) => Some(s.ref.id)
  }

  /** The file record says what the input says; its atoms are the input's. */
  ghost predicate FileSays(env: Env, h: Header, f: FileInput, c: ChangedFile, atoms: seq<ChangeAtom>) {
    && c.status == f.status && c.oldPath == f.oldPath && c.newPath == f.newPath && c.isBinary == f.isBinary
    && c.oldRef == RefSaid(f.oldSnapshot) && c.newRef == RefSaid(f.newSnapshot)
    && c.id == env.hash(FilePayload(c.status, c.oldPath, c.newPath, c.oldRef, c.newRef, c.atomIds, c.isBinary))
    && |c.atomIds| == |atoms| && (forall i | 0 <= i < |atoms| :: c.atomIds[i] == atoms[i].id)
    && AtomsSay(env, h, f, atoms)
  }

  /** The atoms are the input's, and all of them. */
  ghost predicate AtomsSay(env: Env, h: Header, f: FileInput, atoms: seq<ChangeAtom>) {
    && (forall b {:trigger SaidBy(env, h, f, b)} | b in atoms :: SaidBy(env, h, f, b))
    && (forall a {:trigger Says(env, h, f, a, atoms)} | a in f.atoms :: Says(env, h, f, a, atoms))
  }

  ghost predicate SaidBy(env: Env, h: Header, f: FileInput, b: ChangeAtom) {
    exists a :: a in f.atoms && AtomSays(env, h, f, a, b)
  }

  ghost predicate Says(env: Env, h: Header, f: FileInput, a: AtomInput, atoms: seq<ChangeAtom>) {
    exists b :: b in atoms && AtomSays(env, h, f, a, b)
  }

  // -------------------------------------------------------------- one atom

  lemma CutOut(content: string, span: LineSpan) returns (p: nat, q: nat)
    requires span.Valid() && span.endLine <= |Lines(content)|
    ensures p <= q <= |content|
    ensures content[..p] == Join(Lines(content)[..span.startLine - 1]) && content[..q] == Join(Lines(content)[..span.endLine])
    ensures content[p..q] == Join(Lines(content)[span.startLine - 1..span.endLine])
  {
    var lines := Lines(content);
    LinesPrefix(content, span.startLine - 1);
    LinesPrefix(content, span.endLine);
    assert lines[..span.endLine] == lines[..span.startLine - 1] + lines[span.startLine - 1..span.endLine];
    JoinConcat(lines[..span.startLine - 1], lines[span.startLine - 1..span.endLine]);
    p, q := |Join(lines[..span.startLine - 1])|, |Join(lines[..span.endLine])|;
    assert content[p..q] == content[..q][p..];
  }

  lemma RangeIs(content: string, span: LineSpan)
    requires span.Valid() && span.endLine <= |Lines(content)|
    ensures ExactLineRange(content, span).Some? && RangeSays(content, span, ExactLineRange(content, span).value)
  {
    var p, q := CutOut(content, span);
    RangeOffsets(content, span.startLine, span.endLine);
    Utf16LengthCounts(content[..p]);
    Utf16LengthCounts(content[..q]);
  }

  lemma SideIs(span: Option<LineSpan>, snapshot: Option<Snapshot>)
    requires span.Some? ==> span.value.Valid()
    requires SpanOf(span, snapshot).Some?
    ensures SideSays(snapshot, span, RefOf(SpanOf(span, snapshot).value, snapshot), SpanOf(span, snapshot).value)
  {
    if span.Some? {
      RangeIsExactSlice(snapshot.value.content, span.value);
      RangeIs(snapshot.value.content, span.value);
    }
  }

  lemma AtomIs(env: Env, h: Header, f: FileInput, a: AtomInput)
    requires AtomStep(env, h, f)(a).Some?
    ensures AtomSays(env, h, f, a, AtomStep(env, h, f)(a).value)
  {
    SideIs(a.oldSpan, f.oldSnapshot);
    SideIs(a.newSpan, f.newSnapshot);
  }

  // -------------------------------------------------------------- one file

  lemma FileIs(env: Env, h: Header, f: FileInput)
    requires NormalizeFile(env, h, f).Some?
    ensures var p := NormalizeFile(env, h, f).value;
      FileSays(env, h, f, p.file, p.atoms) && p.sources == SnapshotRefs(f)
  {
    if !f.isBinary {
      var drafts, order := Traverse(AtomStep(env, h, f), f.atoms).value, AtomOrder(TableOf(SnapshotRefs(f)));
      SortBySorts(drafts, order);
      DraftsSay(env, h, f, drafts);
      SortedSay(env, h, f, drafts, SortBy(drafts, order));
    }
  }

  lemma SortedSay(env: Env, h: Header, f: FileInput, drafts: seq<ChangeAtom>, sorted: seq<ChangeAtom>)
    requires AtomsSay(env, h, f, drafts) && forall b :: b in sorted <==> b in drafts
    ensures AtomsSay(env, h, f, sorted)
  {
    forall a | a in f.atoms ensures Says(env, h, f, a, sorted) {
      assert Says(env, h, f, a, drafts);
      var b :| b in drafts && AtomSays(env, h, f, a, b);
      assert b in sorted;
    }
  }

  lemma DraftsSay(env: Env, h: Header, f: FileInput, drafts: seq<ChangeAtom>)
    requires Traverse(AtomStep(env, h, f), f.atoms) == Some(drafts)
    ensures AtomsSay(env, h, f, drafts)
  {
    TraverseSpec(AtomStep(env, h, f), f.atoms);
    forall i | 0 <= i < |drafts| ensures AtomSays(env, h, f, f.atoms[i], drafts[i]) {
      AtomIs(env, h, f, f.atoms[i]);
    }
    forall b | b in drafts ensures SaidBy(env, h, f, b) {
      var i :| 0 <= i < |drafts| && drafts[i] == b;
      assert f.atoms[i] in f.atoms;
    }
    forall a | a in f.atoms ensures Says(env, h, f, a, drafts) {
      var i :| 0 <= i < |f.atoms| && f.atoms[i] == a;
      assert drafts[i] in drafts;
    }
  }

  // -------------------------------------------------------------- all files

  ghost predicate HasFile(env: Env, h: Header, cs: ChangeSet, f: FileInput) {
    exists c, atoms :: c in cs.files && (forall b | b in atoms :: b in cs.atoms) && FileSays(env, h, f, c, atoms)
  }

  ghost predicate FileGiven(env: Env, h: Header, files: seq<FileInput>, c: ChangedFile) {
    exists f, atoms :: f in files && FileSays(env, h, f, c, atoms)
  }

  ghost predicate AtomGiven(env: Env, h: Header, files: seq<FileInput>, b: ChangeAtom) {
    exists f, a :: f in files && a in f.atoms && AtomSays(env, h, f, a, b)
  }

  /** The source of one of the file's snapshots. */
  predicate Brings(f: FileInput, s: SourceRef) {
    || (f.oldSnapshot.Some? && f.oldSnapshot.value.ref == s)
    || (f.newSnapshot.Some? && f.newSnapshot.value.ref == s)
  }

  ghost predicate SourceGiven(files: seq<FileInput>, s: SourceRef) {
    exists f :: f in files && Brings(f, s)
  }

  ghost predicate RecordsMatch(env: Env, h: Header, files: seq<FileInput>, cs: ChangeSet) {
    && (forall f | f in files :: HasFile(env, h, cs, f))
    && (forall c | c in cs.files :: FileGiven(env, h, files, c))
    && (forall b | b in cs.atoms :: AtomGiven(env, h, files, b))
  }

  ghost predicate SourcesMatch(files: seq<FileInput>, cs: ChangeSet) {
    forall s :: s in cs.sources <==> SourceGiven(files, s)
  }

  ghost predicate BinaryFile(env: Env, files: seq<ChangedFile>, d: Diagnostic) {
    exists c :: c in files && c.isBinary && d.fileId == c.id && d.id == env.hash(DiagnosticPayload(c.id))
  }

  ghost predicate DiagnosticsMatch(env: Env, cs: ChangeSet) {
    forall d :: d in cs.diagnostics <==> BinaryFile(env, cs.files, d)
  }

  /** The set has one record per input, their atoms and sources, one diagnostic per
      binary file, and nothing else. */
  ghost predicate SetSays(env: Env, h: Header, files: seq<FileInput>, cs: ChangeSet) {
    && cs.header == h && |cs.files| == |files|
    && RecordsMatch(env, h, files, cs) && SourcesMatch(files, cs) && DiagnosticsMatch(env, cs)
    && cs.id == env.hash(SetPayload(cs.header, cs.sources, cs.files, cs.atoms, cs.diagnostics))
  }

  lemma PartsOfSet(env: Env, h: Header, files: seq<FileInput>, cs: ChangeSet) returns (parts: seq<FileParts>)
    requires Normalize(env, h, files) == Some(cs)
    ensures |parts| == |files| && (forall i | 0 <= i < |files| :: NormalizeFile(env, h, files[i]) == Some(parts[i]))
    ensures cs == Assemble(env, h, parts)
    ensures |cs.files| == |parts|
    ensures forall c :: c in cs.files <==> exists p :: p in parts && p.file == c
    ensures forall b :: b in cs.atoms <==> exists p :: p in parts && b in p.atoms
  {
    TraverseSpec(FileStep(env, h), files);
    parts := Traverse(FileStep(env, h), files).value;
    forall i | 0 <= i < |files| ensures NormalizeFile(env, h, files[i]) == Some(parts[i]) {
      assert FileStep(env, h)(files[i]) == Some(parts[i]);
    }
    SortBySorts(PartFiles(parts), FileKey);
    SortBySorts(PartAtoms(parts), AtomOrder(TableOf(PartSources(parts))));
    forall c ensures c in cs.files <==> exists p :: p in parts && p.file == c {
      FileListed(parts, c);
    }
    forall b ensures b in cs.atoms <==> exists p :: p in parts && b in p.atoms {
      FlatMember(AtomsOfPart, parts, b);
    }
  }

  lemma FileListed(parts: seq<FileParts>, c: ChangedFile)
    ensures c in PartFiles(parts) <==> exists p :: p in parts && p.file == c
  {
    if c in PartFiles(parts) {
      var i :| 0 <= i < |parts| && PartFiles(parts)[i] == c;
      assert parts[i] in parts && parts[i].file == c;
    }
    if p :| p in parts && p.file == c {
      var i :| 0 <= i < |parts| && parts[i] == p;
      assert PartFiles(parts)[i] == c;
    }
  }

  /** The parts, one by one, say what their inputs say. */
  ghost predicate PartsSay(env: Env, h: Header, files: seq<FileInput>, parts: seq<FileParts>) {
    |parts| == |files| && forall i | 0 <= i < |files| :: FileSays(env, h, files[i], parts[i].file, parts[i].atoms)
  }

  lemma PartsAreSaid(env: Env, h: Header, files: seq<FileInput>, parts: seq<FileParts>)
    requires |parts| == |files| && forall i | 0 <= i < |files| :: NormalizeFile(env, h, files[i]) == Some(parts[i])
    ensures PartsSay(env, h, files, parts)
  {
    forall i | 0 <= i < |files| ensures FileSays(env, h, files[i], parts[i].file, parts[i].atoms) {
      FileIs(env, h, files[i]);
    }
  }

  lemma FileIsThere(env: Env, h: Header, files: seq<FileInput>, cs: ChangeSet, parts: seq<FileParts>, f: FileInput)
    requires PartsSay(env, h, files, parts) && f in files
    requires forall p | p in parts :: p.file in cs.files && forall b | b in p.atoms :: b in cs.atoms
    ensures HasFile(env, h, cs, f)
  {
    var i :| 0 <= i < |files| && files[i] == f;
    assert parts[i] in parts && FileSays(env, h, f, parts[i].file, parts[i].atoms);
  }

  lemma PartGiven(env: Env, h: Header, files: seq<FileInput>, parts: seq<FileParts>, p: FileParts)
    requires PartsSay(env, h, files, parts) && p in parts
    ensures FileGiven(env, h, files, p.file)
    ensures forall b | b in p.atoms :: AtomGiven(env, h, files, b)
  {
    var i :| 0 <= i < |parts| && parts[i] == p;
    assert files[i] in files && FileSays(env, h, files[i], p.file, p.atoms);
    forall b | b in p.atoms ensures AtomGiven(env, h, files, b) {
      assert SaidBy(env, h, files[i], b);
      var a :| a in files[i].atoms && AtomSays(env, h, files[i], a, b);
    }
  }

  lemma RecordsSay(env: Env, h: Header, files: seq<FileInput>, cs: ChangeSet, parts: seq<FileParts>)
    requires |parts| == |files| && forall i | 0 <= i < |files| :: NormalizeFile(env, h, files[i]) == Some(parts[i])
    requires forall c :: c in cs.files <==> exists p :: p in parts && p.file == c
    requires forall b :: b in cs.atoms <==> exists p :: p in parts && b in p.atoms
    ensures RecordsMatch(env, h, files, cs)
  {
    PartsAreSaid(env, h, files, parts);
    forall f | f in files ensures HasFile(env, h, cs, f) {
      FileIsThere(env, h, files, cs, parts, f);
    }
    forall c | c in cs.files ensures FileGiven(env, h, files, c) {
      var p :| p in parts && p.file == c;
      PartGiven(env, h, files, parts, p);
    }
    forall b | b in cs.atoms ensures AtomGiven(env, h, files, b) {
      var p :| p in parts && b in p.atoms;
      PartGiven(env, h, files, parts, p);
    }
  }

  lemma SourcesSay(env: Env, h: Header, files: seq<FileInput>, cs: ChangeSet, parts: seq<FileParts>)
    requires SoundHash(env) && forall f | f in files :: GenuineInput(env, f)
    requires |parts| == |files| && forall i | 0 <= i < |files| :: NormalizeFile(env, h, files[i]) == Some(parts[i])
    requires cs == Assemble(env, h, parts)
    ensures SourcesMatch(files, cs)
  {
    var table := TableOf(PartSources(parts));
    forall s ensures s in PartSources(parts) <==> SourceGiven(files, s) {
      PartSourceGiven(env, h, files, parts, s);
    }
    forall s, t | s in PartSources(parts) && t in PartSources(parts) && s.id == t.id ensures s == t {
      GivenSourceOk(env, files, s);
      GivenSourceOk(env, files, t);
      SourcesWithOneIdAgree(env, s, t);
    }
    TableByFinds(IdOfSource, PartSources(parts));
    TableByContents(IdOfSource, PartSources(parts));
    forall s ensures s in cs.sources <==> s in PartSources(parts) {
      ListedSource(table, s);
      assert IdOfSource(s) == s.id;
    }
  }

  lemma ListedSource(table: SourceTable, s: SourceRef)
    requires forall id | id in table :: table[id].id == id
    ensures s in SortedSources(table) <==> s.id in table && table[s.id] == s
  {
    var ids := SortedSet(table.Keys, TextKey);
    if s in SortedSources(table) {
      var i :| 0 <= i < |ids| && SortedSources(table)[i] == s;
      assert ids[i] in ids;
    }
    if s.id in table && table[s.id] == s {
      assert s.id in ids;
      var i :| 0 <= i < |ids| && ids[i] == s.id;
      assert SortedSources(table)[i] == s;
    }
  }

  lemma GivenSourceOk(env: Env, files: seq<FileInput>, s: SourceRef)
    requires (forall f | f in files :: GenuineInput(env, f)) && SourceGiven(files, s)
    ensures SourceRefOk(env, s)
  {
    var f :| f in files && Brings(f, s);
    GenuineSides(env, f);
  }

  lemma PartBrings(env: Env, h: Header, f: FileInput, p: FileParts, s: SourceRef)
    requires NormalizeFile(env, h, f) == Some(p)
    ensures s in SourcesOfPart(p) <==> Brings(f, s)
  {
    FileIs(env, h, f);
  }

  lemma PartSourceGiven(env: Env, h: Header, files: seq<FileInput>, parts: seq<FileParts>, s: SourceRef)
    requires |parts| == |files| && forall i | 0 <= i < |files| :: NormalizeFile(env, h, files[i]) == Some(parts[i])
    ensures s in PartSources(parts) <==> SourceGiven(files, s)
  {
    FlatMember(SourcesOfPart, parts, s);
    if s in PartSources(parts) {
      var p :| p in parts && s in SourcesOfPart(p);
      var i :| 0 <= i < |parts| && parts[i] == p;
      PartBrings(env, h, files[i], parts[i], s);
      assert files[i] in files;
    }
    if SourceGiven(files, s) {
      var f :| f in files && Brings(f, s);
      var i :| 0 <= i < |files| && files[i] == f;
      PartBrings(env, h, files[i], parts[i], s);
      assert parts[i] in parts;
    }
  }

  lemma DiagnosticsSay(env: Env, files: seq<ChangedFile>, d: Diagnostic)
    ensures d in Diagnostics(env, files) <==> BinaryFile(env, files, d)
  {
    var ids, make := BinaryFileIds(files), DiagnosticMaker(env);
    SortBySorts(Map(make, ids), DiagnosticKey);
    if d in Map(make, ids) {
      var i :| 0 <= i < |ids| && Map(make, ids)[i] == d;
      FlatMember(BinaryIdOf, files, ids[i]);
    }
    if c :| c in files && c.isBinary && d.fileId == c.id && d.id == env.hash(DiagnosticPayload(c.id)) {
      assert c.id in BinaryIdOf(c);
      FlatMember(BinaryIdOf, files, c.id);
      var i :| 0 <= i < |ids| && ids[i] == c.id;
      assert Map(make, ids)[i] == d;
    }
  }

  /** What comes out says exactly what went in. */
  lemma NormalizedSays(env: Env, h: Header, files: seq<FileInput>, cs: ChangeSet)
    requires SoundHash(env) && (forall f | f in files :: GenuineInput(env, f)) && Normalize(env, h, files) == Some(cs)
    ensures SetSays(env, h, files, cs)
  {
    var parts := PartsOfSet(env, h, files, cs);
    RecordsSay(env, h, files, cs, parts);
    SourcesSay(env, h, files, cs, parts);
    AssembledParts(env, h, parts);
  }

  lemma AssembledParts(env: Env, h: Header, parts: seq<FileParts>)
    ensures var cs := Assemble(env, h, parts);
      && cs.header == h && DiagnosticsMatch(env, cs)
      && cs.id == env.hash(SetPayload(cs.header, cs.sources, cs.files, cs.atoms, cs.diagnostics))
  {
    var cs := Assemble(env, h, parts);
    forall d ensures d in cs.diagnostics <==> BinaryFile(env, cs.files, d) {
      DiagnosticsSay(env, cs.files, d);
    }
  }

  // ------------------------------------------------------------------ order

  /** Base path, head path, status, id. */
  ghost predicate FileBefore(c: ChangedFile, d: ChangedFile) {
    var oldPath, otherOld := if c.oldPath.Some? then c.oldPath.value else "", if d.oldPath.Some? then d.oldPath.value else "";
    var newPath, otherNew := if c.newPath.Some? then c.newPath.value else "", if d.newPath.Some? then d.newPath.value else "";
    if oldPath != otherOld then TextBefore(oldPath, otherOld)
    else if newPath != otherNew then TextBefore(newPath, otherNew)
    else if c.status != d.status then TextBefore(StatusName(c.status), StatusName(d.status))
    else TextBefore(c.id, d.id)
  }

  function StatusName(status: FileStatus): string {
    match status
    case Deleted => "deleted" case Added => "added" case Renamed => "renamed" case Modified => "modified"
  }

  function KindName(kind: AtomKind): string {
    match kind case Replacement => "replacement" case Deletion => "deletion" case Addition => "addition"
  }

  /** Number by number, then text by text. */
  ghost predicate NumbersBefore(xs: seq<int>, ys: seq<int>)
    requires |xs| == |ys|
  {
    exists k | 0 <= k < |xs| :: xs[k] < ys[k] && forall j | 0 <= j < k :: xs[j] == ys[j]
  }

  function SpanNumbers(span: Option<ExactRange>): seq<int> {
    match span case None => [0, 0] case Some(r) => [r.startLine, r.endLine]
  }

  /** Base path and head path of the sources, the line spans, kind and id. */
  ghost predicate AtomBefore(oldPath: string, newPath: string, a: ChangeAtom, otherOld: string, otherNew: string, b: ChangeAtom) {
    var xs, ys := AtomNumbers(a), AtomNumbers(b);
    if oldPath != otherOld then TextBefore(oldPath, otherOld)
    else if newPath != otherNew then TextBefore(newPath, otherNew)
    else if xs != ys then NumbersBefore(xs, ys)
    else if a.kind != b.kind then TextBefore(KindName(a.kind), KindName(b.kind))
    else TextBefore(a.id, b.id)
  }

  lemma TextFirst(s: string, t: string, a: Key, b: Key)
    ensures KeyLess([Text(s)] + a, [Text(t)] + b) <==> if s != t then TextBefore(s, t) else KeyLess(a, b)
  {
    KeyStep(Text(s), Text(t), a, b);
    TextLessIs(s, t);
    TextTrichotomy(s, s);
  }

  lemma LastText(s: string, t: string)
    ensures KeyLess([Text(s)], [Text(t)]) <==> TextBefore(s, t)
  {
    TextFirst(s, t, [], []);
    assert [Text(s)] == [Text(s)] + [] && [Text(t)] == [Text(t)] + [];
    TextLessIs(s, t);
    TextTrichotomy(s, s);
  }

  lemma NamesApart(c: FileStatus, d: FileStatus, k: AtomKind, l: AtomKind)
    ensures StatusText(c) == StatusName(c) && (StatusName(c) == StatusName(d) <==> c == d)
    ensures KindText(k) == KindName(k) && (KindName(k) == KindName(l) <==> k == l)
  {
    assert "added"[0] == 'a' && "modified"[0] == 'm' && "deleted"[0] == 'd' && "renamed"[0] == 'r';
    assert "addition"[0] == 'a' && "deletion"[0] == 'd' && "replacement"[0] == 'r';
  }

  lemma FileOrderIs(c: ChangedFile, d: ChangedFile)
    ensures KeyLess(FileKey(c), FileKey(d)) <==> FileBefore(c, d)
  {
    NamesApart(c.status, d.status, Addition, Addition);
    NamesApart(d.status, c.status, Addition, Addition);
    var c2, d2 := [Text(StatusText(c.status))] + [Text(c.id)], [Text(StatusText(d.status))] + [Text(d.id)];
    var c1, d1 := [Text(PathText(c.newPath))] + c2, [Text(PathText(d.newPath))] + d2;
    assert FileKey(c) == [Text(PathText(c.oldPath))] + c1 && FileKey(d) == [Text(PathText(d.oldPath))] + d1;
    TextFirst(PathText(c.oldPath), PathText(d.oldPath), c1, d1);
    TextFirst(PathText(c.newPath), PathText(d.newPath), c2, d2);
    TextFirst(StatusText(c.status), StatusText(d.status), [Text(c.id)], [Text(d.id)]);
    LastText(c.id, d.id);
  }

  function Nums(xs: seq<int>): Key { seq(|xs|, i requires 0 <= i < |xs| => Num(xs[i])) }

  lemma {:induction false} NumbersFirst(xs: seq<int>, ys: seq<int>, a: Key, b: Key)
    requires |xs| == |ys|
    ensures KeyLess(Nums(xs) + a, Nums(ys) + b) <==> if xs != ys then NumbersBefore(xs, ys) else KeyLess(a, b)
  {
    if xs == [] {
      assert Nums(xs) + a == a && Nums(ys) + b == b;
    } else {
      NumbersFirst(xs[1..], ys[1..], a, b);
      assert Nums(xs) + a == [Num(xs[0])] + (Nums(xs[1..]) + a) && Nums(ys) + b == [Num(ys[0])] + (Nums(ys[1..]) + b);
      KeyStep(Num(xs[0]), Num(ys[0]), Nums(xs[1..]) + a, Nums(ys[1..]) + b);
      NumbersStep(xs, ys);
      assert xs == [xs[0]] + xs[1..] && ys == [ys[0]] + ys[1..];
    }
  }

  lemma NumbersStep(xs: seq<int>, ys: seq<int>)
    requires |xs| == |ys| > 0
    ensures NumbersBefore(xs, ys) <==> xs[0] < ys[0] || (xs[0] == ys[0] && NumbersBefore(xs[1..], ys[1..]))
  {
    if k :| 0 < k < |xs| && xs[k] < ys[k] && forall j | 0 <= j < k :: xs[j] == ys[j] {
      assert xs[1..][k - 1] < ys[1..][k - 1];
    }
    if xs[0] == ys[0] && NumbersBefore(xs[1..], ys[1..]) {
      var k :| 0 <= k < |xs[1..]| && xs[1..][k] < ys[1..][k] && forall j | 0 <= j < k :: xs[1..][j] == ys[1..][j];
      assert xs[k + 1] < ys[k + 1];
      forall j | 0 <= j < k + 1 ensures xs[j] == ys[j] {
        assert j > 0 ==> xs[1..][j - 1] == ys[1..][j - 1];
      }
    }
  }

  function AtomNumbers(a: ChangeAtom): seq<int> { SpanNumbers(a.oldSpan) + SpanNumbers(a.newSpan) }

  lemma AtomKeyParts(table: SourceTable, a: ChangeAtom)
    ensures AtomKey(table, a) ==
      [Text(RefPath(table, a.oldRef))] + ([Text(RefPath(table, a.newRef))] + (Nums(AtomNumbers(a)) + ([Text(KindText(a.kind))] + [Text(a.id)])))
  {
    assert Nums(AtomNumbers(a)) == [Num(StartOf(a.oldSpan)), Num(EndOf(a.oldSpan)), Num(StartOf(a.newSpan)), Num(EndOf(a.newSpan))];
  }

  lemma AtomOrderIs(table: SourceTable, a: ChangeAtom, b: ChangeAtom)
    ensures KeyLess(AtomKey(table, a), AtomKey(table, b)) <==>
      AtomBefore(RefPath(table, a.oldRef), RefPath(table, a.newRef), a, RefPath(table, b.oldRef), RefPath(table, b.newRef), b)
  {
    AtomKeyParts(table, a);
    AtomKeyParts(table, b);
    var a3, b3 := [Text(KindText(a.kind))] + [Text(a.id)], [Text(KindText(b.kind))] + [Text(b.id)];
    var a2, b2 := Nums(AtomNumbers(a)) + a3, Nums(AtomNumbers(b)) + b3;
    TextFirst(RefPath(table, a.oldRef), RefPath(table, b.oldRef), [Text(RefPath(table, a.newRef))] + a2, [Text(RefPath(table, b.newRef))] + b2);
    TextFirst(RefPath(table, a.newRef), RefPath(table, b.newRef), a2, b2);
    NumbersFirst(AtomNumbers(a), AtomNumbers(b), a3, b3);
    KindThenId(a, b);
  }

  lemma KindThenId(a: ChangeAtom, b: ChangeAtom)
    ensures KeyLess([Text(KindText(a.kind))] + [Text(a.id)], [Text(KindText(b.kind))] + [Text(b.id)]) <==>
      if a.kind != b.kind then TextBefore(KindName(a.kind), KindName(b.kind)) else TextBefore(a.id, b.id)
  {
    NamesApart(Added, Added, a.kind, b.kind);
    NamesApart(Added, Added, b.kind, a.kind);
    TextFirst(KindText(a.kind), KindText(b.kind), [Text(a.id)], [Text(b.id)]);
    LastText(a.id, b.id);
  }

  /** The path of the source an id names in the set; nothing for no id. */
  ghost predicate PathSaid(cs: ChangeSet, ref: Option<string>, path: string) {
    match ref
    case None => path == ""
    case Some(id) => exists s :: s in cs.sources && s.id == id && s.path == path
  }

  /** Sources by id, files and atoms by their keys, diagnostics by their file. */
  ghost predicate SetInOrder(cs: ChangeSet) {
    && (forall i, j | 0 <= i < j < |cs.sources| :: TextBefore(cs.sources[i].id, cs.sources[j].id))
    && (forall i, j | 0 <= i < j < |cs.files| :: !FileBefore(cs.files[j], cs.files[i]))
    && (forall i, j | 0 <= i < j < |cs.atoms| :: AtomsInOrder(cs, cs.atoms[i], cs.atoms[j]))
    && (forall i, j | 0 <= i < j < |cs.diagnostics| :: TextBefore(cs.diagnostics[i].fileId, cs.diagnostics[j].fileId))
  }

  ghost predicate AtomsInOrder(cs: ChangeSet, a: ChangeAtom, b: ChangeAtom) {
    exists oldPath, newPath, otherOld, otherNew ::
      && PathSaid(cs, a.oldRef, oldPath) && PathSaid(cs, a.newRef, newPath)
      && PathSaid(cs, b.oldRef, otherOld) && PathSaid(cs, b.newRef, otherNew)
      && !AtomBefore(otherOld, otherNew, b, oldPath, newPath, a)
  }

  lemma SourceOrder(cs: ChangeSet)
    requires StrictlySorted(cs.sources, SourceKey)
    ensures forall i, j | 0 <= i < j < |cs.sources| :: TextBefore(cs.sources[i].id, cs.sources[j].id)
  {
    forall i, j | 0 <= i < j < |cs.sources| ensures TextBefore(cs.sources[i].id, cs.sources[j].id) {
      LastText(cs.sources[i].id, cs.sources[j].id);
    }
  }

  lemma FileOrder(cs: ChangeSet)
    requires Sorted(cs.files, FileKey)
    ensures forall i, j | 0 <= i < j < |cs.files| :: !FileBefore(cs.files[j], cs.files[i])
  {
    forall i, j | 0 <= i < j < |cs.files| ensures !FileBefore(cs.files[j], cs.files[i]) {
      FileOrderIs(cs.files[j], cs.files[i]);
    }
  }

  lemma DiagnosticsBefore(c: Diagnostic, d: Diagnostic)
    requires c.fileId != d.fileId
    ensures KeyLess(DiagnosticKey(c), DiagnosticKey(d)) <==> TextBefore(c.fileId, d.fileId)
  {
    var x, y := [Text("binary_source_unavailable"), Text(c.id)], [Text("binary_source_unavailable"), Text(d.id)];
    assert DiagnosticKey(c) == [Text(c.fileId)] + x && DiagnosticKey(d) == [Text(d.fileId)] + y;
    TextFirst(c.fileId, d.fileId, x, y);
  }

  lemma DiagnosticOrder(ds: seq<Diagnostic>)
    requires StrictlySorted(ds, DiagnosticKey)
    requires forall i, j | 0 <= i < j < |ds| :: ds[i].fileId != ds[j].fileId
    ensures forall i, j | 0 <= i < j < |ds| :: TextBefore(ds[i].fileId, ds[j].fileId)
  {
    forall i, j | 0 <= i < j < |ds| ensures TextBefore(ds[i].fileId, ds[j].fileId) {
      DiagnosticsBefore(ds[i], ds[j]);
    }
  }

  lemma PathSaidIs(cs: ChangeSet, ref: Option<string>)
    requires KnownSource(TableOf(cs.sources), ref)
    ensures PathSaid(cs, ref, RefPath(TableOf(cs.sources), ref))
  {
    TableByContents(IdOfSource, cs.sources);
    if ref.Some? {
      assert IdOfSource(TableOf(cs.sources)[ref.value]) == TableOf(cs.sources)[ref.value].id;
    }
  }

  lemma AtomsOrder(cs: ChangeSet)
    requires AtomListOk(cs)
    ensures forall i, j | 0 <= i < j < |cs.atoms| :: AtomsInOrder(cs, cs.atoms[i], cs.atoms[j])
  {
    var table := TableOf(cs.sources);
    SortBySorts(cs.atoms, AtomOrder(table));
    forall i, j | 0 <= i < j < |cs.atoms| ensures AtomsInOrder(cs, cs.atoms[i], cs.atoms[j]) {
      var a, b := cs.atoms[i], cs.atoms[j];
      PathSaidIs(cs, a.oldRef);
      PathSaidIs(cs, a.newRef);
      PathSaidIs(cs, b.oldRef);
      PathSaidIs(cs, b.newRef);
      AtomOrderIs(table, b, a);
      assert !KeyLess(AtomOrder(table)(cs.atoms[j]), AtomOrder(table)(cs.atoms[i]));
    }
  }

  /** What comes out is in order. */
  lemma NormalizedInOrder(env: Env, h: Header, files: seq<FileInput>, cs: ChangeSet)
    requires Normalize(env, h, files) == Some(cs)
    ensures SetInOrder(cs)
  {
    SourceOrder(cs);
    FileOrder(cs);
    AtomsOrder(cs);
    DiagnosticOrder(cs.diagnostics);
  }
}
