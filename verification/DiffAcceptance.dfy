/** Which diffs normalize, said on the input's own fields. */
module DiffAcceptance {
  import opened Ordering
  import opened Sorting
  import opened SourceText
  import opened ChangeModel
  import opened Normalizer
  import opened NormalizerProofs

  // ---------------------------------------------------------- the description

  /** No control characters, and not empty. */
  predicate Printable(s: string) { |s| > 0 && forall i | 0 <= i < |s| :: s[i] as int >= 0x20 }

  /** The snapshot is what it says: its hashes are those of its parts. */
  predicate Genuine(env: Env, s: Snapshot) {
    && Printable(s.ref.repository) && Printable(s.ref.revision) && env.pathOk(s.ref.path)
    && s.ref.contentHash == env.hash(ContentPayload(s.content))
    && s.ref.id == env.hash(SourcePayload(s.ref.repository, s.ref.revision, s.ref.path, s.ref.contentHash))
  }

  predicate GenuineInput(env: Env, f: FileInput) {
    && (f.oldPath.Some? ==> env.pathOk(f.oldPath.value)) && (f.newPath.Some? ==> env.pathOk(f.newPath.value))
    && (f.oldSnapshot.Some? ==> Genuine(env, f.oldSnapshot.value)) && (f.newSnapshot.Some? ==> Genuine(env, f.newSnapshot.value))
  }

  /** Increasing changed lines inside a span of lines that the source has. */
  predicate SideFits(span: Option<LineSpan>, lines: seq<nat>, snapshot: Option<Snapshot>) {
    && span.Some? && snapshot.Some? && lines != []
    && 1 <= span.value.startLine <= span.value.endLine <= |Lines(snapshot.value.content)|
    && (forall i | 0 <= i < |lines| :: span.value.startLine <= lines[i] <= span.value.endLine)
    && (forall i, j | 0 <= i < j < |lines| :: lines[i] < lines[j])
  }

  predicate SideEmpty(span: Option<LineSpan>, lines: seq<nat>) { span == None && lines == [] }

  /** Diff positions increase; each names a changed line of its own side, once. */
  predicate PositionsFit(a: AtomInput) {
    && (forall i | 0 <= i < |a.positions| ::
          && a.positions[i].diffPosition >= 1
          && match a.positions[i].side
             case Base => a.positions[i].sourceLine in a.deletedLines
             case Head => a.positions[i].sourceLine in a.addedLines)
    && (forall i, j | 0 <= i < j < |a.positions| ::
          && a.positions[i].diffPosition < a.positions[j].diffPosition
          && !(a.positions[i].side == a.positions[j].side && a.positions[i].sourceLine == a.positions[j].sourceLine))
  }

  /** An addition has a head side only, a deletion a base side only, a replacement both. */
  predicate AtomFits(f: FileInput, a: AtomInput) {
    && (match a.kind
        case Addition => SideEmpty(a.oldSpan, a.deletedLines) && SideFits(a.newSpan, a.addedLines, f.newSnapshot)
        case Deletion => SideFits(a.oldSpan, a.deletedLines, f.oldSnapshot) && SideEmpty(a.newSpan, a.addedLines)
        case Replacement =>
          SideFits(a.oldSpan, a.deletedLines, f.oldSnapshot) && SideFits(a.newSpan, a.addedLines, f.newSnapshot))
    && PositionsFit(a)
  }

  /** A snapshot of this repository, revision and path. */
  predicate Endpoint(snapshot: Option<Snapshot>, repository: string, revision: string, path: Option<string>) {
    && snapshot.Some? && path == Some(snapshot.value.ref.path)
    && snapshot.value.ref.repository == repository && snapshot.value.ref.revision == revision
  }

  predicate PathsFit(f: FileInput) {
    match f.status
    case Added => f.oldPath == None && f.newPath != None
    case Deleted => f.oldPath != None && f.newPath == None
    case Modified => f.oldPath != None && f.newPath == f.oldPath
    case Renamed => f.oldPath != None && f.newPath != None && f.newPath != f.oldPath
  }

  /** The sources a text file comes with. */
  predicate SnapshotsFit(h: Header, f: FileInput) {
    match f.status
    case Added => f.oldSnapshot == None && Endpoint(f.newSnapshot, h.repository, h.head, f.newPath)
    case Deleted => Endpoint(f.oldSnapshot, h.repository, h.base, f.oldPath) && f.newSnapshot == None
    case _ => Endpoint(f.oldSnapshot, h.repository, h.base, f.oldPath) && Endpoint(f.newSnapshot, h.repository, h.head, f.newPath)
  }

  ghost predicate InSome(lines: AtomInput -> seq<nat>, atoms: seq<AtomInput>, n: nat) {
    exists a :: a in atoms && n in lines(a)
  }

  /** Every line of the text is in the lines of some atom. */
  ghost predicate AllLines(content: string, lines: AtomInput -> seq<nat>, atoms: seq<AtomInput>) {
    forall n: nat | 1 <= n <= |Lines(content)| :: InSome(lines, atoms, n)
  }

  function InputAdded(a: AtomInput): seq<nat> { a.addedLines }
  function InputDeleted(a: AtomInput): seq<nat> { a.deletedLines }

  /** An added (deleted) file is additions (deletions) of all its lines; another file has
      atoms, except that a rename without other change has none. */
  ghost predicate StatusFits(f: FileInput) {
    match f.status
    case Added =>
      && f.newSnapshot.Some? && (forall a | a in f.atoms :: a.kind == Addition)
      && AllLines(f.newSnapshot.value.content, InputAdded, f.atoms)
    case Deleted =>
      && f.oldSnapshot.Some? && (forall a | a in f.atoms :: a.kind == Deletion)
      && AllLines(f.oldSnapshot.value.content, InputDeleted, f.atoms)
    case Modified => f.atoms != [] && !SameText(f)
    case Renamed => f.atoms == [] <==> SameText(f)
  }

  predicate SameText(f: FileInput) {
    f.oldSnapshot.Some? && f.newSnapshot.Some? && f.oldSnapshot.value.ref.contentHash == f.newSnapshot.value.ref.contentHash
  }

  /** No line is changed by two atoms. */
  ghost predicate LinesApart(f: FileInput) {
    forall i, j, line: nat | 0 <= i < j < |f.atoms| ::
      && (line in f.atoms[i].addedLines ==> line !in f.atoms[j].addedLines)
      && (line in f.atoms[i].deletedLines ==> line !in f.atoms[j].deletedLines)
  }

  /** A binary file has paths only. */
  ghost predicate FileFits(h: Header, f: FileInput) {
    && PathsFit(f)
    && if f.isBinary then f.oldSnapshot == None && f.newSnapshot == None && f.atoms == []
       else SnapshotsFit(h, f) && (forall a | a in f.atoms :: AtomFits(f, a)) && LinesApart(f) && StatusFits(f)
  }

  /** No two files have one base path, and no two one head path. */
  predicate PathsApart(files: seq<FileInput>) {
    forall i, j | 0 <= i < j < |files| ::
      && !(files[i].oldPath.Some? && files[i].oldPath == files[j].oldPath)
      && !(files[i].newPath.Some? && files[i].newPath == files[j].newPath)
  }

  predicate HeaderFits(h: Header) {
    Printable(h.repository) && Printable(h.base) && Printable(h.head) && Printable(h.version)
  }

  // ------------------------------------------------------------------ one atom

  lemma PrintableIs(s: string)
    ensures Printable(s) <==> IsText(s)
  {
    if IsText(s) {
      forall i | 0 <= i < |s| ensures s[i] as int >= 0x20 {
        assert s[i] in s;
      }
    }
  }

  lemma GenuineIs(env: Env, s: Snapshot)
    ensures Genuine(env, s) <==> SnapshotOk(env, s)
  {
    PrintableIs(s.ref.repository);
    PrintableIs(s.ref.revision);
  }

  /** Positions in order of their diff positions are in key order. */
  lemma PositionsInOrder(ps: seq<DiffPosition>)
    ensures (StrictlySorted(ps, PositionKey) && forall i, j | 0 <= i < j < |ps| :: ps[i].diffPosition != ps[j].diffPosition)
       <==> forall i, j | 0 <= i < j < |ps| :: ps[i].diffPosition < ps[j].diffPosition
  {
    forall i, j | 0 <= i < j < |ps| && ps[i].diffPosition != ps[j].diffPosition
      ensures KeyLess(PositionKey(ps[i]), PositionKey(ps[j])) <==> ps[i].diffPosition < ps[j].diffPosition
    {
    }
  }

  lemma PositionsAre(a: AtomInput)
    requires LinesOk(a.addedLines) && LinesOk(a.deletedLines)
    ensures PositionsFit(a) <==>
      && PositionsOk(a.positions)
      && forall i | 0 <= i < |a.positions| ::
           a.positions[i].sourceLine in (if a.positions[i].side.Base? then a.deletedLines else a.addedLines)
  {
    PositionsInOrder(a.positions);
    if PositionsFit(a) {
      forall i | 0 <= i < |a.positions| ensures a.positions[i].sourceLine >= 1 {
        LineIsPositive(if a.positions[i].side.Base? then a.deletedLines else a.addedLines, a.positions[i].sourceLine);
      }
    }
  }

  lemma LineIsPositive(lines: seq<nat>, line: nat)
    requires LinesOk(lines) && line in lines
    ensures line >= 1
  {
  }

  lemma SideFitsIs(span: Option<LineSpan>, lines: seq<nat>, snapshot: Option<Snapshot>)
    requires span.Some? ==> span.value.Valid()
    requires LinesOk(lines)
    ensures SideFits(span, lines, snapshot) <==>
      span.Some? && snapshot.Some? && lines != [] && SpanOf(span, snapshot).Some? && LinesInside(lines, SpanOf(span, snapshot).value)
  {
    if span.Some? && snapshot.Some? {
      RangeIsExactSlice(snapshot.value.content, span.value);
    }
  }

  lemma SideFitsLines(span: Option<LineSpan>, lines: seq<nat>, snapshot: Option<Snapshot>)
    requires SideFits(span, lines, snapshot)
    ensures span.value.Valid() && LinesOk(lines)
  {
  }

  lemma AtomFitsInput(f: FileInput, a: AtomInput)
    requires AtomFits(f, a)
    ensures AtomInputOk(a)
  {
    if a.kind != Addition {
      SideFitsLines(a.oldSpan, a.deletedLines, f.oldSnapshot);
    }
    if a.kind != Deletion {
      SideFitsLines(a.newSpan, a.addedLines, f.newSnapshot);
    }
    PositionsAre(a);
  }

  lemma SnapshotIdText(env: Env, s: Option<Snapshot>)
    requires SoundHash(env) && (s.Some? ==> Genuine(env, s.value))
    ensures s.Some? ==> IsText(s.value.ref.id)
  {
  }

  lemma SpanIsValid(span: Option<LineSpan>, snapshot: Option<Snapshot>)
    requires span.Some? ==> span.value.Valid()
    ensures SpanOf(span, snapshot).Some? && SpanOf(span, snapshot).value.Some? ==> SpanOf(span, snapshot).value.value.Valid()
    ensures SpanOf(span, snapshot).Some? ==> SpanOf(span, snapshot).value.Some? == span.Some?
    ensures SpanOf(span, snapshot).Some? && span.Some? ==> snapshot.Some?
  {
    if span.Some? && snapshot.Some? && span.value.endLine <= |Lines(snapshot.value.content)| {
      RangeOffsets(snapshot.value.content, span.value.startLine, span.value.endLine);
    }
  }

  /** One atom is accepted exactly when its sides fit its kind and the sources, and its
      diff positions fit its lines. */
  lemma AtomAcceptedIff(env: Env, h: Header, f: FileInput, a: AtomInput)
    requires SoundHash(env) && HeaderFits(h) && GenuineInput(env, f)
    ensures AtomStep(env, h, f)(a).Some? <==> AtomFits(f, a)
  {
    if AtomFits(f, a) {
      AtomFitsInput(f, a);
    }
    if AtomInputOk(a) {
      PrintableIs(h.version);
      SnapshotIdText(env, f.oldSnapshot);
      SnapshotIdText(env, f.newSnapshot);
      SpanIsValid(a.oldSpan, f.oldSnapshot);
      SpanIsValid(a.newSpan, f.newSnapshot);
      PositionsAre(a);
      SideFitsIs(a.oldSpan, a.deletedLines, f.oldSnapshot);
      SideFitsIs(a.newSpan, a.addedLines, f.newSnapshot);
      DraftOkIff(env, h, f, a);
    }
  }

  lemma DraftOkIff(env: Env, h: Header, f: FileInput, a: AtomInput)
    requires AtomInputOk(a) && IsText(h.version)
    requires f.oldSnapshot.Some? ==> IsText(f.oldSnapshot.value.ref.id)
    requires f.newSnapshot.Some? ==> IsText(f.newSnapshot.value.ref.id)
    requires SpanOf(a.oldSpan, f.oldSnapshot).Some? && SpanOf(a.oldSpan, f.oldSnapshot).value.Some? ==>
      SpanOf(a.oldSpan, f.oldSnapshot).value.value.Valid() && f.oldSnapshot.Some?
    requires SpanOf(a.newSpan, f.newSnapshot).Some? && SpanOf(a.newSpan, f.newSnapshot).value.Some? ==>
      SpanOf(a.newSpan, f.newSnapshot).value.value.Valid() && f.newSnapshot.Some?
    ensures AtomStep(env, h, f)(a).Some? <==>
      && SpanOf(a.oldSpan, f.oldSnapshot).Some? && SpanOf(a.newSpan, f.newSnapshot).Some?
      && LinesInside(a.deletedLines, SpanOf(a.oldSpan, f.oldSnapshot).value)
      && LinesInside(a.addedLines, SpanOf(a.newSpan, f.newSnapshot).value)
      && (match a.kind
          case Addition => a.oldSpan.None? && a.deletedLines == [] && a.newSpan.Some? && a.addedLines != []
          case Deletion => a.newSpan.None? && a.addedLines == [] && a.oldSpan.Some? && a.deletedLines != []
          case Replacement => a.oldSpan.Some? && a.newSpan.Some? && a.addedLines != [] && a.deletedLines != [])
      && forall i | 0 <= i < |a.positions| ::
           a.positions[i].sourceLine in (if a.positions[i].side.Base? then a.deletedLines else a.addedLines)
  {
    if SpanOf(a.oldSpan, f.oldSnapshot).Some? && SpanOf(a.newSpan, f.newSnapshot).Some? {
      var b := Drafted(env, h, f, a);
      DraftedAtom(env, h, f, a);
      BuiltAtomOkIff(env, b);
    }
  }

  /** The atom the normalizer drafts, with its id. */
  function Drafted(env: Env, h: Header, f: FileInput, a: AtomInput): ChangeAtom
    requires AtomInputOk(a) && SpanOf(a.oldSpan, f.oldSnapshot).Some? && SpanOf(a.newSpan, f.newSnapshot).Some?
  {
    var oldSpan, newSpan := SpanOf(a.oldSpan, f.oldSnapshot).value, SpanOf(a.newSpan, f.newSnapshot).value;
    var draft := ChangeAtom("", a.kind, RefOf(oldSpan, f.oldSnapshot), RefOf(newSpan, f.newSnapshot),
                            oldSpan, newSpan, a.addedLines, a.deletedLines, a.positions, h.version);
    draft.(id := AtomId(env, draft))
  }

  lemma DraftedAtom(env: Env, h: Header, f: FileInput, a: AtomInput)
    requires AtomInputOk(a) && SpanOf(a.oldSpan, f.oldSnapshot).Some? && SpanOf(a.newSpan, f.newSnapshot).Some?
    ensures AtomStep(env, h, f)(a).Some? <==> AtomOk(env, Drafted(env, h, f, a))
  {
  }

  lemma BuiltAtomOkIff(env: Env, b: ChangeAtom)
    requires IsText(b.version) && (b.oldRef.Some? ==> IsText(b.oldRef.value)) && (b.newRef.Some? ==> IsText(b.newRef.value))
    requires (b.oldSpan.Some? ==> b.oldSpan.value.Valid()) && (b.newSpan.Some? ==> b.newSpan.value.Valid())
    requires LinesOk(b.addedLines) && LinesOk(b.deletedLines) && PositionsOk(b.positions) && b.id == AtomId(env, b)
    ensures AtomOk(env, b) <==>
      && AtomKindOk(b) && LinesInside(b.deletedLines, b.oldSpan) && LinesInside(b.addedLines, b.newSpan)
      && forall i | 0 <= i < |b.positions| ::
           b.positions[i].sourceLine in (if b.positions[i].side.Base? then b.deletedLines else b.addedLines)
  {
  }

  // ------------------------------------------------------------------ one file

  /** The normalized atom has the input's kind and lines. */
  ghost predicate MadeFrom(a: AtomInput, b: ChangeAtom) {
    b.kind == a.kind && b.addedLines == a.addedLines && b.deletedLines == a.deletedLines
  }

  ghost predicate AllMade(atoms: seq<AtomInput>, drafts: seq<ChangeAtom>) {
    |drafts| == |atoms| && forall i | 0 <= i < |atoms| :: MadeFrom(atoms[i], drafts[i])
  }

  lemma AtomsAcceptedIff(env: Env, h: Header, f: FileInput)
    requires SoundHash(env) && HeaderFits(h) && GenuineInput(env, f)
    ensures Traverse(AtomStep(env, h, f), f.atoms).Some? <==> forall a | a in f.atoms :: AtomFits(f, a)
    ensures Traverse(AtomStep(env, h, f), f.atoms).Some? ==> AllMade(f.atoms, Traverse(AtomStep(env, h, f), f.atoms).value)
  {
    TraverseSpec(AtomStep(env, h, f), f.atoms);
    forall a | a in f.atoms ensures AtomStep(env, h, f)(a).Some? <==> AtomFits(f, a) {
      AtomAcceptedIff(env, h, f, a);
    }
    if Traverse(AtomStep(env, h, f), f.atoms).Some? {
      forall i | 0 <= i < |f.atoms| ensures MadeFrom(f.atoms[i], Traverse(AtomStep(env, h, f), f.atoms).value[i]) {
        NormalizedAtom(env, h, f, f.atoms[i]);
      }
    }
  }

  /** Listed together, lists without repeats repeat nothing exactly when no two share. */
  lemma FlatApartIff<T>(f: T -> seq<nat>, xs: seq<T>)
    requires forall x | x in xs :: NoRepeats(f(x))
    ensures NoRepeats(Flat(f, xs)) <==> forall i, j, line: nat | 0 <= i < j < |xs| && line in f(xs[i]) :: line !in f(xs[j])
  {
    if forall i, j, line: nat | 0 <= i < j < |xs| && line in f(xs[i]) :: line !in f(xs[j]) {
      FlatNoRepeats(f, xs);
    }
    if NoRepeats(Flat(f, xs)) {
      forall i, j, line: nat | 0 <= i < j < |xs| && line in f(xs[i]) ensures line !in f(xs[j]) {
        FlatOneOrigin(f, xs, i, j, line);
      }
    }
  }

  lemma LinesNoRepeats(lines: seq<nat>)
    requires forall i, j | 0 <= i < j < |lines| :: lines[i] < lines[j]
    ensures NoRepeats(lines)
  {
    DistinctIndicesNoRepeats(lines);
  }

  lemma DraftLinesNoRepeats(f: FileInput, drafts: seq<ChangeAtom>)
    requires (forall a | a in f.atoms :: AtomFits(f, a)) && AllMade(f.atoms, drafts)
    ensures forall b | b in drafts :: NoRepeats(b.addedLines) && NoRepeats(b.deletedLines)
  {
    forall b | b in drafts ensures NoRepeats(b.addedLines) && NoRepeats(b.deletedLines) {
      var i :| 0 <= i < |drafts| && drafts[i] == b;
      assert AtomFits(f, f.atoms[i]);
      AtomFitsInput(f, f.atoms[i]);
      LinesNoRepeats(b.addedLines);
      LinesNoRepeats(b.deletedLines);
    }
  }

  lemma LinesApartIff(f: FileInput, drafts: seq<ChangeAtom>)
    requires (forall a | a in f.atoms :: AtomFits(f, a)) && AllMade(f.atoms, drafts)
    ensures OneAtomPerLine(drafts) <==> LinesApart(f)
  {
    DraftLinesNoRepeats(f, drafts);
    FlatApartIff(AddedOf, drafts);
    FlatApartIff(DeletedOf, drafts);
    forall i | 0 <= i < |drafts|
      ensures AddedOf(drafts[i]) == f.atoms[i].addedLines && DeletedOf(drafts[i]) == f.atoms[i].deletedLines
    {
      assert MadeFrom(f.atoms[i], drafts[i]);
    }
    ApartAgree(f, drafts);
  }

  lemma ApartAgree(f: FileInput, drafts: seq<ChangeAtom>)
    requires |drafts| == |f.atoms|
    requires forall i | 0 <= i < |drafts| :: AddedOf(drafts[i]) == f.atoms[i].addedLines && DeletedOf(drafts[i]) == f.atoms[i].deletedLines
    ensures LinesApart(f) <==>
      && (forall i, j, line: nat | 0 <= i < j < |drafts| && line in AddedOf(drafts[i]) :: line !in AddedOf(drafts[j]))
      && (forall i, j, line: nat | 0 <= i < j < |drafts| && line in DeletedOf(drafts[i]) :: line !in DeletedOf(drafts[j]))
  {
  }

  lemma NumbersOf(content: string)
    ensures NoRepeats(LineNumbers(content))
    ensures forall n: nat :: n in LineNumbers(content) <==> 1 <= n <= |Lines(content)|
  {
    DistinctIndicesNoRepeats(LineNumbers(content));
    forall n: nat | 1 <= n <= |Lines(content)| ensures n in LineNumbers(content) {
      assert LineNumbers(content)[n - 1] == n;
    }
  }

  /** Lines that repeat nothing are all the source's lines exactly when each line is in
      some atom. */
  lemma AllLinesIff(content: string, of: ChangeAtom -> seq<nat>, lines: AtomInput -> seq<nat>, atoms: seq<AtomInput>, drafts: seq<ChangeAtom>)
    requires |drafts| == |atoms| && forall i | 0 <= i < |atoms| :: of(drafts[i]) == lines(atoms[i])
    requires NoRepeats(Flat(of, drafts))
    requires forall a, n: nat | a in atoms && n in lines(a) :: 1 <= n <= |Lines(content)|
    ensures multiset(Flat(of, drafts)) == multiset(LineNumbers(content)) <==> AllLines(content, lines, atoms)
  {
    var all, numbers := Flat(of, drafts), LineNumbers(content);
    NumbersOf(content);
    forall n: nat ensures n in all <==> InSome(lines, atoms, n) {
      InSomeIff(of, lines, atoms, drafts, n);
    }
    if multiset(all) == multiset(numbers) {
      forall n: nat ensures n in all <==> n in numbers {
        assert n in all <==> n in multiset(all);
        assert n in numbers <==> n in multiset(numbers);
      }
    }
    if AllLines(content, lines, atoms) {
      SameElementsSameBag(all, numbers);
    }
  }

  lemma InSomeIff(of: ChangeAtom -> seq<nat>, lines: AtomInput -> seq<nat>, atoms: seq<AtomInput>, drafts: seq<ChangeAtom>, n: nat)
    requires |drafts| == |atoms| && forall i | 0 <= i < |atoms| :: of(drafts[i]) == lines(atoms[i])
    ensures n in Flat(of, drafts) <==> InSome(lines, atoms, n)
  {
    FlatMember(of, drafts, n);
    if b :| b in drafts && n in of(b) {
      var i :| 0 <= i < |drafts| && drafts[i] == b;
      assert atoms[i] in atoms;
    }
    if a :| a in atoms && n in lines(a) {
      var i :| 0 <= i < |atoms| && atoms[i] == a;
      assert drafts[i] in drafts;
    }
  }

  lemma KindsAgree(atoms: seq<AtomInput>, drafts: seq<ChangeAtom>, kind: AtomKind)
    requires AllMade(atoms, drafts)
    ensures (forall b | b in drafts :: b.kind == kind) <==> forall a | a in atoms :: a.kind == kind
  {
    forall i | 0 <= i < |atoms| ensures atoms[i] in atoms && drafts[i] in drafts && MadeFrom(atoms[i], drafts[i]) {
    }
  }

  lemma AddedInSource(f: FileInput)
    requires f.newSnapshot.Some? && forall a | a in f.atoms :: AtomFits(f, a)
    ensures forall a, n: nat | a in f.atoms && n in InputAdded(a) :: 1 <= n <= |Lines(f.newSnapshot.value.content)|
  {
    forall a, n: nat | a in f.atoms && n in InputAdded(a) ensures 1 <= n <= |Lines(f.newSnapshot.value.content)| {
      assert AtomFits(f, a);
    }
  }

  lemma DeletedInSource(f: FileInput)
    requires f.oldSnapshot.Some? && forall a | a in f.atoms :: AtomFits(f, a)
    ensures forall a, n: nat | a in f.atoms && n in InputDeleted(a) :: 1 <= n <= |Lines(f.oldSnapshot.value.content)|
  {
    forall a, n: nat | a in f.atoms && n in InputDeleted(a) ensures 1 <= n <= |Lines(f.oldSnapshot.value.content)| {
      assert AtomFits(f, a);
    }
  }

  lemma StatusFitsIff(h: Header, f: FileInput, drafts: seq<ChangeAtom>)
    requires (forall a | a in f.atoms :: AtomFits(f, a)) && AllMade(f.atoms, drafts)
    requires OneAtomPerLine(drafts) && SnapshotsFit(h, f)
    ensures StatusAtomsOk(f.status, f.oldSnapshot, f.newSnapshot, drafts) <==> StatusFits(f)
  {
    match f.status
    case Added =>
      KindsAgree(f.atoms, drafts, Addition);
      AddedInSource(f);
      forall i | 0 <= i < |drafts| ensures AddedOf(drafts[i]) == InputAdded(f.atoms[i]) {
        assert MadeFrom(f.atoms[i], drafts[i]);
      }
      AllLinesIff(f.newSnapshot.value.content, AddedOf, InputAdded, f.atoms, drafts);
    case Deleted =>
      KindsAgree(f.atoms, drafts, Deletion);
      DeletedInSource(f);
      forall i | 0 <= i < |drafts| ensures DeletedOf(drafts[i]) == InputDeleted(f.atoms[i]) {
        assert MadeFrom(f.atoms[i], drafts[i]);
      }
      AllLinesIff(f.oldSnapshot.value.content, DeletedOf, InputDeleted, f.atoms, drafts);
    case _ =>
  }

  lemma ShapeIff(h: Header, f: FileInput)
    ensures FileShapeOk(h, f) <==>
      PathsFit(f) && if f.isBinary then f.oldSnapshot == None && f.newSnapshot == None && f.atoms == [] else SnapshotsFit(h, f)
  {
  }

  /** One file is accepted exactly when it fits. */
  lemma FileAcceptedIff(env: Env, h: Header, f: FileInput)
    requires SoundHash(env) && HeaderFits(h) && GenuineInput(env, f)
    ensures FileAccepted(env, h, f) <==> FileFits(h, f)
  {
    ShapeIff(h, f);
    if FileShapeOk(h, f) && !f.isBinary {
      AtomsAcceptedIff(env, h, f);
      var drafts := Traverse(AtomStep(env, h, f), f.atoms);
      if drafts.Some? {
        LinesApartIff(f, drafts.value);
        if OneAtomPerLine(drafts.value) {
          StatusFitsIff(h, f, drafts.value);
        }
      }
    }
  }

  // ----------------------------------------------------------------- all files

  ghost predicate Shared(p: seq<string>, q: seq<string>) {
    exists path :: path in p && path in q
  }

  lemma SharedPath(p: Option<string>, q: Option<string>)
    ensures Shared(OptionList(p), OptionList(q)) <==> p.Some? && p == q
  {
    if p.Some? && p == q {
      assert p.value in OptionList(p);
    }
  }

  /** Short lists repeat nothing together exactly when no two share a text. */
  lemma ListsApartIff<T>(of: T -> seq<string>, xs: seq<T>)
    requires forall x | x in xs :: NoRepeats(of(x))
    ensures NoRepeats(Flat(of, xs)) <==> forall i, j | 0 <= i < j < |xs| :: !Shared(of(xs[i]), of(xs[j]))
  {
    if forall i, j | 0 <= i < j < |xs| :: !Shared(of(xs[i]), of(xs[j])) {
      forall i, j, path | 0 <= i < j < |xs| && path in of(xs[i]) ensures path !in of(xs[j]) {
        assert !Shared(of(xs[i]), of(xs[j]));
      }
      FlatNoRepeats(of, xs);
    }
    if NoRepeats(Flat(of, xs)) {
      forall i, j | 0 <= i < j < |xs| ensures !Shared(of(xs[i]), of(xs[j])) {
        forall path | path in of(xs[i]) ensures path !in of(xs[j]) {
          FlatOneOrigin(of, xs, i, j, path);
        }
      }
    }
  }

  lemma OptionsNoRepeats(files: seq<FileInput>)
    ensures forall f | f in files :: NoRepeats(InputOldPath(f)) && NoRepeats(InputNewPath(f))
  {
    forall f | f in files ensures NoRepeats(InputOldPath(f)) && NoRepeats(InputNewPath(f)) {
      DistinctIndicesNoRepeats(InputOldPath(f));
      DistinctIndicesNoRepeats(InputNewPath(f));
    }
  }

  lemma PathsApartIff(files: seq<FileInput>)
    ensures InputPathsUnique(files) <==> PathsApart(files)
  {
    OptionsNoRepeats(files);
    ListsApartIff(InputOldPath, files);
    ListsApartIff(InputNewPath, files);
    forall i, j | 0 <= i < j < |files|
      ensures Shared(InputOldPath(files[i]), InputOldPath(files[j])) <==> files[i].oldPath.Some? && files[i].oldPath == files[j].oldPath
      ensures Shared(InputNewPath(files[i]), InputNewPath(files[j])) <==> files[i].newPath.Some? && files[i].newPath == files[j].newPath
    {
      SharedPath(files[i].oldPath, files[j].oldPath);
      SharedPath(files[i].newPath, files[j].newPath);
    }
  }

  lemma HeaderIs(h: Header)
    ensures HeaderFits(h) <==> HeaderOk(h)
  {
    PrintableIs(h.repository);
    PrintableIs(h.base);
    PrintableIs(h.head);
    PrintableIs(h.version);
  }

  lemma FitsMeansInput(env: Env, h: Header, f: FileInput)
    requires GenuineInput(env, f) && FileFits(h, f)
    ensures FileInputOk(env, f)
  {
    GenuineSides(env, f);
    forall i | 0 <= i < |f.atoms| ensures AtomInputOk(f.atoms[i]) {
      assert f.atoms[i] in f.atoms;
      if !f.isBinary {
        AtomFitsInput(f, f.atoms[i]);
      }
    }
  }

  lemma GenuineSides(env: Env, f: FileInput)
    requires GenuineInput(env, f)
    ensures f.oldSnapshot.Some? ==> SnapshotOk(env, f.oldSnapshot.value)
    ensures f.newSnapshot.Some? ==> SnapshotOk(env, f.newSnapshot.value)
  {
    if f.oldSnapshot.Some? {
      GenuineIs(env, f.oldSnapshot.value);
    }
    if f.newSnapshot.Some? {
      GenuineIs(env, f.newSnapshot.value);
    }
  }

  lemma {:induction false} StepRefuses(env: Env, h: Header, files: seq<FileInput>, f: FileInput)
    requires f in files && NormalizeFile(env, h, f).None?
    ensures Normalize(env, h, files).None?
  {
    TraverseSpec(FileStep(env, h), files);
    assert FileStep(env, h)(f).None?;
  }

  /** Genuine sources normalize exactly when the header is text, every file fits, and
      no path is used twice. */
  lemma DiffAcceptedIff(env: Env, h: Header, files: seq<FileInput>)
    requires SoundHash(env) && forall f | f in files :: GenuineInput(env, f)
    ensures Normalize(env, h, files).Some? <==> HeaderFits(h) && (forall f | f in files :: FileFits(h, f)) && PathsApart(files)
  {
    HeaderIs(h);
    if HeaderFits(h) {
      forall f | f in files ensures FileAccepted(env, h, f) <==> FileFits(h, f) {
        FileAcceptedIff(env, h, f);
      }
      if forall f | f in files :: FileFits(h, f) {
        forall f | f in files ensures FileInputOk(env, f) {
          FitsMeansInput(env, h, f);
        }
        NormalizeSucceedsIff(env, h, files);
        PathsApartIff(files);
      } else {
        var f :| f in files && !FileFits(h, f);
        UnfitRefused(env, h, f);
        StepRefuses(env, h, files, f);
      }
    }
  }

  lemma UnfitRefused(env: Env, h: Header, f: FileInput)
    requires !FileAccepted(env, h, f)
    ensures NormalizeFile(env, h, f).None?
  {
    if FileShapeOk(h, f) && !f.isBinary && Traverse(AtomStep(env, h, f), f.atoms).Some? {
      var drafts := Traverse(AtomStep(env, h, f), f.atoms).value;
      SortBySorts(drafts, AtomOrder(TableOf(SnapshotRefs(f))));
      FileAtomsOkBag(f, drafts, SortBy(drafts, AtomOrder(TableOf(SnapshotRefs(f)))));
    }
  }

  // ------------------------------------------------------------- what comes out

  /** Each diff position of a normalized atom names a changed line of its own side. */
  lemma PositionsOnTheirSides(env: Env, h: Header, files: seq<FileInput>, cs: ChangeSet, a: ChangeAtom, p: DiffPosition)
    requires SoundHash(env) && (forall f | f in files :: GenuineInput(env, f)) && Normalize(env, h, files) == Some(cs)
    requires a in cs.atoms && p in a.positions
    ensures p.side == Base ==> p.sourceLine in a.deletedLines
    ensures p.side == Head ==> p.sourceLine in a.addedLines
  {
    NormalizedAtomOk(env, h, files, cs, a);
    var i :| 0 <= i < |a.positions| && a.positions[i] == p;
  }

  lemma NormalizedAtomOk(env: Env, h: Header, files: seq<FileInput>, cs: ChangeSet, a: ChangeAtom)
    requires SoundHash(env) && (forall f | f in files :: GenuineInput(env, f)) && Normalize(env, h, files) == Some(cs)
    requires a in cs.atoms
    ensures AtomOk(env, a)
  {
    DiffAcceptedIff(env, h, files);
    forall f | f in files ensures FileInputOk(env, f) {
      FitsMeansInput(env, h, f);
    }
    var parts := Traverse(FileStep(env, h), files).value;
    AcceptedParts(env, h, files);
    SortBySorts(PartAtoms(parts), AtomOrder(TableOf(PartSources(parts))));
    assert a in PartAtoms(parts);
    FlatMember(AtomsOfPart, parts, a);
    var p :| p in parts && a in AtomsOfPart(p);
    assert PartsOk(env, h, p);
  }

  /** One head position per line. */
  function HeadPositions(n: nat): seq<DiffPosition> {
    seq(n, i requires 0 <= i < n => DiffPosition(Head, i + 1, i + 1))
  }

  /** An added file as one addition of all its lines, each with its head position. */
  function WholeFile(path: string, snapshot: Snapshot): FileInput {
    var n := |Lines(snapshot.content)|;
    FileInput(Added, None, Some(path), None, Some(snapshot),
              [AtomInput(Addition, None, Some(LineSpan(1, n)), LineNumbers(snapshot.content), [], HeadPositions(n))], false)
  }

  /** Adding a file that is not empty, in one atom with head positions, normalizes. */
  lemma WholeFileAdded(env: Env, h: Header, path: string, snapshot: Snapshot)
    requires SoundHash(env) && HeaderFits(h) && Genuine(env, snapshot) && snapshot.content != []
    requires path == snapshot.ref.path && snapshot.ref.repository == h.repository && snapshot.ref.revision == h.head
    ensures Normalize(env, h, [WholeFile(path, snapshot)]).Some?
  {
    var f := WholeFile(path, snapshot);
    var a := f.atoms[0];
    var n := |Lines(snapshot.content)|;
    FullSpanCoversSource(snapshot.content);
    NumbersOf(snapshot.content);
    assert PositionsFit(a) by {
      forall i | 0 <= i < n ensures a.positions[i].sourceLine in a.addedLines {
        assert a.addedLines[i] == i + 1;
      }
    }
    assert AtomFits(f, a);
    forall line: nat | 1 <= line <= n ensures InSome(InputAdded, f.atoms, line) {
      assert a in f.atoms && line in InputAdded(a);
    }
    assert FileFits(h, f);
    DiffAcceptedIff(env, h, [f]);
  }
}
