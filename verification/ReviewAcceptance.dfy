/** Which inputs the review build accepts, and what its envelope says, field by field. */
module ReviewAcceptance {
  import opened Ordering
  import opened Sorting
  import opened SourceText
  import opened ChangeModel
  import opened FileAnalysis
  import opened ReviewUnits
  import opened SourceResult
  import opened SourceSuccess
  import opened SideUnits
  import opened ChangeReview
  import opened ReviewProofs
  import Analyses = AnalysisAcceptance
  import opened DiffAcceptance
  import opened DiffOutput
  import opened SetAcceptance

  // ---------------------------------------------------------- the description

  /** The offsets count code units up to places on the range's lines; an end right
      after a newline may count as the line before. */
  ghost predicate RangeFits(content: string, r: ExactRange) {
    && r.endLine <= |Lines(content)|
    && exists p: nat, q: nat :: PlaceAt(content, r.startOffset, p) && PlaceAt(content, r.endOffset, q)
         && |SplitNewlines(content[..p])| == r.startLine
         && (|| |SplitNewlines(content[..q])| == r.endLine
             || (q > 0 && content[q - 1] == '\n' && |SplitNewlines(content[..q])| == r.endLine + 1))
  }

  predicate PlaceAt(content: string, offset: nat, p: nat) {
    p <= |content| && |Utf16Encoded(content[..p])| == offset
  }

  ghost predicate RangesFit(content: string, a: Analysis) {
    && (forall d | d in a.declarations :: RangeFits(content, d.range))
    && (forall r | r in a.regions :: RangeFits(content, r.range))
    && (forall f | f in a.facts :: RangeFits(content, f.range))
  }

  /** The tables hold, for every source and no other, its text and a valid parse of it. */
  ghost predicate SourceGivenFits(env: Env, inp: Inputs, s: SourceRef) {
    && s.id in inp.snapshots && s.id in inp.parses
    && inp.snapshots[s.id].ref == s && inp.parses[s.id].ref == s
    && s.contentHash == env.hash(ContentPayload(inp.snapshots[s.id].content))
    && Analyses.AnalysisFits(env, s.id, inp.parses[s.id].analysis)
    && RangesFit(inp.snapshots[s.id].content, inp.parses[s.id].analysis)
  }

  ghost predicate IsSource(cs: ChangeSet, id: string) {
    exists s :: s in cs.sources && s.id == id
  }

  ghost predicate TablesFit(env: Env, inp: Inputs) {
    && (forall s | s in inp.changeSet.sources :: SourceGivenFits(env, inp, s))
    && (forall id | id in inp.snapshots || id in inp.parses :: IsSource(inp.changeSet, id))
  }

  /** The atoms the record lists. */
  ghost predicate Lists(cs: ChangeSet, c: ChangedFile, a: ChangeAtom) {
    a in cs.atoms && a.id in c.atomIds
  }

  predicate HasText(inp: Inputs, ref: Option<string>) { ref.Some? && ref.value in inp.snapshots }

  /** The lines of the listed atoms are the lines of the text. */
  ghost predicate LinesAre(inp: Inputs, c: ChangedFile, of: ChangeAtom -> seq<nat>, content: string) {
    forall n: nat :: 1 <= n <= |Lines(content)| <==> LineListed(inp, c, of, n)
  }

  ghost predicate LineListed(inp: Inputs, c: ChangedFile, of: ChangeAtom -> seq<nat>, n: nat) {
    exists a :: Lists(inp.changeSet, c, a) && n in of(a)
  }

  /** As for the normalizer: an added (deleted) file is additions (deletions) of all its
      lines; another one has atoms unless it is a rename without other change. */
  ghost predicate RecordStatusFits(inp: Inputs, c: ChangedFile) {
    match c.status
    case Added =>
      && HasText(inp, c.newRef) && (forall a | Lists(inp.changeSet, c, a) :: a.kind == Addition)
      && LinesAre(inp, c, AddedOf, inp.snapshots[c.newRef.value].content)
    case Deleted =>
      && HasText(inp, c.oldRef) && (forall a | Lists(inp.changeSet, c, a) :: a.kind == Deletion)
      && LinesAre(inp, c, DeletedOf, inp.snapshots[c.oldRef.value].content)
    case Modified => HasText(inp, c.oldRef) && HasText(inp, c.newRef) && c.atomIds != [] && !SameHash(inp, c)
    case Renamed => HasText(inp, c.oldRef) && HasText(inp, c.newRef) && (c.atomIds == [] <==> SameHash(inp, c))
  }

  predicate SameHash(inp: Inputs, c: ChangedFile) {
    && HasText(inp, c.oldRef) && HasText(inp, c.newRef)
    && inp.snapshots[c.oldRef.value].ref.contentHash == inp.snapshots[c.newRef.value].ref.contentHash
  }

  ghost predicate InputsFit(env: Env, inp: Inputs) {
    && ChangeSetFits(env, inp.changeSet) && TablesFit(env, inp)
    && forall c | c in inp.changeSet.files && !c.isBinary :: RecordStatusFits(inp, c)
  }

  // ------------------------------------------------------------------ the texts

  lemma PlaceIs(content: string, offset: nat, p: nat)
    ensures PlaceAt(content, offset, p) <==> offset in Boundaries(content) && Boundaries(content)[offset] == p
  {
    BoundariesExact(content);
    if p <= |content| {
      Utf16LengthCounts(content[..p]);
    }
  }

  lemma RangeFitsIs(content: string, r: ExactRange)
    ensures RangeFits(content, r) <==> ParseRangeOk(content, r)
  {
    forall p: nat ensures PlaceAt(content, r.startOffset, p) <==> r.startOffset in Boundaries(content) && Boundaries(content)[r.startOffset] == p {
      PlaceIs(content, r.startOffset, p);
    }
    forall q: nat ensures PlaceAt(content, r.endOffset, q) <==> r.endOffset in Boundaries(content) && Boundaries(content)[r.endOffset] == q {
      PlaceIs(content, r.endOffset, q);
    }
    forall k: nat | k <= |content| ensures |SplitNewlines(content[..k])| == Newlines(content[..k]) + 1 {
      PiecesCountNewlines(content[..k]);
    }
  }

  lemma RangesFitIs(content: string, a: Analysis)
    ensures RangesFit(content, a) <==> ParseRangesOk(content, a)
  {
    forall r ensures RangeFits(content, r) <==> ParseRangeOk(content, r) {
      RangeFitsIs(content, r);
    }
  }

  lemma SourceGivenIs(env: Env, inp: Inputs, s: SourceRef)
    requires s.id in inp.snapshots && s.id in inp.parses
    ensures SourceGivenFits(env, inp, s) <==> SourceInputOk(env, s, inp.snapshots[s.id], inp.parses[s.id])
  {
    Analyses.ValidIffFits(env, s.id, inp.parses[s.id].analysis);
    RangesFitIs(inp.snapshots[s.id].content, inp.parses[s.id].analysis);
  }

  lemma KeysAre(inp: Inputs)
    ensures inp.snapshots.Keys == SourceIds(inp.changeSet) && inp.parses.Keys == SourceIds(inp.changeSet) <==>
      && (forall s | s in inp.changeSet.sources :: s.id in inp.snapshots && s.id in inp.parses)
      && (forall id | id in inp.snapshots || id in inp.parses :: IsSource(inp.changeSet, id))
  {
    var ids := SourceIds(inp.changeSet);
    forall id ensures id in ids <==> IsSource(inp.changeSet, id) {
    }
    if (forall s | s in inp.changeSet.sources :: s.id in inp.snapshots && s.id in inp.parses)
       && forall id | id in inp.snapshots || id in inp.parses :: IsSource(inp.changeSet, id) {
      assert inp.snapshots.Keys <= ids && ids <= inp.snapshots.Keys;
      assert inp.parses.Keys <= ids && ids <= inp.parses.Keys;
    }
    if inp.snapshots.Keys == ids && inp.parses.Keys == ids {
      forall s | s in inp.changeSet.sources ensures s.id in inp.snapshots && s.id in inp.parses {
        assert s.id in ids;
      }
      forall id | id in inp.snapshots || id in inp.parses ensures IsSource(inp.changeSet, id) {
        assert id in ids;
      }
    }
  }

  lemma TablesFitIs(env: Env, inp: Inputs)
    ensures TablesFit(env, inp) <==> TablesOk(env, inp)
  {
    KeysAre(inp);
    forall s | s in inp.changeSet.sources && s.id in inp.snapshots && s.id in inp.parses {
      SourceGivenIs(env, inp, s);
    }
  }

  // ------------------------------------------------------------------ the files

  lemma ListedAtoms(env: Env, cs: ChangeSet, c: ChangedFile, a: ChangeAtom)
    requires FileEntriesOk(env, cs) && NoRepeats(AtomIds(cs.atoms)) && c in cs.files
    ensures a in AtomsOfFile(cs, c) <==> Lists(cs, c, a)
  {
    FileAtomFacts(env, cs, c);
    if Lists(cs, c, a) {
      ListedAtom(env, cs, c, a);
    }
  }

  lemma AtomsGivenIff(env: Env, cs: ChangeSet, c: ChangedFile)
    requires FileEntriesOk(env, cs) && c in cs.files
    ensures AtomsOfFile(cs, c) == [] <==> c.atomIds == []
  {
    EntryOk(env, cs, c);
    ResolvedAtoms(cs, c);
  }

  lemma LinesAreIs(inp: Inputs, c: ChangedFile, of: ChangeAtom -> seq<nat>, atoms: seq<ChangeAtom>, content: string)
    requires forall a :: a in atoms <==> Lists(inp.changeSet, c, a)
    requires NoRepeats(Flat(of, atoms))
    ensures LinesAre(inp, c, of, content) <==> multiset(Flat(of, atoms)) == multiset(LineNumbers(content))
  {
    var all, numbers := Flat(of, atoms), LineNumbers(content);
    NumbersOf(content);
    forall n: nat ensures n in all <==> LineListed(inp, c, of, n) {
      FlatMember(of, atoms, n);
    }
    if multiset(all) == multiset(numbers) {
      forall n: nat ensures n in all <==> n in numbers {
        assert n in all <==> n in multiset(all);
        assert n in numbers <==> n in multiset(numbers);
      }
    }
    if LinesAre(inp, c, of, content) {
      SameElementsSameBag(all, numbers);
    }
  }

  /** The file's atoms, as the record lists them. */
  ghost predicate AtomsAre(inp: Inputs, c: ChangedFile, atoms: seq<ChangeAtom>) {
    && (forall a :: a in atoms <==> Lists(inp.changeSet, c, a))
    && OneAtomPerLine(atoms) && (atoms == [] <==> c.atomIds == [])
  }

  lemma FileAtomsAre(env: Env, inp: Inputs, c: ChangedFile)
    requires ChangeSetOk(env, inp.changeSet) && c in inp.changeSet.files
    ensures AtomsAre(inp, c, AtomsOfFile(inp.changeSet, c))
  {
    forall a ensures a in AtomsOfFile(inp.changeSet, c) <==> Lists(inp.changeSet, c, a) {
      ListedAtoms(env, inp.changeSet, c, a);
    }
    FileAtomFacts(env, inp.changeSet, c);
    AtomsGivenIff(env, inp.changeSet, c);
  }

  lemma StatusOfAtoms(inp: Inputs, c: ChangedFile, atoms: seq<ChangeAtom>)
    requires AtomsAre(inp, c, atoms)
    ensures RecordStatusFits(inp, c) <==> StatusAtomsOk(c.status, SnapshotFor(inp, c.oldRef), SnapshotFor(inp, c.newRef), atoms)
  {
    match c.status
    case Added =>
      if HasText(inp, c.newRef) {
        LinesAreIs(inp, c, AddedOf, atoms, inp.snapshots[c.newRef.value].content);
      }
    case Deleted =>
      if HasText(inp, c.oldRef) {
        LinesAreIs(inp, c, DeletedOf, atoms, inp.snapshots[c.oldRef.value].content);
      }
    case _ =>
  }

  lemma StatusIs(env: Env, inp: Inputs, c: ChangedFile)
    requires ChangeSetOk(env, inp.changeSet) && c in inp.changeSet.files && !c.isBinary
    ensures RecordStatusFits(inp, c) <==> FileSemanticsOk(inp, c)
  {
    FileAtomsAre(env, inp, c);
    StatusOfAtoms(inp, c, AtomsOfFile(inp.changeSet, c));
  }

  /** The build accepts exactly the inputs that fit. */
  lemma InputsOkIff(env: Env, inp: Inputs)
    requires ProperAtoms(env, inp.changeSet)
    ensures InputsOk(env, inp) <==> InputsFit(env, inp)
  {
    ValidIffFits(env, inp.changeSet);
    TablesFitIs(env, inp);
    if ChangeSetOk(env, inp.changeSet) {
      forall c | c in inp.changeSet.files && !c.isBinary {
        StatusIs(env, inp, c);
      }
    }
  }

  // --------------------------------------------------------------- the envelope

  /** File id, base before head, path, source. */
  ghost predicate ResultBefore(r: FileResult, q: FileResult) {
    if r.fileId != q.fileId then TextBefore(r.fileId, q.fileId)
    else if r.scope.role != q.scope.role then r.scope.role == Base
    else if r.path != q.path then TextBefore(r.path, q.path)
    else TextBefore(r.scope.refId, q.scope.refId)
  }

  /** Context lines, source lines, id. */
  ghost predicate UnitBefore(u: Unit, v: Unit) {
    var xs := [u.identity.contextSpan.startLine, u.identity.contextSpan.endLine, u.identity.sourceSpan.startLine, u.identity.sourceSpan.endLine];
    var ys := [v.identity.contextSpan.startLine, v.identity.contextSpan.endLine, v.identity.sourceSpan.startLine, v.identity.sourceSpan.endLine];
    if xs != ys then NumbersBefore(xs, ys) else TextBefore(u.id, v.id)
  }

  /** A result of a file's side: its file, source, path and quality, its units in order
      with distinct ids, its lists in order. */
  ghost predicate ResultSays(inp: Inputs, c: ChangedFile, role: Side, r: FileResult) {
    && r.fileId == c.id && r.scope.role == role
    && (if role == Base then c.oldRef else c.newRef) == Some(r.scope.refId)
    && r.scope.refId in inp.snapshots && r.scope.refId in inp.parses
    && r.path == inp.snapshots[r.scope.refId].ref.path
    && r.parserQuality == inp.parses[r.scope.refId].analysis.quality
    && (forall i, j | 0 <= i < j < |r.units| :: !UnitBefore(r.units[j], r.units[i]) && r.units[i].id != r.units[j].id)
    && (forall u | u in r.units :: u.identity.file == r.path && u.scope == Some(r.scope))
    && (forall u, code | u in r.units && Asked(r.parserQuality, code) :: code in u.quality)
    && (forall i, j | 0 <= i < j < |r.unassignedLines| :: r.unassignedLines[i] < r.unassignedLines[j])
    && (forall i, j | 0 <= i < j < |r.unassignedAtoms| :: TextBefore(r.unassignedAtoms[i], r.unassignedAtoms[j]))
    && (r.unassignedDiagnostic <==> r.unassignedAtoms != [])
    && (forall u, line | u in r.units && line in u.changedNewLines :: line !in r.unassignedLines)
    && (forall u, id | u in r.units && id in u.atomIds :: id !in r.unassignedAtoms)
  }

  ghost predicate ResultGiven(inp: Inputs, r: FileResult) {
    exists c, role :: c in inp.changeSet.files && !c.isBinary && ResultSays(inp, c, role, r)
  }

  ghost predicate SideHasResult(inp: Inputs, b: Batch, c: ChangedFile, role: Side) {
    exists r :: r in b.results && ResultSays(inp, c, role, r)
  }

  /** The atom is unassigned in some result. */
  ghost predicate LeftIn(results: seq<FileResult>, id: string) {
    exists r :: r in results && id in r.unassignedAtoms
  }

  /** The envelope's own fields. */
  ghost predicate EnvelopeSays(cs: ChangeSet, b: Batch) {
    && b.changeSetId == cs.id
    && (forall i, j | 0 <= i < j < |b.results| :: !ResultBefore(b.results[j], b.results[i]))
    && (forall i, j | 0 <= i < j < |b.unassigned| :: TextBefore(b.unassigned[i], b.unassigned[j]))
    && (forall id :: id in b.unassigned <==> LeftIn(b.results, id))
    && (b.unassignedDiagnostic <==> b.unassigned != [])
    && (b.binaryDiagnostic <==> exists c :: c in cs.files && c.isBinary)
  }

  ghost predicate BatchSays(inp: Inputs, b: Batch) {
    && EnvelopeSays(inp.changeSet, b)
    && (forall r | r in b.results :: ResultGiven(inp, r))
    && (forall c, role | c in inp.changeSet.files && !c.isBinary && FileRef(c, role).Some? :: SideHasResult(inp, b, c, role))
  }

  lemma ResultOrderIs(r: FileResult, q: FileResult)
    ensures KeyLess(ResultKey(r), ResultKey(q)) <==> ResultBefore(r, q)
  {
    var r2, q2 := [Text(r.path)] + [Text(r.scope.refId)], [Text(q.path)] + [Text(q.scope.refId)];
    var n, m := if r.scope.role == Base then 0 else 1, if q.scope.role == Base then 0 else 1;
    assert ResultKey(r) == [Text(r.fileId)] + ([Num(n)] + r2) && ResultKey(q) == [Text(q.fileId)] + ([Num(m)] + q2);
    TextFirst(r.fileId, q.fileId, [Num(n)] + r2, [Num(m)] + q2);
    KeyStep(Num(n), Num(m), r2, q2);
    TextFirst(r.path, q.path, [Text(r.scope.refId)], [Text(q.scope.refId)]);
    LastText(r.scope.refId, q.scope.refId);
  }

  lemma UnitOrderIs(u: Unit, v: Unit)
    ensures KeyLess(UnitKey(u), UnitKey(v)) <==> UnitBefore(u, v)
  {
    var xs := [u.identity.contextSpan.startLine, u.identity.contextSpan.endLine, u.identity.sourceSpan.startLine, u.identity.sourceSpan.endLine];
    var ys := [v.identity.contextSpan.startLine, v.identity.contextSpan.endLine, v.identity.sourceSpan.startLine, v.identity.sourceSpan.endLine];
    assert UnitKey(u) == Nums(xs) + [Text(u.id)] && UnitKey(v) == Nums(ys) + [Text(v.id)];
    NumbersFirst(xs, ys, [Text(u.id)], [Text(v.id)]);
    LastText(u.id, v.id);
  }

  lemma TextsOrdered(texts: seq<string>)
    requires StrictlySorted(texts, TextKey)
    ensures forall i, j | 0 <= i < j < |texts| :: TextBefore(texts[i], texts[j])
  {
    forall i, j | 0 <= i < j < |texts| ensures TextBefore(texts[i], texts[j]) {
      Analyses.TextKeysAre(texts[i], texts[j]);
    }
  }

  lemma LinesOrdered(lines: seq<nat>)
    requires StrictlySorted(lines, NumberKey)
    ensures forall i, j | 0 <= i < j < |lines| :: lines[i] < lines[j]
  {
    forall i, j | 0 <= i < j < |lines| ensures lines[i] < lines[j] {
      KeyStep(Num(lines[i]), Num(lines[j]), [], []);
      assert NumberKey(lines[i]) == [Num(lines[i])] + [] && NumberKey(lines[j]) == [Num(lines[j])] + [];
    }
  }

  lemma UnitsOrdered(units: seq<Unit>)
    requires Sorted(units, UnitKey) && NoRepeats(Map(IdOfUnit, units))
    ensures forall i, j | 0 <= i < j < |units| :: !UnitBefore(units[j], units[i]) && units[i].id != units[j].id
  {
    forall i, j | 0 <= i < j < |units| ensures !UnitBefore(units[j], units[i]) && units[i].id != units[j].id {
      UnitOrderIs(units[j], units[i]);
      NoRepeatsIndices(Map(IdOfUnit, units), i, j);
      assert Map(IdOfUnit, units)[i] == units[i].id && Map(IdOfUnit, units)[j] == units[j].id;
    }
  }

  lemma ResultParts(tools: Tools, job: Job)
    requires Build(tools, job).Some?
    ensures var r := Build(tools, job).value;
      && ResultOk(tools.naming, r) && r.fileId == job.fileId && r.scope == Scope(job.role, job.snapshot.ref.id)
      && r.path == job.snapshot.ref.path && r.parserQuality == job.analysis.quality
  {
  }

  lemma ResultSaysIs(env: Env, tools: Tools, inp: Inputs, job: Job) returns (c: ChangedFile)
    requires InputsOk(env, inp) && job in Jobs(inp) && Build(tools, job).Some?
    ensures c in inp.changeSet.files && !c.isBinary && SideKnown(inp, c, job.role) && job == JobAt(inp, c, job.role)
    ensures ResultSays(inp, c, job.role, Build(tools, job).value)
  {
    c := JobOrigin(inp, job);
    var r := Build(tools, job).value;
    ResultParts(tools, job);
    SourceChecked(env, inp, FileRef(c, job.role).value);
    ResultListsSay(tools.naming, r);
  }

  lemma LeftOutNotShown(r: FileResult)
    requires ReportsOk(r)
    ensures forall u, line | u in r.units && line in u.changedNewLines :: line !in r.unassignedLines
    ensures forall u, id | u in r.units && id in u.atomIds :: id !in r.unassignedAtoms
  {
    forall u, line | u in r.units && line in u.changedNewLines ensures line !in r.unassignedLines {
      assert line in NewLinesOf(r.units);
    }
    forall u, id | u in r.units && id in u.atomIds ensures id !in r.unassignedAtoms {
      assert id in NamedAtoms(r.units);
    }
  }

  lemma ResultListsSay(naming: Naming, r: FileResult)
    requires ResultOk(naming, r)
    ensures forall i, j | 0 <= i < j < |r.units| :: !UnitBefore(r.units[j], r.units[i]) && r.units[i].id != r.units[j].id
    ensures forall u | u in r.units :: u.identity.file == r.path && u.scope == Some(r.scope)
    ensures forall u, code | u in r.units && Asked(r.parserQuality, code) :: code in u.quality
    ensures forall i, j | 0 <= i < j < |r.unassignedLines| :: r.unassignedLines[i] < r.unassignedLines[j]
    ensures forall i, j | 0 <= i < j < |r.unassignedAtoms| :: TextBefore(r.unassignedAtoms[i], r.unassignedAtoms[j])
    ensures r.unassignedDiagnostic <==> r.unassignedAtoms != []
    ensures forall u, line | u in r.units && line in u.changedNewLines :: line !in r.unassignedLines
    ensures forall u, id | u in r.units && id in u.atomIds :: id !in r.unassignedAtoms
  {
    LeftOutNotShown(r);
    UnitsOrdered(r.units);
    LinesOrdered(r.unassignedLines);
    TextsOrdered(r.unassignedAtoms);
    forall u | u in r.units ensures u.identity.file == r.path && u.scope == Some(r.scope) && RequiredCodes(r.parserQuality) <= u.quality {
      assert UnitFits(naming, r, u);
    }
    forall u, code | u in r.units && Asked(r.parserQuality, code) ensures code in u.quality {
      RequiredCodesAre(r.parserQuality, code);
    }
  }

  lemma ResultsGiven(env: Env, tools: Tools, inp: Inputs, b: Batch)
    requires BuildAll(env, tools, inp) == Some(b)
    ensures forall r | r in b.results :: ResultGiven(inp, r)
    ensures forall c, role | c in inp.changeSet.files && !c.isBinary && FileRef(c, role).Some? :: SideHasResult(inp, b, c, role)
  {
    BatchResults(env, tools, inp, b);
    forall r | r in b.results ensures ResultGiven(inp, r) {
      var job :| job in Jobs(inp) && Build(tools, job) == Some(r);
      var c := ResultSaysIs(env, tools, inp, job);
    }
    forall c, role | c in inp.changeSet.files && !c.isBinary && FileRef(c, role).Some? ensures SideHasResult(inp, b, c, role) {
      SideBuilt(env, tools, inp, b, c, role);
    }
  }

  lemma SideBuilt(env: Env, tools: Tools, inp: Inputs, b: Batch, c: ChangedFile, role: Side)
    requires BuildAll(env, tools, inp) == Some(b)
    requires c in inp.changeSet.files && !c.isBinary && FileRef(c, role).Some?
    ensures SideHasResult(inp, b, c, role)
  {
    BatchResults(env, tools, inp, b);
    SideJobListed(env, inp, c, role);
    var job := JobAt(inp, c, role);
    var d := ResultSaysIs(env, tools, inp, job);
    FilesIdentified(inp.changeSet, c, d);
  }

  lemma EnvelopeIs(cs: ChangeSet, b: Batch)
    requires BatchOk(b) && b.changeSetId == cs.id && b.binaryDiagnostic == HasBinary(cs.files)
    ensures EnvelopeSays(cs, b)
  {
    forall i, j | 0 <= i < j < |b.results| ensures !ResultBefore(b.results[j], b.results[i]) {
      ResultOrderIs(b.results[j], b.results[i]);
    }
    TextsOrdered(b.unassigned);
    forall id ensures id in b.unassigned <==> LeftIn(b.results, id) {
      assert id in b.unassigned <==> id in set k | k in b.unassigned;
      assert id in UnassignedIds(b.results) <==> LeftIn(b.results, id);
    }
  }

  lemma BuiltEnvelope(env: Env, tools: Tools, inp: Inputs, b: Batch)
    requires BuildAll(env, tools, inp) == Some(b)
    ensures BatchOk(b) && b.changeSetId == inp.changeSet.id && b.binaryDiagnostic == HasBinary(inp.changeSet.files)
  {
  }

  /** A finished build says exactly this about its files, sources and left-out atoms. */
  lemma BuiltSays(env: Env, tools: Tools, inp: Inputs, b: Batch)
    requires BuildAll(env, tools, inp) == Some(b)
    ensures BatchSays(inp, b)
  {
    ResultsGiven(env, tools, inp, b);
    BuiltEnvelope(env, tools, inp, b);
    EnvelopeIs(inp.changeSet, b);
  }

  /** The units of a file's side in a finished build: one for every region that keeps a
      line, the rest of every declared unit that keeps one, and no others. */
  lemma BuiltUnits(env: Env, tools: Tools, inp: Inputs, b: Batch, c: ChangedFile, role: Side)
    requires BuildAll(env, tools, inp) == Some(b) && ProperAtoms(env, inp.changeSet)
    requires c in inp.changeSet.files && !c.isBinary && SideKnown(inp, c, role)
    ensures exists r :: r in b.results && ResultSays(inp, c, role, r) && UnitsSay(tools, JobAt(inp, c, role), r.units)
  {
    BatchResults(env, tools, inp, b);
    SideJobListed(env, inp, c, role);
    var job := JobAt(inp, c, role);
    var d := ResultSaysIs(env, tools, inp, job);
    FilesIdentified(inp.changeSet, c, d);
    JobUnitsSay(env, tools, inp, job);
  }

  lemma JobUnitsSay(env: Env, tools: Tools, inp: Inputs, job: Job)
    requires InputsOk(env, inp) && ProperAtoms(env, inp.changeSet) && job in Jobs(inp) && Build(tools, job).Some?
    ensures UnitsSay(tools, job, Build(tools, job).value.units)
  {
    JobAtoms(env, inp, job);
    JobRegions(env, inp, job);
    SideUnitsAre(tools, job);
  }
}
