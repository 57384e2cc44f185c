/** Whole diffs that show where two expectations of the build fail: one is reported
    unassigned and still named, three are accepted and then refused. */
module OneLineOutcomes {
  import opened Ordering
  import opened Sorting
  import opened SourceText
  import opened ChangeModel
  import opened Normalizer
  import opened FileAnalysis
  import opened ReviewUnits
  import opened RegionAssignment
  import opened SourceResult
  import opened SourceProofs
  import opened SourceSuccess
  import Review = ChangeReview
  import opened ReviewProofs
  import opened ReviewSuccess
  import opened OneLineSide
  import opened OneLineDiff

  // -------------------------------------------------------------- the parses

  /** No characters of line 1. */
  const EMPTY := ExactRange(1, 1, 0, 0)

  const CLEAN := ParserQuality(L1, Some(0), Some(0), [])

  /** A formal parse that found nothing. */
  const BLANK := Analysis([], [], [], CLEAN, [])

  function ImportRegion(env: Env, sourceId: string, range: ExactRange): Region {
    Region(env.hash(RegionPayload(sourceId, "import_region", "import@1", range, None)),
           "import_region", "import@1", range, None, false)
  }

  /** A formal parse with one import region. */
  function OneImport(env: Env, sourceId: string, range: ExactRange, warnings: seq<string>): Analysis {
    Analysis([], [ImportRegion(env, sourceId, range)], [], ParserQuality(L1, Some(0), Some(0), warnings), [])
  }

  function Owner(env: Env, sourceId: string, kind: string): Declaration {
    Declaration(env.hash(DeclarationPayload(sourceId, kind, "A", LINE)), kind, "A", "A", LINE, None)
  }

  function Field(env: Env, sourceId: string, owner: string): Region {
    Region(env.hash(RegionPayload(sourceId, "field_region", "A.x", LINE, Some(owner))),
           "field_region", "A.x", LINE, Some(owner), false)
  }

  /** Two declarations around the line, and a field region of the same name in each. */
  function TwinFields(env: Env, sourceId: string): Analysis {
    var first, second := Owner(env, sourceId, "class"), Owner(env, sourceId, "struct");
    Analysis(SortBy([first, second], DeclarationKey),
             SortBy([Field(env, sourceId, first.id), Field(env, sourceId, second.id)], RegionKey),
             [], CLEAN, [])
  }

  function Warning(code: string): string { code + ":1" }

  lemma {:induction false} CodeOfWarning(code: string, rest: string)
    requires ':' !in code
    ensures WarningCode(code + ":" + rest) == code
  {
    if code == [] {
      assert code + ":" + rest == ":" + rest;
    } else {
      CodeOfWarning(code[1..], rest);
      assert (code + ":" + rest)[1..] == code[1..] + ":" + rest;
    }
  }

  lemma PairSorted<T(!new)>(x: T, y: T, key: T -> Key, id: T -> string)
    requires id(x) != id(y)
    ensures Sorted(SortBy([x, y], key), key)
    ensures forall z :: z in SortBy([x, y], key) <==> z == x || z == y
    ensures NoRepeats(Map(id, SortBy([x, y], key)))
  {
    var sorted := SortBy([x, y], key);
    SortBySorts([x, y], key);
    MapBag(id, [x, y], sorted);
    DistinctIndicesNoRepeats(Map(id, [x, y]));
    NoRepeatsBag(Map(id, [x, y]), Map(id, sorted));
    forall z ensures z in sorted <==> z == x || z == y {
      assert z in sorted <==> z in multiset(sorted);
      assert z in [x, y] <==> z in multiset([x, y]);
    }
  }

  lemma BlankFits(env: Env, snapshot: Snapshot)
    ensures Fits(env, snapshot, BLANK)
  {
    DistinctIndicesNoRepeats(Map(IdOfRegion, []));
    DistinctIndicesNoRepeats(Map(IdOfDeclaration, []));
    DistinctIndicesNoRepeats(Map(IdOfFact, []));
  }

  lemma OneImportListed(env: Env, sourceId: string, range: ExactRange, warnings: seq<string>)
    ensures IdsUnique(OneImport(env, sourceId, range, warnings)) && StableOrder(OneImport(env, sourceId, range, warnings))
  {
    DistinctIndicesNoRepeats(Map(IdOfRegion, [ImportRegion(env, sourceId, range)]));
    DistinctIndicesNoRepeats(Map(IdOfDeclaration, []));
    DistinctIndicesNoRepeats(Map(IdOfFact, []));
  }

  lemma OneImportOk(env: Env, sourceId: string, range: ExactRange, warnings: seq<string>)
    requires range.Valid() && SortedTexts(warnings)
    ensures AnalysisOk(env, sourceId, OneImport(env, sourceId, range, warnings))
  {
    OneImportListed(env, sourceId, range, warnings);
  }

  lemma LineRangeOk(text: string)
    requires OneCharacter(text)
    ensures ParseRangeOk(text, LINE) && ParseRangeOk(text, ExactRange(1, 1, 0, 0))
  {
    OneLine(text);
    NewlineTextAccepted(text, 1, 1);
    RangeOnBoundaries(text, 1, 1);
    assert Join(Lines(text)[..0]) == [] && text[..0] == [];
  }

  lemma OneImportFits(env: Env, snapshot: Snapshot, range: ExactRange, warnings: seq<string>)
    requires OneCharacter(snapshot.content) && SortedTexts(warnings) && range in {LINE, EMPTY}
    ensures Fits(env, snapshot, OneImport(env, snapshot.ref.id, range, warnings))
  {
    OneImportOk(env, snapshot.ref.id, range, warnings);
    LineRangeOk(snapshot.content);
    RangesOn(snapshot.content, OneImport(env, snapshot.ref.id, range, warnings), range);
  }

  lemma TwinFieldsFit(env: Env, snapshot: Snapshot)
    requires SoundHash(env) && OneCharacter(snapshot.content)
    ensures Fits(env, snapshot, TwinFields(env, snapshot.ref.id))
  {
    TwinFieldsOk(env, snapshot.ref.id);
    TwinMembers(env, snapshot.ref.id);
    LineRangeOk(snapshot.content);
    RangesOn(snapshot.content, TwinFields(env, snapshot.ref.id), LINE);
  }

  lemma TwinMembers(env: Env, sourceId: string)
    requires SoundHash(env)
    ensures var a := TwinFields(env, sourceId);
      var first, second := Owner(env, sourceId, "class"), Owner(env, sourceId, "struct");
      var r, q := Field(env, sourceId, first.id), Field(env, sourceId, second.id);
      && r != q && (forall s :: s in a.regions <==> s == r || s == q)
      && (forall d :: d in a.declarations <==> d == first || d == second)
  {
    var first, second := Owner(env, sourceId, "class"), Owner(env, sourceId, "struct");
    OwnersDiffer(env, sourceId);
    PairSorted(first, second, DeclarationKey, IdOfDeclaration);
    PairSorted(Field(env, sourceId, first.id), Field(env, sourceId, second.id), RegionKey, IdOfRegion);
  }

  /** All structures lie on the given range. */
  lemma RangesOn(text: string, a: Analysis, range: ExactRange)
    requires ParseRangeOk(text, range) && a.facts == []
    requires forall d | d in a.declarations :: d.range == range
    requires forall r | r in a.regions :: r.range == range
    ensures Review.ParseRangesOk(text, a)
  {
  }

  lemma TwinFieldsOk(env: Env, sourceId: string)
    requires SoundHash(env)
    ensures AnalysisOk(env, sourceId, TwinFields(env, sourceId))
  {
    TwinsShaped(env, sourceId);
    TwinsListed(env, sourceId);
    TwinsOwned(env, sourceId);
  }

  lemma TwinsShaped(env: Env, sourceId: string)
    requires SoundHash(env)
    ensures ShapesOk(TwinFields(env, sourceId)) && DeclarationsOk(env, sourceId, TwinFields(env, sourceId))
  {
    TwinMembers(env, sourceId);
  }

  lemma TwinsListed(env: Env, sourceId: string)
    requires SoundHash(env)
    ensures IdsUnique(TwinFields(env, sourceId)) && StableOrder(TwinFields(env, sourceId))
  {
    var first, second := Owner(env, sourceId, "class"), Owner(env, sourceId, "struct");
    OwnersDiffer(env, sourceId);
    PairSorted(first, second, DeclarationKey, IdOfDeclaration);
    PairSorted(Field(env, sourceId, first.id), Field(env, sourceId, second.id), RegionKey, IdOfRegion);
    DistinctIndicesNoRepeats(Map(IdOfFact, []));
  }

  lemma TwinsOwned(env: Env, sourceId: string)
    requires SoundHash(env)
    ensures OwnersOk(env, sourceId, TwinFields(env, sourceId))
  {
    var first, second := Owner(env, sourceId, "class"), Owner(env, sourceId, "struct");
    TwinMembers(env, sourceId);
    TwinsListed(env, sourceId);
    TableOfDeclarations(TwinFields(env, sourceId).declarations);
    FieldOwned(env, sourceId, TwinFields(env, sourceId).declarations, first);
    FieldOwned(env, sourceId, TwinFields(env, sourceId).declarations, second);
  }

  lemma FieldOwned(env: Env, sourceId: string, declarations: seq<Declaration>, owner: Declaration)
    requires owner.id in TableBy(IdOfDeclaration, declarations)
    requires TableBy(IdOfDeclaration, declarations)[owner.id] == owner && owner.range == LINE
    ensures var r := Field(env, sourceId, owner.id);
      RegionIdOk(env, sourceId, r) && RegionOwnerOk(TableBy(IdOfDeclaration, declarations), r)
  {
  }

  lemma OwnersDiffer(env: Env, sourceId: string)
    requires SoundHash(env)
    ensures var first, second := Owner(env, sourceId, "class"), Owner(env, sourceId, "struct");
      && first.id != second.id
      && Field(env, sourceId, first.id).id != Field(env, sourceId, second.id).id
  {
    var first, second := Owner(env, sourceId, "class"), Owner(env, sourceId, "struct");
    assert DeclarationPayload(sourceId, "class", "A", LINE) != DeclarationPayload(sourceId, "struct", "A", LINE);
    assert RegionPayload(sourceId, "field_region", "A.x", LINE, Some(first.id))
        != RegionPayload(sourceId, "field_region", "A.x", LINE, Some(second.id));
  }

  // ------------------------------------------------------- unassigned yet named

  /** Only the base source has a region around the line. */
  function BaseImport(env: Env, e: Edit): Side -> Analysis {
    (role: Side) => if role == Base then OneImport(env, e.SourceOn(env, Base).id, LINE, []) else BLANK
  }

  lemma BaseImportFits(env: Env, e: Edit)
    requires Setting(env, e)
    ensures ParsesFit(env, e, BaseImport(env, e))
  {
    OneImportFits(env, e.SnapshotOfSide(env, Base), LINE, []);
    BlankFits(env, e.SnapshotOfSide(env, Head));
  }

  /** The replacement of the only character is reported unassigned, because no head
      unit shows it, while a base unit names it: a place in the unassigned list does
      not mean that no unit names the atom. */
  lemma UnassignedYetNamed(env: Env, naming: Naming, e: Edit)
    returns (inp: Review.Inputs, b: Review.Batch, a: ChangeAtom)
    requires Setting(env, e) && SoundNaming(naming)
    ensures Normalize(env, e.header, [e.Input(env)]) == Some(inp.changeSet)
    ensures Review.BuildAll(env, Tools(naming, NoUnits), inp) == Some(b)
    ensures a in inp.changeSet.atoms && a.id in b.unassigned && NamedIn(b, a.id)
  {
    var tools, parsed := Tools(naming, NoUnits), BaseImport(env, e);
    BaseImportFits(env, e);
    var file;
    inp, file, a := EditAccepted(env, naming, e, parsed);
    forall job | job in Review.Jobs(inp) ensures Buildable(tools, job) {
      ImportBuildable(env, naming, e, job, a);
    }
    RespectedBuildSucceedsIff(env, tools, inp);
    b := Review.BuildAll(env, tools, inp).value;
    HeadLosesBaseKeeps(env, naming, e, inp, file, a);
    ReportedIffLosesLine(env, tools, inp, b, file, a);
    NamedNowhereIff(env, tools, inp, b, file, a);
  }

  lemma HeadLosesBaseKeeps(env: Env, naming: Naming, e: Edit, inp: Review.Inputs, file: ChangedFile, a: ChangeAtom)
    requires SideIs(inp, file, a, BaseImport(env, e), Base) && SideIs(inp, file, a, BaseImport(env, e), Head)
    ensures LosesOn(Tools(naming, NoUnits), inp, file, Head, a) && !LosesOn(Tools(naming, NoUnits), inp, file, Base, a)
  {
    var base, head := Review.JobAt(inp, file, Base), Review.JobAt(inp, file, Head);
    LosesIff(naming, base, a);
    LosesIff(naming, head, a);
    assert base.analysis.regions[0].ContainsLine(1);
  }

  lemma ImportBuildable(env: Env, naming: Naming, e: Edit, job: Job, a: ChangeAtom)
    requires OneLineJob(job, a) && job.analysis == BaseImport(env, e)(job.role)
    ensures Buildable(Tools(naming, NoUnits), job)
  {
    OneRegionBuildable(naming, job, a);
  }

  // ------------------------------------------------------ accepted, then refused

  /** The given parse of the base source, a blank one of the head source. */
  function BaseOnly(analysis: Analysis): Side -> Analysis {
    (role: Side) => if role == Base then analysis else BLANK
  }

  /** No one-line side with this parse can be built. */
  ghost predicate NeverBuildable(naming: Naming, analysis: Analysis) {
    forall job, a | OneLineJob(job, a) && job.analysis == analysis :: !Buildable(Tools(naming, NoUnits), job)
  }

  lemma EditRefused(env: Env, naming: Naming, e: Edit, analysis: Analysis) returns (inp: Review.Inputs)
    requires Setting(env, e) && SoundNaming(naming)
    requires Fits(env, e.SnapshotOfSide(env, Base), analysis)
    requires NeverBuildable(naming, analysis)
    ensures PassesChecks(env, naming, e, inp) && Review.BuildAll(env, Tools(naming, NoUnits), inp).None?
  {
    BaseOnlyFits(env, e, analysis);
    var file, a;
    inp, file, a := EditAccepted(env, naming, e, BaseOnly(analysis));
    BaseNotBuildable(naming, inp, Review.JobAt(inp, file, Base), a, analysis);
    RespectedBuildSucceedsIff(env, Tools(naming, NoUnits), inp);
  }

  lemma BaseOnlyFits(env: Env, e: Edit, analysis: Analysis)
    requires Fits(env, e.SnapshotOfSide(env, Base), analysis)
    ensures ParsesFit(env, e, BaseOnly(analysis))
  {
    BlankFits(env, e.SnapshotOfSide(env, Head));
  }

  lemma BaseNotBuildable(naming: Naming, inp: Review.Inputs, job: Job, a: ChangeAtom, analysis: Analysis)
    requires OneLineJob(job, a) && job.analysis == analysis && job in Review.Jobs(inp) && NeverBuildable(naming, analysis)
    ensures !AllBuildable(Tools(naming, NoUnits), inp)
  {
    SideIsAtom(job, a);
    assert SideAtoms(job) != [] && !Buildable(Tools(naming, NoUnits), job);
  }

  lemma TwinsNeverBuildable(env: Env, naming: Naming, sourceId: string)
    requires SoundHash(env)
    ensures NeverBuildable(naming, TwinFields(env, sourceId))
  {
    TwinMembers(env, sourceId);
    var r, q := Field(env, sourceId, Owner(env, sourceId, "class").id), Field(env, sourceId, Owner(env, sourceId, "struct").id);
    forall job, a | OneLineJob(job, a) && job.analysis == TwinFields(env, sourceId) ensures !Buildable(Tools(naming, NoUnits), job) {
      TwinsUnbuildable(naming, job, a, r, q);
    }
  }

  /** Two field regions that differ in their owners only: every check of the inputs
      passes, and both units get one id. */
  lemma TwinRegionsRefused(env: Env, naming: Naming, e: Edit) returns (inp: Review.Inputs)
    requires Setting(env, e) && SoundNaming(naming)
    ensures PassesChecks(env, naming, e, inp) && Review.BuildAll(env, Tools(naming, NoUnits), inp).None?
  {
    var id := e.SourceOn(env, Base).id;
    TwinFieldsFit(env, e.SnapshotOfSide(env, Base));
    TwinsNeverBuildable(env, naming, id);
    inp := EditRefused(env, naming, e, TwinFields(env, id));
  }

  lemma EmptyNeverBuildable(env: Env, naming: Naming, sourceId: string)
    ensures NeverBuildable(naming, OneImport(env, sourceId, EMPTY, []))
  {
    forall job, a | OneLineJob(job, a) && job.analysis == OneImport(env, sourceId, EMPTY, [])
      ensures !Buildable(Tools(naming, NoUnits), job)
    {
      EmptyRegionUnbuildable(naming, job, a, ImportRegion(env, sourceId, EMPTY));
    }
  }

  /** A region of no characters: every check of the inputs passes, and its unit cannot
      be given an id. */
  lemma EmptyRegionRefused(env: Env, naming: Naming, e: Edit) returns (inp: Review.Inputs)
    requires Setting(env, e) && SoundNaming(naming)
    ensures PassesChecks(env, naming, e, inp) && Review.BuildAll(env, Tools(naming, NoUnits), inp).None?
  {
    var id := e.SourceOn(env, Base).id;
    OneImportFits(env, e.SnapshotOfSide(env, Base), EMPTY, []);
    EmptyNeverBuildable(env, naming, id);
    inp := EditRefused(env, naming, e, OneImport(env, id, EMPTY, []));
  }

  const ERROR_NODES := "arkts_tree_sitter_error_nodes"

  lemma GapOfWarning(env: Env, sourceId: string)
    ensures var a := OneImport(env, sourceId, LINE, [Warning(ERROR_NODES)]);
      !(RequiredCodes(a.quality) <= QualityCodes(a))
  {
    var a := OneImport(env, sourceId, LINE, [Warning(ERROR_NODES)]);
    CodeOfWarning(ERROR_NODES, "1");
    assert ERROR_NODES + ":" + "1" == Warning(ERROR_NODES);
    assert Warning(ERROR_NODES) in a.quality.warnings;
    assert ParserErrorNodes in RequiredCodes(a.quality) && ParserErrorNodes !in QualityCodes(a);
  }

  lemma GapNeverBuildable(env: Env, naming: Naming, sourceId: string)
    ensures NeverBuildable(naming, OneImport(env, sourceId, LINE, [Warning(ERROR_NODES)]))
  {
    GapOfWarning(env, sourceId);
    forall job, a | OneLineJob(job, a) && job.analysis == OneImport(env, sourceId, LINE, [Warning(ERROR_NODES)])
      ensures !Buildable(Tools(naming, NoUnits), job)
    {
      GapUnbuildable(naming, job, a, ImportRegion(env, sourceId, LINE));
    }
  }

  /** A warning about error nodes beside a node count of zero: every check of the
      inputs passes, and the region's unit lacks the code the result demands. */
  lemma QualityGapRefused(env: Env, naming: Naming, e: Edit) returns (inp: Review.Inputs)
    requires Setting(env, e) && SoundNaming(naming)
    ensures PassesChecks(env, naming, e, inp) && Review.BuildAll(env, Tools(naming, NoUnits), inp).None?
  {
    var id, warnings := e.SourceOn(env, Base).id, [Warning(ERROR_NODES)];
    OneImportFits(env, e.SnapshotOfSide(env, Base), LINE, warnings);
    GapNeverBuildable(env, naming, id);
    inp := EditRefused(env, naming, e, OneImport(env, id, LINE, warnings));
  }
}
