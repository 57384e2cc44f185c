/** `ChangeSetReviewUnitBuilder.build`: from a checked ChangeSet and its parsed
    sources to the review units of every file side. */
module ChangeReview {
  import opened Ordering
  import opened Sorting
  import opened SourceText
  import opened ChangeModel
  import opened FileAnalysis
  import opened RegionAssignment
  import opened ReviewUnits
  import opened SourceResult
  import opened SourceBuilder

  datatype Parse = Parse(ref: SourceRef, analysis: Analysis)

  datatype Inputs = Inputs(changeSet: ChangeSet, snapshots: map<string, Snapshot>, parses: map<string, Parse>)

  datatype Batch = Batch(
    changeSetId: string,
    results: seq<FileResult>,
    unassigned: seq<string>,
    binaryDiagnostic: bool,
    unassignedDiagnostic: bool)

  // ---------------------------------------------------------- input checks

  predicate ParseRangesOk(content: string, a: Analysis) {
    && (forall d | d in a.declarations :: ParseRangeOk(content, d.range))
    && (forall r | r in a.regions :: ParseRangeOk(content, r.range))
    && (forall f | f in a.facts :: ParseRangeOk(content, f.range))
  }

  predicate SourceInputOk(env: Env, source: SourceRef, snapshot: Snapshot, parse: Parse) {
    && snapshot.ref == source
    && source.contentHash == env.hash(ContentPayload(snapshot.content))
    && parse.ref == source
    && AnalysisOk(env, source.id, parse.analysis)
    && ParseRangesOk(snapshot.content, parse.analysis)
  }

  function SourceIds(cs: ChangeSet): set<string> {
    set s | s in cs.sources :: s.id
  }

  /** `_validate_inputs`: both tables cover the sources exactly. */
  predicate TablesOk(env: Env, inp: Inputs) {
    && inp.snapshots.Keys == SourceIds(inp.changeSet)
    && inp.parses.Keys == SourceIds(inp.changeSet)
    && forall s | s in inp.changeSet.sources :: SourceInputOk(env, s, inp.snapshots[s.id], inp.parses[s.id])
  }

  function SnapshotFor(inp: Inputs, ref: Option<string>): Option<Snapshot> {
    if ref.Some? && ref.value in inp.snapshots then Some(inp.snapshots[ref.value]) else None
  }

  function AtomsOfFile(cs: ChangeSet, f: ChangedFile): seq<ChangeAtom> {
    match FileAtoms(AtomTable(cs.atoms), f)
    case None => []
    case Some(atoms) => atoms
  }

  /** `_validate_snapshot_file_semantics`, for one file. */
  predicate FileSemanticsOk(inp: Inputs, f: ChangedFile) {
    f.isBinary || StatusAtomsOk(f.status, SnapshotFor(inp, f.oldRef), SnapshotFor(inp, f.newRef), AtomsOfFile(inp.changeSet, f))
  }

  predicate InputsOk(env: Env, inp: Inputs) {
    && ChangeSetOk(env, inp.changeSet)
    && TablesOk(env, inp)
    && forall f | f in inp.changeSet.files :: FileSemanticsOk(inp, f)
  }

  // ------------------------------------------------------------- the build

  function FileRef(f: ChangedFile, role: Side): Option<string> {
    if role == Base then f.oldRef else f.newRef
  }

  predicate SideKnown(inp: Inputs, f: ChangedFile, role: Side) {
    var ref := FileRef(f, role);
    ref.Some? && ref.value in inp.snapshots && ref.value in inp.parses
  }

  function JobAt(inp: Inputs, f: ChangedFile, role: Side): Job
    requires SideKnown(inp, f, role)
  {
    var id := FileRef(f, role).value;
    Job(f.id, role, inp.snapshots[id], inp.parses[id].analysis, AtomsOfFile(inp.changeSet, f))
  }

  function SideJobs(inp: Inputs, f: ChangedFile, role: Side): seq<Job> {
    if SideKnown(inp, f, role) then [JobAt(inp, f, role)] else []
  }

  /** `_file_sources`: the base side first, then the head side. */
  function JobsOf(inp: Inputs, f: ChangedFile): seq<Job> {
    if f.isBinary then [] else SideJobs(inp, f, Base) + SideJobs(inp, f, Head)
  }

  function FileJobs(inp: Inputs): ChangedFile -> seq<Job> {
    (f: ChangedFile) => JobsOf(inp, f)
  }

  function Jobs(inp: Inputs): seq<Job> {
    Flat(FileJobs(inp), inp.changeSet.files)
  }

  function BuildStep(tools: Tools): Job -> Option<FileResult> {
    (job: Job) => Build(tools, job)
  }

  function ResultKey(r: FileResult): Key {
    [Text(r.fileId), Num(if r.scope.role == Base then 0 else 1), Text(r.path), Text(r.scope.refId)]
  }

  type ResultIdentity = (string, Side, string)

  function IdentityOf(r: FileResult): ResultIdentity {
    (r.path, r.scope.role, r.scope.refId)
  }

  function UnassignedIds(results: seq<FileResult>): set<string> {
    set r, id | r in results && id in r.unassignedAtoms :: id
  }

  function UnitIdsOf(r: FileResult): seq<string> {
    Map(IdOfUnit, r.units)
  }

  /** `ReviewUnitBuildResult.validate` for a change-set build; the last clause asks for
      unit ids that are unique over all file results. */
  predicate BatchOk(b: Batch) {
    && Sorted(b.results, ResultKey)
    && NoRepeats(Map(IdentityOf, b.results))
    && StrictlySorted(b.unassigned, TextKey)
    && (set id | id in b.unassigned) == UnassignedIds(b.results)
    && b.unassignedDiagnostic == (b.unassigned != [])
    && NoRepeats(Flat(UnitIdsOf, b.results))
  }

  predicate HasBinary(files: seq<ChangedFile>) {
    exists f :: f in files && f.isBinary
  }

  function BatchOf(cs: ChangeSet, results: seq<FileResult>): Batch {
    var unassigned := SortedSet(UnassignedIds(results), TextKey);
    Batch(cs.id, SortBy(results, ResultKey), unassigned, HasBinary(cs.files), unassigned != [])
  }

  function CheckedBatch(b: Batch): Option<Batch> {
    if BatchOk(b) then Some(b) else None
  }

  /** The whole build as a function; None where the source raises. */
  function BuildAll(env: Env, tools: Tools, inp: Inputs): Option<Batch> {
    if !InputsOk(env, inp) then None
    else match Traverse(BuildStep(tools), Jobs(inp))
      case None => None
      case Some(results) => CheckedBatch(BatchOf(inp.changeSet, results))
  }

  // ------------------------------------------------------ the build, stepwise

  /** What the stages use of a checked parse. */
  ghost predicate Parsed(jobs: seq<Job>) {
    forall job | job in jobs :: RegionsProper(job.analysis.regions)
  }

  lemma SourceChecked(env: Env, inp: Inputs, id: string)
    requires TablesOk(env, inp) && id in inp.parses
    ensures id in inp.snapshots && inp.snapshots[id].ref.id == id
    ensures RegionsProper(inp.parses[id].analysis.regions)
  {
    assert id in SourceIds(inp.changeSet);
    var s :| s in inp.changeSet.sources && s.id == id;
    assert SourceInputOk(env, s, inp.snapshots[id], inp.parses[id]);
    ValidRegions(env, s.id, inp.parses[id].analysis);
  }

  lemma SideParsed(env: Env, inp: Inputs, f: ChangedFile, role: Side)
    requires TablesOk(env, inp)
    ensures Parsed(SideJobs(inp, f, role))
  {
    if SideKnown(inp, f, role) {
      SourceChecked(env, inp, FileRef(f, role).value);
    }
  }

  lemma JobsParsed(env: Env, inp: Inputs, f: ChangedFile)
    requires TablesOk(env, inp)
    ensures Parsed(JobsOf(inp, f))
  {
    SideParsed(env, inp, f, Base);
    SideParsed(env, inp, f, Head);
    BothParsed(SideJobs(inp, f, Base), SideJobs(inp, f, Head));
  }

  lemma BothParsed(jobs: seq<Job>, more: seq<Job>)
    requires Parsed(jobs) && Parsed(more)
    ensures Parsed(jobs + more)
  {
  }

  /** The inner loop: both sides of one file. */
  method BuildFile(tools: Tools, jobs: seq<Job>) returns (r: Option<seq<FileResult>>)
    requires Parsed(jobs)
    ensures r == Traverse(BuildStep(tools), jobs)
  {
    var results := [];
    for n := 0 to |jobs|
      invariant Traverse(BuildStep(tools), jobs[..n]) == Some(results)
    {
      var result := BuildSourceResult(tools, jobs[n]);
      TraversePrefix(BuildStep(tools), jobs, n);
      assert BuildStep(tools)(jobs[n]) == result;
      if result.None? {
        return None;
      }
      results := results + [result.value];
    }
    assert jobs[..|jobs|] == jobs;
    r := Some(results);
  }

  /** The loop over the files; `binary` says whether one was skipped. */
  method BuildFiles(tools: Tools, files: seq<ChangedFile>, jobsOf: ChangedFile -> seq<Job>)
    returns (r: Option<seq<FileResult>>, binary: bool)
    requires forall f | f in files :: Parsed(jobsOf(f))
    ensures r == Traverse(BuildStep(tools), Flat(jobsOf, files))
    ensures r.Some? ==> binary == HasBinary(files)
  {
    ghost var step := BuildStep(tools);
    var results := [];
    binary := false;
    for n := 0 to |files|
      invariant Traverse(step, Flat(jobsOf, files[..n])) == Some(results)
      invariant binary == HasBinary(files[..n])
    {
      FlatAt(jobsOf, files, n);
      assert forall f :: f in files[..n + 1] <==> f in files[..n] || f == files[n];
      var more := BuildFile(tools, jobsOf(files[n]));
      TraverseConcat(step, Flat(jobsOf, files[..n]), jobsOf(files[n]));
      if more.None? {
        TraverseConcat(step, Flat(jobsOf, files[..n + 1]), Flat(jobsOf, files[n + 1..]));
        return None, binary;
      }
      results := results + more.value;
      binary := binary || files[n].isBinary;
    }
    assert files[..|files|] == files;
    r := Some(results);
  }

  lemma InputsParsed(env: Env, inp: Inputs)
    requires InputsOk(env, inp)
    ensures forall f | f in inp.changeSet.files :: Parsed(FileJobs(inp)(f))
  {
    forall f | f in inp.changeSet.files ensures Parsed(FileJobs(inp)(f)) {
      JobsParsed(env, inp, f);
    }
  }

  /** `build`: checks, the file loop, then sorting and the unassigned atoms. */
  method BuildReview(env: Env, tools: Tools, inp: Inputs) returns (r: Option<Batch>)
    ensures r == BuildAll(env, tools, inp)
  {
    if !InputsOk(env, inp) {
      return None;
    }
    InputsParsed(env, inp);
    var results, binary := BuildFiles(tools, inp.changeSet.files, FileJobs(inp));
    if results.None? {
      return None;
    }
    var unassigned := SortedSet(UnassignedIds(results.value), TextKey);
    r := CheckedBatch(Batch(inp.changeSet.id, SortBy(results.value, ResultKey), unassigned, binary, unassigned != []));
  }
}
