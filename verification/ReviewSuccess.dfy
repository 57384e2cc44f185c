/** When the whole build succeeds: what its last validation can and cannot refuse. */
module ReviewSuccess {
  import opened Ordering
  import opened Sorting
  import opened ChangeModel
  import opened FileAnalysis
  import opened RegionAssignment
  import opened ReviewUnits
  import opened SourceResult
  import opened SourceProofs
  import opened SourceSuccess
  import opened SideBuilds
  import opened ChangeReview
  import opened ReviewProofs

  // --------------------------------------- one result identity per file side

  function JobIdentity(job: Job): ResultIdentity {
    (job.snapshot.ref.path, job.role, job.snapshot.ref.id)
  }

  function FileIdentities(inp: Inputs): ChangedFile -> seq<ResultIdentity> {
    (f: ChangedFile) => Map(JobIdentity, JobsOf(inp, f))
  }

  lemma {:induction false} IdentitiesByFile(inp: Inputs, files: seq<ChangedFile>)
    ensures Map(JobIdentity, Flat(FileJobs(inp), files)) == Flat(FileIdentities(inp), files)
  {
    if files != [] {
      IdentitiesByFile(inp, files[1..]);
      MapConcat(JobIdentity, FileJobs(inp)(files[0]), Flat(FileJobs(inp), files[1..]));
    }
  }

  function PathOn(f: ChangedFile, role: Side): Option<string> {
    if role == Base then f.oldPath else f.newPath
  }

  /** The source a file side is built from sits at the file's own path. */
  lemma SideAtItsPath(env: Env, inp: Inputs, f: ChangedFile, role: Side)
    requires InputsOk(env, inp) && f in inp.changeSet.files && SideKnown(inp, f, role)
    ensures PathOn(f, role) == Some(JobAt(inp, f, role).snapshot.ref.path)
  {
    var cs, id := inp.changeSet, FileRef(f, role).value;
    EntryOk(env, cs, f);
    TableByContents(IdOfSource, cs.sources);
    var s := TableOf(cs.sources)[id];
    assert SourceInputOk(env, s, inp.snapshots[s.id], inp.parses[s.id]);
  }

  /** Every side that is built has its source at the file's path for that side. */
  ghost predicate SidesAtPaths(inp: Inputs) {
    forall f, role | f in inp.changeSet.files && SideKnown(inp, f, role) ::
      PathOn(f, role) == Some(JobAt(inp, f, role).snapshot.ref.path)
  }

  lemma AllSidesAtPaths(env: Env, inp: Inputs)
    requires InputsOk(env, inp)
    ensures SidesAtPaths(inp)
  {
    forall f, role | f in inp.changeSet.files && SideKnown(inp, f, role)
      ensures PathOn(f, role) == Some(JobAt(inp, f, role).snapshot.ref.path)
    {
      SideAtItsPath(env, inp, f, role);
    }
  }

  lemma IdentityOrigin(inp: Inputs, f: ChangedFile, k: ResultIdentity)
    requires SidesAtPaths(inp) && f in inp.changeSet.files && k in FileIdentities(inp)(f)
    ensures PathOn(f, k.1) == Some(k.0)
  {
    var jobs := JobsOf(inp, f);
    var i :| 0 <= i < |jobs| && JobIdentity(jobs[i]) == k;
    assert SideKnown(inp, f, jobs[i].role);
  }

  lemma FileIdentitiesUnique(inp: Inputs, f: ChangedFile)
    ensures NoRepeats(FileIdentities(inp)(f))
  {
    var jobs := JobsOf(inp, f);
    assert |jobs| <= 2 && (|jobs| == 2 ==> jobs[0].role != jobs[1].role);
    DistinctIndicesNoRepeats(FileIdentities(inp)(f));
  }

  lemma PathsApart(cs: ChangeSet, i: nat, j: nat, role: Side)
    requires PathsUnique(cs.files) && i < j < |cs.files| && PathOn(cs.files[i], role).Some?
    ensures PathOn(cs.files[i], role) != PathOn(cs.files[j], role)
  {
    if role == Base {
      FlatOneOrigin(OldPathOf, cs.files, i, j, cs.files[i].oldPath.value);
    } else {
      FlatOneOrigin(NewPathOf, cs.files, i, j, cs.files[i].newPath.value);
    }
  }

  lemma FilesApart(inp: Inputs, i: nat, j: nat, k: ResultIdentity)
    requires SidesAtPaths(inp) && PathsUnique(inp.changeSet.files)
    requires i < j < |inp.changeSet.files| && k in FileIdentities(inp)(inp.changeSet.files[i])
    ensures k !in FileIdentities(inp)(inp.changeSet.files[j])
  {
    var files := inp.changeSet.files;
    IdentityOrigin(inp, files[i], k);
    PathsApart(inp.changeSet, i, j, k.1);
    if k in FileIdentities(inp)(files[j]) {
      IdentityOrigin(inp, files[j], k);
    }
  }

  lemma JobIdentitiesUnique(inp: Inputs)
    requires SidesAtPaths(inp) && PathsUnique(inp.changeSet.files)
    ensures NoRepeats(Map(JobIdentity, Jobs(inp)))
  {
    var files, ids := inp.changeSet.files, FileIdentities(inp);
    forall f | f in files ensures NoRepeats(ids(f)) {
      FileIdentitiesUnique(inp, f);
    }
    forall i, j, k | 0 <= i < j < |files| && k in ids(files[i]) ensures k !in ids(files[j]) {
      FilesApart(inp, i, j, k);
    }
    FlatNoRepeats(ids, files);
    IdentitiesByFile(inp, files);
  }

  lemma BuiltIdentity(tools: Tools, job: Job)
    requires Build(tools, job).Some?
    ensures IdentityOf(Build(tools, job).value) == JobIdentity(job)
  {
  }

  lemma ResultIdentities(tools: Tools, jobs: seq<Job>, results: seq<FileResult>)
    requires Traverse(BuildStep(tools), jobs) == Some(results)
    ensures Map(IdentityOf, results) == Map(JobIdentity, jobs)
  {
    TraverseSpec(BuildStep(tools), jobs);
    forall i | 0 <= i < |jobs| ensures IdentityOf(results[i]) == JobIdentity(jobs[i]) {
      assert BuildStep(tools)(jobs[i]) == Some(results[i]);
      BuiltIdentity(tools, jobs[i]);
    }
  }

  lemma ResultsUnique(env: Env, tools: Tools, inp: Inputs, results: seq<FileResult>)
    requires InputsOk(env, inp) && Traverse(BuildStep(tools), Jobs(inp)) == Some(results)
    ensures NoRepeats(Map(IdentityOf, SortBy(results, ResultKey)))
  {
    SortBySorts(results, ResultKey);
    ResultIdentities(tools, Jobs(inp), results);
    AllSidesAtPaths(env, inp);
    JobIdentitiesUnique(inp);
    MapBag(IdentityOf, results, SortBy(results, ResultKey));
    NoRepeatsBag(Map(IdentityOf, results), Map(IdentityOf, SortBy(results, ResultKey)));
  }

  // -------------------------------------------- unit ids of the whole build

  function ScopeOfJob(job: Job): Scope { job.Bound() }

  /** Jobs carry the snapshot their source id names. */
  ghost predicate SnapshotsNamed(inp: Inputs, jobs: seq<Job>) {
    forall job | job in jobs ::
      job.snapshot.ref.id in inp.snapshots && job.snapshot == inp.snapshots[job.snapshot.ref.id]
  }

  lemma JobSnapshots(env: Env, inp: Inputs)
    requires InputsOk(env, inp)
    ensures SnapshotsNamed(inp, Jobs(inp))
  {
    forall job | job in Jobs(inp)
      ensures job.snapshot.ref.id in inp.snapshots && job.snapshot == inp.snapshots[job.snapshot.ref.id]
    {
      var f := JobOrigin(inp, job);
      SourceChecked(env, inp, FileRef(f, job.role).value);
    }
  }

  /** No two sides of a build have one scope: a source id fixes the source's path. */
  lemma ScopesApart(inp: Inputs, jobs: seq<Job>, i: nat, j: nat)
    requires SnapshotsNamed(inp, jobs) && NoRepeats(Map(JobIdentity, jobs)) && i < j < |jobs|
    ensures jobs[i].Bound() != jobs[j].Bound()
  {
    assert jobs[i] in jobs && jobs[j] in jobs;
    NoRepeatsIndices(Map(JobIdentity, jobs), i, j);
    assert Map(JobIdentity, jobs)[i] == JobIdentity(jobs[i]) && Map(JobIdentity, jobs)[j] == JobIdentity(jobs[j]);
  }

  /** The units of a result have distinct ids, made for the result's scope. */
  ghost predicate ScopedIds(naming: Naming, scope: Scope, r: FileResult) {
    && NoRepeats(UnitIdsOf(r))
    && forall u | u in r.units :: u.id == naming(u.identity, Some(scope))
  }

  lemma BuiltScopedIds(tools: Tools, job: Job)
    requires Build(tools, job).Some?
    ensures ScopedIds(tools.naming, job.Bound(), Build(tools, job).value)
  {
    var r := Build(tools, job).value;
    assert ResultOk(tools.naming, r) && r.scope == job.Bound();
    forall u | u in r.units ensures u.id == tools.naming(u.identity, Some(job.Bound())) {
      assert UnitFits(tools.naming, r, u);
    }
  }

  lemma IdsOfScopesApart(naming: Naming, s: Scope, t: Scope, r: FileResult, q: FileResult, id: string)
    requires SoundNaming(naming) && s != t && ScopedIds(naming, s, r) && ScopedIds(naming, t, q)
    requires id in UnitIdsOf(r)
    ensures id !in UnitIdsOf(q)
  {
    var i :| 0 <= i < |r.units| && UnitIdsOf(r)[i] == id;
    assert r.units[i] in r.units;
    forall j | 0 <= j < |q.units| ensures UnitIdsOf(q)[j] != id {
      assert q.units[j] in q.units;
    }
  }

  lemma AllIdsApart(naming: Naming, scopes: seq<Scope>, results: seq<FileResult>)
    requires SoundNaming(naming) && |scopes| == |results|
    requires forall i | 0 <= i < |results| :: ScopedIds(naming, scopes[i], results[i])
    requires forall i, j | 0 <= i < j < |scopes| :: scopes[i] != scopes[j]
    ensures NoRepeats(Flat(UnitIdsOf, results))
  {
    forall i, j, id | 0 <= i < j < |results| && id in UnitIdsOf(results[i]) ensures id !in UnitIdsOf(results[j]) {
      IdsOfScopesApart(naming, scopes[i], scopes[j], results[i], results[j], id);
    }
    forall r | r in results ensures NoRepeats(UnitIdsOf(r)) {
      var i :| 0 <= i < |results| && results[i] == r;
    }
    FlatNoRepeats(UnitIdsOf, results);
  }

  /** Unit ids never repeat between the results of a build: each result's are unique,
      they spell out the scope, and no two results have one scope. */
  lemma UnitIdsUnique(env: Env, tools: Tools, inp: Inputs, results: seq<FileResult>)
    requires SoundNaming(tools.naming) && InputsOk(env, inp)
    requires Traverse(BuildStep(tools), Jobs(inp)) == Some(results)
    ensures NoRepeats(Flat(UnitIdsOf, results))
  {
    var jobs, step := Jobs(inp), BuildStep(tools);
    TraverseSpec(step, jobs);
    JobSnapshots(env, inp);
    AllSidesAtPaths(env, inp);
    JobIdentitiesUnique(inp);
    var scopes := Map(ScopeOfJob, jobs);
    forall i | 0 <= i < |results| ensures ScopedIds(tools.naming, scopes[i], results[i]) {
      assert step(jobs[i]) == Some(results[i]);
      BuiltScopedIds(tools, jobs[i]);
    }
    forall i, j | 0 <= i < j < |scopes| ensures scopes[i] != scopes[j] {
      ScopesApart(inp, jobs, i, j);
    }
    AllIdsApart(tools.naming, scopes, results);
  }

  lemma SortedIdsUnique(results: seq<FileResult>)
    requires NoRepeats(Flat(UnitIdsOf, results))
    ensures NoRepeats(Flat(UnitIdsOf, SortBy(results, ResultKey)))
  {
    SortBySorts(results, ResultKey);
    FlatBag(UnitIdsOf, results, SortBy(results, ResultKey));
    NoRepeatsBag(Flat(UnitIdsOf, results), Flat(UnitIdsOf, SortBy(results, ResultKey)));
  }

  lemma CollectedBatchOk(cs: ChangeSet, results: seq<FileResult>)
    requires NoRepeats(Map(IdentityOf, SortBy(results, ResultKey)))
    requires NoRepeats(Flat(UnitIdsOf, SortBy(results, ResultKey)))
    ensures BatchOk(BatchOf(cs, results))
  {
    SortBySorts(results, ResultKey);
    assert UnassignedIds(SortBy(results, ResultKey)) == UnassignedIds(results);
    var b := BatchOf(cs, results);
    assert (set id | id in b.unassigned) == UnassignedIds(results);
  }

  /** The envelope's own validation never refuses, unit ids included: the build succeeds
      exactly when the inputs are accepted and every side builds. */
  lemma BuildSucceedsIff(env: Env, tools: Tools, inp: Inputs)
    requires SoundNaming(tools.naming)
    ensures BuildAll(env, tools, inp).Some? <==>
      InputsOk(env, inp) && forall job | job in Jobs(inp) :: Build(tools, job).Some?
  {
    if InputsOk(env, inp) {
      var step := BuildStep(tools);
      TraverseSpec(step, Jobs(inp));
      assert forall job :: step(job) == Build(tools, job);
      if Traverse(step, Jobs(inp)).Some? {
        var results := Traverse(step, Jobs(inp)).value;
        ResultsUnique(env, tools, inp, results);
        UnitIdsUnique(env, tools, inp, results);
        SortedIdsUnique(results);
        CollectedBatchOk(inp.changeSet, results);
      }
    }
  }

  // ------------------------------------------------ lines claimed only once

  function LinesOf(role: Side): ChangeAtom -> seq<nat> {
    (a: ChangeAtom) => SideLines(a, role)
  }

  function LineOfClaim(c: Claim): nat { c.0 }

  /** Entering claims fails exactly when some line is claimed twice. */
  lemma {:induction false} EnterSucceedsIff(claims: seq<Claim>)
    ensures Enter(claims).Some? <==> NoRepeats(Map(LineOfClaim, claims))
  {
    if claims != [] {
      var init, last := claims[..|claims| - 1], claims[|claims| - 1];
      EnterSucceedsIff(init);
      var lines := Map(LineOfClaim, init);
      assert claims == init + [last];
      assert Map(LineOfClaim, claims) == lines + [last.0];
      NoRepeatsSnoc(lines, last.0);
      if Enter(init).Some? {
        EnterSpec(init);
        EnteredLines(init, last.0);
      }
    }
  }

  lemma EnteredLines(claims: seq<Claim>, line: nat)
    requires Enter(claims).Some?
    ensures line in Enter(claims).value <==> line in Map(LineOfClaim, claims)
  {
    EnterSpec(claims);
    if line in Enter(claims).value {
      var c := (line, Enter(claims).value[line]);
      var i :| 0 <= i < |claims| && claims[i] == c;
      assert Map(LineOfClaim, claims)[i] == line;
    }
    if line in Map(LineOfClaim, claims) {
      var i :| 0 <= i < |claims| && Map(LineOfClaim, claims)[i] == line;
      assert claims[i] == (line, claims[i].1) && claims[i] in claims;
    }
  }

  lemma NoRepeatsSnoc<T>(xs: seq<T>, x: T)
    ensures NoRepeats(xs + [x]) <==> NoRepeats(xs) && x !in xs
  {
    var ys := xs + [x];
    assert forall y :: multiset(ys)[y] == multiset(xs)[y] + if y == x then 1 else 0;
    if NoRepeats(ys) {
      assert multiset(ys)[x] == 1;
      forall y | y in xs ensures multiset(xs)[y] == 1 {
        assert y in ys;
      }
    }
  }

  lemma ClaimLines(a: ChangeAtom, role: Side)
    ensures Map(LineOfClaim, AtomClaims(a, role)) == SideLines(a, role)
  {
  }

  lemma {:induction false} ClaimedLines(side: seq<ChangeAtom>, role: Side)
    ensures Map(LineOfClaim, Flat(ClaimsOf(role), side)) == Flat(LinesOf(role), side)
  {
    if side != [] {
      ClaimedLines(side[1..], role);
      ClaimLines(side[0], role);
      MapConcat(LineOfClaim, AtomClaims(side[0], role), Flat(ClaimsOf(role), side[1..]));
    }
  }

  /** Leaving out the atoms without lines on a side leaves out no line. */
  lemma {:induction false} SideHoldsAllLines(lines: ChangeAtom -> seq<nat>, atoms: seq<ChangeAtom>, role: Side, refId: string)
    requires forall a | a in atoms :: lines(a) == [] || SideRef(a, role) == Some(refId)
    ensures Flat(lines, AtomsOn(atoms, role, refId)) == Flat(lines, atoms)
  {
    if atoms != [] {
      SideHoldsAllLines(lines, atoms[1..], role, refId);
      var rest := AtomsOn(atoms[1..], role, refId);
      if SideRef(atoms[0], role) == Some(refId) {
        assert ([atoms[0]] + rest)[1..] == rest;
      } else {
        assert lines(atoms[0]) == [];
        assert [] + rest == rest;
        assert [] + Flat(lines, atoms[1..]) == Flat(lines, atoms[1..]);
      }
    }
  }

  lemma {:induction false} FlatSame<T, U>(f: T -> seq<U>, g: T -> seq<U>, xs: seq<T>)
    requires forall x | x in xs :: f(x) == g(x)
    ensures Flat(f, xs) == Flat(g, xs)
  {
    if xs != [] {
      FlatSame(f, g, xs[1..]);
    }
  }

  /** The lines a side's atoms claim are all the file's changed lines on that side. */
  lemma SideLinesAll(cs: ChangeSet, f: ChangedFile, role: Side)
    requires AtomsInPlace(cs, f) && FileRef(f, role).Some?
    ensures Flat(LinesOf(role), FileSide(cs, f, role)) ==
      if role == Base then DeletedLines(AtomsOfFile(cs, f)) else AddedLines(AtomsOfFile(cs, f))
  {
    var atoms, lines := AtomsOfFile(cs, f), LinesOf(role);
    SideHoldsAllLines(lines, atoms, role, FileRef(f, role).value);
    FlatSame(lines, if role == Base then DeletedOf else AddedOf, atoms);
  }

  /** `_line_to_atom` never refuses a side of a valid ChangeSet. */
  lemma OwnersExist(env: Env, cs: ChangeSet, f: ChangedFile, role: Side)
    requires FileEntriesOk(env, cs) && ProperAtoms(env, cs) && f in cs.files
    ensures OwnersOf(FileSide(cs, f, role), role).Some?
  {
    FilePlaced(env, cs, f);
    FileAtomFacts(env, cs, f);
    OneClaimPerLine(cs, f, role);
  }

  lemma OneClaimPerLine(cs: ChangeSet, f: ChangedFile, role: Side)
    requires AtomsInPlace(cs, f) && OneAtomPerLine(AtomsOfFile(cs, f))
    ensures OwnersOf(FileSide(cs, f, role), role).Some?
  {
    var side := FileSide(cs, f, role);
    EnterSucceedsIff(Flat(ClaimsOf(role), side));
    ClaimedLines(side, role);
    if FileRef(f, role).Some? {
      SideLinesAll(cs, f, role);
    }
  }

  // ----------------------------------------- with a line-respecting builder

  /** What a checked job comes with. */
  lemma JobReady(env: Env, inp: Inputs, job: Job)
    requires InputsOk(env, inp) && ProperAtoms(env, inp.changeSet) && job in Jobs(inp)
    ensures OwnersOf(SideAtoms(job), job.role).Some? && AtomsProper(job.atoms)
    ensures RegionsProper(job.analysis.regions)
  {
    var f := JobOrigin(inp, job);
    SourcesKnown(env, inp, f, job.role);
    OwnersExist(env, inp.changeSet, f, job.role);
    JobAtoms(env, inp, job);
    JobRegions(env, inp, job);
  }

  predicate AllRangesOk(inp: Inputs) {
    forall job | job in Jobs(inp) :: RangesOk(job.snapshot.content, SideAtoms(job), job.role)
  }

  ghost predicate AllRespecting(tools: Tools, inp: Inputs) {
    forall job | job in Jobs(inp) :: LineRespecting(tools, job)
  }

  /** Every side without atoms or `Buildable`. */
  ghost predicate AllBuildable(tools: Tools, inp: Inputs) {
    forall job | job in Jobs(inp) :: SideAtoms(job) == [] || Buildable(tools, job)
  }

  /** With a line-respecting builder, accepted inputs build exactly when every side with
      atoms is `Buildable`. */
  lemma RespectedBuildSucceedsIff(env: Env, tools: Tools, inp: Inputs)
    requires SoundNaming(tools.naming) && InputsOk(env, inp) && ProperAtoms(env, inp.changeSet)
    requires AllRangesOk(inp) && AllRespecting(tools, inp)
    ensures BuildAll(env, tools, inp).Some? <==> AllBuildable(tools, inp)
  {
    BuildSucceedsIff(env, tools, inp);
    forall job | job in Jobs(inp) ensures Build(tools, job).Some? <==> SideAtoms(job) == [] || Buildable(tools, job) {
      JobReady(env, inp, job);
      SideBuildsIff(tools, job);
    }
  }
}
