/** `_build_source_result`: one source side of one changed file, from atoms to units. */
module SourceResult {
  import opened Ordering
  import opened Sorting
  import opened SourceText
  import opened ChangeModel
  import opened FileAnalysis
  import opened LineRuns
  import opened RegionAssignment
  import opened ReviewUnits

  /** The injected declaration builder: units for the hunks of one parsed source. */
  type BuildUnits = (Snapshot, Analysis, seq<Hunk>) -> seq<Unit>

  datatype Tools = Tools(naming: Naming, build: BuildUnits)

  datatype Job = Job(fileId: string, role: Side, snapshot: Snapshot, analysis: Analysis, atoms: seq<ChangeAtom>) {
    function Bound(): Scope { Scope(role, snapshot.ref.id) }
  }

  datatype FileResult = FileResult(
    fileId: string,
    scope: Scope,
    path: string,
    parserQuality: ParserQuality,
    units: seq<Unit>,
    unassignedLines: seq<nat>,
    unassignedAtoms: seq<string>,
    unassignedDiagnostic: bool)

  // ------------------------------------------------------------ one side

  function SideRef(a: ChangeAtom, role: Side): Option<string> {
    if role == Base then a.oldRef else a.newRef
  }

  function SideLines(a: ChangeAtom, role: Side): seq<nat> {
    if role == Base then a.deletedLines else a.addedLines
  }

  function SideSpan(a: ChangeAtom, role: Side): Option<ExactRange> {
    if role == Base then a.oldSpan else a.newSpan
  }

  function AtomsOn(atoms: seq<ChangeAtom>, role: Side, refId: string): (side: seq<ChangeAtom>)
    ensures forall a :: a in side <==> a in atoms && SideRef(a, role) == Some(refId)
  {
    if atoms == [] then []
    else
      assert forall a :: a in atoms <==> a == atoms[0] || a in atoms[1..];
      (if SideRef(atoms[0], role) == Some(refId) then [atoms[0]] else []) + AtomsOn(atoms[1..], role, refId)
  }

  function SideAtoms(job: Job): seq<ChangeAtom> {
    AtomsOn(job.atoms, job.role, job.snapshot.ref.id)
  }

  /** The changed lines of the side. */
  function ChangedLines(job: Job): set<nat> {
    set a, line | a in SideAtoms(job) && line in SideLines(a, job.role) :: line
  }

  /** `_validate_atom_ranges`. */
  predicate RangesOk(content: string, side: seq<ChangeAtom>, role: Side) {
    forall a | a in side ::
      && SideSpan(a, role).Some?
      && var r := SideSpan(a, role).value;
         FullLineRange(content, r.startLine, r.endLine) == Some(r)
  }

  // --------------------------------------------------------- line owners

  type Claim = (nat, string)

  function ClaimsOf(role: Side): ChangeAtom -> seq<Claim> {
    (a: ChangeAtom) => AtomClaims(a, role)
  }

  function AtomClaims(a: ChangeAtom, role: Side): (r: seq<Claim>)
    ensures |r| == |SideLines(a, role)|
    ensures forall i | 0 <= i < |r| :: r[i] == (SideLines(a, role)[i], a.id)
  {
    var lines := SideLines(a, role);
    seq(|lines|, i requires 0 <= i < |lines| => (lines[i], a.id))
  }

  /** Claims entered one by one; a second claim on a line is refused. */
  function Enter(claims: seq<Claim>): Option<LineOwners> {
    if claims == [] then Some(map[])
    else
      var (line, id) := claims[|claims| - 1];
      match Enter(claims[..|claims| - 1])
      case None => None
      case Some(owners) => if line in owners then None else Some(owners[line := id])
  }

  function OwnersOf(side: seq<ChangeAtom>, role: Side): Option<LineOwners> {
    Enter(Flat(ClaimsOf(role), side))
  }

  lemma EnterSnoc(claims: seq<Claim>, c: Claim)
    ensures Enter(claims + [c]) ==
      (match Enter(claims)
       case None => None
       case Some(owners) => if c.0 in owners then None else Some(owners[c.0 := c.1]))
  {
    assert (claims + [c])[..|claims|] == claims;
  }

  lemma {:induction false} EnterRefused(claims: seq<Claim>, more: seq<Claim>)
    requires Enter(claims).None?
    ensures Enter(claims + more).None?
  {
    if more == [] {
      assert claims + more == claims;
    } else {
      EnterRefused(claims, more[..|more| - 1]);
      EnterSnoc(claims + more[..|more| - 1], more[|more| - 1]);
      assert claims + more == claims + more[..|more| - 1] + [more[|more| - 1]];
    }
  }

  /** The dictionary is exactly the claims, so a line has one owner. */
  lemma {:induction false} EnterSpec(claims: seq<Claim>)
    requires Enter(claims).Some?
    ensures forall line, id :: (line in Enter(claims).value && Enter(claims).value[line] == id) <==> (line, id) in claims
  {
    if claims != [] {
      var init, last := claims[..|claims| - 1], claims[|claims| - 1];
      EnterSpec(init);
      assert forall c :: c in claims <==> c in init || c == last;
      assert last.0 in Enter(init).value <==> (last.0, Enter(claims).value[last.0]) in init;
    }
  }

  lemma ClaimsSplit(side: seq<ChangeAtom>, role: Side, n: nat)
    requires n < |side|
    ensures Flat(ClaimsOf(role), side[..n + 1]) == Flat(ClaimsOf(role), side[..n]) + AtomClaims(side[n], role)
    ensures Flat(ClaimsOf(role), side) == Flat(ClaimsOf(role), side[..n + 1]) + Flat(ClaimsOf(role), side[n + 1..])
  {
    var f := ClaimsOf(role);
    assert f(side[n]) == AtomClaims(side[n], role);
    FlatAt(f, side, n);
  }

  /** The outer loop of `_line_to_atom`. */
  method LineToAtom(side: seq<ChangeAtom>, role: Side) returns (r: Option<LineOwners>)
    ensures r == OwnersOf(side, role)
  {
    r := Some(map[]);
    var n := 0;
    while n < |side|
      invariant n <= |side| && r.Some?
      invariant r == Enter(Flat(ClaimsOf(role), side[..n]))
    {
      ClaimsSplit(side, role, n);
      r := EnterAtom(r.value, Flat(ClaimsOf(role), side[..n]), side[n], role);
      if r.None? {
        EnterRefused(Flat(ClaimsOf(role), side[..n + 1]), Flat(ClaimsOf(role), side[n + 1..]));
        return;
      }
      n := n + 1;
    }
    assert side[..n] == side;
  }

  /** The inner loop: the lines of one atom. */
  method EnterAtom(known: LineOwners, ghost before: seq<Claim>, atom: ChangeAtom, role: Side) returns (r: Option<LineOwners>)
    requires Enter(before) == Some(known)
    ensures r == Enter(before + AtomClaims(atom, role))
  {
    var result := known;
    ghost var own := AtomClaims(atom, role);
    var lines := SideLines(atom, role);
    assert before + own[..0] == before;
    var k := 0;
    while k < |lines|
      invariant k <= |lines|
      invariant Enter(before + own[..k]) == Some(result)
    {
      EnterSnoc(before + own[..k], own[k]);
      assert before + own[..k] + [own[k]] == before + own[..k + 1];
      if lines[k] in result {
        EnterRefused(before + own[..k + 1], own[k + 1..]);
        assert before + own == before + own[..k + 1] + own[k + 1..];
        return None;
      }
      result := result[lines[k] := atom.id];
      k := k + 1;
    }
    assert own[..k] == own;
    r := Some(result);
  }

  // -------------------------------------------------------------- the units

  /** What the units of one side are made and bound with. */
  datatype Binding = Binding(naming: Naming, scope: Scope, path: string, content: string, codes: set<QualityCode>)

  function BindingOf(tools: Tools, job: Job): Binding {
    Binding(tools.naming, job.Bound(), job.snapshot.ref.path, job.snapshot.content, QualityCodes(job.analysis))
  }

  function RegionIdentity(path: string, r: Region): Identity {
    var span := LineSpan(r.range.startLine, r.range.endLine);
    Identity(path, r.kind, r.symbol, span, span, Some((r.range.startOffset, r.range.endOffset)))
  }

  function RegionUnitDraft(b: Binding, owners: LineOwners, a: Assignment): Unit
    requires AllOwned(owners, a.lines)
  {
    var identity := RegionIdentity(b.path, a.region);
    Unit(identity, b.naming(identity, Some(b.scope)), Some(b.scope),
         a.lines, a.lines, Relative(a.lines, identity.contextSpan),
         if b.scope.role == Head then a.lines else [],
         if b.scope.role == Base then a.lines else [],
         [], AtomsOfLines(owners, a.lines),
         ExtractLines(b.content, identity.contextSpan), Some(b.scope.refId), Some(RegionOwner(a.region.id)),
         a.region.recovered || b.codes != {}, b.codes)
  }

  /** `_build_region_unit`; None where the new unit's validation raises. */
  function RegionStep(b: Binding, owners: LineOwners): Assignment -> Option<Unit> {
    (a: Assignment) =>
      if AllOwned(owners, a.lines) && UnitOk(b.naming, RegionUnitDraft(b, owners, a))
      then Some(RegionUnitDraft(b, owners, a)) else None
  }

  function ScopeStep(b: Binding, owners: LineOwners): Unit -> Option<Unit> {
    (u: Unit) => ScopedUnit(b.naming, b.scope, owners, b.codes, u)
  }

  /** What the declaration builder returns for the lines no region took. */
  function DeclarationUnits(tools: Tools, job: Job, remaining: set<nat>): seq<Unit> {
    LineRunsExpand(remaining);
    if remaining == {} then [] else tools.build(job.snapshot, job.analysis, HunksOf(LineRunsOf(remaining)))
  }

  function NewLinesOf(units: seq<Unit>): set<nat> {
    set u, line | u in units && line in u.changedNewLines :: line
  }

  /** The hunk lines `build_file_result` reports as unassigned. */
  function UnbuiltLines(tools: Tools, job: Job, remaining: set<nat>): set<nat> {
    LineRunsExpand(remaining);
    HunkLines(HunksOf(LineRunsOf(remaining))) - NewLinesOf(DeclarationUnits(tools, job, remaining))
  }

  function RegionUnits(tools: Tools, job: Job, owners: LineOwners): Option<seq<Unit>> {
    Traverse(RegionStep(BindingOf(tools, job), owners), Assignments(job.analysis.regions, owners.Keys))
  }

  function ScopedUnits(tools: Tools, job: Job, owners: LineOwners): Option<seq<Unit>> {
    Traverse(ScopeStep(BindingOf(tools, job), owners),
             DeclarationUnits(tools, job, RemainingLines(job.analysis.regions, owners.Keys)))
  }

  predicate TextOk(content: string, u: Unit) {
    u.text == ExtractLines(content, u.identity.contextSpan)
  }

  /** `_verify_unit_text`: every unit shows its own context. */
  predicate TextsOk(content: string, units: seq<Unit>) {
    forall u | u in units :: TextOk(content, u)
  }

  function Verified(content: string, units: seq<Unit>): Option<seq<Unit>> {
    if TextsOk(content, units) then Some(units) else None
  }

  /** All units of the side, bound and sorted, before any atom is withdrawn. */
  function BoundUnits(tools: Tools, job: Job, owners: LineOwners): Option<seq<Unit>> {
    match RegionUnits(tools, job, owners)
    case None => None
    case Some(regionUnits) =>
      match ScopedUnits(tools, job, owners)
      case None => None
      case Some(declared) => Verified(job.snapshot.content, SortBy(regionUnits + declared, UnitKey))
  }

  // -------------------------------------------------------------- withdrawal

  /** The lines of an atom that some unit effectively shows. */
  function AssignedLines(units: seq<Unit>, owners: LineOwners, id: string): set<nat> {
    set u, line | u in units && line in Effective(u) && line in owners && owners[line] == id :: line
  }

  function TargetLines(a: ChangeAtom, role: Side): set<nat> {
    set line | line in SideLines(a, role)
  }

  /** Atoms of which some line is shown by no unit, in id order. */
  function Unassigned(units: seq<Unit>, owners: LineOwners, side: seq<ChangeAtom>, role: Side): (ids: seq<string>)
    ensures StrictlySorted(ids, TextKey)
    ensures forall id :: id in ids <==>
      exists a :: a in side && a.id == id && AssignedLines(units, owners, id) != TargetLines(a, role)
  {
    SortedSet(set a | a in side && AssignedLines(units, owners, a.id) != TargetLines(a, role) :: a.id, TextKey)
  }

  function LinesOfAtoms(side: seq<ChangeAtom>, role: Side, ids: seq<string>): set<nat> {
    set a, line | a in side && a.id in ids && line in SideLines(a, role) :: line
  }

  function UnassignedLines(tools: Tools, job: Job, owners: LineOwners, withdrawn: seq<string>): seq<nat> {
    if job.role == Base then []
    else SortedLines(UnbuiltLines(tools, job, RemainingLines(job.analysis.regions, owners.Keys))
                     + LinesOfAtoms(SideAtoms(job), job.role, withdrawn))
  }

  function KeptUnits(tools: Tools, job: Job, owners: LineOwners, units: seq<Unit>, withdrawn: seq<string>): Option<seq<Unit>> {
    if withdrawn == [] then Some(units)
    else DropAtoms(tools.naming, job.role, owners, (set id | id in withdrawn), units)
  }

  function IdOfUnit(u: Unit): string { u.id }

  function NamedAtoms(units: seq<Unit>): set<string> {
    set u, id | u in units && id in u.atomIds :: id
  }

  /** One unit of a file result: valid, of the result's file and source side, and
      carrying every quality code the result's parser quality asks for. */
  predicate UnitFits(naming: Naming, r: FileResult, u: Unit) {
    && UnitOk(naming, u) && u.identity.file == r.path && u.scope == Some(r.scope)
    && RequiredCodes(r.parserQuality) <= u.quality
  }

  /** The result's clauses about its lines and atoms, and its one diagnostic. */
  predicate ReportsOk(r: FileResult) {
    && StrictlySorted(r.unassignedLines, NumberKey)
    && (forall line | line in r.unassignedLines :: line !in NewLinesOf(r.units))
    && StrictlySorted(r.unassignedAtoms, TextKey)
    && (forall id | id in r.unassignedAtoms :: id !in NamedAtoms(r.units))
    && r.unassignedDiagnostic == (r.unassignedAtoms != [])
  }

  /** `ReviewUnitFileResult.validate`. */
  predicate ResultOk(naming: Naming, r: FileResult) {
    && (forall u | u in r.units :: UnitFits(naming, r, u))
    && Sorted(r.units, UnitKey)
    && NoRepeats(Map(IdOfUnit, r.units))
    && ReportsOk(r)
  }

  function Checked(naming: Naming, r: FileResult): Option<FileResult> {
    if ResultOk(naming, r) then Some(r) else None
  }

  function ResultOf(job: Job, units: seq<Unit>, lines: seq<nat>, withdrawn: seq<string>): FileResult {
    FileResult(job.fileId, job.Bound(), job.snapshot.ref.path, job.analysis.quality, units, lines, withdrawn, withdrawn != [])
  }

  function EmptyResult(job: Job): FileResult {
    ResultOf(job, [], [], [])
  }

  function Finish(tools: Tools, job: Job, owners: LineOwners, units: seq<Unit>): Option<FileResult> {
    var withdrawn := Unassigned(units, owners, SideAtoms(job), job.role);
    match KeptUnits(tools, job, owners, units, withdrawn)
    case None => None
    case Some(kept) =>
      Checked(tools.naming, ResultOf(job, kept, UnassignedLines(tools, job, owners, withdrawn), withdrawn))
  }

  /** The whole side as a function; None where the source raises. */
  function Build(tools: Tools, job: Job): Option<FileResult> {
    var side := SideAtoms(job);
    if !RangesOk(job.snapshot.content, side, job.role) then None
    else match OwnersOf(side, job.role)
      case None => None
      case Some(owners) =>
        if side == [] then Checked(tools.naming, EmptyResult(job))
        else match BoundUnits(tools, job, owners)
          case None => None
          case Some(units) => Finish(tools, job, owners, units)
  }
}
