/** ReviewUnits: mutable objects in the builder, seen through their field values. */
module ReviewUnits {
  import opened Ordering
  import opened Sorting
  import opened SourceText
  import opened ChangeModel
  import opened FileAnalysis

  /** The identity fields a unit keeps for life. */
  datatype Identity = Identity(
    file: string,
    kind: string,
    symbol: string,
    sourceSpan: LineSpan,
    contextSpan: LineSpan,
    offsets: Option<(nat, nat)>)

  /** The source side a unit is bound to. */
  datatype Scope = Scope(role: Side, refId: string)

  /** `declaration_unit_id` / `fallback_unit_id`, as a parameter. */
  type Naming = (Identity, Option<Scope>) -> string

  /** The part of an identity that an id spells out: only fallback ids carry the
      context span, and only they leave out symbol and offsets. */
  datatype UnitName =
    | DeclarationName(file: string, kind: string, symbol: string, span: LineSpan, offsets: Option<(nat, nat)>)
    | FallbackName(file: string, span: LineSpan, context: LineSpan)

  function NameOf(i: Identity): UnitName {
    if i.kind == "fallback" then FallbackName(i.file, i.sourceSpan, i.contextSpan)
    else DeclarationName(i.file, i.kind, i.symbol, i.sourceSpan, i.offsets)
  }

  /** Ids quote their parts and end in role and source, so equal ids mean equal names
      of one scope, and the other way round. */
  ghost predicate SoundNaming(naming: Naming) {
    forall i, j, s, t :: naming(i, s) == naming(j, t) <==> NameOf(i) == NameOf(j) && s == t
  }

  datatype Unit = Unit(
    identity: Identity,
    id: string,
    scope: Option<Scope>,
    changedLines: seq<nat>,
    fileChangedLines: seq<nat>,
    unitChangedLines: seq<int>,
    changedNewLines: seq<nat>,
    changedOldLines: seq<nat>,
    outsideLines: seq<nat>,
    atomIds: seq<string>,
    text: string,
    sourceRefId: Option<string>,
    owner: Option<OwnerRef>,
    degraded: bool,
    quality: set<QualityCode>)

  type LineOwners = map<nat, string>

  predicate InSpan(span: LineSpan, line: nat) { span.startLine <= line <= span.endLine }

  /** The members of `lines` inside (or outside) a span, in order. */
  function Project(lines: seq<nat>, span: LineSpan, inside: bool): seq<nat> {
    if lines == [] then []
    else (if InSpan(span, lines[0]) == inside then [lines[0]] else []) + Project(lines[1..], span, inside)
  }

  function Relative(lines: seq<nat>, span: LineSpan): seq<int> {
    seq(|lines|, i requires 0 <= i < |lines| => lines[i] - span.startLine + 1)
  }

  predicate IsBaseUnit(u: Unit) { u.scope.Some? && u.scope.value.role == Base }

  /** The changed lines a unit really shows: old lines on the base side, else new lines. */
  function Effective(u: Unit): seq<nat> {
    if IsBaseUnit(u) then u.changedOldLines else u.changedNewLines
  }

  const UNIT_KINDS := DECLARATION_KINDS + REGION_KINDS + {"fallback"}

  predicate IdentityOk(naming: Naming, u: Unit) {
    && IsText(u.identity.symbol) && u.identity.kind in UNIT_KINDS
    && u.identity.sourceSpan.Valid() && u.identity.contextSpan.Valid()
    && u.identity.contextSpan.startLine <= u.identity.sourceSpan.startLine
    && u.identity.sourceSpan.endLine <= u.identity.contextSpan.endLine
    && (u.identity.offsets.Some? ==> u.identity.offsets.value.0 < u.identity.offsets.value.1)
    && u.id == naming(u.identity, u.scope)
  }

  predicate NamesOk(u: Unit) {
    && (u.scope.None? ==> u.atomIds == [] && u.changedOldLines == [])
    && (u.scope.Some? ==> u.atomIds != [])
    && StrictlySorted(u.atomIds, TextKey)
  }

  predicate LinesFit(u: Unit) {
    && LinesOk(u.fileChangedLines)
    && u.changedLines == u.fileChangedLines
    && Effective(u) == Project(u.fileChangedLines, u.identity.contextSpan, true)
    && (IsBaseUnit(u) ==> u.changedNewLines == [])
    && (!IsBaseUnit(u) ==> u.changedOldLines == [])
    && u.unitChangedLines == Relative(Effective(u), u.identity.contextSpan)
    && u.outsideLines == Project(u.fileChangedLines, u.identity.contextSpan, false)
  }

  /** Source and owner: a scoped unit belongs to its scope's source, and unless it is
      a fallback it has an owner of the sort its kind asks for. */
  predicate OwnedOk(u: Unit) {
    && (u.scope.Some? ==> u.sourceRefId == Some(u.scope.value.refId))
    && (u.owner.Some? ==> u.sourceRefId.Some? && u.owner.value.RegionOwner? == (u.identity.kind in REGION_KINDS))
    && (u.identity.kind in REGION_KINDS ==> u.owner.Some?)
    && (u.identity.kind == "fallback" ==> u.owner.None?)
    && (u.scope.Some? && u.identity.kind != "fallback" ==> u.owner.Some?)
  }

  /** Parser quality codes and fallbacks mark their unit as degraded. */
  predicate QualityOk(u: Unit) {
    (u.quality != {} || u.identity.kind == "fallback") ==> u.degraded
  }

  /** `ReviewUnit.validate`. */
  predicate UnitOk(naming: Naming, u: Unit) {
    IdentityOk(naming, u) && NamesOk(u) && LinesFit(u) && OwnedOk(u) && QualityOk(u)
  }

  lemma {:induction false} ProjectMembers(lines: seq<nat>, span: LineSpan, inside: bool)
    ensures forall line :: line in Project(lines, span, inside) <==> line in lines && InSpan(span, line) == inside
  {
    if lines != [] {
      ProjectMembers(lines[1..], span, inside);
    }
  }

  lemma {:induction false} ProjectAll(lines: seq<nat>, span: LineSpan)
    requires forall line | line in lines :: InSpan(span, line)
    ensures Project(lines, span, true) == lines && Project(lines, span, false) == []
  {
    if lines != [] {
      assert lines[0] in lines;
      ProjectAll(lines[1..], span);
    }
  }

  // --------------------------------------------------------- atoms of lines

  predicate AllOwned(owners: LineOwners, lines: seq<nat>) {
    forall line | line in lines :: line in owners
  }

  /** `sorted({line_to_atom[line] for line in lines})`. */
  function AtomsOfLines(owners: LineOwners, lines: seq<nat>): (ids: seq<string>)
    requires AllOwned(owners, lines)
    ensures forall id :: id in ids <==> exists line :: line in lines && owners[line] == id
    ensures StrictlySorted(ids, TextKey)
    ensures ids == [] <==> lines == []
  {
    var ids := set line | line in lines :: owners[line];
    assert forall id :: id in SortedSet(ids, TextKey) <==> id in ids;
    assert lines != [] ==> owners[lines[0]] in SortedSet(ids, TextKey);
    SortedSet(ids, TextKey)
  }

  // ---------------------------------------------------- binding to a change

  /** The unit bound to a source side, before it is validated again. */
  function ScopedDraft(naming: Naming, scope: Scope, owners: LineOwners, codes: set<QualityCode>, u: Unit): Unit
    requires AllOwned(owners, u.fileChangedLines)
  {
    u.(scope := Some(scope),
       atomIds := AtomsOfLines(owners, u.fileChangedLines),
       changedOldLines := if scope.role == Base then u.changedNewLines else u.changedOldLines,
       changedNewLines := if scope.role == Base then [] else u.changedNewLines,
       quality := u.quality + codes,
       degraded := u.degraded || codes != {},
       id := naming(u.identity, Some(scope)))
  }

  /** `_scope_unit_to_change`; None where it raises. */
  function ScopedUnit(naming: Naming, scope: Scope, owners: LineOwners, codes: set<QualityCode>, u: Unit): Option<Unit> {
    if AllOwned(owners, u.fileChangedLines) && UnitOk(naming, ScopedDraft(naming, scope, owners, codes, u))
    then Some(ScopedDraft(naming, scope, owners, codes, u)) else None
  }

  lemma ScopedLinesFit(naming: Naming, scope: Scope, owners: LineOwners, codes: set<QualityCode>, u: Unit)
    requires LinesFit(u) && u.scope.None? && u.changedOldLines == [] && AllOwned(owners, u.fileChangedLines)
    ensures LinesFit(ScopedDraft(naming, scope, owners, codes, u))
    ensures Effective(ScopedDraft(naming, scope, owners, codes, u)) == u.changedNewLines
  {
  }

  lemma ScopedOwnedIff(naming: Naming, scope: Scope, owners: LineOwners, codes: set<QualityCode>, u: Unit)
    requires OwnedOk(u) && AllOwned(owners, u.fileChangedLines)
    ensures OwnedOk(ScopedDraft(naming, scope, owners, codes, u))
       <==> u.sourceRefId == Some(scope.refId) && (u.identity.kind != "fallback" ==> u.owner.Some?)
  {
  }

  /** A legal unbound unit can be bound exactly when it has changed lines, all owned,
      belongs to the source, and has an owner unless it is a fallback. */
  lemma ScopedUnitSucceedsIff(naming: Naming, scope: Scope, owners: LineOwners, codes: set<QualityCode>, u: Unit)
    requires UnitOk(naming, u) && u.scope.None?
    ensures ScopedUnit(naming, scope, owners, codes, u).Some?
       <==> && u.fileChangedLines != [] && AllOwned(owners, u.fileChangedLines)
            && u.sourceRefId == Some(scope.refId) && (u.identity.kind != "fallback" ==> u.owner.Some?)
    ensures ScopedUnit(naming, scope, owners, codes, u).Some? ==>
      Effective(ScopedUnit(naming, scope, owners, codes, u).value) == u.changedNewLines
  {
    if AllOwned(owners, u.fileChangedLines) {
      ScopedLinesFit(naming, scope, owners, codes, u);
      ScopedOwnedIff(naming, scope, owners, codes, u);
    }
  }

  // ------------------------------------------------------ withdrawing atoms

  /** The lines whose atom stays, in order. */
  function KeptLines(owners: LineOwners, withdrawn: set<string>, lines: seq<nat>): (kept: seq<nat>)
    requires AllOwned(owners, lines)
    ensures forall line :: line in kept <==> line in lines && owners[line] !in withdrawn
  {
    if lines == [] then []
    else
      assert AllOwned(owners, lines[1..]);
      var rest := KeptLines(owners, withdrawn, lines[1..]);
      assert forall line :: line in lines <==> line == lines[0] || line in lines[1..];
      if owners[lines[0]] in withdrawn then rest else [lines[0]] + rest
  }

  lemma {:induction false} KeptLinesSorted(owners: LineOwners, withdrawn: set<string>, lines: seq<nat>)
    requires AllOwned(owners, lines) && LinesOk(lines)
    ensures LinesOk(KeptLines(owners, withdrawn, lines))
  {
    if lines != [] {
      assert AllOwned(owners, lines[1..]);
      KeptLinesSorted(owners, withdrawn, lines[1..]);
      var rest := KeptLines(owners, withdrawn, lines[1..]);
      forall i | 0 <= i < |rest| ensures lines[0] < rest[i] {
        assert rest[i] in lines[1..];
      }
    }
  }

  /** The unit with other changed lines; nothing else about it changes. */
  function WithLines(role: Side, owners: LineOwners, lines: seq<nat>, u: Unit): Unit
    requires AllOwned(owners, lines)
  {
    u.(changedLines := lines,
       fileChangedLines := lines,
       changedOldLines := if role == Base then lines else [],
       changedNewLines := if role == Base then [] else lines,
       unitChangedLines := Relative(lines, u.identity.contextSpan),
       atomIds := AtomsOfLines(owners, lines))
  }

  /** The loop body of `_drop_unassigned_atoms` for a unit that keeps some line. */
  function KeptUnit(role: Side, owners: LineOwners, withdrawn: set<string>, u: Unit): Unit
    requires AllOwned(owners, u.fileChangedLines)
  {
    WithLines(role, owners, KeptLines(owners, withdrawn, u.fileChangedLines), u)
  }

  /** One unit through the withdrawal: refused, dropped, or kept smaller. */
  function KeepStep(naming: Naming, role: Side, owners: LineOwners, withdrawn: set<string>): Unit -> Option<seq<Unit>> {
    (u: Unit) =>
      if !AllOwned(owners, u.fileChangedLines) then None
      else if KeptLines(owners, withdrawn, u.fileChangedLines) == [] then Some([])
      else if UnitOk(naming, KeptUnit(role, owners, withdrawn, u)) then Some([KeptUnit(role, owners, withdrawn, u)])
      else None
  }

  lemma KeptLinesFit(role: Side, owners: LineOwners, withdrawn: set<string>, u: Unit)
    requires LinesFit(u) && u.outsideLines == [] && u.scope.Some? && u.scope.value.role == role
    requires AllOwned(owners, u.fileChangedLines)
    ensures LinesFit(KeptUnit(role, owners, withdrawn, u))
  {
    var kept := KeptLines(owners, withdrawn, u.fileChangedLines);
    var span := u.identity.contextSpan;
    KeptLinesSorted(owners, withdrawn, u.fileChangedLines);
    ProjectMembers(u.fileChangedLines, span, false);
    assert forall line | line in kept :: line in u.fileChangedLines;
    assert forall line | line in u.fileChangedLines :: InSpan(span, line) || line in Project(u.fileChangedLines, span, false);
    ProjectAll(kept, span);
  }

  /** Withdrawing from a unit without outside lines always succeeds. */
  lemma KeepStepSucceeds(naming: Naming, role: Side, owners: LineOwners, withdrawn: set<string>, u: Unit)
    requires UnitOk(naming, u) && u.outsideLines == [] && u.scope.Some? && u.scope.value.role == role
    requires AllOwned(owners, u.fileChangedLines)
    ensures KeepStep(naming, role, owners, withdrawn)(u).Some?
  {
    KeptLinesFit(role, owners, withdrawn, u);
  }

  function UnitKey(u: Unit): Key {
    [Num(u.identity.contextSpan.startLine), Num(u.identity.contextSpan.endLine),
     Num(u.identity.sourceSpan.startLine), Num(u.identity.sourceSpan.endLine), Text(u.id)]
  }

  function Same<T>(xs: seq<T>): seq<T> { xs }

  /** `_drop_unassigned_atoms`; None where a shrunken unit fails its validation. */
  function DropAtoms(naming: Naming, role: Side, owners: LineOwners, withdrawn: set<string>, units: seq<Unit>): Option<seq<Unit>> {
    match Traverse(KeepStep(naming, role, owners, withdrawn), units)
    case None => None
    case Some(kept) => Some(SortBy(Flat(Same, kept), UnitKey))
  }

  // ----------------------------------------------------------- the objects

  class ReviewUnit {
    const identity: Identity
    const text: string
    const sourceRefId: Option<string>
    const owner: Option<OwnerRef>
    var id: string
    var scope: Option<Scope>
    var changedLines: seq<nat>
    var fileChangedLines: seq<nat>
    var unitChangedLines: seq<int>
    var changedNewLines: seq<nat>
    var changedOldLines: seq<nat>
    var outsideLines: seq<nat>
    var atomIds: seq<string>
    var degraded: bool
    var quality: set<QualityCode>

    function View(): Unit
      reads this
    {
      Unit(identity, id, scope, changedLines, fileChangedLines, unitChangedLines,
           changedNewLines, changedOldLines, outsideLines, atomIds,
           text, sourceRefId, owner, degraded, quality)
    }

    constructor (u: Unit)
      ensures View() == u
    {
      identity, text, sourceRefId, owner := u.identity, u.text, u.sourceRefId, u.owner;
      id, scope := u.id, u.scope;
      changedLines, fileChangedLines, unitChangedLines := u.changedLines, u.fileChangedLines, u.unitChangedLines;
      changedNewLines, changedOldLines := u.changedNewLines, u.changedOldLines;
      outsideLines, atomIds := u.outsideLines, u.atomIds;
      degraded, quality := u.degraded, u.quality;
    }

    /** `validate`. */
    method Validate(naming: Naming) returns (ok: bool)
      ensures ok == UnitOk(naming, View())
    {
      ok := UnitOk(naming, View());
    }

    /** Rewrites the fields that bind the unit to a source side. */
    method BindFields(naming: Naming, side: Scope, owners: LineOwners, codes: set<QualityCode>)
      requires AllOwned(owners, fileChangedLines)
      modifies this
      ensures View() == ScopedDraft(naming, side, owners, codes, old(View()))
    {
      var ids := AtomsOfLines(owners, fileChangedLines);
      scope := Some(side);
      atomIds := ids;
      if side.role == Base {
        changedOldLines := changedNewLines;
        changedNewLines := [];
      }
      quality := quality + codes;
      degraded := degraded || codes != {};
      id := naming(identity, scope);
    }

    /** Binds the unit in place; `ok` is false where the source raises. */
    method ScopeToChange(naming: Naming, side: Scope, owners: LineOwners, codes: set<QualityCode>) returns (ok: bool)
      modifies this
      ensures ok == ScopedUnit(naming, side, owners, codes, old(View())).Some?
      ensures ok ==> View() == ScopedUnit(naming, side, owners, codes, old(View())).value
    {
      if !AllOwned(owners, fileChangedLines) {
        return false;
      }
      BindFields(naming, side, owners, codes);
      ok := Validate(naming);
    }

    /** Rewrites the line and atom fields. */
    method KeepFields(role: Side, owners: LineOwners, kept: seq<nat>)
      requires AllOwned(owners, kept)
      modifies this
      ensures View() == WithLines(role, owners, kept, old(View()))
    {
      var ids, relative := AtomsOfLines(owners, kept), Relative(kept, identity.contextSpan);
      changedLines := kept;
      fileChangedLines := kept;
      if role == Base {
        changedOldLines := kept;
        changedNewLines := [];
      } else {
        changedOldLines := [];
        changedNewLines := kept;
      }
      unitChangedLines := relative;
      atomIds := ids;
    }

    /** Shrinks the unit in place to the lines whose atoms stay. */
    method KeepLines(naming: Naming, role: Side, owners: LineOwners, kept: seq<nat>) returns (ok: bool)
      requires AllOwned(owners, kept)
      modifies this
      ensures View() == WithLines(role, owners, kept, old(View()))
      ensures ok == UnitOk(naming, View())
    {
      KeepFields(role, owners, kept);
      ok := Validate(naming);
    }
  }

  function Views(units: seq<ReviewUnit>): seq<Unit>
    reads set u | u in units
  {
    if units == [] then [] else [units[0].View()] + Views(units[1..])
  }

  predicate Distinct(units: seq<ReviewUnit>) {
    forall i, j | 0 <= i < j < |units| :: units[i] != units[j]
  }

  lemma {:induction false} ViewsAt(units: seq<ReviewUnit>)
    ensures |Views(units)| == |units|
    ensures forall i | 0 <= i < |units| :: Views(units)[i] == units[i].View()
  {
    if units != [] {
      ViewsAt(units[1..]);
    }
  }

  lemma {:induction false} ViewsConcat(us: seq<ReviewUnit>, vs: seq<ReviewUnit>)
    ensures Views(us + vs) == Views(us) + Views(vs)
  {
    if us == [] {
      assert us + vs == vs;
    } else {
      ViewsConcat(us[1..], vs);
      assert (us + vs)[1..] == us[1..] + vs;
    }
  }

  /** The objects' current values, listed. */
  ghost predicate Shows(units: seq<ReviewUnit>, views: seq<Unit>)
    reads set u | u in units
  {
    |units| == |views| && forall i | 0 <= i < |units| :: units[i].View() == views[i]
  }

  lemma ShownViews(units: seq<ReviewUnit>, views: seq<Unit>)
    requires Shows(units, views)
    ensures Views(units) == views
  {
    ViewsAt(units);
  }

  /** `units.sort(key=...)` on the objects: the views come out stably sorted. */
  method SortUnits(units: seq<ReviewUnit>) returns (sorted: seq<ReviewUnit>)
    ensures Views(sorted) == SortBy(Views(units), UnitKey)
    ensures multiset(sorted) == multiset(units)
  {
    if units == [] {
      return [];
    }
    var rest := SortUnits(units[1..]);
    sorted := InsertUnit(units[0], rest);
    ViewsTail(units);
    HeadAndTail(units);
  }

  lemma HeadAndTail(units: seq<ReviewUnit>)
    requires units != []
    ensures multiset(units) == multiset{units[0]} + multiset(units[1..])
  {
    assert units == [units[0]] + units[1..];
  }

  lemma ViewsTail(units: seq<ReviewUnit>)
    requires units != []
    ensures Views(units) != [] && Views(units)[0] == units[0].View() && Views(units)[1..] == Views(units[1..])
  {
  }

  method InsertUnit(u: ReviewUnit, units: seq<ReviewUnit>) returns (r: seq<ReviewUnit>)
    ensures Views(r) == Insert(u.View(), Views(units), UnitKey)
    ensures multiset(r) == multiset{u} + multiset(units)
  {
    if units == [] {
      return [u];
    }
    ViewsTail(units);
    HeadAndTail(units);
    if KeyLess(UnitKey(units[0].View()), UnitKey(u.View())) {
      var rest := InsertUnit(u, units[1..]);
      r := [units[0]] + rest;
      assert r[1..] == rest;
      ViewsTail(r);
      HeadAndTail(r);
    } else {
      r := [u] + units;
      assert r[1..] == units;
      ViewsTail(r);
      HeadAndTail(r);
    }
  }

  /** One iteration: shrinks the object in place and says whether it stays. */
  method KeepOne(naming: Naming, unit: ReviewUnit, role: Side, owners: LineOwners, withdrawn: set<string>,
                 ghost step: Unit -> Option<seq<Unit>>)
    returns (ok: bool, stays: bool)
    requires step == KeepStep(naming, role, owners, withdrawn)
    modifies unit
    ensures ok == step(old(unit.View())).Some?
    ensures ok ==> step(old(unit.View())).value == if stays then [unit.View()] else []
  {
    if !AllOwned(owners, unit.fileChangedLines) {
      return false, false;
    }
    var kept := KeptLines(owners, withdrawn, unit.fileChangedLines);
    if kept == [] {
      return true, false;
    }
    ok := unit.KeepLines(naming, role, owners, kept);
    stays := true;
  }

  /** The units the steps keep, in order; None when a step refuses. */
  function KeptBy(step: Unit -> Option<seq<Unit>>, units: seq<Unit>): Option<seq<Unit>> {
    match Traverse(step, units)
    case None => None
    case Some(kept) => Some(Flat(Same, kept))
  }

  lemma KeptByOneMore(step: Unit -> Option<seq<Unit>>, units: seq<Unit>, n: nat)
    requires n < |units| && KeptBy(step, units[..n]).Some?
    ensures step(units[n]).None? ==> KeptBy(step, units).None?
    ensures step(units[n]).Some? ==> KeptBy(step, units[..n + 1]) == Some(KeptBy(step, units[..n]).value + step(units[n]).value)
  {
    TraversePrefix(step, units, n);
    if step(units[n]).Some? {
      FlatSnoc(Same, Traverse(step, units[..n]).value, step(units[n]).value);
    }
  }

  /** After `n` objects: the retained ones show `kept`, the later ones are untouched. */
  ghost predicate KeepState(units: seq<ReviewUnit>, views: seq<Unit>, n: nat, retained: seq<ReviewUnit>, kept: seq<Unit>)
    reads set u | u in units, set u | u in retained
  {
    && n <= |units| == |views|
    && Shows(retained, kept)
    && (forall i | 0 <= i < |retained| :: retained[i] in units[..n])
    && (forall i | n <= i < |units| :: units[i].View() == views[i])
  }

  /** One iteration on the objects. */
  method KeepNext(naming: Naming, units: seq<ReviewUnit>, n: nat, role: Side, owners: LineOwners, withdrawn: set<string>,
                  retained: seq<ReviewUnit>, ghost step: Unit -> Option<seq<Unit>>, ghost views: seq<Unit>, ghost kept: seq<Unit>)
    returns (ok: bool, longer: seq<ReviewUnit>)
    requires Distinct(units) && n < |units| && KeepState(units, views, n, retained, kept)
    requires step == KeepStep(naming, role, owners, withdrawn)
    modifies units[n]
    ensures ok == step(views[n]).Some?
    ensures ok ==> KeepState(units, views, n + 1, longer, kept + step(views[n]).value)
  {
    assert forall i | 0 <= i < |retained| :: retained[i] != units[n];
    var stays;
    ok, stays := KeepOne(naming, units[n], role, owners, withdrawn, step);
    longer := if ok && stays then retained + [units[n]] else retained;
  }

  /** The same, with what has been kept so far. */
  method KeepMore(naming: Naming, units: seq<ReviewUnit>, n: nat, role: Side, owners: LineOwners, withdrawn: set<string>,
                  retained: seq<ReviewUnit>, ghost step: Unit -> Option<seq<Unit>>, ghost views: seq<Unit>, ghost kept: seq<Unit>)
    returns (ok: bool, longer: seq<ReviewUnit>, ghost more: seq<Unit>)
    requires Distinct(units) && n < |units| && KeepState(units, views, n, retained, kept)
    requires step == KeepStep(naming, role, owners, withdrawn) && KeptBy(step, views[..n]) == Some(kept)
    modifies units[n]
    ensures !ok ==> KeptBy(step, views).None?
    ensures ok ==> KeepState(units, views, n + 1, longer, more) && KeptBy(step, views[..n + 1]) == Some(more)
  {
    KeptByOneMore(step, views, n);
    ok, longer := KeepNext(naming, units, n, role, owners, withdrawn, retained, step, views, kept);
    more := if ok then kept + step(views[n]).value else kept;
  }

  /** The loop of `_drop_unassigned_atoms`, object by object. */
  method KeepAll(naming: Naming, units: seq<ReviewUnit>, role: Side, owners: LineOwners, withdrawn: set<string>,
                 ghost step: Unit -> Option<seq<Unit>>, ghost views: seq<Unit>)
    returns (ok: bool, retained: seq<ReviewUnit>, ghost kept: seq<Unit>)
    requires Distinct(units) && Shows(units, views)
    requires step == KeepStep(naming, role, owners, withdrawn)
    modifies set u | u in units
    ensures ok == KeptBy(step, views).Some?
    ensures ok ==> Shows(retained, kept) && KeptBy(step, views) == Some(kept)
  {
    retained, kept := [], [];
    for n := 0 to |units|
      invariant KeepState(units, views, n, retained, kept)
      invariant KeptBy(step, views[..n]) == Some(kept)
    {
      ok, retained, kept := KeepMore(naming, units, n, role, owners, withdrawn, retained, step, views, kept);
      if !ok {
        return;
      }
    }
    assert views[..|units|] == views;
    ok := true;
  }

  /** `_drop_unassigned_atoms`: rewrites the kept objects and returns them in order. */
  method DropUnassignedAtoms(naming: Naming, units: seq<ReviewUnit>, role: Side, owners: LineOwners, withdrawn: set<string>)
    returns (ok: bool, retained: seq<ReviewUnit>)
    requires Distinct(units)
    modifies set u | u in units
    ensures ok == DropAtoms(naming, role, owners, withdrawn, old(Views(units))).Some?
    ensures ok ==> Views(retained) == DropAtoms(naming, role, owners, withdrawn, old(Views(units))).value
  {
    ghost var views := Views(units);
    ViewsAt(units);
    ghost var kept;
    ok, retained, kept := KeepAll(naming, units, role, owners, withdrawn, KeepStep(naming, role, owners, withdrawn), views);
    if ok {
      ShownViews(retained, kept);
      retained := SortUnits(retained);
    }
  }
}
