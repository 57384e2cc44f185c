/** Parser output for one source: declarations, review regions and fact
    occurrences, and `FileAnalysis.validate` over them. */
module FileAnalysis {
  import opened Ordering
  import opened Sorting
  import opened SourceText
  import opened ChangeModel

  datatype Declaration = Declaration(id: string, kind: string, name: string, qualifiedName: string, range: ExactRange, parentId: Option<string>)

  datatype Region = Region(id: string, kind: string, symbol: string, range: ExactRange, ownerId: Option<string>, recovered: bool) {
    predicate ContainsLine(line: nat) {
      range.startLine <= line <= range.endLine
    }
  }

  datatype FactQuality = Exact | Recovered | Degraded | Unresolved

  datatype Fact = Fact(id: string, kind: string, name: string, canonicalName: Option<string>, range: ExactRange,
                       owner: Option<OwnerRef>, quality: FactQuality)

  datatype Layer = L0 | L1 | ParseDegraded

  datatype ParserQuality = ParserQuality(layer: Layer, errorNodes: Option<nat>, missingNodes: Option<nat>, warnings: seq<string>)

  datatype Analysis = Analysis(
    declarations: seq<Declaration>,
    regions: seq<Region>,
    facts: seq<Fact>,
    quality: ParserQuality,
    diagnostics: seq<string>)

  datatype Verdict = Accepted | BadDiagnostics | BadLayer | DuplicateId | Disordered | BadId | BadParent | ParentCycle | BadOwner

  const DECLARATION_KINDS := {"struct", "class", "function", "method", "build_method", "builder", "ui_block"}

  const REGION_KINDS := {"field_region", "import_region"}

  const FACT_KINDS := {"component", "api", "decorator", "attribute", "symbol", "syntax", "import_binding", "import_use",
                       "field_read", "field_write", "call", "string_literal", "resource_reference"}

  const ANALYSIS_DIAGNOSTICS := {"file_analysis_sidecar_unavailable", "file_analysis_sidecar_failed",
                                 "file_analysis_snapshot_invalid", "occurrence_extraction_unavailable",
                                 "unresolved_fact_owner", "parser_error_nodes", "parser_missing_nodes",
                                 "ambiguous_binding_scope"}

  function IdOfDeclaration(d: Declaration): string { d.id }
  function IdOfRegion(r: Region): string { r.id }
  function IdOfFact(f: Fact): string { f.id }

  function RangeKey(r: ExactRange): Key {
    [Num(r.startLine), Num(r.startOffset), Num(r.endLine), Num(r.endOffset)]
  }

  function DeclarationKey(d: Declaration): Key { RangeKey(d.range) + [Text(d.kind), Text(d.qualifiedName), Text(d.id)] }
  function RegionKey(r: Region): Key { RangeKey(r.range) + [Text(r.kind), Text(r.symbol), Text(r.id)] }

  function FactKey(f: Fact): Key {
    RangeKey(f.range) + [Text(f.kind), Text(if f.canonicalName.Some? then f.canonicalName.value else f.name), Text(f.id)]
  }

  // ------------------------------------------- self-checks of built values

  /** `DeclarationOccurrence.__post_init__`. */
  predicate DeclarationShapeOk(d: Declaration) {
    && d.kind in DECLARATION_KINDS && IsText(d.name) && IsText(d.qualifiedName) && d.range.Valid()
    && (d.parentId.Some? ==> IsText(d.parentId.value))
  }

  /** `ReviewRegion.__post_init__`: fields have an owner, imports have none. */
  predicate RegionShapeOk(r: Region) {
    && r.kind in REGION_KINDS && IsText(r.symbol) && r.range.Valid()
    && (r.kind == "field_region" <==> r.ownerId.Some?)
  }

  /** `FactOccurrence.__post_init__`. */
  predicate FactShapeOk(f: Fact) {
    && f.kind in FACT_KINDS && IsText(f.name) && (f.canonicalName.Some? ==> IsText(f.canonicalName.value)) && f.range.Valid()
    && (f.quality in {Exact, Recovered} ==> f.owner.Some?)
    && (f.quality == Unresolved ==> f.owner.None?)
  }

  predicate SortedTexts(texts: seq<string>) {
    StrictlySorted(texts, TextKey) && "" !in texts
  }

  /** `FileParserQuality.__post_init__`: node counts come together and with L1 only. */
  predicate QualityShapeOk(q: ParserQuality) {
    && q.errorNodes.Some? == q.missingNodes.Some?
    && (q.layer != L1 ==> q.errorNodes.None?)
    && SortedTexts(q.warnings)
  }

  predicate ShapesOk(a: Analysis) {
    && (forall d | d in a.declarations :: DeclarationShapeOk(d))
    && (forall r | r in a.regions :: RegionShapeOk(r))
    && (forall f | f in a.facts :: FactShapeOk(f))
    && QualityShapeOk(a.quality)
  }

  // ------------------------------------------------------- the whole analysis

  predicate DiagnosticListOk(diagnostics: seq<string>) {
    SortedTexts(diagnostics) && forall d | d in diagnostics :: d in ANALYSIS_DIAGNOSTICS
  }

  /** Only a formal parse carries structures. */
  predicate LayerOk(a: Analysis) {
    a.quality.layer != L1 ==> a.declarations == [] && a.regions == [] && a.facts == []
  }

  predicate DeclarationIdOk(env: Env, sourceId: string, d: Declaration) {
    d.id == env.hash(DeclarationPayload(sourceId, d.kind, d.qualifiedName, d.range))
  }

  predicate RegionIdOk(env: Env, sourceId: string, r: Region) {
    r.id == env.hash(RegionPayload(sourceId, r.kind, r.symbol, r.range, r.ownerId))
  }

  predicate FactIdOk(env: Env, sourceId: string, f: Fact) {
    f.id == env.hash(FactPayload(sourceId, f.kind, f.name, f.canonicalName, f.range.startOffset, f.range.endOffset, f.owner))
  }

  predicate StrictlyContains(owner: ExactRange, child: ExactRange) {
    && owner.Contains(child)
    && (owner.startOffset < child.startOffset || child.endOffset < owner.endOffset)
  }

  type DeclarationTable = map<string, Declaration>

  /** The parent, when there is one, is a declaration strictly around its child. */
  predicate ParentOk(byId: DeclarationTable, d: Declaration) {
    d.parentId.Some? ==> d.parentId.value in byId && StrictlyContains(byId[d.parentId.value].range, d.range)
  }

  predicate RegionOwnerOk(byId: DeclarationTable, r: Region) {
    r.ownerId.Some? ==> r.ownerId.value in byId && byId[r.ownerId.value].range.Contains(r.range)
  }

  predicate FactOwnerOk(byId: DeclarationTable, regionById: map<string, Region>, f: Fact) {
    match f.owner
    case None => true
    case Some(DeclarationOwner(id)) => id in byId && byId[id].range.Contains(f.range)
    case Some(RegionOwner(id)) => id in regionById && regionById[id].range.Contains(f.range)
  }

  predicate DeclarationsOk(env: Env, sourceId: string, a: Analysis) {
    forall d | d in a.declarations ::
      DeclarationIdOk(env, sourceId, d) && ParentOk(TableBy(IdOfDeclaration, a.declarations), d)
  }

  predicate OwnersOk(env: Env, sourceId: string, a: Analysis) {
    var byId, regionById := TableBy(IdOfDeclaration, a.declarations), TableBy(IdOfRegion, a.regions);
    && (forall r | r in a.regions :: RegionIdOk(env, sourceId, r) && RegionOwnerOk(byId, r))
    && (forall f | f in a.facts :: FactIdOk(env, sourceId, f) && FactOwnerOk(byId, regionById, f))
  }

  predicate IdsUnique(a: Analysis) {
    && NoRepeats(Map(IdOfDeclaration, a.declarations))
    && NoRepeats(Map(IdOfRegion, a.regions))
    && NoRepeats(Map(IdOfFact, a.facts))
  }

  predicate StableOrder(a: Analysis) {
    && Sorted(a.declarations, DeclarationKey)
    && Sorted(a.regions, RegionKey)
    && Sorted(a.facts, FactKey)
  }

  /** What a valid analysis of one source promises; nothing is said about cycles. */
  predicate AnalysisOk(env: Env, sourceId: string, a: Analysis) {
    && ShapesOk(a)
    && DiagnosticListOk(a.diagnostics) && LayerOk(a)
    && IdsUnique(a) && StableOrder(a)
    && DeclarationsOk(env, sourceId, a) && OwnersOk(env, sourceId, a)
  }

  // --------------------------------------------------------- parent graph

  /** A table whose entries sit under their own ids and have proper parents. */
  ghost predicate ForestOk(byId: DeclarationTable) {
    forall id | id in byId :: byId[id].id == id && ParentOk(byId, byId[id])
  }

  function Width(r: ExactRange): int { r.endOffset - r.startOffset }

  lemma {:induction false} WidthBoundExists(byId: DeclarationTable) returns (bound: int)
    ensures forall id | id in byId :: Width(byId[id].range) <= bound
  {
    if byId == map[] {
      bound := 0;
    } else {
      var id :| id in byId;
      var rest := map k | k in byId && k != id :: byId[k];
      assert rest.Keys == byId.Keys - {id};
      assert |rest| < |byId|;
      var b := WidthBoundExists(rest);
      assert forall k | k in byId :: k == id || (k in rest && rest[k] == byId[k]);
      bound := if b < Width(byId[id].range) then Width(byId[id].range) else b;
    }
  }

  /** The ancestors of a declaration, nearest first, up to `steps` of them. */
  function Ancestors(byId: DeclarationTable, d: Declaration, steps: nat): seq<Declaration>
    decreases steps
  {
    if steps == 0 || d.parentId.None? || d.parentId.value !in byId then []
    else
      var parent := byId[d.parentId.value];
      [parent] + Ancestors(byId, parent, steps - 1)
  }

  lemma ContainmentTransitive(a: ExactRange, b: ExactRange, c: ExactRange)
    ensures StrictlyContains(a, b) && StrictlyContains(b, c) ==> StrictlyContains(a, c)
    ensures !StrictlyContains(a, a)
  {
  }

  /** Everything in `chain` strictly contains the range. */
  ghost predicate AllAround(chain: seq<Declaration>, range: ExactRange) {
    forall i | 0 <= i < |chain| :: StrictlyContains(chain[i].range, range)
  }

  /** Each outer member strictly contains each inner one. */
  ghost predicate Nesting(chain: seq<Declaration>) {
    forall i, j | 0 <= i < j < |chain| :: StrictlyContains(chain[j].range, chain[i].range)
  }

  lemma NestOneMore(chain: seq<Declaration>, parent: Declaration, range: ExactRange)
    requires AllAround(chain, parent.range) && Nesting(chain) && StrictlyContains(parent.range, range)
    ensures AllAround([parent] + chain, range) && Nesting([parent] + chain)
  {
    forall i | 0 <= i < |chain| ensures StrictlyContains(chain[i].range, range) {
      ContainmentTransitive(chain[i].range, parent.range, range);
    }
  }

  /** Every ancestor strictly contains the declaration, and each outer ancestor
      strictly contains each inner one: the parent graph cannot loop. */
  lemma {:induction false} AncestorsNest(byId: DeclarationTable, d: Declaration, steps: nat)
    requires ForestOk(byId) && ParentOk(byId, d)
    ensures var chain := Ancestors(byId, d, steps);
      AllAround(chain, d.range) && Nesting(chain) && NoRepeats(chain) && d !in chain
    decreases steps
  {
    var chain := Ancestors(byId, d, steps);
    if steps > 0 && d.parentId.Some? {
      var parent := byId[d.parentId.value];
      AncestorsNest(byId, parent, steps - 1);
      NestOneMore(Ancestors(byId, parent, steps - 1), parent, d.range);
    }
    DistinctIndicesNoRepeats(chain);
  }

  /** The chain of ancestors is finite: past some length it no longer grows. */
  lemma {:induction false} AncestorsEnd(byId: DeclarationTable, d: Declaration, bound: int, steps: nat)
    requires ForestOk(byId) && ParentOk(byId, d)
    requires forall id | id in byId :: Width(byId[id].range) <= bound
    requires steps > bound - Width(d.range)
    ensures Ancestors(byId, d, steps) == Ancestors(byId, d, steps + 1)
    decreases steps
  {
    if d.parentId.Some? {
      assert steps > 0;
      AncestorsEnd(byId, byId[d.parentId.value], bound, steps - 1);
    }
  }

  function Ids(ds: seq<Declaration>): set<string> {
    set d | d in ds :: d.id
  }

  /** The `while` walk over parents: it ends, never reports a cycle, and has then
      seen the declaration and exactly its ancestors. */
  method WalkParents(byId: DeclarationTable, item: Declaration) returns (cycle: bool, seen: set<string>)
    requires ForestOk(byId) && item.id in byId && byId[item.id] == item
    ensures !cycle
    ensures exists steps: nat ::
      && Ancestors(byId, item, steps) == Ancestors(byId, item, steps + 1)
      && seen == {item.id} + Ids(Ancestors(byId, item, steps))
  {
    cycle := false;
    seen := {item.id};
    var parentId := item.parentId;
    ghost var bound := WidthBoundExists(byId);
    ghost var current := item;
    ghost var steps: nat := 0;
    while parentId.Some?
      invariant current.id in byId && byId[current.id] == current && parentId == current.parentId
      invariant seen <= byId.Keys
      invariant forall id | id in seen :: Width(byId[id].range) <= Width(current.range)
      invariant AncestorsAre(byId, item, steps, current, seen)
      decreases bound - Width(current.range)
    {
      if parentId.value in seen {
        assert false;
        cycle := true;
        return;
      }
      ExtendAncestors(byId, item, steps, current, seen);
      seen := seen + {parentId.value};
      current := byId[parentId.value];
      steps := steps + 1;
      parentId := byId[parentId.value].parentId;
    }
    AncestorsStop(byId, item, steps, current, seen);
  }

  ghost predicate AncestorsAre(byId: DeclarationTable, item: Declaration, steps: nat, last: Declaration, seen: set<string>) {
    var chain := Ancestors(byId, item, steps);
    && |chain| == steps
    && last == (if chain == [] then item else chain[|chain| - 1])
    && seen == {item.id} + Ids(chain)
  }

  lemma {:induction false} AncestorsSnoc(byId: DeclarationTable, d: Declaration, steps: nat)
    requires |Ancestors(byId, d, steps)| == steps
    ensures var chain := Ancestors(byId, d, steps);
      var last := if chain == [] then d else chain[|chain| - 1];
      Ancestors(byId, d, steps + 1) ==
        chain + (if last.parentId.Some? && last.parentId.value in byId then [byId[last.parentId.value]] else [])
    decreases steps
  {
    if steps > 0 {
      AncestorsSnoc(byId, byId[d.parentId.value], steps - 1);
    }
  }

  lemma ExtendAncestors(byId: DeclarationTable, item: Declaration, steps: nat, last: Declaration, seen: set<string>)
    requires ForestOk(byId)
    requires AncestorsAre(byId, item, steps, last, seen)
    requires last.parentId.Some? && last.parentId.value in byId
    ensures AncestorsAre(byId, item, steps + 1, byId[last.parentId.value], seen + {last.parentId.value})
  {
    AncestorsSnoc(byId, item, steps);
    var chain, longer := Ancestors(byId, item, steps), Ancestors(byId, item, steps + 1);
    assert forall d :: d in longer <==> d in chain || d == byId[last.parentId.value];
    assert Ids(longer) == Ids(chain) + {last.parentId.value};
  }

  lemma AncestorsStop(byId: DeclarationTable, item: Declaration, steps: nat, last: Declaration, seen: set<string>)
    requires AncestorsAre(byId, item, steps, last, seen) && last.parentId.None?
    ensures Ancestors(byId, item, steps) == Ancestors(byId, item, steps + 1)
  {
    AncestorsSnoc(byId, item, steps);
  }

  lemma TableOfDeclarations(ds: seq<Declaration>)
    requires NoRepeats(Map(IdOfDeclaration, ds))
    ensures var byId := TableBy(IdOfDeclaration, ds);
      && (forall d | d in ds :: d.id in byId && byId[d.id] == d)
      && (forall id | id in byId :: byId[id] in ds && byId[id].id == id)
  {
    var ids := Map(IdOfDeclaration, ds);
    forall d, e | d in ds && e in ds && IdOfDeclaration(d) == IdOfDeclaration(e) ensures d == e {
      var i :| 0 <= i < |ds| && ds[i] == d;
      var j :| 0 <= j < |ds| && ds[j] == e;
      if i < j {
        NoRepeatsIndices(ids, i, j);
      } else if j < i {
        NoRepeatsIndices(ids, j, i);
      }
    }
    TableByFinds(IdOfDeclaration, ds);
    TableByContents(IdOfDeclaration, ds);
    assert forall d: Declaration :: IdOfDeclaration(d) == d.id;
  }

  /** `FileAnalysis.validate` on structures that passed their own checks: accepts
      exactly the valid analyses, and its cycle error can never be the answer. */
  method Validate(env: Env, sourceId: string, a: Analysis) returns (verdict: Verdict)
    requires ShapesOk(a)
    ensures verdict == Accepted <==> AnalysisOk(env, sourceId, a)
    ensures verdict != ParentCycle
  {
    if !DiagnosticListOk(a.diagnostics) {
      return BadDiagnostics;
    }
    if !LayerOk(a) {
      return BadLayer;
    }
    if !IdsUnique(a) {
      return DuplicateId;
    }
    if !StableOrder(a) {
      return Disordered;
    }
    var byId, regionById := TableBy(IdOfDeclaration, a.declarations), TableBy(IdOfRegion, a.regions);
    verdict := CheckDeclarations(env, sourceId, byId, a.declarations);
    if verdict != Accepted {
      return;
    }
    TableOfDeclarations(a.declarations);
    for i := 0 to |a.declarations| {
      var cycle, seen := WalkParents(byId, a.declarations[i]);
      if cycle {
        return ParentCycle;
      }
    }
    verdict := CheckOwners(env, sourceId, byId, regionById, a);
  }

  /** The loop over the declarations: id, then parent. */
  method CheckDeclarations(env: Env, sourceId: string, byId: DeclarationTable, declarations: seq<Declaration>)
    returns (verdict: Verdict)
    ensures verdict in {Accepted, BadId, BadParent}
    ensures verdict == Accepted <==> forall d | d in declarations :: DeclarationIdOk(env, sourceId, d) && ParentOk(byId, d)
  {
    for i := 0 to |declarations|
      invariant forall k | 0 <= k < i :: DeclarationIdOk(env, sourceId, declarations[k]) && ParentOk(byId, declarations[k])
    {
      if !DeclarationIdOk(env, sourceId, declarations[i]) {
        return BadId;
      }
      if !ParentOk(byId, declarations[i]) {
        return BadParent;
      }
    }
    return Accepted;
  }

  /** The loops over regions and facts: id, then owner. */
  method CheckOwners(env: Env, sourceId: string, byId: DeclarationTable, regionById: map<string, Region>, a: Analysis)
    returns (verdict: Verdict)
    ensures verdict in {Accepted, BadId, BadOwner}
    ensures verdict == Accepted <==>
      && (forall r | r in a.regions :: RegionIdOk(env, sourceId, r) && RegionOwnerOk(byId, r))
      && (forall f | f in a.facts :: FactIdOk(env, sourceId, f) && FactOwnerOk(byId, regionById, f))
  {
    for i := 0 to |a.regions|
      invariant forall k | 0 <= k < i :: RegionIdOk(env, sourceId, a.regions[k]) && RegionOwnerOk(byId, a.regions[k])
    {
      if !RegionIdOk(env, sourceId, a.regions[i]) {
        return BadId;
      }
      if !RegionOwnerOk(byId, a.regions[i]) {
        return BadOwner;
      }
    }
    for i := 0 to |a.facts|
      invariant forall k | 0 <= k < i :: FactIdOk(env, sourceId, a.facts[k]) && FactOwnerOk(byId, regionById, a.facts[k])
    {
      if !FactIdOk(env, sourceId, a.facts[i]) {
        return BadId;
      }
      if !FactOwnerOk(byId, regionById, a.facts[i]) {
        return BadOwner;
      }
    }
    return Accepted;
  }

  /** Regions of a valid analysis are told apart by id and listed once. */
  lemma ValidRegions(env: Env, sourceId: string, a: Analysis)
    requires AnalysisOk(env, sourceId, a)
    ensures forall r, q | r in a.regions && q in a.regions && r.id == q.id :: r == q
    ensures NoRepeats(a.regions)
    ensures forall r | r in a.regions :: RegionShapeOk(r)
  {
    var ids := Map(IdOfRegion, a.regions);
    forall i, j | 0 <= i < j < |a.regions| ensures a.regions[i].id != a.regions[j].id {
      NoRepeatsIndices(ids, i, j);
      assert ids[i] == a.regions[i].id && ids[j] == a.regions[j].id;
    }
    DistinctIndicesNoRepeats(a.regions);
  }

  // -------------------------------------------------- parser quality, twice

  /** The diagnostic codes by which parser quality reaches review units. */
  datatype QualityCode = ParserDegraded | ParserErrorNodes | ParserMissingNodes

  /** A warning up to its first colon. */
  function WarningCode(warning: string): string {
    if warning == [] || warning[0] == ':' then [] else [warning[0]] + WarningCode(warning[1..])
  }

  predicate Warned(q: ParserQuality, codes: set<string>) {
    exists w :: w in q.warnings && WarningCode(w) in codes
  }

  predicate Positive(count: Option<nat>) { count.Some? && count.value > 0 }

  /** `_quality_diagnostics`: from the layer, the node counts and the analysis diagnostics. */
  function QualityCodes(a: Analysis): set<QualityCode> {
    (if a.quality.layer == ParseDegraded then {ParserDegraded} else {})
    + (if Positive(a.quality.errorNodes) || "parser_error_nodes" in a.diagnostics then {ParserErrorNodes} else {})
    + (if Positive(a.quality.missingNodes) || "parser_missing_nodes" in a.diagnostics then {ParserMissingNodes} else {})
  }

  /** What a file result demands of each of its units: from the layer and the warnings. */
  function RequiredCodes(q: ParserQuality): set<QualityCode> {
    (if q.layer == ParseDegraded then {ParserDegraded} else {})
    + (if Warned(q, {"arkts_tree_sitter_error_nodes", "tree_sitter_error_nodes"}) then {ParserErrorNodes} else {})
    + (if Warned(q, {"arkts_tree_sitter_missing_nodes", "tree_sitter_missing_nodes"}) then {ParserMissingNodes} else {})
  }

  /** A warning that is the word, or starts with it and a colon. */
  ghost predicate Warns(q: ParserQuality, word: string) {
    exists w :: w in q.warnings && Begins(w, word)
  }

  ghost predicate Begins(warning: string, word: string) {
    warning == word || exists rest :: warning == word + ":" + rest
  }

  /** What the layer and the warnings ask of every unit. */
  ghost predicate Asked(q: ParserQuality, code: QualityCode) {
    match code
    case ParserDegraded => q.layer == ParseDegraded
    case ParserErrorNodes => Warns(q, "arkts_tree_sitter_error_nodes") || Warns(q, "tree_sitter_error_nodes")
    case ParserMissingNodes => Warns(q, "arkts_tree_sitter_missing_nodes") || Warns(q, "tree_sitter_missing_nodes")
  }

  lemma {:induction false} WarningCodeIs(warning: string, word: string)
    requires ':' !in word
    ensures WarningCode(warning) == word <==> Begins(warning, word)
  {
    if warning == [] {
      assert forall rest :: |word + ":" + rest| > 0;
    } else if warning[0] == ':' {
      if word == [] {
        assert warning == word + ":" + warning[1..];
      } else {
        assert forall rest :: (word + ":" + rest)[0] == word[0];
      }
    } else if word == [] {
      assert forall rest :: (word + ":" + rest)[0] == ':';
    } else {
      WarningCodeIs(warning[1..], word[1..]);
      if WarningCode(warning) == word {
        assert warning == [warning[0]] + warning[1..] && word == [word[0]] + word[1..];
        if rest :| warning[1..] == word[1..] + ":" + rest {
          assert warning == word + ":" + rest;
        }
      }
      if rest :| warning == word + ":" + rest {
        assert warning[1..] == word[1..] + ":" + rest && warning[0] == word[0];
        assert word == [word[0]] + word[1..];
      }
    }
  }

  lemma WarnedIs(q: ParserQuality, word: string)
    requires ':' !in word
    ensures (exists w :: w in q.warnings && WarningCode(w) == word) <==> Warns(q, word)
  {
    forall w ensures WarningCode(w) == word <==> Begins(w, word) {
      WarningCodeIs(w, word);
    }
  }

  /** The codes a result demands are exactly those asked for. */
  lemma RequiredCodesAre(q: ParserQuality, code: QualityCode)
    ensures code in RequiredCodes(q) <==> Asked(q, code)
  {
    match code
    case ParserDegraded =>
    case ParserErrorNodes => WarnedByTwo(q, "arkts_tree_sitter_error_nodes", "tree_sitter_error_nodes");
    case ParserMissingNodes => WarnedByTwo(q, "arkts_tree_sitter_missing_nodes", "tree_sitter_missing_nodes");
  }

  lemma WarnedByTwo(q: ParserQuality, a: string, b: string)
    requires ':' !in a && ':' !in b
    ensures Warned(q, {a, b}) <==> Warns(q, a) || Warns(q, b)
  {
    WarnedIs(q, a);
    WarnedIs(q, b);
  }
}
