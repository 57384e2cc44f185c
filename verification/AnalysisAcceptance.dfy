/** What a valid analysis is, structure by structure, without tables or sort keys. */
module AnalysisAcceptance {
  import opened Ordering
  import opened Sorting
  import opened SourceText
  import opened ChangeModel
  import opened FileAnalysis

  predicate Spans(outer: ExactRange, inner: ExactRange) {
    outer.startOffset <= inner.startOffset && inner.endOffset <= outer.endOffset
  }

  predicate Proper(r: ExactRange) { 1 <= r.startLine <= r.endLine && r.startOffset <= r.endOffset }

  /** Increasing texts, none of them empty. */
  ghost predicate SortedList(texts: seq<string>) {
    && (forall i | 0 <= i < |texts| :: texts[i] != [])
    && (forall i, j | 0 <= i < j < |texts| :: TextBefore(texts[i], texts[j]))
  }

  // ------------------------------------------------------------- structures

  /** The parent, when named, is a declaration strictly around this one. */
  ghost predicate DeclarationFits(env: Env, sourceId: string, a: Analysis, d: Declaration) {
    && d.kind in {"struct", "class", "function", "method", "build_method", "builder", "ui_block"}
    && IsText(d.name) && IsText(d.qualifiedName) && Proper(d.range)
    && d.id == env.hash(DeclarationPayload(sourceId, d.kind, d.qualifiedName, d.range))
    && (d.parentId.Some? ==>
          && IsText(d.parentId.value)
          && exists p :: p in a.declarations && p.id == d.parentId.value && Spans(p.range, d.range)
               && (p.range.startOffset != d.range.startOffset || p.range.endOffset != d.range.endOffset))
  }

  ghost predicate Owns(a: Analysis, id: string, range: ExactRange) {
    exists d :: d in a.declarations && d.id == id && Spans(d.range, range)
  }

  /** A field belongs to a declaration around it, an import to none. */
  ghost predicate RegionFits(env: Env, sourceId: string, a: Analysis, r: Region) {
    && IsText(r.symbol) && Proper(r.range)
    && r.id == env.hash(RegionPayload(sourceId, r.kind, r.symbol, r.range, r.ownerId))
    && match r.ownerId
       case None => r.kind == "import_region"
       case Some(id) => r.kind == "field_region" && Owns(a, id, r.range)
  }

  /** The owner is a declaration or a region around the fact; exact and recovered facts
      have one, unresolved facts have none. */
  ghost predicate FactFits(env: Env, sourceId: string, a: Analysis, f: Fact) {
    && f.kind in {"component", "api", "decorator", "attribute", "symbol", "syntax", "import_binding", "import_use",
                  "field_read", "field_write", "call", "string_literal", "resource_reference"}
    && IsText(f.name) && (f.canonicalName.Some? ==> IsText(f.canonicalName.value)) && Proper(f.range)
    && f.id == env.hash(FactPayload(sourceId, f.kind, f.name, f.canonicalName, f.range.startOffset, f.range.endOffset, f.owner))
    && (match f.quality
        case Exact => f.owner.Some?
        case Recovered => f.owner.Some?
        case Degraded => true
        case Unresolved => f.owner.None?)
    && match f.owner
       case None => true
       case Some(DeclarationOwner(id)) => Owns(a, id, f.range)
       case Some(RegionOwner(id)) => exists r :: r in a.regions && r.id == id && Spans(r.range, f.range)
  }

  // ------------------------------------------------------------------ order

  /** Start line, start offset, end line, end offset; then the texts. */
  predicate RangeBefore(r: ExactRange, q: ExactRange) {
    if r.startLine != q.startLine then r.startLine < q.startLine
    else if r.startOffset != q.startOffset then r.startOffset < q.startOffset
    else if r.endLine != q.endLine then r.endLine < q.endLine
    else r.endOffset < q.endOffset
  }

  ghost predicate TextsBefore(k: string, l: string, m: string, n: string, i: string, j: string) {
    if k != l then TextBefore(k, l) else if m != n then TextBefore(m, n) else TextBefore(i, j)
  }

  ghost predicate DeclarationBefore(d: Declaration, e: Declaration) {
    if d.range != e.range then RangeBefore(d.range, e.range)
    else TextsBefore(d.kind, e.kind, d.qualifiedName, e.qualifiedName, d.id, e.id)
  }

  ghost predicate RegionBefore(r: Region, q: Region) {
    if r.range != q.range then RangeBefore(r.range, q.range) else TextsBefore(r.kind, q.kind, r.symbol, q.symbol, r.id, q.id)
  }

  function ShownName(f: Fact): string {
    match f.canonicalName case Some(name) => name case None => f.name
  }

  ghost predicate FactBefore(f: Fact, g: Fact) {
    if f.range != g.range then RangeBefore(f.range, g.range) else TextsBefore(f.kind, g.kind, ShownName(f), ShownName(g), f.id, g.id)
  }

  /** No later one comes before an earlier one. */
  ghost predicate InOrder(a: Analysis) {
    && (forall i, j | 0 <= i < j < |a.declarations| :: !DeclarationBefore(a.declarations[j], a.declarations[i]))
    && (forall i, j | 0 <= i < j < |a.regions| :: !RegionBefore(a.regions[j], a.regions[i]))
    && (forall i, j | 0 <= i < j < |a.facts| :: !FactBefore(a.facts[j], a.facts[i]))
  }

  predicate IdsApart(a: Analysis) {
    && (forall i, j | 0 <= i < j < |a.declarations| :: a.declarations[i].id != a.declarations[j].id)
    && (forall i, j | 0 <= i < j < |a.regions| :: a.regions[i].id != a.regions[j].id)
    && (forall i, j | 0 <= i < j < |a.facts| :: a.facts[i].id != a.facts[j].id)
  }

  /** Node counts come together and with a formal parse, which alone has structures. */
  ghost predicate QualityFits(a: Analysis) {
    && (a.quality.errorNodes.Some? <==> a.quality.missingNodes.Some?)
    && SortedList(a.quality.warnings)
    && (a.quality.layer != L1 ==> a.quality.errorNodes.None? && a.declarations == [] && a.regions == [] && a.facts == [])
  }

  ghost predicate DiagnosticsFit(a: Analysis) {
    && SortedList(a.diagnostics)
    && forall i | 0 <= i < |a.diagnostics| ::
         a.diagnostics[i] in {"file_analysis_sidecar_unavailable", "file_analysis_sidecar_failed",
                              "file_analysis_snapshot_invalid", "occurrence_extraction_unavailable", "unresolved_fact_owner",
                              "parser_error_nodes", "parser_missing_nodes", "ambiguous_binding_scope"}
  }

  ghost predicate AnalysisFits(env: Env, sourceId: string, a: Analysis) {
    && (forall d | d in a.declarations :: DeclarationFits(env, sourceId, a, d))
    && (forall r | r in a.regions :: RegionFits(env, sourceId, a, r))
    && (forall f | f in a.facts :: FactFits(env, sourceId, a, f))
    && QualityFits(a) && DiagnosticsFit(a) && IdsApart(a) && InOrder(a)
  }

  // ------------------------------------------------------------ the readings

  lemma TextKeysAre(s: string, t: string)
    ensures KeyLess(TextKey(s), TextKey(t)) <==> TextBefore(s, t)
  {
    TextLessIs(s, t);
    KeyStep(Text(s), Text(t), [], []);
    assert TextKey(s) == [Text(s)] + [] && TextKey(t) == [Text(t)] + [];
  }

  lemma SortedListIs(texts: seq<string>)
    ensures SortedList(texts) <==> SortedTexts(texts)
  {
    forall i, j | 0 <= i < j < |texts|
      ensures KeyLess(TextKey(texts[i]), TextKey(texts[j])) <==> TextBefore(texts[i], texts[j])
    {
      TextKeysAre(texts[i], texts[j]);
    }
    if SortedTexts(texts) {
      forall i, j | 0 <= i < j < |texts| ensures TextBefore(texts[i], texts[j]) {
        assert KeyLess(TextKey(texts[i]), TextKey(texts[j]));
      }
    }
    if "" !in texts {
      forall i | 0 <= i < |texts| ensures texts[i] != [] {
        assert texts[i] in texts;
      }
    }
  }

  lemma ThreeTexts(k: string, l: string, m: string, n: string, i: string, j: string)
    ensures KeyLess([Text(k), Text(m), Text(i)], [Text(l), Text(n), Text(j)]) <==> TextsBefore(k, l, m, n, i, j)
  {
    KeyStep(Text(k), Text(l), [Text(m), Text(i)], [Text(n), Text(j)]);
    KeyStep(Text(m), Text(n), [Text(i)], [Text(j)]);
    KeyStep(Text(i), Text(j), [], []);
    assert [Text(k), Text(m), Text(i)] == [Text(k)] + [Text(m), Text(i)] && [Text(l), Text(n), Text(j)] == [Text(l)] + [Text(n), Text(j)];
    assert [Text(m), Text(i)] == [Text(m)] + [Text(i)] && [Text(n), Text(j)] == [Text(n)] + [Text(j)];
    assert [Text(i)] == [Text(i)] + [] && [Text(j)] == [Text(j)] + [];
    TextLessIs(k, l);
    TextLessIs(m, n);
    TextLessIs(i, j);
    TextTrichotomy(k, k);
    TextTrichotomy(m, m);
    TextTrichotomy(i, i);
  }

  lemma RangeFirst(r: ExactRange, q: ExactRange, a: Key, b: Key)
    ensures KeyLess(RangeKey(r) + a, RangeKey(q) + b) <==> if r != q then RangeBefore(r, q) else KeyLess(a, b)
  {
    var x, y := [Num(r.endOffset)] + a, [Num(q.endOffset)] + b;
    assert RangeKey(r) + a == [Num(r.startLine)] + ([Num(r.startOffset)] + ([Num(r.endLine)] + x));
    assert RangeKey(q) + b == [Num(q.startLine)] + ([Num(q.startOffset)] + ([Num(q.endLine)] + y));
    KeyStep(Num(r.startLine), Num(q.startLine), [Num(r.startOffset)] + ([Num(r.endLine)] + x), [Num(q.startOffset)] + ([Num(q.endLine)] + y));
    KeyStep(Num(r.startOffset), Num(q.startOffset), [Num(r.endLine)] + x, [Num(q.endLine)] + y);
    KeyStep(Num(r.endLine), Num(q.endLine), x, y);
    KeyStep(Num(r.endOffset), Num(q.endOffset), a, b);
  }

  lemma DeclarationOrder(d: Declaration, e: Declaration)
    ensures KeyLess(DeclarationKey(d), DeclarationKey(e)) <==> DeclarationBefore(d, e)
  {
    RangeFirst(d.range, e.range, [Text(d.kind), Text(d.qualifiedName), Text(d.id)], [Text(e.kind), Text(e.qualifiedName), Text(e.id)]);
    ThreeTexts(d.kind, e.kind, d.qualifiedName, e.qualifiedName, d.id, e.id);
  }

  lemma RegionOrder(r: Region, q: Region)
    ensures KeyLess(RegionKey(r), RegionKey(q)) <==> RegionBefore(r, q)
  {
    RangeFirst(r.range, q.range, [Text(r.kind), Text(r.symbol), Text(r.id)], [Text(q.kind), Text(q.symbol), Text(q.id)]);
    ThreeTexts(r.kind, q.kind, r.symbol, q.symbol, r.id, q.id);
  }

  lemma FactOrder(f: Fact, g: Fact)
    ensures KeyLess(FactKey(f), FactKey(g)) <==> FactBefore(f, g)
  {
    RangeFirst(f.range, g.range, [Text(f.kind), Text(ShownName(f)), Text(f.id)], [Text(g.kind), Text(ShownName(g)), Text(g.id)]);
    ThreeTexts(f.kind, g.kind, ShownName(f), ShownName(g), f.id, g.id);
  }

  lemma OrderIs(a: Analysis)
    ensures InOrder(a) <==> StableOrder(a)
  {
    forall i, j | 0 <= i < j < |a.declarations| {
      DeclarationOrder(a.declarations[j], a.declarations[i]);
    }
    forall i, j | 0 <= i < j < |a.regions| {
      RegionOrder(a.regions[j], a.regions[i]);
    }
    forall i, j | 0 <= i < j < |a.facts| {
      FactOrder(a.facts[j], a.facts[i]);
    }
  }

  lemma MapApart<T>(id: T -> string, xs: seq<T>)
    ensures NoRepeats(Map(id, xs)) <==> forall i, j | 0 <= i < j < |xs| :: id(xs[i]) != id(xs[j])
  {
    var ids := Map(id, xs);
    if NoRepeats(ids) {
      forall i, j | 0 <= i < j < |xs| ensures id(xs[i]) != id(xs[j]) {
        NoRepeatsIndices(ids, i, j);
      }
    }
    if forall i, j | 0 <= i < j < |xs| :: id(xs[i]) != id(xs[j]) {
      DistinctIndicesNoRepeats(ids);
    }
  }

  lemma IdsApartIs(a: Analysis)
    ensures IdsApart(a) <==> IdsUnique(a)
  {
    MapApart(IdOfDeclaration, a.declarations);
    MapApart(IdOfRegion, a.regions);
    MapApart(IdOfFact, a.facts);
  }

  /** Looking up an id among distinct ids finds exactly the one that has it. */
  lemma FoundIs<T(!new)>(id: T -> string, xs: seq<T>, wanted: string, x: T)
    requires NoRepeats(Map(id, xs))
    ensures wanted in TableBy(id, xs) && TableBy(id, xs)[wanted] == x <==> x in xs && id(x) == wanted
  {
    MapApart(id, xs);
    forall x, y | x in xs && y in xs && id(x) == id(y) ensures x == y {
      var i :| 0 <= i < |xs| && xs[i] == x;
      var j :| 0 <= j < |xs| && xs[j] == y;
    }
    TableByFinds(id, xs);
    TableByContents(id, xs);
  }

  lemma OwnsIs(a: Analysis, id: string, range: ExactRange)
    requires IdsUnique(a)
    ensures var byId := TableBy(IdOfDeclaration, a.declarations);
      Owns(a, id, range) <==> id in byId && byId[id].range.Contains(range)
  {
    var byId := TableBy(IdOfDeclaration, a.declarations);
    if id in byId {
      FoundIs(IdOfDeclaration, a.declarations, id, byId[id]);
    }
    forall d | d in a.declarations && d.id == id ensures id in byId && byId[id] == d {
      FoundIs(IdOfDeclaration, a.declarations, id, d);
    }
  }

  lemma RegionOwnsIs(a: Analysis, id: string, range: ExactRange)
    requires IdsUnique(a)
    ensures var byId := TableBy(IdOfRegion, a.regions);
      (exists r :: r in a.regions && r.id == id && Spans(r.range, range)) <==> id in byId && byId[id].range.Contains(range)
  {
    var byId := TableBy(IdOfRegion, a.regions);
    if id in byId {
      FoundIs(IdOfRegion, a.regions, id, byId[id]);
    }
    forall r | r in a.regions && r.id == id ensures id in byId && byId[id] == r {
      FoundIs(IdOfRegion, a.regions, id, r);
    }
  }

  lemma ParentIs(a: Analysis, d: Declaration)
    requires IdsUnique(a) && d.parentId.Some?
    ensures ParentOk(TableBy(IdOfDeclaration, a.declarations), d) <==>
      exists p :: p in a.declarations && p.id == d.parentId.value && Spans(p.range, d.range)
        && (p.range.startOffset != d.range.startOffset || p.range.endOffset != d.range.endOffset)
  {
    var byId, id := TableBy(IdOfDeclaration, a.declarations), d.parentId.value;
    if id in byId {
      FoundIs(IdOfDeclaration, a.declarations, id, byId[id]);
    }
    forall p | p in a.declarations && p.id == id ensures id in byId && byId[id] == p {
      FoundIs(IdOfDeclaration, a.declarations, id, p);
    }
  }

  lemma DeclarationFitsIs(env: Env, sourceId: string, a: Analysis, d: Declaration)
    requires IdsUnique(a)
    ensures DeclarationFits(env, sourceId, a, d) <==>
      DeclarationShapeOk(d) && DeclarationIdOk(env, sourceId, d) && ParentOk(TableBy(IdOfDeclaration, a.declarations), d)
  {
    if d.parentId.Some? {
      ParentIs(a, d);
    }
  }

  lemma RegionFitsIs(env: Env, sourceId: string, a: Analysis, r: Region)
    requires IdsUnique(a)
    ensures RegionFits(env, sourceId, a, r) <==>
      RegionShapeOk(r) && RegionIdOk(env, sourceId, r) && RegionOwnerOk(TableBy(IdOfDeclaration, a.declarations), r)
  {
    if r.ownerId.Some? {
      OwnsIs(a, r.ownerId.value, r.range);
    }
  }

  lemma FactFitsIs(env: Env, sourceId: string, a: Analysis, f: Fact)
    requires IdsUnique(a)
    ensures FactFits(env, sourceId, a, f) <==>
      FactShapeOk(f) && FactIdOk(env, sourceId, f)
      && FactOwnerOk(TableBy(IdOfDeclaration, a.declarations), TableBy(IdOfRegion, a.regions), f)
  {
    match f.owner
    case None =>
    case Some(DeclarationOwner(id)) => OwnsIs(a, id, f.range);
    case Some(RegionOwner(id)) => RegionOwnsIs(a, id, f.range);
  }

  lemma QualityFitsIs(a: Analysis)
    ensures QualityFits(a) <==> QualityShapeOk(a.quality) && LayerOk(a)
  {
    SortedListIs(a.quality.warnings);
  }

  lemma DiagnosticsFitIs(a: Analysis)
    ensures DiagnosticsFit(a) <==> DiagnosticListOk(a.diagnostics)
  {
    SortedListIs(a.diagnostics);
    if DiagnosticsFit(a) {
      forall d | d in a.diagnostics ensures d in ANALYSIS_DIAGNOSTICS {
        var i :| 0 <= i < |a.diagnostics| && a.diagnostics[i] == d;
      }
    }
    if DiagnosticListOk(a.diagnostics) {
      forall i | 0 <= i < |a.diagnostics| ensures a.diagnostics[i] in ANALYSIS_DIAGNOSTICS {
        assert a.diagnostics[i] in a.diagnostics;
      }
    }
  }

  lemma StructuresFitIs(env: Env, sourceId: string, a: Analysis)
    requires IdsUnique(a)
    ensures && (forall d | d in a.declarations :: DeclarationFits(env, sourceId, a, d))
            && (forall r | r in a.regions :: RegionFits(env, sourceId, a, r))
            && (forall f | f in a.facts :: FactFits(env, sourceId, a, f))
       <==> && (forall d | d in a.declarations :: DeclarationShapeOk(d)) && (forall r | r in a.regions :: RegionShapeOk(r))
            && (forall f | f in a.facts :: FactShapeOk(f))
            && DeclarationsOk(env, sourceId, a) && OwnersOk(env, sourceId, a)
  {
    forall d | d in a.declarations {
      DeclarationFitsIs(env, sourceId, a, d);
    }
    forall r | r in a.regions {
      RegionFitsIs(env, sourceId, a, r);
    }
    forall f | f in a.facts {
      FactFitsIs(env, sourceId, a, f);
    }
  }

  /** An analysis is valid exactly when each structure, the order and the quality fit. */
  lemma ValidIffFits(env: Env, sourceId: string, a: Analysis)
    ensures AnalysisOk(env, sourceId, a) <==> AnalysisFits(env, sourceId, a)
  {
    IdsApartIs(a);
    OrderIs(a);
    QualityFitsIs(a);
    DiagnosticsFitIs(a);
    if IdsUnique(a) {
      StructuresFitIs(env, sourceId, a);
    }
  }

  /** `FileAnalysis.validate` on structures that passed their own checks. */
  method ValidateAnalysis(env: Env, sourceId: string, a: Analysis) returns (verdict: Verdict)
    requires ShapesOk(a)
    ensures verdict == Accepted <==> AnalysisFits(env, sourceId, a)
    ensures verdict != ParentCycle
  {
    ValidIffFits(env, sourceId, a);
    verdict := Validate(env, sourceId, a);
  }
}
