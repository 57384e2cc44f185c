/** What a reader of a finished build finds in a unit: its text is its own context, line
    by line, and its relative line numbers point at the changed lines in that text. */
module UnitContents {
  import opened Ordering
  import opened Sorting
  import opened SourceText
  import opened ChangeModel
  import opened FileAnalysis
  import opened RegionAssignment
  import opened ReviewUnits
  import opened SourceResult
  import opened SourceProofs
  import opened SideOutcome
  import opened SideUnits
  import opened ChangeReview
  import opened ReviewProofs

  // ------------------------------------------------------- lines and pieces

  /** The characters that end a line, by code point. */
  predicate EndsLine(c: char) {
    c as int in {0x0A, 0x0D, 0x0B, 0x0C, 0x1C, 0x1D, 0x1E, 0x85, 0x2028, 0x2029}
  }

  /** `body` is the source's line `n` without what ends it. */
  ghost predicate IsSourceLine(content: string, n: nat, body: string) {
    && 1 <= n <= |Lines(content)|
    && (forall i | 0 <= i < |body| :: !EndsLine(body[i]))
    && exists end: string :: Lines(content)[n - 1] == body + end && IsEnd(end)
  }

  /** The pieces are the source's lines from line `first` on. */
  ghost predicate PiecesFrom(content: string, first: nat, pieces: seq<string>) {
    forall k | 0 <= k < |pieces| :: IsSourceLine(content, first + k, pieces[k])
  }

  /** Nothing, at the end of the source; one ending character; or CR LF. */
  predicate IsEnd(end: string) {
    || end == [] || end == "\r\n" || (|end| == 1 && EndsLine(end[0]))
  }

  lemma BreaksEndLines(c: char)
    ensures IsBreak(c) <==> EndsLine(c)
  {
  }

  /** No breaks before the end of a first line, and at most CR LF at the end. */
  predicate OneLineOnly(line: string) {
    && line != []
    && (forall i | 0 <= i < |line| - 1 && IsBreak(line[i]) :: line[i] == '\r' && i == |line| - 2 && line[|line| - 1] == '\n')
  }

  lemma FirstLineIsOne(text: string)
    requires text != []
    ensures OneLineOnly(text[..FirstLine(text)])
  {
    var n := FirstLine(text);
    forall i | 0 <= i < n - 1 && IsBreak(text[..n][i])
      ensures text[..n][i] == '\r' && i == n - 2 && text[..n][n - 1] == '\n'
    {
      assert IsBreak(text[i]);
    }
  }

  lemma BodyAndEnd(line: string) returns (end: string)
    requires OneLineOnly(line)
    ensures line == LineBody(line) + end && IsEnd(end)
    ensures forall i | 0 <= i < |LineBody(line)| :: !IsBreak(LineBody(line)[i])
  {
    var n := |line|;
    if !IsBreak(line[n - 1]) {
      end := [];
      assert line == line + end;
    } else if n >= 2 && line[n - 1] == '\n' && line[n - 2] == '\r' {
      end := "\r\n";
      assert line == line[..n - 2] + end;
    } else {
      end := [line[n - 1]];
      BreaksEndLines(line[n - 1]);
      assert line == line[..n - 1] + end;
    }
  }

  lemma {:induction false} LineBodies(content: string, n: nat)
    requires 1 <= n <= |Lines(content)|
    ensures IsSourceLine(content, n, LineBody(Lines(content)[n - 1]))
    decreases n
  {
    var k := FirstLine(content);
    if n == 1 {
      FirstLineIsOne(content);
      var end := BodyAndEnd(content[..k]);
      forall i | 0 <= i < |LineBody(content[..k])| ensures !EndsLine(LineBody(content[..k])[i]) {
        BreaksEndLines(LineBody(content[..k])[i]);
      }
    } else {
      LineBodies(content[k..], n - 1);
      assert Lines(content)[n - 1] == Lines(content[k..])[n - 2];
    }
  }

  lemma {:induction false} SplitBody(body: string, rest: string)
    requires forall i | 0 <= i < |body| :: body[i] != '\n'
    ensures SplitNewlines(body) == [body]
    ensures SplitNewlines(body + "\n" + rest) == [body] + SplitNewlines(rest)
  {
    if body == [] {
      assert body + "\n" + rest == "\n" + rest;
      assert ("\n" + rest)[1..] == rest;
    } else {
      SplitBody(body[1..], rest);
      assert (body + "\n" + rest)[1..] == body[1..] + "\n" + rest;
      assert [body[0]] + body[1..] == body;
      assert ([body[1..]] + SplitNewlines(rest))[1..] == SplitNewlines(rest);
    }
  }

  /** Joining bodies with newlines and splitting gives the bodies back. */
  lemma {:induction false} SplitJoined(lines: seq<string>)
    requires lines != [] && forall k, i | 0 <= k < |lines| && 0 <= i < |LineBody(lines[k])| :: LineBody(lines[k])[i] != '\n'
    ensures |SplitNewlines(JoinBodies(lines))| == |lines|
    ensures forall k | 0 <= k < |lines| :: SplitNewlines(JoinBodies(lines))[k] == LineBody(lines[k])
  {
    var body := LineBody(lines[0]);
    if |lines| == 1 {
      SplitBody(body, []);
    } else {
      assert lines[1..] != [];
      SplitJoined(lines[1..]);
      SplitBody(body, JoinBodies(lines[1..]));
    }
  }

  /** Bodies of source lines hold no newline. */
  lemma BodiesHoldNoNewline(content: string, from: nat, lines: seq<string>)
    requires from + |lines| <= |Lines(content)| && lines == Lines(content)[from..from + |lines|]
    ensures forall k, i | 0 <= k < |lines| && 0 <= i < |LineBody(lines[k])| :: LineBody(lines[k])[i] != '\n'
    ensures forall k | 0 <= k < |lines| :: IsSourceLine(content, from + 1 + k, LineBody(lines[k]))
  {
    assert EndsLine('\n');
    forall k | 0 <= k < |lines|
      ensures IsSourceLine(content, from + 1 + k, LineBody(lines[k]))
      ensures forall i | 0 <= i < |LineBody(lines[k])| :: LineBody(lines[k])[i] != '\n'
    {
      LineBodies(content, from + 1 + k);
    }
  }

  /** The pieces of joined lines are the lines. */
  lemma JoinedPieces(content: string, from: nat, lines: seq<string>, pieces: seq<string>)
    requires lines != [] && from + |lines| <= |Lines(content)| && lines == Lines(content)[from..from + |lines|]
    requires pieces == SplitNewlines(JoinBodies(lines))
    ensures |pieces| == |lines| && PiecesFrom(content, from + 1, pieces)
  {
    BodiesHoldNoNewline(content, from, lines);
    SplitJoined(lines);
    forall k | 0 <= k < |pieces| ensures IsSourceLine(content, from + 1 + k, pieces[k]) {
      assert pieces[k] == LineBody(lines[k]);
    }
  }

  function LastLine(content: string, span: LineSpan): nat {
    if span.endLine < |Lines(content)| then span.endLine else |Lines(content)|
  }

  lemma ExtractedIsJoined(content: string, span: LineSpan)
    requires span.Valid() && span.startLine <= |Lines(content)|
    ensures ExtractLines(content, span) == JoinBodies(Lines(content)[span.startLine - 1..LastLine(content, span)])
  {
  }

  /** The text of a span that starts in the source: its lines, as far as there are any. */
  lemma ExtractedLines(content: string, span: LineSpan)
    requires span.Valid() && span.startLine <= |Lines(content)|
    ensures var pieces := SplitNewlines(ExtractLines(content, span));
      && |pieces| == LastLine(content, span) - span.startLine + 1
      && PiecesFrom(content, span.startLine, pieces)
  {
    var from := span.startLine - 1;
    var lines := Lines(content)[from..LastLine(content, span)];
    ExtractedIsJoined(content, span);
    JoinedPieces(content, from, lines, SplitNewlines(JoinBodies(lines)));
    assert from + 1 == span.startLine;
  }

  // ------------------------------------------------------ the units of a side

  lemma SpanLinesExist(content: string, side: seq<ChangeAtom>, role: Side, a: ChangeAtom, line: nat)
    requires RangesOk(content, side, role) && a in side && line in SideLines(a, role)
    requires LinesInside(a.deletedLines, a.oldSpan) && LinesInside(a.addedLines, a.newSpan)
    ensures 1 <= line <= |Lines(content)|
  {
    var r := SideSpan(a, role).value;
    assert FullLineRange(content, r.startLine, r.endLine) == Some(r);
    assert r.startLine >= 1 && r.endLine <= |Lines(content)|;
    var lines := SideLines(a, role);
    var i :| 0 <= i < |lines| && lines[i] == line;
  }

  lemma RelativePoints(u: Unit, naming: Naming, i: nat)
    requires UnitOk(naming, u) && i < |Effective(u)|
    ensures |u.unitChangedLines| == |Effective(u)| && 1 <= u.unitChangedLines[i]
    ensures u.identity.contextSpan.startLine + u.unitChangedLines[i] - 1 == Effective(u)[i] <= u.identity.contextSpan.endLine
  {
    ProjectMembers(u.fileChangedLines, u.identity.contextSpan, true);
    assert Effective(u)[i] in Project(u.fileChangedLines, u.identity.contextSpan, true);
  }

  /** The final units of a side show their contexts. */
  lemma KeptTexts(tools: Tools, job: Job)
    requires AtomsProper(job.atoms) && RegionsProper(job.analysis.regions) && Build(tools, job).Some?
    ensures TextsOk(job.snapshot.content, Build(tools, job).value.units)
  {
    if SideAtoms(job) == [] {
      NoAtomsNoUnits(tools, job);
    } else {
      var owners, gone := BuiltIsKept(tools, job);
      var units, kept := BoundUnits(tools, job, owners).value, Build(tools, job).value.units;
      forall v | v in kept ensures TextOk(job.snapshot.content, v) {
        assert ComesFrom(StayingId(owners, gone), Keeping(owners, gone), units, v);
        var u :| u in units && Shrunk(Keeping(owners, gone), u, v);
        TextOfBound(tools, job, owners, u);
      }
    }
  }

  lemma TextOfBound(tools: Tools, job: Job, owners: LineOwners, u: Unit)
    requires BoundUnits(tools, job, owners).Some? && u in BoundUnits(tools, job, owners).value
    ensures TextOk(job.snapshot.content, u)
  {
  }

  /** What the reader finds, for one unit of a source. */
  ghost predicate ReadsWell(content: string, role: Side, u: Unit) {
    var shown, pieces := if role == Base then u.changedOldLines else u.changedNewLines, SplitNewlines(u.text);
    && |u.unitChangedLines| == |shown|
    && (shown != [] ==> PiecesFrom(content, u.identity.contextSpan.startLine, pieces))
    && forall i | 0 <= i < |shown| :: PointsAt(content, u.identity.contextSpan, pieces, u.unitChangedLines[i], shown[i])
  }

  /** The relative number counts from the context's first line, and picks the changed
      source line out of the text. */
  ghost predicate PointsAt(content: string, span: LineSpan, pieces: seq<string>, relative: int, line: nat) {
    && 1 <= relative <= |pieces| && span.startLine + relative - 1 == line
    && IsSourceLine(content, line, pieces[relative - 1])
  }

  /** A changed line exists in the source. */
  lemma ShownLineExists(tools: Tools, job: Job, u: Unit, i: nat)
    requires AtomsProper(job.atoms) && RegionsProper(job.analysis.regions) && Build(tools, job).Some?
    requires forall a | a in job.atoms :: LinesInside(a.deletedLines, a.oldSpan) && LinesInside(a.addedLines, a.newSpan)
    requires u in Build(tools, job).value.units && i < |Effective(u)|
    ensures 1 <= Effective(u)[i] <= |Lines(job.snapshot.content)|
  {
    if SideAtoms(job) == [] {
      NoAtomsNoUnits(tools, job);
    } else {
      var owners, gone := BuiltIsKept(tools, job);
      var line := Effective(u)[i];
      assert BoundUnit(tools.naming, job.Bound(), owners, u);
      EffectiveLinesOwned(tools.naming, job.Bound(), owners, u, line);
      var a :| a in SideAtoms(job) && a.id == owners[line] && line in SideLines(a, job.role);
      SpanLinesExist(job.snapshot.content, SideAtoms(job), job.role, a, line);
    }
  }

  lemma PieceAt(content: string, from: nat, pieces: seq<string>, k: nat, line: nat)
    requires PiecesFrom(content, from, pieces)
    requires k < |pieces| && from + k == line
    ensures IsSourceLine(content, line, pieces[k])
  {
  }

  lemma ContextRead(naming: Naming, content: string, u: Unit)
    requires UnitOk(naming, u) && TextOk(content, u) && u.identity.contextSpan.startLine <= |Lines(content)|
    ensures var pieces, span := SplitNewlines(u.text), u.identity.contextSpan;
      && |pieces| == LastLine(content, span) - span.startLine + 1
      && PiecesFrom(content, span.startLine, pieces)
  {
    ExtractedLines(content, u.identity.contextSpan);
  }

  lemma PointRead(naming: Naming, content: string, u: Unit, i: nat)
    requires UnitOk(naming, u) && TextOk(content, u) && i < |Effective(u)| && 1 <= Effective(u)[i] <= |Lines(content)|
    ensures |u.unitChangedLines| == |Effective(u)|
    ensures PointsAt(content, u.identity.contextSpan, SplitNewlines(u.text), u.unitChangedLines[i], Effective(u)[i])
    ensures PiecesFrom(content, u.identity.contextSpan.startLine, SplitNewlines(u.text))
  {
    RelativePoints(u, naming, i);
    ContextRead(naming, content, u);
    PieceAt(content, u.identity.contextSpan.startLine, SplitNewlines(u.text), u.unitChangedLines[i] - 1, Effective(u)[i]);
  }

  lemma AllPointsRead(naming: Naming, content: string, role: Side, u: Unit)
    requires UnitOk(naming, u) && TextOk(content, u) && u.scope.Some? && u.scope.value.role == role
    requires forall i | 0 <= i < |Effective(u)| :: 1 <= Effective(u)[i] <= |Lines(content)|
    ensures ReadsWell(content, role, u)
  {
    forall i: nat | i < |Effective(u)|
      ensures PointsAt(content, u.identity.contextSpan, SplitNewlines(u.text), u.unitChangedLines[i], Effective(u)[i])
    {
      PointRead(naming, content, u, i);
    }
    if Effective(u) != [] {
      PointRead(naming, content, u, 0);
    }
  }

  lemma UnitReadsWell(tools: Tools, job: Job, u: Unit)
    requires AtomsProper(job.atoms) && RegionsProper(job.analysis.regions) && Build(tools, job).Some?
    requires forall a | a in job.atoms :: LinesInside(a.deletedLines, a.oldSpan) && LinesInside(a.addedLines, a.newSpan)
    requires u in Build(tools, job).value.units
    ensures ReadsWell(job.snapshot.content, job.role, u)
  {
    KeptTexts(tools, job);
    assert TextOk(job.snapshot.content, u);
    forall i: nat | i < |Effective(u)| ensures 1 <= Effective(u)[i] <= |Lines(job.snapshot.content)| {
      ShownLineExists(tools, job, u, i);
    }
    BuiltUnitFits(tools, job, u);
    AllPointsRead(tools.naming, job.snapshot.content, job.role, u);
  }

  lemma BuiltUnitFits(tools: Tools, job: Job, u: Unit)
    requires Build(tools, job).Some? && u in Build(tools, job).value.units
    ensures UnitOk(tools.naming, u) && u.scope == Some(job.Bound())
  {
    assert UnitFits(tools.naming, Build(tools, job).value, u);
  }

  /** Every unit of a finished build reads well: its text is the lines of its context,
      and its relative line numbers pick out the changed ones. */
  lemma UnitsReadWell(env: Env, tools: Tools, inp: Inputs, b: Batch, r: FileResult, u: Unit)
    requires BuildAll(env, tools, inp) == Some(b) && ProperAtoms(env, inp.changeSet)
    requires r in b.results && u in r.units
    ensures r.scope.refId in inp.snapshots && ReadsWell(inp.snapshots[r.scope.refId].content, r.scope.role, u)
  {
    BatchResults(env, tools, inp, b);
    var job :| job in Jobs(inp) && Build(tools, job) == Some(r);
    JobReadsWell(env, tools, inp, job, u);
    BuiltFor(tools, job);
    JobSource(env, inp, job);
  }

  lemma JobReadsWell(env: Env, tools: Tools, inp: Inputs, job: Job, u: Unit)
    requires InputsOk(env, inp) && ProperAtoms(env, inp.changeSet) && job in Jobs(inp)
    requires Build(tools, job).Some? && u in Build(tools, job).value.units
    ensures ReadsWell(job.snapshot.content, job.role, u)
  {
    JobAtoms(env, inp, job);
    JobRegions(env, inp, job);
    JobLinesInside(env, inp, job);
    UnitReadsWell(tools, job, u);
  }

  lemma BuiltFor(tools: Tools, job: Job)
    requires Build(tools, job).Some?
    ensures Build(tools, job).value.scope == Scope(job.role, job.snapshot.ref.id)
  {
  }

  lemma JobSource(env: Env, inp: Inputs, job: Job)
    requires InputsOk(env, inp) && job in Jobs(inp)
    ensures job.snapshot.ref.id in inp.snapshots && inp.snapshots[job.snapshot.ref.id] == job.snapshot
  {
    var f := JobOrigin(inp, job);
    SourceChecked(env, inp, FileRef(f, job.role).value);
  }

  lemma JobLinesInside(env: Env, inp: Inputs, job: Job)
    requires InputsOk(env, inp) && ProperAtoms(env, inp.changeSet) && job in Jobs(inp)
    ensures forall a | a in job.atoms :: LinesInside(a.deletedLines, a.oldSpan) && LinesInside(a.addedLines, a.newSpan)
  {
    var f := JobOrigin(inp, job);
    FileAtomFacts(env, inp.changeSet, f);
    forall a | a in job.atoms ensures LinesInside(a.deletedLines, a.oldSpan) && LinesInside(a.addedLines, a.newSpan) {
      assert AtomOk(env, a);
    }
  }
}
