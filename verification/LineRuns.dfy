/** `_line_runs` and `_line_hunks`: a set of lines as maximal consecutive runs. */
module LineRuns {
  import opened Ordering
  import opened Sorting

  datatype Run = Run(start: nat, end: nat) {
    predicate Covers(line: nat) { start <= line <= end }
  }

  datatype Hunk = Hunk(newStart: nat, newLines: nat) {
    predicate Covers(line: nat) { newStart <= line < newStart + newLines }
  }

  function SortedLines(lines: set<nat>): seq<nat> { SortedSet(lines, NumberKey) }

  /** The lines a list of runs names. */
  ghost function Expand(runs: seq<Run>): set<nat> {
    set r, line: nat | r in runs && r.start <= line <= r.end && r.Covers(line) :: line
  }

  /** Runs are non-empty, increasing, and a missing line separates any two. */
  predicate Canonical(runs: seq<Run>) {
    && (forall i | 0 <= i < |runs| :: runs[i].start <= runs[i].end)
    && (forall i, j | 0 <= i < j < |runs| :: runs[i].end + 1 < runs[j].start)
  }

  function Last(runs: seq<Run>): Run
    requires runs != []
  {
    runs[|runs| - 1]
  }

  /** Adds the next greater line: it extends the last run or opens a new one. */
  function AddLine(runs: seq<Run>, line: nat): seq<Run> {
    if runs != [] && Last(runs).end + 1 == line
    then runs[..|runs| - 1] + [Run(Last(runs).start, line)]
    else runs + [Run(line, line)]
  }

  function RunsOf(ordered: seq<nat>): seq<Run> {
    if ordered == [] then [] else AddLine(RunsOf(ordered[..|ordered| - 1]), ordered[|ordered| - 1])
  }

  function Elements(ordered: seq<nat>): set<nat> { set line | line in ordered }

  function LineRunsOf(lines: set<nat>): seq<Run> { RunsOf(SortedLines(lines)) }

  function HunkOf(r: Run): Hunk
    requires r.start <= r.end
  {
    Hunk(r.start, r.end - r.start + 1)
  }

  function HunksOf(runs: seq<Run>): seq<Hunk>
    requires Canonical(runs)
  {
    seq(|runs|, i requires 0 <= i < |runs| => HunkOf(runs[i]))
  }

  /** The lines named by hunks, as the declaration builder reads them. */
  function HunkLines(hunks: seq<Hunk>): set<nat> {
    set h, line: nat | h in hunks && h.newStart <= line < h.newStart + h.newLines && h.Covers(line) :: line
  }

  lemma {:induction false} RunsOfCanonical(ordered: seq<nat>)
    requires forall i, j | 0 <= i < j < |ordered| :: ordered[i] < ordered[j]
    ensures Canonical(RunsOf(ordered))
    ensures Expand(RunsOf(ordered)) == Elements(ordered)
    ensures (RunsOf(ordered) == []) == (ordered == [])
    ensures ordered != [] ==> Last(RunsOf(ordered)).end == ordered[|ordered| - 1]
  {
    if ordered != [] {
      var init, line := ordered[..|ordered| - 1], ordered[|ordered| - 1];
      RunsOfCanonical(init);
      AddLineExpands(RunsOf(init), line);
      assert ordered == init + [line];
      assert Elements(ordered) == Elements(init) + {line};
    }
  }

  lemma AddLineExpands(runs: seq<Run>, line: nat)
    requires Canonical(runs)
    requires runs != [] ==> Last(runs).end < line
    ensures Canonical(AddLine(runs, line))
    ensures Expand(AddLine(runs, line)) == Expand(runs) + {line}
    ensures AddLine(runs, line) != [] && Last(AddLine(runs, line)).end == line
  {
    var added := AddLine(runs, line);
    if runs != [] && Last(runs).end + 1 == line {
      var init, last := runs[..|runs| - 1], Last(runs);
      assert runs == init + [last];
      ExpandSnoc(init, last);
      ExpandSnoc(init, Run(last.start, line));
      assert forall l: nat :: Run(last.start, line).Covers(l) <==> last.Covers(l) || l == line;
    } else {
      ExpandSnoc(runs, Run(line, line));
      assert forall l: nat :: Run(line, line).Covers(l) <==> l == line;
    }
  }

  lemma ExpandSnoc(runs: seq<Run>, r: Run)
    ensures forall line: nat :: line in Expand(runs + [r]) <==> line in Expand(runs) || r.Covers(line)
  {
    assert forall q :: q in runs + [r] <==> q in runs || q == r;
  }

  lemma RunsOfStep(ordered: seq<nat>, i: nat)
    requires i < |ordered|
    ensures RunsOf(ordered[..i + 1]) == AddLine(RunsOf(ordered[..i]), ordered[i])
  {
    assert ordered[..i + 1][..i] == ordered[..i];
  }

  lemma OpenRunStep(runs: seq<Run>, open: Run, line: nat)
    ensures AddLine(runs + [open], line) ==
      if open.end + 1 == line then runs + [Run(open.start, line)] else runs + [open] + [Run(line, line)]
  {
    assert (runs + [open])[..|runs|] == runs;
  }

  /** The loop: one open run, closed whenever the next line does not touch it. */
  method CollectRuns(lines: set<nat>) returns (runs: seq<Run>)
    ensures runs == LineRunsOf(lines)
    ensures Canonical(runs) && Expand(runs) == lines
  {
    LineRunsExpand(lines);
    EmptyExpansion(LineRunsOf(lines));
    if lines == {} {
      return [];
    }
    var ordered := SortedLines(lines);
    runs := [];
    var start, previous := ordered[0], ordered[0];
    RunsOfStep(ordered, 0);
    var i := 1;
    while i < |ordered|
      invariant 1 <= i <= |ordered|
      invariant runs + [Run(start, previous)] == RunsOf(ordered[..i])
    {
      var line := ordered[i];
      RunsOfStep(ordered, i);
      OpenRunStep(runs, Run(start, previous), line);
      if line == previous + 1 {
        previous := line;
      } else {
        runs := runs + [Run(start, previous)];
        start, previous := line, line;
      }
      i := i + 1;
    }
    assert ordered[..i] == ordered;
    runs := runs + [Run(start, previous)];
  }

  lemma StrictNumbers(ordered: seq<nat>)
    requires StrictlySorted(ordered, NumberKey)
    ensures forall i, j | 0 <= i < j < |ordered| :: ordered[i] < ordered[j]
  {
    forall i, j | 0 <= i < j < |ordered| ensures ordered[i] < ordered[j] {
      assert KeyLess(NumberKey(ordered[i]), NumberKey(ordered[j]));
      assert NumberKey(ordered[i])[1..] == [] && NumberKey(ordered[j])[1..] == [];
      assert !KeyLess([], []);
    }
  }

  lemma LineRunsExpand(lines: set<nat>)
    ensures Canonical(LineRunsOf(lines)) && Expand(LineRunsOf(lines)) == lines
  {
    StrictNumbers(SortedLines(lines));
    RunsOfCanonical(SortedLines(lines));
    assert Elements(SortedLines(lines)) == lines;
  }

  /** The encoding is canonical: only one canonical run list names a set of lines. */
  lemma {:induction false} CanonicalUnique(xs: seq<Run>, ys: seq<Run>)
    requires Canonical(xs) && Canonical(ys) && Expand(xs) == Expand(ys)
    ensures xs == ys
  {
    if xs == [] || ys == [] {
      EmptyExpansion(xs);
      EmptyExpansion(ys);
    } else {
      FirstRunsAgree(xs, ys);
      ExpandTail(xs);
      ExpandTail(ys);
      CanonicalUnique(xs[1..], ys[1..]);
      assert xs == [xs[0]] + xs[1..] && ys == [ys[0]] + ys[1..];
    }
  }

  lemma EmptyExpansion(runs: seq<Run>)
    requires Canonical(runs)
    ensures Expand(runs) == {} <==> runs == []
  {
    if runs != [] {
      assert runs[0] in runs && runs[0].Covers(runs[0].start);
      assert runs[0].start in Expand(runs);
    }
  }

  /** The first run starts at the least line, and the line after its end is missing. */
  lemma FirstRun(runs: seq<Run>)
    requires Canonical(runs) && runs != []
    ensures forall line | runs[0].start <= line <= runs[0].end :: line in Expand(runs)
    ensures forall line | line in Expand(runs) :: line >= runs[0].start
    ensures runs[0].end + 1 !in Expand(runs)
  {
    assert runs[0] in runs;
    forall line | runs[0].start <= line <= runs[0].end ensures line in Expand(runs) {
      assert runs[0].Covers(line);
    }
    forall r | r in runs ensures r == runs[0] || r.start > runs[0].end + 1 {
      var i :| 0 <= i < |runs| && runs[i] == r;
    }
  }

  lemma FirstRunsAgree(xs: seq<Run>, ys: seq<Run>)
    requires Canonical(xs) && Canonical(ys) && xs != [] && ys != []
    requires Expand(xs) == Expand(ys)
    ensures xs[0] == ys[0]
  {
    FirstRun(xs);
    FirstRun(ys);
    assert xs[0].start in Expand(ys) && ys[0].start in Expand(xs);
    var x, y := xs[0].end + 1, ys[0].end + 1;
    assert ys[0].start <= x <= ys[0].end ==> x in Expand(ys);
    assert xs[0].start <= y <= xs[0].end ==> y in Expand(xs);
  }

  lemma ExpandTail(runs: seq<Run>)
    requires Canonical(runs) && runs != []
    ensures forall line: nat :: line in Expand(runs[1..]) <==> line in Expand(runs) && !runs[0].Covers(line)
  {
    assert forall r :: r in runs <==> r == runs[0] || r in runs[1..];
    forall r | r in runs[1..] ensures r.start > runs[0].end {
      var i :| 0 <= i < |runs[1..]| && runs[1..][i] == r;
      assert runs[i + 1] == r;
    }
  }

  lemma HunkLineInRun(runs: seq<Run>, line: nat)
    requires Canonical(runs) && line in HunkLines(HunksOf(runs))
    ensures line in Expand(runs)
  {
    var hunks := HunksOf(runs);
    var h :| h in hunks && h.Covers(line) && h.newStart <= line < h.newStart + h.newLines;
    var i :| 0 <= i < |hunks| && hunks[i] == h;
    assert runs[i] in runs && h == Hunk(runs[i].start, runs[i].end - runs[i].start + 1);
    assert runs[i].Covers(line);
  }

  lemma RunLineInHunk(runs: seq<Run>, line: nat)
    requires Canonical(runs) && line in Expand(runs)
    ensures line in HunkLines(HunksOf(runs))
  {
    var hunks := HunksOf(runs);
    var r :| r in runs && r.Covers(line) && r.start <= line <= r.end;
    var i :| 0 <= i < |runs| && runs[i] == r;
    assert hunks[i] in hunks && hunks[i] == Hunk(r.start, r.end - r.start + 1);
    assert hunks[i].Covers(line);
  }

  lemma HunksExpand(runs: seq<Run>)
    requires Canonical(runs)
    ensures HunkLines(HunksOf(runs)) == Expand(runs)
  {
    forall line: nat ensures line in HunkLines(HunksOf(runs)) <==> line in Expand(runs) {
      if line in HunkLines(HunksOf(runs)) {
        HunkLineInRun(runs, line);
      } else if line in Expand(runs) {
        RunLineInHunk(runs, line);
      }
    }
  }

  /** Equal runs mean equal sets, and the hunks passed on name exactly the set. */
  lemma HunksNameTheLines(lines: set<nat>, other: set<nat>)
    ensures LineRunsOf(lines) == LineRunsOf(other) ==> lines == other
    ensures Canonical(LineRunsOf(lines)) && HunkLines(HunksOf(LineRunsOf(lines))) == lines
    ensures forall runs | Canonical(runs) && Expand(runs) == lines :: runs == LineRunsOf(lines)
  {
    LineRunsExpand(lines);
    LineRunsExpand(other);
    HunksExpand(LineRunsOf(lines));
    forall runs | Canonical(runs) && Expand(runs) == lines ensures runs == LineRunsOf(lines) {
      CanonicalUnique(runs, LineRunsOf(lines));
    }
  }
}
