/** `_build_source_result` as the builder runs it: ReviewUnit objects created,
    bound, sorted and shrunk in place. */
module SourceBuilder {
  import opened Ordering
  import opened Sorting
  import opened SourceText
  import opened ChangeModel
  import opened FileAnalysis
  import opened LineRuns
  import opened RegionAssignment
  import opened ReviewUnits
  import opened SourceResult

  /** A new object per value. */
  method NewUnits(values: seq<Unit>) returns (units: seq<ReviewUnit>)
    ensures Shows(units, values)
    ensures Distinct(units) && forall u | u in units :: fresh(u)
  {
    units := [];
    for n := 0 to |values|
      invariant Shows(units, values[..n])
      invariant Distinct(units) && forall u | u in units :: fresh(u)
    {
      var unit := new ReviewUnit(values[n]);
      units := units + [unit];
    }
    assert values[..|values|] == values;
  }

  /** Binds one of the declaration builder's units in place. */
  method BindOne(b: Binding, owners: LineOwners, unit: ReviewUnit, ghost step: Unit -> Option<Unit>) returns (ok: bool)
    requires step == ScopeStep(b, owners)
    modifies unit
    ensures ok == step(old(unit.View())).Some?
    ensures ok ==> step(old(unit.View())) == Some(unit.View())
  {
    ok := unit.ScopeToChange(b.naming, b.scope, owners, b.codes);
  }

  /** Binds the declaration builder's units in place, one after the other. */
  method BindUnits(b: Binding, owners: LineOwners, units: seq<ReviewUnit>, ghost built: seq<Unit>, ghost step: Unit -> Option<Unit>)
    returns (ok: bool, ghost now: seq<Unit>)
    requires Distinct(units) && Shows(units, built)
    requires step == ScopeStep(b, owners)
    modifies set u | u in units
    ensures ok <==> forall i | 0 <= i < |built| :: step(built[i]).Some?
    ensures ok ==> Shows(units, now) && forall i | 0 <= i < |built| :: step(built[i]) == Some(now[i])
  {
    now := built;
    for n := 0 to |units|
      invariant Shows(units, now)
      invariant forall i | 0 <= i < n :: step(built[i]) == Some(now[i])
      invariant forall i | n <= i < |units| :: now[i] == built[i]
    {
      var valid := BindOne(b, owners, units[n], step);
      if !valid {
        assert step(built[n]).None?;
        return false, now;
      }
      now := now[n := units[n].View()];
    }
    ok := true;
  }

  lemma TraversePointwise<T, U>(f: T -> Option<U>, xs: seq<T>, us: seq<U>)
    requires |us| == |xs| && forall i | 0 <= i < |xs| :: f(xs[i]) == Some(us[i])
    ensures Traverse(f, xs) == Some(us)
  {
    TraverseSpec(f, xs);
    forall x | x in xs ensures f(x).Some? {
      var i :| 0 <= i < |xs| && xs[i] == x;
    }
    assert Traverse(f, xs).value == us by {
      forall i | 0 <= i < |xs| ensures Traverse(f, xs).value[i] == us[i] {
        assert f(xs[i]) == Some(us[i]);
      }
    }
  }

  lemma TraverseRefused<T, U>(f: T -> Option<U>, xs: seq<T>, i: nat)
    requires i < |xs| && f(xs[i]).None?
    ensures Traverse(f, xs).None?
  {
    TraverseSpec(f, xs);
    assert xs[i] in xs;
  }

  /** The lines each atom of the side really got, filled unit by unit. */
  method CollectAssigned(units: seq<Unit>, owners: LineOwners, ids: set<string>) returns (table: map<string, set<nat>>)
    ensures table.Keys == ids
    ensures forall id | id in ids :: table[id] == AssignedLines(units, owners, id)
  {
    table := map id | id in ids :: {};
    var n := 0;
    while n < |units|
      invariant n <= |units|
      invariant table.Keys == ids
      invariant forall id | id in ids :: table[id] == AssignedLines(units[..n], owners, id)
    {
      table := AddUnitLines(units[..n], units[n], owners, ids, table);
      assert units[..n] + [units[n]] == units[..n + 1];
      n := n + 1;
    }
    assert units[..n] == units;
  }

  function LinesOwned(lines: seq<nat>, owners: LineOwners, id: string): set<nat> {
    set line | line in lines && line in owners && owners[line] == id
  }

  lemma AssignedSnoc(before: seq<Unit>, unit: Unit, owners: LineOwners, id: string)
    ensures AssignedLines(before + [unit], owners, id) == AssignedLines(before, owners, id) + LinesOwned(Effective(unit), owners, id)
  {
    assert forall u :: u in before + [unit] <==> u in before || u == unit;
    forall line
      ensures line in AssignedLines(before + [unit], owners, id)
        <==> line in AssignedLines(before, owners, id) || line in LinesOwned(Effective(unit), owners, id)
    {
      if line in AssignedLines(before, owners, id) {
        var u :| u in before && line in Effective(u);
        assert u in before + [unit];
      }
      if line in LinesOwned(Effective(unit), owners, id) {
        assert unit in before + [unit];
      }
    }
  }

  lemma OwnedSnoc(lines: seq<nat>, line: nat, owners: LineOwners, id: string)
    ensures LinesOwned(lines + [line], owners, id) ==
      LinesOwned(lines, owners, id) + if line in owners && owners[line] == id then {line} else {}
  {
  }

  method AddUnitLines(ghost before: seq<Unit>, unit: Unit, owners: LineOwners, ids: set<string>, known: map<string, set<nat>>)
    returns (table: map<string, set<nat>>)
    requires known.Keys == ids
    requires forall id | id in ids :: known[id] == AssignedLines(before, owners, id)
    ensures table.Keys == ids
    ensures forall id | id in ids :: table[id] == AssignedLines(before + [unit], owners, id)
  {
    table := known;
    var lines := Effective(unit);
    var k := 0;
    while k < |lines|
      invariant k <= |lines|
      invariant table.Keys == ids
      invariant forall id | id in ids :: table[id] == known[id] + LinesOwned(lines[..k], owners, id)
    {
      assert lines[..k + 1] == lines[..k] + [lines[k]];
      forall id { OwnedSnoc(lines[..k], lines[k], owners, id); }
      if lines[k] in owners && owners[lines[k]] in ids {
        table := table[owners[lines[k]] := table[owners[lines[k]]] + {lines[k]}];
      }
      k := k + 1;
    }
    assert lines[..k] == lines;
    forall id { AssignedSnoc(before, unit, owners, id); }
  }

  /** The unassigned atom ids of the side, compared atom by atom. */
  method FindUnassigned(units: seq<Unit>, owners: LineOwners, side: seq<ChangeAtom>, role: Side) returns (ids: seq<string>)
    ensures ids == Unassigned(units, owners, side, role)
  {
    var table := CollectAssigned(units, owners, set a | a in side :: a.id);
    var missing: set<string> := {};
    for n := 0 to |side|
      invariant missing == set a | a in side[..n] && AssignedLines(units, owners, a.id) != TargetLines(a, role) :: a.id
    {
      var a := side[n];
      assert a in side && a.id in table;
      assert forall b :: b in side[..n + 1] <==> b in side[..n] || b == a;
      if table[a.id] != TargetLines(a, role) {
        missing := missing + {a.id};
      }
    }
    assert side[..|side|] == side;
    ids := SortedSet(missing, TextKey);
  }

  /** Withdraws the given atoms from the objects, when there are any. */
  method Withdraw(tools: Tools, job: Job, owners: LineOwners, units: seq<ReviewUnit>, withdrawn: seq<string>)
    returns (r: Option<seq<Unit>>)
    requires Distinct(units)
    modifies set u | u in units
    ensures r == KeptUnits(tools, job, owners, old(Views(units)), withdrawn)
  {
    if withdrawn == [] {
      return Some(Views(units));
    }
    var ok, kept := DropUnassignedAtoms(tools.naming, units, job.role, owners, set id | id in withdrawn);
    r := if ok then Some(Views(kept)) else None;
  }

  /** `_verify_unit_text`: every unit shows its own context of the source. */
  method VerifyTexts(units: seq<ReviewUnit>, content: string) returns (ok: bool)
    ensures ok == TextsOk(content, Views(units))
  {
    ghost var views := Views(units);
    ViewsAt(units);
    for n := 0 to |units|
      invariant TextsOk(content, views[..n])
    {
      var view := units[n].View();
      assert view == views[n] && view in views;
      if !TextOk(content, view) {
        return false;
      }
      TakeOneMore(views, n);
      TextsSnoc(content, views[..n], view);
    }
    assert views[..|units|] == views;
    ok := true;
  }

  lemma TextsSnoc(content: string, units: seq<Unit>, u: Unit)
    requires TextsOk(content, units) && TextOk(content, u)
    ensures TextsOk(content, units + [u])
  {
  }

  /** Sorts the bound objects, verifies their text, withdraws the partly covered atoms
      and builds the result. */
  method FinishSource(tools: Tools, job: Job, owners: LineOwners, objects: seq<ReviewUnit>, unbuilt: set<nat>, side: seq<ChangeAtom>)
    returns (r: Option<FileResult>)
    requires Distinct(objects)
    requires side == SideAtoms(job)
    requires unbuilt == UnbuiltLines(tools, job, RemainingLines(job.analysis.regions, owners.Keys))
    modifies set u | u in objects
    ensures r == FinishVerified(tools, job, owners, SortBy(old(Views(objects)), UnitKey))
  {
    var units := SortUnits(objects);
    SortedObjects(objects, units);
    var textsOk := VerifyTexts(units, job.snapshot.content);
    if !textsOk {
      return None;
    }
    r := WithdrawAndReport(tools, job, owners, units, unbuilt, side);
  }

  /** The side from its sorted units on. */
  function FinishVerified(tools: Tools, job: Job, owners: LineOwners, units: seq<Unit>): Option<FileResult> {
    if TextsOk(job.snapshot.content, units) then Finish(tools, job, owners, units) else None
  }

  method WithdrawAndReport(tools: Tools, job: Job, owners: LineOwners, units: seq<ReviewUnit>, unbuilt: set<nat>, side: seq<ChangeAtom>)
    returns (r: Option<FileResult>)
    requires Distinct(units)
    requires side == SideAtoms(job)
    requires unbuilt == UnbuiltLines(tools, job, RemainingLines(job.analysis.regions, owners.Keys))
    modifies set u | u in units
    ensures r == Finish(tools, job, owners, old(Views(units)))
  {
    var withdrawn := FindUnassigned(Views(units), owners, side, job.role);
    var kept := Withdraw(tools, job, owners, units, withdrawn);
    if kept.None? {
      return None;
    }
    var lines := if job.role == Base then [] else SortedLines(unbuilt + LinesOfAtoms(side, job.role, withdrawn));
    assert lines == UnassignedLines(tools, job, owners, withdrawn);
    r := Checked(tools.naming, ResultOf(job, kept.value, lines, withdrawn));
  }

  lemma SortedObjects(objects: seq<ReviewUnit>, units: seq<ReviewUnit>)
    requires multiset(objects) == multiset(units) && Distinct(objects)
    ensures Distinct(units) && forall u :: u in units <==> u in objects
  {
    DistinctIndicesNoRepeats(objects);
    NoRepeatsBag(objects, units);
    forall i, j | 0 <= i < j < |units| ensures units[i] != units[j] {
      NoRepeatsIndices(units, i, j);
    }
    forall u ensures u in units <==> u in objects {
      assert u in units <==> u in multiset(units);
      assert u in objects <==> u in multiset(objects);
    }
  }

  /** One source side of one file, end to end. */
  method BuildSourceResult(tools: Tools, job: Job) returns (r: Option<FileResult>)
    requires IdsIdentify(job.analysis.regions) && NoRepeats(job.analysis.regions)
    ensures r == Build(tools, job)
  {
    var side := SideAtoms(job);
    if !RangesOk(job.snapshot.content, side, job.role) {
      return None;
    }
    var owners := LineToAtom(side, job.role);
    if owners.None? {
      return None;
    }
    if side == [] {
      return Checked(tools.naming, EmptyResult(job));
    }
    r := BuildUnitsAndFinish(tools, job, owners.value, side);
  }

  lemma BoundPointwise(step: Unit -> Option<Unit>, built: seq<Unit>, views: seq<Unit>, ok: bool)
    requires ok <==> forall i | 0 <= i < |built| :: step(built[i]).Some?
    requires ok ==> |views| == |built|
    requires ok ==> forall i | 0 <= i < |built| :: step(built[i]) == Some(views[i])
    ensures Traverse(step, built) == if ok then Some(views) else None
  {
    if ok {
      TraversePointwise(step, built, views);
    } else {
      var i :| 0 <= i < |built| && step(built[i]).None?;
      TraverseRefused(step, built, i);
    }
  }

  /** The lines no region took go to the declaration builder as hunks. */
  method CreateDeclarationUnits(tools: Tools, job: Job, owners: LineOwners, remaining: set<nat>)
    returns (ok: bool, units: seq<ReviewUnit>, unbuilt: set<nat>)
    requires remaining == RemainingLines(job.analysis.regions, owners.Keys)
    ensures ok == ScopedUnits(tools, job, owners).Some?
    ensures ok ==> Shows(units, ScopedUnits(tools, job, owners).value)
    ensures unbuilt == UnbuiltLines(tools, job, remaining)
    ensures Distinct(units) && forall u | u in units :: fresh(u)
  {
    var runs := CollectRuns(remaining);
    var hunks := HunksOf(runs);
    var built := if remaining == {} then [] else tools.build(job.snapshot, job.analysis, hunks);
    assert built == DeclarationUnits(tools, job, remaining);
    unbuilt := HunkLines(hunks) - NewLinesOf(built);
    units := NewUnits(built);
    ghost var step := ScopeStep(BindingOf(tools, job), owners);
    ghost var now;
    ok, now := BindUnits(BindingOf(tools, job), owners, units, built, step);
    BoundPointwise(step, built, now, ok);
  }

  /** The region units and the bound declaration units, in the order they are made. */
  function MadeUnits(tools: Tools, job: Job, owners: LineOwners): Option<seq<Unit>> {
    if RegionUnits(tools, job, owners).Some? && ScopedUnits(tools, job, owners).Some?
    then Some(RegionUnits(tools, job, owners).value + ScopedUnits(tools, job, owners).value) else None
  }

  lemma BoundFromMade(tools: Tools, job: Job, owners: LineOwners)
    ensures BoundUnits(tools, job, owners) ==
      match MadeUnits(tools, job, owners)
      case None => None
      case Some(units) => Verified(job.snapshot.content, SortBy(units, UnitKey))
  {
  }

  /** Those units as fresh objects. */
  method CreateUnits(tools: Tools, job: Job, owners: LineOwners)
    returns (ok: bool, objects: seq<ReviewUnit>, unbuilt: set<nat>)
    requires IdsIdentify(job.analysis.regions) && NoRepeats(job.analysis.regions)
    ensures ok == MadeUnits(tools, job, owners).Some?
    ensures ok ==> Views(objects) == MadeUnits(tools, job, owners).value
    ensures ok ==> unbuilt == UnbuiltLines(tools, job, RemainingLines(job.analysis.regions, owners.Keys))
    ensures Distinct(objects) && forall u | u in objects :: fresh(u)
  {
    var assignments, remaining := AssignRegions(job.analysis.regions, owners.Keys);
    var values := Traverse(RegionStep(BindingOf(tools, job), owners), assignments);
    if values.None? {
      return false, [], {};
    }
    assert values == RegionUnits(tools, job, owners);
    ok, objects, unbuilt := CreateObjects(tools, job, owners, values.value, remaining);
  }

  lemma DistinctJoin(us: seq<ReviewUnit>, vs: seq<ReviewUnit>)
    requires Distinct(us) && Distinct(vs)
    requires forall u, v | u in us && v in vs :: u != v
    ensures Distinct(us + vs)
  {
    forall i, j | 0 <= i < j < |us + vs| ensures (us + vs)[i] != (us + vs)[j] {
      if i < |us| <= j {
        assert us[i] in us && vs[j - |us|] in vs;
      }
    }
  }

  method CreateObjects(tools: Tools, job: Job, owners: LineOwners, values: seq<Unit>, remaining: set<nat>)
    returns (ok: bool, objects: seq<ReviewUnit>, unbuilt: set<nat>)
    requires remaining == RemainingLines(job.analysis.regions, owners.Keys)
    ensures ok == ScopedUnits(tools, job, owners).Some?
    ensures ok ==> Views(objects) == values + ScopedUnits(tools, job, owners).value
    ensures unbuilt == UnbuiltLines(tools, job, remaining)
    ensures Distinct(objects) && forall u | u in objects :: fresh(u)
  {
    var regionUnits := NewUnits(values);
    var declared;
    label Before:
    ok, declared, unbuilt := CreateDeclarationUnits(tools, job, owners, remaining);
    assert forall v | v in declared :: fresh@Before(v);
    DistinctJoin(regionUnits, declared);
    objects := regionUnits + declared;
    if ok {
      ghost var bound := ScopedUnits(tools, job, owners).value;
      ShownViews(regionUnits, values);
      ShownViews(declared, bound);
      ViewsConcat(regionUnits, declared);
    }
  }

  method BuildUnitsAndFinish(tools: Tools, job: Job, owners: LineOwners, side: seq<ChangeAtom>) returns (r: Option<FileResult>)
    requires IdsIdentify(job.analysis.regions) && NoRepeats(job.analysis.regions)
    requires side == SideAtoms(job)
    ensures r == match BoundUnits(tools, job, owners) case None => None case Some(units) => Finish(tools, job, owners, units)
  {
    BoundFromMade(tools, job, owners);
    var ok, objects, unbuilt := CreateUnits(tools, job, owners);
    if !ok {
      return None;
    }
    r := FinishSource(tools, job, owners, objects, unbuilt, side);
  }
}
