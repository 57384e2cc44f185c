# Change attribution, verified

The change-review pipeline turns a structured diff into review units that account for
every changed line. This project models it and proves what it promises.

- A **ChangeSet** is the canonical, content-addressed form of a diff: source references,
  changed files, change atoms (an addition, deletion or replacement with its line
  numbers) and diagnostics. `Normalizer` builds it file by file; `ChangeSetValidator` is
  the separately written validator, run as the code runs it.
- A **review unit** is a piece of one source (a region or a declaration) with the changed
  lines it shows and the atoms it names. `SourceBuilder` makes the units of one side
  (base or head) of one file as objects, binds them to the change, sorts them and shrinks
  them in place when an atom is only partly covered; `ChangeReview` does this for all files.
- The **lexical scanners** (`Delimiters`, `ShadowIndex`, `TopLevelSplit`) match brackets in
  any text, choose the scope of a local binding, and split parameter lists.
- The **parser sidecar** (`DeclarationWalks`, `OwnerChoice`, `CallText`) walks the syntax
  tree twice, chooses owners of ranges, and canonicalizes call texts and literals.

Code that works by updating objects, dictionaries and lists is modelled as methods and
classes, each proved equal to a specification function; the theorems are about those
functions. What the main operations accept and produce is also said a second time, on the
fields of inputs and outputs alone (`DiffAcceptance`, `DiffOutput`, `SetAcceptance`,
`AnalysisAcceptance`, `ReviewAcceptance`, `SideUnits`, `UnitContents`, `DeclaredPlaces`),
and both descriptions are proved equivalent. A raised error is `None` (or `false`): which message is raised is not modelled.

What is a parameter: the hash behind ids and content hashes (`Env.hash`, assumed injective
and printable where a theorem says `SoundHash`), the path normal form (`Env.pathOk`), the
unit-id function (`Naming`; where a theorem says `SoundNaming` it gives one id exactly to
equal spelled-out parts of one role and source, which `UnitIdsAreSound` proves of the ids as
they are written), the declaration builder (`Tools.build`), regular-expression
matches, the syntax tree, `localeCompare` (assumed to be a total order on ids) and the local ids
of declarations. Text is a sequence of Unicode scalar values of UTF-16 width 1 or 2.

## Findings

- *Unassigned does not mean unnamed.* A replacement withdrawn on one side only is in the
  build's unassigned list and still named by units of the other side
  (`UnassignedYetNamed`: replacing the only character of a file, from diff to build).
  A side withdraws an atom exactly when one of its lines there lies in no region and is
  not shown by what the declaration builder returned (`WithdrawnIffLosesLine`), so
  unassigned means unnamed exactly when an atom with lines on both sides loses a line on
  both or on neither (`UnassignedMeansUnnamedIff`).
- *Accepted inputs can still be refused.* Three whole diffs pass every check of the inputs
  and do not build: two regions that differ only in their owner get one unit id
  (`TwinRegionsRefused`), a region without characters cannot be given an id
  (`EmptyRegionRefused`), and a warning about error nodes beside a node count of zero asks
  region units for a code they do not get (`QualityGapRefused`). `SideBuildsIff` gives the
  exact condition for a side, `RespectedBuildSucceedsIff` the one for a build: twins, for
  instance, do no harm when their atom is withdrawn anyway.
- *The final envelope never refuses,* although it asks for unit ids that are unique over the
  whole build (`BuildSucceedsIff`).
- *The newline check rejects some full-line ranges.* Lines are split at every line boundary
  Python knows, the range check counts LF only. `FullLineRangeAcceptedIff` gives the exact
  condition, `AllFullLineRangesAcceptedIff` the one for a whole source;
  `CarriageReturnRejected` is a concrete failing text.
- *The base side reports no unassigned lines,* whatever was withdrawn there (`ReportedLines`).
- *The cycle error of the analysis validator is unreachable* (`FileAnalysis.Validate`).

## Model

| member | source | states |
|---|---|---|
| NormalizerProofs.NormalizeSucceedsIff | src/arkts_code_reviewer/code_analysis/change_set.py:814-921 | A ChangeSet comes out exactly when the header is text, every file passes its local checks and no base or head path is used twice; the global validation that follows can never refuse, and the result satisfies all of it |
| NormalizerProofs.AssembledIsValid | src/arkts_code_reviewer/code_analysis/change_set.py:641-808 | Sorting and joining locally accepted files satisfies every clause of the validator: source, file and atom order, unique ids and paths, no dangling or shared atom, one atom per line and side, one diagnostic per binary file, the content id |
| NormalizerProofs.InputOrderIrrelevant | src/arkts_code_reviewer/code_analysis/change_set.py:837-911 | Permuting the input files, and the atoms inside any of them, changes neither whether normalization succeeds nor the ChangeSet |
| NormalForm.IdIdentifiesDiff | src/arkts_code_reviewer/code_analysis/change_set.py:615-640 | Two accepted diffs get one ChangeSet id exactly when they have the same header and the same files with the same atoms, in any order |
| NormalForm.InputRecovered | src/arkts_code_reviewer/code_analysis/change_set.py:981-1020 | A file record and its atoms determine the file input up to the order of its atoms |
| NormalForm.AtomsRecovered | src/arkts_code_reviewer/code_analysis/change_set.py:981-1020 | The atoms of a normalized file are exactly the atoms that went in |
| DiffAcceptance.DiffAcceptedIff | src/arkts_code_reviewer/code_analysis/change_set.py:814-921 | Said on the input's own fields: genuine sources normalize exactly when the header is text, every file fits and no path is used twice |
| DiffAcceptance.FileAcceptedIff | src/arkts_code_reviewer/code_analysis/change_set.py:924-1056 | A file is accepted exactly when its paths, snapshots and atoms fit its status, no line is changed by two atoms, and an added or deleted file is additions or deletions of all its lines |
| DiffAcceptance.AtomAcceptedIff | src/arkts_code_reviewer/code_analysis/change_set.py:287-390 | An atom is accepted exactly when it has the sides of its kind, each with increasing lines inside a span the source has, and increasing diff positions, each on a changed line of its own side |
| DiffAcceptance.PositionsOnTheirSides | src/arkts_code_reviewer/code_analysis/change_set.py:365-372 | In every ChangeSet that comes out a base position names a deleted line and a head position an added one |
| DiffAcceptance.WholeFileAdded | src/arkts_code_reviewer/code_analysis/change_set.py:814-921 | Adding a file as one atom of all its lines, with one head position per line, normalizes |
| DiffOutput.NormalizedSays | src/arkts_code_reviewer/code_analysis/change_set.py:837-921 | What comes out says what went in: one record per file, the atoms with their lines, positions, sources and exact UTF-16 ranges, exactly the given sources, one diagnostic per binary file, each id the hash of its fields |
| DiffOutput.NormalizedInOrder | src/arkts_code_reviewer/code_analysis/change_set.py:1059-1095 | Sources come by id, files by base path, head path, status and id, atoms by their sources' paths, line spans, kind and id, diagnostics by file |
| NormalizerProofs.NormalizeFileSpec | src/arkts_code_reviewer/code_analysis/change_set.py:838-890 | One file is accepted exactly when its shape, each atom and its line semantics are; the built file never fails its own validation |
| NormalizerProofs.NormalizeFileBag | src/arkts_code_reviewer/code_analysis/change_set.py:1059-1095 | The order of a file's atoms leaves no trace in the normalized file |
| NormalizerProofs.AssembleBag | src/arkts_code_reviewer/code_analysis/change_set.py:895-921 | The order of the files leaves no trace in the assembled set |
| NormalizerProofs.AcceptIff | src/arkts_code_reviewer/code_analysis/change_set.py:895-921 | Given locally accepted files, path uniqueness alone decides acceptance |
| NormalizerProofs.OwnedLinesNoRepeats | src/arkts_code_reviewer/code_analysis/change_set.py:1023-1056 | When each line has one owner no two atoms of a file share an id |
| NormalizerProofs.AtomsOfTwoFiles | src/arkts_code_reviewer/code_analysis/change_set.py:759-760 | Two files with different paths never share an atom id |
| NormalizerProofs.FileAtomsFound | src/arkts_code_reviewer/code_analysis/change_set.py:721-737 | Looking up a file's atom ids in the whole set gives back exactly the atoms the file was built with |
| NormalizerProofs.TableOfListing | src/arkts_code_reviewer/code_analysis/change_set.py:898 | The sorted source list, read back as a dictionary, is the dictionary it was listed from |
| NormalizerProofs.DiagnosticsListing | src/arkts_code_reviewer/code_analysis/change_set.py:899-911 | The diagnostics are one per binary file, strictly ordered, without repeats |
| Normalizer.NormalizeChangeSet | src/arkts_code_reviewer/code_analysis/change_set.py:814-921 | The two growing lists, the source dictionary and the sorts compute the normalization function, refusals included |
| Normalizer.GatherFiles | src/arkts_code_reviewer/code_analysis/change_set.py:834-893 | After the loop over the files the lists and the dictionary hold exactly what the accepted files contribute, or some file was refused |
| Normalizer.SortAndBuild | src/arkts_code_reviewer/code_analysis/change_set.py:895-921 | The tail sorts, checks paths, builds and validates |
| Normalizer.AddSources | src/arkts_code_reviewer/code_analysis/change_set.py:891-893 | The source dictionary after a file is the dictionary of all sources so far |
| ChangeSetValidator.Validate | src/arkts_code_reviewer/code_analysis/change_set.py:641-808 | The loops, dictionaries and early exits accept exactly the valid ChangeSets |
| ChangeSetValidator.CheckFiles | src/arkts_code_reviewer/code_analysis/change_set.py:702-758 | The file loop accepts exactly when every file entry is valid and then has collected all atom ids used, in order |
| ChangeSetValidator.FindFileAtoms | src/arkts_code_reviewer/code_analysis/change_set.py:721-737 | The inner loop finds the file's atoms, or refuses because one is dangling or belongs elsewhere |
| ChangeSetValidator.SortedTextsEqualIff | src/arkts_code_reviewer/code_analysis/change_set.py:759-760 | Comparing the sorted id lists compares their bags |
| ChangeSetValidator.CheckDiagnostics | src/arkts_code_reviewer/code_analysis/change_set.py:773-792 | One diagnostic for each binary file and none for any other |
| ChangeSetValidator.CollectReferences | src/arkts_code_reviewer/code_analysis/change_set.py:761-771 | The set collected over the files is exactly the source ids they name |
| SetAcceptance.ValidIffFits | src/arkts_code_reviewer/code_analysis/change_set.py:641-808 | A set of valid atoms is valid exactly when its records fit together, said without tables or sort keys: each source used and at an endpoint, each file with its own sources and atoms in order, each atom in one file, one diagnostic per binary file |
| SetAcceptance.ValidateChangeSet | src/arkts_code_reviewer/code_analysis/change_set.py:641-808 | The validator accepts exactly those sets |
| SourceText.RangeIsExactSlice | src/arkts_code_reviewer/code_analysis/change_set.py:71-88 | A line range exists exactly when the span lies in the source, and its UTF-16 offsets cut out exactly the text of those lines |
| SourceText.Utf16LengthCounts | src/arkts_code_reviewer/code_analysis/change_set.py:71-88 | Offsets count UTF-16 code units: one for a character, two for a surrogate pair that decodes to it |
| SourceText.RangesCompose | src/arkts_code_reviewer/code_analysis/change_set.py:71-88 | Adjacent line spans meet at one offset and join to the range of the joined span |
| SourceText.FullSpanCoversSource | src/arkts_code_reviewer/code_analysis/change_set.py:71-88 | The span of all lines runs from 0 to the UTF-16 length of the source |
| SourceText.JoinLines | src/arkts_code_reviewer/code_analysis/change_review.py:772-794 | Lines with their ends partition the text |
| SourceText.Utf16Boundaries | src/arkts_code_reviewer/code_analysis/change_review.py:796-802 | The loop's table maps exactly the UTF-16 offsets of the text's prefixes to their lengths |
| SourceText.RangeOnBoundaries | src/arkts_code_reviewer/code_analysis/change_review.py:251-297 | Both ends of every full-line range are computed UTF-16 boundaries, at the indices where its lines start and end |
| SourceText.FullLineRangeAcceptedIff | src/arkts_code_reviewer/code_analysis/change_review.py:251-297 | A full-line range passes the newline-counting check exactly when all lines before it end in a newline and at most one line up to its end does not |
| SourceText.AllFullLineRangesAcceptedIff | src/arkts_code_reviewer/code_analysis/change_review.py:251-297 | All full-line ranges of a source pass exactly when every line but the last ends in a newline |
| SourceText.NewlineTextAccepted | src/arkts_code_reviewer/code_analysis/change_review.py:772-802 | A text whose only line ends are LF or CR LF has every full-line range accepted |
| SourceText.CarriageReturnRejected | src/arkts_code_reviewer/code_analysis/change_review.py:251-297 | A lone carriage return already makes a full-line range fail the check |
| LineRuns.CollectRuns | src/arkts_code_reviewer/code_analysis/change_review.py:723-736 | The loop computes the runs of the sorted lines |
| LineRuns.HunksNameTheLines | src/arkts_code_reviewer/code_analysis/change_review.py:717-736 | Equal runs mean equal line sets, the runs are the only canonical encoding of the set, and the hunks name exactly its lines |
| LineRuns.CanonicalUnique | src/arkts_code_reviewer/code_analysis/change_review.py:723-736 | Increasing runs with a missing line between neighbours encode a set in only one way |
| LineRuns.LineRunsExpand | src/arkts_code_reviewer/code_analysis/change_review.py:723-736 | The runs are increasing and separated, and expand to exactly the set |
| LineRuns.HunksExpand | src/arkts_code_reviewer/code_analysis/change_review.py:717-721 | Hunks made from runs cover exactly the lines of the runs |
| FileAnalysis.Validate | src/arkts_code_reviewer/code_analysis/file_analysis_models.py:684-862 | On structures that passed their own checks: accepts exactly the valid analyses (diagnostics, layer, unique and reproducible ids, stable order, parents, owners) and never answers with a parent cycle |
| AnalysisAcceptance.ValidIffFits | src/arkts_code_reviewer/code_analysis/file_analysis_models.py:684-862 | An analysis is valid exactly when each structure, its owner, the order and the quality fit, said without tables or sort keys |
| AnalysisAcceptance.ValidateAnalysis | src/arkts_code_reviewer/code_analysis/file_analysis_models.py:684-862 | The validator accepts exactly those analyses |
| FileAnalysis.WalkParents | src/arkts_code_reviewer/code_analysis/file_analysis_models.py:807-814 | The parent walk ends, finds no cycle, and has then seen the declaration and all its ancestors |
| FileAnalysis.AncestorsNest | src/arkts_code_reviewer/code_analysis/file_analysis_models.py:792-805 | When each parent strictly contains its child, every ancestor strictly contains the declaration, outer ones the inner ones, and none repeats |
| FileAnalysis.AncestorsEnd | src/arkts_code_reviewer/code_analysis/file_analysis_models.py:939-943 | The chain of ancestors stops: past some length it no longer grows |
| FileAnalysis.CheckDeclarations | src/arkts_code_reviewer/code_analysis/file_analysis_models.py:782-805 | The loop accepts exactly when every id is reproducible and every parent exists and strictly contains its child |
| FileAnalysis.CheckOwners | src/arkts_code_reviewer/code_analysis/file_analysis_models.py:816-862 | The loops accept exactly when region and fact ids are reproducible and every owner exists and contains what it owns |
| RegionAssignment.AssignRegions | src/arkts_code_reviewer/code_analysis/change_review.py:488-524 | The dictionary filled line by line yields every region with its lines, in region order, and the lines without a region |
| RegionAssignment.NoLineLost | src/arkts_code_reviewer/code_analysis/change_review.py:488-524 | A changed line is left over exactly when no region contains it, and otherwise is assigned to at least one |
| RegionAssignment.ChosenRegions | src/arkts_code_reviewer/code_analysis/change_review.py:827-837 | A line's regions are exactly those around it with no other region around the line strictly inside |
| RegionAssignment.InnermostInside | src/arkts_code_reviewer/code_analysis/change_review.py:488-524 | Inside every region around a line lies one that is chosen |
| RegionAssignment.InnermostCandidates | src/arkts_code_reviewer/code_analysis/change_review.py:500-515 | The search over the candidates finds exactly the innermost ones |
| RegionAssignment.ListAssignments | src/arkts_code_reviewer/code_analysis/change_review.py:519-524 | Listing and sorting the dictionary gives each region that got a line exactly once |
| SourceResult.LineToAtom | src/arkts_code_reviewer/code_analysis/change_review.py:702-715 | The dictionary from line to atom is built, or a line claimed twice is refused |
| SourceResult.EnterSpec | src/arkts_code_reviewer/code_analysis/change_review.py:702-715 | The dictionary holds exactly the claims, so a line has one owner |
| ReviewSuccess.EnterSucceedsIff | src/arkts_code_reviewer/code_analysis/change_review.py:702-715 | It is refused exactly when some line is claimed twice |
| ReviewUnits.ReviewUnit.ScopeToChange | src/arkts_code_reviewer/code_analysis/change_review.py:583-607 | Binding rewrites scope, lines, atoms, quality, the degraded flag and the id to those of the bound unit, or reports that its lines or its validation refuse |
| ReviewUnits.ReviewUnit.KeepLines | src/arkts_code_reviewer/code_analysis/change_review.py:649-664 | Shrinking in place changes the line and atom fields only, and says whether the unit is still valid |
| ReviewUnits.DropUnassignedAtoms | src/arkts_code_reviewer/code_analysis/change_review.py:632-667 | The objects are shrunk in place and the kept ones returned in order |
| ReviewUnits.SortUnits | src/arkts_code_reviewer/code_analysis/change_review.py:850-857 | Sorting the objects sorts their views stably and loses none |
| ReviewUnits.ScopedUnitSucceedsIff | src/arkts_code_reviewer/code_analysis/change_review.py:583-607 | A legal unit can be bound exactly when it has changed lines, all of them owned, belongs to the source, and has an owner unless it is a fallback; it then shows the lines it had |
| SideUnits.DeclaredAcceptedIff | src/arkts_code_reviewer/code_analysis/change_review.py:583-607 | Said on its fields: a side takes a unit of the declaration builder exactly when its name, spans, source, owner and quality fit and its line lists are projected from increasing owned lines |
| ReviewUnits.KeepStepSucceeds | src/arkts_code_reviewer/code_analysis/change_review.py:632-667 | Withdrawing from a unit without lines outside its context never fails its validation |
| ReviewUnits.AtomsOfLines | src/arkts_code_reviewer/code_analysis/change_review.py:702-715 | The atom list of some lines is the strictly ordered set of their owners |
| ReviewUnits.KeptLines | src/arkts_code_reviewer/code_analysis/change_review.py:642-646 | Exactly the lines whose atom stays are kept, in order |
| SourceBuilder.BuildSourceResult | src/arkts_code_reviewer/code_analysis/change_review.py:299-423 | Creating, binding, sorting, text-checking and shrinking the objects of one side computes the side's result, refusals included |
| SourceBuilder.FindUnassigned | src/arkts_code_reviewer/code_analysis/change_review.py:376-394 | The per-atom line sets, filled unit by unit, tell exactly which atoms are not fully shown |
| SourceBuilder.BindUnits | src/arkts_code_reviewer/code_analysis/change_review.py:364-372 | Every declaration unit is bound in place, or the first that cannot be stops the side |
| SourceBuilder.CreateDeclarationUnits | src/arkts_code_reviewer/code_analysis/change_review.py:346-372 | Leftover lines go to the declaration builder as hunks, and the lines it did not show are reported |
| SourceBuilder.CollectAssigned | src/arkts_code_reviewer/code_analysis/change_review.py:379-389 | The table holds, per atom, exactly the lines of it that units show |
| SourceProofs.BuildAllOrNothing | src/arkts_code_reviewer/code_analysis/change_review.py:376-411 | After withdrawal a side atom is named by some unit exactly when it is not in the unassigned list; named atoms are fully shown by units that name them, and no unit is empty |
| SourceProofs.UnassignedIsStable | src/arkts_code_reviewer/code_analysis/change_review.py:376-411 | Recomputing the unassigned atoms from the kept units gives the same list |
| SourceProofs.ReportedLines | src/arkts_code_reviewer/code_analysis/change_review.py:346-423 | The head side reports exactly the changed lines no unit shows; the base side reports none |
| SourceProofs.DropAtomsSpec | src/arkts_code_reviewer/code_analysis/change_review.py:632-667 | Withdrawal keeps exactly the shown lines of the atoms that stay |
| SourceProofs.OwnersSpec | src/arkts_code_reviewer/code_analysis/change_review.py:702-715 | Every line of a side atom is owned by it and nothing else is owned |
| SourceProofs.UnbuiltLinesUnshown | src/arkts_code_reviewer/code_analysis/review_units.py:135-157 | A line the declaration builder did not show is shown by no unit of the side |
| SourceProofs.ShownIffCoverable | src/arkts_code_reviewer/code_analysis/change_review.py:488-581 | Before any withdrawal a changed line is shown exactly when a region contains it or the declaration builder, given the lines no region contains, shows it |
| SourceProofs.WithdrawnIffLosesLine | src/arkts_code_reviewer/code_analysis/change_review.py:376-394 | A built side withdraws an atom exactly when one of its lines there is in no region and is not shown by what the declaration builder returned |
| SourceSuccess.BoundUnitsExistIff | src/arkts_code_reviewer/code_analysis/change_review.py:526-607 | With a line-respecting builder every unit of the side can be made and bound exactly when every region chosen for a line has a non-empty offset range |
| SideOutcome.FinalUnits | src/arkts_code_reviewer/code_analysis/change_review.py:632-667 | The final units are those that keep a line, with the ids, identities and quality they were bound with |
| SideOutcome.RegionUnitsApartIff | src/arkts_code_reviewer/code_analysis/change_review.py:526-581 | The region units that keep a line have distinct ids exactly when of regions with one kind, symbol and range none keeps a line |
| SideBuilds.IdsDistinctIff | src/arkts_code_reviewer/code_analysis/models.py:604-606 | The final unit ids of a side are distinct exactly when no two regions of one kind, symbol and range, and no two declared units of one name, keep a line |
| SideBuilds.QualityIff | src/arkts_code_reviewer/code_analysis/models.py:613-637 | Every final unit carries the codes the parser quality asks for exactly when, wherever a region keeps a line, node counts and diagnostics give what the warnings ask for |
| FileAnalysis.RequiredCodesAre | src/arkts_code_reviewer/code_analysis/models.py:613-637 | The codes demanded are exactly those the layer and the words of the warnings, up to a colon, ask for |
| SideBuilds.FinalReportsOk | src/arkts_code_reviewer/code_analysis/models.py:643-687 | The reported lines and atoms, the diagnostic included, always pass the result's checks |
| SideBuilds.FinishSucceedsIff | src/arkts_code_reviewer/code_analysis/models.py:561-687 | Once all units are bound, the result passes its whole validation exactly when ids and quality of the units that keep a line agree |
| SideBuilds.SideBuildsIff | src/arkts_code_reviewer/code_analysis/change_review.py:299-423 | A side with a line-respecting builder builds exactly when it has no atoms or: every chosen region has a non-empty range, no twin regions and no equally named declared units keep a line, and where a region keeps a line the warnings ask for no code beyond node counts and diagnostics |
| SideBuilds.SideBuildsByRegions | src/arkts_code_reviewer/code_analysis/review_units.py:149-157 | When the units the builder returns have distinct ids, as its own result check demands, the regions alone decide whether the side builds |
| SideUnits.SideUnitsAre | src/arkts_code_reviewer/code_analysis/change_review.py:526-667 | A built side has a unit for every region that keeps a line (its kind, symbol, spans, owner, quality, and the lines it is innermost for), the rest of every declared unit that keeps one, and no others |
| UnitContents.UnitsReadWell | src/arkts_code_reviewer/code_analysis/change_review.py:526-581 | Every unit of a finished build: its text, split at newlines, is its context line by line without line ends, and its relative line numbers count from 1 and pick the changed source lines out of that text |
| OneLineSide.LosesIff | src/arkts_code_reviewer/code_analysis/change_review.py:376-394 | On a one-line side without declared units the atom loses its line exactly when no region contains it |
| OneLineDiff.EditAccepted | src/arkts_code_reviewer/code_analysis/change_review.py:127-249 | A normalized one-character replacement with any two valid parses passes every check before the first unit is made |
| OneLineOutcomes.UnassignedYetNamed | src/arkts_code_reviewer/code_analysis/change_review.py:105-112 | A whole diff, normalized and built, whose atom is in the unassigned list and named by a unit |
| OneLineOutcomes.TwinRegionsRefused | src/arkts_code_reviewer/code_analysis/models.py:604-606 | A whole diff, normalized and accepted, that is refused because two field regions differ in their owners only |
| OneLineOutcomes.EmptyRegionRefused | src/arkts_code_reviewer/code_analysis/review_unit_contract.py:157-167 | A whole diff, normalized and accepted, that is refused because a region around the changed line has no characters |
| OneLineOutcomes.QualityGapRefused | src/arkts_code_reviewer/code_analysis/models.py:613-637 | A whole diff, normalized and accepted, that is refused because a warning about error nodes comes with a count of zero |
| ChangeReview.BuildReview | src/arkts_code_reviewer/code_analysis/change_review.py:60-125 | The file and role loops, the sort and the collected ids compute the build, refusals included |
| ChangeReview.BuildFiles | src/arkts_code_reviewer/code_analysis/change_review.py:83-103 | The loop over the files builds every side of every source-backed file, or stops at the first refusal |
| ReviewAcceptance.InputsOkIff | src/arkts_code_reviewer/code_analysis/change_review.py:127-297 | The build accepts exactly the inputs that fit: a valid set, for every source and no other its text and a valid parse with ranges in the text, and for each file the atoms its status asks for |
| ReviewAcceptance.BuiltSays | src/arkts_code_reviewer/code_analysis/change_review.py:60-125 | The envelope has one result for each side of each source-backed file, with its path, source and parser quality, units in order with distinct ids, and exactly the atoms left out |
| ReviewAcceptance.BuiltUnits | src/arkts_code_reviewer/code_analysis/change_review.py:299-423 | The units of each side are those of `SideUnitsAre`, in the result the envelope lists for it |
| ReviewProofs.UnassignedIffLineLost | src/arkts_code_reviewer/code_analysis/change_review.py:60-125 | An atom is absent from the build's unassigned list exactly when every deleted line is in a base unit and every added line in a head unit of its file |
| ReviewProofs.LostLine | src/arkts_code_reviewer/code_analysis/change_review.py:105-112 | The same for any settled build: one all-or-nothing result per file side is all the equivalence needs |
| ReviewProofs.SideVerdict | src/arkts_code_reviewer/code_analysis/change_review.py:390-394 | On one side, an atom is withdrawn exactly when one of its lines there is shown by no unit |
| ReviewProofs.ShowingUnitNamesAtom | src/arkts_code_reviewer/code_analysis/change_review.py:299-423 | Each unit of the file's side that holds one of an atom's lines names that atom |
| ReviewProofs.ReportedIffLosesLine | src/arkts_code_reviewer/code_analysis/change_review.py:105-112 | An atom is in the build's unassigned list exactly when on some side one of its lines is in no region and is not shown by what the declaration builder returned |
| ReviewProofs.NamedNowhereIff | src/arkts_code_reviewer/code_analysis/change_review.py:105-112 | No unit of the build names an atom exactly when it loses such a line on every side it has lines on |
| ReviewProofs.UnassignedMeansUnnamedIff | src/arkts_code_reviewer/code_analysis/change_review.py:105-112 | Being listed as unassigned means being named by no unit exactly when an atom with lines on both sides loses a line on both or on neither |
| ReviewProofs.EveryAtomHasAFile | src/arkts_code_reviewer/code_analysis/change_set.py:759-760 | Every atom of a valid set belongs to a source-backed file, so none escapes the theorems |
| ReviewProofs.BuildSettles | src/arkts_code_reviewer/code_analysis/change_review.py:804-813 | A finished build has exactly one all-or-nothing result for each side of each source-backed file, and no others |
| ReviewSuccess.UnitIdsUnique | src/arkts_code_reviewer/code_analysis/models.py:832-836 | Unit ids never repeat across the results of a build: each result's are unique, they spell out role and source, and no two results share both |
| UnitIds.UnitIdsAreSound | src/arkts_code_reviewer/code_analysis/review_unit_contract.py:105-220 | Ids as the code writes them, with percent-quoted parts between delimiters, are equal exactly for equal spelled-out parts of one role and source |
| UnitIds.QuoteInjective | src/arkts_code_reviewer/code_analysis/review_unit_contract.py:105-111 | Quoting a part loses nothing: no two texts quote alike, in any script |
| ReviewSuccess.BuildSucceedsIff | src/arkts_code_reviewer/code_analysis/models.py:704-836 | The build succeeds exactly when the inputs are accepted and every side builds; the final envelope, unit ids included, is never refused |
| ReviewSuccess.OwnersExist | src/arkts_code_reviewer/code_analysis/change_review.py:702-715 | No side of a valid ChangeSet has a line claimed twice |
| ReviewSuccess.RespectedBuildSucceedsIff | src/arkts_code_reviewer/code_analysis/change_review.py:60-125 | With a line-respecting builder, accepted inputs build exactly when every side with atoms meets the condition of `SideBuildsIff` |
| NormalizedReview.NormalizedIsAccepted | src/arkts_code_reviewer/code_analysis/change_review.py:183-249 | The review builder accepts what the normalizer built from the same snapshots: the set, each file's status and atoms, and every atom range it recomputes |
| NormalizedReview.SnapshotsAgree | src/arkts_code_reviewer/code_analysis/change_set.py:92-104 | Two snapshots of one source id are the same source with the same text |
| NormalizedReview.RangesAccepted | src/arkts_code_reviewer/code_analysis/change_review.py:752-794 | Every atom range of a normalized set equals the range recomputed from its lines |
| NormalizedReview.NormalizedBuildsIff | src/arkts_code_reviewer/code_analysis/change_review.py:60-125 | End to end, a normalized set with matching sources and a line-respecting builder builds exactly when every side with atoms meets that condition |
| Delimiters.DelimiterPairs | src/arkts_code_reviewer/code_analysis/api_ownership.py:181-194 | A pair is recorded for an opener exactly when its nesting returns to zero, and ends where that first happens, in any text |
| Delimiters.PairsNestOrMiss | src/arkts_code_reviewer/code_analysis/api_ownership.py:181-194 | Two pairs are disjoint or strictly nested, and no closer is used twice |
| Delimiters.MatchedOrOpen | src/arkts_code_reviewer/code_analysis/api_ownership.py:181-194 | Every opener is matched or still open at the end of the text, never both |
| ShadowIndex.NearestIsInnermost | src/arkts_code_reviewer/code_analysis/api_ownership.py:110-123 | The narrowest of nested scopes around a point lies inside every other one and is the same for every iteration order |
| ShadowIndex.LetScopeIsInnermost | src/arkts_code_reviewer/code_analysis/api_ownership.py:110-132 | A let or const outside loop headers is bound in the innermost block around it |
| ShadowIndex.VarScopeIsInnermost | src/arkts_code_reviewer/code_analysis/api_ownership.py:114-123 | A var is bound in the innermost function body around it |
| ShadowIndex.ShadowedIff | src/arkts_code_reviewer/code_analysis/api_ownership.py:38-41 | A name is shadowed at an offset exactly when it is a blocked import or some declaration binds it in a scope around the offset |
| ShadowIndex.ShadowedIffHidden | src/arkts_code_reviewer/code_analysis/api_ownership.py:38-147 | Shadowing, from the text and what was matched in it: an import without SDK binding; a callable that is neither control flow nor a property access, up to the match of its brace; an arrow, over its body; a local, over the scope of its kind |
| ShadowIndex.ControlFlowHidesNothing | src/arkts_code_reviewer/code_analysis/api_ownership.py:85-93 | A name that only control-flow heads and property accesses list is shadowed nowhere |
| ShadowIndex.LocalShadowsItsScope | src/arkts_code_reviewer/code_analysis/api_ownership.py:110-133 | A local binding shadows its name at every offset of its scope |
| ShadowIndex.BlockScopesNest | src/arkts_code_reviewer/code_analysis/api_ownership.py:110-112 | The root scope and all brace pairs miss each other or lie one in the other |
| ShadowIndex.Nearest | src/arkts_code_reviewer/code_analysis/api_ownership.py:112-113 | The choice over any order of the scopes finds a narrowest one around the point, or the root |
| ShadowIndex.BuildShadowIndex | src/arkts_code_reviewer/code_analysis/api_ownership.py:67-147 | For every name and offset the index answers exactly what `ShadowedIffHidden` says, and it lists the scopes in order |
| ShadowIndex.BindLocals | src/arkts_code_reviewer/code_analysis/api_ownership.py:111-133 | The local declarations add exactly their own scopes |
| TopLevelSplit.SplitTopLevel | src/arkts_code_reviewer/code_analysis/api_ownership.py:235-262 | The parts are the text cut at exactly the commas before which no suffix has more openers than closers of any kind |
| TopLevelSplit.DepthsAreExcesses | src/arkts_code_reviewer/code_analysis/api_ownership.py:235-254 | Each clamped counter is the largest excess of its openers over its closers in any suffix |
| TopLevelSplit.BoundariesAreCuts | src/arkts_code_reviewer/code_analysis/api_ownership.py:255-260 | The parts are separated exactly at the cuts |
| TopLevelSplit.PartsJoin | src/arkts_code_reviewer/code_analysis/api_ownership.py:235-262 | Joining the parts with commas gives the input back |
| TopLevelSplit.PartsStable | src/arkts_code_reviewer/code_analysis/api_ownership.py:235-262 | Splitting a part again returns just that part |
| TopLevelSplit.SplitConcatIff | src/arkts_code_reviewer/code_analysis/api_ownership.py:235-262 | Splitting a + "," + b concatenates both splits exactly when no suffix of a has more openers than closers of any kind |
| DeclarationWalks.WalksAgree | sidecars/arkts-parser/parse_arkts.js:320-381 | From stacks in step the legacy walk and the v2 walk list the same declarations in the same preorder, with equal kind, name and qualified name |
| DeclarationListing.ListDeclarations | sidecars/arkts-parser/parse_arkts.js:1568-1606 | Both listings hold every declaration of the tree once, in preorder, and nothing else, each under its kind, name, dotted name and parent |
| DeclarationListing.FoundIs | sidecars/arkts-parser/parse_arkts.js:218-381 | A node is declared exactly as its kind, fields and place say: types, functions and methods by name and decorator; a component call in a children block, in the statement block of a build method or builder, as a page transition in any statement block, or as the builder of a custom dialog |
| DeclarationListing.EntriesAre | sidecars/arkts-parser/parse_arkts.js:1568-1606 | The places listed are exactly the declarations at and below the root |
| DeclarationListing.EntriesInOrder | sidecars/arkts-parser/parse_arkts.js:1568-1606 | They come in preorder |
| DeclarationWalks.DeclarationsAgree | sidecars/arkts-parser/parse_arkts.js:657-736 | At any node both walks declare the same entry or none, and the stacks stay in step |
| DeclarationWalks.EntriesAgree | sidecars/arkts-parser/parse_arkts.js:298-318 | Both ways of qualifying a name agree when every declaration on the stack has one |
| DeclarationWalks.CallChainInfo | sidecars/arkts-parser/parse_arkts.js:177-206 | The legacy chain reader finds the callee name and the property texts of the chain |
| DeclarationWalks.CallChainDetails | sidecars/arkts-parser/parse_arkts.js:549-577 | The v2 chain reader finds the callee node and the property nodes of the same chain |
| DeclarationWalks.LegacyResult.Walk | sidecars/arkts-parser/parse_arkts.js:1568-1606 | The walk appends exactly the declarations of the subtree, in preorder |
| DeclarationWalks.Analysis.Discover | sidecars/arkts-parser/parse_arkts.js:769-808 | The v2 walk appends exactly the declarations of the subtree, in preorder |
| DeclarationWalks.FindDetachedComponent | sidecars/arkts-parser/parse_arkts.js:256-281 | The checks and the sibling search find exactly the bare component names whose arguments follow apart |
| SyntaxTree.FindDecorator | sidecars/arkts-parser/parse_arkts.js:146-164 | The two loops find the decorator exactly when a child has it or the run of decorators and comments before the node does |
| SyntaxTree.FindNextNonComment | sidecars/arkts-parser/parse_arkts.js:56-62 | The loop finds the first later named sibling that is no comment |
| OwnerChoice.OwnerForRange | sidecars/arkts-parser/parse_arkts.js:828-853 | The two loops and the sort compute the owner |
| OwnerChoice.OwnerIsNarrowest | sidecars/arkts-parser/parse_arkts.js:828-853 | The owner holds the range, nothing that holds it is narrower, of equally narrow ones a region wins and then the earlier id, and there is none exactly when nothing holds the range |
| OwnerChoice.OwnerIgnoresOrder | sidecars/arkts-parser/parse_arkts.js:828-853 | The owner is the same for every order of both lists |
| CallText.NormalizeCallText | sidecars/arkts-parser/parse_arkts.js:401-427 | The scan with its quote and escape state computes the text without whitespace outside quotes |
| CallText.NormalizeIdempotent | sidecars/arkts-parser/parse_arkts.js:401-427 | Normalizing twice changes nothing more, whatever quotes are left open or escaped |
| CallText.NormalizedTags | sidecars/arkts-parser/parse_arkts.js:401-427 | Exactly the whitespace outside quotes is dropped, and no character moves into or out of quotes |
| CallText.LiteralKept | sidecars/arkts-parser/parse_arkts.js:401-427 | A literal between apostrophes, quotation marks or grave accents, with backslash escapes, is kept as it is, and what follows is normalized on its own |
| CallText.PlainLosesSpace | sidecars/arkts-parser/parse_arkts.js:401-427 | Outside literals exactly the whitespace goes |
| CallText.QuotedKept | sidecars/arkts-parser/parse_arkts.js:409-419 | Every quoted character is kept, in order |
| CallText.NoOuterSpace | sidecars/arkts-parser/parse_arkts.js:423-425 | No whitespace is left outside quotes |
| CallText.DisplayIsEscape | sidecars/arkts-parser/parse_arkts.js:1184-1190 | The four replacement passes equal one character-by-character escape |
| CallText.UnescapeEscaped | sidecars/arkts-parser/parse_arkts.js:1184-1190 | The escape can be read back |
| CallText.DisplayInjective | sidecars/arkts-parser/parse_arkts.js:1184-1190 | Distinct literals never display alike |

## Left out

- Error messages and exception kinds: every refusal is `None` or `false`.
- SHA-256, JSON encoding and path normalization: an injective printable hash and an abstract predicate stand for them; the id prefixes are the payload's constructors.
- Lone surrogates in source text.
- ReviewUnits.ReviewUnit.ScopeToChange: keeps of a unit's diagnostics the set of parser-quality codes and the lines of the outside-context one; the fallback code goes with the unit's kind, and the order of the merged list is not part of the model.
- Selection reasons of units, the symbol text of fallback units, and the normal form of paths inside ids.
- Diagnostics of file results other than the one for unassigned atoms, and host summaries, imports and hints of review units.
- The insides of the declaration builder, its refusals and its handling of out-of-range hunks: it is any function from a source, its analysis and hunks to units; what it owes where a theorem needs it is the predicate `LineRespecting`.
- The conversion of an analysis into declaration facts and the compatibility facts of parse results.
- FileAnalysis.Validate: does not check `analysis_id`, parser version and file hints, and a structure has no provenance; its line span and exact range are one range. The structures' own checks are the precondition, as the source has them run when the values are made.
- `ReviewUnitFileResult` and `ReviewUnitBuildResult` checks about schema versions, modes and legacy results.
- The inputs' own mapping and type checks, and lookups that cannot fail once the key sets agree; the input checks of the whole build are predicates over the tables rather than loops.
- ShadowIndex.BuildShadowIndex: takes for-loop headers, arrow-expression ends, parameter names and all regular-expression matches as inputs; destructuring and the canonicalization of API calls are not part of the model.
- DeclarationListing.ListDeclarations: takes the names of decorated UI structs as given; they are collected by a walk of their own.
- DeclarationWalks.Analysis.Discover: does not record import and field regions, offsets or attributes, because the listing theorem is about declarations; a local id is any function of the node, kind and qualified name.
- DeclarationWalks.LegacyResult.Walk: does not collect spans, components, calls, decorators and syntax flags.
- Git, subprocess and file handling, the tree-sitter grammar, the Node call, rendering, retrieval and planning.
