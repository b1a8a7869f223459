/** The migration target analysis (scripts/check_migration_targets.py): for each
    candidate drawing with an instruction.json that lists work steps, the files in
    its new-format step folders are counted, and the drawings with files and their
    total are reported. Reading and parsing instruction.json is a parameter, as in
    the status check; a file that does not parse stops the run. */
module MigrationTargets {
  import opened Wrappers
  import opened Strings
  import opened Seqs
  import opened FileTree
  import opened MigrationStatus

  /** The candidate drawings, in the order they are examined. */
  const TargetDrawings: seq<string> := [
    "drawing-82096-2-R04", "drawing-flange_sus_sanei_20250722", "drawing-A1-46717-E",
    "drawing-0F030800622", "drawing-12750800122", "drawing-16800301576",
    "drawing-1G-162-TL-05", "drawing-24K025_20252725", "drawing-25417362721",
    "drawing-DM-05", "drawing-sanei_24K022", "drawing-4K300346", "drawing-4K470955",
    "drawing-4K524654-1", "drawing-4K524654-2", "drawing-91260506-2", "drawing-P103668"]

  // ---------------------------------------------------------------------------
  // Work-step summary
  // ---------------------------------------------------------------------------

  /** `(machine, length)` for each machine of `machines` whose list is non-empty, in
      order. */
  function MachineEntries(counts: ByMachine, machines: seq<string>): (r: seq<(string, nat)>)
    ensures |r| == |Filter(HasMachineSteps(counts), machines)|
    ensures forall i :: 0 <= i < |r| ==>
              r[i] == (Filter(HasMachineSteps(counts), machines)[i],
                       MachineCount(counts, Filter(HasMachineSteps(counts), machines)[i]))
    decreases |machines|
  {
    if |machines| == 0 then []
    else
      var init := machines[..|machines| - 1];
      var m := machines[|machines| - 1];
      assert init + [m] == machines;
      FilterAppend(HasMachineSteps(counts), init, [m]);
      if MachineCount(counts, m) > 0 then MachineEntries(counts, init) + [(m, MachineCount(counts, m))]
      else MachineEntries(counts, init)
  }

  /** The entries list every machine with steps, each once with its positive length,
      and nothing when no machine has steps. */
  lemma {:induction false} MachineEntriesSpec(counts: ByMachine, machines: seq<string>)
    ensures forall i :: 0 <= i < |MachineEntries(counts, machines)| ==> MachineEntries(counts, machines)[i].1 > 0
    ensures forall m :: m in machines && MachineCount(counts, m) > 0 ==> (m, MachineCount(counts, m)) in MachineEntries(counts, machines)
    ensures MachineEntries(counts, machines) == [] <==> forall m :: m in machines ==> MachineCount(counts, m) == 0
  {
    var f := HasMachineSteps(counts);
    var entries := MachineEntries(counts, machines);
    var filtered := Filter(f, machines);
    FilterIsSubseq(f, machines);
    CountIfPositive(f, machines);
    FilterLength(f, machines);
    forall i | 0 <= i < |entries| ensures entries[i].1 > 0 {
      assert filtered[i] in filtered;
    }
    forall m | m in machines && f(m) ensures (m, MachineCount(counts, m)) in entries {
      var i :| 0 <= i < |machines| && machines[i] == m;
      assert f(machines[i]);
      var k :| 0 <= k < |filtered| && filtered[k] == m;
      assert entries[k] == (m, MachineCount(counts, m));
    }
  }

  /** The `machine_steps` dictionary: the machine types with steps in their fixed
      order, then `legacy` when the old `workSteps` list is non-empty. */
  function MachineSteps(counts: StepCounts): (r: seq<(string, nat)>)
    ensures counts.legacy.Some? && counts.legacy.value > 0 ==> |r| > 0 && r[|r| - 1] == ("legacy", counts.legacy.value)
  {
    var machines := MachineEntries(counts.byMachine, MachineOrder);
    if counts.legacy.Some? && counts.legacy.value > 0 then machines + [("legacy", counts.legacy.value)]
    else machines
  }

  /** Every length listed is positive, every machine type with steps is listed, and
      the summary is empty exactly when there are no steps at all. */
  lemma MachineStepsSpec(counts: StepCounts)
    ensures forall i :: 0 <= i < |MachineSteps(counts)| ==> MachineSteps(counts)[i].1 > 0
    ensures forall m :: m in MachineOrder && MachineCount(counts.byMachine, m) > 0 ==>
              (m, MachineCount(counts.byMachine, m)) in MachineSteps(counts)
    ensures MachineSteps(counts) == [] <==> (forall m :: m in MachineOrder ==> MachineCount(counts.byMachine, m) == 0)
                                            && (counts.legacy.None? || counts.legacy.value == 0)
  {
    var machines := MachineEntries(counts.byMachine, MachineOrder);
    MachineEntriesSpec(counts.byMachine, MachineOrder);
    if counts.legacy.Some? && counts.legacy.value > 0 {
      var r := machines + [("legacy", counts.legacy.value)];
      assert MachineSteps(counts) == r;
      assert forall i :: 0 <= i < |machines| ==> r[i] == machines[i];
      forall e | e in machines ensures e in r {
        var i :| 0 <= i < |machines| && machines[i] == e;
        assert r[i] == e;
      }
    } else {
      assert MachineSteps(counts) == machines;
    }
  }

  // ---------------------------------------------------------------------------
  // File count
  // ---------------------------------------------------------------------------

  /** A folder the count looks at: a `step_*` name whose full path mentions none of
      `overview`, `_machining` and `_turning` (those are new-format folders already). */
  predicate IsTargetStep(drawing: string, kind: string, e: Named) {
    var p := PathString([drawing, kind, e.name]);
    StartsWith(e.name, "step_") && !Contains(p, "overview") && !Contains(p, "_machining") && !Contains(p, "_turning")
  }

  function TargetSteps(): StepTest {
    (drawing: string) => (kind: string) => (e: Named) => IsTargetStep(drawing, kind, e)
  }

  /** The files listed directly in a counted step entry; a plain file lists none. */
  function FilesOf(isStep: Named -> bool, e: Named): nat {
    if isStep(e) then |Entries(e.node)| else 0
  }

  function EntryFiles(isStep: Named -> bool): Named -> nat {
    (e: Named) => FilesOf(isStep, e)
  }

  /** The files of the counted step folders of one media folder. The count is zero
      exactly when every counted folder is empty, and never less than the files of
      any one of them. */
  function FilesIn(isStep: Named -> bool, entries: seq<Named>): (n: nat)
    ensures n == 0 <==> forall i :: 0 <= i < |entries| ==> FilesOf(isStep, entries[i]) == 0
    ensures forall i :: 0 <= i < |entries| ==> FilesOf(isStep, entries[i]) <= n
    ensures n == Sum(MapNat(EntryFiles(isStep), entries))
    decreases |entries|
  {
    if |entries| == 0 then 0
    else
      SumMapSnoc(EntryFiles(isStep), entries);
      SumMapZero(EntryFiles(isStep), entries);
      SumMapBound(EntryFiles(isStep), entries);
      var init := entries[..|entries| - 1];
      FilesIn(isStep, init) + FilesOf(isStep, entries[|entries| - 1])
  }

  /** The files of one media folder of a drawing; an absent folder has none. */
  function FilesInKind(isStep: Named -> bool, drawing: Node, kind: string): nat {
    var folder := Child(drawing, kind);
    if folder.None? then 0 else FilesIn(isStep, Entries(folder.value))
  }

  function KindFiles(isStep: string -> Named -> bool, drawing: Node): string -> nat {
    (kind: string) => FilesInKind(isStep(kind), drawing, kind)
  }

  /** `file_count` of a drawing, over the given media folders. It is zero exactly
      when every one of them contributes nothing. */
  function DrawingFiles(isStep: string -> Named -> bool, drawing: Node, kinds: seq<string>): (n: nat)
    ensures n == 0 <==> forall i :: 0 <= i < |kinds| ==> FilesInKind(isStep(kinds[i]), drawing, kinds[i]) == 0
    ensures n == Sum(MapNat(KindFiles(isStep, drawing), kinds))
    decreases |kinds|
  {
    if |kinds| == 0 then 0
    else
      var init := kinds[..|kinds| - 1];
      SumMapSnoc(KindFiles(isStep, drawing), kinds);
      SumMapZero(KindFiles(isStep, drawing), kinds);
      DrawingFiles(isStep, drawing, init) + FilesInKind(isStep(kinds[|kinds| - 1]), drawing, kinds[|kinds| - 1])
  }

  // ---------------------------------------------------------------------------
  // One drawing and the run
  // ---------------------------------------------------------------------------

  /** What the loop makes of one drawing: skipped (no folder, no instruction.json, or
      no steps), or its step summary and file count. */
  datatype Outcome = Skipped | Counted(steps: seq<(string, nat)>, files: nat)

  /** One pass of the loop. A drawing that reaches the count always has steps, so the
      `file_count > 0 or machine_steps` guard of the report always holds. */
  function Examine(isStep: StepTest, root: Node, drawing: string, parse: string -> Option<StepCounts>): (r: Result<Outcome, Abort>)
    ensures Child(root, drawing).None? ==> r == Success(Skipped)
    ensures Child(root, drawing).Some? && Child(Child(root, drawing).value, "instruction.json").None? ==> r == Success(Skipped)
    ensures r.Failure? ==> r.error == Unreadable(drawing)
    ensures r.Success? && r.value.Counted? ==> |r.value.steps| > 0
    ensures var d := Child(root, drawing);
            var inst := if d.Some? then Child(d.value, "instruction.json") else None;
            var counts := if inst.Some? && inst.value.File? then parse(inst.value.content) else None;
            (r.Failure? <==> inst.Some? && counts.None?) &&
            (counts.Some? ==> (r == Success(Skipped) <==> MachineSteps(counts.value) == [])) &&
            (r.Success? && r.value.Counted? ==>
               counts.Some? && r.value.steps == MachineSteps(counts.value)
               && r.value.files == DrawingFiles(isStep(drawing), d.value, MediaKinds))
  {
    var d := Child(root, drawing);
    if d.None? then Success(Skipped)
    else
      var inst := Child(d.value, "instruction.json");
      if inst.None? then Success(Skipped)
      else if inst.value.Dir? then Failure(Unreadable(drawing))
      else
        var counts := parse(inst.value.content);
        if counts.None? then Failure(Unreadable(drawing))
        else
          var steps := MachineSteps(counts.value);
          if steps == [] then Success(Skipped)
          else Success(Counted(steps, DrawingFiles(isStep(drawing), d.value, MediaKinds)))
  }

  /** The summary: the drawings with files, in order, and their total. */
  datatype Summary = Summary(withData: seq<string>, totalFiles: nat)

  /** Whether a drawing's outcome counts towards the summary. */
  function HasData(examine: string -> Result<Outcome, Abort>): string -> bool {
    (d: string) => examine(d).Success? && examine(d).value.Counted? && examine(d).value.files > 0
  }

  function FileCount(o: Result<Outcome, Abort>): nat {
    if o.Success? && o.value.Counted? then o.value.files else 0
  }

  function DrawingCount(examine: string -> Result<Outcome, Abort>): string -> nat {
    (d: string) => FileCount(examine(d))
  }

  /** The loop over the candidates, for any per-drawing step: the drawings with files
      in order, and a total that is zero exactly when there are none and at least one
      file per such drawing; the first unreadable file stops the run. */
  function Analyze(examine: string -> Result<Outcome, Abort>, drawings: seq<string>): (r: Result<Summary, Abort>)
    ensures r.Failure? <==> exists i :: 0 <= i < |drawings| && examine(drawings[i]).Failure?
    ensures r.Success? ==> r.value.withData == Filter(HasData(examine), drawings)
    ensures r.Success? ==> r.value.totalFiles >= |r.value.withData|
    ensures r.Success? ==> (r.value.totalFiles == 0 <==> r.value.withData == [])
    ensures r.Success? ==> forall i :: 0 <= i < |drawings| ==> FileCount(examine(drawings[i])) <= r.value.totalFiles
    ensures r.Success? ==> r.value.totalFiles == Sum(MapNat(DrawingCount(examine), drawings))
    decreases |drawings|
  {
    if |drawings| == 0 then Success(Summary([], 0))
    else
      var init := drawings[..|drawings| - 1];
      var d := drawings[|drawings| - 1];
      assert init + [d] == drawings;
      SumMapSnoc(DrawingCount(examine), drawings);
      SumMapBound(DrawingCount(examine), drawings);
      SnocFacts(examine, init, d, drawings);
      FilterAppend(HasData(examine), init, [d]);
      var rest := Analyze(examine, init);
      if rest.Failure? then Failure(rest.error)
      else
        var o := examine(d);
        if o.Failure? then Failure(o.error)
        else if o.value.Counted? && o.value.files > 0 then
          Success(Summary(rest.value.withData + [d], rest.value.totalFiles + o.value.files))
        else rest
  }

  lemma SnocFacts(examine: string -> Result<Outcome, Abort>, init: seq<string>, d: string, drawings: seq<string>)
    requires drawings == init + [d]
    ensures (exists i :: 0 <= i < |drawings| && examine(drawings[i]).Failure?) <==>
              (exists i :: 0 <= i < |init| && examine(init[i]).Failure?) || examine(d).Failure?
    ensures forall i :: 0 <= i < |init| ==> drawings[i] == init[i]
  {
    assert forall i :: 0 <= i < |init| ==> drawings[i] == init[i];
    assert drawings[|init|] == d;
  }

  /** One pass of the script's loop: `Examine` with the target step test. */
  function TargetExamine(root: Node, parse: string -> Option<StepCounts>): string -> Result<Outcome, Abort> {
    (d: string) => Examine(TargetSteps(), root, d, parse)
  }

  /** The script: the loop over `TargetDrawings` with the target step test. It fails
      exactly when some candidate's instruction.json cannot be read, and otherwise
      reports the candidates with files and the sum of their file counts. */
  function Targets(root: Node, parse: string -> Option<StepCounts>): (r: Result<Summary, Abort>)
    ensures r.Failure? <==> exists i :: 0 <= i < |TargetDrawings| && Examine(TargetSteps(), root, TargetDrawings[i], parse).Failure?
    ensures r.Success? ==> r.value.withData == Filter(HasData(TargetExamine(root, parse)), TargetDrawings)
    ensures r.Success? ==> r.value.totalFiles == Sum(MapNat(DrawingCount(TargetExamine(root, parse)), TargetDrawings))
  {
    Analyze(TargetExamine(root, parse), TargetDrawings)
  }

  /** A drawing is reported exactly when it is a candidate whose instruction.json
      lists steps and whose counted step folders hold a file. */
  lemma {:induction false} TargetsReported(root: Node, parse: string -> Option<StepCounts>, drawing: string)
    requires Targets(root, parse).Success?
    ensures drawing in Targets(root, parse).value.withData <==>
              drawing in TargetDrawings
              && Examine(TargetSteps(), root, drawing, parse).Success?
              && Examine(TargetSteps(), root, drawing, parse).value.Counted?
              && Examine(TargetSteps(), root, drawing, parse).value.files > 0
  {
    var f := HasData(TargetExamine(root, parse));
    var w := Targets(root, parse).value.withData;
    assert w == Filter(f, TargetDrawings);
    FilterMember(f, TargetDrawings, drawing);
  }
}
