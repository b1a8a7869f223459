/** The migration status check (scripts/check_migration_status.py): the forty drawings
    that had old-format folders are split into the three known lists and the rest,
    and each unknown drawing gets a status line from its instruction.json and its
    remaining `step_<digit>` folders. Reading and parsing instruction.json is a
    parameter; a file that does not parse stops the run. */
module MigrationStatus {
  import opened Wrappers
  import opened Strings
  import opened Seqs
  import opened FileTree

  /** The lengths of the step lists of an instruction.json: per machine type under
      `workStepsByMachine`, and the legacy `workSteps`. */
  datatype StepCounts = StepCounts(byMachine: Option<map<string, nat>>, legacy: Option<nat>)

  /** The machine types in the order the status lists them. */
  const MachineOrder: seq<string> := ["machining", "turning", "yokonaka", "radial", "other"]

  // ---------------------------------------------------------------------------
  // Partition
  // ---------------------------------------------------------------------------

  function NotListed(a: seq<string>, b: seq<string>, c: seq<string>): string -> bool {
    (d: string) => d !in a && d !in b && d !in c
  }

  /** The drawings in none of the three lists, in catalog order. */
  function Unknown(all: seq<string>, a: seq<string>, b: seq<string>, c: seq<string>): seq<string> {
    Filter(NotListed(a, b, c), all)
  }

  /** The unknown drawings are exactly the unlisted ones, in catalog order. */
  lemma UnknownSpec(all: seq<string>, a: seq<string>, b: seq<string>, c: seq<string>)
    ensures IsSubseq(Unknown(all, a, b, c), all)
    ensures forall d :: d in Unknown(all, a, b, c) <==> d in all && d !in a && d !in b && d !in c
  {
    var f := NotListed(a, b, c);
    FilterIsSubseq(f, all);
    forall d | d in all && f(d) ensures d in Unknown(all, a, b, c) {
      var i :| 0 <= i < |all| && all[i] == d;
      assert f(all[i]);
    }
  }

  /** The closing check: the four counts add up to the catalog size. */
  predicate TotalsAgree(all: seq<string>, a: seq<string>, b: seq<string>, c: seq<string>) {
    |a| + |b| + |c| + |Unknown(all, a, b, c)| == |all|
  }

  function Elements(s: seq<string>): set<string> {
    set x | x in s
  }

  lemma {:induction false} ElementsCount(s: seq<string>)
    requires NoDup(s)
    ensures |Elements(s)| == |s|
    decreases |s|
  {
    if |s| > 0 {
      var init := s[..|s| - 1];
      assert NoDup(init);
      ElementsCount(init);
      assert Elements(s) == Elements(init) + {s[|s| - 1]};
      assert s[|s| - 1] !in Elements(init);
    }
  }

  /** With duplicate-free lists that are pairwise disjoint parts of a duplicate-free
      catalog, the check always passes. */
  lemma TotalsAgreeForPartition(all: seq<string>, a: seq<string>, b: seq<string>, c: seq<string>)
    requires NoDup(all) && NoDup(a) && NoDup(b) && NoDup(c)
    requires forall d :: d in a ==> d in all
    requires forall d :: d in b ==> d in all
    requires forall d :: d in c ==> d in all
    requires forall d :: d in a ==> d !in b && d !in c
    requires forall d :: d in b ==> d !in c
    ensures TotalsAgree(all, a, b, c)
  {
    var u := Unknown(all, a, b, c);
    UnknownSpec(all, a, b, c);
    FilterNoDup(NotListed(a, b, c), all);
    ElementsCount(all);
    ElementsCount(a);
    ElementsCount(b);
    ElementsCount(c);
    ElementsCount(u);
    PartsCover(all, a, b, c, u);
    DisjointCount(Elements(a), Elements(b));
    DisjointCount(Elements(a) + Elements(b), Elements(c));
    DisjointCount(Elements(a) + Elements(b) + Elements(c), Elements(u));
  }

  lemma DisjointCount(x: set<string>, y: set<string>)
    requires x * y == {}
    ensures |x + y| == |x| + |y|
  {
  }

  /** The three lists and the unknown drawings are disjoint and together make up the
      catalog. */
  lemma PartsCover(all: seq<string>, a: seq<string>, b: seq<string>, c: seq<string>, u: seq<string>)
    requires forall d :: d in a ==> d in all
    requires forall d :: d in b ==> d in all
    requires forall d :: d in c ==> d in all
    requires forall d :: d in a ==> d !in b && d !in c
    requires forall d :: d in b ==> d !in c
    requires forall d :: d in u <==> d in all && d !in a && d !in b && d !in c
    ensures Elements(a) * Elements(b) == {}
    ensures (Elements(a) + Elements(b)) * Elements(c) == {}
    ensures (Elements(a) + Elements(b) + Elements(c)) * Elements(u) == {}
    ensures Elements(a) + Elements(b) + Elements(c) + Elements(u) == Elements(all)
  {
  }

  // ---------------------------------------------------------------------------
  // Status line
  // ---------------------------------------------------------------------------

  /** The lists per machine type; the legacy `workSteps` list plays no part in the
      status. */
  type ByMachine = Option<map<string, nat>>

  /** The count of one machine type, when its list is present and non-empty. */
  function MachineCount(counts: ByMachine, machine: string): nat {
    if counts.Some? && machine in counts.value then counts.value[machine] else 0
  }

  function HasMachineSteps(counts: ByMachine): string -> bool {
    (m: string) => MachineCount(counts, m) > 0
  }

  /** `"machine:count "` for each machine of `machines` with steps, in order. */
  function MachineParts(counts: ByMachine, machines: seq<string>): (r: seq<string>)
    ensures |r| == |Filter(HasMachineSteps(counts), machines)|
    ensures forall i :: 0 <= i < |r| ==>
              r[i] == Filter(HasMachineSteps(counts), machines)[i] + ":"
                      + NatToString(MachineCount(counts, Filter(HasMachineSteps(counts), machines)[i])) + " "
    decreases |machines|
  {
    if |machines| == 0 then []
    else
      var init := machines[..|machines| - 1];
      var m := machines[|machines| - 1];
      assert init + [m] == machines;
      FilterAppend(HasMachineSteps(counts), init, [m]);
      if MachineCount(counts, m) > 0 then
        MachineParts(counts, init) + [m + ":" + NatToString(MachineCount(counts, m)) + " "]
      else MachineParts(counts, init)
  }

  function Concat(parts: seq<string>): (r: string)
    ensures |parts| > 0 && |parts[|parts| - 1]| > 0 ==> |r| > 0
    decreases |parts|
  {
    if |parts| == 0 then "" else Concat(parts[..|parts| - 1]) + parts[|parts| - 1]
  }

  /** The part of the status that comes from instruction.json. */
  function StepsStatus(counts: ByMachine): (r: string)
    ensures r == "作業手順なし" <==> forall m :: m in MachineOrder ==> MachineCount(counts, m) == 0
    ensures r != "作業手順なし" ==> r == Concat(MachineParts(counts, MachineOrder))
  {
    var parts := MachineParts(counts, MachineOrder);
    CountIfPositive(HasMachineSteps(counts), MachineOrder);
    FilterLength(HasMachineSteps(counts), MachineOrder);
    if |parts| == 0 then "作業手順なし"
    else
      assert |parts[|parts| - 1]| > 0;
      assert Concat(parts)[|Concat(parts)| - 1] == ' ';
      Concat(parts)
  }

  /** `step_[0-9]*`: a name starting with `step_` and a digit. */
  predicate IsOldStepName(name: string) {
    |name| >= 6 && name[..5] == "step_" && IsDigit(name[5])
  }

  function OldStep(): Named -> bool {
    (e: Named) => IsOldStepName(e.name)
  }

  /** The matching entries of one media folder, files included; an absent folder has
      none. */
  function OldFoldersIn(drawing: Node, kind: string): nat {
    var folder := Child(drawing, kind);
    if folder.None? then 0 else CountIf(OldStep(), Entries(folder.value))
  }

  /** The old-format folders of a drawing, over the four media folders. */
  function OldFolders(drawing: Node, kinds: seq<string>): (n: nat)
    ensures n == Sum(seq(|kinds|, i requires 0 <= i < |kinds| => OldFoldersIn(drawing, kinds[i])))
    decreases |kinds|
  {
    if |kinds| == 0 then 0
    else
      var init := kinds[..|kinds| - 1];
      assert seq(|kinds|, i requires 0 <= i < |kinds| => OldFoldersIn(drawing, kinds[i]))[..|kinds| - 1]
             == seq(|init|, i requires 0 <= i < |init| => OldFoldersIn(drawing, init[i]));
      OldFolders(drawing, init) + OldFoldersIn(drawing, kinds[|kinds| - 1])
  }

  /** Why a run stops: an instruction.json that cannot be read as JSON. */
  datatype Abort = Unreadable(drawing: string)

  /** The status line of one unknown drawing. */
  function Status(root: Node, drawing: string, parse: string -> Option<StepCounts>): (r: Result<string, Abort>)
    ensures Child(root, drawing).None? ==> r == Success("フォルダなし")
  {
    var d := Child(root, drawing);
    if d.None? then Success("フォルダなし")
    else
      var inst := Child(d.value, "instruction.json");
      var steps: Result<string, Abort> :=
        if inst.None? then Success("")
        else if inst.value.Dir? then Failure(Unreadable(drawing))
        else
          var counts := parse(inst.value.content);
          if counts.None? then Failure(Unreadable(drawing)) else Success(StepsStatus(counts.value.byMachine));
      if steps.Failure? then Failure(steps.error)
      else
        var remaining := OldFolders(d.value, MediaKinds);
        Success(steps.value + (if remaining > 0 then " | 旧フォルダ: " + NatToString(remaining) else ""))
  }

  /** The old-folder suffix of a drawing: present exactly when some old folders
      remain. */
  function OldSuffix(d: Node): string {
    var remaining := OldFolders(d, MediaKinds);
    if remaining > 0 then " | 旧フォルダ: " + NatToString(remaining) else ""
  }

  /** A present drawing without an instruction.json shows only the old-folder
      suffix. */
  lemma StatusWithoutInstruction(root: Node, drawing: string, parse: string -> Option<StepCounts>)
    requires Child(root, drawing).Some? && Child(Child(root, drawing).value, "instruction.json").None?
    ensures Status(root, drawing, parse) == Success(OldSuffix(Child(root, drawing).value))
  {
    assert "" + OldSuffix(Child(root, drawing).value) == OldSuffix(Child(root, drawing).value);
  }

  /** A readable instruction.json gives the machine summary, then the suffix. */
  lemma StatusParsed(root: Node, drawing: string, parse: string -> Option<StepCounts>)
    requires Child(root, drawing).Some?
    requires var inst := Child(Child(root, drawing).value, "instruction.json");
             inst.Some? && inst.value.File? && parse(inst.value.content).Some?
    ensures var d := Child(root, drawing).value;
            Status(root, drawing, parse)
            == Success(StepsStatus(parse(Child(d, "instruction.json").value.content).value.byMachine) + OldSuffix(d))
  {
  }

  /** An instruction.json that is a folder or does not parse stops the run. */
  lemma StatusUnreadable(root: Node, drawing: string, parse: string -> Option<StepCounts>)
    requires Child(root, drawing).Some?
    requires var inst := Child(Child(root, drawing).value, "instruction.json");
             inst.Some? && (inst.value.Dir? || parse(inst.value.content).None?)
    ensures Status(root, drawing, parse) == Failure(Unreadable(drawing))
  {
  }

  /** The status lines of a list of drawings, in order; the first unreadable file stops
      the run. */
  function Statuses(root: Node, drawings: seq<string>, parse: string -> Option<StepCounts>): (r: Result<seq<string>, Abort>)
    ensures r.Success? ==> |r.value| == |drawings|
    ensures r.Success? ==> forall i :: 0 <= i < |drawings| ==> Status(root, drawings[i], parse) == Success(r.value[i])
    ensures r.Failure? <==> exists i :: 0 <= i < |drawings| && Status(root, drawings[i], parse).Failure?
    decreases |drawings|
  {
    if |drawings| == 0 then Success([])
    else
      var first := Status(root, drawings[0], parse);
      if first.Failure? then Failure(first.error)
      else
        var rest := Statuses(root, drawings[1..], parse);
        if rest.Failure? then
          assert exists i :: 0 <= i < |drawings[1..]| && Status(root, drawings[1..][i], parse).Failure?;
          var i :| 0 <= i < |drawings[1..]| && Status(root, drawings[1..][i], parse).Failure?;
          assert drawings[i + 1] == drawings[1..][i];
          Failure(rest.error)
        else
          assert forall i :: 1 <= i < |drawings| ==> drawings[i] == drawings[1..][i - 1];
          Success([first.value] + rest.value)
  }
}
