/** The phase-2 cleanup (scripts/delete_empty_steps_phase2.py): for each listed drawing
    that has no work steps, every empty `step_*` directory directly under one of its
    media folders is removed, overview folders excepted. A step entry with files is
    kept with a warning; one that `rmtree` cannot remove (a plain file, or an empty
    directory the file system refuses to let go) is reported and the sweep goes on.
    Whether a removal succeeds depends on the file system, so it is a parameter. */
module DeleteEmptySteps {
  import opened Wrappers
  import opened Strings
  import opened Seqs
  import opened FileTree

  /** The drawings of the run. */
  const EmptyDrawings: seq<string> := [
    "drawing-4K300346", "drawing-4K470955", "drawing-4K524654-1",
    "drawing-4K524654-2", "drawing-82096-2-R04", "drawing-P103668"]

  /** An entry the sweep looks at: a `step_*` name whose full path does not mention
      `overview`. */
  predicate IsStepEntry(drawing: string, kind: string, e: Named) {
    StartsWith(e.name, "step_") && !Contains(PathString([drawing, kind, e.name]), "overview")
  }

  /** How the sweep treats the entries of one media folder: which entries are step
      entries, and on which of them `rmtree` succeeds. */
  datatype Rule = Rule(isStep: Named -> bool, removes: Named -> bool)

  /** The rules of a run, per drawing and media folder. */
  type Rules = string -> string -> Rule

  /** The script's step entries, with the file system's removal outcomes. */
  function StepRules(removes: StepTest): Rules {
    (drawing: string) => (kind: string) =>
      Rule((e: Named) => IsStepEntry(drawing, kind, e), removes(drawing)(kind))
  }

  /** A step entry the script tries to remove: an empty directory. */
  function EmptyStep(rule: Rule): Named -> bool {
    (e: Named) => rule.isStep(e) && e.node == Dir([])
  }

  /** An empty step directory whose removal succeeds. */
  function Removable(rule: Rule): Named -> bool {
    (e: Named) => EmptyStep(rule)(e) && rule.removes(e)
  }

  /** An empty step directory whose removal raises: the error is printed and the
      directory stays. */
  function Failed(rule: Rule): Named -> bool {
    (e: Named) => EmptyStep(rule)(e) && !rule.removes(e)
  }

  function Survives(rule: Rule): Named -> bool {
    (e: Named) => !Removable(rule)(e)
  }

  /** A step directory with entries: kept, with a warning. */
  function HasFiles(rule: Rule): Named -> bool {
    (e: Named) => rule.isStep(e) && e.node.Dir? && |e.node.entries| > 0
  }

  /** A step entry reported as an error: a plain file, which `rmtree` always refuses,
      or an empty directory whose removal fails. */
  function Unremovable(rule: Rule): Named -> bool {
    (e: Named) => rule.isStep(e) && (e.node.File? || Failed(rule)(e))
  }

  /** The outcome of sweeping one media folder. */
  datatype Sweep = Sweep(kept: seq<Named>, deleted: nat, warnings: nat, errors: nat)

  /** The loop over the step entries of one media folder, entry by entry. */
  function SweepFolder(rule: Rule, entries: seq<Named>): (r: Sweep)
    ensures r.kept == Filter(Survives(rule), entries)
    ensures r.deleted == CountIf(Removable(rule), entries)
    ensures r.warnings == CountIf(HasFiles(rule), entries)
    ensures r.errors == CountIf(Unremovable(rule), entries)
    ensures |r.kept| + r.deleted == |entries|
    decreases |entries|
  {
    if |entries| == 0 then Sweep([], 0, 0, 0)
    else
      var s := SweepFolder(rule, entries[..|entries| - 1]);
      var e := entries[|entries| - 1];
      assert entries[..|entries| - 1] + [e] == entries;
      FilterAppend(Survives(rule), entries[..|entries| - 1], [e]);
      if !rule.isStep(e) then s.(kept := s.kept + [e])
      else if e.node.File? then s.(kept := s.kept + [e], errors := s.errors + 1)
      else if |e.node.entries| > 0 then s.(kept := s.kept + [e], warnings := s.warnings + 1)
      else if rule.removes(e) then s.(deleted := s.deleted + 1)
      else s.(kept := s.kept + [e], errors := s.errors + 1)
  }

  /** Sweeping a folder keeps every entry that is not a removable empty step
      directory, in order, and removes every one that is; a step directory with files
      and an empty one whose removal fails both survive. */
  lemma SweepFolderKeeps(rule: Rule, entries: seq<Named>)
    ensures IsSubseq(SweepFolder(rule, entries).kept, entries)
    ensures forall e :: e in SweepFolder(rule, entries).kept <==> e in entries && !Removable(rule)(e)
    ensures forall e :: e in entries && HasFiles(rule)(e) ==> e in SweepFolder(rule, entries).kept
    ensures forall e :: e in entries && Failed(rule)(e) ==> e in SweepFolder(rule, entries).kept
  {
    var f := Survives(rule);
    FilterIsSubseq(f, entries);
    var kept := SweepFolder(rule, entries).kept;
    forall e | e in entries && f(e) ensures e in kept {
      var i :| 0 <= i < |entries| && entries[i] == e;
      assert f(entries[i]);
    }
  }

  /** A swept folder has no removable empty step directory left, and the empty step
      directories it still holds are exactly those whose removal failed. */
  lemma {:induction false} SweptFolderClean(rule: Rule, entries: seq<Named>)
    ensures CountIf(Removable(rule), SweepFolder(rule, entries).kept) == 0
    ensures CountIf(EmptyStep(rule), SweepFolder(rule, entries).kept) == CountIf(Failed(rule), entries)
    decreases |entries|
  {
    if |entries| > 0 {
      var init := entries[..|entries| - 1];
      var e := entries[|entries| - 1];
      SweptFolderClean(rule, init);
      var k0 := SweepFolder(rule, init).kept;
      var k := SweepFolder(rule, entries).kept;
      if Removable(rule)(e) {
        assert k == k0;
      } else {
        assert k == k0 + [e];
        assert (k0 + [e])[..|k0|] == k0;
      }
    }
  }

  /** When every removal succeeds, a swept folder holds no empty step directory and
      the only errors are step entries that are plain files. */
  lemma SweepWithoutFailures(rule: Rule, entries: seq<Named>)
    requires forall i :: 0 <= i < |entries| ==> rule.removes(entries[i])
    ensures CountIf(EmptyStep(rule), SweepFolder(rule, entries).kept) == 0
    ensures SweepFolder(rule, entries).errors == CountIf((e: Named) => rule.isStep(e) && e.node.File?, entries)
  {
    SweptFolderClean(rule, entries);
    CountIfPositive(Failed(rule), entries);
    CountIfCongruent(Unremovable(rule), (e: Named) => rule.isStep(e) && e.node.File?, entries);
  }

  /** A folder with nothing removable is kept as it is. */
  lemma CleanFolderUnchanged(rule: Rule, entries: seq<Named>)
    requires CountIf(Removable(rule), entries) == 0
    ensures SweepFolder(rule, entries).kept == entries
  {
    CountIfPositive(Removable(rule), entries);
    FilterAll(Survives(rule), entries);
  }

  /** The per-drawing tally. */
  datatype Tally = Tally(deleted: nat, warnings: nat, errors: nat)

  /** A media folder holds no empty step directory that could be removed (or is
      absent, or a file). */
  predicate FolderClean(rule: Rule, folder: Option<Node>) {
    folder.None? || folder.value.File? || CountIf(Removable(rule), folder.value.entries) == 0
  }

  /** A directory is clean exactly when every empty step directory in it is one whose
      removal fails. */
  lemma FolderCleanIff(rule: Rule, entries: seq<Named>)
    ensures FolderClean(rule, Some(Dir(entries))) <==>
            forall i :: 0 <= i < |entries| && EmptyStep(rule)(entries[i]) ==> !rule.removes(entries[i])
  {
    CountIfPositive(Removable(rule), entries);
  }

  /** A media folder after its sweep: a directory keeps its surviving entries in
      order; an absent folder or a plain file is left alone. */
  function SweptChild(rule: Rule, folder: Option<Node>): Option<Node> {
    if folder.Some? && folder.value.Dir? then Some(Dir(SweepFolder(rule, folder.value.entries).kept)) else folder
  }

  /** Sweeping a folder a second time changes nothing. */
  lemma SweptChildTwice(rule: Rule, folder: Option<Node>)
    ensures SweptChild(rule, SweptChild(rule, folder)) == SweptChild(rule, folder)
  {
    if folder.Some? && folder.value.Dir? {
      SweptFolderClean(rule, folder.value.entries);
      CleanFolderUnchanged(rule, SweepFolder(rule, folder.value.entries).kept);
    }
  }

  /** What a sweep of the folder reports: its empty step directories, those with
      files and those that are plain files. */
  function FolderTally(rule: Rule, folder: Option<Node>): Tally {
    if folder.Some? && folder.value.Dir? then
      Tally(CountIf(Removable(rule), folder.value.entries), CountIf(HasFiles(rule), folder.value.entries),
            CountIf(Unremovable(rule), folder.value.entries))
    else Tally(0, 0, 0)
  }

  /** One media folder of a drawing: swept when it is a directory, skipped otherwise. */
  function SweepKind(rule: Rule, node: Node, kind: string): (r: (Node, Tally))
    ensures Child(r.0, kind) == SweptChild(rule, Child(node, kind))
    ensures r.1 == FolderTally(rule, Child(node, kind))
    ensures forall k :: k != kind ==> Child(r.0, k) == Child(node, k)
    ensures FolderClean(rule, Child(r.0, kind))
    ensures Child(r.0, kind).Some? == Child(node, kind).Some?
    ensures node.File? ==> r.0 == node && r.1.deleted == 0
    ensures FolderClean(rule, Child(node, kind)) ==> r.0 == node && r.1.deleted == 0
  {
    var folder := Child(node, kind);
    if folder.Some? && folder.value.Dir? then
      var s := SweepFolder(rule, folder.value.entries);
      SweptFolderClean(rule, folder.value.entries);
      assert FolderClean(rule, folder) ==> WithChild(node, kind, Dir(s.kept)) == node && s.deleted == 0 by {
        if FolderClean(rule, folder) {
          CleanFolderUnchanged(rule, folder.value.entries);
          WithSameChild(node, kind);
        }
      }
      (WithChild(node, kind, Dir(s.kept)), Tally(s.deleted, s.warnings, s.errors))
    else
      (node, Tally(0, 0, 0))
  }

  function AddTally(a: Tally, b: Tally): Tally {
    Tally(a.deleted + b.deleted, a.warnings + b.warnings, a.errors + b.errors)
  }

  /** Every folder of `kinds` is clean. */
  predicate KindsClean(rule: string -> Rule, node: Node, kinds: seq<string>)
    decreases |kinds|
  {
    |kinds| == 0 ||
    (KindsClean(rule, node, kinds[..|kinds| - 1]) &&
     FolderClean(rule(kinds[|kinds| - 1]), Child(node, kinds[|kinds| - 1])))
  }

  /** Sweeping one more folder keeps the folders swept before it clean. */
  lemma {:induction false} KindsCleanFrame(rule: string -> Rule, n1: Node, n2: Node, kinds: seq<string>, kind: string)
    requires KindsClean(rule, n1, kinds)
    requires forall k {:trigger Child(n2, k)} :: k != kind ==> Child(n2, k) == Child(n1, k)
    requires FolderClean(rule(kind), Child(n2, kind))
    ensures KindsClean(rule, n2, kinds)
    decreases |kinds|
  {
    if |kinds| > 0 {
      KindsCleanFrame(rule, n1, n2, kinds[..|kinds| - 1], kind);
      var last := kinds[|kinds| - 1];
      if last != kind {
        assert Child(n2, last) == Child(n1, last);
      }
    }
  }

  /** `after` is `before` with the folders of `kinds` swept and nothing else changed. */
  ghost predicate KindsSwept(rule: string -> Rule, kinds: seq<string>, before: Node, after: Node) {
    (forall k {:trigger Child(after, k)} :: k in kinds ==> Child(after, k) == SweptChild(rule(k), Child(before, k)))
    && (forall k {:trigger Child(after, k)} :: k !in kinds ==> Child(after, k) == Child(before, k))
  }

  /** Sweeping the same folders twice is sweeping them once. */
  lemma KindsSweptTwice(rule: string -> Rule, kinds: seq<string>, a: Node, b: Node, c: Node)
    requires KindsSwept(rule, kinds, a, b) && KindsSwept(rule, kinds, b, c)
    ensures KindsSwept(rule, kinds, a, c)
  {
    forall k | k in kinds ensures Child(c, k) == SweptChild(rule(k), Child(a, k)) {
      assert Child(b, k) == SweptChild(rule(k), Child(a, k));
      SweptChildTwice(rule(k), Child(a, k));
    }
  }

  /** The tally of the folders of `kinds` as they were before the sweep. */
  function KindsTally(rule: string -> Rule, node: Node, kinds: seq<string>): Tally
    decreases |kinds|
  {
    if |kinds| == 0 then Tally(0, 0, 0)
    else AddTally(KindsTally(rule, node, kinds[..|kinds| - 1]),
                  FolderTally(rule(kinds[|kinds| - 1]), Child(node, kinds[|kinds| - 1])))
  }

  /** The loop over the media folders of one drawing, last kind swept last. */
  function SweepKinds(rule: string -> Rule, node: Node, kinds: seq<string>): (r: (Node, Tally))
    ensures node.File? ==> r.0 == node && r.1.deleted == 0
    ensures KindsClean(rule, r.0, kinds)
    ensures KindsClean(rule, node, kinds) ==> r.0 == node && r.1.deleted == 0
    ensures KindsSwept(rule, kinds, node, r.0)
    ensures NoDup(kinds) ==> r.1 == KindsTally(rule, node, kinds)
    decreases |kinds|
  {
    if |kinds| == 0 then (node, Tally(0, 0, 0))
    else
      var init := kinds[..|kinds| - 1];
      var kind := kinds[|kinds| - 1];
      var p1 := SweepKinds(rule, node, init);
      var n1 := p1.0;
      var t1 := p1.1;
      var p2 := SweepKind(rule(kind), n1, kind);
      var n2 := p2.0;
      var t2 := p2.1;
      SweepKindsCompose(rule, node, kinds, n1, t1, n2, t2);
      (n2, AddTally(t1, t2))
  }

  /** Sweeping the folders before the last and then the last one sweeps them all:
      the loop's facts carry over from one kind to the next. */
  lemma SweepKindsCompose(rule: string -> Rule, node: Node, kinds: seq<string>,
                          n1: Node, t1: Tally, n2: Node, t2: Tally)
    requires |kinds| > 0
    requires var init := kinds[..|kinds| - 1];
             KindsClean(rule, n1, init)
             && (KindsClean(rule, node, init) ==> n1 == node && t1.deleted == 0)
             && KindsSwept(rule, init, node, n1)
             && (NoDup(init) ==> t1 == KindsTally(rule, node, init))
    requires var kind := kinds[|kinds| - 1];
             Child(n2, kind) == SweptChild(rule(kind), Child(n1, kind))
             && t2 == FolderTally(rule(kind), Child(n1, kind))
             && (forall k :: k != kind ==> Child(n2, k) == Child(n1, k))
             && FolderClean(rule(kind), Child(n2, kind))
             && (n1.File? ==> n2 == n1 && t2.deleted == 0)
             && (FolderClean(rule(kind), Child(n1, kind)) ==> n2 == n1 && t2.deleted == 0)
    requires node.File? ==> n1 == node && t1.deleted == 0
    ensures (node.File? ==> n2 == node && t1.deleted + t2.deleted == 0)
            && KindsClean(rule, n2, kinds)
            && (KindsClean(rule, node, kinds) ==> n2 == node && t1.deleted + t2.deleted == 0)
            && KindsSwept(rule, kinds, node, n2)
            && (NoDup(kinds) ==> AddTally(t1, t2) == KindsTally(rule, node, kinds))
  {
    var init := kinds[..|kinds| - 1];
    var kind := kinds[|kinds| - 1];
    SnocSplit(kinds);
    KindsCleanFrame(rule, n1, n2, init, kind);
    SweepKindsStep(rule, node, init, kind, n1, n2);
    NoDupSnoc(kinds);
  }

  /** The sweep of one more kind after the others extends the swept set. */
  lemma SweepKindsStep(rule: string -> Rule, node: Node, init: seq<string>, kind: string, n1: Node, n2: Node)
    requires KindsSwept(rule, init, node, n1)
    requires Child(n2, kind) == SweptChild(rule(kind), Child(n1, kind))
    requires forall k :: k != kind ==> Child(n2, k) == Child(n1, k)
    ensures KindsSwept(rule, init + [kind], node, n2)
  {
    var kinds := init + [kind];
    forall k | k in kinds ensures Child(n2, k) == SweptChild(rule(k), Child(node, k)) {
      if k == kind {
        if k in init {
          SweptChildTwice(rule(k), Child(node, k));
        }
      }
    }
  }

  /** What the run reports for one drawing: a missing folder, or the tally. */
  datatype Report = NoFolder(drawing: string) | Swept(drawing: string, tally: Tally)

  function Deleted(r: Report): nat {
    if r.Swept? then r.tally.deleted else 0
  }

  function DeletedCounts(reports: seq<Report>): (r: seq<nat>)
    ensures |r| == |reports|
    ensures forall i :: 0 <= i < |reports| ==> r[i] == Deleted(reports[i])
  {
    seq(|reports|, i requires 0 <= i < |reports| => Deleted(reports[i]))
  }

  /** A drawing whose media folders hold no empty step directory (or that is absent). */
  predicate DrawingClean(rule: Rules, kinds: seq<string>, root: Node, drawing: string) {
    var d := Child(root, drawing);
    d.None? || KindsClean(rule(drawing), d.value, kinds)
  }

  /** One drawing of the run: a missing folder is skipped, otherwise its media folders
      are swept. */
  function SweepDrawing(rule: Rules, kinds: seq<string>, root: Node, drawing: string): (r: (Node, Report))
    ensures Child(root, drawing).None? ==> r.0 == root && r.1 == NoFolder(drawing)
    ensures Child(root, drawing).Some? ==> r.1.Swept? && r.1.drawing == drawing
    ensures forall d {:trigger Child(r.0, d)} :: Child(r.0, d).Some? == Child(root, d).Some?
    ensures forall d {:trigger Child(r.0, d)} :: d != drawing ==> Child(r.0, d) == Child(root, d)
    ensures Child(root, drawing).Some? ==>
              Child(r.0, drawing).Some? && KindsSwept(rule(drawing), kinds, Child(root, drawing).value, Child(r.0, drawing).value)
    ensures Child(root, drawing).Some? && NoDup(kinds) ==> r.1.tally == KindsTally(rule(drawing), Child(root, drawing).value, kinds)
  {
    var d := Child(root, drawing);
    if d.None? then (root, NoFolder(drawing))
    else
      var p := SweepKinds(rule(drawing), d.value, kinds);
      (WithChild(root, drawing, p.0), Swept(drawing, p.1))
  }

  /** The swept drawing ends clean, and a drawing that was clean is left as it was
      with nothing deleted. */
  lemma SweepDrawingCleans(rule: Rules, kinds: seq<string>, root: Node, drawing: string)
    ensures DrawingClean(rule, kinds, SweepDrawing(rule, kinds, root, drawing).0, drawing)
    ensures DrawingClean(rule, kinds, root, drawing) ==>
              SweepDrawing(rule, kinds, root, drawing).0 == root && Deleted(SweepDrawing(rule, kinds, root, drawing).1) == 0
  {
    var d := Child(root, drawing);
    if d.Some? && DrawingClean(rule, kinds, root, drawing) {
      WithSameChild(root, drawing);
    }
  }

  /** Every drawing of the list is clean. */
  predicate DrawingsClean(rule: Rules, kinds: seq<string>, root: Node, drawings: seq<string>)
    decreases |drawings|
  {
    |drawings| == 0 ||
    (DrawingsClean(rule, kinds, root, drawings[..|drawings| - 1]) &&
     DrawingClean(rule, kinds, root, drawings[|drawings| - 1]))
  }

  /** Sweeping one more drawing keeps the drawings swept before it clean. */
  lemma {:induction false} DrawingsCleanFrame(rule: Rules, kinds: seq<string>, r1: Node, r2: Node, drawings: seq<string>, drawing: string)
    requires DrawingsClean(rule, kinds, r1, drawings)
    requires forall d {:trigger Child(r2, d)} :: d != drawing ==> Child(r2, d) == Child(r1, d)
    requires DrawingClean(rule, kinds, r2, drawing)
    ensures DrawingsClean(rule, kinds, r2, drawings)
    decreases |drawings|
  {
    if |drawings| > 0 {
      DrawingsCleanFrame(rule, kinds, r1, r2, drawings[..|drawings| - 1], drawing);
      var last := drawings[|drawings| - 1];
      if last != drawing {
        assert Child(r2, last) == Child(r1, last);
      }
    }
  }

  /** One report per drawing, in order, saying "no folder" exactly for the drawings
      without a folder in `root`. */
  predicate ReportsFor(reports: seq<Report>, drawings: seq<string>, root: Node) {
    |reports| == |drawings|
    && (forall i :: 0 <= i < |drawings| ==> reports[i].drawing == drawings[i])
    && (forall i :: 0 <= i < |drawings| ==> (reports[i].NoFolder? <==> Child(root, drawings[i]).None?))
  }

  lemma ReportsForSnoc(reports: seq<Report>, drawings: seq<string>, root: Node, report: Report, drawing: string)
    requires ReportsFor(reports, drawings, root)
    requires report.drawing == drawing && (report.NoFolder? <==> Child(root, drawing).None?)
    ensures ReportsFor(reports + [report], drawings + [drawing], root)
  {
  }

  /** The run over a list of drawings, in order. */
  function Run(rule: Rules, kinds: seq<string>, root: Node, drawings: seq<string>): (r: (Node, seq<Report>))
    ensures ReportsFor(r.1, drawings, root)
    ensures forall d {:trigger Child(r.0, d)} :: Child(r.0, d).Some? == Child(root, d).Some?
    ensures forall d {:trigger Child(r.0, d)} :: d !in drawings ==> Child(r.0, d) == Child(root, d)
    ensures forall d {:trigger Child(r.0, d)} :: d in drawings && Child(root, d).Some? ==>
              KindsSwept(rule(d), kinds, Child(root, d).value, Child(r.0, d).value)
    ensures NoDup(kinds) && NoDup(drawings) ==>
              forall i :: 0 <= i < |drawings| && r.1[i].Swept? ==>
                r.1[i].tally == KindsTally(rule(drawings[i]), Child(root, drawings[i]).value, kinds)
    decreases |drawings|
  {
    if |drawings| == 0 then (root, [])
    else
      var init := drawings[..|drawings| - 1];
      var last := drawings[|drawings| - 1];
      var p1 := Run(rule, kinds, root, init);
      var p2 := SweepDrawing(rule, kinds, p1.0, last);
      assert forall d :: d !in drawings ==> d !in init && d != last;
      assert Child(p1.0, last).Some? == Child(root, last).Some?;
      ReportsForSnoc(p1.1, init, root, p2.1, last);
      assert drawings == init + [last];
      RunSweptStep(rule, kinds, root, init, last, p1.0, p2.0);
      NoDupSnoc(drawings);
      (p2.0, p1.1 + [p2.1])
  }

  /** Sweeping one more drawing after the others extends the set of swept drawings;
      a drawing swept twice is swept once. */
  lemma RunSweptStep(rule: Rules, kinds: seq<string>, root: Node, init: seq<string>, last: string, r1: Node, r2: Node)
    requires forall d {:trigger Child(r1, d)} :: Child(r1, d).Some? == Child(root, d).Some?
    requires forall d {:trigger Child(r1, d)} :: d !in init ==> Child(r1, d) == Child(root, d)
    requires forall d {:trigger Child(r1, d)} :: d in init && Child(root, d).Some? ==>
               KindsSwept(rule(d), kinds, Child(root, d).value, Child(r1, d).value)
    requires r2 == SweepDrawing(rule, kinds, r1, last).0
    ensures forall d {:trigger Child(r2, d)} :: d in init + [last] && Child(root, d).Some? ==>
              KindsSwept(rule(d), kinds, Child(root, d).value, Child(r2, d).value)
  {
    forall d | d in init + [last] && Child(root, d).Some?
      ensures KindsSwept(rule(d), kinds, Child(root, d).value, Child(r2, d).value)
    {
      if d == last && d in init {
        KindsSweptTwice(rule(d), kinds, Child(root, d).value, Child(r1, d).value, Child(r2, d).value);
      } else if d == last {
        assert Child(r1, d) == Child(root, d);
      } else {
        assert Child(r2, d) == Child(r1, d);
      }
    }
  }

  /** After a run every listed drawing is clean. */
  lemma {:induction false} RunCleans(rule: Rules, kinds: seq<string>, root: Node, drawings: seq<string>)
    ensures DrawingsClean(rule, kinds, Run(rule, kinds, root, drawings).0, drawings)
    decreases |drawings|
  {
    if |drawings| > 0 {
      var init := drawings[..|drawings| - 1];
      var last := drawings[|drawings| - 1];
      var r1 := Run(rule, kinds, root, init).0;
      RunCleans(rule, kinds, root, init);
      SweepDrawingCleans(rule, kinds, r1, last);
      DrawingsCleanFrame(rule, kinds, r1, SweepDrawing(rule, kinds, r1, last).0, init, last);
    }
  }

  lemma DeletedCountsSnoc(reports: seq<Report>, report: Report)
    ensures DeletedCounts(reports + [report]) == DeletedCounts(reports) + [Deleted(report)]
  {
    assert DeletedCounts(reports + [report])[|reports|] == Deleted(report);
  }

  /** A run over drawings that are already clean changes nothing and deletes nothing. */
  lemma {:induction false} RunOnCleanTree(rule: Rules, kinds: seq<string>, root: Node, drawings: seq<string>)
    requires DrawingsClean(rule, kinds, root, drawings)
    ensures Run(rule, kinds, root, drawings).0 == root
    ensures Sum(DeletedCounts(Run(rule, kinds, root, drawings).1)) == 0
    decreases |drawings|
  {
    if |drawings| > 0 {
      var init := drawings[..|drawings| - 1];
      var last := drawings[|drawings| - 1];
      RunOnCleanTree(rule, kinds, root, init);
      var reps := Run(rule, kinds, root, init).1;
      assert DrawingClean(rule, kinds, root, last);
      SweepDrawingCleans(rule, kinds, root, last);
      var rep := SweepDrawing(rule, kinds, root, last).1;
      assert Run(rule, kinds, root, drawings) == (root, reps + [rep]);
      DeletedCountsSnoc(reps, rep);
      SumAppend(DeletedCounts(reps), [0]);
    }
  }

  /** The phase-2 run on a tree, with the file system's removal outcomes: the new
      tree and the per-drawing reports. Every listed drawing ends clean: an empty step
      directory is left only where its removal failed. */
  function Phase2(root: Node, removes: StepTest): (r: (Node, seq<Report>))
    ensures ReportsFor(r.1, EmptyDrawings, root)
    ensures DrawingsClean(StepRules(removes), MediaKinds, r.0, EmptyDrawings)
    ensures forall d {:trigger Child(r.0, d)} :: d !in EmptyDrawings ==> Child(r.0, d) == Child(root, d)
  {
    RunCleans(StepRules(removes), MediaKinds, root, EmptyDrawings);
    Run(StepRules(removes), MediaKinds, root, EmptyDrawings)
  }

  /** In the run's own terms: an entry of a media folder is removed exactly when it
      is a step entry (a `step_*` name whose path does not mention `overview`), it is
      an empty directory, and `rmtree` succeeds on it. */
  lemma SweepFolderRule(removes: StepTest, drawing: string, kind: string, entries: seq<Named>)
    ensures forall e :: e in SweepFolder(StepRules(removes)(drawing)(kind), entries).kept <==>
              e in entries && !(IsStepEntry(drawing, kind, e) && e.node == Dir([]) && removes(drawing)(kind)(e))
  {
    var rule := StepRules(removes)(drawing)(kind);
    SweepFolderKeeps(rule, entries);
    forall e: Named
      ensures Removable(rule)(e) <==> IsStepEntry(drawing, kind, e) && e.node == Dir([]) && removes(drawing)(kind)(e)
    {
      assert rule.isStep(e) == IsStepEntry(drawing, kind, e);
      assert rule.removes(e) == removes(drawing)(kind)(e);
    }
  }

  /** Kinds are clean together exactly when each kind's folder is clean. */
  lemma {:induction false} KindsCleanAll(rule: string -> Rule, node: Node, kinds: seq<string>)
    ensures KindsClean(rule, node, kinds) <==>
            forall i :: 0 <= i < |kinds| ==> FolderClean(rule(kinds[i]), Child(node, kinds[i]))
    decreases |kinds|
  {
    if |kinds| > 0 {
      KindsCleanAll(rule, node, kinds[..|kinds| - 1]);
    }
  }

  /** Drawings are clean together exactly when each drawing is clean. */
  lemma {:induction false} DrawingsCleanAll(rule: Rules, kinds: seq<string>, root: Node, drawings: seq<string>)
    ensures DrawingsClean(rule, kinds, root, drawings) <==>
            forall i :: 0 <= i < |drawings| ==> DrawingClean(rule, kinds, root, drawings[i])
    decreases |drawings|
  {
    if |drawings| > 0 {
      DrawingsCleanAll(rule, kinds, root, drawings[..|drawings| - 1]);
    }
  }

  /** A file system on which every `rmtree` succeeds. */
  function AlwaysRemoves(): StepTest {
    (drawing: string) => (kind: string) => (e: Named) => true
  }

  /** When every removal succeeds, no media folder of a listed drawing keeps an empty
      step directory after the run. */
  lemma Phase2WithoutFailures(root: Node, drawing: string, kind: string, e: Named)
    requires drawing in EmptyDrawings && kind in MediaKinds
    requires var after := Phase2(root, AlwaysRemoves()).0;
             Child(after, drawing).Some? && Child(Child(after, drawing).value, kind).Some?
             && Child(Child(after, drawing).value, kind).value.Dir?
             && e in Child(Child(after, drawing).value, kind).value.entries
    ensures !(IsStepEntry(drawing, kind, e) && e.node == Dir([]))
  {
    var rules := StepRules(AlwaysRemoves());
    var after := Phase2(root, AlwaysRemoves()).0;
    var node := Child(after, drawing).value;
    var entries := Child(node, kind).value.entries;
    DrawingsCleanAll(rules, MediaKinds, after, EmptyDrawings);
    var i :| 0 <= i < |EmptyDrawings| && EmptyDrawings[i] == drawing;
    assert DrawingClean(rules, MediaKinds, after, EmptyDrawings[i]);
    KindsCleanAll(rules(drawing), node, MediaKinds);
    var j :| 0 <= j < |MediaKinds| && MediaKinds[j] == kind;
    assert FolderClean(rules(drawing)(kind), Child(node, MediaKinds[j]));
    FolderCleanIff(rules(drawing)(kind), entries);
    var m :| 0 <= m < |entries| && entries[m] == e;
    assert rules(drawing)(kind).removes(entries[m]);
  }

  /** The total the run prints. */
  function TotalDeleted(reports: seq<Report>): nat {
    Sum(DeletedCounts(reports))
  }

  /** A second run with the same removal outcomes finds nothing to delete and changes
      nothing: what the first run left is either not removable or refuses removal
      again. */
  lemma SecondRunDeletesNothing(root: Node, removes: StepTest)
    ensures Phase2(Phase2(root, removes).0, removes).0 == Phase2(root, removes).0
    ensures TotalDeleted(Phase2(Phase2(root, removes).0, removes).1) == 0
  {
    RunCleans(StepRules(removes), MediaKinds, root, EmptyDrawings);
    RunOnCleanTree(StepRules(removes), MediaKinds, Phase2(root, removes).0, EmptyDrawings);
  }
}
