/** The work step of an instruction, as the admin editor holds it, and the list edits
    the editor applies to a step's text lists and to a list of steps
    (src/hooks/useEditFormHandlers.ts, src/components/admin/WorkStepEditor.tsx).
    A list field the source may leave undefined (`step.tools || []`) is an empty
    sequence here. */
module WorkSteps {
  import opened Seqs

  datatype Step = Step(
    stepNumber: int,
    title: string,
    description: string,
    detailedInstructions: seq<string>,
    timeRequired: string,
    warningLevel: string,
    tools: seq<string>,
    notes: seq<string>,
    qualityItems: seq<string>)

  /** The step `addWorkStep` appends: everything blank, one empty instruction line,
      warning level `normal`. */
  function BlankStep(stepNumber: int): (s: Step)
    ensures s.stepNumber == stepNumber && s.warningLevel == "normal"
    ensures s.detailedInstructions == [""] && s.tools == [] && s.notes == []
  {
    Step(stepNumber, "", "", [""], "", "normal", [], [], [])
  }

  // ---------------------------------------------------------------------------
  // Step numbers
  // ---------------------------------------------------------------------------

  /** The steps are numbered 1, 2, 3, ... in list order. */
  predicate Numbered(steps: seq<Step>) {
    forall i :: 0 <= i < |steps| ==> steps[i].stepNumber == i + 1
  }

  /** A step without its number: what a move or a delete must keep. */
  function Content(s: Step): Step {
    s.(stepNumber := 0)
  }

  function Contents(steps: seq<Step>): (r: seq<Step>)
    ensures |r| == |steps|
    ensures forall i :: 0 <= i < |steps| ==> r[i] == Content(steps[i])
  {
    seq(|steps|, i requires 0 <= i < |steps| => Content(steps[i]))
  }

  /** `steps.map((step, i) => ({ ...step, stepNumber: i + 1 }))`. */
  function Renumber(steps: seq<Step>): (r: seq<Step>)
    ensures |r| == |steps| && Numbered(r)
    ensures Contents(r) == Contents(steps)
  {
    seq(|steps|, i requires 0 <= i < |steps| => steps[i].(stepNumber := i + 1))
  }

  /** Two lists with the same contents and both numbered are equal. */
  lemma NumberedContentsEqual(a: seq<Step>, b: seq<Step>)
    requires Numbered(a) && Numbered(b) && Contents(a) == Contents(b)
    ensures a == b
  {
    assert forall i :: 0 <= i < |a| ==> Content(a[i]) == Content(b[i]);
  }

  /** Renumbering a list that is already numbered changes nothing. */
  lemma RenumberNumbered(steps: seq<Step>)
    requires Numbered(steps)
    ensures Renumber(steps) == steps
  {
    NumberedContentsEqual(Renumber(steps), steps);
  }

  lemma ContentsAppend(a: seq<Step>, b: seq<Step>)
    ensures Contents(a + b) == Contents(a) + Contents(b)
  {
  }

  lemma ContentsSlice(s: seq<Step>, lo: nat, hi: nat)
    requires lo <= hi <= |s|
    ensures Contents(s[lo..hi]) == Contents(s)[lo..hi]
  {
  }

  /** Taking contents commutes with removing a position and with moving an element. */
  lemma ContentsRemoveAt(s: seq<Step>, i: int)
    ensures Contents(RemoveAt(s, i)) == RemoveAt(Contents(s), i)
  {
    if 0 <= i < |s| {
      ContentsAppend(s[..i], s[i + 1..]);
      ContentsSlice(s, 0, i);
      ContentsSlice(s, i + 1, |s|);
    }
  }

  lemma ContentsMove(s: seq<Step>, from: nat, to: int)
    requires from < |s|
    ensures Contents(MoveItem(s, from, to)) == MoveItem(Contents(s), from, to)
  {
    ContentsRemoveAt(s, from);
    ContentsSpliceInsert(RemoveAt(s, from), to, s[from]);
  }

  lemma ContentsSpliceInsert(rest: seq<Step>, to: int, x: Step)
    ensures Contents(SpliceInsert(rest, to, x)) == SpliceInsert(Contents(rest), to, Content(x))
  {
    var k := SliceBound(to, |rest|);
    var moved := SpliceInsert(rest, to, x);
    var c := Contents(rest);
    var lhs, rhs := Contents(moved), SpliceInsert(c, to, Content(x));
    assert SliceBound(to, |c|) == k;
    forall i | 0 <= i < |lhs| ensures lhs[i] == rhs[i] {
      if i < k {
        assert moved[i] == rest[i] && rhs[i] == c[i];
      } else if i == k {
        assert moved[i] == x && rhs[i] == Content(x);
      } else {
        assert moved[i] == rest[i - 1] && rhs[i] == c[i - 1];
      }
    }
  }

  // ---------------------------------------------------------------------------
  // Text-list edits
  // ---------------------------------------------------------------------------

  /** The three edits every text list of the editor offers: change the i-th line,
      drop the i-th line (`filter((_, idx) => idx !== i)`), append an empty line. */
  datatype ListEdit = SetItem(index: nat, value: string) | RemoveItem(at: int) | AppendBlank

  /** An edit the list can take: a line is only changed where it exists. */
  predicate Applicable(list: seq<string>, e: ListEdit) {
    e.SetItem? ==> e.index < |list|
  }

  function ApplyListEdit(list: seq<string>, e: ListEdit): (r: seq<string>)
    requires Applicable(list, e)
    ensures e.SetItem? ==> |r| == |list| && r[e.index] == e.value
    ensures e.SetItem? ==> forall j :: 0 <= j < |list| && j != e.index ==> r[j] == list[j]
    ensures e.RemoveItem? && 0 <= e.at < |list| ==> |r| == |list| - 1 && r == list[..e.at] + list[e.at + 1..]
    ensures e.RemoveItem? && !(0 <= e.at < |list|) ==> r == list
    ensures e.AppendBlank? ==> |r| == |list| + 1 && r[..|list|] == list && r[|list|] == ""
  {
    match e
    case SetItem(i, v) => SetAt(list, i, v)
    case RemoveItem(i) => RemoveAt(list, i)
    case AppendBlank => list + [""]
  }

  /** Appending a line and removing it again restores the list. */
  lemma AppendThenRemove(list: seq<string>)
    ensures ApplyListEdit(ApplyListEdit(list, AppendBlank), RemoveItem(|list|)) == list
  {
  }

  /** Setting a line to its own value changes nothing. */
  lemma SetSameValue(list: seq<string>, i: nat)
    requires i < |list|
    ensures ApplyListEdit(list, SetItem(i, list[i])) == list
  {
  }
}
