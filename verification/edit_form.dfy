/** The form state of the drawing editor and the handlers that update it
    (src/hooks/useEditFormHandlers.ts). Each handler maps the current state to the
    next one; a missing form (`null`) is `None` and every handler leaves it `None`.

    `workStepsByMachine` is an optional map from a machine key to that machine's step
    list; a key without a list reads as the empty list. A handler given a machine key
    edits that machine's list only when the map exists, and otherwise falls back to
    the legacy `workSteps` list. The empty string stands for an omitted machine key. */
module EditForm {
  import opened Wrappers
  import opened Strings
  import opened Seqs
  import opened WorkSteps

  datatype NearMiss = NearMiss(title: string, description: string, cause: string,
                               prevention: string, severity: string)

  datatype NearMissField = TitleField | DescriptionField | CauseField | PreventionField | SeverityField

  datatype FormData = FormData(
    drawingNumber: string,
    title: string,
    machineType: seq<string>,
    keywords: seq<string>,
    toolsRequired: seq<string>,
    warnings: seq<string>,
    workSteps: seq<Step>,
    workStepsByMachine: Option<map<string, seq<Step>>>,
    nearMiss: seq<NearMiss>)

  // ---------------------------------------------------------------------------
  // Machine types
  // ---------------------------------------------------------------------------

  function IsNot(machine: string): string -> bool {
    (m: string) => m != machine
  }

  /** The machine-type list after ticking (`checked`) or clearing one checkbox:
      ticking appends, clearing removes every copy. */
  function ToggleMachine(types: seq<string>, machine: string, checked: bool): (r: seq<string>)
    ensures checked ==> r == types + [machine]
    ensures !checked ==> machine !in r && IsSubseq(r, types)
    ensures !checked ==> forall i :: 0 <= i < |types| && types[i] != machine ==> types[i] in r
    ensures !checked ==> |r| == CountIf(IsNot(machine), types)
  {
    if checked then types + [machine]
    else
      FilterIsSubseq(IsNot(machine), types);
      FilterLength(IsNot(machine), types);
      Filter(IsNot(machine), types)
  }

  /** After a toggle the machine is listed exactly when ticked; others are as before. */
  lemma ToggleMembers(types: seq<string>, machine: string, checked: bool)
    ensures machine in ToggleMachine(types, machine, checked) <==> checked
    ensures forall m :: m != machine ==> (m in ToggleMachine(types, machine, checked) <==> m in types)
  {
    if !checked {
      forall m | m != machine ensures m in ToggleMachine(types, machine, checked) <==> m in types {
        FilterMember(IsNot(machine), types, m);
      }
    }
  }

  /** Ticking a machine that was not ticked and then clearing it restores the list. */
  lemma {:induction false} ToggleOnOff(types: seq<string>, machine: string)
    requires machine !in types
    ensures ToggleMachine(ToggleMachine(types, machine, true), machine, false) == types
  {
    var f := IsNot(machine);
    assert forall i :: 0 <= i < |types| ==> f(types[i]);
    FilterAll(f, types);
    var t := types + [machine];
    assert t[..|t| - 1] == types;
  }

  /** `handleMachineTypeChange`: afterwards the machine is listed exactly when its box
      was ticked, every other machine is listed as before, and nothing else changes. */
  function MachineTypeChange(form: Option<FormData>, machine: string, checked: bool): (r: Option<FormData>)
    ensures r.Some? <==> form.Some?
    ensures r.Some? ==> (machine in r.value.machineType <==> checked)
    ensures r.Some? ==> forall m :: m != machine ==> (m in r.value.machineType <==> m in form.value.machineType)
    ensures r.Some? ==> r.value.(machineType := form.value.machineType) == form.value
  {
    ToggleMembers(if form.Some? then form.value.machineType else [], machine, checked);
    if form.None? then None
    else Some(form.value.(machineType := ToggleMachine(form.value.machineType, machine, checked)))
  }

  // ---------------------------------------------------------------------------
  // Comma-separated lists
  // ---------------------------------------------------------------------------

  predicate IsNonEmpty(s: string) { s != "" }

  /** Neither starts nor ends with whitespace. */
  predicate IsTrimmed(s: string) {
    |s| > 0 ==> !IsWs(s[0]) && !IsWs(s[|s| - 1])
  }

  function TrimAll(parts: seq<string>): (r: seq<string>)
    ensures |r| == |parts|
    ensures forall i :: 0 <= i < |parts| ==> r[i] == Trim(parts[i])
  {
    seq(|parts|, i requires 0 <= i < |parts| => Trim(parts[i]))
  }

  /** `text.split(',').map(k => k.trim()).filter(k => k)`: the keywords and the tool
      list are read this way. */
  function ParseList(text: string): (r: seq<string>)
    ensures forall i :: 0 <= i < |r| ==> r[i] != "" && IsTrimmed(r[i])
    ensures |r| <= |Split(text, ',')|
  {
    Filter(IsNonEmpty, TrimAll(Split(text, ',')))
  }

  /** Every parsed entry occurs in the typed text and holds no comma. */
  lemma ParseListEntries(text: string)
    ensures forall i :: 0 <= i < |ParseList(text)| ==> Contains(text, ParseList(text)[i]) && ',' !in ParseList(text)[i]
  {
    var parts := Split(text, ',');
    var trimmed := TrimAll(parts);
    var r := ParseList(text);
    forall i | 0 <= i < |r|
      ensures Contains(text, r[i]) && ',' !in r[i]
    {
      var j :| 0 <= j < |trimmed| && trimmed[j] == r[i];
      TrimIsInfix(parts[j]);
      JoinSplit(text, ',');
      JoinPartIsInfix(parts, [','], j);
      InfixTransitive(text, parts[j], r[i]);
      InfixChars(parts[j], r[i], ',');
    }
  }

  /** A character missing from a text is missing from everything occurring in it. */
  lemma InfixChars(m: string, p: string, c: char)
    requires Contains(m, p) && c !in m
    ensures c !in p
  {
    ContainsSpec(m, p);
    var i :| OccursAt(m, p, i);
    assert forall k :: 0 <= k < |p| ==> p[k] == m[i + k];
  }

  /** A trimmed text occurs in the text it was trimmed from. */
  lemma TrimIsInfix(s: string)
    ensures Contains(s, Trim(s))
  {
    var a := TrimStart(s);
    var t := Trim(s);
    ContainsSpec(s, t);
    assert OccursAt(s, t, |s| - |a|);
  }

  /** Every part of a join occurs in the joined text. */
  lemma {:induction false} JoinPartIsInfix(parts: seq<string>, sep: string, j: nat)
    requires j < |parts|
    ensures Contains(Join(parts, sep), parts[j])
    decreases |parts|
  {
    if |parts| == 1 {
      ContainsSelf(parts[0]);
    } else if j == 0 {
      ContainsInfix("", parts[0], sep + Join(parts[1..], sep));
      assert "" + parts[0] + (sep + Join(parts[1..], sep)) == Join(parts, sep);
    } else {
      JoinPartIsInfix(parts[1..], sep, j - 1);
      ContainsExtend(parts[0] + sep, Join(parts[1..], sep), parts[j]);
    }
  }

  /** Text in front keeps an occurrence. */
  lemma ContainsExtend(a: string, b: string, p: string)
    requires Contains(b, p)
    ensures Contains(a + b, p)
  {
    ContainsSpec(b, p);
    var i :| OccursAt(b, p, i);
    assert (a + b)[|a| + i..|a| + i + |p|] == b[i..i + |p|];
    assert OccursAt(a + b, p, |a| + i);
    ContainsSpec(a + b, p);
  }

  lemma InfixTransitive(s: string, m: string, p: string)
    requires Contains(s, m) && Contains(m, p)
    ensures Contains(s, p)
  {
    ContainsSpec(s, m);
    ContainsSpec(m, p);
    var i :| OccursAt(s, m, i);
    var j :| OccursAt(m, p, j);
    assert forall k :: 0 <= k < |p| ==> p[k] == m[j + k] == s[i + j + k];
    assert s[i + j..i + j + |p|] == p;
    assert OccursAt(s, p, i + j);
    ContainsSpec(s, p);
  }

  /** `" " + y` for every element. */
  function Spaced(ys: seq<string>): (r: seq<string>)
    ensures |r| == |ys|
    ensures forall i :: 0 <= i < |ys| ==> r[i] == " " + ys[i]
  {
    seq(|ys|, i requires 0 <= i < |ys| => " " + ys[i])
  }

  lemma {:induction false} JoinSpaced(ys: seq<string>)
    requires |ys| >= 1
    ensures Join(Spaced(ys), ",") == " " + Join(ys, ", ")
    decreases |ys|
  {
    if |ys| > 1 {
      JoinSpaced(ys[1..]);
      assert Spaced(ys)[1..] == Spaced(ys[1..]);
    }
  }

  /** The parts `split(',')` finds in `xs.join(', ')`: the first entry, then every
      other entry after a space. */
  function JoinedParts(xs: seq<string>): (r: seq<string>)
    requires |xs| >= 1
    ensures |r| == |xs| && r[0] == xs[0]
    ensures forall i :: 1 <= i < |xs| ==> r[i] == " " + xs[i]
  {
    [xs[0]] + Spaced(xs[1..])
  }

  lemma JoinedPartsJoin(xs: seq<string>)
    requires |xs| >= 1
    ensures Join(JoinedParts(xs), ",") == Join(xs, ", ")
  {
    var parts := JoinedParts(xs);
    if |xs| > 1 {
      var tail := Join(xs[1..], ", ");
      JoinCons(parts, ",");
      JoinCons(xs, ", ");
      assert parts[1..] == Spaced(xs[1..]);
      JoinSpaced(xs[1..]);
      CommaSpace(xs[0], tail);
    }
  }

  lemma JoinCons(parts: seq<string>, sep: string)
    requires |parts| >= 2
    ensures Join(parts, sep) == parts[0] + sep + Join(parts[1..], sep)
  {
  }

  lemma CommaSpace(a: string, t: string)
    ensures a + "," + (" " + t) == a + ", " + t
  {
  }

  lemma JoinedPartsNoComma(xs: seq<string>)
    requires |xs| >= 1
    requires forall i :: 0 <= i < |xs| ==> ',' !in xs[i]
    ensures forall i :: 0 <= i < |JoinedParts(xs)| ==> ',' !in JoinedParts(xs)[i]
  {
    var parts := JoinedParts(xs);
    forall i | 1 <= i < |parts|
      ensures ',' !in parts[i]
    {
      var p := parts[i];
      assert p == " " + xs[i];
      assert forall k :: 1 <= k < |p| ==> p[k] == xs[i][k - 1];
    }
  }

  lemma JoinedPartsTrim(xs: seq<string>)
    requires |xs| >= 1
    requires forall i :: 0 <= i < |xs| ==> xs[i] != "" && IsTrimmed(xs[i])
    ensures TrimAll(JoinedParts(xs)) == xs
  {
    var parts := JoinedParts(xs);
    forall i | 0 <= i < |parts|
      ensures Trim(parts[i]) == xs[i]
    {
      if i > 0 { TrimSpaced(xs[i]); } else { TrimNoWs(xs[i]); }
    }
  }

  lemma TrimSpaced(x: string)
    requires x != "" && IsTrimmed(x)
    ensures Trim(" " + x) == x
  {
    assert (" " + x)[1..] == x;
    assert TrimStart(" " + x) == TrimStart(x) == x;
    TrimNoWs(x);
  }

  /** The editor shows a list as `list.join(', ')` and reads the edited text back
      with `ParseList`; for entries that are non-empty, trimmed and comma-free the
      round trip gives the list back. */
  lemma ParseJoinRoundTrip(xs: seq<string>)
    requires forall i :: 0 <= i < |xs| ==> xs[i] != "" && IsTrimmed(xs[i]) && ',' !in xs[i]
    ensures ParseList(Join(xs, ", ")) == xs
  {
    if |xs| == 0 {
      ParseEmptyText();
    } else {
      ParseJoinNonEmpty(xs);
    }
  }

  /** The empty text holds no entries. */
  lemma ParseEmptyText()
    ensures ParseList("") == []
  {
    assert Split("", ',') == [""];
    assert TrimAll([""]) == [""];
    assert Filter(IsNonEmpty, [""]) == [];
  }

  lemma ParseJoinNonEmpty(xs: seq<string>)
    requires |xs| >= 1
    requires forall i :: 0 <= i < |xs| ==> xs[i] != "" && IsTrimmed(xs[i]) && ',' !in xs[i]
    ensures ParseList(Join(xs, ", ")) == xs
  {
    var text := Join(xs, ", ");
    var parts := JoinedParts(xs);
    JoinedPartsJoin(xs);
    JoinedPartsNoComma(xs);
    SplitJoin(parts, ',');
    assert Split(text, ',') == parts;
    JoinedPartsTrim(xs);
    FilterAll(IsNonEmpty, xs);
    assert ParseList(text) == Filter(IsNonEmpty, TrimAll(parts));
  }

  /** A parsed list is shown again as `join(', ')`: reading that text back gives the
      same list, so showing and re-reading the field is stable. */
  lemma ParseListStable(text: string)
    ensures ParseList(Join(ParseList(text), ", ")) == ParseList(text)
  {
    ParseListEntries(text);
    ParseJoinRoundTrip(ParseList(text));
  }

  /** `handleKeywordsChange`: only the keywords change; each is a non-empty trimmed
      piece of the typed text, and the field shown as `join(', ')` reads back to the
      same keywords. */
  function KeywordsChange(form: Option<FormData>, text: string): (r: Option<FormData>)
    ensures r.Some? <==> form.Some?
    ensures r.Some? ==> r.value.(keywords := form.value.keywords) == form.value
    ensures r.Some? ==> forall i :: 0 <= i < |r.value.keywords| ==>
              r.value.keywords[i] != "" && IsTrimmed(r.value.keywords[i]) && Contains(text, r.value.keywords[i])
    ensures r.Some? ==> ParseList(Join(r.value.keywords, ", ")) == r.value.keywords
  {
    ParseListEntries(text);
    ParseListStable(text);
    if form.None? then None else Some(form.value.(keywords := ParseList(text)))
  }

  /** `handleToolsRequiredChange`, read like the keywords. */
  function ToolsRequiredChange(form: Option<FormData>, text: string): (r: Option<FormData>)
    ensures r.Some? <==> form.Some?
    ensures r.Some? ==> r.value.(toolsRequired := form.value.toolsRequired) == form.value
    ensures r.Some? ==> forall i :: 0 <= i < |r.value.toolsRequired| ==>
              r.value.toolsRequired[i] != "" && IsTrimmed(r.value.toolsRequired[i])
              && Contains(text, r.value.toolsRequired[i])
    ensures r.Some? ==> ParseList(Join(r.value.toolsRequired, ", ")) == r.value.toolsRequired
  {
    ParseListEntries(text);
    ParseListStable(text);
    if form.None? then None else Some(form.value.(toolsRequired := ParseList(text)))
  }

  // ---------------------------------------------------------------------------
  // Overview warnings
  // ---------------------------------------------------------------------------

  /** `handleWarningChange`, `addWarning` and `removeWarning`: a list edit on the
      overview's warnings. */
  function WarningEdit(form: Option<FormData>, e: ListEdit): (r: Option<FormData>)
    requires form.Some? ==> Applicable(form.value.warnings, e)
    ensures r.Some? <==> form.Some?
    ensures r.Some? ==> r.value.(warnings := form.value.warnings) == form.value
    ensures r.Some? ==> r.value.warnings == ApplyListEdit(form.value.warnings, e)
  {
    if form.None? then None else Some(form.value.(warnings := ApplyListEdit(form.value.warnings, e)))
  }

  /** Adding a warning line and removing it again gives the form back. */
  lemma WarningAddThenRemove(form: FormData)
    ensures WarningEdit(WarningEdit(Some(form), AppendBlank), RemoveItem(|form.warnings|)) == Some(form)
  {
    AppendThenRemove(form.warnings);
  }

  // ---------------------------------------------------------------------------
  // Work steps
  // ---------------------------------------------------------------------------

  /** The edit goes to a machine's own list. */
  predicate UsesMachineList(form: FormData, machine: string) {
    machine != "" && form.workStepsByMachine.Some?
  }

  /** The list a step handler edits: `workStepsByMachine[machine] || []`, or the
      legacy list. */
  function TargetSteps(form: FormData, machine: string): (r: seq<Step>)
    ensures !UsesMachineList(form, machine) ==> r == form.workSteps
  {
    if UsesMachineList(form, machine) then
      var m := form.workStepsByMachine.value;
      if machine in m then m[machine] else []
    else form.workSteps
  }

  /** Stores the edited list where `TargetSteps` read it. */
  function WithSteps(form: FormData, machine: string, steps: seq<Step>): (r: FormData)
    ensures TargetSteps(r, machine) == steps
    ensures !UsesMachineList(form, machine) ==> r == form.(workSteps := steps)
    ensures UsesMachineList(form, machine) ==>
              r.workSteps == form.workSteps && r.workStepsByMachine.Some? &&
              (forall k :: k != machine && k in form.workStepsByMachine.value ==>
                 k in r.workStepsByMachine.value && r.workStepsByMachine.value[k] == form.workStepsByMachine.value[k])
  {
    if UsesMachineList(form, machine) then
      form.(workStepsByMachine := Some(form.workStepsByMachine.value[machine := steps]))
    else form.(workSteps := steps)
  }

  /** `addWorkStep`: a blank step numbered one past the list's length. */
  function AddWorkStep(form: Option<FormData>, machine: string): (r: Option<FormData>)
    ensures r.Some? <==> form.Some?
    ensures r.Some? ==> var before := TargetSteps(form.value, machine);
              TargetSteps(r.value, machine) == before + [BlankStep(|before| + 1)]
    ensures r.Some? ==> r.value == WithSteps(form.value, machine, TargetSteps(r.value, machine))
  {
    if form.None? then None
    else
      var steps := TargetSteps(form.value, machine);
      Some(WithSteps(form.value, machine, steps + [BlankStep(|steps| + 1)]))
  }

  /** Adding a step to a numbered list keeps it numbered. */
  lemma AddKeepsNumbered(form: FormData, machine: string)
    requires Numbered(TargetSteps(form, machine))
    ensures Numbered(TargetSteps(AddWorkStep(Some(form), machine).value, machine))
  {
  }

  /** `updateWorkStep`: the step at `index` is replaced as given, its number included;
      the list is not renumbered. */
  function UpdateWorkStep(form: Option<FormData>, index: nat, step: Step, machine: string): (r: Option<FormData>)
    requires form.Some? ==> index < |TargetSteps(form.value, machine)|
    ensures r.Some? <==> form.Some?
    ensures r.Some? ==> var before := TargetSteps(form.value, machine);
              var now := TargetSteps(r.value, machine);
              |now| == |before| && now[index] == step &&
              forall j :: 0 <= j < |before| && j != index ==> now[j] == before[j]
    ensures r.Some? ==> r.value == WithSteps(form.value, machine, TargetSteps(r.value, machine))
  {
    if form.None? then None
    else
      var steps := TargetSteps(form.value, machine);
      Some(WithSteps(form.value, machine, steps[index := step]))
  }

  /** `deleteWorkStep`: `splice(index, 1)`, then renumbering. */
  function DeleteWorkStep(form: Option<FormData>, index: int, machine: string): (r: Option<FormData>)
    ensures r.Some? <==> form.Some?
    ensures r.Some? ==> var before := TargetSteps(form.value, machine);
              var now := TargetSteps(r.value, machine);
              Numbered(now) && Contents(now) == Contents(SpliceRemove(before, index)) &&
              |now| == (if SliceBound(index, |before|) < |before| then |before| - 1 else |before|)
    ensures r.Some? ==> r.value == WithSteps(form.value, machine, TargetSteps(r.value, machine))
  {
    if form.None? then None
    else
      var steps := TargetSteps(form.value, machine);
      Some(WithSteps(form.value, machine, Renumber(SpliceRemove(steps, index))))
  }

  /** Deleting the step just added gives back a numbered list unchanged. */
  lemma AddThenDelete(form: FormData, machine: string)
    requires Numbered(TargetSteps(form, machine))
    ensures var before := TargetSteps(form, machine);
            TargetSteps(DeleteWorkStep(AddWorkStep(Some(form), machine), |before|, machine).value, machine) == before
  {
    var before := TargetSteps(form, machine);
    var added := TargetSteps(AddWorkStep(Some(form), machine).value, machine);
    assert SpliceRemove(added, |before|) == before;
    RenumberNumbered(before);
  }

  /** `moveWorkStep`: the step at `from` is taken out and inserted at `to`, then the
      list is renumbered. The caller moves only existing steps. */
  function MoveWorkStep(form: Option<FormData>, from: nat, to: int, machine: string): (r: Option<FormData>)
    requires form.Some? ==> from < |TargetSteps(form.value, machine)|
    ensures r.Some? <==> form.Some?
    ensures r.Some? ==> var before := TargetSteps(form.value, machine);
              var now := TargetSteps(r.value, machine);
              |now| == |before| && Numbered(now) &&
              Content(now[SliceBound(to, |before| - 1)]) == Content(before[from])
    ensures r.Some? ==> r.value == WithSteps(form.value, machine, TargetSteps(r.value, machine))
  {
    if form.None? then None
    else
      var steps := TargetSteps(form.value, machine);
      Some(WithSteps(form.value, machine, Renumber(MoveItem(steps, from, to))))
  }

  /** A move is a permutation of the steps' contents, and moving back restores a
      numbered list. */
  lemma MovePermutes(form: FormData, from: nat, to: int, machine: string)
    requires from < |TargetSteps(form, machine)|
    ensures var before := TargetSteps(form, machine);
            multiset(Contents(TargetSteps(MoveWorkStep(Some(form), from, to, machine).value, machine))) ==
            multiset(Contents(before))
  {
    var before := TargetSteps(form, machine);
    ContentsMove(before, from, to);
    MoveItemPermutes(Contents(before), from, to);
  }

  lemma MoveBack(form: FormData, from: nat, to: nat, machine: string)
    requires from < |TargetSteps(form, machine)| && to < |TargetSteps(form, machine)|
    requires Numbered(TargetSteps(form, machine))
    ensures var moved := MoveWorkStep(Some(form), from, to, machine);
            TargetSteps(MoveWorkStep(moved, to, from, machine).value, machine) == TargetSteps(form, machine)
  {
    var before := TargetSteps(form, machine);
    var m1 := Renumber(MoveItem(before, from, to));
    var m2 := Renumber(MoveItem(m1, to, from));
    ContentsMove(before, from, to);
    ContentsMove(m1, to, from);
    MoveItemBack(Contents(before), from, to);
    assert Contents(m2) == MoveItem(Contents(m1), to, from);
    assert Contents(m1) == MoveItem(Contents(before), from, to);
    NumberedContentsEqual(m2, before);
  }

  /** With no per-machine map, a machine key is ignored and the legacy list is
      edited. */
  lemma LegacyFallback(form: FormData, machine: string)
    requires form.workStepsByMachine.None?
    ensures AddWorkStep(Some(form), machine) == AddWorkStep(Some(form), "")
  {
  }

  // ---------------------------------------------------------------------------
  // Near misses
  // ---------------------------------------------------------------------------

  /** The text of one field of a near miss. */
  function FieldOf(item: NearMiss, field: NearMissField): string {
    match field
    case TitleField => item.title
    case DescriptionField => item.description
    case CauseField => item.cause
    case PreventionField => item.prevention
    case SeverityField => item.severity
  }

  /** `{ ...item, [field]: value }`: the field reads back as the value and every other
      field reads as before. */
  function SetNearMissField(item: NearMiss, field: NearMissField, value: string): (r: NearMiss)
    ensures FieldOf(r, field) == value
    ensures forall f :: f != field ==> FieldOf(r, f) == FieldOf(item, f)
  {
    match field
    case TitleField => item.(title := value)
    case DescriptionField => item.(description := value)
    case CauseField => item.(cause := value)
    case PreventionField => item.(prevention := value)
    case SeverityField => item.(severity := value)
  }

  const BlankNearMiss: NearMiss := NearMiss("", "", "", "", "low")

  /** `handleNearMissChange`: one field of one existing entry. */
  function NearMissChange(form: Option<FormData>, index: nat, field: NearMissField, value: string): (r: Option<FormData>)
    requires form.Some? ==> index < |form.value.nearMiss|
    ensures r.Some? <==> form.Some?
    ensures r.Some? ==> (|r.value.nearMiss| == |form.value.nearMiss| &&
              r.value.nearMiss[index] == SetNearMissField(form.value.nearMiss[index], field, value) &&
              forall j :: 0 <= j < |form.value.nearMiss| && j != index ==> r.value.nearMiss[j] == form.value.nearMiss[j])
    ensures r.Some? ==> r.value.(nearMiss := form.value.nearMiss) == form.value
  {
    if form.None? then None
    else
      var items := form.value.nearMiss;
      Some(form.value.(nearMiss := items[index := SetNearMissField(items[index], field, value)]))
  }

  /** `addNearMiss`: a blank entry of severity `low`. */
  function AddNearMiss(form: Option<FormData>): (r: Option<FormData>)
    ensures r.Some? <==> form.Some?
    ensures r.Some? ==> r.value.nearMiss == form.value.nearMiss + [BlankNearMiss]
    ensures r.Some? ==> r.value.(nearMiss := form.value.nearMiss) == form.value
  {
    if form.None? then None else Some(form.value.(nearMiss := form.value.nearMiss + [BlankNearMiss]))
  }

  /** `removeNearMiss`: drops the entry at `index`; any other index changes nothing. */
  function RemoveNearMiss(form: Option<FormData>, index: int): (r: Option<FormData>)
    ensures r.Some? <==> form.Some?
    ensures r.Some? ==> r.value.nearMiss == RemoveAt(form.value.nearMiss, index)
    ensures r.Some? ==> r.value.(nearMiss := form.value.nearMiss) == form.value
  {
    if form.None? then None else Some(form.value.(nearMiss := RemoveAt(form.value.nearMiss, index)))
  }

  lemma AddThenRemoveNearMiss(form: FormData)
    ensures RemoveNearMiss(AddNearMiss(Some(form)), |form.nearMiss|) == Some(form)
  {
    var items := form.nearMiss + [BlankNearMiss];
    assert items[..|form.nearMiss|] == form.nearMiss;
    assert items[|form.nearMiss| + 1..] == [];
    assert RemoveAt(items, |form.nearMiss|) == form.nearMiss;
  }
}
