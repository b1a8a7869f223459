/** The troubleshooting guide of the home page (src/app/page.tsx): the user picks a
    category, then a problem, then details down the advice tree until a node with
    advice is reached; the advice is then shown localised
    (src/components/TroubleshootingResults.tsx). The advice data and the diagnosis
    context builder are not part of this model: the data is an input, and a context
    is represented by the selection path it was built from. */
module Troubleshooting {
  import opened Wrappers
  import opened Strings
  import opened Seqs
  import opened Translation

  datatype AdviceItem = AdviceItem(title: string, description: string, detail: string)

  /** The advice of a leaf; only the fields the results page rewrites are kept apart
      from the image. */
  datatype Advice = Advice(title: string, text: string, items: Option<seq<AdviceItem>>, image: string)

  /** A node of the advice tree. A missing `children` differs from an empty list: the
      empty list is truthy and stops the search below. */
  datatype AdviceNode = AdviceNode(
    id: string,
    caption: string,
    category: string,
    children: Option<seq<AdviceNode>>,
    advice: Option<Advice>)

  datatype CategoryOption = CategoryOption(id: string, caption: string, icon: string, description: string)

  datatype AdviceData = AdviceData(
    mainCategories: seq<CategoryOption>,
    otherCategory: CategoryOption,
    problems: seq<AdviceNode>)

  /** An option on screen: a category or a node. */
  datatype Choice = CategoryChoice(category: CategoryOption) | NodeChoice(node: AdviceNode) {
    function Id(): string {
      match this
      case CategoryChoice(c) => c.id
      case NodeChoice(n) => n.id
    }
  }

  // ---------------------------------------------------------------------------
  // Tree lookup
  // ---------------------------------------------------------------------------

  /** `findNodeByPath`: walks the path down the tree. At each level the first node with
      the id is taken when the path ends there or when it has a `children` list (even
      an empty one), and the search continues below it; a node with the id but no
      list is skipped. */
  function FindNodeByPath(nodes: seq<AdviceNode>, path: seq<string>): (r: Option<AdviceNode>)
    ensures |path| == 0 ==> r.None?
    ensures r.Some? ==> |path| > 0 && r.value.id == path[|path| - 1]
    decreases |path|, |nodes|
  {
    if |path| == 0 || |nodes| == 0 then None
    else if nodes[0].id == path[0] && |path| == 1 then Some(nodes[0])
    else if nodes[0].id == path[0] && nodes[0].children.Some? then FindNodeByPath(nodes[0].children.value, path[1..])
    else FindNodeByPath(nodes[1..], path)
  }

  /** The node a level commits to: the id matches, and the path ends there or the node
      has a list of children. */
  function Commits(path: seq<string>): AdviceNode -> bool
    requires |path| > 0
  {
    (n: AdviceNode) => n.id == path[0] && (|path| == 1 || n.children.Some?)
  }

  /** The lookup is the first committing node of the level, followed down its
      children: a later node with the same id is never tried once one commits. */
  lemma {:induction false} FindNodeByPathFirstCommit(nodes: seq<AdviceNode>, path: seq<string>)
    requires |path| > 0
    ensures var k := FindIndex(Commits(path), nodes);
            FindNodeByPath(nodes, path) ==
              if k < 0 then None
              else if |path| == 1 then Some(nodes[k])
              else FindNodeByPath(nodes[k].children.value, path[1..])
    decreases |nodes|
  {
    if |nodes| > 0 && !Commits(path)(nodes[0]) {
      FindNodeByPathFirstCommit(nodes[1..], path);
    }
  }

  /** `path` leads to `n`: at each level some node has the id, and the last one is `n`. */
  predicate Leads(nodes: seq<AdviceNode>, path: seq<string>, n: AdviceNode)
    decreases |path|
  {
    |path| > 0 &&
    exists i :: 0 <= i < |nodes| && nodes[i].id == path[0] &&
      ((|path| == 1 && nodes[i] == n) ||
       (|path| > 1 && nodes[i].children.Some? && Leads(nodes[i].children.value, path[1..], n)))
  }

  /** Whatever the lookup finds really lies along the path. */
  lemma {:induction false} FindNodeByPathSound(nodes: seq<AdviceNode>, path: seq<string>)
    ensures FindNodeByPath(nodes, path).Some? ==> Leads(nodes, path, FindNodeByPath(nodes, path).value)
    decreases |path|, |nodes|
  {
    var r := FindNodeByPath(nodes, path);
    if |path| > 0 && |nodes| > 0 && r.Some? {
      if nodes[0].id == path[0] && |path| == 1 {
        assert nodes[0] == r.value;
      } else if nodes[0].id == path[0] && nodes[0].children.Some? {
        FindNodeByPathSound(nodes[0].children.value, path[1..]);
        assert Leads(nodes[0].children.value, path[1..], r.value);
      } else {
        FindNodeByPathSound(nodes[1..], path);
        var i :| 0 <= i < |nodes[1..]| && nodes[1..][i].id == path[0] &&
          ((|path| == 1 && nodes[1..][i] == r.value) ||
           (|path| > 1 && nodes[1..][i].children.Some? && Leads(nodes[1..][i].children.value, path[1..], r.value)));
        assert nodes[i + 1] == nodes[1..][i];
      }
    }
  }

  // ---------------------------------------------------------------------------
  // Navigation
  // ---------------------------------------------------------------------------

  /** The diagnosis context handed to the results page, built from the path. */
  datatype DiagnosisContext = DiagnosisContext(selectionPath: seq<string>)

  datatype GuideState = GuideState(
    step: nat,
    path: seq<string>,
    advice: Option<Advice>,
    context: Option<DiagnosisContext>)

  const Start: GuideState := GuideState(0, [], None, None)

  /** `getCurrentNode`: the node the path names below its category. */
  function CurrentNode(data: Option<AdviceData>, path: seq<string>): (r: Option<AdviceNode>)
    ensures data.None? || |path| <= 1 ==> r.None?
    ensures r.Some? ==> r.value.id == path[|path| - 1]
  {
    if data.None? || |path| == 0 then None else FindNodeByPath(data.value.problems, path[1..])
  }

  function InCategory(category: string): AdviceNode -> bool {
    (p: AdviceNode) => p.category == category
  }

  function AsChoices(nodes: seq<AdviceNode>): (r: seq<Choice>)
    ensures |r| == |nodes|
    ensures forall i :: 0 <= i < |nodes| ==> r[i] == NodeChoice(nodes[i])
    ensures forall n :: n in nodes ==> NodeChoice(n) in r
  {
    seq(|nodes|, i requires 0 <= i < |nodes| => NodeChoice(nodes[i]))
  }

  /** `getCurrentOptions`: the categories and "other" first, then the problems of the
      chosen category, then the children of the current node. */
  function CurrentOptions(data: Option<AdviceData>, st: GuideState): (r: seq<Choice>)
    ensures data.None? ==> r == []
    ensures data.Some? && st.step == 0 ==>
              |r| == |data.value.mainCategories| + 1 && r[|r| - 1] == CategoryChoice(data.value.otherCategory)
    ensures data.Some? && st.step == 0 ==>
              forall i :: 0 <= i < |data.value.mainCategories| ==> r[i] == CategoryChoice(data.value.mainCategories[i])
    ensures data.Some? && st.step == 1 && |st.path| > 0 ==>
              forall i :: 0 <= i < |r| ==> r[i].NodeChoice? && r[i].node.category == st.path[0] && r[i].node in data.value.problems
    ensures data.Some? && st.step == 1 && |st.path| > 0 ==>
              |r| == CountIf(InCategory(st.path[0]), data.value.problems) &&
              forall p :: p in data.value.problems && p.category == st.path[0] ==> NodeChoice(p) in r
    ensures data.Some? && st.step >= 2 && r != [] ==>
              var n := CurrentNode(data, st.path);
              n.Some? && Leads(data.value.problems, st.path[1..], n.value) && n.value.children.Some? &&
              r == AsChoices(n.value.children.value)
  {
    if data.None? then []
    else if st.step == 0 then
      seq(|data.value.mainCategories|, i requires 0 <= i < |data.value.mainCategories| => CategoryChoice(data.value.mainCategories[i]))
      + [CategoryChoice(data.value.otherCategory)]
    else if st.step == 1 then
      if |st.path| == 0 then []
      else
        FilterLength(InCategory(st.path[0]), data.value.problems);
        AsChoices(Filter(InCategory(st.path[0]), data.value.problems))
    else
      var node := CurrentNode(data, st.path);
      if node.Some? && node.value.children.Some? then
        FindNodeByPathSound(data.value.problems, st.path[1..]);
        AsChoices(node.value.children.value)
      else []
  }

  function IdIs(id: string): AdviceNode -> bool {
    (n: AdviceNode) => n.id == id
  }

  /** `list.find(n => n.id === id)`. */
  function FindById(nodes: seq<AdviceNode>, id: string): (r: Option<AdviceNode>)
    ensures r.None? <==> forall i :: 0 <= i < |nodes| ==> nodes[i].id != id
    ensures r.Some? ==> r.value.id == id && r.value in nodes
    ensures r.Some? ==> exists k :: 0 <= k < |nodes| && nodes[k] == r.value && forall j :: 0 <= j < k ==> nodes[j].id != id
  {
    var k := FindIndex(IdIs(id), nodes);
    if k < 0 then None else Some(nodes[k])
  }

  predicate HasChildren(n: AdviceNode) {
    n.children.Some? && |n.children.value| > 0
  }

  /** The node a choice picks: the first problem with the id on the problem screen,
      the first child with the id of the current node below it. */
  function Selected(data: AdviceData, st: GuideState, id: string): Option<AdviceNode> {
    if st.step == 1 then FindById(data.problems, id)
    else
      var node := CurrentNode(Some(data), st.path);
      if node.Some? && node.value.children.Some? then FindById(node.value.children.value, id) else None
  }

  /** `handleOptionSelect` as written: the id is always appended to the path; a
      category moves to the problems; a problem with children moves one step down,
      one with advice shows it; below that, advice is checked before children. */
  function OptionSelect(data: Option<AdviceData>, st: GuideState, id: string): (r: GuideState)
    ensures data.None? ==> r == st
    ensures data.Some? ==> r.path == st.path + [id]
    ensures data.Some? && st.step == 0 ==> r.step == 1
    ensures data.Some? ==> r.step == st.step || r.step == st.step + 1
    ensures r.advice != st.advice ==> r.context == Some(DiagnosisContext(st.path + [id]))
    ensures data.Some? && st.step > 0 ==>
              var p := Selected(data.value, st, id);
              var shows := p.Some? && p.value.advice.Some? && (st.step > 1 || !HasChildren(p.value));
              (r.step == st.step + 1 <==> p.Some? && HasChildren(p.value) && !shows) &&
              (shows ==> r.advice == p.value.advice && r.context == Some(DiagnosisContext(st.path + [id]))) &&
              (!shows ==> r.advice == st.advice && r.context == st.context)
  {
    if data.None? then st
    else
      var newPath := st.path + [id];
      if st.step == 0 then st.(path := newPath, step := 1)
      else if st.step == 1 then
        var p := Selected(data.value, st, id);
        if p.Some? && HasChildren(p.value) then st.(path := newPath, step := 2)
        else if p.Some? && p.value.advice.Some? then
          st.(path := newPath, context := Some(DiagnosisContext(newPath)), advice := p.value.advice)
        else st.(path := newPath)
      else
        var child := Selected(data.value, st, id);
        if child.Some? && child.value.advice.Some? then
          st.(path := newPath, context := Some(DiagnosisContext(newPath)), advice := child.value.advice)
        else if child.Some? && HasChildren(child.value) then st.(path := newPath, step := st.step + 1)
        else st.(path := newPath)
  }

  /** `handleGoBack`: one step up, dropping the last choice; nothing at the start. */
  function GoBack(st: GuideState): (r: GuideState)
    ensures st.step == 0 ==> r == st
    ensures st.step > 0 ==> r.step == st.step - 1 && r.advice == st.advice && r.context == st.context
    ensures st.step > 0 && |st.path| > 0 ==> r.path == st.path[..|st.path| - 1]
    ensures st.step > 0 && |st.path| == 0 ==> r.path == []
  {
    if st.step > 0 then st.(path := Slice(st.path, 0, -1), step := st.step - 1) else st
  }

  /** `handleRestart`. */
  function Restart(st: GuideState): (r: GuideState)
    ensures r.step == 0 && r.path == [] && r.advice.None? && r.context.None?
  {
    Start
  }

  /** Going back right after a choice always restores the path; the step only comes
      back to where it was when the choice moved down a step. */
  lemma SelectThenBack(data: Option<AdviceData>, st: GuideState, id: string)
    requires data.Some?
    ensures GoBack(OptionSelect(data, st, id)).path == st.path
    ensures OptionSelect(data, st, id).step == st.step + 1 ==> GoBack(OptionSelect(data, st, id)).step == st.step
    ensures OptionSelect(data, st, id).step == st.step && st.step > 0 ==>
              GoBack(OptionSelect(data, st, id)).step == st.step - 1
  {
    var r := OptionSelect(data, st, id);
    assert r.path[..|r.path| - 1] == st.path;
  }

  /** On the browsing screens (no advice shown) the path has one entry per step. */
  predicate InStep(st: GuideState) {
    st.advice.None? ==> |st.path| == st.step
  }

  /** A problem with neither children nor advice, then a problem with children: the
      path keeps the first problem, so the detail screen looks under it and shows no
      options although the second problem has a child. */
  lemma StaleChoiceHidesChildren()
    ensures var leaf := AdviceNode("a", "A", "c", None, None);
            var child := AdviceNode("x", "X", "", None, None);
            var branch := AdviceNode("b", "B", "c", Some([child]), None);
            var data := Some(AdviceData([], CategoryOption("other", "", "", ""), [leaf, branch]));
            var st := GuideState(1, ["c"], None, None);
            var s1 := OptionSelect(data, st, "a");
            var s2 := OptionSelect(data, s1, "b");
            InStep(st) && s1.step == 1 && !InStep(s1)
            && s2.step == 2 && s2.path == ["c", "a", "b"] && CurrentOptions(data, s2) == []
  {
    var leaf := AdviceNode("a", "A", "c", None, None);
    var child := AdviceNode("x", "X", "", None, None);
    var branch := AdviceNode("b", "B", "c", Some([child]), None);
    var problems := [leaf, branch];
    var data := Some(AdviceData([], CategoryOption("other", "", "", ""), problems));
    var st := GuideState(1, ["c"], None, None);
    assert FindIndex(IdIs("a"), problems) == 0;
    assert FindIndex(IdIs("b"), problems) == 1;
    var s1 := OptionSelect(data, st, "a");
    assert s1 == st.(path := ["c", "a"]);
    var s2 := OptionSelect(data, s1, "b");
    assert s2.path == ["c", "a", "b"];
    assert s2.path[1..] == ["a", "b"];
    assert FindNodeByPath(problems, ["a", "b"]) == FindNodeByPath([branch], ["a", "b"]);
    assert FindNodeByPath([branch], ["a", "b"]) == FindNodeByPath([], ["a", "b"]);
  }

  /** The intended selection: a choice that leads nowhere (no advice, no children) is
      not recorded, so the path keeps one entry per step. */
  function CorrectedOptionSelect(data: Option<AdviceData>, st: GuideState, id: string): (r: GuideState)
    ensures data.None? ==> r == st
    ensures InStep(st) ==> InStep(r)
    ensures r != st ==> r.path == st.path + [id]
  {
    var r := OptionSelect(data, st, id);
    if data.Some? && st.step > 0 && r.step == st.step && r.advice == st.advice then st else r
  }

  /** With the corrected selection, going back and restarting also keep one path entry
      per step, so the detail screen always looks up the node the user chose. */
  lemma CorrectedNavigationInStep(data: Option<AdviceData>, st: GuideState, id: string)
    requires InStep(st)
    ensures InStep(CorrectedOptionSelect(data, st, id))
    ensures InStep(GoBack(st))
    ensures InStep(Restart(st))
  {
  }

  // ---------------------------------------------------------------------------
  // Results
  // ---------------------------------------------------------------------------

  /** The problem id: the last choice of the path (`undefined` for an empty one). */
  function ProblemId(ctx: DiagnosisContext): string {
    if |ctx.selectionPath| == 0 then "undefined" else ctx.selectionPath[|ctx.selectionPath| - 1]
  }

  /** `t(key) || original`. */
  function OrOriginal(translated: string, original: string): string {
    if translated != "" then translated else original
  }

  function LocalizeItem(lang: Language, item: AdviceItem, problemId: string): AdviceItem {
    item.(title := OrOriginal(Translate(lang, "problems." + problemId), item.title),
          description := OrOriginal(Translate(lang, "problemDescriptions." + problemId), item.description))
  }

  /** Each item is localised in place: same number, same order, same details. */
  function LocalizeItems(lang: Language, items: seq<AdviceItem>, problemId: string): (r: seq<AdviceItem>)
    ensures |r| == |items|
    ensures forall i :: 0 <= i < |items| ==> r[i] == LocalizeItem(lang, items[i], problemId)
    ensures forall i :: 0 <= i < |items| ==> r[i].detail == items[i].detail
  {
    seq(|items|, i requires 0 <= i < |items| => LocalizeItem(lang, items[i], problemId))
  }

  /** `getLocalizedAdvice`: each text is `t(key) || original`. */
  function LocalizedAdvice(lang: Language, advice: Advice, ctx: DiagnosisContext): (r: Advice)
    ensures r.image == advice.image
    ensures r.items.Some? <==> advice.items.Some?
    ensures r.items.Some? ==> |r.items.value| == |advice.items.value|
  {
    var id := ProblemId(ctx);
    var title := Translate(lang, "adviceTitle." + id);
    var text := Translate(lang, "adviceText." + id);
    advice.(title := OrOriginal(title, advice.title),
            text := OrOriginal(text, advice.text),
            items := if advice.items.Some? then Some(LocalizeItems(lang, advice.items.value, id)) else None)
  }

  /** The keys are never empty, so the original texts are never shown: the localised
      title, text and item texts are the translations (or the keys themselves)
      whatever the advice says. */
  lemma OriginalsNeverShown(lang: Language, advice: Advice, ctx: DiagnosisContext)
    ensures LocalizedAdvice(lang, advice, ctx).title == Translate(lang, "adviceTitle." + ProblemId(ctx))
    ensures LocalizedAdvice(lang, advice, ctx).text == Translate(lang, "adviceText." + ProblemId(ctx))
    ensures advice.items.Some? ==>
              forall i :: 0 <= i < |advice.items.value| ==>
                LocalizedAdvice(lang, advice, ctx).items.value[i].title == Translate(lang, "problems." + ProblemId(ctx))
                && LocalizedAdvice(lang, advice, ctx).items.value[i].description == Translate(lang, "problemDescriptions." + ProblemId(ctx))
  {
    var id := ProblemId(ctx);
    TranslateNonEmpty(lang, "adviceTitle." + id);
    TranslateNonEmpty(lang, "adviceText." + id);
    TranslateNonEmpty(lang, "problems." + id);
    TranslateNonEmpty(lang, "problemDescriptions." + id);
  }

  /** The path line of the results page. */
  function PathLine(ctx: DiagnosisContext): (r: string)
    ensures |ctx.selectionPath| == 0 ==> r == ""
    ensures |ctx.selectionPath| == 1 ==> r == ctx.selectionPath[0]
    ensures |ctx.selectionPath| >= 2 ==>
              |ctx.selectionPath[0]| + 3 <= |r| && r[..|ctx.selectionPath[0]| + 3] == ctx.selectionPath[0] + " → "
  {
    Join(ctx.selectionPath, " → ")
  }
}
