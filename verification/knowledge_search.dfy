/** The keyword extraction, relevance scoring and context formatting of the chat
    assistant's knowledge search (src/lib/knowledge-search-v2.ts). Keywords come
    from fixed alias dictionaries looked up in the lower-cased question; drawing
    numbers come from four regular expressions, which are a parameter here (the
    matches they return, in pattern order). The searches over the data files are
    left out: their results are an input of `SearchKnowledgeBase`. */
module KnowledgeSearch {
  import opened Wrappers
  import opened Strings
  import opened Seqs

  // ---------------------------------------------------------------------------
  // Dictionaries
  // ---------------------------------------------------------------------------

  /** A canonical key with the aliases that select it. */
  datatype Entry = Entry(key: string, aliases: seq<string>)

  const ShowAllPatterns: seq<string> :=
    ["全図番", "全ての図番", "すべての図番", "図番を全て", "図番の数",
     "全部", "すべて", "一覧", "リスト", "list all", "show all", "total"]

  const CountingPatterns: seq<string> := ["何件", "何個", "何枚", "いくつ", "カウント"]

  const MaterialPatterns: seq<Entry> := [
    Entry("ss400", ["ss400", "ｓｓ４００"]),
    Entry("sus304", ["sus304", "ｓｕｓ３０４", "ステンレス304"]),
    Entry("sus316", ["sus316", "ｓｕｓ３１６", "ステンレス316"]),
    Entry("s45c", ["s45c", "ｓ４５ｃ", "炭素鋼45"]),
    Entry("sph", ["sph", "ｓｐｈ"]),
    Entry("sus", ["sus", "ｓｕｓ", "ステンレス", "ステン"]),
    Entry("ss", ["ss", "ｓｓ", "一般鋼"]),
    Entry("アルミ", ["アルミ", "アルミニウム", "al", "aluminum", "ａｌ"]),
    Entry("ジュラルミン", ["ジュラルミン", "ドラル", "dural", "ａ２０１７", "a2017"]),
    Entry("真鍮", ["真鍮", "黄銅", "brass", "ブラス"]),
    Entry("銅", ["銅", "copper", "カッパー"]),
    Entry("鉄", ["鉄", "iron", "アイアン"]),
    Entry("鋼", ["鋼", "steel", "スチール"]),
    Entry("炭素鋼", ["炭素鋼", "carbon steel"])]

  const MachinePatterns: seq<Entry> := [
    Entry("マシニング", ["マシニング", "machining", "mc", "マシニングセンタ", "マシニングセンター", "ﾏｼﾆﾝｸﾞ"]),
    Entry("CNC旋盤", ["cnc旋盤", "ｃｎｃ旋盤", "nc旋盤", "ｎｃ旋盤"]),
    Entry("旋盤", ["旋盤", "turning", "ターニング", "lathe", "旋削"]),
    Entry("横中", ["横中", "よこなか", "横中ぐり", "horizontal boring", "ﾖｺﾅｶ"]),
    Entry("ラジアル", ["ラジアル", "radial", "ﾗｼﾞｱﾙ", "ボール盤", "drill press"]),
    Entry("その他", ["その他", "other", "手仕上げ", "手加工"]),
    Entry("研削", ["研削", "研磨", "grinding", "グラインダー"])]

  const ProcessPatterns: seq<Entry> := [
    Entry("切削", ["切削", "cutting", "カッティング"]),
    Entry("穴あけ", ["穴あけ", "穴開け", "drilling", "drill", "ドリル", "ボーリング", "boring"]),
    Entry("タップ", ["タップ", "tap", "tapping", "ねじ切り", "thread", "ネジ切り", "ネジ"]),
    Entry("溝加工", ["あり溝", "溝", "slot", "slotting", "キー溝", "keyway", "溝入れ"]),
    Entry("フライス", ["フライス", "milling", "正面フライス", "end mill", "エンドミル"]),
    Entry("旋削", ["旋削", "旋盤", "turning", "外径", "内径", "端面"]),
    Entry("研削", ["研削", "研磨", "grinding"]),
    Entry("仕上げ", ["仕上げ", "finish", "finishing", "仕上"]),
    Entry("面取り", ["面取り", "chamfer", "チャンファー"]),
    Entry("バリ取り", ["バリ取り", "deburring", "バリ除去", "デバリング"]),
    Entry("測定", ["測定", "検査", "measurement", "inspection", "計測"])]

  const ToolPatterns: seq<string> :=
    ["フルバック", "ラフィング", "エンドミル", "面取り", "ドリル", "センタードリル",
     "タップ", "リーマ", "ボーリングバー", "フライス", "バイト", "チップ"]

  const CompanyPatterns: seq<Entry> := [
    Entry("中央鉄工所", ["中央鉄工所", "中央鉄工", "chuo", "ちゅうおう"]),
    Entry("サンエイ工業", ["サンエイ工業", "サンエイ", "sanei", "さんえい"]),
    Entry("山本製作所", ["山本製作所", "山本", "yamamoto", "やまもと"]),
    Entry("テクノ", ["テクノ", "techno", "てくの"])]

  const DifficultyPatterns: seq<Entry> := [
    Entry("初級", ["初級", "簡単", "easy", "初心者"]),
    Entry("中級", ["中級", "普通", "medium", "標準"]),
    Entry("上級", ["上級", "難しい", "hard", "熟練"])]

  const CategoryPatterns: seq<string> :=
    ["ブラケット", "フレーム", "シャフト", "ギア", "カバー", "プレート",
     "ハウジング", "ボデー", "リング", "ピストン", "リテーナー"]

  // ---------------------------------------------------------------------------
  // Keyword extraction
  // ---------------------------------------------------------------------------

  /** `patterns.some(p => lowerText.includes(p.toLowerCase()))`. */
  predicate AnyOccurs(lowerText: string, patterns: seq<string>) {
    exists i :: 0 <= i < |patterns| && Contains(lowerText, Lower(patterns[i]))
  }

  function OccursIn(lowerText: string): string -> bool {
    (p: string) => Contains(lowerText, Lower(p))
  }

  function Keys(dict: seq<Entry>): (r: seq<string>)
    ensures |r| == |dict|
    ensures forall i :: 0 <= i < |dict| ==> r[i] == dict[i].key
  {
    seq(|dict|, i requires 0 <= i < |dict| => dict[i].key)
  }

  /** The keys of a dictionary, in its order, whose aliases occur in the text (the
      `for (const [key, patterns] of Object.entries(...))` loops). */
  function MatchKeys(dict: seq<Entry>, lowerText: string): (r: seq<string>)
    ensures forall k :: k in r <==>
              exists i :: 0 <= i < |dict| && dict[i].key == k && AnyOccurs(lowerText, dict[i].aliases)
    decreases |dict|
  {
    if |dict| == 0 then []
    else
      var init := MatchKeys(dict[..|dict| - 1], lowerText);
      var e := dict[|dict| - 1];
      assert forall i :: 0 <= i < |dict| - 1 ==> dict[..|dict| - 1][i] == dict[i];
      if AnyOccurs(lowerText, e.aliases) then init + [e.key] else init
  }

  /** The keys come out in dictionary order. */
  lemma {:induction false} MatchKeysInOrder(dict: seq<Entry>, lowerText: string)
    ensures IsSubseq(MatchKeys(dict, lowerText), Keys(dict))
    decreases |dict|
  {
    if |dict| > 0 {
      var init := dict[..|dict| - 1];
      MatchKeysInOrder(init, lowerText);
      assert Keys(dict)[..|dict| - 1] == Keys(init);
      var r := MatchKeys(dict, lowerText);
      var r0 := MatchKeys(init, lowerText);
      if AnyOccurs(lowerText, dict[|dict| - 1].aliases) {
        assert r == r0 + [dict[|dict| - 1].key];
        assert r[..|r| - 1] == r0;
      } else {
        assert r == r0;
        SubseqExtend(r0, Keys(dict));
      }
    }
  }

  /** A dictionary with distinct keys lists each matched key once. */
  lemma {:induction false} MatchKeysNoDup(dict: seq<Entry>, lowerText: string)
    requires NoDup(Keys(dict))
    ensures NoDup(MatchKeys(dict, lowerText))
    decreases |dict|
  {
    if |dict| > 0 {
      var init := dict[..|dict| - 1];
      assert Keys(init) == Keys(dict)[..|dict| - 1];
      assert NoDup(Keys(init));
      MatchKeysNoDup(init, lowerText);
      var last := dict[|dict| - 1].key;
      forall i | 0 <= i < |init| ensures init[i].key != last {
        assert Keys(dict)[i] != Keys(dict)[|dict| - 1];
      }
      var r0 := MatchKeys(init, lowerText);
      assert last !in r0;
      var r := MatchKeys(dict, lowerText);
      assert r == r0 + [last] || r == r0;
    }
  }

  /** The keywords of one question. */
  datatype Keywords = Keywords(
    materials: seq<string>,
    machines: seq<string>,
    processes: seq<string>,
    tools: seq<string>,
    drawings: seq<string>,
    companies: seq<string>,
    difficulties: seq<string>,
    categories: seq<string>,
    showAll: bool,
    originalQuery: string)

  /** The matches, each upper-cased. */
  function UpperAll(matches: seq<string>): (r: seq<string>)
    ensures |r| == |matches| && forall i :: 0 <= i < |matches| ==> r[i] == Upper(matches[i])
  {
    seq(|matches|, i requires 0 <= i < |matches| => Upper(matches[i]))
  }

  /** The drawing numbers: the regular-expression matches, upper-cased, each once, in
      order of first match (the `Set` of the source). */
  function ExtractDrawings(matches: seq<string>): (r: seq<string>)
    ensures NoDup(r)
    ensures forall x :: x in r <==> exists i :: 0 <= i < |matches| && Upper(matches[i]) == x
    ensures FirstSeenOrder(r, UpperAll(matches))
  {
    var upper := UpperAll(matches);
    DedupFirstSeen(upper);
    Dedup(upper)
  }

  /** `extractKeywords`; `drawingMatches` gives the matches of the four drawing-number
      patterns against the original text. */
  function ExtractKeywords(text: string, drawingMatches: string -> seq<string>): (r: Keywords)
    ensures r.originalQuery == text
    ensures r.showAll <==>
              AnyOccurs(Lower(text), ShowAllPatterns) && !AnyOccurs(Lower(text), CountingPatterns)
    ensures forall t :: t in r.tools <==> t in ToolPatterns && Contains(Lower(text), Lower(t))
    ensures forall c :: c in r.categories <==> c in CategoryPatterns && Contains(Lower(text), Lower(c))
    ensures NoDup(r.drawings)
  {
    var lower := Lower(text);
    Keywords(
      MatchKeys(MaterialPatterns, lower),
      MatchKeys(MachinePatterns, lower),
      MatchKeys(ProcessPatterns, lower),
      Filter(OccursIn(lower), ToolPatterns),
      ExtractDrawings(drawingMatches(text)),
      MatchKeys(CompanyPatterns, lower),
      MatchKeys(DifficultyPatterns, lower),
      Filter(OccursIn(lower), CategoryPatterns),
      AnyOccurs(lower, ShowAllPatterns) && !AnyOccurs(lower, CountingPatterns),
      text)
  }

  /** A counting word ("何件" and the like) always wins over a show-all word. */
  lemma CountingQuestionIsNotShowAll(text: string, drawingMatches: string -> seq<string>, i: nat)
    requires i < |CountingPatterns| && Contains(Lower(text), CountingPatterns[i])
    ensures !ExtractKeywords(text, drawingMatches).showAll
  {
    assert Lower(CountingPatterns[i]) == CountingPatterns[i];
  }

  /** The tools and categories are ordered sublists of their fixed lists. */
  lemma ToolsAndCategoriesInOrder(text: string, drawingMatches: string -> seq<string>)
    ensures IsSubseq(ExtractKeywords(text, drawingMatches).tools, ToolPatterns)
    ensures IsSubseq(ExtractKeywords(text, drawingMatches).categories, CategoryPatterns)
  {
    FilterIsSubseq(OccursIn(Lower(text)), ToolPatterns);
    FilterIsSubseq(OccursIn(Lower(text)), CategoryPatterns);
  }

  /** Each dictionary key is listed exactly when one of its aliases occurs, in
      dictionary order and at most once. */
  lemma DictionaryKeywords(text: string, drawingMatches: string -> seq<string>)
    ensures var kw := ExtractKeywords(text, drawingMatches);
            IsSubseq(kw.materials, Keys(MaterialPatterns)) && NoDup(kw.materials)
            && IsSubseq(kw.machines, Keys(MachinePatterns)) && NoDup(kw.machines)
            && IsSubseq(kw.processes, Keys(ProcessPatterns)) && NoDup(kw.processes)
            && IsSubseq(kw.companies, Keys(CompanyPatterns)) && NoDup(kw.companies)
            && IsSubseq(kw.difficulties, Keys(DifficultyPatterns)) && NoDup(kw.difficulties)
  {
    var lower := Lower(text);
    DictionaryKeysDistinct();
    MatchKeysInOrder(MaterialPatterns, lower);
    MatchKeysInOrder(MachinePatterns, lower);
    MatchKeysInOrder(ProcessPatterns, lower);
    MatchKeysInOrder(CompanyPatterns, lower);
    MatchKeysInOrder(DifficultyPatterns, lower);
    MatchKeysNoDup(MaterialPatterns, lower);
    MatchKeysNoDup(MachinePatterns, lower);
    MatchKeysNoDup(ProcessPatterns, lower);
    MatchKeysNoDup(CompanyPatterns, lower);
    MatchKeysNoDup(DifficultyPatterns, lower);
  }

  /** The five dictionaries have distinct keys. */
  lemma DictionaryKeysDistinct()
    ensures NoDup(Keys(MaterialPatterns)) && NoDup(Keys(MachinePatterns)) && NoDup(Keys(ProcessPatterns))
    ensures NoDup(Keys(CompanyPatterns)) && NoDup(Keys(DifficultyPatterns))
  {
    MaterialKeysDistinct();
    MachineKeysDistinct();
    ProcessKeysDistinct();
    CompanyKeysDistinct();
    DifficultyKeysDistinct();
  }

  lemma MaterialKeysDistinct()
    ensures NoDup(Keys(MaterialPatterns))
  {
    MaterialKeysWithin(0);
    MaterialKeysWithin(7);
    MaterialKeysAcross();
  }

  /** The material keys of one half of the dictionary differ. */
  lemma MaterialKeysWithin(lo: nat)
    requires lo == 0 || lo == 7
    ensures forall i, j :: lo <= i < j < lo + 7 ==> Keys(MaterialPatterns)[i] != Keys(MaterialPatterns)[j]
  {
  }

  /** No material key of the first half recurs in the second. */
  lemma MaterialKeysAcross()
    ensures forall i, j :: 0 <= i < 7 <= j < 14 ==> Keys(MaterialPatterns)[i] != Keys(MaterialPatterns)[j]
  {
  }

  lemma MachineKeysDistinct() ensures NoDup(Keys(MachinePatterns)) {}
  lemma ProcessKeysDistinct() ensures NoDup(Keys(ProcessPatterns)) {}
  lemma CompanyKeysDistinct() ensures NoDup(Keys(CompanyPatterns)) {}
  lemma DifficultyKeysDistinct() ensures NoDup(Keys(DifficultyPatterns)) {}

  // ---------------------------------------------------------------------------
  // Relevance score
  // ---------------------------------------------------------------------------

  /** The metadata of one drawing as the scoring reads it; "" stands for a missing
      drawing number, title or difficulty, and a missing list is empty. */
  datatype DrawingMeta = DrawingMeta(
    drawingNumber: string,
    title: string,
    machineType: seq<string>,
    toolsRequired: seq<string>,
    difficulty: string)

  /** The maximal runs of non-whitespace characters: the words of `split(/\s+/)`
      without the empty strings it yields at the ends, which never match. */
  function RunLength(s: string): (n: nat)
    ensures n <= |s|
    ensures forall k :: 0 <= k < n ==> !IsWs(s[k])
    ensures n < |s| ==> IsWs(s[n])
    decreases |s|
  {
    if |s| == 0 || IsWs(s[0]) then 0 else 1 + RunLength(s[1..])
  }

  function Words(s: string): (r: seq<string>)
    ensures forall i :: 0 <= i < |r| ==> |r[i]| > 0 && forall k :: 0 <= k < |r[i]| ==> !IsWs(r[i][k])
    decreases |s|
  {
    if |s| == 0 then []
    else if IsWs(s[0]) then Words(s[1..])
    else
      var n := RunLength(s);
      [s[..n]] + Words(s[n..])
  }

  /** `split(/\s/)`: the pieces between single white-space characters, empty ones
      included. */
  function Pieces(s: string): (r: seq<string>)
    ensures |r| >= 1
    decreases |s|
  {
    if |s| == 0 then [""]
    else if IsWs(s[0]) then [""] + Pieces(s[1..])
    else
      var p := Pieces(s[1..]);
      [[s[0]] + p[0]] + p[1..]
  }

  predicate NonEmpty(w: string) { |w| > 0 }

  /** The words are exactly the non-empty pieces between white space, in order:
      every run of non-white-space characters is one word, and nothing else is. */
  lemma {:induction false} WordsArePieces(s: string)
    ensures Words(s) == Filter(NonEmpty, Pieces(s))
    decreases |s|
  {
    if |s| > 0 {
      if IsWs(s[0]) {
        WordsArePieces(s[1..]);
        FilterAppend(NonEmpty, [""], Pieces(s[1..]));
        FilterNone(NonEmpty, [""]);
      } else {
        var n := RunLength(s);
        assert n >= 1;
        RunPieces(s);
        WordsArePieces(s[n..]);
        var rest := Pieces(s[n..]);
        assert Words(s) == [s[..n]] + Words(s[n..]);
        assert rest == [rest[0]] + rest[1..];
        FilterAppend(NonEmpty, [rest[0]], rest[1..]);
        FilterNone(NonEmpty, [rest[0]]);
        assert Filter(NonEmpty, rest) == Filter(NonEmpty, rest[1..]);
        FilterAppend(NonEmpty, [s[..n]], rest[1..]);
        FilterAll(NonEmpty, [s[..n]]);
        assert Pieces(s) == [s[..n]] + rest[1..];
      }
    }
  }

  /** A text starting with a word splits into that word followed by the pieces after
      it, the first of which is empty. */
  lemma {:induction false} RunPieces(s: string)
    requires |s| > 0 && !IsWs(s[0])
    ensures Pieces(s) == [s[..RunLength(s)]] + Pieces(s[RunLength(s)..])[1..]
    ensures Pieces(s[RunLength(s)..])[0] == ""
    decreases |s|
  {
    var n := RunLength(s);
    var p := Pieces(s[1..]);
    if |s| == 1 || IsWs(s[1]) {
      assert n == 1;
      assert s[..1] == [s[0]];
      assert s[1..] == s[n..];
      if |s| == 1 {
        assert p == [""];
      } else {
        assert s[1..][1..] == s[2..];
        assert p == [""] + Pieces(s[2..]);
        assert p[0] == "" && p[1..] == Pieces(s[2..]);
      }
      assert [s[0]] + p[0] == s[..1];
      assert Pieces(s) == [[s[0]] + p[0]] + p[1..];
    } else {
      var s1 := s[1..];
      var m := RunLength(s1);
      RunPieces(s1);
      assert n == 1 + m;
      assert p[0] == s1[..m];
      assert p[1..] == Pieces(s1[m..])[1..];
      assert s1[m..] == s[n..];
      assert [s[0]] + s1[..m] == s[..n];
      assert Pieces(s) == [[s[0]] + p[0]] + p[1..];
    }
  }

  function InText(lowerTitle: string): string -> bool {
    (k: string) => Contains(lowerTitle, Lower(k))
  }

  /** `values.some(v => v.toLowerCase().includes(k.toLowerCase()))`. */
  function InSomeValue(values: seq<string>): string -> bool {
    (k: string) => exists i :: 0 <= i < |values| && Contains(Lower(values[i]), Lower(k))
  }

  function PartialHit(titleWords: seq<string>): string -> bool {
    (qw: string) => |qw| > 2 && exists i :: 0 <= i < |titleWords| && Contains(titleWords[i], qw)
  }

  /** The points gathered so far (whole points) and the matched fields. */
  datatype Tally = Tally(points: nat, fields: seq<string>)

  /** Adds the points of one field, naming the field when it scores. */
  function Award(t: Tally, points: nat, field: string): (r: Tally)
    ensures points == 0 ==> r == t
    ensures points > 0 ==> r.points == t.points + points && r.fields == t.fields + [field]
  {
    if points > 0 then Tally(t.points + points, t.fields + [field]) else t
  }

  /** Awards the fields in order. */
  function AwardAll(t: Tally, awards: seq<(nat, string)>): (r: Tally)
    decreases |awards|
  {
    if |awards| == 0 then t else AwardAll(Award(t, awards[0].0, awards[0].1), awards[1..])
  }

  /** Awarding only adds: the earlier fields stay first and no points are lost; and
      when points and fields were present together before, they are after. */
  lemma {:induction false} AwardAllGrows(t: Tally, awards: seq<(nat, string)>)
    ensures AwardAll(t, awards).points >= t.points
    ensures |AwardAll(t, awards).fields| >= |t.fields|
    ensures AwardAll(t, awards).fields[..|t.fields|] == t.fields
    ensures (t.points > 0 <==> |t.fields| > 0) ==>
              (AwardAll(t, awards).points > 0 <==> |AwardAll(t, awards).fields| > 0)
    decreases |awards|
  {
    if |awards| > 0 {
      var t1 := Award(t, awards[0].0, awards[0].1);
      AwardAllGrows(t1, awards[1..]);
      assert t1.fields[..|t.fields|] == t.fields;
      var f := AwardAll(t1, awards[1..]).fields;
      assert f[..|t.fields|] == f[..|t1.fields|][..|t.fields|];
    }
  }

  /** The points an award carries. */
  function AwardPoints(a: (nat, string)): nat {
    a.0
  }

  /** An award that adds points. */
  predicate Scores(a: (nat, string)) {
    a.0 > 0
  }

  /** The field names of some awards, in order. */
  function FieldNames(awards: seq<(nat, string)>): (r: seq<string>)
    ensures |r| == |awards| && forall i :: 0 <= i < |awards| ==> r[i] == awards[i].1
  {
    seq(|awards|, i requires 0 <= i < |awards| => awards[i].1)
  }

  /** Awarding in order adds up the points of every award and names exactly the
      awards that score, in their order. */
  lemma AwardAllSums(t: Tally, awards: seq<(nat, string)>)
    ensures AwardAll(t, awards).points == t.points + Sum(MapNat(AwardPoints, awards))
    ensures AwardAll(t, awards).fields == t.fields + FieldNames(Filter(Scores, awards))
  {
    AwardAllPoints(t, awards);
    AwardAllFields(t, awards);
  }

  lemma {:induction false} AwardAllPoints(t: Tally, awards: seq<(nat, string)>)
    ensures AwardAll(t, awards).points == t.points + Sum(MapNat(AwardPoints, awards))
    decreases |awards|
  {
    if |awards| > 0 {
      AwardAllPoints(Award(t, awards[0].0, awards[0].1), awards[1..]);
      SumMapCons(AwardPoints, awards);
    }
  }

  lemma {:induction false} AwardAllFields(t: Tally, awards: seq<(nat, string)>)
    ensures AwardAll(t, awards).fields == t.fields + FieldNames(Filter(Scores, awards))
    decreases |awards|
  {
    if |awards| > 0 {
      var a := awards[0];
      var rest := awards[1..];
      var t1 := Award(t, a.0, a.1);
      assert AwardAll(t, awards) == AwardAll(t1, rest);
      AwardAllFields(t1, rest);
      assert awards == [a] + rest;
      FilterAppend(Scores, [a], rest);
      FieldNamesAppend(Filter(Scores, [a]), Filter(Scores, rest));
      AwardOneField(t, a);
      AppendAssoc(t.fields, FieldNames(Filter(Scores, [a])), FieldNames(Filter(Scores, rest)));
    }
  }

  /** One award names its field exactly when it scores. */
  lemma AwardOneField(t: Tally, a: (nat, string))
    ensures Award(t, a.0, a.1).fields == t.fields + FieldNames(Filter(Scores, [a]))
  {
    FilterOne(Scores, a);
    FieldNamesOne(a);
    if a.0 == 0 {
      assert t.fields + [] == t.fields;
    }
  }

  lemma FieldNamesOne(a: (nat, string))
    ensures FieldNames([a]) == [a.1] && FieldNames([]) == []
  {
  }

  lemma FieldNamesAppend(a: seq<(nat, string)>, b: seq<(nat, string)>)
    ensures FieldNames(a + b) == FieldNames(a) + FieldNames(b)
  {
  }

  /** The points of one field: 10 for the drawing number, 4 per material, 3 per
      process and 2 per category found in the title (only when there is a title),
      4 per machine and 3 per tool found among the drawing's own, 2 for the
      difficulty. */
  function DrawingPoints(kw: Keywords, meta: DrawingMeta): nat {
    if |kw.drawings| > 0 && meta.drawingNumber in kw.drawings then 10 else 0
  }

  function TitlePoints(lowerTitle: string, weight: nat, keys: seq<string>): nat {
    if lowerTitle != "" then Weighted(weight, CountIf(InText(lowerTitle), keys)) else 0
  }

  function ValuePoints(values: seq<string>, weight: nat, keys: seq<string>): nat {
    Weighted(weight, CountIf(InSomeValue(values), keys))
  }

  /** `weight` points for each of `count` keywords found. */
  function Weighted(weight: nat, count: nat): nat {
    weight * count
  }

  function DifficultyPoints(kw: Keywords, meta: DrawingMeta): nat {
    if |kw.difficulties| > 0 && meta.difficulty != "" && meta.difficulty in kw.difficulties then 2 else 0
  }

  const DrawingNumberField: string := "図番完全一致"

  /** The points of each field, in the order `calculateRelevanceScore` checks them. */
  function FieldAwards(kw: Keywords, meta: DrawingMeta): (a: seq<(nat, string)>)
    ensures |a| == 7
    ensures a[0].1 == DrawingNumberField
  {
    [(DrawingPoints(kw, meta), DrawingNumberField),
     (TitlePoints(Lower(meta.title), 4, kw.materials), "材質"),
     (TitlePoints(Lower(meta.title), 3, kw.processes), "加工方法"),
     (TitlePoints(Lower(meta.title), 2, kw.categories), "カテゴリ"),
     (ValuePoints(meta.machineType, 4, kw.machines), "機械種別"),
     (ValuePoints(meta.toolsRequired, 3, kw.tools), "使用工具"),
     (DifficultyPoints(kw, meta), "難易度")]
  }

  /** The weights of the fields: 10 for a drawing number asked for; 4 per material,
      3 per process and 2 per category found in a non-empty title; 4 per machine
      and 3 per tool found among the drawing's own; 2 for a matching difficulty. */
  lemma FieldWeights(kw: Keywords, meta: DrawingMeta)
    ensures FieldAwards(kw, meta)[0].0 == (if meta.drawingNumber in kw.drawings then 10 else 0)
    ensures FieldAwards(kw, meta)[6].0 == (if meta.difficulty != "" && meta.difficulty in kw.difficulties then 2 else 0)
    ensures FieldAwards(kw, meta)[4].0 == 4 * CountIf(InSomeValue(meta.machineType), kw.machines)
    ensures FieldAwards(kw, meta)[5].0 == 3 * CountIf(InSomeValue(meta.toolsRequired), kw.tools)
    ensures FieldAwards(kw, meta)[1].0 == TitlePoints(Lower(meta.title), 4, kw.materials)
    ensures FieldAwards(kw, meta)[2].0 == TitlePoints(Lower(meta.title), 3, kw.processes)
    ensures FieldAwards(kw, meta)[3].0 == TitlePoints(Lower(meta.title), 2, kw.categories)
  {
  }

  /** A title field scores its weight once per keyword found in the lower-cased
      title, and nothing when the title is empty. */
  lemma TitlePointsValue(lt: string, weight: nat, keys: seq<string>)
    ensures lt == "" ==> TitlePoints(lt, weight, keys) == 0
    ensures lt != "" ==> TitlePoints(lt, weight, keys) == weight * CountIf(InText(lt), keys)
  {
  }

  /** The fallback: one point per question word longer than two characters found
      inside a title word. */
  function PartialMatches(kw: Keywords, meta: DrawingMeta): nat {
    CountIf(PartialHit(Words(Lower(meta.title))), Words(Lower(kw.originalQuery)))
  }

  /** Adds the fallback points; its field is named only when nothing else matched. */
  function AddPartial(t: Tally, partial: nat): (r: Tally)
    ensures r.points == t.points + partial
    ensures |t.fields| > 0 ==> r.fields == t.fields
    ensures |t.fields| == 0 ==> r.fields == (if partial > 0 then ["部分一致"] else [])
  {
    if partial == 0 then t
    else if |t.fields| == 0 then Tally(t.points + partial, ["部分一致"])
    else Tally(t.points + partial, t.fields)
  }

  /** The fields and whole points of `calculateRelevanceScore` before the boost. */
  function BaseTally(kw: Keywords, meta: DrawingMeta): Tally {
    AddPartial(AwardAll(Tally(0, []), FieldAwards(kw, meta)), PartialMatches(kw, meta))
  }

  /** The multiplier in tenths: 1.5 from three fields on, 1.2 for two. */
  function Boost(fields: nat): (b: nat)
    ensures 10 <= b <= 15
    ensures b == 15 <==> fields >= 3
    ensures b == 12 <==> fields == 2
    ensures b == 10 <==> fields <= 1
  {
    if fields >= 3 then 15 else if fields >= 2 then 12 else 10
  }

  /** Before the boost, the points are the sum of the seven fields' points plus the
      partial matches, and the fields named are those that scored, in order, or
      部分一致 alone when none scored but a partial match did. */
  lemma BaseTallySums(kw: Keywords, meta: DrawingMeta)
    ensures BaseTally(kw, meta).points == Sum(MapNat(AwardPoints, FieldAwards(kw, meta))) + PartialMatches(kw, meta)
    ensures var named := FieldNames(Filter(Scores, FieldAwards(kw, meta)));
            BaseTally(kw, meta).fields == if |named| > 0 then named
                                          else if PartialMatches(kw, meta) > 0 then ["部分一致"] else []
  {
    AwardAllSums(Tally(0, []), FieldAwards(kw, meta));
    assert [] + FieldNames(Filter(Scores, FieldAwards(kw, meta))) == FieldNames(Filter(Scores, FieldAwards(kw, meta)));
  }

  /** `calculateRelevanceScore` in tenths of a point, with the matched fields: the
      base points times 1.5 from three fields on, 1.2 for two, 1 otherwise. */
  function RelevanceScore(kw: Keywords, meta: DrawingMeta): (r: Tally)
    ensures var b := BaseTally(kw, meta);
            r.fields == b.fields
            && (|b.fields| >= 3 ==> 2 * r.points == 30 * b.points)
            && (|b.fields| == 2 ==> 10 * r.points == 120 * b.points)
            && (|b.fields| <= 1 ==> r.points == 10 * b.points)
  {
    var t := BaseTally(kw, meta);
    Tally(Scale(t.points, Boost(|t.fields|)), t.fields)
  }

  /** Whole points times a boost in tenths. */
  function Scale(points: nat, boost: nat): (r: nat)
    ensures boost >= 10 ==> (r > 0 <==> points > 0)
    ensures boost >= 10 ==> r >= 10 * points
    ensures boost == 10 ==> r == 10 * points
    ensures boost == 12 ==> 10 * r == 120 * points
    ensures boost == 15 ==> 2 * r == 30 * points
  {
    points * boost
  }

  /** More matched fields never give a smaller boost. */
  lemma BoostMonotone(f1: nat, f2: nat)
    requires f1 <= f2
    ensures Boost(f1) <= Boost(f2)
  {
  }

  /** Before the boost, there are points exactly when some field is named. */
  lemma BaseTallyPositiveIff(kw: Keywords, meta: DrawingMeta)
    ensures BaseTally(kw, meta).points > 0 <==> |BaseTally(kw, meta).fields| > 0
  {
    AwardAllGrows(Tally(0, []), FieldAwards(kw, meta));
  }

  /** A drawing scores exactly when some field matched. */
  lemma RelevanceScorePositiveIff(kw: Keywords, meta: DrawingMeta)
    ensures RelevanceScore(kw, meta).points > 0 <==> |RelevanceScore(kw, meta).fields| > 0
  {
    BaseTallyPositiveIff(kw, meta);
  }

  /** A drawing number named in the question scores at least 10 points (100 tenths)
      and is the first matched field. */
  lemma DrawingNumberMatchFirst(kw: Keywords, meta: DrawingMeta)
    requires meta.drawingNumber in kw.drawings
    ensures RelevanceScore(kw, meta).points >= 100
    ensures |RelevanceScore(kw, meta).fields| > 0 && RelevanceScore(kw, meta).fields[0] == DrawingNumberField
  {
    AwardAllFirst(FieldAwards(kw, meta));
  }

  /** A first field that scores is the first field named, and its points stay. */
  lemma AwardAllFirst(awards: seq<(nat, string)>)
    requires |awards| > 0 && awards[0].0 > 0
    ensures AwardAll(Tally(0, []), awards).points >= awards[0].0
    ensures |AwardAll(Tally(0, []), awards).fields| > 0 && AwardAll(Tally(0, []), awards).fields[0] == awards[0].1
  {
    var t1 := Award(Tally(0, []), awards[0].0, awards[0].1);
    AwardAllGrows(t1, awards[1..]);
  }

  // ---------------------------------------------------------------------------
  // The search
  // ---------------------------------------------------------------------------

  /** The history is consulted only when the question names no material, machine,
      process, drawing or category. */
  predicate FewKeywords(kw: Keywords) {
    |kw.materials| == 0 && |kw.machines| == 0 && |kw.processes| == 0
    && |kw.drawings| == 0 && |kw.categories| == 0
  }

  /** The supplement from the keywords of the last history entry: only its drawings
      and companies are appended, and only when the question has few keywords. */
  function Supplement(kw: Keywords, previous: Option<Keywords>): (r: Keywords)
    ensures !FewKeywords(kw) || previous.None? ==> r == kw
    ensures FewKeywords(kw) && previous.Some? ==>
              r.drawings == previous.value.drawings && r.companies == kw.companies + previous.value.companies
  {
    if FewKeywords(kw) && previous.Some? then
      kw.(drawings := kw.drawings + previous.value.drawings, companies := kw.companies + previous.value.companies)
    else kw
  }

  /** Everything but the drawings and companies is the question's own. */
  lemma SupplementKeepsOwnKeywords(kw: Keywords, previous: Option<Keywords>)
    ensures var r := Supplement(kw, previous);
            r.materials == kw.materials && r.machines == kw.machines && r.processes == kw.processes
            && r.tools == kw.tools && r.difficulties == kw.difficulties && r.categories == kw.categories
            && r.showAll == kw.showAll && r.originalQuery == kw.originalQuery
  {
  }

  /** The keywords of the last history entry, when there is one. */
  function PreviousKeywords(history: seq<string>, drawingMatches: string -> seq<string>): (r: Option<Keywords>)
    ensures r.Some? <==> |history| > 0
    ensures r.Some? ==> r.value.originalQuery == history[|history| - 1]
  {
    if |history| == 0 then None else Some(ExtractKeywords(history[|history| - 1], drawingMatches))
  }

  datatype DrawingMatch = DrawingMatch(
    drawingNumber: string,
    title: string,
    machineTypes: seq<string>,
    materials: seq<string>,
    difficulty: string,
    estimatedTime: string,
    toolsUsed: seq<string>,
    matchedFields: seq<string>,
    workStepsCount: nat)

  datatype CompanyMatch = CompanyMatch(
    companyName: string,
    productName: string,
    category: string,
    drawingNumbers: seq<string>,
    matchedFields: seq<string>)

  datatype ContributionMatch = ContributionMatch(
    drawingNumber: string,
    contributor: string,
    content: string,
    kind: string)

  datatype Statistics = Statistics(
    totalCompanies: nat,
    totalDrawings: nat,
    totalContributions: nat,
    searchTerms: seq<string>)

  datatype SearchResult = SearchResult(
    companies: seq<CompanyMatch>,
    drawings: seq<DrawingMatch>,
    contributions: seq<ContributionMatch>,
    statistics: Statistics)

  /** The search terms: every keyword list but the difficulties, each term once in
      order of first occurrence. */
  function SearchTerms(kw: Keywords): (r: seq<string>)
    ensures NoDup(r)
    ensures forall x :: x in r <==>
              x in kw.materials || x in kw.machines || x in kw.processes || x in kw.tools
              || x in kw.drawings || x in kw.companies || x in kw.categories
    ensures FirstSeenOrder(r, kw.materials + kw.machines + kw.processes + kw.tools + kw.drawings + kw.companies + kw.categories)
  {
    var all := kw.materials + kw.machines + kw.processes + kw.tools + kw.drawings + kw.companies + kw.categories;
    var r := Dedup(all);
    DedupFirstSeen(all);
    forall x | x in all ensures x in r {
      var i :| 0 <= i < |all| && all[i] == x;
    }
    forall x | x in r ensures x in all {
      var i :| 0 <= i < |r| && r[i] == x;
    }
    r
  }

  /** The three searches of `searchKnowledgeBase`, or `None` when one of them throws. */
  datatype Found = Found(companies: seq<CompanyMatch>, drawings: seq<DrawingMatch>, contributions: seq<ContributionMatch>)

  /** The keywords a search uses: those of the question, supplemented from the
      history. */
  function QueryKeywords(query: string, history: seq<string>, drawingMatches: string -> seq<string>): Keywords {
    Supplement(ExtractKeywords(query, drawingMatches), PreviousKeywords(history, drawingMatches))
  }

  /** `searchKnowledgeBase` around its searches: the keywords of the question,
      supplemented from the history, and the statistics of what was found; a failure
      gives the empty result. */
  function SearchKnowledgeBase(query: string, history: seq<string>, drawingMatches: string -> seq<string>,
                               found: Option<Found>): (r: SearchResult)
    ensures found.None? ==> r == SearchResult([], [], [], Statistics(0, 0, 0, []))
    ensures found.Some? ==>
              r.companies == found.value.companies && r.drawings == found.value.drawings
              && r.contributions == found.value.contributions
              && r.statistics == Statistics(|r.companies|, |r.drawings|, |r.contributions|,
                                            SearchTerms(QueryKeywords(query, history, drawingMatches)))
  {
    ResultFor(QueryKeywords(query, history, drawingMatches), found)
  }

  /** The result for the search's keywords and what the searches found. */
  function ResultFor(kw: Keywords, found: Option<Found>): (r: SearchResult)
    ensures found.None? ==> r == SearchResult([], [], [], Statistics(0, 0, 0, []))
    ensures found.Some? ==>
              r.companies == found.value.companies && r.drawings == found.value.drawings
              && r.contributions == found.value.contributions
              && r.statistics == Statistics(|r.companies|, |r.drawings|, |r.contributions|, SearchTerms(kw))
  {
    match found
    case None => SearchResult([], [], [], Statistics(0, 0, 0, []))
    case Some(f) =>
      SearchResult(f.companies, f.drawings, f.contributions,
        Statistics(|f.companies|, |f.drawings|, |f.contributions|, SearchTerms(kw)))
  }


  // ---------------------------------------------------------------------------
  // Formatting
  // ---------------------------------------------------------------------------

  const MaxDrawingsShown: nat := 5
  const MaxCompaniesShown: nat := 3
  const MaxContributionsShown: nat := 3
  const MaxToolsShown: nat := 5

  /** The blocks of the context text, in order. */
  datatype Block =
    | Summary(statistics: Statistics)
    | DrawingBlock(drawingsShown: seq<DrawingMatch>)
    | CompanyBlock(companiesShown: seq<CompanyMatch>)
    | ContributionBlock(contributionsShown: seq<ContributionMatch>)
    | NoData

  predicate HasResults(st: Statistics) {
    st.totalDrawings > 0 || st.totalCompanies > 0 || st.totalContributions > 0
  }

  function Take<T>(s: seq<T>, n: nat): (r: seq<T>)
    ensures |r| <= n && |r| <= |s|
    ensures r == s[..|r|]
    ensures |s| <= n ==> r == s
  {
    if |s| <= n then s else s[..n]
  }

  /** The blocks `formatSearchResults` writes after its heading. */
  function Blocks(r: SearchResult): (bs: seq<Block>)
  {
    (if HasResults(r.statistics) then [Summary(r.statistics)] else [])
    + (if |r.drawings| > 0 then [DrawingBlock(Take(r.drawings, MaxDrawingsShown))] else [])
    + (if |r.companies| > 0 then [CompanyBlock(Take(r.companies, MaxCompaniesShown))] else [])
    + (if |r.contributions| > 0 then [ContributionBlock(Take(r.contributions, MaxContributionsShown))] else [])
    + (if !HasResults(r.statistics) then [NoData] else [])
  }

  /** The "nothing found" notice appears exactly when every total is zero, and then
      there is no summary. */
  lemma BlocksNotice(r: SearchResult)
    ensures NoData in Blocks(r) <==> r.statistics.totalDrawings == 0 && r.statistics.totalCompanies == 0
                                      && r.statistics.totalContributions == 0
    ensures NoData in Blocks(r) <==> Summary(r.statistics) !in Blocks(r)
  {
  }

  /** At most five drawings, three companies and three contributions are shown,
      the first ones of each list, and a drawing block exactly when some drawing
      matched. */
  lemma BlocksShown(r: SearchResult)
    ensures forall b :: b in Blocks(r) && b.DrawingBlock? ==> ShownPrefix(b.drawingsShown, r.drawings, MaxDrawingsShown)
    ensures forall b :: b in Blocks(r) && b.CompanyBlock? ==> ShownPrefix(b.companiesShown, r.companies, MaxCompaniesShown)
    ensures forall b :: b in Blocks(r) && b.ContributionBlock? ==>
              ShownPrefix(b.contributionsShown, r.contributions, MaxContributionsShown)
    ensures (exists b :: b in Blocks(r) && b.DrawingBlock?) <==> |r.drawings| > 0
  {
    forall b | b in Blocks(r) ensures BlockOf(r, b) {
      BlockCases(r, b);
    }
    if |r.drawings| > 0 {
      assert DrawingBlock(Take(r.drawings, MaxDrawingsShown)) in Blocks(r);
    }
  }

  /** `shown` is a non-empty leading part of `all`, at most `max` long. */
  predicate ShownPrefix<T(==)>(shown: seq<T>, all: seq<T>, max: nat) {
    1 <= |shown| <= max && |shown| <= |all| && shown == all[..|shown|]
  }

  /** What a block of the list can be. */
  predicate BlockOf(r: SearchResult, b: Block) {
    b == Summary(r.statistics) || b == NoData
    || (|r.drawings| > 0 && b == DrawingBlock(Take(r.drawings, MaxDrawingsShown)))
    || (|r.companies| > 0 && b == CompanyBlock(Take(r.companies, MaxCompaniesShown)))
    || (|r.contributions| > 0 && b == ContributionBlock(Take(r.contributions, MaxContributionsShown)))
  }

  lemma BlockCases(r: SearchResult, b: Block)
    requires b in Blocks(r)
    ensures BlockOf(r, b)
  {
  }

  function Numbered(idx: nat): string {
    NatToString(idx + 1) + ". "
  }

  function RenderDrawings(ds: seq<DrawingMatch>, from: nat): string
    decreases |ds|
  {
    if |ds| == 0 then ""
    else
      var d := ds[0];
      "\n" + Numbered(from) + "図番: " + d.drawingNumber + "\n"
      + "   タイトル: " + d.title + "\n"
      + (if |d.machineTypes| > 0 then "   使用機械: " + Join(d.machineTypes, "、") + "\n" else "")
      + (if |d.materials| > 0 then "   材質: " + Join(d.materials, "、") + "\n" else "")
      + "   難易度: " + d.difficulty + "、推定時間: " + d.estimatedTime + "\n"
      + (if |d.toolsUsed| > 0 then "   使用工具: " + Join(Take(d.toolsUsed, MaxToolsShown), "、") + "\n" else "")
      + (if |d.matchedFields| > 0 then "   マッチ項目: " + Join(d.matchedFields, "、") + "\n" else "")
      + "   作業ステップ数: " + NatToString(d.workStepsCount) + "工程\n"
      + RenderDrawings(ds[1..], from + 1)
  }

  function RenderCompanies(cs: seq<CompanyMatch>, from: nat): string
    decreases |cs|
  {
    if |cs| == 0 then ""
    else
      var c := cs[0];
      "\n" + Numbered(from) + c.companyName + ": " + c.productName + "\n"
      + "   カテゴリ: " + c.category + "\n"
      + "   関連図番: " + Join(c.drawingNumbers, ", ") + "\n"
      + (if |c.matchedFields| > 0 then "   マッチ項目: " + Join(c.matchedFields, "、") + "\n" else "")
      + RenderCompanies(cs[1..], from + 1)
  }

  function RenderContributions(cs: seq<ContributionMatch>, from: nat): string
    decreases |cs|
  {
    if |cs| == 0 then ""
    else
      var c := cs[0];
      "\n" + Numbered(from) + "[" + c.drawingNumber + "] " + c.contributor + "さんの" + c.kind + ":\n"
      + "   「" + c.content + "」\n"
      + RenderContributions(cs[1..], from + 1)
  }

  function RenderBlock(b: Block): string {
    match b
    case Summary(st) => SummaryHeading + SummaryLines(st)
    case DrawingBlock(ds) => "🔧 関連作業手順:\n" + RenderDrawings(ds, 0) + "\n"
    case CompanyBlock(cs) => "🏢 関連会社・製品:\n" + RenderCompanies(cs, 0) + "\n"
    case ContributionBlock(cs) => "💡 現場からの追記情報:\n" + RenderContributions(cs, 0) + "\n"
    case NoData => NoDataText
  }

  /** The lines of the summary under its heading. */
  function SummaryLines(st: Statistics): string {
    (if st.totalDrawings > 0 then "  • 図番: " + NatToString(st.totalDrawings) + "件\n" else "")
    + (if st.totalCompanies > 0 then "  • 会社/製品: " + NatToString(st.totalCompanies) + "件\n" else "")
    + (if st.totalContributions > 0 then "  • 追記情報: " + NatToString(st.totalContributions) + "件\n" else "")
    + (if |st.searchTerms| > 0 then "  • 検索キーワード: " + Join(st.searchTerms, ", ") + "\n" else "")
    + "\n"
  }

  function RenderBlocks(bs: seq<Block>): string
    decreases |bs|
  {
    if |bs| == 0 then "" else RenderBlock(bs[0]) + RenderBlocks(bs[1..])
  }

  const ContextHeading: string := "【社内データベース検索結果】\n\n"
  const SummaryHeading: string := "📊 検索結果サマリー:\n"
  const NoDataText: string :=
    "⚠️ 該当するデータが見つかりませんでした。\n"
    + "検索キーワードを変更するか、より具体的な情報（図番、材質、機械種別など）を含めてお試しください。\n"

  /** `formatSearchResults`: the heading, then the summary when anything was found;
      with nothing found and no lists, the heading followed by the notice alone. */
  function FormatSearchResults(r: SearchResult): (s: string)
    ensures |s| >= |ContextHeading| && s[..|ContextHeading|] == ContextHeading
    ensures HasResults(r.statistics) ==>
              |s| >= |ContextHeading| + |SummaryHeading| &&
              s[|ContextHeading|..|ContextHeading| + |SummaryHeading|] == SummaryHeading
    ensures !HasResults(r.statistics) && r.drawings == [] && r.companies == [] && r.contributions == [] ==>
              s == ContextHeading + NoDataText
    ensures HasResults(r.statistics) ==>
              var p := ContextHeading + SummaryHeading + SummaryLines(r.statistics);
              |s| >= |p| && s[..|p|] == p
  {
    FormatShape(r);
    PrefixBehind(ContextHeading, RenderBlocks(Blocks(r)), SummaryHeading, SummaryLines(r.statistics));
    ContextHeading + RenderBlocks(Blocks(r))
  }

  lemma FormatShape(r: SearchResult)
    ensures HasResults(r.statistics) ==>
              var rest := RenderBlocks(Blocks(r));
              |rest| >= |SummaryHeading| && rest[..|SummaryHeading|] == SummaryHeading
    ensures HasResults(r.statistics) ==>
              var rest := RenderBlocks(Blocks(r));
              var p := SummaryHeading + SummaryLines(r.statistics);
              |rest| >= |p| && rest[..|p|] == p
    ensures !HasResults(r.statistics) && r.drawings == [] && r.companies == [] && r.contributions == [] ==>
              RenderBlocks(Blocks(r)) == NoDataText
  {
    if HasResults(r.statistics) {
      SummaryFirst(r);
    } else if r.drawings == [] && r.companies == [] && r.contributions == [] {
      assert Blocks(r) == [NoData];
      assert RenderBlocks([NoData]) == NoDataText + RenderBlocks([]);
    }
  }

  lemma SummaryFirst(r: SearchResult)
    requires HasResults(r.statistics)
    ensures var rest := RenderBlocks(Blocks(r));
            |rest| >= |SummaryHeading| && rest[..|SummaryHeading|] == SummaryHeading
    ensures var rest := RenderBlocks(Blocks(r));
            var p := SummaryHeading + SummaryLines(r.statistics);
            |rest| >= |p| && rest[..|p|] == p
  {
    var bs := Blocks(r);
    assert bs[0] == Summary(r.statistics);
    assert RenderBlocks(bs) == SummaryHeading + SummaryLines(r.statistics) + RenderBlocks(bs[1..]);
    PrefixOfConcat(SummaryHeading, SummaryLines(r.statistics), RenderBlocks(bs[1..]));
  }

  lemma PrefixOfConcat(a: string, b: string, c: string)
    ensures |a + b + c| >= |a + b| && (a + b + c)[..|a + b|] == a + b
    ensures (a + b + c)[..|a|] == a
  {
    assert (a + b + c)[..|a + b|] == a + b;
    assert (a + b + c)[..|a|] == a;
  }

  /** Putting a text in front keeps a prefix a prefix. */
  lemma PrefixBehind(a: string, rest: string, p: string, q: string)
    ensures |rest| >= |p + q| && rest[..|p + q|] == p + q ==>
              |a + rest| >= |a + p + q| && (a + rest)[..|a + p + q|] == a + p + q
  {
    if |rest| >= |p + q| && rest[..|p + q|] == p + q {
      assert a + p + q == a + (p + q);
      assert (a + rest)[..|a + p + q|] == a + rest[..|p + q|];
    }
  }



}
