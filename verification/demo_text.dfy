/** The text-level renaming scripts of the demo data set:
    doc/demo-version/mask-company-names.js and doc/demo-version/rename-for-tv.js.
    Both read each candidate JSON file as raw text, apply an id table and then a name
    table as ordered, case-sensitive, global literal replacements, and write the text
    back; the first always writes, the second only when the text changed. The file
    system is a function from path to what reading that path gives. */
module DemoText {
  import opened Strings
  import opened Seqs
  import opened Replace

  // ---------------------------------------------------------------------------
  // Tables
  // ---------------------------------------------------------------------------

  const CompanyIdMasking: seq<Mapping> := [
    Mapping("chuo-tekko", "demo-manufacturing-a"),
    Mapping("yamazaki-mazak", "demo-precision-b"),
    Mapping("mizutani-tekko", "demo-works-c"),
    Mapping("kouwa-engineering", "demo-engineering-d"),
    Mapping("sanei-kogyo", "demo-industrial-e"),
    Mapping("wako-kogyosyo", "demo-factory-f"),
    Mapping("eba-kogyo", "demo-tech-g"),
    Mapping("machiya-kinnzoku", "demo-metal-h"),
    Mapping("dainichi-kinzoku", "demo-steel-i"),
    Mapping("tosho-gizyutsu", "demo-system-j")]

  /** Company names, each longer form before the name it contains. */
  const CompanyNameMasking: seq<Mapping> := [
    Mapping("有限会社中央鉄工所", "株式会社デモ製作所A"),
    Mapping("中央鉄工所", "デモ製作所A"),
    Mapping("ヤマザキマザック株式会社", "株式会社デモ精密B"),
    Mapping("ヤマザキマザック", "デモ精密B"),
    Mapping("水谷鉄工株式会社", "株式会社デモ工業C"),
    Mapping("水谷鉄工", "デモ工業C"),
    Mapping("有限会社幸和エンジニアリング", "有限会社デモエンジニアリングD"),
    Mapping("幸和エンジニアリング", "デモエンジニアリングD"),
    Mapping("サンエイ工業", "デモインダストリーE"),
    Mapping("和宏工業所", "デモファクトリーF"),
    Mapping("エバ工業", "デモテックG"),
    Mapping("町屋金属工業株式会社", "株式会社デモメタルH"),
    Mapping("町屋金属工業", "デモメタルH"),
    Mapping("大日金属工業株式会社", "株式会社デモスチールI"),
    Mapping("大日金属工業", "デモスチールI"),
    Mapping("株式会社東昇技術", "株式会社デモシステムJ"),
    Mapping("東昇技術", "デモシステムJ")]

  const Kabushiki: string := "株式会社"
  const DemoTechG: string := "デモテックG"
  const DemoSystemJ: string := "デモシステムJ"
  const TvTokyo: string := "テレ東(株)"
  const Wbs: string := "ワールド" + "ビジネス" + "サテライト" + "(株)"

  const TvIds: seq<Mapping> := [Mapping("demo-tech-g", "tvtokyo"), Mapping("demo-system-j", "wbs")]

  /** The TV names: the `株式会社` form of each name first, both forms to one target. */
  const TvNames: seq<Mapping> := [
    Mapping(Kabushiki + DemoTechG, TvTokyo),
    Mapping(DemoTechG, TvTokyo),
    Mapping(Kabushiki + DemoSystemJ, Wbs),
    Mapping(DemoSystemJ, Wbs)]

  // ---------------------------------------------------------------------------
  // Text masking
  // ---------------------------------------------------------------------------

  /** `maskText`: each entry replaces every occurrence of its original, case-sensitively,
      in table order. */
  function MaskText(text: string, table: seq<Mapping>): string {
    ApplyMappings(text, table, false)
  }

  /** The two passes of `maskJsonFile`: the id table, then the name table. */
  function MaskIdsThenNames(text: string, ids: seq<Mapping>, names: seq<Mapping>): string {
    MaskText(MaskText(text, ids), names)
  }

  /** The two passes are one pass over the ids followed by the names. */
  lemma IdsThenNamesIsOneTable(text: string, ids: seq<Mapping>, names: seq<Mapping>)
    ensures MaskIdsThenNames(text, ids, names) == MaskText(text, ids + names)
  {
    ApplyMappingsAppend(text, ids, names, false);
  }

  /** A text in which no original of the table occurs comes back unchanged; in
      particular an empty table changes nothing. */
  lemma {:induction false} MaskTextNoOriginal(text: string, table: seq<Mapping>)
    requires forall i :: 0 <= i < |table| ==> !OccursBy(text, table[i].original, false)
    ensures MaskText(text, table) == text
  {
    forall i | 0 <= i < |table| ensures ApplyMapping(text, table[i], false) == text {
      ApplyMappingAbsent(text, table[i], false);
    }
    ApplyMappingsKeep(text, table, false);
  }

  /** A whole-text match is replaced by the entry's masked text. */
  lemma ReplaceWhole(p: string, r: string)
    requires |p| > 0
    ensures ReplaceAllBy(p, p, r, false) == r
  {
    StartsWithSpec(p, p);
    assert p[|p|..] == [];
    assert r + [] == r;
  }

  /** With a longer form listed before a shorter name it contains, a text that is
      exactly the longer form becomes the longer form's target, whatever the shorter
      name maps to, as long as the target does not contain the shorter name. */
  lemma LongerFormFirst(long: string, short: string, longTarget: string, shortTarget: string)
    requires |long| > 0 && |short| > 0 && !OccursBy(longTarget, short, false)
    ensures MaskText(long, [Mapping(long, longTarget), Mapping(short, shortTarget)]) == longTarget
  {
    ReplaceWhole(long, longTarget);
    ApplyMappingAbsent(longTarget, Mapping(short, shortTarget), false);
    ApplyMappingsTwo(long, Mapping(long, longTarget), Mapping(short, shortTarget));
  }

  // ---------------------------------------------------------------------------
  // The TV renaming
  // ---------------------------------------------------------------------------

  /** The text transformation of rename-for-tv.js. */
  function TvText(text: string): string {
    MaskIdsThenNames(text, TvIds, TvNames)
  }

  /** The company-name masking of mask-company-names.js. */
  function CompanyText(text: string): string {
    MaskIdsThenNames(text, CompanyIdMasking, CompanyNameMasking)
  }

  /** A text without `d` holds no TV id. */
  lemma TvIdsAbsent(text: string)
    requires CharAbsent('d', text, false)
    ensures MaskText(text, TvIds) == text
  {
    ForeignCharAbsent(text, TvIds[0].original, false, 0);
    ForeignCharAbsent(text, TvIds[1].original, false, 0);
    MaskTextNoOriginal(text, TvIds);
  }

  /** The `株式会社` form of the first demo name becomes `テレ東(株)`. */
  lemma TechLongForm()
    ensures TvText(Kabushiki + DemoTechG) == TvTokyo
  {
    var m0, m1, m2, m3 := TvNames[0], TvNames[1], TvNames[2], TvNames[3];
    assert TvNames == [m0, m1] + [m2, m3];
    assert CharAbsent('d', Kabushiki, false) && CharAbsent('d', DemoTechG, false);
    CharAbsentAppend('d', Kabushiki, DemoTechG, false);
    TvIdsAbsent(Kabushiki + DemoTechG);
    ApplyMappingsAppend(Kabushiki + DemoTechG, [m0, m1], [m2, m3], false);
    TvTokyoFinal();
    LongerFormFirst(Kabushiki + DemoTechG, DemoTechG, TvTokyo, TvTokyo);
  }

  /** The bare first demo name becomes `テレ東(株)` too. */
  lemma TechShortForm()
    ensures TvText(DemoTechG) == TvTokyo
  {
    var m0, m1, m2, m3 := TvNames[0], TvNames[1], TvNames[2], TvNames[3];
    assert TvNames == [m0, m1] + [m2, m3];
    assert CharAbsent('d', DemoTechG, false);
    TvIdsAbsent(DemoTechG);
    ApplyMappingsAppend(DemoTechG, [m0, m1], [m2, m3], false);
    TvTokyoFinal();
    LongPatternAbsent(DemoTechG, m0.original, false);
    ApplyMappingAbsent(DemoTechG, m0, false);
    ReplaceWhole(DemoTechG, TvTokyo);
    ApplyMappingsTwo(DemoTechG, m0, m1);
  }

  /** `テレ東(株)` holds neither the bare first name nor either form of the second. */
  lemma TvTokyoFinal()
    ensures !OccursBy(TvTokyo, DemoTechG, false)
    ensures MaskText(TvTokyo, TvNames[2..]) == TvTokyo
  {
    var m2, m3 := TvNames[2], TvNames[3];
    assert TvNames[2..] == [m2, m3];
    LongPatternAbsent(TvTokyo, m2.original, false);
    LongPatternAbsent(TvTokyo, m3.original, false);
    MaskTextNoOriginal(TvTokyo, [m2, m3]);
    assert CharAbsent(DemoTechG[0], TvTokyo, false);
    ForeignCharAbsent(TvTokyo, DemoTechG, false, 0);
  }

  /** `ワールドビジネスサテライト(株)` does not hold the bare second name. */
  lemma WbsFinal()
    ensures !OccursBy(Wbs, DemoSystemJ, false)
  {
    assert CharAbsent('デ', "ワールド", false) && CharAbsent('デ', "ビジネス", false);
    assert CharAbsent('デ', "サテライト", false) && CharAbsent('デ', "(株)", false);
    CharAbsentAppend('デ', "ワールド", "ビジネス", false);
    CharAbsentAppend('デ', "ワールド" + "ビジネス", "サテライト", false);
    CharAbsentAppend('デ', "ワールド" + "ビジネス" + "サテライト", "(株)", false);
    ForeignCharAbsent(Wbs, DemoSystemJ, false, 0);
  }

  lemma SystemNameChars()
    ensures CharAbsent('d', Kabushiki, false) && CharAbsent('d', DemoSystemJ, false)
    ensures CharAbsent('ッ', Kabushiki, false) && CharAbsent('ッ', DemoSystemJ, false)
  {
  }

  /** Neither form of the first demo name occurs in a text without `ッ`. */
  lemma TechNamesAbsent(text: string)
    requires CharAbsent('ッ', text, false)
    ensures MaskText(text, TvNames[..2]) == text
  {
    var m0, m1 := TvNames[0], TvNames[1];
    assert TvNames[..2] == [m0, m1];
    assert m0.original[7] == 'ッ' && m1.original[3] == 'ッ';
    ForeignCharAbsent(text, m0.original, false, 7);
    ForeignCharAbsent(text, m1.original, false, 3);
    MaskTextNoOriginal(text, [m0, m1]);
  }

  /** The `株式会社` form of the second demo name becomes `ワールドビジネスサテライト(株)`. */
  lemma SystemLongForm()
    ensures TvText(Kabushiki + DemoSystemJ) == Wbs
  {
    var text := Kabushiki + DemoSystemJ;
    assert TvNames == TvNames[..2] + TvNames[2..];
    SystemNameChars();
    CharAbsentAppend('d', Kabushiki, DemoSystemJ, false);
    TvIdsAbsent(text);
    ApplyMappingsAppend(text, TvNames[..2], TvNames[2..], false);
    CharAbsentAppend('ッ', Kabushiki, DemoSystemJ, false);
    TechNamesAbsent(text);
    WbsFinal();
    assert TvNames[2..] == [Mapping(text, Wbs), Mapping(DemoSystemJ, Wbs)];
    LongerFormFirst(text, DemoSystemJ, Wbs, Wbs);
  }

  /** The bare second demo name becomes `ワールドビジネスサテライト(株)` too. */
  lemma SystemShortForm()
    ensures TvText(DemoSystemJ) == Wbs
  {
    var m2, m3 := TvNames[2], TvNames[3];
    assert TvNames == TvNames[..2] + [m2, m3];
    SystemNameChars();
    TvIdsAbsent(DemoSystemJ);
    ApplyMappingsAppend(DemoSystemJ, TvNames[..2], [m2, m3], false);
    TechNamesAbsent(DemoSystemJ);
    LongPatternAbsent(DemoSystemJ, m2.original, false);
    ApplyMappingAbsent(DemoSystemJ, m2, false);
    ReplaceWhole(DemoSystemJ, Wbs);
    WbsFinal();
    ApplyMappingAbsent(Wbs, m3, false);
    ApplyMappingsTwo(DemoSystemJ, m2, m3);
  }

  lemma ApplyMappingsTwo(s: string, m0: Mapping, m1: Mapping)
    ensures MaskText(s, [m0, m1]) == ApplyMapping(ApplyMapping(s, m0, false), m1, false)
  {
    assert [m0, m1][1..] == [m1] && [m1][1..] == [];
    var t := ApplyMapping(ApplyMapping(s, m0, false), m1, false);
    assert ApplyMappings(t, [], false) == t;
    assert ApplyMappings(ApplyMapping(s, m0, false), [m1], false) == ApplyMappings(t, [], false);
  }

  // ---------------------------------------------------------------------------
  // The file run
  // ---------------------------------------------------------------------------

  /** What processing a candidate path meets: no file, a failure anywhere inside the
      scripts' `try` (reading, parsing, masking or writing the file), or its text. */
  datatype Read = Missing | Unreadable | Text(content: string)

  /** The counters the scripts print and the writes they make, in order. */
  datatype Report = Report(success: nat, changed: nat, fail: nat, writes: seq<(string, string)>)

  function Present(fs: string -> Read): string -> bool {
    (p: string) => !fs(p).Missing?
  }

  function Readable(fs: string -> Read): string -> bool {
    (p: string) => fs(p).Text?
  }

  function Failing(fs: string -> Read): string -> bool {
    (p: string) => fs(p).Unreadable?
  }

  /** A readable file whose text the masking changes. */
  function Changes(fs: string -> Read, mask: string -> string): string -> bool {
    (p: string) => fs(p).Text? && mask(fs(p).content) != fs(p).content
  }

  /** `maskJsonFile` over the candidate paths, skipping those that do not exist. With
      `alwaysWrite` (mask-company-names.js) every readable file is written back; without
      it (rename-for-tv.js) only those whose text changed. */
  function Run(paths: seq<string>, fs: string -> Read, mask: string -> string, alwaysWrite: bool): (r: Report)
    ensures r.success == CountIf(Readable(fs), paths)
    ensures r.fail == CountIf(Failing(fs), paths)
    ensures r.success + r.fail == CountIf(Present(fs), paths)
    ensures r.changed == CountIf(Changes(fs, mask), paths)
    ensures r.changed <= r.success
    ensures forall w :: w in r.writes ==> w.0 in paths && fs(w.0).Text? && w.1 == mask(fs(w.0).content)
    ensures forall w :: w in r.writes ==> alwaysWrite || w.1 != fs(w.0).content
    ensures forall p :: p in paths && fs(p).Text? && (alwaysWrite || mask(fs(p).content) != fs(p).content) ==>
              (p, mask(fs(p).content)) in r.writes
    decreases |paths|
  {
    if |paths| == 0 then Report(0, 0, 0, [])
    else
      var init := paths[..|paths| - 1];
      var p := paths[|paths| - 1];
      assert paths == init + [p];
      var r := Run(init, fs, mask, alwaysWrite);
      match fs(p)
      case Missing => r
      case Unreadable => r.(fail := r.fail + 1)
      case Text(text) =>
        var masked := mask(text);
        var changed := masked != text;
        Report(r.success + 1, if changed then r.changed + 1 else r.changed, r.fail,
               if alwaysWrite || changed then r.writes + [(p, masked)] else r.writes)
  }

  /** The instruction file of a drawing folder, relative to the data folder. */
  function InstructionPath(dir: string): string {
    "work-instructions/" + dir + "/instruction.json"
  }

  /** The contributions file of a drawing folder, relative to the data folder. */
  function ContributionsPath(dir: string): string {
    "work-instructions/" + dir + "/contributions/contributions.json"
  }

  /** The two files of each drawing folder, folder by folder. */
  function DrawingFiles(dirs: seq<string>): (r: seq<string>)
    ensures |r| == 2 * |dirs|
    ensures forall p :: p in r <==> exists d :: d in dirs && (p == InstructionPath(d) || p == ContributionsPath(d))
    decreases |dirs|
  {
    if |dirs| == 0 then []
    else
      var rest := DrawingFiles(dirs[1..]);
      assert forall d :: d in dirs <==> d == dirs[0] || d in dirs[1..];
      [InstructionPath(dirs[0]), ContributionsPath(dirs[0])] + rest
  }

  /** The names of the listed entries that are directories, in listing order. */
  function DirNames(entries: seq<(string, bool)>): (r: seq<string>)
    ensures forall d :: d in r <==> exists i :: 0 <= i < |entries| && entries[i] == (d, true)
    decreases |entries|
  {
    if |entries| == 0 then []
    else
      var rest := DirNames(entries[1..]);
      assert forall i :: 1 <= i < |entries| ==> entries[i] == entries[1..][i - 1];
      if entries[0].1 then [entries[0].0] + rest else rest
  }

  /** The files both scripts visit: companies.json, search-index.json, then each
      drawing folder's instruction and contributions. An absent work-instructions
      folder lists no entries. */
  function Candidates(entries: seq<(string, bool)>): (r: seq<string>)
    ensures |r| >= 2 && r[..2] == ["companies.json", "search-index.json"]
    ensures forall p :: p in r[2..] <==>
              exists i :: 0 <= i < |entries| && entries[i].1 &&
                (p == InstructionPath(entries[i].0) || p == ContributionsPath(entries[i].0))
  {
    var r := ["companies.json", "search-index.json"] + DrawingFiles(DirNames(entries));
    assert r[2..] == DrawingFiles(DirNames(entries));
    r
  }

  /** mask-company-names.js: every readable candidate is masked and written back. */
  function CompanyRun(fs: string -> Read, entries: seq<(string, bool)>): (r: Report)
    ensures r.success == CountIf(Readable(fs), Candidates(entries))
    ensures r.fail == CountIf(Failing(fs), Candidates(entries))
    ensures r.changed == CountIf(Changes(fs, CompanyText), Candidates(entries))
    ensures forall w :: w in r.writes ==> w.0 in Candidates(entries) && fs(w.0).Text? && w.1 == CompanyText(fs(w.0).content)
    ensures forall p :: p in Candidates(entries) && fs(p).Text? ==> (p, CompanyText(fs(p).content)) in r.writes
  {
    Run(Candidates(entries), fs, CompanyText, true)
  }

  /** rename-for-tv.js: only candidates whose text changes are written. */
  function TvRun(fs: string -> Read, entries: seq<(string, bool)>): (r: Report)
    ensures r.success == CountIf(Readable(fs), Candidates(entries))
    ensures r.fail == CountIf(Failing(fs), Candidates(entries))
    ensures r.changed == CountIf(Changes(fs, TvText), Candidates(entries))
    ensures forall w :: w in r.writes ==>
              w.0 in Candidates(entries) && fs(w.0).Text? && w.1 == TvText(fs(w.0).content) && w.1 != fs(w.0).content
    ensures forall p :: p in Candidates(entries) && fs(p).Text? && TvText(fs(p).content) != fs(p).content ==>
              (p, TvText(fs(p).content)) in r.writes
  {
    Run(Candidates(entries), fs, TvText, false)
  }

  /** A run writes something exactly when it has something to write: a readable
      file when every readable file is written, a changed one otherwise. */
  lemma RunWritesIff(paths: seq<string>, fs: string -> Read, mask: string -> string, alwaysWrite: bool)
    ensures var r := Run(paths, fs, mask, alwaysWrite);
            r.writes != [] <==> (if alwaysWrite then r.success > 0 else r.changed > 0)
  {
    var r := Run(paths, fs, mask, alwaysWrite);
    var f := if alwaysWrite then Readable(fs) else Changes(fs, mask);
    CountIfPositive(f, paths);
    if r.writes != [] {
      var w := r.writes[0];
      assert w in r.writes;
      var i :| 0 <= i < |paths| && paths[i] == w.0;
      assert f(paths[i]);
    }
    if CountIf(f, paths) > 0 {
      var i :| 0 <= i < |paths| && f(paths[i]);
      assert (paths[i], mask(fs(paths[i]).content)) in r.writes;
    }
  }

  /** The company masking writes something exactly when some candidate is
      readable. */
  lemma CompanyRunWritesIff(fs: string -> Read, entries: seq<(string, bool)>)
    ensures CompanyRun(fs, entries).writes != [] <==> CompanyRun(fs, entries).success > 0
  {
    RunWritesIff(Candidates(entries), fs, CompanyText, true);
  }

  /** The television renaming writes something exactly when it reports a changed
      file. */
  lemma TvRunWritesIff(fs: string -> Read, entries: seq<(string, bool)>)
    ensures TvRun(fs, entries).writes != [] <==> TvRun(fs, entries).changed > 0
  {
    RunWritesIff(Candidates(entries), fs, TvText, false);
  }
}
