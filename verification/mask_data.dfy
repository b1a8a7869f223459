/** The data masking of scripts/mask-data.js: every string of a JSON document is run
    through five ordered replacement tables, case-insensitively; `id` fields are
    masked with the company-id table only, and excluded keys are copied unchanged.
    The drawing folder names are masked with the drawing-number table. Reading,
    parsing and writing the files, and copying the media folders, are left out. */
module MaskData {
  import opened Strings
  import opened Replace

  /** A parsed JSON value. Objects keep their entries in order; numbers are kept as
      they are, so their representation does not matter here. */
  datatype Json =
    | JNull
    | JBool(b: bool)
    | JNum(n: int)
    | JStr(s: string)
    | JArr(items: seq<Json>)
    | JObj(fields: seq<(string, Json)>)

  const Companies: seq<Mapping> := [
    Mapping("chuo-tekko", "sample-works"),
    Mapping("sanei-kogyo", "test-industries"),
    Mapping("yamada-seisaku", "demo-manufacturing"),
    Mapping("tech-solutions", "example-tech"),
    Mapping("precision-works", "mockup-precision"),
    Mapping("yamazaki-mazak", "sample-precision"),
    Mapping("mizutani-tekko", "test-manufacturing"),
    Mapping("kowa-engineering", "demo-engineering"),
    Mapping("wako-kogyo", "sample-industrial"),
    Mapping("eva-kogyo", "mock-industrial")]

  const CompanyNames: seq<Mapping> := [
    Mapping("有限会社中央鉄工所", "株式会社サンプル製作所"),
    Mapping("中央鉄工所", "サンプル製作所"),
    Mapping("サンエイ工業", "テスト工業"),
    Mapping("sanei", "test"),
    Mapping("chuo", "sample"),
    Mapping("ヤマダ精作", "デモ精密"),
    Mapping("tech", "example"),
    Mapping("ヤマザキマザック株式会社", "サンプル精密株式会社"),
    Mapping("ヤマザキマザック", "サンプル精密"),
    Mapping("水谷鉄工株式会社", "テスト製造株式会社"),
    Mapping("水谷鉄工", "テスト製造"),
    Mapping("有限会社幸和エンジニアリング", "有限会社デモエンジニアリング"),
    Mapping("幸和エンジニアリング", "デモエンジニアリング"),
    Mapping("和宏工業所", "サンプル工業所"),
    Mapping("エバ工業", "モック工業"),
    Mapping("yamada", "demo"),
    Mapping("mizutani", "test"),
    Mapping("kowa", "demo"),
    Mapping("wako", "sample"),
    Mapping("eva", "mock")]

  const ProductNames: seq<Mapping> := [
    Mapping("チェーンソー", "テストパーツA"),
    Mapping("神レール", "サンプル部品B"),
    Mapping("穴あけテーブル", "デモブラケットC"),
    Mapping("シーサー（R)", "テストフレームD"),
    Mapping("フランジ", "サンプルフランジE"),
    Mapping("ブラケット", "デモブラケット"),
    Mapping("ベース", "テストベース")]

  const UserNames: seq<Mapping> := [
    Mapping("田中", "佐藤太郎"),
    Mapping("古川達久", "鈴木次郎"),
    Mapping("山田", "田中三郎"),
    Mapping("テスト太郎", "サンプル四郎")]

  const DrawingNumbers: seq<Mapping> := [
    Mapping("0D127100014", "TEST-001-A"),
    Mapping("0A149002911", "TEST-002-B"),
    Mapping("0A224000531", "TEST-003-C"),
    Mapping("25417362721", "TEST-004-D"),
    Mapping("0F030800622", "TEST-005-E"),
    Mapping("24K025_20252725", "TEST-006-F"),
    Mapping("sanei_24K022", "TEST-007-G"),
    Mapping("flange_sus_sanei_20250722", "TEST-008-H"),
    Mapping("12750800122", "TEST-009-I"),
    Mapping("16800301576", "TEST-010-J"),
    Mapping("PR24M048202", "TEST-011-K"),
    Mapping("91260506-2", "TEST-012-L"),
    Mapping("P103668", "TEST-013-M"),
    Mapping("A1-46717-E", "TEST-014-N"),
    Mapping("DM-05", "TEST-015-O"),
    Mapping("1G-162-TL-05", "TEST-016-P"),
    Mapping("02760810650", "TEST-017-Q"),
    Mapping("04297711725", "TEST-018-R"),
    Mapping("05389730954", "TEST-019-S"),
    Mapping("06190300668", "TEST-020-T"),
    Mapping("06200301496", "TEST-021-U"),
    Mapping("0974122270", "TEST-022-V"),
    Mapping("0A229001290", "TEST-023-W"),
    Mapping("0E260800172", "TEST-024-X"),
    Mapping("0E260800190", "TEST-025-Y"),
    Mapping("25417362731", "TEST-026-Z"),
    Mapping("4K300346", "TEST-027-AA"),
    Mapping("4K470955", "TEST-028-BB"),
    Mapping("4K524654-1", "TEST-029-CC"),
    Mapping("4K524654-2", "TEST-030-DD"),
    Mapping("5427365400", "TEST-031-EE"),
    Mapping("82096-2-R04", "TEST-032-FF"),
    Mapping("A3159-500-00-A1", "TEST-033-GG"),
    Mapping("GSETJIG-3101", "TEST-034-HH"),
    Mapping("INNSJ-XXXX", "TEST-035-II"),
    Mapping("M-2009211-060", "TEST-036-JJ"),
    Mapping("M-5329619-160", "TEST-037-KK"),
    Mapping("TM2404599-1601-0", "TEST-038-LL"),
    Mapping("TM2404599-1603-0", "TEST-039-MM"),
    Mapping("TM2404599-1604-0", "TEST-040-NN"),
    Mapping("TM2404599-1651-0", "TEST-041-OO"),
    Mapping("TM256039-2-1401", "TEST-042-PP"),
    Mapping("TM26003-RS10x", "TEST-043-QQ"),
    Mapping("TMT1750-P0003", "TEST-044-RR")]

  const SystemNames: seq<Mapping> := [
    Mapping("田中工業AI", "サンプル工業AI"),
    Mapping("田中工業", "サンプル工業")]

  /** `maskText`: the table entries applied in order, each a global case-insensitive
      literal replacement. */
  function MaskText(s: string, table: seq<Mapping>): string {
    ApplyMappings(s, table, true)
  }

  /** The tables a string value goes through, as the script orders them: company
      names, product names, user names, drawing numbers, system names. */
  function MaskString(s: string): (r: string)
    ensures !OccursBy(r, SystemNames[0].original, true) && !OccursBy(r, SystemNames[1].original, true)
  {
    SystemNamesReplacedFirst(MaskText(MaskText(MaskText(MaskText(s, CompanyNames), ProductNames), UserNames), DrawingNumbers));
    MaskText(MaskText(MaskText(MaskText(MaskText(s, CompanyNames), ProductNames), UserNames), DrawingNumbers), SystemNames)
  }

  /** The same with the system names ahead of the user names, so that a system name
      is replaced before the user name inside it. */
  function CorrectedMaskString(s: string): string {
    MaskText(MaskText(MaskText(MaskText(MaskText(s, CompanyNames), ProductNames), SystemNames), UserNames), DrawingNumbers)
  }

  // ---------------------------------------------------------------------------
  // The user-name table runs before the system-name table
  // ---------------------------------------------------------------------------

  /** The first user-name entry replaces `田中` everywhere, so after it neither system
      name can occur any more: in the script's order the system-name table comes too
      late to match. */
  lemma {:induction false} UserNameHidesSystemNames(s: string)
    ensures UserNames[0] == Mapping("田中", "佐藤太郎")
    ensures !OccursBy(ApplyMapping(s, UserNames[0], true), SystemNames[0].original, true)
    ensures !OccursBy(ApplyMapping(s, UserNames[0], true), SystemNames[1].original, true)
  {
    var t := ApplyMapping(s, UserNames[0], true);
    ReplaceAllRemoves(s, "田中", "佐藤太郎", true);
    assert SystemNames[0].original == "" + "田中" + "工業AI";
    assert SystemNames[1].original == "" + "田中" + "工業";
    if OccursBy(t, SystemNames[0].original, true) {
      OccursInfix(t, "", "田中", "工業AI", true);
    }
    if OccursBy(t, SystemNames[1].original, true) {
      OccursInfix(t, "", "田中", "工業", true);
    }
  }

  /** The system name itself, as the user-name entry leaves it. */
  lemma SystemNameAfterUserName()
    ensures ApplyMapping("田中工業AI", UserNames[0], true) == "佐藤太郎工業AI"
  {
  }

  lemma SystemNameExample()
    ensures ApplyMapping("田中工業AI", SystemNames[0], true) == "サンプル工業AI"
  {
    assert SystemNames[0].original == "田中工業AI";
  }

  /** No character of サンプル工業 matches the first character of 田中工業, and its
      first character matches none of 田中工業, so the replacement cannot rebuild it. */
  lemma CompanyNamesApart()
    ensures forall j :: 0 <= j < |"サンプル工業"| ==> !CharEq("サンプル工業"[j], "田中工業"[0], true)
    ensures forall j :: 0 <= j < |"田中工業"| ==> !CharEq("サンプル工業"[0], "田中工業"[j], true)
  {
  }

  /** In the corrected order the system-name table runs first: the system name becomes
      its masked form, and no system name is left for the user names to split. */
  lemma {:induction false} SystemNamesReplacedFirst(s: string)
    ensures ApplyMapping("田中工業AI", SystemNames[0], true) == "サンプル工業AI"
    ensures !OccursBy(MaskText(s, SystemNames), SystemNames[1].original, true)
    ensures !OccursBy(MaskText(s, SystemNames), SystemNames[0].original, true)
  {
    SystemNameExample();
    var t := ApplyMapping(s, SystemNames[0], true);
    assert MaskText(s, SystemNames) == ApplyMapping(t, SystemNames[1], true) by {
      assert SystemNames[1..][1..] == [];
    }
    CompanyNamesApart();
    ReplaceAllRemoves(t, "田中工業", "サンプル工業", true);
    assert SystemNames[0].original == "" + "田中工業" + "AI";
    if OccursBy(MaskText(s, SystemNames), SystemNames[0].original, true) {
      OccursInfix(MaskText(s, SystemNames), "", "田中工業", "AI", true);
    }
  }

  // ---------------------------------------------------------------------------
  // Documents
  // ---------------------------------------------------------------------------

  /** `maskObject` for a given string masking: strings are masked, arrays element by
      element, objects entry by entry; other values are returned as they are. */
  function MaskValue(j: Json, exclude: seq<string>, str: string -> string): (r: Json)
    ensures j.JStr? ==> r == JStr(str(j.s))
    ensures j.JArr? ==> r.JArr? && |r.items| == |j.items|
                        && forall i :: 0 <= i < |j.items| ==> r.items[i] == MaskValue(j.items[i], exclude, str)
    ensures j.JObj? ==> r.JObj? && |r.fields| == |j.fields|
                        && forall i :: 0 <= i < |j.fields| ==>
                             r.fields[i] == (j.fields[i].0, MaskEntry(j.fields[i].0, j.fields[i].1, exclude, str))
    ensures !j.JStr? && !j.JArr? && !j.JObj? ==> r == j
    decreases j, 0
  {
    match j
    case JStr(s) => JStr(str(s))
    case JArr(items) => JArr(seq(|items|, i requires 0 <= i < |items| => MaskValue(items[i], exclude, str)))
    case JObj(fields) =>
      JObj(seq(|fields|, i requires 0 <= i < |fields| => (fields[i].0, MaskEntry(fields[i].0, fields[i].1, exclude, str))))
    case _ => j
  }

  /** One object entry: an excluded key keeps its value, a string under `id` goes
      through the company-id table only, anything else is masked recursively. */
  function MaskEntry(key: string, v: Json, exclude: seq<string>, str: string -> string): (r: Json)
    decreases v, 1
  {
    if key in exclude then v
    else if key == "id" && v.JStr? then JStr(MaskText(v.s, Companies))
    else MaskValue(v, exclude, str)
  }

  /** `maskObject` as the script runs it. */
  function MaskObject(j: Json, exclude: seq<string>): Json {
    MaskValue(j, exclude, MaskString)
  }

  /** The keys excluded for instruction.json and for contributions.json. */
  const InstructionExclude: seq<string> := ["timestamp", "fileSize", "mimeType"]
  const ContributionExclude: seq<string> := ["timestamp", "fileSize", "mimeType", "id"]

  /** A drawing folder name is masked with the drawing-number table alone. */
  function MaskFolderName(name: string): string {
    MaskText(name, DrawingNumbers)
  }

  /** The value with every string emptied: what masking must not change. */
  function Shape(j: Json): (r: Json)
    decreases j
  {
    match j
    case JStr(_) => JStr("")
    case JArr(items) => JArr(seq(|items|, i requires 0 <= i < |items| => Shape(items[i])))
    case JObj(fields) => JObj(seq(|fields|, i requires 0 <= i < |fields| => (fields[i].0, Shape(fields[i].1))))
    case _ => j
  }

  /** Masking changes strings only: the kinds of all values, the lengths of arrays,
      and the keys of objects and their order stay as they were. */
  lemma {:induction false} MaskKeepsShape(j: Json, exclude: seq<string>, str: string -> string)
    ensures Shape(MaskValue(j, exclude, str)) == Shape(j)
    decreases j, 1
  {
    match j
    case JArr(items) => ArrayKeepsShape(j, exclude, str);
    case JObj(fields) => ObjectKeepsShape(j, exclude, str);
    case _ =>
  }

  lemma {:induction false} ArrayKeepsShape(j: Json, exclude: seq<string>, str: string -> string)
    requires j.JArr?
    ensures Shape(MaskValue(j, exclude, str)) == Shape(j)
    decreases j, 0
  {
    var items := j.items;
    forall i | 0 <= i < |items| ensures Shape(MaskValue(items[i], exclude, str)) == Shape(items[i]) {
      MaskKeepsShape(items[i], exclude, str);
    }
    assert Shape(MaskValue(j, exclude, str)).items == Shape(j).items;
  }

  lemma {:induction false} ObjectKeepsShape(j: Json, exclude: seq<string>, str: string -> string)
    requires j.JObj?
    ensures Shape(MaskValue(j, exclude, str)) == Shape(j)
    decreases j, 0
  {
    var fields := j.fields;
    forall i | 0 <= i < |fields|
      ensures Shape(MaskEntry(fields[i].0, fields[i].1, exclude, str)) == Shape(fields[i].1)
    {
      EntryKeepsShape(fields[i].0, fields[i].1, exclude, str);
    }
    assert Shape(MaskValue(j, exclude, str)).fields == Shape(j).fields;
  }

  lemma {:induction false} EntryKeepsShape(key: string, v: Json, exclude: seq<string>, str: string -> string)
    ensures Shape(MaskEntry(key, v, exclude, str)) == Shape(v)
    decreases v, 2
  {
    if key !in exclude && !(key == "id" && v.JStr?) {
      MaskKeepsShape(v, exclude, str);
    }
  }

  /** The strings masking would look at, with the masking each gets, are all left
      unchanged by it. */
  predicate Clean(j: Json, exclude: seq<string>, str: string -> string)
    decreases j, 0
  {
    match j
    case JStr(s) => str(s) == s
    case JArr(items) => forall i :: 0 <= i < |items| ==> Clean(items[i], exclude, str)
    case JObj(fields) => forall i :: 0 <= i < |fields| ==> CleanEntry(fields[i].0, fields[i].1, exclude, str)
    case _ => true
  }

  predicate CleanEntry(key: string, v: Json, exclude: seq<string>, str: string -> string)
    decreases v, 1
  {
    if key in exclude then true
    else if key == "id" && v.JStr? then MaskText(v.s, Companies) == v.s
    else Clean(v, exclude, str)
  }

  /** A document with nothing to mask comes out as it went in. */
  lemma {:induction false} MaskCleanUnchanged(j: Json, exclude: seq<string>, str: string -> string)
    requires Clean(j, exclude, str)
    ensures MaskValue(j, exclude, str) == j
    decreases j
  {
    match j
    case JArr(items) =>
      forall i | 0 <= i < |items| ensures MaskValue(items[i], exclude, str) == items[i] {
        MaskCleanUnchanged(items[i], exclude, str);
      }
      assert MaskValue(j, exclude, str).items == items;
    case JObj(fields) =>
      forall i | 0 <= i < |fields| ensures MaskEntry(fields[i].0, fields[i].1, exclude, str) == fields[i].1 {
        assert CleanEntry(fields[i].0, fields[i].1, exclude, str);
        if fields[i].0 !in exclude && !(fields[i].0 == "id" && fields[i].1.JStr?) {
          MaskCleanUnchanged(fields[i].1, exclude, str);
        }
      }
      assert MaskValue(j, exclude, str).fields == fields;
    case _ =>
  }

  /** Excluded keys keep their values, and a string `id` is masked with the company-id
      table, at the top level of an object. */
  lemma MaskObjectEntries(fields: seq<(string, Json)>, exclude: seq<string>, str: string -> string, i: nat)
    requires i < |fields|
    ensures fields[i].0 in exclude ==> MaskValue(JObj(fields), exclude, str).fields[i] == fields[i]
    ensures fields[i].0 !in exclude && fields[i].0 == "id" && fields[i].1.JStr? ==>
              MaskValue(JObj(fields), exclude, str).fields[i] == ("id", JStr(MaskText(fields[i].1.s, Companies)))
  {
  }
}
