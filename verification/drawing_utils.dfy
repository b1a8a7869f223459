/** Drawing registration helpers (src/lib/drawingUtils.ts): company ids, the folder
    plan of a new drawing and the default work instruction. */
module DrawingUtils {
  import opened Wrappers
  import opened Strings
  import MachineType
  import Sanitize
  import FileTree

  // ---------------------------------------------------------------------------
  // generateCompanyId
  // ---------------------------------------------------------------------------

  const MaxCompanyIdLength: nat := 30

  /** The characters a generated company id is made of: `[a-z0-9-]`. */
  predicate IdChar(c: char) { IsAsciiLower(c) || IsDigit(c) || c == '-' }

  predicate AllIdChars(s: string) {
    forall i :: 0 <= i < |s| ==> IdChar(s[i])
  }

  predicate NoDoubleDash(s: string) {
    forall i :: 0 <= i < |s| - 1 ==> !(s[i] == '-' && s[i + 1] == '-')
  }

  /** `replace(/[^a-z0-9]/g, '-')`. */
  function DashNonAlnum(s: string): (r: string)
    ensures |r| == |s| && AllIdChars(r)
    ensures forall i :: 0 <= i < |s| ==> (r[i] == '-' <==> !(IsAsciiLower(s[i]) || IsDigit(s[i])))
    ensures forall i :: 0 <= i < |s| && r[i] != '-' ==> r[i] == s[i]
  {
    seq(|s|, i requires 0 <= i < |s| => if IsAsciiLower(s[i]) || IsDigit(s[i]) then s[i] else '-')
  }

  /** `replace(/-+/g, '-')`: every run of dashes becomes one dash. */
  function CollapseDashes(s: string): (r: string)
    ensures |r| <= |s| && (|r| == 0 <==> |s| == 0)
    ensures |s| > 0 ==> r[0] == s[0] && r[|r| - 1] == s[|s| - 1]
    ensures AllIdChars(s) ==> AllIdChars(r)
    ensures NoDoubleDash(r)
    ensures (forall i :: 0 <= i < |s| ==> s[i] == '-') ==> |r| <= 1
    decreases |s|
  {
    if |s| < 2 then s
    else if s[0] == '-' && s[1] == '-' then CollapseDashes(s[1..])
    else [s[0]] + CollapseDashes(s[1..])
  }

  /** `replace(/^-|-$/g, '')`: one dash is dropped at each end. */
  function StripEndDashes(s: string): (r: string)
    ensures |r| <= |s|
    ensures |s| > 0 && s[0] == '-' ==> 1 + |r| <= |s| && r == s[1..1 + |r|]
    ensures !(|s| > 0 && s[0] == '-') ==> r == s[..|r|]
    ensures NoDoubleDash(s) ==> |r| == 0 || (r[0] != '-' && r[|r| - 1] != '-')
  {
    var a := if |s| > 0 && s[0] == '-' then s[1..] else s;
    if |a| > 0 && a[|a| - 1] == '-' then a[..|a| - 1] else a
  }

  /** The id before the 30-character cut. */
  function CompanyIdUncut(companyName: string): (r: string)
    ensures AllIdChars(r) && NoDoubleDash(r)
    ensures |r| > 0 ==> r[0] != '-' && r[|r| - 1] != '-'
  {
    var collapsed := CollapseDashes(DashNonAlnum(Lower(companyName)));
    var r := StripEndDashes(collapsed);
    var a := if |collapsed| > 0 && collapsed[0] == '-' then 1 else 0;
    IdSlice(collapsed, a, a + |r|);
    r
  }

  lemma IdSlice(s: string, a: nat, b: nat)
    requires AllIdChars(s) && NoDoubleDash(s) && a <= b <= |s|
    ensures AllIdChars(s[a..b]) && NoDoubleDash(s[a..b])
  {
    assert forall i :: 0 <= i < b - a ==> s[a..b][i] == s[a + i];
  }

  /** `generateCompanyId`. */
  function GenerateCompanyId(companyName: string): (r: string)
    ensures |r| <= MaxCompanyIdLength
    ensures AllIdChars(r) && NoDoubleDash(r)
    ensures |r| > 0 ==> r[0] != '-'
    ensures |CompanyIdUncut(companyName)| <= MaxCompanyIdLength ==> |r| == 0 || r[|r| - 1] != '-'
  {
    var uncut := CompanyIdUncut(companyName);
    if |uncut| <= MaxCompanyIdLength then uncut else uncut[..MaxCompanyIdLength]
  }

  /** A name with no ASCII letter or digit, such as an all-Japanese name, gives the
      empty id. */
  lemma CompanyIdOfNonAscii(companyName: string)
    requires forall i :: 0 <= i < |companyName| ==>
               !(IsAsciiLetter(companyName[i]) || IsDigit(companyName[i]))
    ensures GenerateCompanyId(companyName) == ""
  {
    var lower := Lower(companyName);
    var dashed := DashNonAlnum(lower);
    assert forall i :: 0 <= i < |dashed| ==> dashed[i] == '-';
  }

  /** A well-formed id is its own id, so `generateCompanyId` is idempotent on every
      result that the cut did not end with a dash. */
  lemma CompanyIdFixesValid(id: string)
    requires AllIdChars(id) && NoDoubleDash(id) && |id| <= MaxCompanyIdLength
    requires |id| > 0 ==> id[0] != '-' && id[|id| - 1] != '-'
    ensures GenerateCompanyId(id) == id
  {
    LowerOfIdChars(id);
    assert DashNonAlnum(id) == id;
    CollapseNoDouble(id);
  }

  lemma LowerOfIdChars(s: string)
    requires AllIdChars(s)
    ensures Lower(s) == s
  {
  }

  lemma {:induction false} CollapseNoDouble(s: string)
    requires NoDoubleDash(s)
    ensures CollapseDashes(s) == s
    decreases |s|
  {
    if |s| >= 2 {
      CollapseNoDouble(s[1..]);
      assert s == [s[0]] + s[1..];
    }
  }

  lemma CompanyIdIdempotent(companyName: string)
    requires var r := GenerateCompanyId(companyName); |r| == 0 || r[|r| - 1] != '-'
    ensures GenerateCompanyId(GenerateCompanyId(companyName)) == GenerateCompanyId(companyName)
  {
    CompanyIdFixesValid(GenerateCompanyId(companyName));
  }

  // ---------------------------------------------------------------------------
  // The folder plan of a new drawing
  // ---------------------------------------------------------------------------


  /** `requiredDirectories`, relative to the drawing's folder. */
  const RequiredDirectories: seq<string> := [
    "images/overview", "images/step_01", "images/step_02", "images/step_03",
    "videos/overview", "videos/step_01", "videos/step_02", "videos/step_03",
    "pdfs/overview", "pdfs/step_01", "pdfs/step_02", "pdfs/step_03",
    "programs/overview", "programs/step_01", "programs/step_02", "programs/step_03",
    "contributions/files/images", "contributions/files/videos"]

  /** For each media kind the plan holds its overview folder and the legacy folders of
      steps 1 to 3, named as `getStepFolderName` names them, then two contribution
      folders. */
  lemma RequiredDirectoriesShape()
    ensures |RequiredDirectories| == 4 * |FileTree.MediaKinds| + 2
    ensures forall k :: 0 <= k < |FileTree.MediaKinds| ==>
              RequiredDirectories[4 * k] == FileTree.MediaKinds[k] + "/overview"
    ensures forall k, j :: 0 <= k < |FileTree.MediaKinds| && 1 <= j <= 3 ==>
              RequiredDirectories[4 * k + j] == FileTree.MediaKinds[k] + "/" + MachineType.StepFolderName(NatToString(j), "")
  {
    RequiredDirectoriesLength();
    forall k | 0 <= k < |FileTree.MediaKinds|
      ensures RequiredDirectories[4 * k] == FileTree.MediaKinds[k] + "/overview"
      ensures forall j :: 1 <= j <= 3 ==> RequiredDirectories[4 * k + j] == FileTree.MediaKinds[k] + "/" + MachineType.StepFolderName(NatToString(j), "")
    {
      KindRow(k);
    }
  }

  lemma RequiredDirectoriesLength()
    ensures |RequiredDirectories| == 4 * |FileTree.MediaKinds| + 2
  {
  }

  lemma KindRow(k: nat)
    requires k < |FileTree.MediaKinds|
    ensures RequiredDirectories[4 * k] == FileTree.MediaKinds[k] + "/overview"
    ensures forall j :: 1 <= j <= 3 ==> RequiredDirectories[4 * k + j] == FileTree.MediaKinds[k] + "/" + MachineType.StepFolderName(NatToString(j), "")
  {
    if k == 0 { KindSteps0(k); }
    else if k == 1 { KindSteps1(k); }
    else if k == 2 { KindSteps2(k); }
    else { KindSteps3(k); }
  }

  lemma KindSteps0(k: nat)
    requires k == 0
    ensures RequiredDirectories[4 * k] == FileTree.MediaKinds[k] + "/overview"
    ensures forall j :: 1 <= j <= 3 ==> RequiredDirectories[4 * k + j] == FileTree.MediaKinds[k] + "/" + MachineType.StepFolderName(NatToString(j), "")
  {
    StepFolderNames();
    KindRow0();
    forall j | 1 <= j <= 3
      ensures RequiredDirectories[4 * k + j] == FileTree.MediaKinds[k] + "/" + MachineType.StepFolderName(NatToString(j), "")
    {
      if j == 1 {} else if j == 2 {} else {}
    }
  }

  lemma KindSteps1(k: nat)
    requires k == 1
    ensures RequiredDirectories[4 * k] == FileTree.MediaKinds[k] + "/overview"
    ensures forall j :: 1 <= j <= 3 ==> RequiredDirectories[4 * k + j] == FileTree.MediaKinds[k] + "/" + MachineType.StepFolderName(NatToString(j), "")
  {
    StepFolderNames();
    KindRow1();
    forall j | 1 <= j <= 3
      ensures RequiredDirectories[4 * k + j] == FileTree.MediaKinds[k] + "/" + MachineType.StepFolderName(NatToString(j), "")
    {
      if j == 1 {} else if j == 2 {} else {}
    }
  }

  lemma KindSteps2(k: nat)
    requires k == 2
    ensures RequiredDirectories[4 * k] == FileTree.MediaKinds[k] + "/overview"
    ensures forall j :: 1 <= j <= 3 ==> RequiredDirectories[4 * k + j] == FileTree.MediaKinds[k] + "/" + MachineType.StepFolderName(NatToString(j), "")
  {
    StepFolderNames();
    KindRow2();
    forall j | 1 <= j <= 3
      ensures RequiredDirectories[4 * k + j] == FileTree.MediaKinds[k] + "/" + MachineType.StepFolderName(NatToString(j), "")
    {
      if j == 1 {} else if j == 2 {} else {}
    }
  }

  lemma KindSteps3(k: nat)
    requires k == 3
    ensures RequiredDirectories[4 * k] == FileTree.MediaKinds[k] + "/overview"
    ensures forall j :: 1 <= j <= 3 ==> RequiredDirectories[4 * k + j] == FileTree.MediaKinds[k] + "/" + MachineType.StepFolderName(NatToString(j), "")
  {
    StepFolderNames();
    KindRow3();
    forall j | 1 <= j <= 3
      ensures RequiredDirectories[4 * k + j] == FileTree.MediaKinds[k] + "/" + MachineType.StepFolderName(NatToString(j), "")
    {
      if j == 1 {} else if j == 2 {} else {}
    }
  }

  lemma KindRow0()
    ensures RequiredDirectories[0] == FileTree.MediaKinds[0] + "/overview"
    ensures RequiredDirectories[1] == FileTree.MediaKinds[0] + "/" + "step_01"
    ensures RequiredDirectories[2] == FileTree.MediaKinds[0] + "/" + "step_02"
    ensures RequiredDirectories[3] == FileTree.MediaKinds[0] + "/" + "step_03"
  {
    assert RequiredDirectories[0] == "images" + "/overview";
    assert RequiredDirectories[1] == "images" + "/" + "step_01";
    assert RequiredDirectories[2] == "images" + "/" + "step_02";
    assert RequiredDirectories[3] == "images" + "/" + "step_03";
  }

  lemma KindRow1()
    ensures RequiredDirectories[4] == FileTree.MediaKinds[1] + "/overview"
    ensures RequiredDirectories[5] == FileTree.MediaKinds[1] + "/" + "step_01"
    ensures RequiredDirectories[6] == FileTree.MediaKinds[1] + "/" + "step_02"
    ensures RequiredDirectories[7] == FileTree.MediaKinds[1] + "/" + "step_03"
  {
    assert RequiredDirectories[4] == "videos" + "/overview";
    assert RequiredDirectories[5] == "videos" + "/" + "step_01";
    assert RequiredDirectories[6] == "videos" + "/" + "step_02";
    assert RequiredDirectories[7] == "videos" + "/" + "step_03";
  }

  lemma KindRow2()
    ensures RequiredDirectories[8] == FileTree.MediaKinds[2] + "/overview"
    ensures RequiredDirectories[9] == FileTree.MediaKinds[2] + "/" + "step_01"
    ensures RequiredDirectories[10] == FileTree.MediaKinds[2] + "/" + "step_02"
    ensures RequiredDirectories[11] == FileTree.MediaKinds[2] + "/" + "step_03"
  {
    assert RequiredDirectories[8] == "pdfs" + "/overview";
    assert RequiredDirectories[9] == "pdfs" + "/" + "step_01";
    assert RequiredDirectories[10] == "pdfs" + "/" + "step_02";
    assert RequiredDirectories[11] == "pdfs" + "/" + "step_03";
  }

  lemma KindRow3()
    ensures RequiredDirectories[12] == FileTree.MediaKinds[3] + "/overview"
    ensures RequiredDirectories[13] == FileTree.MediaKinds[3] + "/" + "step_01"
    ensures RequiredDirectories[14] == FileTree.MediaKinds[3] + "/" + "step_02"
    ensures RequiredDirectories[15] == FileTree.MediaKinds[3] + "/" + "step_03"
  {
    assert RequiredDirectories[12] == "programs" + "/overview";
    assert RequiredDirectories[13] == "programs" + "/" + "step_01";
    assert RequiredDirectories[14] == "programs" + "/" + "step_02";
    assert RequiredDirectories[15] == "programs" + "/" + "step_03";
  }

  lemma StepFolderNames()
    ensures MachineType.StepFolderName(NatToString(1), "") == "step_01"
    ensures MachineType.StepFolderName(NatToString(2), "") == "step_02"
    ensures MachineType.StepFolderName(NatToString(3), "") == "step_03"
  {
    MachineType.StepFolderNameOfNat(1);
    MachineType.StepFolderNameOfNat(2);
    MachineType.StepFolderNameOfNat(3);
  }

  /** `drawing-<sanitised number>`, the folder of a drawing; raises like the sanitiser. */
  function DrawingFolder(drawingNumber: string): (r: Result<string, string>)
    ensures r.Success? <==> drawingNumber != ""
    ensures r.Success? ==> r.value == "drawing-" + Sanitize.SanitizeDrawingNumberStrict(drawingNumber).value
  {
    var safe :- Sanitize.SanitizeDrawingNumberStrict(drawingNumber);
    Success("drawing-" + safe)
  }

  // ---------------------------------------------------------------------------
  // generateBasicInstruction
  // ---------------------------------------------------------------------------

  const DefaultTotalMinutes: int := 180
  const MaxPrepMinutes: int := 30
  const AdminAuthor: string := "管理画面"

  datatype WarningLevel = Normal | Important | Caution | Critical

  /** The registration form's data; `description` and `warnings` are optional. */
  datatype InstructionInput = InstructionInput(
    drawingNumber: string, title: string, companyId: string, productId: string,
    difficulty: string, estimatedTime: string, machineType: string,
    description: Option<string>, warnings: Option<seq<string>>)

  datatype Metadata = Metadata(
    drawingNumber: string, title: string, companyId: string, productId: string,
    author: string, estimatedTime: string, machineType: string, difficulty: string,
    toolsRequired: seq<string>)

  datatype Overview = Overview(
    description: string, warnings: seq<string>, preparationTime: string, processingTime: string)

  /** A template step; the times of steps 2 and 3 are left out (see README). */
  datatype TemplateStep = TemplateStep(
    stepNumber: nat, title: string, warningLevel: WarningLevel, timeRequired: Option<string>)

  datatype BasicInstruction = BasicInstruction(
    metadata: Metadata, overview: Overview, workSteps: seq<TemplateStep>)

  /** `parseInt(estimatedTime) || 180`: NaN and 0 fall back to three hours. */
  function TotalMinutes(estimatedTime: string): (t: int)
    ensures t != 0
    ensures ParseInt(estimatedTime).None? ==> t == DefaultTotalMinutes
    ensures ParseInt(estimatedTime) == Some(0) ==> t == DefaultTotalMinutes
    ensures ParseInt(estimatedTime).Some? && ParseInt(estimatedTime).value != 0 ==> t == ParseInt(estimatedTime).value
  {
    match ParseInt(estimatedTime)
    case Some(v) => if v != 0 then v else DefaultTotalMinutes
    case None => DefaultTotalMinutes
  }

  /** `Math.min(30, Math.floor(total * 0.2))`, i.e. a fifth of the total rounded down,
      capped at 30 minutes. */
  function PrepMinutes(total: int): (p: int)
    ensures p <= MaxPrepMinutes
    ensures p < MaxPrepMinutes ==> 5 * p <= total < 5 * p + 5
    ensures p == MaxPrepMinutes <==> 5 * MaxPrepMinutes <= total
    ensures total >= 0 ==> p >= 0
  {
    var fifth := total / 5;
    if fifth < MaxPrepMinutes then fifth else MaxPrepMinutes
  }

  /** A hexadecimal estimate is read as JavaScript reads it: `0x1A` is 26 minutes. */
  lemma TotalMinutesHex()
    ensures TotalMinutes("0x" + "1A") == 26
  {
    ParseIntHexExample();
  }

  /** A count of minutes as the template writes it, `${n}分`. */
  function MinutesText(n: int): string {
    IntToString(n) + "分"
  }

  /** `parseInt` reads the count back from its text. */
  lemma MinutesTextParses(n: int)
    ensures ParseInt(MinutesText(n)) == Some(n)
  {
    ParseIntSuffix(IntToString(n), "分");
    ParseIntOfIntToString(n);
  }

  /** The preparation and processing texts for a total: they parse back to a split
      of the total. */
  function TemplateTimes(total: int): (r: (string, string))
    ensures ParseInt(r.0) == Some(PrepMinutes(total))
    ensures ParseInt(r.1).Some? && ParseInt(r.0).value + ParseInt(r.1).value == total
  {
    var prep := PrepMinutes(total);
    var rest := total - prep;
    MinutesTextsParse(prep, rest);
    (MinutesText(prep), MinutesText(rest))
  }

  /** Both texts of a pair of counts parse back. */
  lemma MinutesTextsParse(a: int, b: int)
    ensures ParseInt(MinutesText(a)) == Some(a)
    ensures ParseInt(MinutesText(b)) == Some(b)
  {
    MinutesTextParses(a);
    MinutesTextParses(b);
  }

  function GenerateBasicInstruction(data: InstructionInput): (w: BasicInstruction)
    ensures |w.workSteps| == 3
    ensures forall i :: 0 <= i < 3 ==> w.workSteps[i].stepNumber == i + 1
    ensures w.workSteps[0].warningLevel == Normal && w.workSteps[1].warningLevel == Important
            && w.workSteps[2].warningLevel == Normal
    ensures w.workSteps[0].timeRequired == Some(w.overview.preparationTime)
    ensures w.metadata.estimatedTime == data.estimatedTime + "分"
    ensures w.metadata.author == AdminAuthor && w.metadata.toolsRequired == []
    ensures w.metadata.drawingNumber == data.drawingNumber && w.metadata.title == data.title
    ensures data.description.None? || data.description == Some("") ==>
              w.overview.description == data.title + "の加工を行います"
    ensures data.description.Some? && data.description.value != "" ==>
              w.overview.description == data.description.value
    ensures w.overview.warnings == data.warnings.GetOr([])
  {
    var times := TemplateTimes(TotalMinutes(data.estimatedTime));
    var prepText := times.0;
    var description := if data.description.Some? && data.description.value != "" then data.description.value
                       else data.title + "の加工を行います";
    BasicInstruction(
      Metadata(data.drawingNumber, data.title, data.companyId, data.productId, AdminAuthor,
               data.estimatedTime + "分", data.machineType, data.difficulty, []),
      Overview(description, data.warnings.GetOr([]), prepText, times.1),
      TemplateSteps(prepText))
  }

  /** The three steps of the template: set-up, main machining, finishing. */
  function TemplateSteps(prepText: string): (s: seq<TemplateStep>)
    ensures |s| == 3
    ensures forall i :: 0 <= i < 3 ==> s[i].stepNumber == i + 1
    ensures s[0].warningLevel == Normal && s[1].warningLevel == Important && s[2].warningLevel == Normal
    ensures s[0].timeRequired == Some(prepText)
  {
    [TemplateStep(1, "準備・段取り", Normal, Some(prepText)),
     TemplateStep(2, "メイン加工", Important, None),
     TemplateStep(3, "仕上げ・検査", Normal, None)]
  }

  /** The preparation and processing times written into the overview read back, with
      `parseInt`, as a split of the parsed estimate. */
  lemma InstructionTimesSumToTotal(data: InstructionInput)
    ensures var w := GenerateBasicInstruction(data);
            var prep := ParseInt(w.overview.preparationTime);
            var process := ParseInt(w.overview.processingTime);
            prep.Some? && process.Some? && prep.value + process.value == TotalMinutes(data.estimatedTime)
            && prep.value <= MaxPrepMinutes
  {
    var w := GenerateBasicInstruction(data);
    var times := TemplateTimes(TotalMinutes(data.estimatedTime));
    assert w.overview.preparationTime == times.0 && w.overview.processingTime == times.1;
  }

  /** `parseInt` stops at the first non-digit, so a unit suffix does not change it. */
  lemma ParseIntSuffix(num: string, unit: string)
    requires |num| >= 1 && (AllDigits(num) || (num[0] == '-' && AllDigits(num[1..])))
    requires |unit| > 0 && !IsDigit(unit[0]) && unit[0] != 'x' && unit[0] != 'X'
    ensures ParseInt(num + unit) == ParseInt(num)
  {
    var s := num + unit;
    assert !IsWs(s[0]) && !IsWs(num[0]);
    assert TrimStart(s) == s && TrimStart(num) == num;
    if num[0] == '-' {
      assert SkipSign(s) == num[1..] + unit;
      assert SkipSign(num) == num[1..];
      assert !HasHexPrefix(num[1..] + unit) && !HasHexPrefix(num[1..]) by {
        if |num| >= 3 { assert IsDigit(num[1..][1]); }
      }
      LeadingDigitsAppend(num[1..], unit);
      LeadingDigitsAppend(num[1..], "");
      assert num[1..] + "" == num[1..];
    } else {
      assert SkipSign(s) == s && SkipSign(num) == num;
      assert !HasHexPrefix(s) && !HasHexPrefix(num) by {
        if |num| >= 2 { assert IsDigit(num[1]); }
      }
      LeadingDigitsAppend(num, unit);
      LeadingDigitsAppend(num, "");
      assert num + "" == num;
    }
  }
}
