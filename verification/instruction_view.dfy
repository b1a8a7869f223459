/** The public view of one work instruction: the machine tabs with their step counts
    (src/components/WorkInstructionResults.tsx) and one work step with its media
    (src/components/WorkStep.tsx). The viewer names a machine by its English key in
    its tabs and hands the step component the Japanese name. */
module InstructionView {
  import opened Wrappers
  import opened Strings
  import opened WorkSteps
  import MachineType
  import StepEditor

  datatype Instruction = Instruction(
    drawingNumber: string,
    workSteps: seq<Step>,
    workStepsByMachine: Option<map<string, seq<Step>>>)

  /** The machine's own list when it exists (an empty list exists too). */
  predicate HasMachineList(ins: Instruction, machine: string) {
    ins.workStepsByMachine.Some? && machine in ins.workStepsByMachine.value
  }

  /** `getStepCountByMachine`: the machine's list length; without one, the legacy
      steps count as machining steps and other machines have none. */
  function StepCount(ins: Instruction, machine: string): (n: nat)
    ensures HasMachineList(ins, machine) ==> n == |ins.workStepsByMachine.value[machine]|
    ensures !HasMachineList(ins, machine) && machine != "machining" ==> n == 0
  {
    if HasMachineList(ins, machine) then |ins.workStepsByMachine.value[machine]|
    else if machine == "machining" then |ins.workSteps|
    else 0
  }

  /** The steps a tab lists: `workStepsByMachine?.machining || workSteps || []` on the
      machining tab, `workStepsByMachine?.[machine] || []` on the others. */
  function TabSteps(ins: Instruction, machine: string): (r: seq<Step>)
    ensures HasMachineList(ins, machine) ==> r == ins.workStepsByMachine.value[machine]
    ensures !HasMachineList(ins, machine) ==> r == (if machine == "machining" then ins.workSteps else [])
  {
    if HasMachineList(ins, machine) then ins.workStepsByMachine.value[machine]
    else if machine == "machining" then ins.workSteps
    else []
  }

  /** The count in a tab's header is the number of steps the tab lists, and the tab
      shows its "no steps yet" message exactly when that count is zero. */
  lemma CountMatchesTab(ins: Instruction, machine: string)
    ensures StepCount(ins, machine) == |TabSteps(ins, machine)|
    ensures |TabSteps(ins, machine)| == 0 <==> StepCount(ins, machine) == 0
  {
  }

  /** Only the machining tab falls back to the legacy steps. */
  lemma LegacyStepsOnMachiningTab(ins: Instruction)
    requires ins.workStepsByMachine.None?
    ensures TabSteps(ins, "machining") == ins.workSteps
    ensures forall m :: m != "machining" ==> TabSteps(ins, m) == []
  {
  }

  // ---------------------------------------------------------------------------
  // Step folders
  // ---------------------------------------------------------------------------

  /** `getStepFiles` of the results page: the key is turned into its Japanese name and
      then into `step_NN_<key>`; all four file kinds are listed from that folder. */
  function ListingFolder(stepNumber: nat, key: string): (r: string)
    ensures key in MachineType.MachineKeys ==> r == "step_" + Pad2(stepNumber) + "_" + key
  {
    var folder := MachineType.StepFolderName(NatToString(stepNumber), MachineType.MachineTypeJapanese(key));
    if key in MachineType.MachineKeys then
      StepEditor.FolderForKey(stepNumber, key);
      folder
    else folder
  }

  /** The folder of the image and video links of `WorkStep`: the shared helper when a
      machine name is given, `step_0<n>` otherwise. */
  function MediaFolder(stepNumber: nat, machineJapanese: string): (r: string)
    ensures machineJapanese != "" ==> r == MachineType.StepFolderName(NatToString(stepNumber), machineJapanese)
    ensures machineJapanese == "" ==> r == "step_0" + NatToString(stepNumber)
  {
    if machineJapanese != "" then MachineType.StepFolderName(NatToString(stepNumber), machineJapanese)
    else "step_0" + NatToString(stepNumber)
  }

  /** The media links of a tab's step point into the folder its files were listed
      from. */
  lemma MediaMatchesListing(stepNumber: nat, key: string)
    requires key in MachineType.MachineKeys
    ensures MediaFolder(stepNumber, MachineType.MachineTypeJapanese(key)) == ListingFolder(stepNumber, key)
  {
    MachineType.KeyRoundTrip(key);
  }

  /** The folder of the program download link as written: `step_0${stepNumber}`,
      with no machine key. */
  function DownloadFolder(stepNumber: nat): (r: string)
    ensures |r| >= 7 && r[..6] == "step_0" && IsDigit(r[|r| - 1])
  {
    "step_0" + NatToString(stepNumber)
  }

  /** The download link never points into the folder the programs were listed from:
      that folder ends in the machine key, the link in a digit. From step 10 on the
      link also misses the legacy folder (`step_010` for `step_10`). */
  lemma DownloadMissesListing(stepNumber: nat, key: string)
    requires key in MachineType.MachineKeys
    ensures DownloadFolder(stepNumber) != ListingFolder(stepNumber, key)
    ensures stepNumber >= 10 ==> DownloadFolder(stepNumber) != MachineType.StepFolderName(NatToString(stepNumber), "")
  {
    var l := ListingFolder(stepNumber, key);
    var prefix := "step_" + Pad2(stepNumber) + "_";
    KeyEndsInLetter(key);
    assert l == prefix + key;
    assert l[|l| - 1] == key[|key| - 1];
    if stepNumber >= 10 {
      MachineType.StepFolderNameOfNat(stepNumber);
      var d := DownloadFolder(stepNumber);
      var legacy := "step_" + NatToString(stepNumber);
      assert MachineType.StepFolderName(NatToString(stepNumber), "") == legacy;
      assert |d| == |legacy| + 1;
    }
  }

  /** Every machine key ends in a letter. */
  lemma KeyEndsInLetter(key: string)
    requires key in MachineType.MachineKeys
    ensures |key| > 0 && !IsDigit(key[|key| - 1])
  {
  }

  lemma DownloadStepTenExample()
    ensures DownloadFolder(10) == "step_010"
    ensures ListingFolder(10, "machining") == "step_10_machining"
  {
    TenText();
    ListingStepTen();
  }

  lemma TenText()
    ensures NatToString(10) == "10" && Pad2(10) == "10"
  {
    assert NatToString(10) == NatToString(1) + [DigitChar(0)];
  }

  lemma ListingStepTen()
    requires Pad2(10) == "10"
    ensures ListingFolder(10, "machining") == "step_10_machining"
  {
    assert "machining" in MachineType.MachineKeys;
    assert "step_" + "10" + "_" + "machining" == "step_10_machining";
  }

  /** The intended download folder: the one the step's files were listed from. */
  function CorrectedDownloadFolder(stepNumber: nat, machineJapanese: string): (r: string)
    ensures machineJapanese == "" ==> r == MachineType.LegacyFolderName(NatToString(stepNumber))
  {
    MachineType.StepFolderName(NatToString(stepNumber), machineJapanese)
  }

  lemma CorrectedDownloadMatchesListing(stepNumber: nat, key: string)
    requires key in MachineType.MachineKeys
    ensures CorrectedDownloadFolder(stepNumber, MachineType.MachineTypeJapanese(key)) == ListingFolder(stepNumber, key)
    ensures CorrectedDownloadFolder(stepNumber, MachineType.MachineTypeJapanese(key)) == MediaFolder(stepNumber, MachineType.MachineTypeJapanese(key))
  {
    MachineType.KeyRoundTrip(key);
  }

  // ---------------------------------------------------------------------------
  // Step contents
  // ---------------------------------------------------------------------------

  datatype LoadedFiles = LoadedFiles(images: seq<string>, videos: seq<string>, programs: seq<string>)

  /** The media block is shown once loading has finished and there is an image, a
      video or a program; PDFs are listed but never shown. */
  predicate ShowsMedia(loading: bool, files: LoadedFiles) {
    !loading && (|files.images| > 0 || |files.videos| > 0 || |files.programs| > 0)
  }

  const CuttingProperties: seq<string> := ["tool", "spindleSpeed", "feedRate", "depthOfCut", "stepOver", "coolant"]

  /** `getPropertyText`: the Japanese label of a cutting-condition property; any other
      property name is shown as it is. */
  function PropertyText(prop: string): (r: string)
    ensures prop !in CuttingProperties ==> r == prop
  {
    match prop
    case "tool" => "工具"
    case "spindleSpeed" => "主軸回転数"
    case "feedRate" => "送り速度"
    case "depthOfCut" => "切込み深さ"
    case "stepOver" => "送りピッチ"
    case "coolant" => "切削油"
    case _ => prop
  }

  /** A label differs from its property name exactly for the six known properties, and
      the six labels are distinct. */
  lemma PropertyTextIff(prop: string)
    ensures PropertyText(prop) != prop <==> prop in CuttingProperties
  {
  }

  lemma PropertyLabelsDistinct(i: nat, j: nat)
    requires i < j < |CuttingProperties|
    ensures PropertyText(CuttingProperties[i]) != PropertyText(CuttingProperties[j])
  {
  }

  // ---------------------------------------------------------------------------
  // Lightbox
  // ---------------------------------------------------------------------------

  /** `(prev + 1) % images.length`; `None` stands for the `NaN` of an empty list. */
  function LightboxNext(prev: nat, count: nat): (r: Option<nat>)
    ensures r.Some? <==> count > 0
    ensures r.Some? ==> r.value < count
  {
    if count == 0 then None else Some((prev + 1) % count)
  }

  /** `(prev - 1 + images.length) % images.length`. */
  function LightboxPrev(prev: nat, count: nat): (r: Option<nat>)
    ensures r.Some? <==> count > 0
    ensures r.Some? ==> r.value < count
  {
    if count == 0 then None else Some((prev + count - 1) % count)
  }

  /** Stepping forward then back returns to the same image. */
  lemma LightboxBackAndForth(i: nat, count: nat)
    requires i < count
    ensures LightboxNext(i, count).Some?
    ensures LightboxPrev(LightboxNext(i, count).value, count) == Some(i)
  {
    if i + 1 < count {
      ModBelow(i + 1, count);
      ModOnce(i + count, count);
    } else {
      ModOnce(count, count);
      ModBelow(count - 1, count);
    }
  }

  lemma ModBelow(a: nat, c: nat)
    requires a < c
    ensures a % c == a
  {
  }

  lemma ModOnce(a: nat, c: nat)
    requires 0 < c <= a < 2 * c
    ensures a % c == a - c
  {
  }
}
