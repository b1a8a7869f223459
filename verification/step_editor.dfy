/** The admin editor of one work step (src/components/admin/WorkStepEditor.tsx): the
    folder its media links point into, the files it shows for the step, and the
    colour and icon of a warning level. The editor receives the machine type as an
    English key (`machining`, ...) from the machine-type tab component
    (src/components/admin/MachineTypeTab.tsx), as a Japanese name (`マシニング`, ...)
    from the drawing edit page, or not at all. */
module StepEditor {
  import opened Wrappers
  import opened Strings
  import MachineType

  /** The editor's own `getMachineTypeKey` table: Japanese names and English keys
      both map to the English key. Unlike the shared table it has no `フライス`. */
  const EditorKeyMap: map<string, string> :=
    map["マシニング" := "machining", "ターニング" := "turning", "横中" := "yokonaka",
        "ラジアル" := "radial", "その他" := "other",
        "machining" := "machining", "turning" := "turning", "yokonaka" := "yokonaka",
        "radial" := "radial", "other" := "other"]

  /** The editor's `getMachineTypeKey`: unknown names are returned unchanged. */
  function EditorMachineKey(machineType: string): (k: string)
    ensures machineType in EditorKeyMap ==> k in MachineType.MachineKeys
    ensures machineType !in EditorKeyMap ==> k == machineType
  {
    if machineType in EditorKeyMap then EditorKeyMap[machineType] else machineType
  }

  /** The editor's table agrees with the shared one on the Japanese names they both
      know, and, unlike the shared one, keeps an English key as it is. */
  lemma EditorKeyAgrees(machineType: string)
    ensures machineType in MachineType.JapaneseToKey && machineType != "フライス" ==>
              EditorMachineKey(machineType) == MachineType.MachineTypeKey(machineType)
    ensures machineType in MachineType.MachineKeys ==> EditorMachineKey(machineType) == machineType
  {
  }

  /** Normalising twice is normalising once. */
  lemma EditorKeyIdempotent(machineType: string)
    ensures EditorMachineKey(EditorMachineKey(machineType)) == EditorMachineKey(machineType)
  {
  }

  // ---------------------------------------------------------------------------
  // Step folder
  // ---------------------------------------------------------------------------

  /** The shared folder name of step n starts with the padded number, and the
      viewer extracts the machine key from it (nothing from a legacy name). */
  lemma SharedFolderExtract(n: nat, machineType: string)
    ensures machineType == "" ==> MachineType.StepFolderName(NatToString(n), machineType) == "step_" + Pad2(n)
    ensures machineType != "" ==>
              MachineType.StepFolderName(NatToString(n), machineType) ==
              "step_" + Pad2(n) + "_" + MachineType.MachineTypeKey(machineType)
    ensures machineType == "" ==> MachineType.ExtractMachineType(MachineType.StepFolderName(NatToString(n), machineType)) == None
    ensures machineType != "" ==>
              MachineType.ExtractMachineType(MachineType.StepFolderName(NatToString(n), machineType)) ==
              Some(MachineType.MachineTypeKey(machineType))
  {
    MachineType.StepFolderNameOfNat(n);
    MachineType.LegacyFolderNameExtract(NatToString(n));
    if machineType != "" {
      MachineType.StepFolderNameExtract(NatToString(n), machineType);
    }
  }

  /** `stepFolderName` as written: with a machine type, the shared
      `getStepFolderName(index + 1, machineType)`; without, `step_NN`. The folder
      is `step_NN`, followed by `_` and the shared key of the name passed in, and that
      key is what the viewer extracts from it again. */
  function EditorStepFolder(index: nat, machineType: string): (r: string)
    ensures machineType == "" ==> r == "step_" + Pad2(index + 1)
    ensures machineType != "" ==> r == "step_" + Pad2(index + 1) + "_" + MachineType.MachineTypeKey(machineType)
    ensures machineType == "" ==> MachineType.ExtractMachineType(r) == None
    ensures machineType != "" ==> MachineType.ExtractMachineType(r) == Some(MachineType.MachineTypeKey(machineType))
  {
    SharedFolderExtract(index + 1, machineType);
    if machineType != "" then MachineType.StepFolderName(NatToString(index + 1), machineType)
    else "step_" + PadStart(NatToString(index + 1), 2, '0')
  }

  /** The shared `getStepFolderName` expects a Japanese name, so the English key the
      machine tab passes selects the `other` folder: the first machining step's
      images are linked from `step_01_other`, while the files shown for that step
      are the machining ones. */
  lemma EditorFolderUsesOther(index: nat, key: string)
    requires key in MachineType.MachineKeys
    ensures EditorStepFolder(index, key) == "step_" + Pad2(index + 1) + "_" + MachineType.OtherKey
  {
    MachineType.EnglishKeyIsOther(key);
  }

  /** The intended folder: the key the editor uses for the files, turned into the
      Japanese name the shared helper expects. A name or key the editor knows gives
      the folder of its own key; anything else gives the `other` folder. */
  function CorrectedStepFolder(index: nat, machineType: string): (r: string)
    ensures machineType == "" ==> r == "step_" + Pad2(index + 1)
    ensures machineType != "" ==>
              r == "step_" + Pad2(index + 1) + "_" +
                   (if machineType in EditorKeyMap then EditorMachineKey(machineType) else MachineType.OtherKey)
  {
    if machineType != "" then
      CorrectedFolderName(index + 1, machineType);
      MachineType.StepFolderName(NatToString(index + 1), MachineType.MachineTypeJapanese(EditorMachineKey(machineType)))
    else EditorStepFolder(index, "")
  }

  /** The shared helper given the Japanese name of a key builds `step_NN_<key>`,
      which reads back as that key. */
  lemma FolderForKey(n: nat, k: string)
    requires k in MachineType.MachineKeys
    ensures MachineType.StepFolderName(NatToString(n), MachineType.MachineTypeJapanese(k)) ==
              "step_" + Pad2(n) + "_" + k
    ensures MachineType.ExtractMachineType(MachineType.StepFolderName(NatToString(n), MachineType.MachineTypeJapanese(k))) == Some(k)
  {
    var j := MachineType.MachineTypeJapanese(k);
    var num := NatToString(n);
    MachineType.KeyRoundTrip(k);
    assert j != "";
    MachineType.StepFolderNameOfNat(n);
    assert MachineType.StepFolderName(num, j) == MachineType.LegacyFolderName(num) + "_" + k;
    MachineType.StepFolderNameExtract(num, j);
  }

  /** The corrected folder carries the editor's machine key, for every known name or
      key, and reads back as that key. */
  lemma CorrectedFolderCarriesKey(index: nat, machineType: string)
    requires machineType in EditorKeyMap
    ensures CorrectedStepFolder(index, machineType) == "step_" + Pad2(index + 1) + "_" + EditorMachineKey(machineType)
    ensures MachineType.ExtractMachineType(CorrectedStepFolder(index, machineType)) == Some(EditorMachineKey(machineType))
  {
    var k := EditorMachineKey(machineType);
    assert machineType != "";
    FolderForKey(index + 1, k);
  }

  /** The corrected helper's folder: the editor's key when it knows the name,
      `other` otherwise. */
  lemma CorrectedFolderName(n: nat, machineType: string)
    requires machineType != ""
    ensures MachineType.StepFolderName(NatToString(n), MachineType.MachineTypeJapanese(EditorMachineKey(machineType))) ==
              "step_" + Pad2(n) + "_" + (if machineType in EditorKeyMap then EditorMachineKey(machineType) else MachineType.OtherKey)
  {
    if machineType in EditorKeyMap {
      FolderForKey(n, EditorMachineKey(machineType));
    } else {
      assert machineType !in MachineType.KeyToJapanese;
      FolderForKey(n, MachineType.OtherKey);
    }
  }

  /** For every machine key other than `other`, the folder the editor links differs
      from the folder the viewer reads (on the machining tab, step 1: `step_01_other`
      against `step_01_machining`). */
  lemma EditorFolderDiffers(index: nat, key: string)
    requires key in MachineType.MachineKeys && key != MachineType.OtherKey
    ensures EditorStepFolder(index, key) != CorrectedStepFolder(index, key)
  {
    EditorFolderUsesOther(index, key);
    EditorKeyAgrees(key);
    assert key in EditorKeyMap;
    var p := "step_" + Pad2(index + 1) + "_";
    assert CorrectedStepFolder(index, key) == p + key;
    assert (p + MachineType.OtherKey)[|p|..] == MachineType.OtherKey;
    assert (p + key)[|p|..] == key;
  }

  /** For a Japanese name the written code already behaves as intended. */
  lemma CorrectedAgreesOnJapanese(index: nat, machineType: string)
    requires machineType in MachineType.JapaneseToKey
    ensures CorrectedStepFolder(index, machineType) == EditorStepFolder(index, machineType)
  {
    JapaneseKeyAgrees(machineType);
  }

  /** Through the editor's table and back to Japanese, a Japanese name keeps its
      shared key. */
  lemma JapaneseKeyAgrees(machineType: string)
    requires machineType in MachineType.JapaneseToKey
    ensures machineType != "" && MachineType.MachineTypeJapanese(EditorMachineKey(machineType)) != ""
    ensures MachineType.MachineTypeKey(MachineType.MachineTypeJapanese(EditorMachineKey(machineType))) ==
              MachineType.MachineTypeKey(machineType)
  {
    if machineType != "フライス" {
      EditorKeyAgrees(machineType);
      MachineType.KeyRoundTrip(MachineType.MachineTypeKey(machineType));
    }
  }

  // ---------------------------------------------------------------------------
  // Files shown for the step
  // ---------------------------------------------------------------------------

  datatype StepFiles = StepFiles(images: seq<string>, videos: seq<string>)

  const NoFiles: StepFiles := StepFiles([], [])

  /** The file lists the editor page loaded: per step index for the legacy layout,
      and optionally per machine key. */
  datatype ActualFiles = ActualFiles(
    steps: map<nat, StepFiles>,
    stepsByMachine: Option<map<string, seq<StepFiles>>>)

  /** `getStepFiles`: the machine's list entry when a machine type is given and the
      per-machine lists exist, the legacy entry otherwise; empty lists when missing. */
  function StepFilesFor(files: ActualFiles, index: nat, machineType: string): (r: StepFiles)
    ensures machineType != "" && files.stepsByMachine.Some? ==>
              var byMachine := files.stepsByMachine.value;
              var key := EditorMachineKey(machineType);
              r == (if key in byMachine && index < |byMachine[key]| then byMachine[key][index] else NoFiles)
    ensures (machineType == "" || files.stepsByMachine.None?) ==>
              r == (if index in files.steps then files.steps[index] else NoFiles)
  {
    if machineType != "" && files.stepsByMachine.Some? then
      var byMachine := files.stepsByMachine.value;
      var key := EditorMachineKey(machineType);
      if key in byMachine && index < |byMachine[key]| then byMachine[key][index] else NoFiles
    else if index in files.steps then files.steps[index]
    else NoFiles
  }

  /** The files shown for a machine's step come from that machine's list whether the
      tab passes the English key or the Japanese name. */
  lemma StepFilesKeyOrName(files: ActualFiles, index: nat, key: string)
    requires key in MachineType.MachineKeys
    ensures StepFilesFor(files, index, key) == StepFilesFor(files, index, MachineType.MachineTypeJapanese(key))
  {
  }

  /** Without per-machine lists the machine type makes no difference: every tab
      shows the legacy files of the step. With them, a machine that has no list
      shows no files, whatever the legacy lists hold. */
  lemma StepFilesFallback(files: ActualFiles, index: nat, machineType: string)
    ensures files.stepsByMachine.None? ==> StepFilesFor(files, index, machineType) == StepFilesFor(files, index, "")
    ensures machineType != "" && files.stepsByMachine.Some? &&
            EditorMachineKey(machineType) !in files.stepsByMachine.value ==>
              StepFilesFor(files, index, machineType) == NoFiles
  {
  }

  // ---------------------------------------------------------------------------
  // Warning levels
  // ---------------------------------------------------------------------------

  /** `getWarningLevelColor`. */
  function WarningLevelColor(level: string): (c: string)
    ensures level !in {"critical", "important", "caution"} ==> c == "bg-gray-600"
  {
    match level
    case "critical" => "bg-red-600"
    case "important" => "bg-orange-600"
    case "caution" => "bg-yellow-600"
    case _ => "bg-gray-600"
  }

  /** `getWarningLevelIcon`. */
  function WarningLevelIcon(level: string): (i: string)
    ensures level !in {"critical", "important", "caution"} ==> i == "📝"
  {
    match level
    case "critical" => "🚨"
    case "important" => "⚠️"
    case "caution" => "⚡"
    case _ => "📝"
  }

  /** Levels that look different: the three named levels and the default are told
      apart by colour and by icon alike. */
  lemma WarningLevelsDistinct(a: string, b: string)
    ensures WarningLevelColor(a) == WarningLevelColor(b) <==> WarningLevelIcon(a) == WarningLevelIcon(b)
    ensures a in {"critical", "important", "caution"} && a != b ==> WarningLevelColor(a) != WarningLevelColor(b)
  {
  }
}
