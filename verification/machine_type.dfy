/** Machine types and step-folder names (src/lib/machineTypeUtils.ts).
    A machine type has a Japanese display name and an English key; media of the
    n-th work step of a machine live in `step_NN_<key>`, legacy media in `step_NN`.
    An absent `machineType` argument and the empty string are the same here, because
    the source tests the argument for truthiness. */
module MachineType {
  import opened Wrappers
  import opened Strings

  /** The five English keys, in the order the whole code base lists them. */
  const MachineKeys: seq<string> := ["machining", "turning", "yokonaka", "radial", "other"]

  const OtherKey: string := "other"
  const OtherJapanese: string := "その他"

  /** `machineTypeMap`: Japanese name to English key. */
  const JapaneseToKey: map<string, string> :=
    map["マシニング" := "machining", "ターニング" := "turning", "横中" := "yokonaka",
        "ラジアル" := "radial", "フライス" := "other", "その他" := "other"]

  /** `machineTypeMapReverse`: English key to Japanese name. */
  const KeyToJapanese: map<string, string> :=
    map["machining" := "マシニング", "turning" := "ターニング", "yokonaka" := "横中",
        "radial" := "ラジアル", "other" := "その他"]

  /** `getMachineTypeKey`: unknown names, English keys included, fall back to `other`. */
  function MachineTypeKey(japanese: string): (k: string)
    ensures k in MachineKeys
    ensures japanese !in JapaneseToKey ==> k == OtherKey
  {
    if japanese in JapaneseToKey then JapaneseToKey[japanese] else OtherKey
  }

  /** `getMachineTypeJapanese`: unknown keys fall back to `その他`. */
  function MachineTypeJapanese(english: string): (j: string)
    ensures j in JapaneseToKey
    ensures english !in KeyToJapanese ==> j == OtherJapanese
  {
    if english in KeyToJapanese then KeyToJapanese[english] else OtherJapanese
  }

  /** Converting a key to its Japanese name and back gives the key again. */
  lemma KeyRoundTrip(k: string)
    requires k in MachineKeys
    ensures MachineTypeKey(MachineTypeJapanese(k)) == k
  {
  }

  /** Converting a Japanese name to its key and back gives the name again, except
      that `フライス` shares the key `other` with `その他`. */
  lemma JapaneseRoundTrip(j: string)
    requires j in JapaneseToKey
    ensures MachineTypeJapanese(MachineTypeKey(j)) == (if j == "フライス" then OtherJapanese else j)
  {
  }

  /** An English key is not a Japanese name, so it is mapped to `other`. */
  lemma EnglishKeyIsOther(k: string)
    requires k in MachineKeys
    ensures k != ""
    ensures MachineTypeKey(k) == OtherKey
  {
  }

  /** Given an English key, the shared helper builds the `other` folder. */
  lemma EnglishKeyFolder(stepNum: string, k: string)
    requires k in MachineKeys
    ensures k != ""
    ensures StepFolderName(stepNum, k) == LegacyFolderName(stepNum) + "_" + OtherKey
  {
    EnglishKeyIsOther(k);
  }

  /** `step_` followed by the step number padded with '0' to two characters. */
  function LegacyFolderName(stepNum: string): (r: string)
    ensures |r| == 5 + (if |stepNum| >= 2 then |stepNum| else 2)
    ensures r[..5] == "step_" && EndsWith(r, stepNum)
  {
    "step_" + PadStart(stepNum, 2, '0')
  }

  /** `getStepFolderName(stepNumber, machineType)`. */
  function StepFolderName(stepNum: string, machineType: string): (r: string)
    ensures machineType == "" ==> r == LegacyFolderName(stepNum)
    ensures machineType != "" ==> r == LegacyFolderName(stepNum) + "_" + MachineTypeKey(machineType)
  {
    var legacy := LegacyFolderName(stepNum);
    if machineType != "" then legacy + "_" + MachineTypeKey(machineType) else legacy
  }

  /** A numeric step number is padded to two digits and never truncated. */
  lemma StepFolderNameOfNat(n: nat)
    ensures LegacyFolderName(NatToString(n)) == "step_" + Pad2(n)
    ensures n < 10 ==> LegacyFolderName(NatToString(n)) == "step_0" + [DigitChar(n)]
    ensures n >= 10 ==> LegacyFolderName(NatToString(n)) == "step_" + NatToString(n)
  {
  }

  /** `getPossibleFolderNames`: the machine-specific name first when a machine type is
      given, and always the legacy name last. */
  function PossibleFolderNames(stepNum: string, machineType: string): (r: seq<string>)
    ensures |r| == if machineType == "" then 1 else 2
    ensures r[|r| - 1] == StepFolderName(stepNum, "")
    ensures machineType != "" ==> r[0] == StepFolderName(stepNum, machineType)
  {
    var legacy := "step_" + PadStart(stepNum, 2, '0');
    if machineType != "" then ["step_" + PadStart(stepNum, 2, '0') + "_" + MachineTypeKey(machineType), legacy]
    else [legacy]
  }

  // ---------------------------------------------------------------------------
  // extractMachineTypeFromFolder: the first match of /step_\d+_(.+)/
  // ---------------------------------------------------------------------------

  /** Characters that `.` in a regular expression does not match. */
  predicate IsLineTerminator(c: char) {
    c == '\n' || c == '\r' || c == '\U{2028}' || c == '\U{2029}'
  }

  /** The longest prefix without a line terminator (what `.+` consumes greedily). */
  function TakeLine(s: string): (r: string)
    ensures |r| <= |s| && r == s[..|r|]
    ensures forall i :: 0 <= i < |r| ==> !IsLineTerminator(r[i])
    ensures |r| < |s| ==> IsLineTerminator(s[|r|])
    decreases |s|
  {
    if |s| > 0 && !IsLineTerminator(s[0]) then [s[0]] + TakeLine(s[1..]) else ""
  }

  lemma {:induction false} TakeLineAll(s: string)
    requires forall i :: 0 <= i < |s| ==> !IsLineTerminator(s[i])
    ensures TakeLine(s) == s
    decreases |s|
  {
    if |s| > 0 { TakeLineAll(s[1..]); }
  }

  /** The capture group of a match starting exactly at the beginning of `s`. The digit
      run is maximal because a shorter run would be followed by a digit, not `_`. */
  function MatchStepAt(s: string): (m: Option<string>)
    ensures m.Some? ==> StartsWith(s, "step_") && |m.value| > 0
  {
    if StartsWith(s, "step_") then
      var rest := s[5..];
      var d := LeadingDigits(rest);
      if |d| > 0 && |d| < |rest| && rest[|d|] == '_' then
        var tail := TakeLine(rest[|d| + 1..]);
        if |tail| > 0 then Some(tail) else None
      else None
    else None
  }

  /** `extractMachineTypeFromFolder`: the capture of the leftmost match, or null. */
  function ExtractMachineType(folderName: string): (m: Option<string>)
    ensures m.Some? ==> |m.value| > 0 && Contains(folderName, "step_")
    ensures m.Some? ==> forall i :: 0 <= i < |m.value| ==> !IsLineTerminator(m.value[i])
    decreases |folderName|
  {
    var here := MatchStepAt(folderName);
    if here.Some? then here
    else if |folderName| == 0 then None
    else ExtractMachineType(folderName[1..])
  }

  /** The machine key written by `getStepFolderName` is read back by
      `extractMachineTypeFromFolder`, for every digit-only step number. */
  lemma StepFolderNameExtract(stepNum: string, machineType: string)
    requires |stepNum| > 0 && AllDigits(stepNum) && machineType != ""
    ensures ExtractMachineType(StepFolderName(stepNum, machineType)) == Some(MachineTypeKey(machineType))
  {
    var key := MachineTypeKey(machineType);
    forall i | 0 <= i < |key| ensures !IsLineTerminator(key[i]) {
    }
    MatchBuiltName(PadStart(stepNum, 2, '0'), key);
  }

  lemma MatchBuiltName(padded: string, key: string)
    requires |padded| > 0 && AllDigits(padded) && |key| > 0
    requires forall i :: 0 <= i < |key| ==> !IsLineTerminator(key[i])
    ensures ExtractMachineType("step_" + padded + "_" + key) == Some(key)
  {
    var s := "step_" + padded + "_" + key;
    assert s == "step_" + (padded + ("_" + key));
    StartsWithSpec(s, "step_");
    assert s[5..] == padded + ("_" + key);
    LeadingDigitsAppend(padded, "_" + key);
    assert s[5..][|padded| + 1..] == key;
    TakeLineAll(key);
  }

  /** A legacy folder name carries no machine type. */
  lemma LegacyFolderNameExtract(stepNum: string)
    requires AllDigits(stepNum)
    ensures ExtractMachineType(StepFolderName(stepNum, "")) == None
  {
    PaddedDigits(stepNum);
    LegacyExtract(PadStart(stepNum, 2, '0'));
  }

  lemma LegacyExtract(padded: string)
    requires AllDigits(padded)
    ensures ExtractMachineType("step_" + padded) == None
  {
    var s := "step_" + padded;
    StartsWithSpec(s, "step_");
    assert s[5..] == padded + "";
    LeadingDigitsAppend(padded, "");
    assert MatchStepAt(s) == None;
    var rest := s[1..];
    forall i | 0 <= i < |rest| ensures rest[i] != 's' {
      if i >= 4 {
        assert rest[i] == padded[i - 4];
      }
    }
    NoStepMatch(rest);
  }

  lemma PaddedDigits(stepNum: string)
    requires AllDigits(stepNum)
    ensures AllDigits(PadStart(stepNum, 2, '0'))
  {
    var p := PadStart(stepNum, 2, '0');
    forall i | 0 <= i < |p| ensures IsDigit(p[i]) {
      if i >= |p| - |stepNum| {
        assert p[i] == stepNum[i - (|p| - |stepNum|)];
      }
    }
  }

  /** Text without an `s` holds no match. */
  lemma {:induction false} NoStepMatch(t: string)
    requires forall i :: 0 <= i < |t| ==> t[i] != 's'
    ensures ExtractMachineType(t) == None
    decreases |t|
  {
    if |t| > 0 { NoStepMatch(t[1..]); }
  }
}
