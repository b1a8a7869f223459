/** Drawing-number and file-name sanitisers, and upload classification
    (src/lib/fileUtils.ts and src/lib/admin/utils.ts). The code base has two functions
    named `sanitizeDrawingNumber`: the one in fileUtils replaces each unsafe character
    by `-` and rejects empty input, the admin one deletes unsafe characters. */
module Sanitize {
  import opened Wrappers
  import opened Strings
  import opened Seqs

  /** The character class `[a-zA-Z0-9\-_]`. */
  predicate SafeChar(c: char) {
    IsAsciiLetter(c) || IsDigit(c) || c == '-' || c == '_'
  }

  predicate AllSafe(s: string) {
    forall i :: 0 <= i < |s| ==> SafeChar(s[i])
  }

  const MaxDrawingNumberLength: nat := 100
  const InvalidDrawingNumber: string := "図番が無効です"

  /** `replace(/[^a-zA-Z0-9\-_]/g, '-')`: one dash per unsafe character. */
  function DashUnsafe(s: string): (r: string)
    ensures |r| == |s| && AllSafe(r)
    ensures forall i :: 0 <= i < |s| ==> r[i] == if SafeChar(s[i]) then s[i] else '-'
  {
    seq(|s|, i requires 0 <= i < |s| => if SafeChar(s[i]) then s[i] else '-')
  }

  /** `sanitizeDrawingNumber` of src/lib/fileUtils.ts: dash unsafe characters, keep at
      most 100 of them, trim, and raise on an empty result. */
  function SanitizeDrawingNumberStrict(d: string): (r: Result<string, string>)
    ensures r.Success? <==> d != ""
    ensures r.Failure? ==> r.error == InvalidDrawingNumber
    ensures r.Success? ==> AllSafe(r.value)
    ensures r.Success? ==> |r.value| == if |d| <= MaxDrawingNumberLength then |d| else MaxDrawingNumberLength
    ensures r.Success? ==> forall i :: 0 <= i < |r.value| ==>
              r.value[i] == if SafeChar(d[i]) then d[i] else '-'
  {
    if d == "" then Failure(InvalidDrawingNumber)
    else
      var sanitized := Trim(DashedPrefix(d));
      if |sanitized| == 0 then Failure(InvalidDrawingNumber) else Success(sanitized)
  }

  /** The dashed text cut to 100 characters; it has nothing for `trim` to remove. */
  function DashedPrefix(d: string): (c: string)
    ensures |c| == if |d| <= MaxDrawingNumberLength then |d| else MaxDrawingNumberLength
    ensures AllSafe(c)
    ensures forall i :: 0 <= i < |c| ==> c[i] == if SafeChar(d[i]) then d[i] else '-'
    ensures Trim(c) == c
  {
    var dashed := DashUnsafe(d);
    var cut := if |dashed| <= MaxDrawingNumberLength then dashed else dashed[..MaxDrawingNumberLength];
    SafeIsTrimmed(cut);
    cut
  }

  lemma SafeIsTrimmed(s: string)
    requires AllSafe(s)
    ensures Trim(s) == s
  {
    if |s| > 0 {
      assert SafeChar(s[0]) && SafeChar(s[|s| - 1]);
    }
    TrimNoWs(s);
  }

  /** A non-empty drawing number always sanitises to its dashed prefix. */
  lemma StrictIsDashedPrefix(d: string)
    requires d != ""
    ensures SanitizeDrawingNumberStrict(d) == Success(DashedPrefix(d))
  {
  }

  /** A short safe drawing number is its own dashed prefix. */
  lemma DashedPrefixOfSafe(d: string)
    requires AllSafe(d) && |d| <= MaxDrawingNumberLength
    ensures DashedPrefix(d) == d
  {
    var c := DashedPrefix(d);
    assert forall i :: 0 <= i < |c| ==> c[i] == d[i];
  }

  /** Sanitising an already sanitised drawing number changes nothing. */
  lemma StrictIdempotent(d: string)
    requires d != ""
    ensures SanitizeDrawingNumberStrict(SanitizeDrawingNumberStrict(d).value) == SanitizeDrawingNumberStrict(d)
  {
    var r := SanitizeDrawingNumberStrict(d).value;
    var r2 := SanitizeDrawingNumberStrict(r).value;
    assert |r2| == |r|;
    assert forall i :: 0 <= i < |r| ==> r2[i] == r[i];
    assert r2 == r;
  }

  /** `sanitizeDrawingNumber` of src/lib/admin/utils.ts: unsafe characters are deleted;
      the result may be empty and nothing is raised. */
  function SanitizeDrawingNumberLoose(d: string): (r: string)
    ensures AllSafe(r) && |r| <= |d|
    ensures IsSubseq(r, d)
    ensures forall i :: 0 <= i < |d| && SafeChar(d[i]) ==> d[i] in r
    ensures |r| == CountIf(SafeChar, d)
  {
    FilterIsSubseq(SafeChar, d);
    FilterLength(SafeChar, d);
    Filter(SafeChar, d)
  }

  /** A safe drawing number is left alone by the deleting sanitiser, which is therefore
      idempotent. */
  lemma LooseFixesSafe(d: string)
    requires AllSafe(d)
    ensures SanitizeDrawingNumberLoose(d) == d
  {
    FilterAll(SafeChar, d);
  }

  lemma LooseIdempotent(d: string)
    ensures SanitizeDrawingNumberLoose(SanitizeDrawingNumberLoose(d)) == SanitizeDrawingNumberLoose(d)
  {
    LooseFixesSafe(SanitizeDrawingNumberLoose(d));
  }

  /** The two sanitisers agree on short safe drawing numbers, which both return as is. */
  lemma SanitizersAgreeOnSafe(d: string)
    requires d != "" && AllSafe(d) && |d| <= MaxDrawingNumberLength
    ensures SanitizeDrawingNumberStrict(d) == Success(SanitizeDrawingNumberLoose(d))
    ensures SanitizeDrawingNumberLoose(d) == d
  {
    LooseFixesSafe(d);
    StrictIsDashedPrefix(d);
    DashedPrefixOfSafe(d);
  }

  /** They disagree as soon as an unsafe character occurs: `A/B` is stored under
      `drawing-A-B` by one and `drawing-AB` by the other. */
  lemma SanitizersDisagree()
    ensures SanitizeDrawingNumberStrict("A/B") == Success("A-B")
    ensures SanitizeDrawingNumberLoose("A/B") == "AB"
  {
    StrictDashesSlash();
    LooseDropsSlash();
  }

  lemma StrictDashesSlash()
    ensures SanitizeDrawingNumberStrict("A/B") == Success("A-B")
  {
    StrictIsDashedPrefix("A/B");
    var r := DashedPrefix("A/B");
    assert r[0] == 'A' && r[1] == '-' && r[2] == 'B';
    assert r == "A-B";
  }

  lemma LooseDropsSlash()
    ensures SanitizeDrawingNumberLoose("A/B") == "AB"
  {
    LooseDropsMiddle('A', '/', 'B');
  }

  /** The deleting sanitiser drops an unsafe character between two safe ones. */
  lemma LooseDropsMiddle(x: char, y: char, z: char)
    requires SafeChar(x) && !SafeChar(y) && SafeChar(z)
    ensures SanitizeDrawingNumberLoose([x, y, z]) == [x, z]
  {
    assert [x, y, z] == [x] + [y] + [z];
    FilterOne(SafeChar, x);
    FilterOne(SafeChar, y);
    FilterOne(SafeChar, z);
    FilterAppend(SafeChar, [x], [y]);
    FilterAppend(SafeChar, [x] + [y], [z]);
    LooseIsFilter([x, y, z]);
  }

  lemma LooseIsFilter(d: string)
    ensures SanitizeDrawingNumberLoose(d) == Filter(SafeChar, d)
  {
  }

  // ---------------------------------------------------------------------------
  // sanitizeFileName
  // ---------------------------------------------------------------------------

  predicate IsPathSeparator(c: char) { c == '/' || c == '\\' }

  /** The characters `<>:"|?*`, which are removed. */
  predicate IsReservedChar(c: char) {
    c == '<' || c == '>' || c == ':' || c == '"' || c == '|' || c == '?' || c == '*'
  }

  predicate NotReserved(c: char) { !IsReservedChar(c) }

  const UnnamedFile: string := "unnamed"

  /** `replace(/^\.+/, '')`. */
  function DropLeadingDots(s: string): (r: string)
    ensures |r| <= |s| && r == s[|s| - |r|..]
    ensures |r| > 0 ==> r[0] != '.'
    decreases |s|
  {
    if |s| > 0 && s[0] == '.' then DropLeadingDots(s[1..]) else s
  }

  /** `replace(/\.+$/, '')`. */
  function DropTrailingDots(s: string): (r: string)
    ensures |r| <= |s| && r == s[..|r|]
    ensures |r| > 0 ==> r[|r| - 1] != '.'
    decreases |s|
  {
    if |s| > 0 && s[|s| - 1] == '.' then DropTrailingDots(s[..|s| - 1]) else s
  }

  /** No path separator and no reserved character. */
  predicate CleanChars(s: string) {
    forall i :: 0 <= i < |s| ==> !IsPathSeparator(s[i]) && !IsReservedChar(s[i])
  }

  /** `replace(/[\/\\]/g, '_')`. */
  function SeparatorsToUnderscore(s: string): (r: string)
    ensures |r| == |s|
    ensures forall i :: 0 <= i < |s| ==> r[i] == if IsPathSeparator(s[i]) then '_' else s[i]
  {
    seq(|s|, i requires 0 <= i < |s| => if IsPathSeparator(s[i]) then '_' else s[i])
  }

  /** `replace(/[<>:"|?*]/g, '')`: reserved characters are deleted, the rest kept in
      order and in number, so the result is the longest reserved-free subsequence. */
  function RemoveReserved(s: string): (r: string)
    ensures forall i :: 0 <= i < |r| ==> !IsReservedChar(r[i])
    ensures IsSubseq(r, s) && |r| == CountIf(NotReserved, s)
    ensures forall i :: 0 <= i < |s| && !IsReservedChar(s[i]) ==> s[i] in r
    ensures (forall i :: 0 <= i < |s| ==> !IsPathSeparator(s[i])) ==> CleanChars(r)
    ensures (forall i :: 0 <= i < |s| ==> !IsReservedChar(s[i])) ==> r == s
  {
    FilterIsSubseq(NotReserved, s);
    FilterLength(NotReserved, s);
    ReservedFreeKept(s);
    Filter(NotReserved, s)
  }

  lemma ReservedFreeKept(s: string)
    ensures (forall i :: 0 <= i < |s| ==> !IsReservedChar(s[i])) ==> Filter(NotReserved, s) == s
  {
    if forall i :: 0 <= i < |s| ==> !IsReservedChar(s[i]) {
      FilterAll(NotReserved, s);
    }
  }

  /** Every slice of a clean text is clean. */
  lemma CleanSlice(s: string, a: nat, b: nat)
    requires CleanChars(s) && a <= b <= |s|
    ensures CleanChars(s[a..b])
  {
    assert forall i :: 0 <= i < b - a ==> s[a..b][i] == s[a + i];
  }

  /** The text after each step of `sanitizeFileName`, before the `'unnamed'` fallback. */
  function FileNameCore(name: string): (r: string)
    ensures CleanChars(r)
    ensures |r| > 0 ==> r[0] != '.' && r[|r| - 1] != '.'
  {
    var u := SeparatorsToUnderscore(name);
    assert forall i :: 0 <= i < |u| ==> !IsPathSeparator(u[i]);
    var kept := RemoveReserved(u);
    var trimmed := Trim(kept);
    TrimClean(kept);
    var lead := DropLeadingDots(trimmed);
    CleanSlice(trimmed, |trimmed| - |lead|, |trimmed|);
    assert lead == trimmed[|trimmed| - |lead|..|trimmed|];
    var r := DropTrailingDots(lead);
    CleanSlice(lead, 0, |r|);
    assert r == lead[0..|r|];
    r
  }

  lemma TrimClean(s: string)
    requires CleanChars(s)
    ensures CleanChars(Trim(s))
  {
    var start := TrimStart(s);
    CleanSlice(s, |s| - |start|, |s|);
    assert start == s[|s| - |start|..|s|];
    var t := TrimEnd(start);
    CleanSlice(start, 0, |t|);
    assert t == start[0..|t|];
  }

  /** `sanitizeFileName`: no path separator, no reserved character, no leading or
      trailing dot, and never empty. */
  function SanitizeFileName(name: string): (r: string)
    ensures r != ""
    ensures CleanChars(r)
    ensures r[0] != '.' && r[|r| - 1] != '.'
  {
    var core := FileNameCore(name);
    UnnamedFileClean();
    if core == "" then UnnamedFile else core
  }

  lemma UnnamedFileClean()
    ensures UnnamedFile != "" && CleanChars(UnnamedFile)
    ensures UnnamedFile[0] != '.' && UnnamedFile[|UnnamedFile| - 1] != '.'
  {
    assert UnnamedFile == ['u'] + "nnamed";
    UnnamedCharsClean();
  }

  lemma UnnamedCharsClean()
    ensures CleanChars(UnnamedFile)
  {
    forall i | 0 <= i < |UnnamedFile| ensures !IsPathSeparator(UnnamedFile[i]) && !IsReservedChar(UnnamedFile[i]) {
      assert UnnamedFile[i] in "unamed";
    }
  }

  /** A name that is already clean is kept as is. */
  lemma SanitizeFileNameFixesClean(name: string)
    requires name != "" && CleanChars(name)
    requires !IsWs(name[0]) && !IsWs(name[|name| - 1])
    requires name[0] != '.' && name[|name| - 1] != '.'
    ensures SanitizeFileName(name) == name
  {
    assert SeparatorsToUnderscore(name) == name;
    assert RemoveReserved(name) == name;
    TrimNoWs(name);
    assert DropLeadingDots(name) == name;
    assert DropTrailingDots(name) == name;
    assert FileNameCore(name) == name;
  }

  // ---------------------------------------------------------------------------
  // determineFileType
  // ---------------------------------------------------------------------------

  datatype FileType = Images | Videos | Pdfs | Programs | Unknown

  const ProgramExtensions: seq<string> :=
    [".nc", ".txt", ".tap", ".pgm", ".mpf", ".ptp", ".gcode", ".cnc", ".min", ".eia",
     ".dxf", ".dwg", ".mcam", ".zip", ".stp", ".step"]
  const ImageExtensions: seq<string> :=
    [".jpg", ".jpeg", ".png", ".gif", ".webp", ".tif", ".tiff", ".jfif"]
  const VideoExtensions: seq<string> := [".mp4", ".avi", ".mov", ".wmv", ".webm"]

  /** `exts.some(ext => name.endsWith(ext))`. */
  predicate EndsWithAny(name: string, exts: seq<string>) {
    exists i :: 0 <= i < |exts| && EndsWith(name, exts[i])
  }

  /** `determineFileType`: PDF before program before image before video. The
      extension tests use the lower-cased name, the MIME tests are case-sensitive. */
  function DetermineFileType(fileName: string, mimeType: string): (t: FileType)
    ensures t == Pdfs <==> Contains(mimeType, "pdf") || EndsWith(Lower(fileName), ".pdf")
    ensures t == Programs ==> EndsWithAny(Lower(fileName), ProgramExtensions)
    ensures t == Images ==> StartsWith(mimeType, "image/") || EndsWithAny(Lower(fileName), ImageExtensions)
    ensures t == Videos ==> StartsWith(mimeType, "video/") || EndsWithAny(Lower(fileName), VideoExtensions)
    ensures t == Videos ==> !StartsWith(mimeType, "image/") && !EndsWithAny(Lower(fileName), ImageExtensions)
    ensures t != Pdfs && EndsWithAny(Lower(fileName), ProgramExtensions) ==> t == Programs
    ensures t != Pdfs && t != Programs && StartsWith(mimeType, "image/") ==> t == Images
    ensures t != Pdfs && t != Programs && EndsWithAny(Lower(fileName), ImageExtensions) ==> t == Images
  {
    var lowerName := Lower(fileName);
    if Contains(mimeType, "pdf") || EndsWith(lowerName, ".pdf") then Pdfs
    else if EndsWithAny(lowerName, ProgramExtensions) then Programs
    else if StartsWith(mimeType, "image/") || EndsWithAny(lowerName, ImageExtensions) then Images
    else if StartsWith(mimeType, "video/") || EndsWithAny(lowerName, VideoExtensions) then Videos
    else Unknown
  }

  /** A program extension wins over an image or video MIME type. */
  lemma ProgramBeatsMime(fileName: string, mimeType: string, i: nat)
    requires i < |ProgramExtensions| && EndsWith(Lower(fileName), ProgramExtensions[i])
    requires !Contains(mimeType, "pdf")
    ensures DetermineFileType(fileName, mimeType) == Programs
  {
    var name := Lower(fileName);
    var e := ProgramExtensions[i];
    assert |e| >= 3 && !(e[|e| - 2] == 'd' && e[|e| - 1] == 'f');
    if EndsWith(name, ".pdf") {
      assert false;
    }
  }

  /** The classification is `unknown` exactly when no rule applies. */
  lemma UnknownIff(fileName: string, mimeType: string)
    ensures DetermineFileType(fileName, mimeType) == Unknown <==>
      !Contains(mimeType, "pdf") && !StartsWith(mimeType, "image/") && !StartsWith(mimeType, "video/")
      && !EndsWith(Lower(fileName), ".pdf") && !EndsWithAny(Lower(fileName), ProgramExtensions)
      && !EndsWithAny(Lower(fileName), ImageExtensions) && !EndsWithAny(Lower(fileName), VideoExtensions)
  {
  }
}
