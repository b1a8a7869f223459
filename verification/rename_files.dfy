/** The file renaming of doc/demo-version/rename-files-for-masking.js: for every
    drawing of `search-index.json` that has a display number, the regular files
    directly inside the sub-folders of the drawing's `pdfs` and `programs` folders
    whose names contain the drawing number are renamed, every occurrence of the
    number replaced by the display number. The drawings are visited longest number
    first; a rename that fails is recorded and the run goes on. */
module RenameFiles {
  import opened Wrappers
  import opened Strings
  import opened Seqs
  import opened Replace
  import opened DemoData

  // ---------------------------------------------------------------------------
  // The display-number map
  // ---------------------------------------------------------------------------

  /** `drawingMap`: every drawing with a display number, to the display number of
      its last such entry. */
  function DisplayMap(entries: seq<IndexEntry>): (r: map<string, string>)
    ensures forall n :: n in r <==> exists i :: 0 <= i < |entries| && entries[i].drawingNumber == n && Truthy(entries[i].display)
    decreases |entries|
  {
    if |entries| == 0 then map[]
    else
      var init := entries[..|entries| - 1];
      var e := entries[|entries| - 1];
      assert entries == init + [e];
      var rest := DisplayMap(init);
      if Truthy(e.display) then rest[e.drawingNumber := e.display.value] else rest
  }

  /** The entry that sets a drawing's display number is its last entry with one. */
  lemma {:induction false} DisplayMapLastWins(entries: seq<IndexEntry>, i: nat)
    requires i < |entries| && Truthy(entries[i].display)
    requires forall j :: i < j < |entries| && entries[j].drawingNumber == entries[i].drawingNumber ==>
               !Truthy(entries[j].display)
    ensures DisplayMap(entries)[entries[i].drawingNumber] == entries[i].display.value
    decreases |entries|
  {
    if i < |entries| - 1 {
      var init := entries[..|entries| - 1];
      assert init[i] == entries[i];
      DisplayMapLastWins(init, i);
    }
  }

  /** The display number is never empty. */
  lemma {:induction false} DisplayMapNonEmpty(entries: seq<IndexEntry>)
    ensures forall n :: n in DisplayMap(entries) ==> DisplayMap(entries)[n] != ""
    decreases |entries|
  {
    if |entries| > 0 {
      DisplayMapNonEmpty(entries[..|entries| - 1]);
    }
  }

  /** The drawing numbers that get a display number, in entry order. */
  function MappedNumbers(entries: seq<IndexEntry>): (r: seq<string>)
    ensures forall n :: n in r <==> n in DisplayMap(entries)
    decreases |entries|
  {
    if |entries| == 0 then []
    else
      var init := entries[..|entries| - 1];
      var e := entries[|entries| - 1];
      assert entries == init + [e];
      MappedNumbers(init) + (if Truthy(e.display) then [e.drawingNumber] else [])
  }

  /** `Object.keys(drawingMap)`: the keys in order of first insertion. */
  function MapKeys(entries: seq<IndexEntry>): (r: seq<string>)
    ensures NoDup(r)
    ensures forall n :: n in r <==> n in DisplayMap(entries)
  {
    var all := MappedNumbers(entries);
    forall n | n in all ensures n in Dedup(all) {
      var k :| 0 <= k < |all| && all[k] == n;
    }
    Dedup(all)
  }

  // ---------------------------------------------------------------------------
  // Longest number first
  // ---------------------------------------------------------------------------

  /** Non-increasing length. */
  predicate LongestFirst(s: seq<string>) {
    forall i, j :: 0 <= i < j < |s| ==> |s[i]| >= |s[j]|
  }

  /** Puts `x` before the first element no longer than it, so that equal lengths
      keep their order when the list is built from the back. */
  function InsertByLength(x: string, s: seq<string>): (r: seq<string>)
    requires LongestFirst(s)
    ensures LongestFirst(r)
    ensures multiset(r) == multiset(s) + multiset{x}
    ensures |r| > 0 && (r[0] == x || (|s| > 0 && r[0] == s[0]))
    decreases |s|
  {
    if |s| == 0 || |x| >= |s[0]| then
      ConsLongest(x, s);
      [x] + s
    else
      var rest := InsertByLength(x, s[1..]);
      assert s == [s[0]] + s[1..];
      assert |s| > 1 ==> |s[0]| >= |s[1]|;
      ConsLongest(s[0], rest);
      [s[0]] + rest
  }

  /** A string at least as long as the head of a longest-first list can go in front. */
  lemma ConsLongest(h: string, s: seq<string>)
    requires LongestFirst(s) && (|s| == 0 || |h| >= |s[0]|)
    ensures LongestFirst([h] + s)
  {
    var r := [h] + s;
    forall i, j | 0 <= i < j < |r| ensures |r[i]| >= |r[j]| {
      if i == 0 && j > 1 {
        assert |s[0]| >= |s[j - 1]|;
      }
    }
  }

  /** `sort((a, b) => b.length - a.length)`, a stable sort. */
  function SortByLength(s: seq<string>): (r: seq<string>)
    ensures LongestFirst(r)
    ensures multiset(r) == multiset(s)
    decreases |s|
  {
    if |s| == 0 then []
    else
      assert s == [s[0]] + s[1..];
      InsertByLength(s[0], SortByLength(s[1..]))
  }

  /** The sorted list holds the same strings, once each when they were distinct. */
  lemma SortByLengthSame(s: seq<string>)
    requires NoDup(s)
    ensures |SortByLength(s)| == |s|
    ensures forall n :: n in SortByLength(s) <==> n in s
    ensures NoDup(SortByLength(s))
  {
    var r := SortByLength(s);
    assert |r| == |multiset(r)| == |multiset(s)| == |s|;
    forall n ensures n in r <==> n in s {
      assert n in r <==> n in multiset(r);
      assert n in s <==> n in multiset(s);
    }
    forall i, j | 0 <= i < j < |r| ensures r[i] != r[j] {
      if r[i] == r[j] {
        MultisetTwice(r, i, j);
        MultisetOnce(s, r[i]);
      }
    }
  }

  lemma MultisetTwice(r: seq<string>, i: nat, j: nat)
    requires i < j < |r| && r[i] == r[j]
    ensures multiset(r)[r[i]] >= 2
  {
    assert r == r[..i] + [r[i]] + r[i + 1..j] + [r[j]] + r[j + 1..];
  }

  lemma {:induction false} MultisetOnce(s: seq<string>, x: string)
    requires NoDup(s)
    ensures multiset(s)[x] <= 1
    decreases |s|
  {
    if |s| > 0 {
      var init := s[..|s| - 1];
      assert s == init + [s[|s| - 1]];
      assert NoDup(init);
      MultisetOnce(init, x);
      if s[|s| - 1] == x {
        assert x !in init;
      }
    }
  }

  // ---------------------------------------------------------------------------
  // File names
  // ---------------------------------------------------------------------------

  /** `t` is `r` before each character of `s`, in order, and `r` once more at the
      end. */
  predicate Interleaves(t: string, s: string, r: string) {
    var w := |r| + 1;
    |t| == |s| * w + |r|
    && (forall i :: 0 <= i < |s| ==> i * w + |r| < |t| && t[i * w + |r|] == s[i] && t[i * w..i * w + |r|] == r)
    && |s| * w <= |t| && t[|s| * w..] == r
  }

  lemma InterleavesCons(c: char, s: string, r: string, t: string)
    requires Interleaves(t, s, r)
    ensures Interleaves(r + [c] + t, [c] + s, r)
  {
    var w := |r| + 1;
    var s2 := [c] + s;
    var t2 := r + [c] + t;
    forall i | 0 <= i < |s2|
      ensures i * w + |r| < |t2| && t2[i * w + |r|] == s2[i] && t2[i * w..i * w + |r|] == r
    {
      if i > 0 {
        InterleavesConsAt(c, s, r, t, i);
      } else {
        assert i * w == 0;
        assert t2[..|r|] == r;
      }
    }
    InterleavesConsEnd(c, s, r, t);
  }

  /** The longer interleaving has the right length and ends with `r`. */
  lemma InterleavesConsEnd(c: char, s: string, r: string, t: string)
    requires Interleaves(t, s, r)
    ensures var w := |r| + 1;
            |r + [c] + t| == |[c] + s| * w + |r| && |[c] + s| * w <= |r + [c] + t|
            && (r + [c] + t)[|[c] + s| * w..] == r
  {
    ShiftedBlock(r + [c], t, |s|, |r| + 1);
  }

  /** The `i`-th block of the longer interleaving is the `(i-1)`-th of the shorter. */
  lemma InterleavesConsAt(c: char, s: string, r: string, t: string, i: nat)
    requires Interleaves(t, s, r) && 0 < i <= |s|
    ensures var w := |r| + 1;
            i * w + |r| < |r + [c] + t| && (r + [c] + t)[i * w + |r|] == s[i - 1]
            && (r + [c] + t)[i * w..i * w + |r|] == r
  {
    var w := |r| + 1;
    var j := i - 1;
    assert j * w + |r| < |t| && t[j * w + |r|] == s[j] && t[j * w..j * w + |r|] == r;
    ShiftedBlock(r + [c], t, j, w);
  }

  /** Past a prefix of length `w`, block `j + 1` of `p + t` is block `j` of `t`. */
  lemma ShiftedBlock(p: string, t: string, j: nat, w: nat)
    requires |p| == w && w > 0 && j * w <= |t|
    ensures (j + 1) * w == w + j * w
    ensures (p + t)[(j + 1) * w..] == t[j * w..]
  {
  }

  /** A global replace of the empty pattern puts `r` before every character and at
      the end. */
  function InsertEverywhere(s: string, r: string): (t: string)
    ensures Interleaves(t, s, r)
    decreases |s|
  {
    if |s| == 0 then r
    else
      var rest := InsertEverywhere(s[1..], r);
      InterleavesCons(s[0], s[1..], r, rest);
      assert [s[0]] + s[1..] == s;
      r + [s[0]] + rest
  }

  /** `name.replace(new RegExp(escapeRegExp(number), 'g'), display)`. */
  function ReplaceAllJs(name: string, number: string, display: string): string {
    if |number| == 0 then InsertEverywhere(name, display) else ReplaceAll(name, number, display)
  }

  /** When the display number shares no character with the drawing number, the new
      name no longer contains the drawing number. */
  lemma NewNameLosesNumber(name: string, number: string, display: string)
    requires |number| > 0 && |display| > 0
    requires forall a, b :: 0 <= a < |display| && 0 <= b < |number| ==> display[a] != number[b]
    ensures !Contains(ReplaceAllJs(name, number, display), number)
  {
    ReplaceAllRemoves(name, number, display, false);
  }

  // ---------------------------------------------------------------------------
  // One sub-folder
  // ---------------------------------------------------------------------------

  /** Where a file sits: drawing number, `pdfs` or `programs`, sub-folder, name. */
  datatype FilePath = FilePath(drawing: string, folderType: string, subFolder: string, fileName: string)

  /** A sub-folder's entries, each name to whether it is a regular file, and the
      order its listing returns them in. */
  datatype SubFolder = NotDirectory | Directory(entries: map<string, bool>, listing: seq<string>)

  /** The listing names every entry once. */
  predicate WellListed(d: SubFolder) {
    d.Directory? ==>
      NoDup(d.listing) && (forall n :: n in d.listing ==> n in d.entries) && (forall n :: n in d.entries ==> n in d.listing)
  }

  /** The entries after some renames, the renames done and the names whose rename
      failed. */
  datatype Renaming = Renaming(entries: map<string, bool>, renamed: nat, errors: seq<string>)

  /** A listed name the script tries to rename. */
  predicate Attempted(entries: map<string, bool>, number: string, n: string) {
    n in entries && entries[n] && Contains(n, number)
  }

  /** The outcome of one file's rename: the operating system refuses to put a file
      in place of a directory, and `ok` stands for every other failure. */
  function RenameOne(entries: map<string, bool>, n: string, number: string, display: string,
                     at: string -> FilePath, ok: FilePath -> bool): (r: Renaming)
    ensures !Attempted(entries, number, n) ==> r == Renaming(entries, 0, [])
    ensures Attempted(entries, number, n) ==> r.renamed + |r.errors| == 1
    ensures Attempted(entries, number, n) ==>
              (r.renamed == 1 <==> ok(at(n)) && (ReplaceAllJs(n, number, display) !in entries
                                                  || entries[ReplaceAllJs(n, number, display)]))
    ensures |r.errors| == 1 ==> r.errors == [n]
    ensures r.renamed == 1 ==> r.entries == (entries - {n})[ReplaceAllJs(n, number, display) := true]
    ensures r.renamed == 0 ==> r.entries == entries
  {
    if !Attempted(entries, number, n) then Renaming(entries, 0, [])
    else
      var target := ReplaceAllJs(n, number, display);
      if ok(at(n)) && (target !in entries || entries[target]) then Renaming((entries - {n})[target := true], 1, [])
      else Renaming(entries, 0, [n])
  }

  /** The listed names in order. */
  function RenameListed(entries: map<string, bool>, listing: seq<string>, number: string, display: string,
                        at: string -> FilePath, ok: FilePath -> bool): (r: Renaming)
    ensures r.renamed + |r.errors| <= |listing|
    decreases |listing|
  {
    if |listing| == 0 then Renaming(entries, 0, [])
    else
      var step := RenameOne(entries, listing[0], number, display, at, ok);
      var rest := RenameListed(step.entries, listing[1..], number, display, at, ok);
      Renaming(rest.entries, step.renamed + rest.renamed, step.errors + rest.errors)
  }

  /** How many listed names are attempted, judged on the entries as listed. */
  function AttemptCount(entries: map<string, bool>, listing: seq<string>, number: string): nat
    decreases |listing|
  {
    if |listing| == 0 then 0
    else (if Attempted(entries, number, listing[0]) then 1 else 0) + AttemptCount(entries, listing[1..], number)
  }

  lemma {:induction false} AttemptCountAgree(e1: map<string, bool>, e2: map<string, bool>, listing: seq<string>, number: string)
    requires forall k :: k in listing ==> (k in e1 <==> k in e2) && (k in e1 ==> e1[k] == e2[k])
    ensures AttemptCount(e1, listing, number) == AttemptCount(e2, listing, number)
    decreases |listing|
  {
    if |listing| > 0 {
      AttemptCountAgree(e1, e2, listing[1..], number);
    }
  }

  /** Every file the listing names that is a regular file containing the number is
      either renamed or recorded as an error, once: a rename never removes or
      changes the kind of a name still to come. */
  lemma {:induction false} RenameListedCount(entries: map<string, bool>, listing: seq<string>, number: string,
                                             display: string, at: string -> FilePath, ok: FilePath -> bool)
    requires NoDup(listing) && forall k :: k in listing ==> k in entries
    ensures RenameListed(entries, listing, number, display, at, ok).renamed
            + |RenameListed(entries, listing, number, display, at, ok).errors| == AttemptCount(entries, listing, number)
    decreases |listing|
  {
    if |listing| > 0 {
      var n := listing[0];
      var step := RenameOne(entries, n, number, display, at, ok);
      var tail := listing[1..];
      assert NoDup(tail);
      forall k | k in tail ensures k in step.entries && step.entries[k] == entries[k] {
        assert k != n;
      }
      RenameListedCount(step.entries, tail, number, display, at, ok);
      AttemptCountAgree(step.entries, entries, tail, number);
    }
  }

  /** Renaming only touches attempted names and their new names: any other entry
      keeps its name and kind. */
  lemma {:induction false} RenameListedKeeps(entries: map<string, bool>, listing: seq<string>, number: string,
                                             display: string, at: string -> FilePath, ok: FilePath -> bool, k: string)
    requires k in entries && !Contains(k, number)
    requires forall n :: n in listing && Attempted(entries, number, n) ==> ReplaceAllJs(n, number, display) != k
    requires forall n :: n in listing ==> n in entries
    requires NoDup(listing)
    ensures k in RenameListed(entries, listing, number, display, at, ok).entries
    ensures RenameListed(entries, listing, number, display, at, ok).entries[k] == entries[k]
    decreases |listing|
  {
    if |listing| > 0 {
      var n := listing[0];
      var step := RenameOne(entries, n, number, display, at, ok);
      var tail := listing[1..];
      assert NoDup(tail);
      forall m | m in tail ensures m in step.entries && step.entries[m] == entries[m] {
        assert m != n;
      }
      forall m | m in tail && Attempted(step.entries, number, m) ensures ReplaceAllJs(m, number, display) != k {
        assert Attempted(entries, number, m);
      }
      RenameListedKeeps(step.entries, tail, number, display, at, ok, k);
    }
  }

  /** A sub-folder that is not a directory is skipped. */
  function RenameSub(d: SubFolder, number: string, display: string, at: string -> FilePath,
                     ok: FilePath -> bool): (r: (SubFolder, Renaming))
    ensures d.NotDirectory? ==> r.0 == d && r.1.renamed == 0 && r.1.errors == []
    ensures d.Directory? ==> r.0.Directory? && r.0.listing == d.listing && r.0.entries == r.1.entries
    ensures d.Directory? && WellListed(d) ==> r.1.renamed + |r.1.errors| == AttemptCount(d.entries, d.listing, number)
  {
    if d.NotDirectory? then (d, Renaming(map[], 0, []))
    else
      RenameSubCount(d, number, display, at, ok);
      var r := RenameListed(d.entries, d.listing, number, display, at, ok);
      (d.(entries := r.entries), r)
  }

  /** When every rename succeeds and the display number shares no character with
      the drawing number, no regular file named with the drawing number is left. */
  lemma {:induction false} RenameListedClears(entries: map<string, bool>, listing: seq<string>, number: string,
                                              display: string, at: string -> FilePath, ok: FilePath -> bool)
    requires |number| > 0 && |display| > 0
    requires forall a, b :: 0 <= a < |display| && 0 <= b < |number| ==> display[a] != number[b]
    requires NoDup(listing)
    requires forall k :: Attempted(entries, number, k) ==> k in listing
    requires RenameListed(entries, listing, number, display, at, ok).errors == []
    ensures forall k :: !Attempted(RenameListed(entries, listing, number, display, at, ok).entries, number, k)
    decreases |listing|
  {
    if |listing| > 0 {
      var n := listing[0];
      var step := RenameOne(entries, n, number, display, at, ok);
      var tail := listing[1..];
      assert NoDup(tail);
      assert step.errors == [];
      NewNameLosesNumber(n, number, display);
      forall k | Attempted(step.entries, number, k) ensures k in tail {
        assert k != n && Attempted(entries, number, k);
      }
      RenameListedClears(step.entries, tail, number, display, at, ok);
    }
  }

  lemma RenameSubCount(d: SubFolder, number: string, display: string, at: string -> FilePath, ok: FilePath -> bool)
    requires d.Directory?
    ensures WellListed(d) ==>
              (RenameListed(d.entries, d.listing, number, display, at, ok).renamed
               + |RenameListed(d.entries, d.listing, number, display, at, ok).errors| == AttemptCount(d.entries, d.listing, number))
  {
    if WellListed(d) {
      RenameListedCount(d.entries, d.listing, number, display, at, ok);
    }
  }

  // ---------------------------------------------------------------------------
  // One drawing
  // ---------------------------------------------------------------------------

  datatype SubEntry = SubEntry(name: string, folder: SubFolder)

  /** A drawing folder: its `pdfs` and `programs` folders, each the listing of its
      entries; a missing key is a missing folder. */
  type DrawingTree = map<string, seq<SubEntry>>

  const FolderTypes: seq<string> := ["pdfs", "programs"]

  datatype Tally = Tally(renamed: nat, errors: seq<FilePath>)

  function AtPath(number: string, folderType: string, sub: string): string -> FilePath {
    (n: string) => FilePath(number, folderType, sub, n)
  }

  /** The renames one sub-folder does on its own. */
  function SubRenamed(number: string, display: string, folderType: string, ok: FilePath -> bool): SubEntry -> nat {
    (e: SubEntry) => RenameSub(e.folder, number, display, AtPath(number, folderType, e.name), ok).1.renamed
  }

  /** The failed renames of one sub-folder on its own. */
  function SubErrors(number: string, display: string, folderType: string, ok: FilePath -> bool): SubEntry -> nat {
    (e: SubEntry) => |RenameSub(e.folder, number, display, AtPath(number, folderType, e.name), ok).1.errors|
  }

  /** The files of one sub-folder the script tries to rename. */
  function SubAttempts(number: string): SubEntry -> nat {
    (e: SubEntry) => if e.folder.Directory? then AttemptCount(e.folder.entries, e.folder.listing, number) else 0
  }

  /** A folder type's tally adds up its sub-folders' own renames and failures, and,
      when every sub-folder is well listed, accounts for every file the script
      tries to rename. */
  predicate SubsTallied(subs: seq<SubEntry>, number: string, display: string, folderType: string,
                        ok: FilePath -> bool, t: Tally) {
    t.renamed == Sum(MapNat(SubRenamed(number, display, folderType, ok), subs))
    && |t.errors| == Sum(MapNat(SubErrors(number, display, folderType, ok), subs))
    && ((forall i :: 0 <= i < |subs| ==> WellListed(subs[i].folder)) ==>
          t.renamed + |t.errors| == Sum(MapNat(SubAttempts(number), subs)))
  }

  /** The sub-folders of one `pdfs` or `programs` folder, in listing order. */
  function RenameSubs(subs: seq<SubEntry>, number: string, display: string, folderType: string,
                      ok: FilePath -> bool): (r: (seq<SubEntry>, Tally))
    ensures |r.0| == |subs|
    ensures forall i :: 0 <= i < |subs| ==>
              r.0[i].name == subs[i].name
              && r.0[i].folder == RenameSub(subs[i].folder, number, display, AtPath(number, folderType, subs[i].name), ok).0
    ensures forall e :: e in r.1.errors ==> e.drawing == number && e.folderType == folderType
    decreases |subs|
  {
    if |subs| == 0 then ([], Tally(0, []))
    else
      var s := subs[0];
      var one := RenameSub(s.folder, number, display, AtPath(number, folderType, s.name), ok);
      var rest := RenameSubs(subs[1..], number, display, folderType, ok);
      var failed := seq(|one.1.errors|, i requires 0 <= i < |one.1.errors| => FilePath(number, folderType, s.name, one.1.errors[i]));
      ([SubEntry(s.name, one.0)] + rest.0, Tally(one.1.renamed + rest.1.renamed, failed + rest.1.errors))
  }

  /** A folder type's tally is the sum of its sub-folders' own. */
  lemma RenameSubsTally(subs: seq<SubEntry>, number: string, display: string, folderType: string,
                        ok: FilePath -> bool)
    ensures SubsTallied(subs, number, display, folderType, ok, RenameSubs(subs, number, display, folderType, ok).1)
  {
    RenameSubsSums(subs, number, display, folderType, ok);
    if forall i :: 0 <= i < |subs| ==> WellListed(subs[i].folder) {
      forall i | 0 <= i < |subs|
        ensures SubRenamed(number, display, folderType, ok)(subs[i]) + SubErrors(number, display, folderType, ok)(subs[i])
                == SubAttempts(number)(subs[i])
      {
        assert WellListed(subs[i].folder);
      }
      SumMapAdd(SubRenamed(number, display, folderType, ok), SubErrors(number, display, folderType, ok),
                SubAttempts(number), subs);
    }
  }

  lemma RenameSubsSums(subs: seq<SubEntry>, number: string, display: string, folderType: string, ok: FilePath -> bool)
    ensures RenameSubs(subs, number, display, folderType, ok).1.renamed == Sum(MapNat(SubRenamed(number, display, folderType, ok), subs))
    ensures |RenameSubs(subs, number, display, folderType, ok).1.errors| == Sum(MapNat(SubErrors(number, display, folderType, ok), subs))
  {
    RenameSubsRenamed(subs, number, display, folderType, ok);
    RenameSubsErrors(subs, number, display, folderType, ok);
  }

  lemma {:induction false} RenameSubsRenamed(subs: seq<SubEntry>, number: string, display: string, folderType: string,
                                             ok: FilePath -> bool)
    ensures RenameSubs(subs, number, display, folderType, ok).1.renamed == Sum(MapNat(SubRenamed(number, display, folderType, ok), subs))
    decreases |subs|
  {
    if |subs| > 0 {
      RenameSubsRenamed(subs[1..], number, display, folderType, ok);
      SumMapCons(SubRenamed(number, display, folderType, ok), subs);
    }
  }

  lemma {:induction false} RenameSubsErrors(subs: seq<SubEntry>, number: string, display: string, folderType: string,
                                            ok: FilePath -> bool)
    ensures |RenameSubs(subs, number, display, folderType, ok).1.errors| == Sum(MapNat(SubErrors(number, display, folderType, ok), subs))
    decreases |subs|
  {
    if |subs| > 0 {
      RenameSubsErrors(subs[1..], number, display, folderType, ok);
      SumMapCons(SubErrors(number, display, folderType, ok), subs);
    }
  }

  /** What renaming the sub-folders of one folder type reports, nothing when the
      folder is missing. */
  function KindTally(t: DrawingTree, number: string, display: string, ok: FilePath -> bool, folderType: string): Tally {
    if folderType in t then RenameSubs(t[folderType], number, display, folderType, ok).1 else Tally(0, [])
  }

  /** `pdfs`, then `programs`, each when it exists. */
  function RenameDrawing(t: DrawingTree, number: string, display: string, ok: FilePath -> bool): (r: (DrawingTree, Tally))
    ensures r.0.Keys == t.Keys
    ensures forall k :: k in t && k !in FolderTypes ==> r.0[k] == t[k]
    ensures forall e :: e in r.1.errors ==> e.drawing == number && e.folderType in FolderTypes
    ensures "pdfs" in t ==> r.0["pdfs"] == RenameSubs(t["pdfs"], number, display, "pdfs", ok).0
    ensures "programs" in t ==> r.0["programs"] == RenameSubs(t["programs"], number, display, "programs", ok).0
    ensures r.1.renamed == KindTally(t, number, display, ok, "pdfs").renamed + KindTally(t, number, display, ok, "programs").renamed
    ensures r.1.errors == KindTally(t, number, display, ok, "pdfs").errors + KindTally(t, number, display, ok, "programs").errors
  {
    var p := if "pdfs" in t then RenameSubs(t["pdfs"], number, display, "pdfs", ok) else ([], Tally(0, []));
    var t1 := if "pdfs" in t then t["pdfs" := p.0] else t;
    var q := if "programs" in t1 then RenameSubs(t1["programs"], number, display, "programs", ok) else ([], Tally(0, []));
    var t2 := if "programs" in t1 then t1["programs" := q.0] else t1;
    (t2, Tally(p.1.renamed + q.1.renamed, p.1.errors + q.1.errors))
  }

  // ---------------------------------------------------------------------------
  // The run
  // ---------------------------------------------------------------------------

  /** The drawing folders by folder name (`drawing-<number>`). */
  type Tree = map<string, DrawingTree>

  /** The renames renaming one drawing's folder on its own does. */
  function DrawingRenamed(tree: Tree, m: map<string, string>, ok: FilePath -> bool): string -> nat {
    (n: string) => if n in m && DrawingFolder(n) in tree then RenameDrawing(tree[DrawingFolder(n)], n, m[n], ok).1.renamed else 0
  }

  /** The failed renames of one drawing's folder on its own. */
  function DrawingErrors(tree: Tree, m: map<string, string>, ok: FilePath -> bool): string -> nat {
    (n: string) => if n in m && DrawingFolder(n) in tree then |RenameDrawing(tree[DrawingFolder(n)], n, m[n], ok).1.errors| else 0
  }

  /** The run's tally adds up what each drawing's folder reports on its own. */
  predicate DrawingsTallied(tree: Tree, numbers: seq<string>, m: map<string, string>, ok: FilePath -> bool, t: Tally) {
    t.renamed == Sum(MapNat(DrawingRenamed(tree, m, ok), numbers))
    && |t.errors| == Sum(MapNat(DrawingErrors(tree, m, ok), numbers))
  }

  /** The drawings in the given order; a drawing without a folder is skipped. */
  function RenameDrawings(tree: Tree, numbers: seq<string>, m: map<string, string>, ok: FilePath -> bool): (r: (Tree, Tally))
    requires forall n :: n in numbers ==> n in m
    ensures r.0.Keys == tree.Keys
    ensures forall k :: k in tree && k !in FoldersOf(numbers) ==> r.0[k] == tree[k]
    ensures forall e :: e in r.1.errors ==> e.drawing in numbers
    decreases |numbers|
  {
    if |numbers| == 0 then (tree, Tally(0, []))
    else
      var n := numbers[0];
      var one := VisitFolder(tree, n, m[n], ok);
      var rest := RenameDrawings(one.0, numbers[1..], m, ok);
      assert forall k :: k in FoldersOf(numbers[1..]) ==> k in FoldersOf(numbers);
      assert forall e :: e in rest.1.errors ==> e.drawing in numbers;
      (rest.0, Tally(one.1.renamed + rest.1.renamed, one.1.errors + rest.1.errors))
  }

  /** For distinct drawings, the run's tally is the sum of what each drawing's
      folder reports when renamed on its own. */
  lemma RenameDrawingsTally(tree: Tree, numbers: seq<string>, m: map<string, string>, ok: FilePath -> bool)
    requires forall n :: n in numbers ==> n in m
    requires NoDup(numbers)
    ensures DrawingsTallied(tree, numbers, m, ok, RenameDrawings(tree, numbers, m, ok).1)
  {
    RenameDrawingsRenamed(tree, numbers, m, ok);
    RenameDrawingsErrors(tree, numbers, m, ok);
  }

  lemma {:induction false} RenameDrawingsRenamed(tree: Tree, numbers: seq<string>, m: map<string, string>, ok: FilePath -> bool)
    requires forall n :: n in numbers ==> n in m
    requires NoDup(numbers)
    ensures RenameDrawings(tree, numbers, m, ok).1.renamed == Sum(MapNat(DrawingRenamed(tree, m, ok), numbers))
    decreases |numbers|
  {
    if |numbers| > 0 {
      var n := numbers[0];
      var t1 := VisitFolder(tree, n, m[n], ok).0;
      assert NoDup(numbers[1..]);
      RenameDrawingsRenamed(t1, numbers[1..], m, ok);
      SumMapCons(DrawingRenamed(tree, m, ok), numbers);
      VisitKeepsTallies(tree, numbers, m, ok);
    }
  }

  lemma {:induction false} RenameDrawingsErrors(tree: Tree, numbers: seq<string>, m: map<string, string>, ok: FilePath -> bool)
    requires forall n :: n in numbers ==> n in m
    requires NoDup(numbers)
    ensures |RenameDrawings(tree, numbers, m, ok).1.errors| == Sum(MapNat(DrawingErrors(tree, m, ok), numbers))
    decreases |numbers|
  {
    if |numbers| > 0 {
      var n := numbers[0];
      var t1 := VisitFolder(tree, n, m[n], ok).0;
      assert NoDup(numbers[1..]);
      RenameDrawingsErrors(t1, numbers[1..], m, ok);
      SumMapCons(DrawingErrors(tree, m, ok), numbers);
      VisitKeepsTallies(tree, numbers, m, ok);
    }
  }

  /** For distinct drawings, the first visit leaves what the later drawings would
      report on their own unchanged. */
  lemma VisitKeepsTallies(tree: Tree, numbers: seq<string>, m: map<string, string>, ok: FilePath -> bool)
    requires |numbers| > 0 && numbers[0] in m
    ensures var t1 := VisitFolder(tree, numbers[0], m[numbers[0]], ok).0;
            NoDup(numbers) ==>
              Sum(MapNat(DrawingRenamed(t1, m, ok), numbers[1..])) == Sum(MapNat(DrawingRenamed(tree, m, ok), numbers[1..]))
              && Sum(MapNat(DrawingErrors(t1, m, ok), numbers[1..])) == Sum(MapNat(DrawingErrors(tree, m, ok), numbers[1..]))
  {
    var t1 := VisitFolder(tree, numbers[0], m[numbers[0]], ok).0;
    var tail := numbers[1..];
    if NoDup(numbers) {
      HeadFolderFresh(numbers);
      forall i | 0 <= i < |tail|
        ensures DrawingRenamed(t1, m, ok)(tail[i]) == DrawingRenamed(tree, m, ok)(tail[i])
        ensures DrawingErrors(t1, m, ok)(tail[i]) == DrawingErrors(tree, m, ok)(tail[i])
      {
        assert DrawingFolder(tail[i]) == FoldersOf(tail)[i];
      }
      SumMapCongruent(DrawingRenamed(t1, m, ok), DrawingRenamed(tree, m, ok), tail);
      SumMapCongruent(DrawingErrors(t1, m, ok), DrawingErrors(tree, m, ok), tail);
    }
  }

  /** One visit: the drawing's folder, when it exists, is renamed in place. */
  function VisitFolder(tree: Tree, n: string, display: string, ok: FilePath -> bool): (r: (Tree, Tally))
    ensures r.0.Keys == tree.Keys
    ensures forall k :: k in tree && k != DrawingFolder(n) ==> r.0[k] == tree[k]
    ensures DrawingFolder(n) in tree ==> r.0[DrawingFolder(n)] == RenameDrawing(tree[DrawingFolder(n)], n, display, ok).0
    ensures forall e :: e in r.1.errors ==> e.drawing == n
  {
    var f := DrawingFolder(n);
    if f in tree then
      var one := RenameDrawing(tree[f], n, display, ok);
      (tree[f := one.0], one.1)
    else (tree, Tally(0, []))
  }

  /** Distinct drawings have distinct folders. */
  lemma HeadFolderFresh(numbers: seq<string>)
    requires |numbers| > 0
    ensures NoDup(numbers) ==> DrawingFolder(numbers[0]) !in FoldersOf(numbers[1..])
  {
    if NoDup(numbers) && DrawingFolder(numbers[0]) in FoldersOf(numbers[1..]) {
      var i :| 0 <= i < |numbers| - 1 && FoldersOf(numbers[1..])[i] == DrawingFolder(numbers[0]);
      SamePrefixTail(FolderPrefix, numbers[i + 1], numbers[0]);
    }
  }

  /** For distinct drawings, each drawing's folder ends as its own visit left it. */
  lemma {:induction false} RenameDrawingsVisits(tree: Tree, numbers: seq<string>, m: map<string, string>,
                                                ok: FilePath -> bool, i: nat)
    requires forall n :: n in numbers ==> n in m
    requires NoDup(numbers) && i < |numbers| && DrawingFolder(numbers[i]) in tree
    ensures RenameDrawings(tree, numbers, m, ok).0[DrawingFolder(numbers[i])]
            == RenameDrawing(tree[DrawingFolder(numbers[i])], numbers[i], m[numbers[i]], ok).0
    decreases |numbers|
  {
    if i == 0 {
      RenameDrawingsVisitsFirst(tree, numbers, m, ok);
    } else {
      var n := numbers[0];
      var tree1 := VisitFolder(tree, n, m[n], ok).0;
      assert RenameDrawings(tree, numbers, m, ok).0 == RenameDrawings(tree1, numbers[1..], m, ok).0;
      LaterFolderDiffers(numbers, i);
      RenameDrawingsVisits(tree1, numbers[1..], m, ok, i - 1);
      assert tree1[DrawingFolder(numbers[i])] == tree[DrawingFolder(numbers[i])];
    }
  }

  /** Without repeats, a later drawing's folder is not the first one's. */
  lemma LaterFolderDiffers(numbers: seq<string>, i: nat)
    requires NoDup(numbers) && 0 < i < |numbers|
    ensures NoDup(numbers[1..]) && numbers[1..][i - 1] == numbers[i]
    ensures DrawingFolder(numbers[i]) != DrawingFolder(numbers[0])
  {
    HeadFolderFresh(numbers);
    assert DrawingFolder(numbers[i]) == FoldersOf(numbers[1..])[i - 1];
  }

  /** The first drawing's folder is not touched by the later visits. */
  lemma RenameDrawingsVisitsFirst(tree: Tree, numbers: seq<string>, m: map<string, string>, ok: FilePath -> bool)
    requires forall n :: n in numbers ==> n in m
    requires NoDup(numbers) && |numbers| > 0 && DrawingFolder(numbers[0]) in tree
    ensures RenameDrawings(tree, numbers, m, ok).0[DrawingFolder(numbers[0])]
            == RenameDrawing(tree[DrawingFolder(numbers[0])], numbers[0], m[numbers[0]], ok).0
  {
    var n := numbers[0];
    var f := DrawingFolder(n);
    var tree1 := VisitFolder(tree, n, m[n], ok).0;
    assert RenameDrawings(tree, numbers, m, ok).0 == RenameDrawings(tree1, numbers[1..], m, ok).0;
    HeadFolderFresh(numbers);
    assert f !in FoldersOf(numbers[1..]);
    assert RenameDrawings(tree1, numbers[1..], m, ok).0[f] == tree1[f];
  }

  /** `search-index.json`: missing (the script returns at once), unreadable or
      without a `drawings` list (the script stops with an error), or its
      entries. */
  datatype IndexFile = NoIndex | BadIndex | Index(entries: seq<IndexEntry>)

  datatype Outcome = Returned | Crashed | Done(tree: Tree, renamed: nat, errors: seq<FilePath>)

  /** The order the drawings are visited in. */
  function VisitOrder(entries: seq<IndexEntry>): (r: seq<string>)
    ensures LongestFirst(r)
    ensures NoDup(r)
    ensures forall n :: n in r <==> n in DisplayMap(entries)
  {
    SortByLengthSame(MapKeys(entries));
    SortByLength(MapKeys(entries))
  }

  function RenameFilesForMasking(index: IndexFile, tree: Tree, ok: FilePath -> bool): (r: Outcome)
    ensures r.Returned? <==> index.NoIndex?
    ensures r.Crashed? <==> index.BadIndex?
    ensures r.Done? ==> r.tree.Keys == tree.Keys
    ensures r.Done? ==> forall e :: e in r.errors ==> e.drawing in DisplayMap(index.entries)
    ensures r.Done? ==> DrawingsTallied(tree, VisitOrder(index.entries), DisplayMap(index.entries), ok, Tally(r.renamed, r.errors))
  {
    match index
    case NoIndex => Returned
    case BadIndex => Crashed
    case Index(entries) =>
      var order := VisitOrder(entries);
      var r := RenameDrawings(tree, order, DisplayMap(entries), ok);
      RenameDrawingsTally(tree, order, DisplayMap(entries), ok);
      Done(r.0, r.1.renamed, r.1.errors)
  }

  /** Only drawings with a display number are touched, each through its own
      folder and its own display number. */
  lemma RenameFilesTouchesMapped(entries: seq<IndexEntry>, tree: Tree, ok: FilePath -> bool, k: string)
    requires k in tree
    ensures var r := RenameFilesForMasking(Index(entries), tree, ok);
            FolderNumber(k) !in DisplayMap(entries) ==> r.tree[k] == tree[k]
    ensures var r := RenameFilesForMasking(Index(entries), tree, ok);
            forall n :: n in DisplayMap(entries) && k == DrawingFolder(n) ==>
              r.tree[k] == RenameDrawing(tree[k], n, DisplayMap(entries)[n], ok).0
  {
    var order := VisitOrder(entries);
    if k in FoldersOf(order) {
      InFoldersOf(order, k);
    }
    forall n | n in DisplayMap(entries) && k == DrawingFolder(n)
      ensures RenameDrawings(tree, order, DisplayMap(entries), ok).0[k] == RenameDrawing(tree[k], n, DisplayMap(entries)[n], ok).0
    {
      var i :| 0 <= i < |order| && order[i] == n;
      RenameDrawingsVisits(tree, order, DisplayMap(entries), ok, i);
    }
  }
}
