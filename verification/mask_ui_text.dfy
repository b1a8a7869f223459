/** The UI text masking of scripts/mask-ui-text.js: three source files are rewritten
    with a small case-insensitive table after a copy of each is put in a backup
    folder, and a restore command copies the backups back. The source tree and the
    backup folder are modelled as maps from path to content; copy and write errors
    are left out. */
module MaskUiText {
  import opened Wrappers
  import opened Strings
  import opened Seqs
  import opened Replace
  import FileTree

  const UiMasking: seq<Mapping> := [
    Mapping("田中工業AI", "サンプル工業AI"),
    Mapping("田中工業", "サンプル工業"),
    Mapping("こんにちは！田中工業AIです。🔧", "こんにちは！サンプル工業AIです。🔧")]

  const ChatPage: string := "src/app/chat" + "/" + "page.tsx"
  const ChatRoute: string := "src/app/api/chat" + "/" + "route.ts"
  const TopPage: string := "src/app" + "/" + "page.tsx"

  /** The files the masking rewrites, in order. */
  const FilesToMask: seq<string> := [ChatPage, ChatRoute, TopPage]

  /** `maskFileContent`: the entries applied in order, case-insensitively. */
  function MaskFileContent(content: string, table: seq<Mapping>): string {
    ApplyMappings(content, table, true)
  }

  /** The third entry never matches: its original contains `田中工業`, which the second
      entry has already replaced everywhere. */
  lemma {:induction false} ThirdEntryInert(content: string)
    ensures MaskFileContent(content, UiMasking) == MaskFileContent(content, UiMasking[..2])
  {
    var m0, m1, m2 := UiMasking[0], UiMasking[1], UiMasking[2];
    assert UiMasking[..2] == [m0, m1] && UiMasking == [m0, m1] + [m2];
    var t1 := ApplyMapping(content, m0, true);
    var t2 := ApplyMapping(t1, m1, true);
    ApplyMappingsTwo(content, m0, m1, true);
    ApplyMappingsAppend(content, [m0, m1], [m2], true);
    assert ApplyMappings(t2, [m2], true) == ApplyMapping(t2, m2, true);
    UiMaskingEntries();
    ReplaceAllRemoves(t1, "田中工業", "サンプル工業", true);
    if OccursBy(t2, m2.original, true) {
      OccursInfix(t2, "こんにちは！", "田中工業", "AIです。🔧", true);
    }
    ApplyMappingAbsent(t2, m2, true);
  }

  lemma UiMaskingEntries()
    ensures UiMasking[1] == Mapping("田中工業", "サンプル工業")
    ensures UiMasking[2].original == "こんにちは！" + "田中工業" + "AIです。🔧"
  {
  }

  lemma ApplyMappingsTwo(s: string, m0: Mapping, m1: Mapping, ci: bool)
    ensures ApplyMappings(s, [m0, m1], ci) == ApplyMapping(ApplyMapping(s, m0, ci), m1, ci)
  {
    assert [m0, m1][1..] == [m1] && [m1][1..] == [];
    var t := ApplyMapping(ApplyMapping(s, m0, ci), m1, ci);
    assert ApplyMappings(t, [], ci) == t;
    assert ApplyMappings(ApplyMapping(s, m0, ci), [m1], ci) == ApplyMappings(t, [], ci);
  }

  // ---------------------------------------------------------------------------
  // Backup folder
  // ---------------------------------------------------------------------------

  /** `path.basename`: the text after the last `/`. */
  function Basename(path: string): string
    decreases |path|
  {
    if |path| == 0 || path[|path| - 1] == '/' then ""
    else Basename(path[..|path| - 1]) + [path[|path| - 1]]
  }

  lemma PathLastChar(dir: string, name: string)
    requires |name| > 0
    ensures var path := dir + "/" + name;
            path[|path| - 1] == name[|name| - 1]
            && path[..|path| - 1] == dir + "/" + name[..|name| - 1]
            && name[..|name| - 1] + [name[|name| - 1]] == name
  {
  }

  lemma NoSlashInInit(name: string)
    requires |name| > 0 && '/' !in name
    ensures '/' !in name[..|name| - 1]
  {
    var init := name[..|name| - 1];
    forall i | 0 <= i < |init| ensures init[i] != '/' {
      assert init[i] == name[i] && name[i] in name;
    }
  }

  /** The base name of `dir/name` is `name` when `name` has no `/`. */
  lemma {:induction false} BasenameAfterSlash(dir: string, name: string)
    requires '/' !in name
    ensures Basename(dir + "/" + name) == name
    decreases |name|
  {
    var path := dir + "/" + name;
    if |name| == 0 {
      assert path[|path| - 1] == '/';
    } else {
      var init, last := name[..|name| - 1], name[|name| - 1];
      PathLastChar(dir, name);
      assert last in name;
      NoSlashInInit(name);
      BasenameAfterSlash(dir, init);
      assert Basename(path) == Basename(dir + "/" + init) + [last];
    }
  }

  /** The backup folder, in listing order: file name and content. */
  type Folder = seq<(string, string)>

  function NameIs(name: string): ((string, string)) -> bool {
    (e: (string, string)) => e.0 == name
  }

  function Lookup(folder: Folder, name: string): (r: Option<string>)
    ensures r.Some? <==> exists i :: 0 <= i < |folder| && folder[i].0 == name
    ensures r.Some? ==> exists i :: 0 <= i < |folder| && folder[i] == (name, r.value) && forall j :: 0 <= j < i ==> folder[j].0 != name
  {
    var k := FindIndex(NameIs(name), folder);
    if k < 0 then None else Some(folder[k].1)
  }

  /** `copyFileSync` into the folder: an existing file of that name is overwritten in
      place, a new one is added at the end. */
  function Put(folder: Folder, name: string, content: string): Folder {
    var k := FindIndex(NameIs(name), folder);
    if k < 0 then folder + [(name, content)] else SetAt(folder, k, (name, content))
  }

  /** After a copy the folder holds the new content under that name, and every other
      name reads as before. */
  lemma PutSpec(folder: Folder, name: string, content: string)
    ensures Lookup(Put(folder, name, content), name) == Some(content)
    ensures forall other :: other != name ==> Lookup(Put(folder, name, content), other) == Lookup(folder, other)
  {
    var k := FindIndex(NameIs(name), folder);
    var r := Put(folder, name, content);
    if k < 0 {
      forall other | other != name ensures FindIndex(NameIs(other), r) == FindIndex(NameIs(other), folder) {
        FindIndexSnoc(NameIs(other), folder, (name, content));
      }
      FindIndexSnoc(NameIs(name), folder, (name, content));
    } else {
      forall other ensures FindIndex(NameIs(other), r) == FindIndex(NameIs(other), folder) {
        FileTree.FindIndexAgree(NameIs(other), folder, r);
      }
    }
  }

  lemma {:induction false} FindIndexSnoc<T>(f: T -> bool, s: seq<T>, x: T)
    ensures FindIndex(f, s) >= 0 ==> FindIndex(f, s + [x]) == FindIndex(f, s)
    ensures FindIndex(f, s) < 0 ==> FindIndex(f, s + [x]) == (if f(x) then |s| else -1)
    decreases |s|
  {
    if |s| > 0 {
      assert (s + [x])[1..] == s[1..] + [x];
      FindIndexSnoc(f, s[1..], x);
    }
  }

  // ---------------------------------------------------------------------------
  // Masking and restoring
  // ---------------------------------------------------------------------------

  /** The state the two commands work on: the source files and the backup folder,
      which may not exist yet. */
  datatype Tree = Tree(files: map<string, string>, backup: Option<Folder>)

  /** One file: when it exists, its text is copied to the backup under `key` of its
      path and then replaced by `mask` of it. */
  function MaskOne(t: Tree, p: string, key: string -> string, mask: string -> string): Tree {
    if p in t.files then
      Tree(t.files[p := mask(t.files[p])], Some(Put(t.backup.GetOr([]), key(p), t.files[p])))
    else t
  }

  /** Backs up and masks each listed file that exists, in order; the backup folder is
      created first. */
  function MaskFiles(t: Tree, paths: seq<string>, key: string -> string, mask: string -> string): (r: Tree)
    ensures r.backup.Some?
    decreases |paths|
  {
    if |paths| == 0 then t.(backup := Some(t.backup.GetOr([])))
    else MaskFiles(MaskOne(t, paths[0], key, mask), paths[1..], key, mask)
  }

  /** A missing backup folder behaves as an empty one. */
  lemma {:induction false} MaskFilesFromNone(files: map<string, string>, paths: seq<string>, key: string -> string, mask: string -> string)
    ensures MaskFiles(Tree(files, None), paths, key, mask) == MaskFiles(Tree(files, Some([])), paths, key, mask)
    decreases |paths|
  {
    if |paths| > 0 && paths[0] !in files {
      MaskFilesFromNone(files, paths[1..], key, mask);
    }
  }

  lemma MaskFilesThree(t: Tree, a: string, b: string, c: string, key: string -> string, mask: string -> string)
    requires t.backup.Some?
    ensures MaskFiles(t, [a, b, c], key, mask) == MaskOne(MaskOne(MaskOne(t, a, key, mask), b, key, mask), c, key, mask)
  {
    assert [a, b, c][1..] == [b, c] && [b, c][1..] == [c] && [c][1..] == [];
    var t1 := MaskOne(t, a, key, mask);
    var t2 := MaskOne(t1, b, key, mask);
    var t3 := MaskOne(t2, c, key, mask);
    assert t3.backup.Some?;
    assert MaskFiles(t3, [], key, mask) == t3;
    assert MaskFiles(t2, [c], key, mask) == MaskFiles(t3, [], key, mask);
    assert MaskFiles(t1, [b, c], key, mask) == MaskFiles(t2, [c], key, mask);
  }

  /** Each listed file that exists is masked, and no other file is touched or made. */
  lemma {:induction false} MaskFilesContent(t: Tree, paths: seq<string>, key: string -> string, mask: string -> string)
    requires NoDup(paths)
    ensures MaskFiles(t, paths, key, mask).files.Keys == t.files.Keys
    ensures forall p :: p in t.files && p !in paths ==> MaskFiles(t, paths, key, mask).files[p] == t.files[p]
    ensures forall p :: p in t.files && p in paths ==> MaskFiles(t, paths, key, mask).files[p] == mask(t.files[p])
    decreases |paths|
  {
    if |paths| > 0 {
      var p := paths[0];
      var next := MaskOne(t, p, key, mask);
      assert NoDup(paths[1..]) by {
        forall i, j | 0 <= i < j < |paths[1..]| ensures paths[1..][i] != paths[1..][j] {
          assert paths[1..][i] == paths[i + 1] && paths[1..][j] == paths[j + 1];
        }
      }
      assert p !in paths[1..] by {
        forall i | 0 <= i < |paths[1..]| ensures paths[1..][i] != p {
          assert paths[1..][i] == paths[i + 1];
        }
      }
      MaskFilesContent(next, paths[1..], key, mask);
      forall q | q in paths && q != p ensures q in paths[1..] {
        var i :| 0 <= i < |paths| && paths[i] == q;
        assert paths[1..][i - 1] == q;
      }
    }
  }

  /** The masking command, files backed up under their base name: it rewrites
      exactly the three listed files that exist, with the UI table, and leaves a
      backup folder behind. */
  function MaskUi(t: Tree): (r: Tree)
    ensures r.backup.Some?
    ensures r.files.Keys == t.files.Keys
    ensures forall p :: p in t.files && p !in FilesToMask ==> r.files[p] == t.files[p]
    ensures forall p :: p in t.files && p in FilesToMask ==> r.files[p] == MaskFileContent(t.files[p], UiMasking)
  {
    MaskFilesContent(t, FilesToMask, Basename, UiMask);
    MaskFiles(t, FilesToMask, Basename, UiMask)
  }

  function UiMask(content: string): string {
    MaskFileContent(content, UiMasking)
  }

  /** Where the restore command copies a backup. */
  function RestoreTarget(name: string, files: map<string, string>): string {
    if name == "page.tsx" then (if ChatPage in files then ChatPage else TopPage)
    else if name == "route.ts" then ChatRoute
    else "src/app/" + name
  }

  /** Copies each backup, in listing order, to the path `target` gives for it. */
  function RestoreFrom(files: map<string, string>, backups: Folder, target: (string, map<string, string>) -> string): (r: map<string, string>)
    ensures files.Keys <= r.Keys
    decreases |backups|
  {
    if |backups| == 0 then files
    else
      var b := backups[0];
      RestoreFrom(files[target(b.0, files) := b.1], backups[1..], target)
  }

  /** Restoring copies the backups in listing order: the last one is copied after all
      the others, over whatever they left, so its content ends up at its target. */
  lemma {:induction false} RestoreFromSnoc(files: map<string, string>, backups: Folder, b: (string, string),
                                           target: (string, map<string, string>) -> string)
    ensures var f := RestoreFrom(files, backups, target);
            RestoreFrom(files, backups + [b], target) == f[target(b.0, f) := b.1]
    ensures var f := RestoreFrom(files, backups, target);
            RestoreFrom(files, backups + [b], target)[target(b.0, f)] == b.1
    decreases |backups|
  {
    if |backups| == 0 {
      assert ([] + [b])[1..] == [];
    } else {
      assert (backups + [b])[0] == backups[0];
      assert (backups + [b])[1..] == backups[1..] + [b];
      RestoreFromSnoc(files[target(backups[0].0, files) := backups[0].1], backups[1..], b, target);
    }
  }

  /** The restore command: without a backup folder nothing happens; otherwise no
      file disappears, and the last backup listed is copied last, so its text ends up
      at its target. */
  function Restore(t: Tree): (r: map<string, string>)
    ensures t.backup.None? ==> r == t.files
    ensures t.files.Keys <= r.Keys
    ensures t.backup.Some? && |t.backup.value| > 0 ==>
              var n := |t.backup.value|;
              var last := t.backup.value[n - 1];
              var k := RestoreTarget(last.0, RestoreFrom(t.files, t.backup.value[..n - 1], RestoreTarget));
              k in r && r[k] == last.1
  {
    if t.backup.None? then t.files
    else
      var bs := t.backup.value;
      if |bs| > 0 then
        assert bs == bs[..|bs| - 1] + [bs[|bs| - 1]];
        RestoreFromSnoc(t.files, bs[..|bs| - 1], bs[|bs| - 1], RestoreTarget);
        RestoreFrom(t.files, bs, RestoreTarget)
      else RestoreFrom(t.files, bs, RestoreTarget)
  }

  /** Both pages back up to the same `page.tsx`, so when all three files exist, the
      chat page's backup is overwritten by the top page's: the restore command puts
      the top page's original text into the chat page and leaves the top page
      masked. */
  lemma {:induction false} BasenameBackupsCollide(chat: string, route: string, top: string)
    requires chat != top
    ensures var t := Tree(map[ChatPage := chat, ChatRoute := route, TopPage := top], None);
            ChatPage in Restore(MaskUi(t)) && Restore(MaskUi(t))[ChatPage] == top && Restore(MaskUi(t))[ChatPage] != chat
            && TopPage in Restore(MaskUi(t)) && Restore(MaskUi(t))[TopPage] == UiMask(top)
  {
    var files := map[ChatPage := chat, ChatRoute := route, TopPage := top];
    CollideWith(chat, route, top, files, UiMask);
  }

  /** The collision for any masking of the contents. */
  lemma CollideWith(chat: string, route: string, top: string, files: map<string, string>, mask: string -> string)
    requires files == map[ChatPage := chat, ChatRoute := route, TopPage := top]
    ensures var r := Restore(MaskFiles(Tree(files, None), FilesToMask, Basename, mask));
            ChatPage in r && r[ChatPage] == top && TopPage in r && r[TopPage] == mask(top)
  {
    BackupNames();
    PathsDistinct();
    ThreeFiles(chat, route, top, files);
    MaskFilesFromNone(files, FilesToMask, Basename, mask);
    var m := BackupsOverwrite(Tree(files, Some([])), ChatPage, ChatRoute, TopPage, Basename, mask);
    RestoreTargets(m.files);
    RestoreTwo(m.files, ("page.tsx", top), ("route.ts", route), RestoreTarget);
    RestoreTargets(m.files[ChatPage := top]);
  }

  lemma ThreeFiles(chat: string, route: string, top: string, files: map<string, string>)
    requires files == map[ChatPage := chat, ChatRoute := route, TopPage := top]
    requires ChatPage != ChatRoute && ChatPage != TopPage && ChatRoute != TopPage
    ensures ChatPage in files && ChatRoute in files && TopPage in files
    ensures files[ChatPage] == chat && files[ChatRoute] == route && files[TopPage] == top
  {
  }

  /** Where the two backup names are restored to, in a tree that has the chat page. */
  lemma RestoreTargets(files: map<string, string>)
    ensures ChatPage in files ==> RestoreTarget("page.tsx", files) == ChatPage
    ensures RestoreTarget("route.ts", files) == ChatRoute
  {
    assert "route.ts"[0] != "page.tsx"[0];
  }

  lemma PathsDistinct()
    ensures ChatPage != ChatRoute && ChatPage != TopPage && ChatRoute != TopPage
  {
    assert |TopPage| < |ChatPage| < |ChatRoute|;
  }

  /** The base names the backups of the three files get. */
  lemma BackupNames()
    ensures Basename(ChatPage) == "page.tsx" && Basename(ChatRoute) == "route.ts" && Basename(TopPage) == "page.tsx"
  {
    BasenameAfterSlash("src/app/chat", "page.tsx");
    BasenameAfterSlash("src/app/api/chat", "route.ts");
    BasenameAfterSlash("src/app", "page.tsx");
  }

  /** Three existing files, the first and last backed up under the same name: the
      backup of the first is lost to that of the last. */
  lemma BackupsOverwrite(t: Tree, a: string, b: string, c: string, key: string -> string, mask: string -> string) returns (r: Tree)
    requires t.backup == Some([])
    requires a in t.files && b in t.files && c in t.files && a != b && a != c && b != c
    requires key(a) == key(c) && key(a) != key(b)
    ensures r == MaskFiles(t, [a, b, c], key, mask)
    ensures r.files.Keys == t.files.Keys
    ensures r.backup == Some([(key(c), t.files[c]), (key(b), t.files[b])])
    ensures r.files[c] == mask(t.files[c])
  {
    MaskFilesThree(t, a, b, c, key, mask);
    var s1 := MaskOne(t, a, key, mask);
    PutNew([], key(a), t.files[a]);
    assert [] + [(key(a), t.files[a])] == [(key(a), t.files[a])];
    assert s1.backup == Some([(key(a), t.files[a])]);
    var s2 := MaskOne(s1, b, key, mask);
    var b2 := [(key(a), t.files[a]), (key(b), t.files[b])];
    assert FindIndex(NameIs(key(b)), [(key(a), t.files[a])]) < 0;
    PutNew([(key(a), t.files[a])], key(b), t.files[b]);
    assert [(key(a), t.files[a])] + [(key(b), t.files[b])] == b2;
    assert s2.backup == Some(b2);
    r := MaskOne(s2, c, key, mask);
    assert s2.files[c] == t.files[c];
    assert FindIndex(NameIs(key(c)), b2) == 0;
    assert SetAt(b2, 0, (key(c), t.files[c])) == [(key(c), t.files[c]), (key(b), t.files[b])];
  }

  lemma PutNew(folder: Folder, name: string, content: string)
    requires FindIndex(NameIs(name), folder) < 0
    ensures Put(folder, name, content) == folder + [(name, content)]
  {
  }

  lemma RestoreTwo(files: map<string, string>, a: (string, string), b: (string, string), target: (string, map<string, string>) -> string)
    ensures var f1 := files[target(a.0, files) := a.1];
            RestoreFrom(files, [a, b], target) == f1[target(b.0, f1) := b.1]
  {
    assert [a, b][1..] == [b] && [b][1..] == [];
    var f1 := files[target(a.0, files) := a.1];
    var f2 := f1[target(b.0, f1) := b.1];
    assert RestoreFrom(f2, [], target) == f2;
    assert RestoreFrom(f1, [b], target) == RestoreFrom(f2, [], target);
  }

  // ---------------------------------------------------------------------------
  // Backups keyed by path
  // ---------------------------------------------------------------------------

  /** The masking with each backup stored under the file's own relative path. */
  function MaskUiByPath(t: Tree): Tree {
    MaskFiles(t, FilesToMask, PathKey, UiMask)
  }

  /** The backup name of a file is its relative path. */
  function PathKey(path: string): string {
    path
  }

  /** A backup keyed by path is copied back to that path. */
  function SamePath(name: string, files: map<string, string>): string {
    name
  }

  /** The restore of backups keyed by path. */
  function RestoreByPath(t: Tree): map<string, string> {
    if t.backup.None? then t.files else RestoreFrom(t.files, t.backup.value, SamePath)
  }

  /** No backup in the folder has this name. */
  predicate NotBackedUp(folder: Folder, name: string) {
    forall i :: 0 <= i < |folder| ==> folder[i].0 != name
  }

  lemma {:induction false} RestoreAppend(files: map<string, string>, folder: Folder, b: (string, string))
    ensures RestoreFrom(files, folder + [b], SamePath) == RestoreFrom(files, folder, SamePath)[b.0 := b.1]
    decreases |folder|
  {
    if |folder| == 0 {
      assert [] + [b] == [b] && [b][1..] == [];
      var f1 := files[b.0 := b.1];
      assert RestoreFrom(f1, [], SamePath) == f1;
    } else {
      assert (folder + [b])[1..] == folder[1..] + [b];
      RestoreAppend(files[folder[0].0 := folder[0].1], folder[1..], b);
    }
  }

  lemma {:induction false} RestoreUpdate(files: map<string, string>, folder: Folder, p: string, x: string)
    requires NotBackedUp(folder, p)
    ensures RestoreFrom(files[p := x], folder, SamePath) == RestoreFrom(files, folder, SamePath)[p := x]
    decreases |folder|
  {
    if |folder| > 0 {
      var n := folder[0].0;
      assert files[p := x][n := folder[0].1] == files[n := folder[0].1][p := x];
      RestoreUpdate(files[n := folder[0].1], folder[1..], p, x);
    }
  }

  lemma {:induction false} RestoreKeeps(files: map<string, string>, folder: Folder, p: string)
    requires NotBackedUp(folder, p) && p in files
    ensures p in RestoreFrom(files, folder, SamePath) && RestoreFrom(files, folder, SamePath)[p] == files[p]
    decreases |folder|
  {
    if |folder| > 0 {
      RestoreKeeps(files[folder[0].0 := folder[0].1], folder[1..], p);
    }
  }

  /** A copy under a name the folder does not hold yet is appended. */
  lemma PutNewName(folder: Folder, name: string, content: string)
    requires NotBackedUp(folder, name)
    ensures Put(folder, name, content) == folder + [(name, content)]
  {
    forall j | 0 <= j < |folder| ensures !NameIs(name)(folder[j]) {
      assert folder[j].0 != name;
    }
  }

  /** Masking one file whose path has no backup yet does not change what restoring
      gives, and leaves the other paths without a backup. */
  lemma MaskOneByPath(t: Tree, p: string)
    requires t.backup.Some? && NotBackedUp(t.backup.value, p)
    ensures MaskOne(t, p, PathKey, UiMask).backup.Some?
    ensures RestoreByPath(MaskOne(t, p, PathKey, UiMask)) == RestoreByPath(t)
    ensures forall q :: q != p && NotBackedUp(t.backup.value, q) ==> NotBackedUp(MaskOne(t, p, PathKey, UiMask).backup.value, q)
  {
    var next := MaskOne(t, p, PathKey, UiMask);
    var folder := t.backup.value;
    if p in t.files {
      var v := t.files[p];
      PutNewName(folder, p, v);
      assert next.backup.value == folder + [(p, v)];
      RestoreAfterMask(t.files, folder, p);
    }
  }

  /** Restoring after one file was masked and its original appended to the backups
      gives what restoring gave before. */
  lemma RestoreAfterMask(files: map<string, string>, folder: Folder, p: string)
    requires NotBackedUp(folder, p) && p in files
    ensures RestoreFrom(files[p := UiMask(files[p])], folder + [(p, files[p])], SamePath) == RestoreFrom(files, folder, SamePath)
  {
    var v := files[p];
    RestoreKeeps(files, folder, p);
    RestoreAppend(files[p := UiMask(v)], folder, (p, v));
    RestoreUpdate(files, folder, p, UiMask(v));
    UpdateBack(RestoreFrom(files, folder, SamePath), p, UiMask(v));
  }

  /** Overwriting an entry and then writing its old value back changes nothing. */
  lemma UpdateBack(m: map<string, string>, p: string, x: string)
    requires p in m
    ensures m[p := x][p := m[p]] == m
  {
  }

  /** Masking the remaining paths and restoring gives back whatever restoring the
      folder gave before: each file's original goes to the backup under its own path,
      and no backup of another path touches it. */
  lemma {:induction false} ByPathRestores(t: Tree, paths: seq<string>)
    requires NoDup(paths) && t.backup.Some?
    requires forall q :: q in paths ==> NotBackedUp(t.backup.value, q)
    ensures RestoreByPath(MaskFiles(t, paths, PathKey, UiMask)) == RestoreByPath(t)
    decreases |paths|
  {
    if |paths| > 0 {
      var p := paths[0];
      var next := MaskOne(t, p, PathKey, UiMask);
      assert NoDup(paths[1..]) by {
        forall i, j | 0 <= i < j < |paths[1..]| ensures paths[1..][i] != paths[1..][j] {
          assert paths[1..][i] == paths[i + 1] && paths[1..][j] == paths[j + 1];
        }
      }
      assert p in paths;
      MaskOneByPath(t, p);
      forall q | q in paths[1..] ensures NotBackedUp(next.backup.value, q) {
        var i :| 0 <= i < |paths[1..]| && paths[1..][i] == q;
        assert q == paths[i + 1] && q != p;
      }
      ByPathRestores(next, paths[1..]);
    }
  }

  /** Starting without a backup folder, restoring after masking gives back exactly
      the files there were. */
  lemma ByPathRoundTrip(files: map<string, string>)
    ensures RestoreByPath(MaskUiByPath(Tree(files, None))) == files
  {
    var t := Tree(files, None);
    MaskFilesFromNone(files, FilesToMask, PathKey, UiMask);
    assert NoDup(FilesToMask) by {
      BackupNames();
      assert ChatPage != ChatRoute && ChatPage != TopPage && ChatRoute != TopPage;
    }
    ByPathRestores(t.(backup := Some([])), FilesToMask);
  }
}
