/** The name masking of doc/demo-version/mask-all-names.js: every person's name
    in the demo data (the users of `auth/passwords.json`, the authors of the
    instruction files, the contributors of the contribution files) is collected,
    the names not yet masked get the labels 作業者A, 作業者B, … in order of first
    appearance, and every file is rewritten with the labels. The administrator is
    never touched; a masked user also gets the id `user_<letter>` and the demo
    password. */
module MaskNames {
  import opened Wrappers
  import opened Strings
  import opened Seqs
  import opened DemoData
  import opened FirstSeen

  const AdminName: string := "管理者"
  const AdminId: string := "admin"

  /** Authors that are not people and are never collected. */
  const SystemAuthors: seq<string> := ["管理画面", "データ移行", "Claude", "システム"]

  /** Every label starts with this, and names that already do are left alone. */
  const MaskedPrefix: string := "作業者"

  const UserIdPrefix: string := "user_"
  const DemoPassword: string := "Demo@2025"

  // ---------------------------------------------------------------------------
  // Labels
  // ---------------------------------------------------------------------------

  /** `String.fromCharCode(n)`: the code is taken modulo 2^16. A code in the
      surrogate range is not a character on its own and becomes U+FFFD here. */
  function FromCharCode(n: nat): (c: char)
    ensures n < 0xD800 ==> c as int == n
  {
    var u := n % 0x10000;
    if u < 0xD800 || u >= 0xE000 then u as char else 0xFFFD as char
  }

  /** The letters of the `i`-th label: A … Z, then AA … AZ, BA, …, with the first
      letter counting the completed rounds of 26. */
  function Label(i: nat): string {
    if i < 26 then [FromCharCode(65 + i)]
    else [FromCharCode(65 + i / 26 - 1), FromCharCode(65 + i % 26)]
  }

  /** The first 702 labels (A to ZZ) are one or two capital letters. */
  lemma LabelLetters(i: nat)
    requires i < 702
    ensures 1 <= |Label(i)| <= 2
    ensures forall k :: 0 <= k < |Label(i)| ==> IsAsciiUpper(Label(i)[k])
  {
  }

  /** Past ZZ the first letter runs on through `[`, `\`, … and later codes; up
      to here no code reaches the surrogate range. */
  const LabelBound: nat := 1436032

  /** Different positions get different labels. */
  lemma LabelInjective(i: nat, j: nat)
    requires i < LabelBound && j < LabelBound && Label(i) == Label(j)
    ensures i == j
  {
    assert |Label(i)| == |Label(j)|;
    if i >= 26 {
      assert Label(i)[0] == Label(j)[0] && Label(i)[1] == Label(j)[1];
      assert i / 26 == j / 26 && i % 26 == j % 26;
    } else {
      assert Label(i)[0] == Label(j)[0];
    }
  }

  function MaskedLabel(i: nat): string {
    MaskedPrefix + Label(i)
  }

  // ---------------------------------------------------------------------------
  // The records
  // ---------------------------------------------------------------------------

  datatype User = User(id: Field, name: Field, displayName: Field, password: Field)

  /** `auth/passwords.json`: missing, not JSON (the script stops), or parsed; a
      file without a `passwords` list has no users. */
  datatype PasswordsFile = NoPasswords | BadPasswords | Passwords(users: seq<User>)

  /** The authors an `instruction.json` carries: `metadata.author` and each step's
      `author`. A missing metadata record is a missing author. */
  datatype Authors = Authors(author: Field, stepAuthors: seq<Field>)

  datatype Contribution = Contribution(userName: Field, userId: Field)

  /** One drawing folder: its parsed instruction file and its parsed contribution
      list, each `None` when the file is missing or does not parse (both are
      skipped). */
  datatype DrawingDir = DrawingDir(instruction: Option<Authors>, contributions: Option<seq<Contribution>>)

  // ---------------------------------------------------------------------------
  // Collecting the names
  // ---------------------------------------------------------------------------

  /** The names of `xs` in order, each element contributing `f` of it. */
  function Gather<T>(xs: seq<T>, f: T -> seq<string>): (r: seq<string>)
    ensures forall n :: n in r <==> exists i :: 0 <= i < |xs| && n in f(xs[i])
    decreases |xs|
  {
    if |xs| == 0 then []
    else
      var init := xs[..|xs| - 1];
      assert forall i :: 0 <= i < |init| ==> init[i] == xs[i];
      Gather(init, f) + f(xs[|xs| - 1])
  }

  /** Gathering over two runs is the first run's names followed by the second's. */
  lemma {:induction false} GatherAppend<T>(a: seq<T>, b: seq<T>, f: T -> seq<string>)
    ensures Gather(a + b, f) == Gather(a, f) + Gather(b, f)
    decreases |b|
  {
    if |b| == 0 {
      assert a + b == a;
    } else {
      var b' := b[..|b| - 1];
      GatherAppend(a, b', f);
      assert (a + b)[..|a + b| - 1] == a + b';
      assert (a + b)[|a + b| - 1] == b[|b| - 1];
    }
  }

  /** One element contributes its own names, in their order. */
  lemma GatherOne<T>(x: T, f: T -> seq<string>)
    ensures Gather([x], f) == f(x)
  {
    assert [x][..0] == [];
  }

  /** The truthy value of a field, as a list of zero or one names. */
  function NameIf(f: Field, keep: bool): (r: seq<string>)
    ensures forall n :: n in r <==> keep && Truthy(f) && n == f.value
  {
    if keep && Truthy(f) then [f.value] else []
  }

  /** A user's name and display name unless they are 管理者, and the id unless it
      is `admin`. */
  function UserNames(u: User): seq<string> {
    NameIf(u.name, u.name != Some(AdminName)) + NameIf(u.displayName, u.displayName != Some(AdminName))
    + NameIf(u.id, u.id != Some(AdminId))
  }

  /** An author is collected unless it is one of the system authors. */
  function AuthorName(f: Field): seq<string> {
    NameIf(f, !(f.Some? && f.value in SystemAuthors))
  }

  function DirAuthors(d: DrawingDir): seq<string> {
    if d.instruction.None? then []
    else AuthorName(d.instruction.value.author) + Gather(d.instruction.value.stepAuthors, AuthorName)
  }

  function ContributionNames(c: Contribution): seq<string> {
    NameIf(c.userName, true) + NameIf(c.userId, true)
  }

  function DirContributors(d: DrawingDir): seq<string> {
    if d.contributions.None? then [] else Gather(d.contributions.value, ContributionNames)
  }

  /** Everything collected, in the script's order: users, then authors, then
      contributors. */
  function Collected(users: seq<User>, dirs: seq<DrawingDir>): seq<string> {
    Gather(users, UserNames) + Gather(dirs, DirAuthors) + Gather(dirs, DirContributors)
  }

  predicate Unmasked(n: string) {
    !StartsWith(n, MaskedPrefix)
  }

  /** The distinct collected names, in order of first appearance, less those
      already masked. */
  function NamesToMask(collected: seq<string>): (r: seq<string>)
    ensures NoDup(r)
    ensures forall n :: n in r <==> n in collected && Unmasked(n)
    ensures FirstSeenOrder(r, collected)
  {
    FilterNoDup(Unmasked, Dedup(collected));
    DedupFirstSeen(collected);
    FilterFirstSeen(Unmasked, Dedup(collected), collected);
    Filter(Unmasked, Dedup(collected))
  }

  /** The `i`-th name to mask becomes 作業者 followed by the `i`-th label. */
  function NameMapping(names: seq<string>): map<string, string> {
    Assign(names, MaskedLabel).0
  }

  /** The masking table maps exactly the names to mask, each to the label of its
      position. */
  lemma NameMappingSpec(names: seq<string>)
    requires NoDup(names)
    ensures forall n :: n in NameMapping(names) <==> n in names
    ensures forall i :: 0 <= i < |names| ==> NameMapping(names)[names[i]] == MaskedLabel(i)
  {
    AssignDistinct(names, MaskedLabel);
  }

  lemma MaskedLabelInjective(i: nat, j: nat)
    requires i < LabelBound && j < LabelBound && MaskedLabel(i) == MaskedLabel(j)
    ensures i == j
  {
    SamePrefixTail(MaskedPrefix, Label(i), Label(j));
    LabelInjective(i, j);
  }

  /** Up to the label bound, different names get different labels. */
  lemma NameMappingInjective(names: seq<string>)
    requires NoDup(names) && |names| <= LabelBound
    ensures forall n, n' :: n in NameMapping(names) && n' in NameMapping(names) && n != n' ==>
              NameMapping(names)[n] != NameMapping(names)[n']
  {
    var m := NameMapping(names);
    NameMappingSpec(names);
    forall n, n' | n in m && n' in m && n != n' ensures m[n] != m[n'] {
      var i :| 0 <= i < |names| && names[i] == n;
      var j :| 0 <= j < |names| && names[j] == n';
      if m[n] == m[n'] {
        MaskedLabelInjective(i, j);
      }
    }
  }

  /** A table whose keys are unmasked and whose values are masked: no value is a
      key, and no key maps to itself. */
  predicate MaskingTable(m: map<string, string>) {
    forall k :: k in m ==> Unmasked(k) && StartsWith(m[k], MaskedPrefix)
  }

  lemma MaskedLabelMasked(i: nat)
    ensures StartsWith(MaskedLabel(i), MaskedPrefix)
  {
    StartsWithAppend(MaskedPrefix, Label(i));
  }

  /** The script's table is a masking table, and every collected name is either
      already masked or in it. */
  lemma NameMappingCovers(collected: seq<string>)
    ensures MaskingTable(NameMapping(NamesToMask(collected)))
    ensures forall n :: n in collected ==> !Unmasked(n) || n in NameMapping(NamesToMask(collected))
  {
    var names := NamesToMask(collected);
    var m := NameMapping(names);
    NameMappingSpec(names);
    forall k | k in m ensures Unmasked(k) && StartsWith(m[k], MaskedPrefix) {
      var i :| 0 <= i < |names| && names[i] == k;
      MaskedLabelMasked(i);
    }
  }

  // ---------------------------------------------------------------------------
  // Applying the table
  // ---------------------------------------------------------------------------

  /** A field the table replaces. */
  predicate Hit(f: Field, m: map<string, string>) {
    Truthy(f) && f.value in m
  }

  /** Under a masking table a field changes exactly when it is hit, and masking it
      a second time changes nothing. */
  lemma MapFieldMasking(f: Field, m: map<string, string>)
    requires MaskingTable(m)
    ensures MapField(f, m) != f <==> Hit(f, m)
    ensures MapField(MapField(f, m), m) == MapField(f, m)
  {
    if Hit(f, m) {
      StartsWithSpec(f.value, MaskedPrefix);
      StartsWithSpec(m[f.value], MaskedPrefix);
    }
  }

  /** `user_` and the label's letters in lower case. */
  function MaskedUserId(masked: string): string {
    UserIdPrefix + Lower(ReplaceFirstJs(masked, MaskedPrefix, ""))
  }

  /** The user loop's body: the administrator is skipped; a hit name or display
      name is replaced; a hit id is replaced by `user_<letter>` and resets the
      password. The flag says whether anything was hit. */
  function MaskUser(u: User, m: map<string, string>): (r: (User, bool))
    ensures u.id == Some(AdminId) ==> r == (u, false)
    ensures !r.1 ==> r.0 == u
    ensures r.0.id.Some? <==> u.id.Some?
    ensures r.0.password != u.password ==> r.0.password == Some(DemoPassword)
    ensures u.id != Some(AdminId) ==>
              r.0.name == MapField(u.name, m) && r.0.displayName == MapField(u.displayName, m)
              && (r.1 <==> Hit(u.name, m) || Hit(u.displayName, m) || Hit(u.id, m))
    ensures u.id != Some(AdminId) && Hit(u.id, m) ==>
              r.0.id == Some(MaskedUserId(m[u.id.value])) && r.0.password == Some(DemoPassword)
    ensures !Hit(u.id, m) ==> r.0.id == u.id && r.0.password == u.password
  {
    if u.id == Some(AdminId) then (u, false)
    else
      var u' := u.(name := MapField(u.name, m), displayName := MapField(u.displayName, m));
      var u'' := if Hit(u.id, m) then u'.(id := Some(MaskedUserId(m[u.id.value])), password := Some(DemoPassword)) else u';
      (u'', Hit(u.name, m) || Hit(u.displayName, m) || Hit(u.id, m))
  }

  /** The users after the loop, and whether the file is written. */
  function MaskUsers(users: seq<User>, m: map<string, string>): (r: (seq<User>, bool))
    ensures |r.0| == |users|
    ensures forall i :: 0 <= i < |users| ==> r.0[i] == MaskUser(users[i], m).0
    ensures r.1 <==> exists i :: 0 <= i < |users| && MaskUser(users[i], m).1
    ensures !r.1 ==> r.0 == users
    decreases |users|
  {
    if |users| == 0 then ([], false)
    else
      var init := users[..|users| - 1];
      var u := users[|users| - 1];
      assert users == init + [u];
      var rest := MaskUsers(init, m);
      var last := MaskUser(u, m);
      (rest.0 + [last.0], rest.1 || last.1)
  }

  /** The instruction file's update: the metadata author and the step authors the
      table hits; the flag says whether the file is written. */
  function MaskAuthors(a: Authors, m: map<string, string>): (r: (Authors, bool))
    ensures r.0.author == MapField(a.author, m)
    ensures |r.0.stepAuthors| == |a.stepAuthors|
    ensures forall j :: 0 <= j < |a.stepAuthors| ==> r.0.stepAuthors[j] == MapField(a.stepAuthors[j], m)
    ensures r.1 <==> Hit(a.author, m) || exists j :: 0 <= j < |a.stepAuthors| && Hit(a.stepAuthors[j], m)
  {
    var steps := seq(|a.stepAuthors|, j requires 0 <= j < |a.stepAuthors| => MapField(a.stepAuthors[j], m));
    (Authors(MapField(a.author, m), steps),
     Hit(a.author, m) || exists j | 0 <= j < |a.stepAuthors| :: Hit(a.stepAuthors[j], m))
  }

  function MaskContribution(c: Contribution, m: map<string, string>): Contribution {
    Contribution(MapField(c.userName, m), MapField(c.userId, m))
  }

  /** The contribution file's update; the flag says whether it is written. */
  function MaskContributions(cs: seq<Contribution>, m: map<string, string>): (r: (seq<Contribution>, bool))
    ensures |r.0| == |cs|
    ensures forall j :: 0 <= j < |cs| ==> r.0[j] == MaskContribution(cs[j], m)
    ensures r.1 <==> exists j :: 0 <= j < |cs| && (Hit(cs[j].userName, m) || Hit(cs[j].userId, m))
  {
    (seq(|cs|, j requires 0 <= j < |cs| => MaskContribution(cs[j], m)),
     exists j | 0 <= j < |cs| :: Hit(cs[j].userName, m) || Hit(cs[j].userId, m))
  }

  /** The instruction file names an author the table replaces. */
  predicate AuthorsHit(a: Authors, m: map<string, string>) {
    Hit(a.author, m) || exists j :: 0 <= j < |a.stepAuthors| && Hit(a.stepAuthors[j], m)
  }

  /** The contribution file names a user the table replaces. */
  predicate ContributionsHit(cs: seq<Contribution>, m: map<string, string>) {
    exists j :: 0 <= j < |cs| && (Hit(cs[j].userName, m) || Hit(cs[j].userId, m))
  }

  /** The number of files of one folder the update writes. */
  function DirWrites(m: map<string, string>): DrawingDir -> nat {
    d => MaskDir(d, m).1
  }

  /** One drawing folder after both updates, and how many of its files were
      written. */
  function MaskDir(d: DrawingDir, m: map<string, string>): (r: (DrawingDir, nat))
    ensures r.1 <= 2
    ensures r.1 == (if d.instruction.Some? && AuthorsHit(d.instruction.value, m) then 1 else 0)
                   + (if d.contributions.Some? && ContributionsHit(d.contributions.value, m) then 1 else 0)
    ensures r.0.instruction.Some? <==> d.instruction.Some?
    ensures r.0.contributions.Some? <==> d.contributions.Some?
    ensures d.instruction.Some? ==> r.0.instruction.value == MaskAuthors(d.instruction.value, m).0
    ensures d.contributions.Some? ==> r.0.contributions.value == MaskContributions(d.contributions.value, m).0
  {
    var inst := if d.instruction.Some? then Some(MaskAuthors(d.instruction.value, m)) else None;
    var contribs := if d.contributions.Some? then Some(MaskContributions(d.contributions.value, m)) else None;
    (DrawingDir(if inst.Some? then Some(inst.value.0) else None,
                if contribs.Some? then Some(contribs.value.0) else None),
     (if inst.Some? && inst.value.1 then 1 else 0) + (if contribs.Some? && contribs.value.1 then 1 else 0))
  }

  function MaskDirs(dirs: seq<DrawingDir>, m: map<string, string>): (r: (seq<DrawingDir>, nat))
    ensures |r.0| == |dirs|
    ensures forall i :: 0 <= i < |dirs| ==> r.0[i] == MaskDir(dirs[i], m).0
    ensures r.1 <= 2 * |dirs|
    decreases |dirs|
  {
    if |dirs| == 0 then ([], 0)
    else
      var init := dirs[..|dirs| - 1];
      var d := dirs[|dirs| - 1];
      assert dirs == init + [d];
      var rest := MaskDirs(init, m);
      var last := MaskDir(d, m);
      (rest.0 + [last.0], rest.1 + last.1)
  }

  /** The folders' write count is the sum of the files each folder writes. */
  lemma {:induction false} MaskDirsWrites(dirs: seq<DrawingDir>, m: map<string, string>)
    ensures MaskDirs(dirs, m).1 == Sum(MapNat(DirWrites(m), dirs))
    decreases |dirs|
  {
    if |dirs| > 0 {
      MaskDirsWrites(dirs[..|dirs| - 1], m);
      SumMapSnoc(DirWrites(m), dirs);
    }
  }

  /** The script's end state: it stops when `passwords.json` does not parse or the
      `work-instructions` directory cannot be listed. */
  datatype Outcome = Crashed | Done(passwords: PasswordsFile, dirs: seq<DrawingDir>, updated: nat)

  function UsersOf(p: PasswordsFile): seq<User> {
    if p.Passwords? then p.users else []
  }

  /** The table the script builds from the data. */
  function TableOf(p: PasswordsFile, dirs: seq<DrawingDir>): map<string, string> {
    NameMapping(NamesToMask(Collected(UsersOf(p), dirs)))
  }

  /** The run's result under table `m`: each user and each folder is masked on its
      own, `passwords.json` counts once when some user other than the
      administrator is hit, and each folder adds the files it writes. */
  predicate NamesMaskedBy(passwords: PasswordsFile, dirs: seq<DrawingDir>, m: map<string, string>, r: Outcome) {
    r.Done?
    && (passwords.Passwords? ==>
          r.passwords.Passwords? && |r.passwords.users| == |passwords.users|
          && forall i :: 0 <= i < |passwords.users| ==> r.passwords.users[i] == MaskUser(passwords.users[i], m).0)
    && (!passwords.Passwords? ==> r.passwords == passwords)
    && |r.dirs| == |dirs|
    && (forall i :: 0 <= i < |dirs| ==> r.dirs[i] == MaskDir(dirs[i], m).0)
    && r.updated == (if passwords.Passwords? && exists i :: 0 <= i < |passwords.users| && MaskUser(passwords.users[i], m).1
                     then 1 else 0)
                    + Sum(MapNat(DirWrites(m), dirs))
  }

  function MaskAllNames(passwords: PasswordsFile, dirs: Option<seq<DrawingDir>>): (r: Outcome)
    ensures r.Crashed? <==> passwords.BadPasswords? || dirs.None?
    ensures r.Done? ==> |r.dirs| == |dirs.value| && r.updated <= 1 + 2 * |dirs.value|
    ensures r.Done? ==> (r.passwords.Passwords? <==> passwords.Passwords?)
    ensures r.Done? ==> NamesMaskedBy(passwords, dirs.value, TableOf(passwords, dirs.value), r)
  {
    if passwords.BadPasswords? || dirs.None? then Crashed
    else
      var m := TableOf(passwords, dirs.value);
      var users := MaskUsers(UsersOf(passwords), m);
      var ds := MaskDirs(dirs.value, m);
      MaskDirsWrites(dirs.value, m);
      var written := passwords.Passwords? && users.1;
      Done(if passwords.Passwords? then Passwords(users.0) else passwords, ds.0,
           (if written then 1 else 0) + ds.1)
  }

  // ---------------------------------------------------------------------------
  // What the masked data looks like
  // ---------------------------------------------------------------------------

  /** A field that is empty, missing or masked. */
  predicate CleanField(f: Field) {
    !Truthy(f) || StartsWith(f.value, MaskedPrefix)
  }

  /** An author may also be one of the system authors. */
  predicate CleanAuthor(f: Field) {
    CleanField(f) || f.value in SystemAuthors
  }

  predicate CleanAuthors(a: Authors) {
    CleanAuthor(a.author) && forall j :: 0 <= j < |a.stepAuthors| ==> CleanAuthor(a.stepAuthors[j])
  }

  predicate CleanContribution(c: Contribution) {
    CleanField(c.userName) && CleanField(c.userId)
  }

  predicate CleanDir(d: DrawingDir) {
    (d.instruction.Some? ==> CleanAuthors(d.instruction.value))
    && (d.contributions.Some? ==> forall j :: 0 <= j < |d.contributions.value| ==> CleanContribution(d.contributions.value[j]))
  }

  /** A user other than the administrator keeps no real name: a name is masked or
      管理者, and the id is masked or a `user_` id. */
  predicate CleanUser(u: User) {
    u.id == Some(AdminId)
    || ((CleanField(u.name) || u.name == Some(AdminName))
        && (CleanField(u.displayName) || u.displayName == Some(AdminName))
        && (CleanField(u.id) || StartsWith(u.id.value, UserIdPrefix)))
  }

  /** Every name in `names` is already masked or in the table. */
  predicate Covers(m: map<string, string>, names: seq<string>) {
    forall n :: n in names ==> !Unmasked(n) || n in m
  }

  lemma MapFieldClean(f: Field, m: map<string, string>, keep: bool)
    requires MaskingTable(m) && Covers(m, NameIf(f, keep))
    ensures keep ==> CleanField(MapField(f, m))
    ensures !keep ==> CleanField(MapField(f, m)) || MapField(f, m) == f
  {
    if Truthy(f) && keep {
      assert f.value in NameIf(f, keep);
    }
  }

  lemma UserClean(u: User, m: map<string, string>)
    requires MaskingTable(m) && Covers(m, UserNames(u))
    ensures CleanUser(MaskUser(u, m).0)
  {
    if u.id != Some(AdminId) {
      MapFieldClean(u.name, m, u.name != Some(AdminName));
      MapFieldClean(u.displayName, m, u.displayName != Some(AdminName));
      MapFieldClean(u.id, m, true);
      if Hit(u.id, m) {
        StartsWithAppend(UserIdPrefix, Lower(ReplaceFirstJs(m[u.id.value], MaskedPrefix, "")));
      }
    }
  }

  lemma AuthorsClean(a: Authors, m: map<string, string>)
    requires MaskingTable(m) && Covers(m, AuthorName(a.author) + Gather(a.stepAuthors, AuthorName))
    ensures CleanAuthors(MaskAuthors(a, m).0)
  {
    MapFieldClean(a.author, m, !(a.author.Some? && a.author.value in SystemAuthors));
    forall j | 0 <= j < |a.stepAuthors| ensures CleanAuthor(MaskAuthors(a, m).0.stepAuthors[j]) {
      var f := a.stepAuthors[j];
      assert forall n :: n in AuthorName(f) ==> n in Gather(a.stepAuthors, AuthorName);
      MapFieldClean(f, m, !(f.Some? && f.value in SystemAuthors));
    }
  }

  lemma ContributionsClean(cs: seq<Contribution>, m: map<string, string>)
    requires MaskingTable(m) && Covers(m, Gather(cs, ContributionNames))
    ensures forall j :: 0 <= j < |cs| ==> CleanContribution(MaskContributions(cs, m).0[j])
  {
    forall j | 0 <= j < |cs| ensures CleanContribution(MaskContribution(cs[j], m)) {
      var c := cs[j];
      assert forall n :: n in ContributionNames(c) ==> n in Gather(cs, ContributionNames);
      MapFieldClean(c.userName, m, true);
      MapFieldClean(c.userId, m, true);
    }
  }

  lemma DirClean(d: DrawingDir, m: map<string, string>)
    requires MaskingTable(m) && Covers(m, DirAuthors(d)) && Covers(m, DirContributors(d))
    ensures CleanDir(MaskDir(d, m).0)
  {
    if d.instruction.Some? {
      AuthorsClean(d.instruction.value, m);
    }
    if d.contributions.Some? {
      ContributionsClean(d.contributions.value, m);
    }
  }

  /** After a run no real name is left: every user but the administrator is
      masked, and every author and contributor is masked, empty or (for authors) a
      system author. */
  lemma {:induction false} MaskAllNamesClean(passwords: PasswordsFile, dirs: Option<seq<DrawingDir>>)
    requires MaskAllNames(passwords, dirs).Done?
    ensures forall i :: 0 <= i < |dirs.value| ==> CleanDir(MaskAllNames(passwords, dirs).dirs[i])
    ensures passwords.Passwords? ==>
              forall i :: 0 <= i < |passwords.users| ==> CleanUser(MaskAllNames(passwords, dirs).passwords.users[i])
  {
    var ds := dirs.value;
    var collected := Collected(UsersOf(passwords), ds);
    var m := TableOf(passwords, ds);
    NameMappingCovers(collected);
    forall i | 0 <= i < |ds| ensures CleanDir(MaskDir(ds[i], m).0) {
      assert forall n :: n in DirAuthors(ds[i]) ==> n in Gather(ds, DirAuthors);
      assert forall n :: n in DirContributors(ds[i]) ==> n in Gather(ds, DirContributors);
      DirClean(ds[i], m);
    }
    if passwords.Passwords? {
      var users := passwords.users;
      forall i | 0 <= i < |users| ensures CleanUser(MaskUser(users[i], m).0) {
        assert forall n :: n in UserNames(users[i]) ==> n in Gather(users, UserNames);
        UserClean(users[i], m);
      }
    }
  }

  /** The administrator's record is written back exactly as it was read. */
  lemma MaskAllNamesKeepsAdmin(passwords: PasswordsFile, dirs: Option<seq<DrawingDir>>, i: nat)
    requires MaskAllNames(passwords, dirs).Done? && passwords.Passwords?
    requires i < |passwords.users| && passwords.users[i].id == Some(AdminId)
    ensures MaskAllNames(passwords, dirs).passwords.users[i] == passwords.users[i]
  {
  }

  /** A name that already starts with 作業者 is never in the table, so a second
      label is never put on top of a first one. */
  lemma MaskedNamesNotRemapped(passwords: PasswordsFile, dirs: seq<DrawingDir>, n: string)
    requires StartsWith(n, MaskedPrefix)
    ensures n !in TableOf(passwords, dirs)
  {
    NameMappingCovers(Collected(UsersOf(passwords), dirs));
  }

  /** A user whose id is masked gets `user_` followed by the lower-cased letters of
      the id's own label, and the demo password. */
  lemma MaskedUserIdLetters(names: seq<string>, u: User)
    requires NoDup(names) && u.id != Some(AdminId) && Hit(u.id, NameMapping(names))
    ensures exists k :: 0 <= k < |names| && names[k] == u.id.value
              && MaskUser(u, NameMapping(names)).0.id == Some(UserIdPrefix + Lower(Label(k)))
              && MaskUser(u, NameMapping(names)).0.password == Some(DemoPassword)
  {
    NameMappingSpec(names);
    var k :| 0 <= k < |names| && names[k] == u.id.value;
    StripPrefix(MaskedPrefix, Label(k));
  }

  /** Lower-casing the first 702 labels keeps them apart. */
  lemma LowerLabelInjective(i: nat, j: nat)
    requires i < 702 && j < 702 && Lower(Label(i)) == Lower(Label(j))
    ensures i == j
  {
    LabelLetters(i);
    LabelLetters(j);
    var a, b := Label(i), Label(j);
    assert |a| == |Lower(a)| == |Lower(b)| == |b|;
    forall k | 0 <= k < |a| ensures a[k] == b[k] {
      assert Lower(a)[k] == LowerChar(a[k]) && Lower(b)[k] == LowerChar(b[k]);
    }
    LabelInjective(i, j);
  }

  /** With at most 702 names to mask, users with different ids get different
      `user_` ids. */
  lemma MaskedUserIdsDistinct(names: seq<string>, u: User, v: User)
    requires NoDup(names) && |names| <= 702
    requires u.id != Some(AdminId) && Hit(u.id, NameMapping(names))
    requires v.id != Some(AdminId) && Hit(v.id, NameMapping(names))
    requires u.id != v.id
    ensures MaskUser(u, NameMapping(names)).0.id != MaskUser(v, NameMapping(names)).0.id
  {
    MaskedUserIdLetters(names, u);
    MaskedUserIdLetters(names, v);
    var k :| 0 <= k < |names| && names[k] == u.id.value
             && MaskUser(u, NameMapping(names)).0.id == Some(UserIdPrefix + Lower(Label(k)));
    var l :| 0 <= l < |names| && names[l] == v.id.value
             && MaskUser(v, NameMapping(names)).0.id == Some(UserIdPrefix + Lower(Label(l)));
    if Lower(Label(k)) == Lower(Label(l)) {
      LowerLabelInjective(k, l);
    } else {
      assert (UserIdPrefix + Lower(Label(k)))[|UserIdPrefix|..] == Lower(Label(k));
      assert (UserIdPrefix + Lower(Label(l)))[|UserIdPrefix|..] == Lower(Label(l));
    }
  }

  /** Under a masking table an instruction file is written exactly when its
      authors change, and masking the result again changes and writes nothing. */
  lemma MaskAuthorsWrittenIffChanged(a: Authors, m: map<string, string>)
    requires MaskingTable(m)
    ensures MaskAuthors(a, m).1 <==> MaskAuthors(a, m).0 != a
    ensures MaskAuthors(MaskAuthors(a, m).0, m) == (MaskAuthors(a, m).0, false)
  {
    var r := MaskAuthors(a, m).0;
    MapFieldMasking(a.author, m);
    forall j | 0 <= j < |a.stepAuthors| ensures (r.stepAuthors[j] != a.stepAuthors[j] <==> Hit(a.stepAuthors[j], m))
                                         && !Hit(r.stepAuthors[j], m) {
      MapFieldMasking(a.stepAuthors[j], m);
    }
    if !MaskAuthors(a, m).1 {
      assert r.stepAuthors == a.stepAuthors;
    }
    var r2 := MaskAuthors(r, m).0;
    assert r2.stepAuthors == r.stepAuthors;
  }

  /** The same for a contribution file. */
  lemma MaskContributionsWrittenIffChanged(cs: seq<Contribution>, m: map<string, string>)
    requires MaskingTable(m)
    ensures MaskContributions(cs, m).1 <==> MaskContributions(cs, m).0 != cs
    ensures MaskContributions(MaskContributions(cs, m).0, m) == (MaskContributions(cs, m).0, false)
  {
    var r := MaskContributions(cs, m).0;
    forall j | 0 <= j < |cs| ensures (r[j] != cs[j] <==> Hit(cs[j].userName, m) || Hit(cs[j].userId, m))
                              && !Hit(r[j].userName, m) && !Hit(r[j].userId, m) {
      MapFieldMasking(cs[j].userName, m);
      MapFieldMasking(cs[j].userId, m);
    }
    if !MaskContributions(cs, m).1 {
      assert r == cs;
    }
    assert MaskContributions(r, m).0 == r;
  }
}
