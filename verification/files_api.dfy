/** The file-listing endpoint (`GET /api/files`): it lists the media files of one
    folder of a drawing (`work-instructions/drawing-<n>/<folderType>[/<subFolder>]`)
    or of a machining idea (`ideas-library/<category>/<id>/<folderType>[/<subFolder>]`),
    keeping only the extensions that belong to the folder type.

    The environment and the file system are parameters: `DataEnv` holds the variables
    `getDataRootPath` reads, and `Folder` says what lies at the folder path. A path
    is a list of segments below the data root, normalised as Node's `path.join`
    normalises it. An absent query parameter is the empty string, because every test
    in the handler is a truthiness test. */
module FilesApi {
  import opened Wrappers
  import opened Strings
  import opened Seqs

  // ---------------------------------------------------------------------------
  // Data root
  // ---------------------------------------------------------------------------

  /** The environment variables and working directory `getDataRootPath` consults
      ("" for an unset variable). */
  datatype DataEnv = DataEnv(useNas: string, dataRootPath: string, devDataRootPath: string,
                             nodeEnv: string, cwd: string)

  const NasDefaultRoot: string := "/mnt/project-nas/project-data"
  const ProductionDefaultRoot: string := "/mnt/nas/project-data"

  /** `getDataRootPath`: `USE_NAS=true` wins, then a development path, then the
      production default, then `<cwd>/public/data`. */
  function DataRoot(env: DataEnv): (r: string)
    ensures env.useNas == "true" ==> r == (if env.dataRootPath != "" then env.dataRootPath else NasDefaultRoot)
    ensures env.useNas != "true" && env.devDataRootPath != "" ==> r == env.devDataRootPath
    ensures r == "" ==> env.useNas != "true" && env.devDataRootPath == "" && env.nodeEnv != "production" && env.cwd + "/public/data" == ""
  {
    if env.useNas == "true" then (if env.dataRootPath != "" then env.dataRootPath else NasDefaultRoot)
    else if env.devDataRootPath != "" then env.devDataRootPath
    else if env.nodeEnv == "production" then (if env.dataRootPath != "" then env.dataRootPath else ProductionDefaultRoot)
    else env.cwd + "/public/data"
  }

  /** The data root is never empty: every branch ends in a non-empty text. */
  lemma DataRootNonEmpty(env: DataEnv)
    ensures DataRoot(env) != ""
  {
    var r := DataRoot(env);
    if env.useNas != "true" && env.devDataRootPath == "" && env.nodeEnv != "production" {
      assert |env.cwd + "/public/data"| >= 12;
    }
  }

  // ---------------------------------------------------------------------------
  // Request validation
  // ---------------------------------------------------------------------------

  datatype FilesRequest = FilesRequest(
    drawingNumber: string,
    folderType: string,
    subFolder: string,
    ideaCategory: string,
    ideaId: string)

  datatype FilesError = FolderTypeRequired | IdeaParamsRequired | DrawingNumberRequired

  function ErrorMessage(e: FilesError): string {
    match e
    case FolderTypeRequired => "folderType は必須です"
    case IdeaParamsRequired => "ideaCategory と ideaId は必須です"
    case DrawingNumberRequired => "drawingNumber は必須です"
  }

  /** Both idea parameters are present: the request addresses a machining idea. */
  predicate IsIdeaRequest(q: FilesRequest) {
    q.ideaCategory != "" && q.ideaId != ""
  }

  /** The idea-parameter check inside the idea branch, as the handler writes it. */
  function IdeaParamsCheck(q: FilesRequest): (e: Option<FilesError>)
    ensures e.Some? <==> q.ideaCategory == "" || q.ideaId == ""
  {
    if q.ideaCategory == "" || q.ideaId == "" then Some(IdeaParamsRequired) else None
  }

  /** The idea-parameter check can never fire: it only runs when both parameters are
      present. */
  lemma IdeaParamsCheckUnreachable(q: FilesRequest)
    requires IsIdeaRequest(q)
    ensures IdeaParamsCheck(q) == None
  {
  }

  /** The parameter checks, in the handler's order. */
  function ValidateRequest(q: FilesRequest): (e: Option<FilesError>)
    ensures e != Some(IdeaParamsRequired)
    ensures e == Some(FolderTypeRequired) <==> q.folderType == ""
    ensures e == Some(DrawingNumberRequired) <==>
              q.folderType != "" && !IsIdeaRequest(q) && q.drawingNumber == ""
    ensures e == None <==> q.folderType != "" && (IsIdeaRequest(q) || q.drawingNumber != "")
  {
    if q.folderType == "" then Some(FolderTypeRequired)
    else if IsIdeaRequest(q) then IdeaParamsCheck(q)
    else if q.drawingNumber == "" then Some(DrawingNumberRequired)
    else None
  }

  // ---------------------------------------------------------------------------
  // Folder path
  // ---------------------------------------------------------------------------

  /** The texts the handler passes to `join` after the data root. The idea
      parameters win over a drawing number given at the same time, and an empty
      sub-folder is not passed. */
  function JoinArguments(q: FilesRequest): (p: seq<string>)
    ensures |p| == (if IsIdeaRequest(q) then 4 else 3) + (if q.subFolder != "" then 1 else 0)
    ensures IsIdeaRequest(q) ==> p[..4] == ["ideas-library", q.ideaCategory, q.ideaId, q.folderType]
    ensures !IsIdeaRequest(q) ==> p[..3] == ["work-instructions", "drawing-" + q.drawingNumber, q.folderType]
    ensures q.subFolder != "" ==> p[|p| - 1] == q.subFolder
  {
    var base :=
      if IsIdeaRequest(q) then ["ideas-library", q.ideaCategory, q.ideaId, q.folderType]
      else ["work-instructions", "drawing-" + q.drawingNumber, q.folderType];
    if q.subFolder != "" then base + [q.subFolder] else base
  }

  /** A segment `join` keeps as it is: not empty, free of `/`, and neither `.` nor
      `..`. */
  predicate PlainSegment(s: string) {
    s != "" && '/' !in s && s != "." && s != ".."
  }

  /** The texts given to `join`, cut at every `/`. */
  function Segments(args: seq<string>): (segs: seq<string>)
    ensures forall i :: 0 <= i < |segs| ==> '/' !in segs[i]
    decreases |args|
  {
    if |args| == 0 then []
    else
      var head := Split(args[0], '/');
      var rest := Segments(args[1..]);
      assert forall i :: |head| <= i < |head + rest| ==> (head + rest)[i] == rest[i - |head|];
      head + rest
  }

  /** One segment of `join`'s normalisation, applied to the folders entered so far:
      an empty segment and `.` change nothing, `..` leaves the last folder entered,
      and any other segment enters a folder. A `..` with no folder left to leave is
      kept: it names a folder above the data root. */
  function Step(dirs: seq<string>, s: string): seq<string> {
    if s == "" || s == "." then dirs
    else if s == ".." && |dirs| > 0 && dirs[|dirs| - 1] != ".." then dirs[..|dirs| - 1]
    else dirs + [s]
  }

  /** `join`'s normalisation: the segments applied one after another. */
  function Resolve(dirs: seq<string>, segs: seq<string>): seq<string>
    decreases |segs|
  {
    if |segs| == 0 then dirs else Resolve(Step(dirs, segs[0]), segs[1..])
  }

  /** A normalised path below the data root: no segment is empty, `.` or holds a
      `/`, and the `..` segments, if any, all come first. */
  predicate Normal(p: seq<string>) {
    (forall i :: 0 <= i < |p| ==> p[i] != "" && p[i] != "." && '/' !in p[i]) &&
    (forall i, j :: 0 <= i < j < |p| && p[j] == ".." ==> p[i] == "..")
  }

  /** A step keeps a path normal. */
  lemma StepNormal(dirs: seq<string>, s: string)
    requires Normal(dirs) && '/' !in s
    ensures Normal(Step(dirs, s))
  {
    var r := Step(dirs, s);
    if s == ".." && !(|dirs| > 0 && dirs[|dirs| - 1] != "..") {
      assert forall i :: 0 <= i < |dirs| ==> dirs[i] == "..";
    }
  }

  /** Resolving segments free of `/` keeps a path normal. */
  lemma {:induction false} ResolveNormal(dirs: seq<string>, segs: seq<string>)
    requires Normal(dirs)
    requires forall i :: 0 <= i < |segs| ==> '/' !in segs[i]
    ensures Normal(Resolve(dirs, segs))
    decreases |segs|
  {
    if |segs| > 0 {
      StepNormal(dirs, segs[0]);
      ResolveNormal(Step(dirs, segs[0]), segs[1..]);
    }
  }

  /** Plain segments are entered one after another. */
  lemma {:induction false} ResolvePlain(dirs: seq<string>, segs: seq<string>)
    requires forall i :: 0 <= i < |segs| ==> PlainSegment(segs[i])
    ensures Resolve(dirs, segs) == dirs + segs
    decreases |segs|
  {
    if |segs| > 0 {
      ResolvePlain(dirs + [segs[0]], segs[1..]);
      assert dirs + [segs[0]] + segs[1..] == dirs + segs;
    }
  }

  /** Texts free of `/` are not cut. */
  lemma {:induction false} SegmentsPlain(args: seq<string>)
    requires forall i :: 0 <= i < |args| ==> '/' !in args[i]
    ensures Segments(args) == args
    decreases |args|
  {
    if |args| > 0 {
      SplitNoSep(args[0], '/');
      SegmentsPlain(args[1..]);
      assert args == [args[0]] + args[1..];
    }
  }

  /** The listed folder, below the data root: `join` of the data root and the
      handler's arguments. A leading `..` names a folder above the data root. */
  function FolderPath(q: FilesRequest): (p: seq<string>)
    ensures Normal(p)
  {
    var segs := Segments(JoinArguments(q));
    ResolveNormal([], segs);
    Resolve([], segs)
  }

  /** Every parameter that becomes part of the path is a single plain segment. The
      drawing number only needs to be free of `/`, since it follows `drawing-`. */
  predicate PlainRequest(q: FilesRequest) {
    && PlainSegment(q.folderType)
    && (q.subFolder == "" || PlainSegment(q.subFolder))
    && if IsIdeaRequest(q) then PlainSegment(q.ideaCategory) && PlainSegment(q.ideaId)
       else '/' !in q.drawingNumber
  }

  /** For a plain request `join` changes nothing: the folder is the handler's
      arguments one per segment. */
  lemma PlainFolderPath(q: FilesRequest)
    requires PlainRequest(q)
    ensures FolderPath(q) == JoinArguments(q)
  {
    var args := JoinArguments(q);
    if !IsIdeaRequest(q) {
      var d := "drawing-" + q.drawingNumber;
      assert |d| >= 8 && '/' !in d;
      assert PlainSegment(d);
    }
    assert PlainSegment("work-instructions") && PlainSegment("ideas-library");
    assert forall i :: 0 <= i < |args| ==> PlainSegment(args[i]);
    SegmentsPlain(args);
    ResolvePlain([], args);
  }

  /** Different plain requests list different folders: the path gives back the mode,
      the folder type, the sub-folder and the drawing number or idea it was built
      from. */
  lemma FolderPathDetermines(q1: FilesRequest, q2: FilesRequest)
    requires PlainRequest(q1) && PlainRequest(q2)
    requires FolderPath(q1) == FolderPath(q2)
    ensures IsIdeaRequest(q1) == IsIdeaRequest(q2)
    ensures q1.folderType == q2.folderType && q1.subFolder == q2.subFolder
    ensures IsIdeaRequest(q1) ==> q1.ideaCategory == q2.ideaCategory && q1.ideaId == q2.ideaId
    ensures !IsIdeaRequest(q1) ==> q1.drawingNumber == q2.drawingNumber
  {
    PlainFolderPath(q1);
    PlainFolderPath(q2);
    var p := JoinArguments(q1);
    assert IsIdeaRequest(q1) <==> p[0] == "ideas-library";
    assert IsIdeaRequest(q2) <==> p[0] == "ideas-library";
    if !IsIdeaRequest(q1) {
      var f := "drawing-";
      assert p[1] == f + q1.drawingNumber && p[1] == f + q2.drawingNumber;
      assert q1.drawingNumber == (f + q1.drawingNumber)[|f|..];
      assert q2.drawingNumber == (f + q2.drawingNumber)[|f|..];
    }
    if q1.subFolder != "" || q2.subFolder != "" {
      assert q1.subFolder != "" && q2.subFolder != "";
    }
  }

  /** Resolving two runs of segments is resolving the first, then the second. */
  lemma {:induction false} ResolveAppend(dirs: seq<string>, a: seq<string>, b: seq<string>)
    ensures Resolve(dirs, a + b) == Resolve(Resolve(dirs, a), b)
    decreases |a|
  {
    if |a| > 0 {
      assert (a + b)[0] == a[0] && (a + b)[1..] == a[1..] + b;
      ResolveAppend(Step(dirs, a[0]), a[1..], b);
    } else {
      assert a + b == b;
    }
  }

  /** Two `..` segments leave the two folders entered before them. */
  lemma ClimbTwo(w: string, d: string)
    requires PlainSegment(w) && PlainSegment(d)
    ensures Resolve([w, d], ["..", ".."]) == []
  {
    var a := ["..", ".."];
    assert Step([w, d], "..") == [w] && Step([w], "..") == [];
    assert Resolve([w, d], a) == Resolve([w], a[1..]);
    assert Resolve([w], a[1..]) == Resolve([], a[2..]);
  }

  /** The fixed texts of the paths are plain segments. */
  lemma FixedSegmentsPlain()
    ensures PlainSegment("work-instructions") && PlainSegment("ideas-library") && PlainSegment("drawing-")
  {
  }

  /** The drawing's folder name is a plain segment when the drawing number is free
      of `/`. */
  lemma DrawingSegmentPlain(n: string)
    requires '/' !in n
    ensures PlainSegment("drawing-" + n)
  {
    FixedSegmentsPlain();
    var d := "drawing-" + n;
    assert forall k :: 0 <= k < |d| ==> d[k] != '/' by {
      forall k | 0 <= k < |d| ensures d[k] != '/' {
        if k < 8 { assert d[k] == "drawing-"[k]; } else { assert d[k] == n[k - 8]; }
      }
    }
  }

  /** A prefix of a joined text belongs to its first part. */
  lemma JoinPrefix(pre: string, parts: seq<string>, sep: string)
    requires |parts| >= 1
    ensures pre + Join(parts, sep) == Join([pre + parts[0]] + parts[1..], sep)
  {
    var q := [pre + parts[0]] + parts[1..];
    assert q[1..] == parts[1..];
    if |parts| > 1 {
      assert pre + (parts[0] + sep + Join(parts[1..], sep)) == (pre + parts[0]) + sep + Join(parts[1..], sep);
    }
  }

  /** `join` of a plain segment, a text joined from parts free of `/`, and another
      plain segment. */
  lemma {:induction false} SegmentsAroundJoin(a: string, d: seq<string>, t: string)
    requires PlainSegment(a) && PlainSegment(t) && |d| >= 1
    requires forall k :: 0 <= k < |d| ==> '/' !in d[k]
    ensures Segments([a, Join(d, "/"), t]) == [a] + d + [t]
  {
    var args := [a, Join(d, "/"), t];
    SplitJoin(d, '/');
    SplitNoSep(a, '/');
    SplitNoSep(t, '/');
    assert args[2..] == [t] && args[1..] == [Join(d, "/"), t];
    assert Segments(args[2..]) == [t];
    assert Segments(args[1..]) == d + [t];
  }

  /** The texts a drawing request without sub-folder gives to `join`. */
  lemma DrawingArguments(n: string, t: string)
    ensures JoinArguments(FilesRequest(n, t, "", "", "")) == ["work-instructions", "drawing-" + n, t]
  {
  }

  /** The segments of a drawing request whose drawing number is joined from a first
      part and further parts, all free of `/`. */
  lemma JoinedDrawingSegments(x: string, rest: seq<string>, t: string)
    requires '/' !in x && PlainSegment(t)
    requires forall k :: 0 <= k < |rest| ==> '/' !in rest[k]
    ensures Segments(JoinArguments(FilesRequest(Join([x] + rest, "/"), t, "", "", "")))
            == ["work-instructions"] + (["drawing-" + x] + rest) + [t]
  {
    var parts := [x] + rest;
    assert parts[0] == x && parts[1..] == rest;
    JoinPrefix("drawing-", parts, "/");
    var d := ["drawing-" + x] + rest;
    DrawingSegmentPlain(x);
    assert forall k :: 0 <= k < |d| ==> '/' !in d[k] by {
      forall k | 0 <= k < |d| ensures '/' !in d[k] {
        if k > 0 { assert d[k] == rest[k - 1]; }
      }
    }
    DrawingArguments(Join(parts, "/"), t);
    FixedSegmentsPlain();
    SegmentsAroundJoin("work-instructions", d, t);
  }

  /** Two plain segments enter two folders. */
  lemma EnterTwo(w: string, d: string, z: seq<string>)
    requires PlainSegment(w) && PlainSegment(d)
    ensures Resolve([], [w] + ([d] + z)) == Resolve([w, d], z)
  {
    ResolveCons([], w, [d] + z);
    assert Step([], w) == [w];
    ResolveCons([w], d, z);
    assert Step([w], d) == [w, d];
  }

  /** Two folders entered, then left by two `..`, leave only the plain segments
      that follow. */
  lemma ClimbResolve(w: string, d: string, a: string, b: string, c: string)
    requires PlainSegment(w) && PlainSegment(d)
    requires PlainSegment(a) && PlainSegment(b) && PlainSegment(c)
    ensures Resolve([], [w] + ([d] + (["..", ".."] + [a, b, c]))) == [a, b, c]
  {
    var rest := [a, b, c];
    EnterTwo(w, d, ["..", ".."] + rest);
    ResolveAppend([w, d], ["..", ".."], rest);
    ClimbTwo(w, d);
    assert Resolve([], rest) == rest by {
      ResolveCons([], a, [b, c]);
      assert Step([], a) == [a];
      ResolvePlain([a], [b, c]);
      assert [a] + [b, c] == rest;
    }
  }

  /** Resolving a first segment, then the rest. */
  lemma ResolveCons(dirs: seq<string>, s: string, rest: seq<string>)
    ensures Resolve(dirs, [s] + rest) == Resolve(Step(dirs, s), rest)
  {
    assert ([s] + rest)[0] == s && ([s] + rest)[1..] == rest;
  }

  /** A six-element list seen as its head, two equal elements and three more. */
  lemma SixParts<T>(x: T, u: T, a: T, b: T, c: T)
    ensures [x, u, u, a, b, c] == [x] + ([u, u] + [a, b, c])
  {
  }

  /** The segments of a drawing number `<x>/../../<a>/<b>/<c>`. */
  lemma ClimbSegments(x: string, a: string, b: string, c: string, t: string)
    requires '/' !in x && PlainSegment(t)
    requires '/' !in a && '/' !in b && '/' !in c
    ensures Segments(JoinArguments(FilesRequest(Join([x, "..", "..", a, b, c], "/"), t, "", "", "")))
            == ["work-instructions"] + (["drawing-" + x] + (["..", ".."] + [a, b, c])) + [t]
  {
    var up := "..";
    var rest := [up, up] + [a, b, c];
    assert forall k :: 0 <= k < |rest| ==> '/' !in rest[k];
    JoinedDrawingSegments(x, rest, t);
    SixParts(x, up, a, b, c);
  }

  /** A drawing number `<x>/../../<a>/<b>/<c>` lists folder `<a>/<b>/<c>/<t>` below
      the data root. */
  lemma ClimbPath(x: string, a: string, b: string, c: string, t: string)
    requires '/' !in x && PlainSegment(a) && PlainSegment(b) && PlainSegment(c) && PlainSegment(t)
    ensures FolderPath(FilesRequest(Join([x, "..", "..", a, b, c], "/"), t, "", "", "")) == [a, b, c, t]
  {
    var d := "drawing-" + x;
    var segs := ["work-instructions"] + ([d] + (["..", ".."] + [a, b, c]));
    ClimbSegments(x, a, b, c, t);
    FixedSegmentsPlain();
    DrawingSegmentPlain(x);
    ClimbResolve("work-instructions", d, a, b, c);
    ResolvePlain([a, b, c], [t]);
    ResolveAppend([], segs, [t]);
  }

  /** As written, a drawing number climbs out of its drawing's folder: the drawing
      number `<x>/../../ideas-library/<c>/<i>` passes the checks and lists the
      folder of idea `<i>` in category `<c>`. */
  lemma DrawingNumberReachesIdea(x: string, c: string, i: string, t: string)
    requires '/' !in x && PlainSegment(c) && PlainSegment(i) && PlainSegment(t)
    ensures var climb := FilesRequest(Join([x, "..", "..", "ideas-library", c, i], "/"), t, "", "", "");
            var idea := FilesRequest("", t, "", c, i);
            && ValidateRequest(climb) == None && ValidateRequest(idea) == None
            && !IsIdeaRequest(climb) && IsIdeaRequest(idea)
            && FolderPath(climb) == FolderPath(idea)
  {
    FixedSegmentsPlain();
    ClimbPath(x, "ideas-library", c, i, t);
    var idea := FilesRequest("", t, "", c, i);
    PlainFolderPath(idea);
    var p := JoinArguments(idea);
    assert p == p[..4];
  }

  /** The check the handler evidently intends: the handler's own checks, and every
      parameter that becomes part of the path is a single plain segment. */
  predicate CorrectedAccepts(q: FilesRequest) {
    ValidateRequest(q).None? && PlainRequest(q)
  }

  /** With the intended check a request lists exactly its own folder: a drawing's
      folder or an idea's, and never one above the data root. */
  lemma CorrectedFolderStaysInside(q: FilesRequest)
    requires CorrectedAccepts(q)
    ensures FolderPath(q) == JoinArguments(q)
    ensures forall k :: 0 <= k < |FolderPath(q)| ==> FolderPath(q)[k] != ".."
    ensures IsIdeaRequest(q) ==> FolderPath(q)[..4] == ["ideas-library", q.ideaCategory, q.ideaId, q.folderType]
    ensures !IsIdeaRequest(q) ==> FolderPath(q)[..3] == ["work-instructions", "drawing-" + q.drawingNumber, q.folderType]
  {
    PlainFolderPath(q);
    var p := JoinArguments(q);
    if !IsIdeaRequest(q) {
      DrawingSegmentPlain(q.drawingNumber);
    }
    FixedSegmentsPlain();
    assert forall k :: 0 <= k < |p| ==> PlainSegment(p[k]);
  }

  // ---------------------------------------------------------------------------
  // Extension filter
  // ---------------------------------------------------------------------------

  /** `file.toLowerCase().split('.').pop()`. */
  function Extension(file: string): (e: string)
    ensures '.' !in e
  {
    var parts := Split(Lower(file), '.');
    parts[|parts| - 1]
  }

  /** The extension is `ext` exactly when the lower-cased name ends in `.ext`, or when
      the name has no dot at all and is `ext` itself (a file named `PDF` passes the
      `pdfs` filter). */
  lemma {:induction false} ExtensionIff(file: string, ext: string)
    requires '.' !in ext
    ensures Extension(file) == ext <==> Lower(file) == ext || EndsWith(Lower(file), "." + ext)
  {
    var l := Lower(file);
    var last := Extension(file);
    SplitLast(l, '.');
    assert EndsWith(l, "." + ext) ==> l[|l| - |ext| - 1] == '.' && '.' in l;
    if '.' !in l {
      assert last == l;
    } else {
      assert EndsWith(l, "." + last);
      if EndsWith(l, "." + ext) {
        SameTextAfterSeparator(l, '.', last, ext);
      }
    }
  }

  /** Two separator-free texts that both follow the separator at the end of `l` are
      the same text. */
  lemma SameTextAfterSeparator(l: string, c: char, a: string, b: string)
    requires c !in a && c !in b
    requires EndsWith(l, [c] + a) && EndsWith(l, [c] + b)
    ensures a == b
  {
    assert a == l[|l| - |a|..] && b == l[|l| - |b|..];
    assert forall j :: |l| - |a| <= j < |l| ==> l[j] in a;
    assert forall j :: |l| - |b| <= j < |l| ==> l[j] in b;
    assert l[|l| - |a| - 1] == c == l[|l| - |b| - 1];
  }

  /** The extensions a folder type accepts; `None` for an unknown type, which keeps
      every file. */
  function AllowedExtensions(folderType: string): (r: Option<seq<string>>)
    ensures r.Some? <==> folderType in {"images", "videos", "pdfs", "programs"}
    ensures r.Some? ==> forall i :: 0 <= i < |r.value| ==> '.' !in r.value[i]
  {
    match folderType
    case "images" => Some(["jpg", "jpeg", "png", "gif", "webp"])
    case "videos" => Some(["mp4", "webm", "avi", "mov"])
    case "pdfs" => Some(["pdf"])
    case "programs" => Some(["nc", "min", "cam", "dxf", "dwg", "stp"])
    case _ => None
  }

  /** Whether the listing keeps a file of the given folder type. */
  predicate Keep(folderType: string, file: string) {
    var allowed := AllowedExtensions(folderType);
    allowed.None? || Extension(file) in allowed.value
  }

  /** A PDF folder keeps exactly the names ending in `.pdf` in any letter case, and
      the bare name `pdf`. */
  lemma PdfFilter(file: string)
    ensures Keep("pdfs", file) <==> Lower(file) == "pdf" || EndsWith(Lower(file), ".pdf")
  {
    ExtensionIff(file, "pdf");
  }

  // ---------------------------------------------------------------------------
  // Handler
  // ---------------------------------------------------------------------------

  /** One directory entry: its name and whether it is a regular file. */
  datatype FolderEntry = FolderEntry(name: string, isFile: bool)

  /** What the file system holds at the folder path: nothing, so that `existsSync`
      fails; something other than a directory, which `existsSync` accepts and
      `readdir` refuses; or a directory and its entries. */
  datatype Folder = Missing | NotDirectory | Directory(entries: seq<FolderEntry>)

  const ListingFailedMessage: string := "ファイル一覧の取得に失敗しました"

  datatype FilesResponse =
    | BadRequest(error: FilesError)
    | NoFolder
    | ListingFailed
    | Listing(files: seq<string>, folderPath: seq<string>, count: nat)
  {
    function Status(): int {
      if BadRequest? then 400 else if ListingFailed? then 500 else 200
    }

    /** The `files` array of the JSON body. */
    function Files(): seq<string> {
      if Listing? then files else []
    }
  }

  function FileNames(entries: seq<FolderEntry>): (names: seq<string>)
    ensures |names| <= |entries|
    ensures forall i :: 0 <= i < |names| ==> exists j :: 0 <= j < |entries| && entries[j].isFile && entries[j].name == names[i]
    ensures forall j :: 0 <= j < |entries| && entries[j].isFile ==> entries[j].name in names
    decreases |entries|
  {
    if |entries| == 0 then []
    else
      var init := FileNames(entries[..|entries| - 1]);
      var e := entries[|entries| - 1];
      assert forall i :: 0 <= i < |init| ==> exists j :: 0 <= j < |entries| - 1 && entries[j].isFile && entries[j].name == init[i];
      if e.isFile then init + [e.name] else init
  }

  /** The filter callback for one folder type. */
  function KeepFor(folderType: string): string -> bool {
    (f: string) => Keep(folderType, f)
  }

  /** The filter applied to the file names of the folder. */
  function Kept(folderType: string, names: seq<string>): seq<string> {
    Filter(KeepFor(folderType), names)
  }

  /** The listing of a directory: its regular files whose extension suits the
      folder type, with their count. */
  function DirectoryListing(q: FilesRequest, entries: seq<FolderEntry>): (r: FilesResponse)
    ensures r.Listing? && r.folderPath == FolderPath(q) && r.count == |r.files|
    ensures forall i :: 0 <= i < |r.files| ==> Keep(q.folderType, r.files[i])
    ensures forall i :: 0 <= i < |r.files| ==>
              exists j :: 0 <= j < |entries| && entries[j].isFile && entries[j].name == r.files[i]
    ensures forall j :: 0 <= j < |entries| && entries[j].isFile && Keep(q.folderType, entries[j].name) ==>
              entries[j].name in r.files
  {
    var names := FileNames(entries);
    var kept := Kept(q.folderType, names);
    assert forall i :: 0 <= i < |kept| ==> kept[i] in names;
    Listing(kept, FolderPath(q), |kept|)
  }

  /** `GET /api/files`: the parameter checks, then the listing of the folder's regular
      files whose extension suits the folder type, with their count. A missing folder
      lists nothing; a path that is not a directory makes `readdir` throw, and the
      handler's catch answers 500. */
  function ListFiles(q: FilesRequest, folder: Folder): (r: FilesResponse)
    ensures r.BadRequest? <==> ValidateRequest(q).Some?
    ensures r.BadRequest? ==> r.error == ValidateRequest(q).value
    ensures r.NoFolder? <==> ValidateRequest(q).None? && folder.Missing?
    ensures r.ListingFailed? <==> ValidateRequest(q).None? && folder.NotDirectory?
    ensures r.Status() == 500 <==> r.ListingFailed?
    ensures r.Listing? <==> ValidateRequest(q).None? && folder.Directory?
    ensures r.Listing? ==> r.folderPath == FolderPath(q) && r.count == |r.files|
    ensures r.Listing? ==> forall i :: 0 <= i < |r.files| ==> Keep(q.folderType, r.files[i])
    ensures r.Listing? ==> forall i :: 0 <= i < |r.files| ==>
              exists j :: 0 <= j < |folder.entries| && folder.entries[j].isFile && folder.entries[j].name == r.files[i]
    ensures r.Listing? ==> forall j :: 0 <= j < |folder.entries| && folder.entries[j].isFile && Keep(q.folderType, folder.entries[j].name) ==>
              folder.entries[j].name in r.files
  {
    match ValidateRequest(q)
    case Some(e) => BadRequest(e)
    case None =>
      match folder
      case Missing => NoFolder
      case NotDirectory => ListingFailed
      case Directory(entries) => DirectoryListing(q, entries)
  }

  /** The listing keeps the order of the directory, and an unknown folder type keeps
      every regular file. */
  lemma ListingOrder(q: FilesRequest, entries: seq<FolderEntry>)
    requires ValidateRequest(q).None?
    ensures IsSubseq(ListFiles(q, Directory(entries)).files, FileNames(entries))
    ensures AllowedExtensions(q.folderType).None? ==> ListFiles(q, Directory(entries)).files == FileNames(entries)
  {
    var names := FileNames(entries);
    FilterIsSubseq(KeepFor(q.folderType), names);
    if AllowedExtensions(q.folderType).None? {
      FilterAll(KeepFor(q.folderType), names);
    }
  }
}
