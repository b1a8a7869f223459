/** The admin drawings endpoint (src/app/api/admin/drawings/route.ts): validation of
    new drawings, the status and summary of a registration request, and the
    filtered, paginated listing. Authentication, the file system, the data
    transaction and the upload calls are parameters: the model receives their
    outcomes. */
module DrawingsApi {
  import opened Wrappers
  import opened Strings
  import opened Seqs
  import Sanitize
  import opened Catalog
  import DrawingUtils

  /** The fields of one new drawing that validation reads; "" is an absent field. */
  datatype DrawingInput = DrawingInput(
    drawingNumber: string, title: string, companyName: string, productName: string,
    productCategory: string, difficulty: string, estimatedTime: string, machineType: string)

  /** The eleven checks of `validateDrawingData`, in the order the source runs them. */
  datatype FieldError =
    | NumberRequired | TitleRequired | CompanyRequired | ProductRequired | CategoryRequired
    | DifficultyRequired | TimeRequired | MachineRequired
    | NumberFormat | TimeNotPositive | DifficultyUnknown

  /** The message the source reports for each check. */
  function Message(e: FieldError): string {
    match e
    case NumberRequired => "図番は必須です"
    case TitleRequired => "タイトルは必須です"
    case CompanyRequired => "会社名は必須です"
    case ProductRequired => "製品名は必須です"
    case CategoryRequired => "製品カテゴリは必須です"
    case DifficultyRequired => "難易度は必須です"
    case TimeRequired => "推定時間は必須です"
    case MachineRequired => "機械種別は必須です"
    case NumberFormat => "図番は英数字、ハイフン、アンダースコアのみ使用可能です"
    case TimeNotPositive => "推定時間は正の数値で入力してください"
    case DifficultyUnknown => "難易度は「初級」「中級」「上級」のいずれかを選択してください"
  }

  const Difficulties: seq<string> := ["初級", "中級", "上級"]

  /** `/^[a-zA-Z0-9\-_]+$/`. */
  predicate IsDrawingNumberFormat(n: string) {
    |n| > 0 && Sanitize.AllSafe(n)
  }

  /** `parseInt(t)` is a number greater than zero. */
  predicate IsPositiveTime(t: string) {
    ParseInt(t).Some? && ParseInt(t).value > 0
  }

  /** Whether check `e` fails: text fields are required after trimming (`IsBlank` is
      `!s.trim()`, see `Strings.TrimEmptyIff`), the difficulty
      and the time before trimming; the three format checks only run on a non-empty
      value. */
  predicate Fails(d: DrawingInput, e: FieldError) {
    match e
    case NumberRequired => IsBlank(d.drawingNumber)
    case TitleRequired => IsBlank(d.title)
    case CompanyRequired => IsBlank(d.companyName)
    case ProductRequired => IsBlank(d.productName)
    case CategoryRequired => IsBlank(d.productCategory)
    case DifficultyRequired => d.difficulty == ""
    case TimeRequired => d.estimatedTime == ""
    case MachineRequired => IsBlank(d.machineType)
    case NumberFormat => d.drawingNumber != "" && !IsDrawingNumberFormat(d.drawingNumber)
    case TimeNotPositive => d.estimatedTime != "" && !IsPositiveTime(d.estimatedTime)
    case DifficultyUnknown => d.difficulty != "" && d.difficulty !in Difficulties
  }

  /** The checks in the order the source runs them. */
  const AllChecks: seq<FieldError> :=
    [NumberRequired, TitleRequired, CompanyRequired, ProductRequired, CategoryRequired,
     DifficultyRequired, TimeRequired, MachineRequired, NumberFormat, TimeNotPositive,
     DifficultyUnknown]

  /** The position of a check in the source's order. */
  function CheckIndex(e: FieldError): (k: nat)
    ensures k < |AllChecks| && AllChecks[k] == e
  {
    match e
    case NumberRequired => 0
    case TitleRequired => 1
    case CompanyRequired => 2
    case ProductRequired => 3
    case CategoryRequired => 4
    case DifficultyRequired => 5
    case TimeRequired => 6
    case MachineRequired => 7
    case NumberFormat => 8
    case TimeNotPositive => 9
    case DifficultyUnknown => 10
  }

  datatype Validation = Validation(valid: bool, errors: seq<FieldError>)

  /** `validateDrawingData`: one error per failed check, in the order of the checks. */
  function ValidateDrawingData(d: DrawingInput): (v: Validation)
    ensures v.valid <==> |v.errors| == 0
    ensures forall e :: e in v.errors <==> Fails(d, e)
  {
    var errors := Filter(e => Fails(d, e), AllChecks);
    forall e | Fails(d, e) ensures e in errors {
      var k := CheckIndex(e);
    }
    Validation(|errors| == 0, errors)
  }

  /** The messages of a validation, in order. */
  function ErrorMessages(v: Validation): (r: seq<string>)
    ensures |r| == |v.errors|
  {
    seq(|v.errors|, k requires 0 <= k < |v.errors| => Message(v.errors[k]))
  }

  /** The errors are reported in the order the checks run, each at most once. */
  lemma ValidationOrder(d: DrawingInput)
    ensures IsSubseq(ValidateDrawingData(d).errors, AllChecks)
  {
    FilterIsSubseq(e => Fails(d, e), AllChecks);
  }

  /** What a registrable drawing is, stated without the error list. */
  predicate Acceptable(d: DrawingInput) {
    IsDrawingNumberFormat(d.drawingNumber)
    && !IsBlank(d.title) && !IsBlank(d.companyName) && !IsBlank(d.productName)
    && !IsBlank(d.productCategory) && !IsBlank(d.machineType)
    && IsPositiveTime(d.estimatedTime) && d.difficulty in Difficulties
  }

  /** Validation accepts exactly the acceptable drawings. */
  lemma ValidIffAcceptable(d: DrawingInput)
    ensures ValidateDrawingData(d).valid <==> Acceptable(d)
  {
    var v := ValidateDrawingData(d);
    if v.valid {
      PassingAcceptable(d);
    } else {
      assert v.errors[0] in v.errors;
      FailsNotAcceptable(d, v.errors[0]);
    }
  }

  /** A drawing on which no check fails is acceptable. */
  lemma PassingAcceptable(d: DrawingInput)
    requires !Fails(d, NumberRequired) && !Fails(d, NumberFormat)
    requires !Fails(d, TimeRequired) && !Fails(d, TimeNotPositive)
    requires !Fails(d, DifficultyRequired) && !Fails(d, DifficultyUnknown)
    requires !Fails(d, TitleRequired) && !Fails(d, CompanyRequired) && !Fails(d, ProductRequired)
    requires !Fails(d, CategoryRequired) && !Fails(d, MachineRequired)
    ensures Acceptable(d)
  {
  }

  /** A failed check rules a drawing out. */
  lemma FailsNotAcceptable(d: DrawingInput, e: FieldError)
    requires Fails(d, e)
    ensures !Acceptable(d)
  {
    match e
    case NumberRequired =>
      if |d.drawingNumber| > 0 {
        assert IsWs(d.drawingNumber[0]) && !Sanitize.SafeChar(d.drawingNumber[0]);
      }
    case TimeRequired =>
      assert Numeral(SkipSign(TrimStart(d.estimatedTime))).1 == "";
    case DifficultyRequired =>
    case _ =>
  }

  /** A validated drawing number is left unchanged by the deleting sanitiser, and by the
      dashing one up to its 100-character cut. */
  lemma ValidNumberIsSafe(d: DrawingInput)
    requires ValidateDrawingData(d).valid
    ensures Sanitize.SanitizeDrawingNumberLoose(d.drawingNumber) == d.drawingNumber
    ensures |d.drawingNumber| <= Sanitize.MaxDrawingNumberLength ==>
              Sanitize.SanitizeDrawingNumberStrict(d.drawingNumber) == Success(d.drawingNumber)
  {
    ValidIffAcceptable(d);
    Sanitize.LooseFixesSafe(d.drawingNumber);
    if |d.drawingNumber| <= Sanitize.MaxDrawingNumberLength {
      Sanitize.SanitizersAgreeOnSafe(d.drawingNumber);
    }
  }

  /** `parseInt` reads leading digits: "12分" is a valid time. */
  lemma TimeWithUnit()
    ensures IsPositiveTime("12分")
  {
    var t := "12分";
    assert t == "12" + "分";
    assert TrimStart(t) == t by { assert !IsWs(t[0]); }
    assert SkipSign(t) == t;
    assert !HasHexPrefix(t);
    LeadingDigitsAppend("12", "分");
    assert DigitsValue("12") == DigitsValue("1") * 10 + 2;
  }

  /** A radix-less `parseInt` reads a `0x` prefix as hexadecimal: "0x10" is sixteen
      minutes. */
  lemma TimeHex()
    ensures IsPositiveTime("0x" + "10") && ParseInt("0x" + "10") == Some(16)
  {
    ParseIntHexSixteen();
  }

  /** Zero and text without leading digits are not valid times. */
  lemma TimeRejected()
    ensures !IsPositiveTime("0") && !IsPositiveTime("abc")
  {
    ParseIntDigits("0");
    ParseIntNoDigits("abc");
  }

  // ---------------------------------------------------------------------------
  // validateMultipleDrawingInputs
  // ---------------------------------------------------------------------------

  /** One entry of the batch error list: the joined errors of item `index` (1-based),
      or a drawing number repeated inside the request. */
  datatype BatchError = ItemInvalid(index: nat, errors: seq<FieldError>) | Duplicate(drawingNumber: string)

  function RenderBatchError(e: BatchError): string {
    match e
    case ItemInvalid(i, errs) => "図番 " + NatToString(i) + ": " + Join(ErrorMessages(Validation(false, errs)), ", ")
    case Duplicate(n) => "図番 " + n + " が重複しています"
  }

  /** The non-empty drawing numbers of a list. */
  function NumbersOf(ds: seq<DrawingInput>): set<string> {
    set i | 0 <= i < |ds| && ds[i].drawingNumber != "" :: ds[i].drawingNumber
  }

  /** The error of item `index` when it is invalid. */
  function ItemErrors(index: nat, d: DrawingInput): (r: seq<BatchError>)
    ensures |r| <= 1 && (r == [] <==> ValidateDrawingData(d).valid)
    ensures forall k :: 0 <= k < |r| ==> r[k] == ItemInvalid(index, ValidateDrawingData(d).errors)
  {
    var v := ValidateDrawingData(d);
    if v.valid then [] else [ItemInvalid(index, v.errors)]
  }

  /** The error of an item whose non-empty number an earlier item already has. */
  function DuplicateErrors(earlier: seq<DrawingInput>, d: DrawingInput): (r: seq<BatchError>)
    ensures |r| <= 1 && (r == [] <==> d.drawingNumber == "" || d.drawingNumber !in NumbersOf(earlier))
    ensures forall k :: 0 <= k < |r| ==> r[k] == Duplicate(d.drawingNumber)
  {
    if d.drawingNumber != "" && d.drawingNumber in NumbersOf(earlier) then [Duplicate(d.drawingNumber)] else []
  }

  /** `validateMultipleDrawingInputs`, item by item: the item's own errors, then a
      duplicate error when its number was seen earlier in the request. */
  function ValidateMultiple(ds: seq<DrawingInput>): (errs: seq<BatchError>)
    ensures forall k :: 0 <= k < |errs| && errs[k].ItemInvalid? ==> 1 <= errs[k].index <= |ds|
    ensures forall k :: 0 <= k < |errs| && errs[k].Duplicate? ==> errs[k].drawingNumber != ""
    decreases |ds|
  {
    if |ds| == 0 then []
    else
      var n := |ds| - 1;
      var before := ValidateMultiple(ds[..n]);
      var tail := ItemErrors(n + 1, ds[n]) + DuplicateErrors(ds[..n], ds[n]);
      assert forall k :: 0 <= k < |tail| && tail[k].ItemInvalid? ==> tail[k].index == n + 1;
      assert forall k :: 0 <= k < |tail| && tail[k].Duplicate? ==> tail[k].drawingNumber != "";
      before + tail
  }

  /** How often `x` is the drawing number of an item. */
  function Occurrences(ds: seq<DrawingInput>, x: string): (n: nat)
    ensures n <= |ds|
    decreases |ds|
  {
    if |ds| == 0 then 0
    else Occurrences(ds[..|ds| - 1], x) + (if ds[|ds| - 1].drawingNumber == x then 1 else 0)
  }

  function DuplicateErrorsFor(errs: seq<BatchError>, x: string): nat
    decreases |errs|
  {
    if |errs| == 0 then 0
    else DuplicateErrorsFor(errs[..|errs| - 1], x) + (if errs[|errs| - 1] == Duplicate(x) then 1 else 0)
  }

  lemma {:induction false} DuplicateErrorsAppend(a: seq<BatchError>, b: seq<BatchError>, x: string)
    ensures DuplicateErrorsFor(a + b, x) == DuplicateErrorsFor(a, x) + DuplicateErrorsFor(b, x)
    decreases |b|
  {
    if |b| == 0 {
      assert a + b == a;
    } else {
      assert (a + b)[..|a + b| - 1] == a + b[..|b| - 1];
      DuplicateErrorsAppend(a, b[..|b| - 1], x);
    }
  }

  lemma {:induction false} OccurrencesPositive(ds: seq<DrawingInput>, x: string)
    requires x != ""
    ensures Occurrences(ds, x) > 0 <==> x in NumbersOf(ds)
    decreases |ds|
  {
    if |ds| > 0 {
      var prev := ds[..|ds| - 1];
      OccurrencesPositive(prev, x);
      assert forall i :: 0 <= i < |prev| ==> prev[i] == ds[i];
      if x in NumbersOf(ds) && ds[|ds| - 1].drawingNumber != x {
        var i :| 0 <= i < |ds| && ds[i].drawingNumber != "" && ds[i].drawingNumber == x;
        assert i < |prev|;
        assert x in NumbersOf(prev);
      }
    }
  }

  lemma DuplicateErrorsSingle(e: BatchError, x: string)
    ensures DuplicateErrorsFor([e], x) == if e == Duplicate(x) then 1 else 0
  {
    assert [e][..0] == [];
  }

  /** A drawing number given k > 0 times in one request is reported k - 1 times. */
  lemma {:induction false} DuplicateCount(ds: seq<DrawingInput>, x: string)
    requires x != ""
    ensures Occurrences(ds, x) > 0 ==> DuplicateErrorsFor(ValidateMultiple(ds), x) == Occurrences(ds, x) - 1
    ensures Occurrences(ds, x) == 0 ==> DuplicateErrorsFor(ValidateMultiple(ds), x) == 0
    decreases |ds|
  {
    if |ds| > 0 {
      var n := |ds| - 1;
      var prev := ds[..n];
      var d := ds[n];
      DuplicateCount(prev, x);
      OccurrencesPositive(prev, x);
      var before := ValidateMultiple(prev);
      var item := ItemErrors(n + 1, d);
      var dup := DuplicateErrors(prev, d);
      assert ValidateMultiple(ds) == before + (item + dup);
      DuplicateErrorsAppend(before, item + dup, x);
      DuplicateErrorsAppend(item, dup, x);
      if |item| == 1 {
        assert item == [item[0]];
        DuplicateErrorsSingle(item[0], x);
      }
      if |dup| == 1 {
        assert dup == [dup[0]];
        DuplicateErrorsSingle(dup[0], x);
      }
    }
  }

  /** Every item passes validation. */
  predicate AllItemsValid(ds: seq<DrawingInput>) {
    All(d => ValidateDrawingData(d).valid, ds)
  }

  /** No item repeats the non-empty number of an earlier one. */
  predicate NumbersDistinct(ds: seq<DrawingInput>)
    decreases |ds|
  {
    |ds| == 0
    || (var prev := ds[..|ds| - 1];
        var x := ds[|ds| - 1].drawingNumber;
        NumbersDistinct(prev) && (x == "" || x !in NumbersOf(prev)))
  }

  lemma {:induction false} NumbersDistinctIff(ds: seq<DrawingInput>)
    ensures NumbersDistinct(ds) <==>
      forall i, j :: 0 <= i < j < |ds| && ds[i].drawingNumber != "" ==> ds[i].drawingNumber != ds[j].drawingNumber
    decreases |ds|
  {
    if |ds| > 0 {
      var n := |ds| - 1;
      var prev := ds[..n];
      var x := ds[n].drawingNumber;
      NumbersDistinctIff(prev);
      assert forall i :: 0 <= i < |prev| ==> prev[i] == ds[i];
      if x != "" && x in NumbersOf(prev) {
        var i :| 0 <= i < |prev| && prev[i].drawingNumber != "" && prev[i].drawingNumber == x;
        assert ds[i].drawingNumber == ds[n].drawingNumber;
      }
      if NumbersDistinct(ds) {
        forall i, j | 0 <= i < j < |ds| && ds[i].drawingNumber != ""
          ensures ds[i].drawingNumber != ds[j].drawingNumber
        {
          if j == n {
            assert ds[i].drawingNumber in NumbersOf(prev);
          }
        }
      }
    }
  }

  lemma {:induction false} ValidateMultipleEmpty(ds: seq<DrawingInput>)
    ensures ValidateMultiple(ds) == [] <==> AllItemsValid(ds) && NumbersDistinct(ds)
    decreases |ds|
  {
    if |ds| > 0 {
      var n := |ds| - 1;
      var prev := ds[..n];
      var d := ds[n];
      ValidateMultipleEmpty(prev);
      var item := ItemErrors(n + 1, d);
      var dup := DuplicateErrors(prev, d);
      assert ValidateMultiple(ds) == ValidateMultiple(prev) + (item + dup);
    }
  }

  /** The request is valid exactly when every item is valid and no non-empty drawing
      number is repeated. */
  lemma ValidateMultipleIff(ds: seq<DrawingInput>)
    ensures ValidateMultiple(ds) == [] <==>
      (forall i :: 0 <= i < |ds| ==> ValidateDrawingData(ds[i]).valid)
      && (forall i, j :: 0 <= i < j < |ds| && ds[i].drawingNumber != "" ==> ds[i].drawingNumber != ds[j].drawingNumber)
  {
    ValidateMultipleEmpty(ds);
    AllIff(d => ValidateDrawingData(d).valid, ds);
    NumbersDistinctIff(ds);
  }

  // ---------------------------------------------------------------------------
  // POST
  // ---------------------------------------------------------------------------

  /** The `drawings` form field: missing, not JSON, a single object or an array. */
  datatype RawDrawings = Missing | Malformed | One(item: DrawingInput) | Many(items: seq<DrawingInput>)

  datatype PostResponse =
    | Unauthorized
    | MissingData
    | MalformedData
    | Invalid(details: seq<BatchError>)
    | AlreadyExists(duplicates: set<string>)
    | DataError
    | Registered(success: bool, total: nat, successful: nat, failed: nat)

  function StatusOf(r: PostResponse): int {
    match r
    case Unauthorized => 401
    case MissingData => 400
    case MalformedData => 400
    case Invalid(_) => 400
    case AlreadyExists(_) => 409
    case DataError => 500
    case Registered(success, _, _, _) => if success then 201 else 207
  }

  /** The items of the request; a single object is treated as a one-item array. */
  function Items(raw: RawDrawings): seq<DrawingInput>
    requires raw.One? || raw.Many?
  {
    if raw.One? then [raw.item] else raw.items
  }

  /** Whether one drawing was processed successfully. */
  predicate Succeeded(outcome: bool) { outcome }

  /** The drawings whose folder already exists. The source collects them concurrently,
      so their order is not modelled. */
  /** `checkDrawingNumberExists`: the number sanitises to a folder that exists. */
  predicate HasFolder(x: string, existingFolders: set<string>) {
    Sanitize.SanitizeDrawingNumberStrict(x).Success? && Sanitize.SanitizeDrawingNumberStrict(x).value in existingFolders
  }

  function ExistingNumbers(ds: seq<DrawingInput>, existingFolders: set<string>): (r: set<string>)
    ensures forall x :: x in r ==> exists i :: 0 <= i < |ds| && ds[i].drawingNumber == x
    ensures forall x :: x in r ==> HasFolder(x, existingFolders)
    ensures forall i :: 0 <= i < |ds| && HasFolder(ds[i].drawingNumber, existingFolders) ==> ds[i].drawingNumber in r
  {
    set i, x | 0 <= i < |ds| && x == ds[i].drawingNumber && HasFolder(x, existingFolders) :: x
  }

  /** `POST`: `authorized` is the outcome of `checkAdminAuth`, `existingFolders` the
      sanitised numbers that already have a folder, `dataOk` the outcome of
      `createMultipleDrawings`, and `outcomes` whether creating the folders, uploads
      and instruction of each processed drawing succeeded. */
  function PostDrawings(authorized: bool, raw: RawDrawings, existingFolders: set<string>,
                        dataOk: bool, outcomes: seq<bool>): (r: PostResponse)
    ensures r.Registered? <==>
              authorized && (raw.One? || raw.Many?) && ValidateMultiple(Items(raw)) == []
              && ExistingNumbers(Items(raw), existingFolders) == {} && dataOk
    ensures r.Registered? ==> (raw.One? || raw.Many?) && r.total == |Items(raw)| && r.successful + r.failed == |outcomes|
    ensures r.Registered? ==> r.successful == CountIf(Succeeded, outcomes)
    ensures r.Registered? ==> (r.success <==> r.failed == 0)
    ensures r.Registered? ==> (r.success <==> forall i :: 0 <= i < |outcomes| ==> outcomes[i])
    ensures r.AlreadyExists? ==> r.duplicates != {}
  {
    if !authorized then Unauthorized
    else match raw
      case Missing => MissingData
      case Malformed => MalformedData
      case _ =>
        var ds := Items(raw);
        var errs := ValidateMultiple(ds);
        if errs != [] then Invalid(errs)
        else
          var dups := ExistingNumbers(ds, existingFolders);
          if dups != {} then AlreadyExists(dups)
          else if !dataOk then DataError
          else
            var ok := CountIf(Succeeded, outcomes);
            CountIfAll(Succeeded, outcomes);
            Registered(ok == |outcomes|, |ds|, ok, |outcomes| - ok)
  }

  /** A registration answers 201 exactly when every step passed and every drawing was
      processed successfully; when only some drawings failed it answers 207. */
  lemma PostCreatedIff(authorized: bool, raw: RawDrawings, existingFolders: set<string>,
                       dataOk: bool, outcomes: seq<bool>)
    ensures var r := PostDrawings(authorized, raw, existingFolders, dataOk, outcomes);
            StatusOf(r) == 201 <==> r.Registered? && forall i :: 0 <= i < |outcomes| ==> outcomes[i]
    ensures var r := PostDrawings(authorized, raw, existingFolders, dataOk, outcomes);
            StatusOf(r) == 207 <==> r.Registered? && exists i :: 0 <= i < |outcomes| && !outcomes[i]
  {
    StatusOfRegistered(PostDrawings(authorized, raw, existingFolders, dataOk, outcomes));
  }

  /** Only a registration answers 201 or 207, according to its `success` flag. */
  lemma StatusOfRegistered(r: PostResponse)
    ensures StatusOf(r) == 201 <==> r.Registered? && r.success
    ensures StatusOf(r) == 207 <==> r.Registered? && !r.success
  {
  }

  // ---------------------------------------------------------------------------
  // GET
  // ---------------------------------------------------------------------------

  /** `searchParams.get(name) || fallback`: an absent or empty parameter is the fallback. */
  function ParamOr(param: string, fallback: string): string {
    if param == "" then fallback else param
  }

  /** The case-insensitive text filter of the listing. */
  predicate MatchesSearch(d: DrawingItem, search: string) {
    var q := Lower(search);
    Contains(Lower(d.drawingNumber), q) || Contains(Lower(d.title), q)
    || Contains(Lower(d.productName), q) || Contains(Lower(d.companyName), q)
  }

  function SearchFilter(search: string): DrawingItem -> bool {
    d => MatchesSearch(d, search)
  }

  /** `drawings.filter(...)` when a search term is given, all drawings otherwise. */
  function Matching(all: seq<DrawingItem>, search: string): (r: seq<DrawingItem>)
    ensures search == "" ==> r == all
    ensures IsSubseq(r, all)
    ensures forall i :: 0 <= i < |r| ==> MatchesSearch(r[i], search)
    ensures forall i :: 0 <= i < |all| && MatchesSearch(all[i], search) ==> all[i] in r
    ensures |r| == CountIf(SearchFilter(search), all)
  {
    if search != "" then
      FilterIsSubseq(SearchFilter(search), all);
      FilterLength(SearchFilter(search), all);
      Filter(SearchFilter(search), all)
    else
      forall i | 0 <= i < |all| ensures MatchesSearch(all[i], search) {
        ContainsEmpty(Lower(all[i].drawingNumber));
      }
      SubseqRefl(all);
      CountIfAll(SearchFilter(search), all);
      all
  }

  /** `Math.ceil(a / b)` for a non-zero divisor. */
  function CeilDiv(a: nat, b: int): (r: int)
    requires b != 0
    ensures b > 0 ==> r >= 0 && (r - 1) * b < a <= r * b
  {
    if b > 0 then (a + b - 1) / b else -(a / -b)
  }

  /** `(page - 1) * limit`. */
  function Offset(page: int, limit: int): (o: int)
    ensures page >= 1 && limit >= 0 ==> o >= 0
  {
    if page >= 1 && limit >= 0 then MulNonneg(page - 1, limit); (page - 1) * limit
    else (page - 1) * limit
  }

  /** `drawings.slice(offset, offset + limit)` with `offset = (page - 1) * limit`; a
      NaN page or limit makes both bounds NaN, which `slice` reads as 0. */
  function PageOf(filtered: seq<DrawingItem>, page: Option<int>, limit: Option<int>): (r: seq<DrawingItem>)
    ensures |r| <= |filtered|
    ensures limit.Some? && limit.value > 0 ==> |r| <= limit.value
    ensures forall i :: 0 <= i < |r| ==> r[i] in filtered
    ensures page.None? || limit.None? ==> r == []
  {
    if page.Some? && limit.Some? then
      var offset := Offset(page.value, limit.value);
      var r := Slice(filtered, offset, offset + limit.value);
      assert forall i :: 0 <= i < |r| ==> r[i] in filtered;
      r
    else []
  }

  /** A page of the listing; `page`, `limit` and `totalPages` are `None` where the
      source computes NaN or an infinite value. */
  datatype ListPage = ListPage(drawings: seq<DrawingItem>, page: Option<int>, limit: Option<int>,
                               total: nat, totalPages: Option<int>)

  /** `GET`: `None` is the 401 answer to an unauthenticated request. */
  function ListDrawings(authorized: bool, pageParam: string, limitParam: string, search: string,
                        all: seq<DrawingItem>): (r: Option<ListPage>)
    ensures r.Some? <==> authorized
    ensures r.Some? ==> r.value.total == |Matching(all, search)| <= |all|
    ensures r.Some? ==> forall i :: 0 <= i < |r.value.drawings| ==>
              r.value.drawings[i] in all && MatchesSearch(r.value.drawings[i], search)
    ensures r.Some? && r.value.limit.Some? && r.value.limit.value > 0 ==>
              |r.value.drawings| <= r.value.limit.value && r.value.totalPages.Some?
    ensures r.Some? && (r.value.page.None? || r.value.limit.None?) ==> r.value.drawings == []
  {
    if !authorized then None
    else
      var page := ParseInt(ParamOr(pageParam, "1"));
      var limit := ParseInt(ParamOr(limitParam, "20"));
      var filtered := Matching(all, search);
      SubseqElements(filtered, all);
      var totalPages := if limit.Some? && limit.value != 0 then Some(CeilDiv(|filtered|, limit.value)) else None;
      Some(ListPage(PageOf(filtered, page, limit), page, limit, |filtered|, totalPages))
  }

  lemma MulNonneg(a: int, b: int)
    requires a >= 0 && b >= 0
    ensures a * b >= 0
  {
  }

  /** For a positive page and limit, the listing is the page-th block of `limit`
      matching drawings, and `totalPages` blocks cover all matches. */
  lemma ListDrawingsPage(pageParam: string, limitParam: string, search: string,
                         all: seq<DrawingItem>, page: int, limit: int)
    requires ParseInt(ParamOr(pageParam, "1")) == Some(page) && page >= 1
    requires ParseInt(ParamOr(limitParam, "20")) == Some(limit) && limit >= 1
    ensures var r := ListDrawings(true, pageParam, limitParam, search, all).value;
            var filtered := Matching(all, search);
            var offset := Offset(page, limit);
            && r.drawings == filtered[(if offset <= |filtered| then offset else |filtered|)
                                      ..(if offset + limit <= |filtered| then offset + limit else |filtered|)]
            && r.totalPages == Some(CeilDiv(|filtered|, limit))
            && (r.total > 0 ==> PagesCover(r.totalPages.value, limit, r.total))
  {
    var filtered := Matching(all, search);
    ListDrawingsFields(pageParam, limitParam, search, all, page, limit);
    PageOfPositive(filtered, page, limit);
    CeilDivCovers(|filtered|, limit);
  }

  /** `pages` blocks of `limit` items hold `total` items, and one block fewer does
      not. */
  predicate PagesCover(pages: int, limit: int, total: int) {
    (pages - 1) * limit < total <= pages * limit
  }

  lemma CeilDivCovers(total: nat, limit: int)
    requires limit >= 1
    ensures PagesCover(CeilDiv(total, limit), limit, total)
  {
  }

  /** The listing's page and page count, in terms of the parsed parameters. */
  lemma ListDrawingsFields(pageParam: string, limitParam: string, search: string,
                           all: seq<DrawingItem>, page: int, limit: int)
    requires ParseInt(ParamOr(pageParam, "1")) == Some(page)
    requires ParseInt(ParamOr(limitParam, "20")) == Some(limit) && limit >= 1
    ensures ListDrawings(true, pageParam, limitParam, search, all).value.drawings ==
            PageOf(Matching(all, search), Some(page), Some(limit))
    ensures ListDrawings(true, pageParam, limitParam, search, all).value.totalPages ==
            Some(CeilDiv(|Matching(all, search)|, limit))
    ensures ListDrawings(true, pageParam, limitParam, search, all).value.total == |Matching(all, search)|
  {
  }

  /** For a positive page and limit, `PageOf` is the clamped slice at the offset. */
  lemma PageOfPositive(filtered: seq<DrawingItem>, page: int, limit: int)
    requires page >= 1 && limit >= 1
    ensures var offset := Offset(page, limit);
            PageOf(filtered, Some(page), Some(limit)) ==
            filtered[(if offset <= |filtered| then offset else |filtered|)
                     ..(if offset + limit <= |filtered| then offset + limit else |filtered|)]
  {
    var offset := Offset(page, limit);
    assert PageOf(filtered, Some(page), Some(limit)) == Slice(filtered, offset, offset + limit);
  }

  /** Absent parameters give page 1 with 20 items. */
  lemma ListDrawingsDefaults()
    ensures ParseInt(ParamOr("", "1")) == Some(1) && ParseInt(ParamOr("", "20")) == Some(20)
  {
    OneText();
    TwentyText();
    ParseIntOfNatToString(1);
    ParseIntOfNatToString(20);
  }

  lemma OneText()
    ensures NatToString(1) == "1"
  {
  }

  lemma TwentyText()
    ensures NatToString(20) == "20"
  {
    assert NatToString(2) == "2";
    assert DigitChar(0) == '0';
  }
}
