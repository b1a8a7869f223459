/** The interface texts in Japanese, English and Vietnamese and the translation
    function of the language context (src/hooks/useTranslation.tsx). Each table is
    the lookup `translations[language][key]`; a lookup that finds no text, or an
    empty one, gives back the key itself. */
module Translation {
  import opened Wrappers

  datatype Language = Ja | En | Vi

  /** The keys of the three tables, which list the same keys in the same order. */
  const TextKeys: seq<string> := [
    "title",
    "searchPlaceholder",
    "selectCompany",
    "selectProduct",
    "selectDrawing",
    "searchResults",
    "noResults",
    "exactMatch",
    "partialMatch",
    "recentSearches",
    "clearSearch",
    "workInstruction",
    "overview",
    "estimatedTime",
    "difficulty",
    "machineType",
    "toolsRequired",
    "workSteps",
    "step",
    "cuttingConditions",
    "qualityCheck",
    "relatedDrawings",
    "troubleshooting",
    "revisionHistory",
    "backToSearch",
    "backToCompanies",
    "backToProducts",
    "breadcrumbHome",
    "beginner",
    "intermediate",
    "advanced",
    "normal",
    "caution",
    "important",
    "critical",
    "totalDrawings",
    "totalCompanies",
    "lastUpdated",
    "loading",
    "error",
    "retry",
    "preparationTime",
    "processingTime",
    "timeRequired",
    "warnings",
    "notes",
    "tool",
    "spindleSpeed",
    "feedRate",
    "depthOfCut",
    "stepOver",
    "coolant",
    "checkPoints",
    "tolerance",
    "surfaceRoughness",
    "inspectionTools",
    "relation",
    "problem",
    "cause",
    "solution",
    "version",
    "author",
    "changes",
    "createdDate",
    "updatedDate",
    "media"]

  /** The Japanese texts, key by key. */
  const JaTexts: seq<string> := [
    "案件記録データベース",
    "図番を入力してください（例: ABC-001）",
    "会社を選択してください",
    "部品を選択してください",
    "図番を選択してください",
    "検索結果",
    "該当する図番が見つかりません",
    "完全一致",
    "部分一致",
    "最近の検索",
    "検索をクリア",
    "作業手順",
    "概要",
    "所要時間",
    "難易度",
    "使用機械",
    "必要工具",
    "作業ステップ",
    "ステップ",
    "切削条件",
    "品質確認",
    "関連図番",
    "トラブルシューティング",
    "改訂履歴",
    "検索に戻る",
    "会社選択に戻る",
    "部品選択に戻る",
    "ホーム",
    "初級",
    "中級",
    "上級",
    "通常",
    "注意",
    "重要",
    "緊急",
    "総図番数",
    "総会社数",
    "最終更新",
    "読み込み中...",
    "エラーが発生しました",
    "再試行",
    "準備時間",
    "加工時間",
    "所要時間",
    "注意事項",
    "備考",
    "工具",
    "主軸回転数",
    "送り速度",
    "切込み深さ",
    "送りピッチ",
    "切削油",
    "確認項目",
    "公差",
    "表面粗さ",
    "検査工具",
    "関連",
    "問題",
    "原因",
    "解決策",
    "バージョン",
    "作成者",
    "変更内容",
    "作成日",
    "更新日",
    "メディア"]

  /** The English texts, key by key. */
  const EnTexts: seq<string> := [
    "Project Record Database",
    "Enter drawing number (e.g. ABC-001)",
    "Select Company",
    "Select Product",
    "Select Drawing",
    "Search Results",
    "No matching drawings found",
    "Exact Match",
    "Partial Match",
    "Recent Searches",
    "Clear Search",
    "Work Instruction",
    "Overview",
    "Estimated Time",
    "Difficulty",
    "Machine Type",
    "Required Tools",
    "Work Steps",
    "Step",
    "Cutting Conditions",
    "Quality Check",
    "Related Drawings",
    "Troubleshooting",
    "Revision History",
    "Back to Search",
    "Back to Companies",
    "Back to Products",
    "Home",
    "Beginner",
    "Intermediate",
    "Advanced",
    "Normal",
    "Caution",
    "Important",
    "Critical",
    "Total Drawings",
    "Total Companies",
    "Last Updated",
    "Loading...",
    "An error occurred",
    "Retry",
    "Preparation Time",
    "Processing Time",
    "Time Required",
    "Warnings",
    "Notes",
    "Tool",
    "Spindle Speed",
    "Feed Rate",
    "Depth of Cut",
    "Step Over",
    "Coolant",
    "Check Points",
    "Tolerance",
    "Surface Roughness",
    "Inspection Tools",
    "Relation",
    "Problem",
    "Cause",
    "Solution",
    "Version",
    "Author",
    "Changes",
    "Created Date",
    "Updated Date",
    "Media"]

  /** The Vietnamese texts, key by key. */
  const ViTexts: seq<string> := [
    "Cơ sở dữ liệu Hồ sơ Dự án",
    "Nhập số bản vẽ (ví dụ: ABC-001)",
    "Chọn Công ty",
    "Chọn Sản phẩm",
    "Chọn Bản vẽ",
    "Kết quả Tìm kiếm",
    "Không tìm thấy bản vẽ phù hợp",
    "Khớp chính xác",
    "Khớp một phần",
    "Tìm kiếm Gần đây",
    "Xóa Tìm kiếm",
    "Hướng dẫn Công việc",
    "Tổng quan",
    "Thời gian Ước tính",
    "Độ khó",
    "Loại Máy",
    "Công cụ Cần thiết",
    "Các bước Công việc",
    "Bước",
    "Điều kiện Cắt",
    "Kiểm tra Chất lượng",
    "Bản vẽ Liên quan",
    "Xử lý Sự cố",
    "Lịch sử Sửa đổi",
    "Quay lại Tìm kiếm",
    "Quay lại Công ty",
    "Quay lại Sản phẩm",
    "Trang chủ",
    "Người mới bắt đầu",
    "Trung cấp",
    "Nâng cao",
    "Bình thường",
    "Cẩn thận",
    "Quan trọng",
    "Khẩn cấp",
    "Tổng số Bản vẽ",
    "Tổng số Công ty",
    "Cập nhật Cuối",
    "Đang tải...",
    "Đã xảy ra lỗi",
    "Thử lại",
    "Thời gian Chuẩn bị",
    "Thời gian Gia công",
    "Thời gian Cần thiết",
    "Cảnh báo",
    "Ghi chú",
    "Công cụ",
    "Tốc độ Trục chính",
    "Tốc độ Tiến dao",
    "Độ sâu Cắt",
    "Bước Tiến dao",
    "Dầu cắt",
    "Điểm Kiểm tra",
    "Dung sai",
    "Độ nhám Bề mặt",
    "Công cụ Kiểm tra",
    "Quan hệ",
    "Vấn đề",
    "Nguyên nhân",
    "Giải pháp",
    "Phiên bản",
    "Tác giả",
    "Thay đổi",
    "Ngày Tạo",
    "Ngày Cập nhật",
    "Media"]

  /** The position of a key in the key list. */
  function KeyIndex(key: string): (r: Option<nat>)
    ensures r.Some? ==> r.value < |TextKeys| && TextKeys[r.value] == key
    ensures r.None? <==> key !in TextKeys
  {
    IndexIn(TextKeys, key)
  }

  function IndexIn(keys: seq<string>, key: string): (r: Option<nat>)
    ensures r.Some? ==> r.value < |keys| && keys[r.value] == key
    ensures r.None? <==> key !in keys
    decreases |keys|
  {
    if |keys| == 0 then None
    else if keys[0] == key then Some(0)
    else
      var rest := IndexIn(keys[1..], key);
      if rest.Some? then Some(rest.value + 1) else None
  }

  /** One language's table: the text at the key's position. */
  function TableText(texts: seq<string>, key: string): (r: Option<string>)
    requires |texts| == |TextKeys|
    ensures r.Some? <==> key in TextKeys
  {
    match KeyIndex(key)
    case Some(i) => Some(texts[i])
    case None => None
  }

  function JaText(key: string): Option<string> {
    TableText(JaTexts, key)
  }

  function EnText(key: string): Option<string> {
    TableText(EnTexts, key)
  }

  function ViText(key: string): Option<string> {
    TableText(ViTexts, key)
  }

  /** `translations[language][key]`. */
  function Text(lang: Language, key: string): Option<string> {
    match lang
    case Ja => JaText(key)
    case En => EnText(key)
    case Vi => ViText(key)
  }

  /** `t(key)`: the text of the current language when there is a non-empty one,
      otherwise the key. */
  function Translate(lang: Language, key: string): (r: string)
    ensures Text(lang, key).None? ==> r == key
    ensures Text(lang, key).Some? && Text(lang, key).value != "" ==> r == Text(lang, key).value
  {
    var found := Text(lang, key);
    if found.Some? && found.value != "" then found.value else key
  }

  /** A key has a text in one language exactly when it has one in every language. */
  lemma TranslatedEverywhere(key: string, lang: Language)
    ensures Text(Ja, key).Some? <==> Text(lang, key).Some?
  {
  }

  /** A non-empty key never translates to the empty string, so `t(key) || fallback`
      never reaches the fallback. */
  lemma TranslateNonEmpty(lang: Language, key: string)
    requires key != ""
    ensures Translate(lang, key) != ""
  {
  }

  // ---------------------------------------------------------------------------
  // The language context
  // ---------------------------------------------------------------------------

  /** The value of `TranslationContext`: the current language. */
  datatype Context = Context(language: Language)

  /** A provider starts in Japanese. */
  const InitialContext: Context := Context(Ja)

  function SetLanguage(ctx: Context, lang: Language): (r: Context)
    ensures r.language == lang
  {
    ctx.(language := lang)
  }

  const OutsideProviderMessage: string := "useTranslation must be used within a TranslationProvider"

  /** `useTranslation`: the context of the enclosing provider, or the error it throws
      without one. */
  function UseTranslation(provider: Option<Context>): (r: Result<Context, string>)
    ensures provider.None? <==> r.Failure?
    ensures r.Failure? ==> r.error == OutsideProviderMessage
    ensures r.Success? ==> r.value == provider.value
  {
    if provider.None? then Failure(OutsideProviderMessage) else Success(provider.value)
  }

  /** After switching the language, `t` shows that language's text of a key, or the
      key itself when the language has no text for it. */
  lemma SetLanguageTranslates(ctx: Context, lang: Language, key: string)
    ensures Text(lang, key).Some? && Text(lang, key).value != "" ==>
              Translate(SetLanguage(ctx, lang).language, key) == Text(lang, key).value
    ensures Text(lang, key).None? ==> Translate(SetLanguage(ctx, lang).language, key) == key
  {
  }
}
