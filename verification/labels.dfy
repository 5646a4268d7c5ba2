/** The display texts of the calculator's codes, of request statuses and of the calculator
    columns. The same tables and "-" fallbacks are repeated in the calculator, the admin
    request view and the notification e-mail; each is defined once here. */
module Labels {
  import opened Wrappers
  import opened Types
  import opened Text

  const WindowTypeNames: map<string, string> := map[
    "standard" := "Стандартное",
    "casement" := "Створчатое",
    "sliding" := "Раздвижное",
    "awning" := "Откидное",
    "bay-window" := "Эркерное",
    "picture-window" := "Панорамное"]

  const MaterialNames: map<string, string> := map[
    "vinyl" := "ПВХ (Винил)",
    "aluminum" := "Алюминий",
    "wooden" := "Дерево",
    "fiberglass" := "Стекловолокно",
    "composite" := "Композитный материал"]

  const GlazingNames: map<string, string> := map[
    "single" := "Одинарное",
    "double" := "Двойное",
    "triple" := "Тройное",
    "low-e" := "Энергосберегающее"]

  const FeatureNames: map<string, string> := map[
    "uv-protection" := "UV-защита",
    "soundproof" := "Шумоизоляция",
    "security-glass" := "Ударопрочное стекло",
    "tinted" := "Тонировка"]

  /** No table has the empty code, and none maps a code to the empty string. */
  predicate NamesNonEmpty(names: map<string, string>)
  {
    "" !in names && forall k :: k in names ==> names[k] != ""
  }

  /** `names[code] || code`: the name of a known code, otherwise the code itself. */
  function LabelOr(names: map<string, string>, code: string): (shown: string)
    requires NamesNonEmpty(names)
    ensures code in names ==> shown == names[code]
    ensures code !in names ==> shown == code
    ensures shown == "" <==> code == ""
  {
    if code in names then names[code] else code
  }

  function WindowTypeLabel(code: string): (shown: string)
    ensures code in WindowTypeNames ==> shown == WindowTypeNames[code]
    ensures code !in WindowTypeNames ==> shown == code
    ensures shown == "" <==> code == ""
  {
    LabelOr(WindowTypeNames, code)
  }

  /** The material chain of `===` tests, equivalent to a lookup with pass-through. */
  function MaterialLabel(code: string): (shown: string)
    ensures code in MaterialNames ==> shown == MaterialNames[code]
    ensures code !in MaterialNames ==> shown == code
    ensures shown == "" <==> code == ""
  {
    LabelOr(MaterialNames, code)
  }

  function GlazingLabel(code: string): (shown: string)
    ensures code in GlazingNames ==> shown == GlazingNames[code]
    ensures code !in GlazingNames ==> shown == code
    ensures shown == "" <==> code == ""
  {
    LabelOr(GlazingNames, code)
  }

  function FeatureLabel(code: string): (shown: string)
    ensures code in FeatureNames ==> shown == FeatureNames[code]
    ensures code !in FeatureNames ==> shown == code
    ensures shown == "" <==> code == ""
  {
    LabelOr(FeatureNames, code)
  }

  /** The features line: each code's name, in the stored order, joined with ", ". */
  function FeatureList(codes: seq<string>): (s: string)
    ensures codes == [] ==> s == ""
    ensures |codes| == 1 ==> s == FeatureLabel(codes[0])
  {
    Join(seq(|codes|, i requires 0 <= i < |codes| => FeatureLabel(codes[i])), ", ")
  }

  /** One more stored code adds ", " and its name at the end of the line. */
  lemma FeatureListSnoc(codes: seq<string>, code: string)
    requires codes != []
    ensures FeatureList(codes + [code]) == FeatureList(codes) + ", " + FeatureLabel(code)
  {
    var names := seq(|codes|, i requires 0 <= i < |codes| => FeatureLabel(codes[i]));
    var more := codes + [code];
    var longer := seq(|more|, i requires 0 <= i < |more| => FeatureLabel(more[i]));
    assert longer == names + [FeatureLabel(code)];
    JoinSnoc(names, FeatureLabel(code), ", ");
  }

  /** The window types the calculator offers and what they show. */
  lemma WindowTypeTable()
    ensures WindowTypeLabel("standard") == "Стандартное" && WindowTypeLabel("casement") == "Створчатое"
    ensures WindowTypeLabel("sliding") == "Раздвижное" && WindowTypeLabel("awning") == "Откидное"
    ensures WindowTypeLabel("bay-window") == "Эркерное"
    ensures WindowTypeLabel("picture-window") == "Панорамное"
  {
  }

  /** The materials and what they show; anything else is shown as typed. */
  lemma MaterialTable()
    ensures MaterialLabel("vinyl") == "ПВХ (Винил)" && MaterialLabel("aluminum") == "Алюминий"
    ensures MaterialLabel("wooden") == "Дерево" && MaterialLabel("fiberglass") == "Стекловолокно"
    ensures MaterialLabel("composite") == "Композитный материал"
    ensures MaterialLabel("unknown-code") == "unknown-code"
  {
  }

  /** The glazing types and what they show. */
  lemma GlazingTable()
    ensures GlazingLabel("single") == "Одинарное" && GlazingLabel("double") == "Двойное"
    ensures GlazingLabel("triple") == "Тройное" && GlazingLabel("low-e") == "Энергосберегающее"
  {
  }

  /** The additional features and what they show. */
  lemma FeatureTable()
    ensures FeatureLabel("uv-protection") == "UV-защита" && FeatureLabel("soundproof") == "Шумоизоляция"
    ensures FeatureLabel("security-glass") == "Ударопрочное стекло" && FeatureLabel("tinted") == "Тонировка"
  {
  }

  /** The status text of the export and the email: three known statuses, and every other
      value reads as rejected. */
  function StatusLabel(status: string): (shown: string)
    ensures status == "new" ==> shown == "Новая"
    ensures status == "processing" ==> shown == "В обработке"
    ensures status == "completed" ==> shown == "Завершена"
    ensures status != "new" && status != "processing" && status != "completed" ==> shown == "Отклонена"
  {
    if status == "new" then "Новая"
    else if status == "processing" then "В обработке"
    else if status == "completed" then "Завершена"
    else "Отклонена"
  }

  /** The status badge of the admin list: the four statuses, and "Неизвестно" for any other. */
  function StatusBadgeLabel(status: string): (shown: string)
    ensures status == "new" ==> shown == "Новая"
    ensures status == "processing" ==> shown == "В обработке"
    ensures status == "completed" ==> shown == "Завершена"
    ensures status == "rejected" ==> shown == "Отклонена"
    ensures !IsStatus(status) ==> shown == "Неизвестно"
  {
    match status
    case "new" => "Новая"
    case "processing" => "В обработке"
    case "completed" => "Завершена"
    case "rejected" => "Отклонена"
    case _ => "Неизвестно"
  }

  /** The badge and the export agree exactly on the four statuses of the request type. */
  lemma BadgeAgreesWithExport(status: string)
    ensures StatusBadgeLabel(status) == StatusLabel(status) <==>
      status == "new" || status == "processing" || status == "completed" || status == "rejected"
    ensures StatusBadgeLabel(status) != StatusLabel(status) ==>
      StatusBadgeLabel(status) == "Неизвестно" && StatusLabel(status) == "Отклонена"
  {
  }

  /** `value || "-"` on a string. */
  function OrDash(s: string): (shown: string)
    ensures s != "" ==> shown == s
    ensures s == "" ==> shown == "-"
    ensures shown != ""
  {
    if s == "" then "-" else s
  }

  /** The selected product column: its name, or "-" when there is none or it is empty. */
  function ProductText(selected: Option<ProductRef>): (shown: string)
    ensures shown != ""
    ensures selected.Some? && selected.value.name != "" ==> shown == selected.value.name
    ensures selected.None? || selected.value.name == "" ==> shown == "-"
  {
    if selected.Some? then OrDash(selected.value.name) else "-"
  }

  /** The area column: the stored area text with its unit, or "-" when it is empty. */
  function AreaLine(area: string): (shown: string)
    ensures area == "" ==> shown == "-"
    ensures area != "" ==> shown == area + " м²"
  {
    if area != "" then area + " м²" else "-"
  }

  /** The features column: the joined names, or "-" for no features. */
  function FeaturesText(codes: seq<string>): (shown: string)
    ensures codes == [] ==> shown == "-"
    ensures codes != [] ==> shown == FeatureList(codes)
  {
    if |codes| > 0 then FeatureList(codes) else "-"
  }

  /** The quantity column: "N шт.", or "-" for a zero quantity. */
  function QuantityText(q: int): (shown: string)
    ensures q == 0 ==> shown == "-"
    ensures q != 0 ==> shown == IntToString(q) + " шт."
  {
    if q != 0 then IntToString(q) + " шт." else "-"
  }
}
