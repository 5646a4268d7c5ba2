/** The notification e-mail sent when a request document is created (functions/src/index.ts).
    The body is modelled as its sequence of HTML elements; the template's indentation and the
    locale rendering of the date (given here as `dateText`) are not modelled. */
module NotificationEmail {
  import opened Wrappers
  import opened Types
  import opened Text
  import opened Labels
  import opened RequestApi
  import RequestManagement

  const SubjectPrefix := "Новая заявка #"
  const SubjectMiddle := " от "

  /** The subject line: the document id, then the client's name. */
  function Subject(docId: string, name: string): (s: string)
    ensures |s| == |SubjectPrefix| + |docId| + |SubjectMiddle| + |name|
    ensures s[..|SubjectPrefix|] == SubjectPrefix
    ensures s[|SubjectPrefix|..|SubjectPrefix| + |docId|] == docId
    ensures s[|SubjectPrefix| + |docId|..|SubjectPrefix| + |docId| + |SubjectMiddle|] == SubjectMiddle
    ensures s[|s| - |name|..] == name
  {
    SubjectPrefix + docId + SubjectMiddle + name
  }

  /** One `<p><strong>caption:</strong> value</p>` line. */
  function Para(caption: string, value: string): string
  {
    "<p><strong>" + caption + ":</strong> " + value + "</p>"
  }

  const NoCalculatorData := "<p>Данные калькулятора отсутствуют</p>"

  /** How the e-mail shows a code, `code ? (names[code] || code) : "-"`: "-" for no code, the
      name of a known code, and any other code as it is. */
  lemma CodeShown(names: map<string, string>, code: string)
    requires NamesNonEmpty(names)
    ensures code == "" ==> OrDash(LabelOr(names, code)) == "-"
    ensures code != "" && code in names ==> OrDash(LabelOr(names, code)) == names[code]
    ensures code != "" && code !in names ==> OrDash(LabelOr(names, code)) == code
  {
  }

  /** The size line: both sizes must be non-zero. */
  function SizeText(c: QuoteConfig): (shown: string)
    ensures c.width == 0 || c.height == 0 ==> shown == "-"
    ensures c.width != 0 && c.height != 0 ==>
      shown == IntToString(c.width) + " × " + IntToString(c.height) + " см"
  {
    if c.width != 0 && c.height != 0
    then IntToString(c.width) + " × " + IntToString(c.height) + " см"
    else "-"
  }

  /** The calculator part of the body. */
  function CalculatorSection(cd: Option<CalculatorSnapshot>): (lines: seq<string>)
    ensures cd.None? ==> lines == [NoCalculatorData]
    ensures cd.Some? ==> |lines| == 9 && lines[0] == "<h3>Данные калькулятора</h3>"
    ensures cd.Some? ==> var c := cd.value.config;
      && lines[1] == Para("Выбранный товар", ProductText(c.selectedProduct))
      && lines[2] == Para("Размер", SizeText(c))
      && lines[3] == Para("Площадь", AreaLine(cd.value.area))
      && lines[4] == Para("Тип окна", OrDash(WindowTypeLabel(c.windowType)))
      && lines[5] == Para("Материал", OrDash(MaterialLabel(c.material)))
      && lines[6] == Para("Остекление", OrDash(GlazingLabel(c.glazingType)))
      && lines[7] == Para("Доп. функции", FeaturesText(c.additionalFeatures))
      && lines[8] == Para("Количество", QuantityText(c.quantity))
  {
    match cd
    case None => [NoCalculatorData]
    case Some(snap) =>
      var c := snap.config;
      [ "<h3>Данные калькулятора</h3>",
        Para("Выбранный товар", ProductText(c.selectedProduct)),
        Para("Размер", SizeText(c)),
        Para("Площадь", AreaLine(snap.area)),
        Para("Тип окна", OrDash(WindowTypeLabel(c.windowType))),
        Para("Материал", OrDash(MaterialLabel(c.material))),
        Para("Остекление", OrDash(GlazingLabel(c.glazingType))),
        Para("Доп. функции", FeaturesText(c.additionalFeatures)),
        Para("Количество", QuantityText(c.quantity)) ]
  }

  /** The body for the stored document `s` with id `docId`. */
  function Body(docId: string, s: StoredRequest, dateText: string): (lines: seq<string>)
    ensures |lines| == 8 + |CalculatorSection(s.calculatorData)|
    ensures lines[0] == "<h2>Новая заявка</h2>"
    ensures lines[1] == Para("ID", docId) && lines[2] == Para("Имя", s.name)
    ensures lines[3] == Para("Телефон", s.phone) && lines[4] == Para("Email", s.email)
    ensures lines[5] == Para("Сообщение", OrDash(s.message))
    ensures lines[6] == Para("Дата", dateText)
    ensures lines[7] == Para("Статус", StatusLabel(s.status))
    ensures lines[8..] == CalculatorSection(s.calculatorData)
  {
    [ "<h2>Новая заявка</h2>",
      Para("ID", docId),
      Para("Имя", s.name),
      Para("Телефон", s.phone),
      Para("Email", s.email),
      Para("Сообщение", OrDash(s.message)),
      Para("Дата", dateText),
      Para("Статус", StatusLabel(s.status)) ]
    + CalculatorSection(s.calculatorData)
  }

  /** A request sent without calculator data gets the single "no data" paragraph. */
  lemma NoCalculatorBody(docId: string, s: StoredRequest, dateText: string)
    requires s.calculatorData.None?
    ensures |Body(docId, s, dateText)| == 9
    ensures Body(docId, s, dateText)[8] == NoCalculatorData
  {
  }

  /** The e-mail and the admin spreadsheet show the same calculator values, except that the
      e-mail puts "-" where a size is zero or a code is empty. */
  lemma EmailAgreesWithExport(docId: string, s: StoredRequest)
    requires s.calculatorData.Some?
    ensures var c := s.calculatorData.value.config;
      var row := RequestManagement.ExportRowOf(Materialize(docId, s));
      && ProductText(c.selectedProduct) == row.product
      && AreaLine(s.calculatorData.value.area) == row.area
      && FeaturesText(c.additionalFeatures) == row.features
      && QuantityText(c.quantity) == row.quantity
      && OrDash(WindowTypeLabel(c.windowType)) == OrDash(row.windowType)
      && OrDash(MaterialLabel(c.material)) == OrDash(row.material)
      && OrDash(GlazingLabel(c.glazingType)) == OrDash(row.glazing)
      && (row.windowType == "" <==> c.windowType == "")
      && SizeText(c) == if c.width != 0 && c.height != 0 then row.size else "-"
  {
    var r := Materialize(docId, s);
    assert r.calculatorData == s.calculatorData;
  }
}
