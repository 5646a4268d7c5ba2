/** The window calculator (src/components/calculator/PriceCalculator.tsx): its starting
    configuration, the feature toggle, the quantity stepper, the area, and the request it
    submits. The handlers' pure updates are functions; the component's state is a class. */
module PriceCalculator {
  import opened Wrappers
  import opened Types
  import opened Text
  import opened Seqs
  import opened RequestApi

  /** The `useState` initialiser: a product kept in local storage wins over the component's
      `defaultProduct`; the material is that product's category, or "vinyl". */
  function InitialConfig(stored: Option<ProductRef>, defaultProduct: Option<ProductRef>): (c: QuoteConfig)
    ensures c.width == 100 && c.height == 100 && c.quantity == 1
    ensures c.windowType == "standard" && c.glazingType == "double" && c.additionalFeatures == []
    ensures c.selectedProduct == if stored.Some? then stored else defaultProduct
    ensures c.material != ""
    ensures c.selectedProduct.Some? && c.selectedProduct.value.category != "" ==>
      c.material == c.selectedProduct.value.category
    ensures c.selectedProduct.None? || c.selectedProduct.value.category == "" ==> c.material == "vinyl"
  {
    var initial := if stored.Some? then stored else defaultProduct;
    var material := if initial.Some? && initial.value.category != "" then initial.value.category else "vinyl";
    QuoteConfig(100, 100, "standard", material, "double", [], 1, initial)
  }

  /** The test `f !== code` of the toggle's `filter`. */
  function Other(code: string): string -> bool
  {
    f => f != code
  }

  /** `handleFeatureToggle`: a selected code is removed everywhere, an unselected one is
      appended. */
  function Toggled(features: seq<string>, code: string): (r: seq<string>)
    ensures code in r <==> code !in features
    ensures forall f :: f != code ==> (f in r <==> f in features)
    ensures NoDup(features) ==> NoDup(r)
  {
    if code in features then
      FilterKeepsNoDupIfDistinct(features, code);
      Filter(features, Other(code))
    else features + [code]
  }

  lemma FilterKeepsNoDupIfDistinct(features: seq<string>, code: string)
    ensures NoDup(features) ==> NoDup(Filter(features, Other(code)))
  {
    if NoDup(features) {
      FilterKeepsNoDup(features, Other(code));
    }
  }

  /** The other features, and their order, are the same after a toggle. */
  lemma ToggleKeepsOthers(features: seq<string>, code: string)
    ensures Filter(Toggled(features, code), Other(code)) == Filter(features, Other(code))
  {
    if code in features {
      FilterIdempotent(features, Other(code));
    } else {
      FilterAppend(features, [code], Other(code));
    }
  }

  /** Toggling an unselected code twice gives back the very same list. */
  lemma ToggleTwiceAbsent(features: seq<string>, code: string)
    requires code !in features
    ensures Toggled(Toggled(features, code), code) == features
  {
    FilterAppend(features, [code], Other(code));
    FilterAll(features, Other(code));
  }

  /** Toggling a selected code twice gives back the same set, with the code moved to the end. */
  lemma ToggleTwicePresent(features: seq<string>, code: string)
    requires code in features
    ensures Toggled(Toggled(features, code), code) == Filter(features, Other(code)) + [code]
    ensures forall f :: f in Toggled(Toggled(features, code), code) <==> f in features
  {
  }

  /** `incrementQuantity`: no upper bound. */
  function Incremented(q: int): (r: int)
    ensures r > q && r - q == 1
  {
    q + 1
  }

  /** `decrementQuantity`: `Math.max(1, q - 1)`. */
  function Decremented(q: int): (r: int)
    ensures r >= 1
    ensures q > 1 ==> r == q - 1
    ensures q <= 1 ==> r == 1
  {
    if q - 1 > 1 then q - 1 else 1
  }

  /** The quantity input: a typed number `n` becomes `Math.max(1, n)`. */
  function ClampedQuantity(n: int): (r: int)
    ensures r >= 1 && r >= n
    ensures n >= 1 ==> r == n
  {
    if n > 1 then n else 1
  }

  /** The stepper's two buttons undo each other above the floor of 1. */
  lemma StepperRoundTrip(q: int)
    requires q >= 1
    ensures Decremented(Incremented(q)) == q
    ensures q >= 2 ==> Incremented(Decremented(q)) == q
    ensures Decremented(1) == 1
  {
  }

  /** `w * h / 10000` square metres in whole hundredths, rounded half away from zero as
      `toFixed(2)` does on the exact quotient. */
  function AreaHundredths(w: int, h: int): (r: int)
    ensures (w * h) % 100 == 0 ==> r * 100 == w * h
    ensures -50 <= r * 100 - w * h <= 50
  {
    var p := w * h;
    if p >= 0 then (p + 50) / 100 else -((-p + 50) / 100)
  }

  /** A non-negative number of hundredths printed with exactly two decimals. */
  function FixedTwo(m: nat): (s: string)
    ensures |s| >= 4
  {
    NatToString(m / 100) + "." + [DigitChar(m % 100 / 10), DigitChar(m % 10)]
  }

  /** The two-decimal text reads back as the number of hundredths it was made from. */
  lemma FixedTwoDenotes(m: nat)
    ensures var s := FixedTwo(m);
      s[|s| - 3] == '.' && AllDigits(s[..|s| - 3]) && AllDigits(s[|s| - 2..])
      && ParseDigits(s[..|s| - 3]) * 100 + ParseDigits(s[|s| - 2..]) == m
  {
    var s := FixedTwo(m);
    var whole := NatToString(m / 100);
    var frac := [DigitChar(m % 100 / 10), DigitChar(m % 10)];
    assert s == whole + "." + frac;
    assert s[..|s| - 3] == whole;
    assert s[|s| - 2..] == frac;
    ParseNatToString(m / 100);
    var tens := [DigitChar(m % 100 / 10)];
    assert frac[..1] == tens && tens[..0] == [];
    assert ParseDigits(tens) == m % 100 / 10;
    assert ParseDigits(frac) == m % 100;
  }

  /** The area as `toFixed(2)` prints it: a "-" for a negative product, then the rounded
      magnitude with two decimals. */
  function AreaText(w: int, h: int): (s: string)
    ensures w * h >= 0 ==> s == FixedTwo(AreaHundredths(w, h))
  {
    var r := AreaHundredths(w, h);
    (if w * h < 0 then "-" else "") + FixedTwo(if r < 0 then -r else r)
  }

  /** For a non-negative area the text reads back as the rounded number of hundredths, which
      is exact when the product of the sides is a multiple of 100 cm². */
  lemma AreaTextDenotes(w: int, h: int)
    requires w * h >= 0
    ensures var s := AreaText(w, h);
      s[|s| - 3] == '.' && AllDigits(s[..|s| - 3]) && AllDigits(s[|s| - 2..])
      && ParseDigits(s[..|s| - 3]) * 100 + ParseDigits(s[|s| - 2..]) == AreaHundredths(w, h)
  {
    FixedTwoDenotes(AreaHundredths(w, h));
  }

  /** 150 cm by 180 cm is 2.70 m². */
  lemma AreaExample()
    ensures AreaText(150, 180) == "2.70"
  {
  }

  /** The `calculatorData` of a submitted request: the configuration and its area. */
  function Snapshot(c: QuoteConfig): (s: CalculatorSnapshot)
    ensures s.config == c && s.area == AreaText(c.width, c.height)
  {
    CalculatorSnapshot(c, AreaText(c.width, c.height))
  }

  /** `requestData` in `handleRequestSubmit`: the contact form, the calculator snapshot, and a
      client date and status that the store will overwrite. */
  function RequestDraftOf(contact: ContactFields, c: QuoteConfig, clientNow: int): (d: RequestDraft)
    ensures d.name == contact.name && d.email == contact.email
    ensures d.phone == contact.phone && d.message == contact.message
    ensures d.calculatorData == Some(Snapshot(c))
    ensures d.date == Some(clientNow) && d.status == Some("new")
  {
    RequestDraft(contact.name, contact.email, contact.phone, contact.message, Some(Snapshot(c)),
      Some(clientNow), Some("new"))
  }

  const EmptyContact := ContactFields("", "", "", "")

  datatype ContactField = NameField | PhoneField | EmailField | MessageField

  /** `setRequestForm(prev => ({ ...prev, [field]: value }))`. */
  function WithContactField(f: ContactFields, field: ContactField, value: string): (r: ContactFields)
    ensures r.name == if field == NameField then value else f.name
    ensures r.phone == if field == PhoneField then value else f.phone
    ensures r.email == if field == EmailField then value else f.email
    ensures r.message == if field == MessageField then value else f.message
  {
    match field
    case NameField => f.(name := value)
    case PhoneField => f.(phone := value)
    case EmailField => f.(email := value)
    case MessageField => f.(message := value)
  }

  /** Typing into a field twice keeps only the last text, and fields typed one after the
      other do not disturb each other. */
  lemma ContactFieldsCommute(f: ContactFields, a: ContactField, x: string, b: ContactField, y: string)
    ensures a == b ==> WithContactField(WithContactField(f, a, x), b, y) == WithContactField(f, b, y)
    ensures a != b ==>
      WithContactField(WithContactField(f, a, x), b, y) == WithContactField(WithContactField(f, b, y), a, x)
  {
  }

  /** The calculator component's state. */
  class Calculator {
    var config: QuoteConfig
    var contact: ContactFields

    /** The quantity never drops below 1. */
    ghost predicate Valid()
      reads this
    {
      config.quantity >= 1
    }

    constructor (stored: Option<ProductRef>, defaultProduct: Option<ProductRef>)
      ensures Valid()
      ensures config == InitialConfig(stored, defaultProduct) && contact == EmptyContact
    {
      config := InitialConfig(stored, defaultProduct);
      contact := EmptyContact;
    }

    method ToggleFeature(code: string)
      requires Valid()
      modifies this
      ensures Valid() && contact == old(contact)
      ensures config == old(config).(additionalFeatures := Toggled(old(config).additionalFeatures, code))
    {
      config := config.(additionalFeatures := Toggled(config.additionalFeatures, code));
    }

    method IncrementQuantity()
      requires Valid()
      modifies this
      ensures Valid() && contact == old(contact)
      ensures config == old(config).(quantity := Incremented(old(config).quantity))
    {
      config := config.(quantity := Incremented(config.quantity));
    }

    method DecrementQuantity()
      requires Valid()
      modifies this
      ensures Valid() && contact == old(contact)
      ensures config == old(config).(quantity := Decremented(old(config).quantity))
    {
      config := config.(quantity := Decremented(config.quantity));
    }

    method TypeQuantity(n: int)
      requires Valid()
      modifies this
      ensures Valid() && contact == old(contact)
      ensures config == old(config).(quantity := ClampedQuantity(n))
    {
      config := config.(quantity := ClampedQuantity(n));
    }

    /** The width slider and input (no clamping to the slider's 30–300). */
    method SetWidth(w: int)
      requires Valid()
      modifies this
      ensures Valid() && contact == old(contact) && config == old(config).(width := w)
    {
      config := config.(width := w);
    }

    method SetHeight(h: int)
      requires Valid()
      modifies this
      ensures Valid() && contact == old(contact) && config == old(config).(height := h)
    {
      config := config.(height := h);
    }

    method SetWindowType(code: string)
      requires Valid()
      modifies this
      ensures Valid() && contact == old(contact) && config == old(config).(windowType := code)
    {
      config := config.(windowType := code);
    }

    method SetMaterial(code: string)
      requires Valid()
      modifies this
      ensures Valid() && contact == old(contact) && config == old(config).(material := code)
    {
      config := config.(material := code);
    }

    method SetGlazingType(code: string)
      requires Valid()
      modifies this
      ensures Valid() && contact == old(contact) && config == old(config).(glazingType := code)
    {
      config := config.(glazingType := code);
    }

    method SetContactField(field: ContactField, value: string)
      requires Valid()
      modifies this
      ensures Valid() && config == old(config)
      ensures contact == WithContactField(old(contact), field, value)
    {
      contact := WithContactField(contact, field, value);
    }

    /** `handleRequestSubmit`: the store keeps the snapshot but stamps its own date and the
        status "new"; afterwards the contact form is cleared and the configuration kept. */
    method SubmitRequest(store: RequestStore, clientNow: int, serverNow: int) returns (created: CustomerRequest)
      requires Valid() && store.Valid()
      modifies this, store
      ensures Valid() && store.Valid()
      ensures config == old(config) && contact == EmptyContact
      ensures created.id !in old(store.docs)
      ensures store.docs ==
        old(store.docs)[created.id := Stamp(RequestDraftOf(old(contact), old(config), clientNow), serverNow)]
      ensures created.status == "new" && created.date == serverNow
      ensures created.calculatorData == Some(Snapshot(old(config)))
      ensures created.name == old(contact).name && created.email == old(contact).email
      ensures created.phone == old(contact).phone && created.message == old(contact).message
    {
      var draft := RequestDraftOf(contact, config, clientNow);
      created := store.Create(draft, serverNow);
      contact := EmptyContact;
    }
  }
}
