/** The admin product list and its edit form (src/components/admin/ProductManagement.tsx). The
    form holds a `Partial<Product>`: a field that is `None` was never set. The outcome of each
    store call is a parameter of the method that makes it. */
module ProductManagement {
  import opened Wrappers
  import opened Types
  import opened Text
  import opened Seqs
  import ProductSection
  import ProductSpecs

  const DefaultName := "Новый продукт"
  const DefaultDescription := "Описание продукта"
  const DefaultRating: real := 4.5
  const DefaultImage := "https://images.unsplash.com/photo-1605276374104-dee2a0ed3cd6?w=500&q=80"
  const DefaultCategory := "vinyl"

  datatype ProductForm = ProductForm(
    name: Option<string>,
    description: Option<string>,
    rating: Option<real>,
    image: Option<string>,
    category: Option<string>,
    features: Option<seq<string>>,
    specifications: Option<Specs>,
    images: Option<seq<string>>)

  /** The form after `resetForm`: one blank feature row and one blank specification row. */
  function EmptyForm(): (f: ProductForm)
    ensures f.name == Some("") && f.description == Some("") && f.image == Some("")
    ensures f.rating == Some(DefaultRating) && f.category == Some(DefaultCategory)
    ensures f.features == Some([""]) && f.specifications == Some([("", "")])
    ensures f.images == Some([])
  {
    ProductForm(Some(""), Some(""), Some(DefaultRating), Some(""), Some(DefaultCategory),
      Some([""]), Some([("", "")]), Some([]))
  }

  /** The form `openEditDialog` fills in from a product. */
  function FormOf(p: Product): (f: ProductForm)
    ensures f.name == Some(p.name) && f.description == Some(p.description)
    ensures f.rating == Some(p.rating) && f.image == Some(p.image) && f.category == Some(p.category)
    ensures f.features == Some(p.features) && f.specifications == Some(p.specifications)
    ensures f.images == Some(p.images)
  {
    ProductForm(Some(p.name), Some(p.description), Some(p.rating), Some(p.image),
      Some(p.category), Some(p.features), Some(p.specifications), Some(p.images))
  }

  /** `x || fallback` on an optional string: a missing or empty string is falsy. */
  function TextOr(x: Option<string>, fallback: string): (s: string)
    ensures x.Some? && x.value != "" ==> s == x.value
    ensures x.None? || x.value == "" ==> s == fallback
  {
    if x.Some? && x.value != "" then x.value else fallback
  }

  /** The product `handleAddProduct` creates, with the id the store newId. Empty text
      fields and a zero rating take the defaults; lists that were never set become empty,
      except the gallery, which then holds the main image. */
  function NewProduct(f: ProductForm, id: string): (p: Product)
    ensures p.id == id
    ensures p.name != "" && p.description != "" && p.image != "" && p.category != ""
    ensures f.name.Some? && f.name.value != "" ==> p.name == f.name.value
    ensures f.description.Some? && f.description.value != "" ==> p.description == f.description.value
    ensures f.image.Some? && f.image.value != "" ==> p.image == f.image.value
    ensures f.category.Some? && f.category.value != "" ==> p.category == f.category.value
    ensures p.rating != 0.0
    ensures f.rating.Some? && f.rating.value != 0.0 ==> p.rating == f.rating.value
    ensures f.features.Some? ==> p.features == f.features.value
    ensures f.features.None? ==> p.features == []
    ensures f.specifications.Some? ==> p.specifications == f.specifications.value
    ensures f.specifications.None? ==> p.specifications == []
    ensures f.images.Some? ==> p.images == f.images.value
    ensures f.images.None? ==> p.images == [p.image]
  {
    var image := TextOr(f.image, DefaultImage);
    Product(
      id,
      TextOr(f.name, DefaultName),
      TextOr(f.description, DefaultDescription),
      if f.rating.Some? && f.rating.value != 0.0 then f.rating.value else DefaultRating,
      image,
      TextOr(f.category, DefaultCategory),
      f.features.GetOr([]),
      f.specifications.GetOr([]),
      f.images.GetOr([image]))
  }

  /** An empty gallery stays empty on create: the main-image fallback applies only when the
      gallery was never set. */
  lemma EmptyGalleryStaysEmpty(f: ProductForm, id: string)
    requires f.images == Some([])
    ensures NewProduct(f, id).images == []
  {
  }

  /** The product `handleEditProduct` saves: empty text fields keep the current values, a set
      rating is kept even when it is zero, lists that were never set keep the current ones. */
  function Merged(f: ProductForm, cur: Product): (p: Product)
    ensures p.id == cur.id
    ensures f.name.Some? && f.name.value != "" ==> p.name == f.name.value
    ensures f.name.None? || f.name.value == "" ==> p.name == cur.name
    ensures f.description.Some? && f.description.value != "" ==> p.description == f.description.value
    ensures f.description.None? || f.description.value == "" ==> p.description == cur.description
    ensures f.image.Some? && f.image.value != "" ==> p.image == f.image.value
    ensures f.image.None? || f.image.value == "" ==> p.image == cur.image
    ensures f.category.Some? && f.category.value != "" ==> p.category == f.category.value
    ensures f.category.None? || f.category.value == "" ==> p.category == cur.category
    ensures f.rating.Some? ==> p.rating == f.rating.value
    ensures f.rating.None? ==> p.rating == cur.rating
    ensures p.features == f.features.GetOr(cur.features)
    ensures p.specifications == f.specifications.GetOr(cur.specifications)
    ensures p.images == f.images.GetOr(cur.images)
  {
    Product(
      cur.id,
      TextOr(f.name, cur.name),
      TextOr(f.description, cur.description),
      if f.rating.Some? then f.rating.value else cur.rating,
      TextOr(f.image, cur.image),
      TextOr(f.category, cur.category),
      f.features.GetOr(cur.features),
      f.specifications.GetOr(cur.specifications),
      f.images.GetOr(cur.images))
  }

  /** Opening a product for editing and saving without changes gives the same product back. */
  lemma SaveUnchangedIsIdentity(cur: Product)
    ensures Merged(FormOf(cur), cur) == cur
  {
  }

  /** Clearing every text field of an opened product and saving also keeps it. */
  lemma ClearedTextKeepsCurrent(cur: Product)
    ensures Merged(FormOf(cur).(name := Some(""), description := Some(""), image := Some(""),
                                category := Some("")), cur) == cur
  {
  }

  /** The admin search: the catalog's name-or-description test, keeping the list order. */
  function SearchProducts(ps: seq<Product>, query: string): (out: seq<Product>)
    ensures forall i :: 0 <= i < |out| ==> out[i] in ps && ProductSection.MatchesSearch(out[i], query)
    ensures forall i :: 0 <= i < |ps| && ProductSection.MatchesSearch(ps[i], query) ==> ps[i] in out
  {
    Filter(ps, ProductSection.Searching(query))
  }

  lemma SearchKeepsOrder(ps: seq<Product>, query: string)
    ensures IsSubsequence(SearchProducts(ps, query), ps)
  {
    FilterIsSubsequence(ps, ProductSection.Searching(query));
  }

  /** The admin search and the catalog search with the "all" tab list the same products. */
  lemma SearchAgreesWithCatalog(ps: seq<Product>, query: string)
    ensures SearchProducts(ps, query) == ProductSection.CatalogFilter(ps, query, "all")
  {
    FilterSameKeep(ps, ProductSection.Searching(query), ProductSection.Shown(query, "all"));
  }

  lemma {:induction false} FilterSameKeep<T>(s: seq<T>, f: T -> bool, g: T -> bool)
    requires forall i :: 0 <= i < |s| ==> f(s[i]) == g(s[i])
    ensures Filter(s, f) == Filter(s, g)
  {
    if s != [] {
      FilterSameKeep(s[1..], f, g);
    }
  }

  /** The `map` after a successful edit: only products with that id are replaced. */
  function ReplaceById(ps: seq<Product>, id: string, updated: Product): (out: seq<Product>)
    ensures |out| == |ps|
    ensures forall i :: 0 <= i < |ps| && ps[i].id == id ==> out[i] == updated
    ensures forall i :: 0 <= i < |ps| && ps[i].id != id ==> out[i] == ps[i]
  {
    seq(|ps|, i requires 0 <= i < |ps| => if ps[i].id == id then updated else ps[i])
  }

  /** The key `handleDeleteProduct` filters on. */
  function ProductKey(p: Product): string
  {
    p.id
  }

  /** Editing a product and then deleting it leaves the same list as deleting it outright. */
  lemma {:induction false} RemoveAfterReplace(ps: seq<Product>, id: string, updated: Product)
    requires updated.id == id
    ensures RemoveByKey(ReplaceById(ps, id, updated), ProductKey, id) == RemoveByKey(ps, ProductKey, id)
  {
    if ps != [] {
      RemoveAfterReplace(ps[1..], id, updated);
      assert ReplaceById(ps, id, updated)[1..] == ReplaceById(ps[1..], id, updated);
    }
  }

  /** `list[i] = v` on a copy: only slot `i` changes. */
  function SetAt(xs: seq<string>, i: nat, v: string): (r: seq<string>)
    requires i < |xs|
    ensures |r| == |xs| && r[i] == v
    ensures forall j :: 0 <= j < |xs| && j != i ==> r[j] == xs[j]
  {
    xs[i := v]
  }

  /** `splice(i, 1)` on a copy: the element at `i` goes, the later ones move up; an index past
      the end removes nothing. */
  function RemoveAt(xs: seq<string>, i: nat): (r: seq<string>)
    ensures i < |xs| ==> |r| == |xs| - 1
    ensures i < |xs| ==> forall j :: 0 <= j < i ==> r[j] == xs[j]
    ensures i < |xs| ==> forall j :: i <= j < |r| ==> r[j] == xs[j + 1]
    ensures i >= |xs| ==> r == xs
  {
    if i < |xs| then xs[..i] + xs[i + 1..] else xs
  }

  /** The add button: a blank entry at the end. */
  function AppendBlank(xs: seq<string>): (r: seq<string>)
    ensures |r| == |xs| + 1 && r[..|xs|] == xs && r[|xs|] == ""
  {
    xs + [""]
  }

  /** Removing the row just added gives the list back. */
  lemma RemoveUndoesAppend(xs: seq<string>)
    ensures RemoveAt(AppendBlank(xs), |xs|) == xs
  {
  }

  /** Typing into a row and then removing it is the same as removing it. */
  lemma RemoveForgetsSet(xs: seq<string>, i: nat, v: string)
    requires i < |xs|
    ensures RemoveAt(SetAt(xs, i, v), i) == RemoveAt(xs, i)
  {
  }

  /** Drops the whitespace at the front. */
  function DropSpaces(s: string): (r: string)
    ensures |r| <= |s|
    ensures r == s[|s| - |r|..]
    ensures r == [] || !IsSpace(r[0])
  {
    if s != [] && IsSpace(s[0]) then DropSpaces(s[1..]) else s
  }

  /** `replace(/\s+/g, "-")`: every run of whitespace becomes one dash. */
  function Dashed(s: string): (r: string)
    ensures forall i :: 0 <= i < |r| ==> !IsSpace(r[i])
    ensures s != [] ==> r != []
    decreases |s|
  {
    if s == [] then []
    else if IsSpace(s[0]) then "-" + Dashed(DropSpaces(s[1..]))
    else [s[0]] + Dashed(s[1..])
  }

  /** A string without whitespace has no run to replace. */
  lemma {:induction false} DashedNoSpace(s: string)
    requires forall i :: 0 <= i < |s| ==> !IsSpace(s[i])
    ensures Dashed(s) == s
    decreases |s|
  {
    if s != [] {
      DashedNoSpace(s[1..]);
    }
  }

  /** Dropping the leading whitespace of a text that ends in a non-space character only
      touches that text, and keeps its last character. */
  lemma {:induction false} DropSpacesAppend(x: string, y: string)
    requires x != [] && !IsSpace(x[|x| - 1])
    ensures DropSpaces(x + y) == DropSpaces(x) + y
    ensures DropSpaces(x) != [] && DropSpaces(x)[|DropSpaces(x)| - 1] == x[|x| - 1]
    decreases |x|
  {
    if IsSpace(x[0]) {
      assert (x + y)[1..] == x[1..] + y;
      DropSpacesAppend(x[1..], y);
    }
  }

  /** A text made only of whitespace is dropped entirely. */
  lemma {:induction false} DropAllSpaces(w: string, b: string)
    requires forall i :: 0 <= i < |w| ==> IsSpace(w[i])
    requires b == [] || !IsSpace(b[0])
    ensures DropSpaces(w + b) == b
    decreases |w|
  {
    if w == [] {
      assert w + b == b;
    } else {
      assert (w + b)[1..] == w[1..] + b;
      DropAllSpaces(w[1..], b);
    }
  }

  /** A whitespace run in front becomes exactly one dash. */
  lemma DashedRun(w: string, b: string)
    requires w != [] && forall i :: 0 <= i < |w| ==> IsSpace(w[i])
    requires b == [] || !IsSpace(b[0])
    ensures Dashed(w + b) == "-" + Dashed(b)
  {
    assert (w + b)[0] == w[0];
    assert (w + b)[1..] == w[1..] + b;
    DropAllSpaces(w[1..], b);
  }

  /** A text ending in a non-space character holds no run that reaches past its end, so it
      is dashed on its own. */
  lemma {:induction false} DashedAppend(a: string, r: string)
    requires a == [] || !IsSpace(a[|a| - 1])
    ensures Dashed(a + r) == Dashed(a) + Dashed(r)
    decreases |a|
  {
    if a == [] {
      assert a + r == r;
    } else {
      var t := a[1..];
      assert (a + r)[0] == a[0];
      assert (a + r)[1..] == t + r;
      if IsSpace(a[0]) {
        var d := DropSpaces(t);
        assert Dashed(a + r) == "-" + Dashed(d + r) by {
          DropSpacesAppend(t, r);
        }
        assert Dashed(a) == "-" + Dashed(d);
        DropSpacesAppend(t, r);
        DashedAppend(d, r);
        AppendAssoc("-", Dashed(d), Dashed(r));
      } else {
        assert Dashed(a + r) == [a[0]] + Dashed(t + r);
        assert Dashed(a) == [a[0]] + Dashed(t);
        DashedAppend(t, r);
        AppendAssoc([a[0]], Dashed(t), Dashed(r));
      }
    }
  }

  /** A maximal whitespace run between two texts becomes exactly one dash, and the texts on
      either side are dashed on their own: together with DashedNoSpace this fixes the result
      of the replacement on every input. */
  lemma DashedSplit(a: string, w: string, b: string)
    requires a == [] || !IsSpace(a[|a| - 1])
    requires w != [] && forall i :: 0 <= i < |w| ==> IsSpace(w[i])
    requires b == [] || !IsSpace(b[0])
    ensures Dashed(a + (w + b)) == Dashed(a) + ("-" + Dashed(b))
  {
    DashedAppend(a, w + b);
    DashedRun(w, b);
  }

  /** The custom category as typed: lower-cased, whitespace runs turned into dashes. */
  function CategorySlug(text: string): (slug: string)
    ensures forall i :: 0 <= i < |slug| ==> !IsSpace(slug[i])
    ensures text != [] ==> slug != []
    ensures Lower(slug) == slug
  {
    LowerIdempotent(text);
    LowerDashed(Lower(text));
    Dashed(Lower(text))
  }

  /** The slug of a text with a whitespace run in it: the slugs of both sides, joined by one
      dash. */
  lemma CategorySlugSplit(a: string, w: string, b: string)
    requires a == [] || !IsSpace(a[|a| - 1])
    requires w != [] && forall i :: 0 <= i < |w| ==> IsSpace(w[i])
    requires b == [] || !IsSpace(b[0])
    ensures CategorySlug(a + (w + b)) == CategorySlug(a) + ("-" + CategorySlug(b))
  {
    assert Lower(a + (w + b)) == Lower(a) + (Lower(w) + Lower(b));
    if a != [] {
      LowerCharKeepsSpace(a[|a| - 1]);
    }
    if b != [] {
      LowerCharKeepsSpace(b[0]);
    }
    forall i | 0 <= i < |w| ensures IsSpace(Lower(w)[i]) {
      LowerCharKeepsSpace(w[i]);
    }
    DashedSplit(Lower(a), Lower(w), Lower(b));
  }

  /** Dashing only brings in dashes: every other character comes from the input. */
  lemma {:induction false} DashedChars(s: string)
    ensures forall i :: 0 <= i < |Dashed(s)| ==> Dashed(s)[i] == '-' || Dashed(s)[i] in s
    decreases |s|
  {
    if s != [] {
      var t := s[1..];
      if IsSpace(s[0]) {
        var d := DropSpaces(t);
        DashedChars(d);
        forall x | x in d ensures x in s {
          var j :| 0 <= j < |d| && d[j] == x;
          assert d[j] == t[|t| - |d| + j] == s[|t| - |d| + j + 1];
        }
      } else {
        DashedChars(t);
        forall x | x in t ensures x in s {
          var j :| 0 <= j < |t| && t[j] == x;
          assert t[j] == s[j + 1];
        }
      }
    }
  }

  /** Lower-casing changes nothing in a lower-cased, dashed string. */
  lemma LowerDashed(s: string)
    requires Lower(s) == s
    ensures Lower(Dashed(s)) == Dashed(s)
  {
    DashedChars(s);
    var r := Dashed(s);
    forall i | 0 <= i < |r| ensures Lower(r)[i] == r[i] {
      if r[i] != '-' {
        var j :| 0 <= j < |s| && s[j] == r[i];
        assert Lower(s)[j] == s[j];
      }
    }
  }

  /** Typing a slug as the custom category gives the same slug. */
  lemma CategorySlugIdempotent(text: string)
    ensures CategorySlug(CategorySlug(text)) == CategorySlug(text)
  {
    var l := Lower(text);
    LowerIdempotent(text);
    LowerDashed(l);
    DashedNoSpace(Dashed(l));
  }

  datatype TextField = NameField | DescriptionField | ImageField

  /** The admin product view's state. */
  class ProductPanel {
    var products: seq<Product>
    var query: string
    var form: ProductForm
    var current: Option<Product>

    constructor ()
      ensures products == [] && query == "" && form == EmptyForm() && current == None
    {
      products := [];
      query := "";
      form := EmptyForm();
      current := None;
    }

    /** The list on screen. */
    function Visible(): seq<Product>
      reads this
    {
      SearchProducts(products, query)
    }

    /** The mount effect, with what the store returned. */
    method Load(fetched: seq<Product>)
      modifies this
      ensures products == fetched && query == old(query) && form == old(form) && current == old(current)
    {
      products := fetched;
    }

    method Search(q: string)
      modifies this
      ensures query == q && products == old(products) && form == old(form) && current == old(current)
    {
      query := q;
    }

    /** `openEditDialog`. */
    method OpenEdit(p: Product)
      modifies this
      ensures current == Some(p) && form == FormOf(p)
      ensures products == old(products) && query == old(query)
    {
      current := Some(p);
      form := FormOf(p);
    }

    /** `openDeleteDialog`. */
    method OpenDelete(p: Product)
      modifies this
      ensures current == Some(p)
      ensures products == old(products) && query == old(query) && form == old(form)
    {
      current := Some(p);
    }

    /** `resetForm`. */
    method ResetForm()
      modifies this
      ensures form == EmptyForm() && current == None
      ensures products == old(products) && query == old(query)
    {
      form := EmptyForm();
      current := None;
    }

    /** `handleInputChange` for the text inputs. */
    method SetText(field: TextField, v: string)
      modifies this
      ensures field == NameField ==> form == old(form).(name := Some(v))
      ensures field == DescriptionField ==> form == old(form).(description := Some(v))
      ensures field == ImageField ==> form == old(form).(image := Some(v))
      ensures products == old(products) && query == old(query) && current == old(current)
    {
      match field
      case NameField => form := form.(name := Some(v));
      case DescriptionField => form := form.(description := Some(v));
      case ImageField => form := form.(image := Some(v));
    }

    /** `handleInputChange` for the rating, with the number already parsed. */
    method SetRating(r: real)
      modifies this
      ensures form == old(form).(rating := Some(r))
      ensures products == old(products) && query == old(query) && current == old(current)
    {
      form := form.(rating := Some(r));
    }

    /** `handleSelectChange`. */
    method SelectCategory(c: string)
      modifies this
      ensures form == old(form).(category := Some(c))
      ensures products == old(products) && query == old(query) && current == old(current)
    {
      form := form.(category := Some(c));
    }

    /** The "new category" input: a non-empty text sets its slug, an empty one is ignored. */
    method TypeCategory(text: string)
      modifies this
      ensures text != "" ==> form == old(form).(category := Some(CategorySlug(text)))
      ensures text == "" ==> form == old(form)
      ensures products == old(products) && query == old(query) && current == old(current)
    {
      if text != "" {
        form := form.(category := Some(CategorySlug(text)));
      }
    }

    /** `handleImageChange`. */
    method SetImage(i: nat, v: string)
      requires i < |form.images.GetOr([])|
      modifies this
      ensures form == old(form).(images := Some(SetAt(old(form).images.GetOr([]), i, v)))
      ensures products == old(products) && query == old(query) && current == old(current)
    {
      form := form.(images := Some(SetAt(form.images.GetOr([]), i, v)));
    }

    /** `addImageField`. */
    method AddImage()
      modifies this
      ensures form == old(form).(images := Some(AppendBlank(old(form).images.GetOr([]))))
      ensures products == old(products) && query == old(query) && current == old(current)
    {
      form := form.(images := Some(AppendBlank(form.images.GetOr([]))));
    }

    /** `removeImageField`. */
    method RemoveImage(i: nat)
      modifies this
      ensures form == old(form).(images := Some(RemoveAt(old(form).images.GetOr([]), i)))
      ensures products == old(products) && query == old(query) && current == old(current)
    {
      form := form.(images := Some(RemoveAt(form.images.GetOr([]), i)));
    }

    /** The feature row's input. */
    method SetFeature(i: nat, v: string)
      requires i < |form.features.GetOr([])|
      modifies this
      ensures form == old(form).(features := Some(SetAt(old(form).features.GetOr([]), i, v)))
      ensures products == old(products) && query == old(query) && current == old(current)
    {
      form := form.(features := Some(SetAt(form.features.GetOr([]), i, v)));
    }

    /** The feature add button. */
    method AddFeature()
      modifies this
      ensures form == old(form).(features := Some(AppendBlank(old(form).features.GetOr([]))))
      ensures products == old(products) && query == old(query) && current == old(current)
    {
      form := form.(features := Some(AppendBlank(form.features.GetOr([]))));
    }

    /** The feature row's remove button. */
    method RemoveFeature(i: nat)
      modifies this
      ensures form == old(form).(features := Some(RemoveAt(old(form).features.GetOr([]), i)))
      ensures products == old(products) && query == old(query) && current == old(current)
    {
      form := form.(features := Some(RemoveAt(form.features.GetOr([]), i)));
    }

    /** The specification row's key input. */
    method RenameSpecKey(i: nat, newKey: string)
      requires i < |form.specifications.GetOr([])|
      modifies this
      ensures form == old(form).(specifications :=
        Some(ProductSpecs.RenameKey(old(form).specifications.GetOr([]), i, newKey)))
      ensures products == old(products) && query == old(query) && current == old(current)
    {
      form := form.(specifications := Some(ProductSpecs.RenameKey(form.specifications.GetOr([]), i, newKey)));
    }

    /** The specification row's value input. */
    method SetSpecValue(i: nat, v: string)
      requires i < |form.specifications.GetOr([])|
      modifies this
      ensures form == old(form).(specifications :=
        Some(ProductSpecs.SetValueAt(old(form).specifications.GetOr([]), i, v)))
      ensures products == old(products) && query == old(query) && current == old(current)
    {
      form := form.(specifications := Some(ProductSpecs.SetValueAt(form.specifications.GetOr([]), i, v)));
    }

    /** The specification row's remove button. */
    method RemoveSpec(i: nat)
      requires i < |form.specifications.GetOr([])|
      modifies this
      ensures form == old(form).(specifications :=
        Some(ProductSpecs.RemoveAt(old(form).specifications.GetOr([]), i)))
      ensures products == old(products) && query == old(query) && current == old(current)
    {
      form := form.(specifications := Some(ProductSpecs.RemoveAt(form.specifications.GetOr([]), i)));
    }

    /** The specification add button. */
    method AddSpec()
      modifies this
      ensures form == old(form).(specifications :=
        Some(ProductSpecs.AddBlank(old(form).specifications.GetOr([]))))
      ensures products == old(products) && query == old(query) && current == old(current)
    {
      form := form.(specifications := Some(ProductSpecs.AddBlank(form.specifications.GetOr([]))));
    }

    /** `handleAddProduct`: `newId` is the id the store gave the new document, or `None` if
        the store call failed. On success the new product goes to the end of the list and the
        form is reset; on failure nothing changes. */
    method Add(newId: Option<string>)
      modifies this
      ensures query == old(query)
      ensures newId.Some? ==>
        && products == old(products) + [NewProduct(old(form), newId.value)]
        && form == EmptyForm() && current == None
      ensures newId.None? ==>
        products == old(products) && form == old(form) && current == old(current)
    {
      if newId.Some? {
        products := products + [NewProduct(form, newId.value)];
        form := EmptyForm();
        current := None;
      }
    }

    /** `handleEditProduct`: `saved` says whether the store accepted the update. On success
        the products with the open product's id are replaced by the merged product and the
        form is reset; on failure, or with no product open, nothing changes. */
    method Edit(saved: bool)
      modifies this
      ensures query == old(query)
      ensures old(current).Some? && saved ==>
        && products == ReplaceById(old(products), old(current).value.id,
                                   Merged(old(form), old(current).value))
        && form == EmptyForm() && current == None
      ensures old(current).None? || !saved ==>
        products == old(products) && form == old(form) && current == old(current)
    {
      if current.None? || !saved {
        return;
      }
      var cur := current.value;
      products := ReplaceById(products, cur.id, Merged(form, cur));
      form := EmptyForm();
      current := None;
    }

    /** `handleDeleteProduct`: `removed` says whether the store call completed. On success
        every product with the open product's id leaves the list and the selection is
        cleared; on failure, or with no product open, nothing changes. */
    method Delete(removed: bool)
      modifies this
      ensures query == old(query) && form == old(form)
      ensures old(current).Some? && removed ==>
        products == RemoveByKey(old(products), ProductKey, old(current).value.id) && current == None
      ensures old(current).None? || !removed ==>
        products == old(products) && current == old(current)
    {
      if current.None? || !removed {
        return;
      }
      products := RemoveByKey(products, ProductKey, current.value.id);
      current := None;
    }
  }
}
