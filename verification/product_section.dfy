/** The public catalog (src/components/sections/ProductSection.tsx): category tabs, the
    search-and-category filter and the product details selection. */
module ProductSection {
  import opened Wrappers
  import opened Types
  import opened Text
  import opened Seqs

  /** The catalog search, shared with the admin product list: the lower-cased query occurs in
      the lower-cased name or description. */
  predicate MatchesSearch(p: Product, query: string)
  {
    Contains(Lower(p.name), Lower(query)) || Contains(Lower(p.description), Lower(query))
  }

  function Searching(query: string): Product -> bool
  {
    (p: Product) => MatchesSearch(p, query)
  }

  predicate InCategory(p: Product, active: string)
  {
    active == "all" || p.category == active
  }

  function Shown(query: string, active: string): Product -> bool
  {
    (p: Product) => MatchesSearch(p, query) && InCategory(p, active)
  }

  /** `filteredProducts`: a product is listed iff it matches the search and the active tab. */
  function CatalogFilter(ps: seq<Product>, query: string, active: string): (out: seq<Product>)
    ensures |out| <= |ps|
    ensures forall i :: 0 <= i < |out| ==>
      out[i] in ps && MatchesSearch(out[i], query) && InCategory(out[i], active)
    ensures forall i :: 0 <= i < |ps| && MatchesSearch(ps[i], query) && InCategory(ps[i], active) ==>
      ps[i] in out
  {
    Filter(ps, Shown(query, active))
  }

  /** The listed products keep their catalog order. */
  lemma CatalogFilterKeepsOrder(ps: seq<Product>, query: string, active: string)
    ensures IsSubsequence(CatalogFilter(ps, query, active), ps)
  {
    FilterIsSubsequence(ps, Shown(query, active));
  }

  /** With the filters reset the whole catalog is listed. */
  lemma ResetShowsAll(ps: seq<Product>)
    ensures CatalogFilter(ps, "", "all") == ps
  {
    forall i | 0 <= i < |ps| ensures Shown("", "all")(ps[i]) {
      ContainsEmpty(Lower(ps[i].name));
    }
    FilterAll(ps, Shown("", "all"));
  }

  function CategoryList(ps: seq<Product>): seq<string>
  {
    seq(|ps|, i requires 0 <= i < |ps| => ps[i].category)
  }

  /** `categories`: "all" and then every category of the catalog once. */
  function Categories(ps: seq<Product>): (tabs: seq<string>)
    ensures |tabs| >= 1 && tabs[0] == "all"
    ensures NoDup(tabs[1..])
    ensures forall i :: 0 <= i < |ps| ==> ps[i].category in tabs[1..]
    ensures forall i :: 1 <= i < |tabs| ==> tabs[i] in CategoryList(ps)
  {
    var d := Distinct(CategoryList(ps));
    assert forall i :: 0 <= i < |ps| ==> CategoryList(ps)[i] == ps[i].category;
    assert (["all"] + d)[1..] == d;
    ["all"] + d
  }

  /** The tabs after "all" follow the order in which their categories first appear. */
  lemma CategoriesInFirstAppearanceOrder(ps: seq<Product>)
    ensures forall i, j :: 1 <= i < j < |Categories(ps)| ==>
      FirstIndex(CategoryList(ps), Categories(ps)[i]) < FirstIndex(CategoryList(ps), Categories(ps)[j])
  {
    var tabs := Categories(ps);
    var d := Distinct(CategoryList(ps));
    DistinctFirstAppearance(CategoryList(ps));
    forall i, j | 1 <= i < j < |tabs|
      ensures FirstIndex(CategoryList(ps), tabs[i]) < FirstIndex(CategoryList(ps), tabs[j])
    {
      assert tabs[i] == d[i - 1] && tabs[j] == d[j - 1];
    }
  }

  /** The tabs are all different exactly when no product is filed under "all" itself. */
  lemma CategoriesDistinctIff(ps: seq<Product>)
    ensures NoDup(Categories(ps)) <==> forall i :: 0 <= i < |ps| ==> ps[i].category != "all"
  {
    var tabs := Categories(ps);
    if forall i :: 0 <= i < |ps| ==> ps[i].category != "all" {
      forall i, j | 0 <= i < j < |tabs| ensures tabs[i] != tabs[j] {
        if i == 0 {
          var k :| 0 <= k < |CategoryList(ps)| && CategoryList(ps)[k] == tabs[j];
          assert ps[k].category == tabs[j];
        } else {
          assert tabs[i] == tabs[1..][i - 1] && tabs[j] == tabs[1..][j - 1];
        }
      }
    } else {
      var i :| 0 <= i < |ps| && ps[i].category == "all";
      var k :| 0 <= k < |tabs[1..]| && tabs[1..][k] == "all";
      assert tabs[0] == tabs[k + 1];
    }
  }

  /** The tab captions: the three built-in categories are translated, others shown as is. */
  function TabLabel(category: string): (shown: string)
    ensures category == "all" ==> shown == "Все"
    ensures category == "vinyl" ==> shown == "ПВХ"
    ensures category == "aluminum" ==> shown == "Алюминий"
    ensures category == "wooden" ==> shown == "Дерево"
    ensures category !in {"all", "vinyl", "aluminum", "wooden"} ==> shown == category
  {
    match category
    case "all" => "Все"
    case "vinyl" => "ПВХ"
    case "aluminum" => "Алюминий"
    case "wooden" => "Дерево"
    case _ => category
  }

  /** `find` by id: the position of the first product with that id. */
  function FindById(ps: seq<Product>, id: string): (k: Option<nat>)
    ensures k.Some? ==>
      k.value < |ps| && ps[k.value].id == id && forall j :: 0 <= j < k.value ==> ps[j].id != id
    ensures k.None? <==> forall j :: 0 <= j < |ps| ==> ps[j].id != id
  {
    if ps == [] then None
    else if ps[0].id == id then Some(0)
    else match FindById(ps[1..], id)
      case None => None
      case Some(k) => Some(k + 1)
  }

  /** The catalog's view state: the search text, the active tab and the details dialog. */
  datatype CatalogView = CatalogView(
    query: string,
    active: string,
    selected: Option<Product>,
    modalOpen: bool)

  function InitialView(): (v: CatalogView)
    ensures v.query == "" && v.active == "all" && v.selected.None? && !v.modalOpen
  {
    CatalogView("", "all", None, false)
  }

  /** `handleViewDetails`: opens the first product with that id; an unknown id changes
      nothing. */
  function ViewDetails(v: CatalogView, ps: seq<Product>, id: string): (w: CatalogView)
    ensures (forall j :: 0 <= j < |ps| ==> ps[j].id != id) ==> w == v
    ensures (exists j :: 0 <= j < |ps| && ps[j].id == id) ==>
      && w.query == v.query && w.active == v.active && w.modalOpen
      && exists k :: 0 <= k < |ps| && w.selected == Some(ps[k]) && ps[k].id == id &&
           forall j :: 0 <= j < k ==> ps[j].id != id
  {
    match FindById(ps, id)
    case None => v
    case Some(k) => v.(selected := Some(ps[k]), modalOpen := true)
  }

  /** `handleCloseModal`. */
  function CloseModal(v: CatalogView): (w: CatalogView)
    ensures w.selected.None? && !w.modalOpen && w.query == v.query && w.active == v.active
  {
    v.(selected := None, modalOpen := false)
  }

  /** The two reset buttons. */
  function ResetFilters(v: CatalogView): (w: CatalogView)
    ensures w.query == "" && w.active == "all"
    ensures w.selected == v.selected && w.modalOpen == v.modalOpen
  {
    v.(query := "", active := "all")
  }

  /** After a reset the whole catalog is listed. */
  lemma ResetListsCatalog(v: CatalogView, ps: seq<Product>)
    ensures CatalogFilter(ps, ResetFilters(v).query, ResetFilters(v).active) == ps
  {
    ResetShowsAll(ps);
  }

  /** The "show all" button. */
  predicate ShowAllVisible(ps: seq<Product>, v: CatalogView)
  {
    var n := |CatalogFilter(ps, v.query, v.active)|;
    0 < n < |ps|
  }

  /** The button shows exactly when some product is listed and some other is hidden. */
  lemma {:induction false} ShowAllVisibleIff(ps: seq<Product>, v: CatalogView)
    ensures ShowAllVisible(ps, v) <==>
      (exists i :: 0 <= i < |ps| && Shown(v.query, v.active)(ps[i]))
      && (exists i :: 0 <= i < |ps| && !Shown(v.query, v.active)(ps[i]))
  {
    var keep := Shown(v.query, v.active);
    var out := CatalogFilter(ps, v.query, v.active);
    FilterShorter(ps, keep);
    if exists i :: 0 <= i < |ps| && keep(ps[i]) {
      var i :| 0 <= i < |ps| && keep(ps[i]);
      assert ps[i] in out;
    }
    if out != [] {
      var k :| 0 <= k < |ps| && ps[k] == out[0];
      assert keep(ps[k]);
    }
  }
}
