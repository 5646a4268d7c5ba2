/** The admin list of customer requests (src/components/admin/RequestManagement.tsx): search,
    newest-first ordering, status changes, deletion and the spreadsheet rows. */
module RequestManagement {
  import opened Wrappers
  import opened Types
  import opened Text
  import opened Seqs
  import opened Labels
  import opened RequestApi

  /** The search test: the lower-cased query occurs in the lower-cased name, email, phone or
      message. */
  predicate RequestMatches(r: CustomerRequest, query: string)
  {
    var q := Lower(query);
    Contains(Lower(r.name), q) || Contains(Lower(r.email), q)
    || Contains(Lower(r.phone), q) || Contains(Lower(r.message), q)
  }

  function Matching(query: string): CustomerRequest -> bool
  {
    (r: CustomerRequest) => RequestMatches(r, query)
  }

  /** Every request matches the empty query. */
  lemma EmptyQueryMatchesAll(r: CustomerRequest)
    ensures RequestMatches(r, "")
  {
    ContainsEmpty(Lower(r.name));
  }

  predicate NewestFirst(rs: seq<CustomerRequest>)
  {
    forall i, j :: 0 <= i < j < |rs| ==> rs[i].date >= rs[j].date
  }

  /** A request at least as new as every request of a newest-first list can go in front. */
  lemma ConsNewestFirst(x: CustomerRequest, rs: seq<CustomerRequest>)
    requires NewestFirst(rs)
    requires forall i :: 0 <= i < |rs| ==> x.date >= rs[i].date
    ensures NewestFirst([x] + rs)
  {
    var out := [x] + rs;
    forall i, j | 0 <= i < j < |out| ensures out[i].date >= out[j].date {
      assert out[j] == rs[j - 1];
      if i > 0 {
        assert out[i] == rs[i - 1];
      }
    }
  }

  /** The head of a newest-first list is at least as new as anything drawn from its tail or
      older than it. */
  lemma HeadIsNewest(r: CustomerRequest, sorted: seq<CustomerRequest>, rest: seq<CustomerRequest>)
    requires NewestFirst(sorted) && sorted != [] && sorted[0].date > r.date
    requires forall i :: 0 <= i < |rest| ==> rest[i] == r || rest[i] in sorted[1..]
    ensures forall i :: 0 <= i < |rest| ==> sorted[0].date >= rest[i].date
  {
    forall i | 0 <= i < |rest| ensures sorted[0].date >= rest[i].date {
      if rest[i] != r {
        var k :| 0 <= k < |sorted[1..]| && sorted[1..][k] == rest[i];
        assert sorted[k + 1] == rest[i];
      }
    }
  }

  /** Puts `r` in front of the first request that is not newer than it. */
  function InsertByDate(r: CustomerRequest, sorted: seq<CustomerRequest>): (out: seq<CustomerRequest>)
    requires NewestFirst(sorted)
    ensures |out| == |sorted| + 1
    ensures forall i :: 0 <= i < |out| ==> out[i] == r || out[i] in sorted
    ensures NewestFirst(out)
    ensures multiset(out) == multiset(sorted) + multiset{r}
  {
    if sorted == [] || sorted[0].date <= r.date then
      ConsNewestFirst(r, sorted);
      [r] + sorted
    else
      var rest := InsertByDate(r, sorted[1..]);
      HeadIsNewest(r, sorted, rest);
      ConsNewestFirst(sorted[0], rest);
      assert sorted == [sorted[0]] + sorted[1..];
      [sorted[0]] + rest
  }

  /** `sort((a, b) => b.date - a.date)`: newest first, as a permutation of the input. */
  function SortNewestFirst(rs: seq<CustomerRequest>): (out: seq<CustomerRequest>)
    ensures NewestFirst(out)
    ensures multiset(out) == multiset(rs)
  {
    if rs == [] then []
    else
      assert rs == [rs[0]] + rs[1..];
      InsertByDate(rs[0], SortNewestFirst(rs[1..]))
  }

  function DatedOn(d: int): CustomerRequest -> bool
  {
    (r: CustomerRequest) => r.date == d
  }

  /** A request placed in front of an older one comes after nothing of its own date. */
  lemma DateOrderStep(head: CustomerRequest, r: CustomerRequest, rest: seq<CustomerRequest>,
                      tail: seq<CustomerRequest>, d: int)
    requires head.date > r.date
    requires Filter(rest, DatedOn(d)) == (if r.date == d then [r] else []) + Filter(tail, DatedOn(d))
    ensures Filter([head] + rest, DatedOn(d))
      == (if r.date == d then [r] else []) + Filter([head] + tail, DatedOn(d))
  {
    var keep := DatedOn(d);
    var mine: seq<CustomerRequest> := if r.date == d then [r] else [];
    var theirs: seq<CustomerRequest> := if keep(head) then [head] else [];
    FilterCons(head, rest, keep);
    FilterCons(head, tail, keep);
    if r.date == d {
      assert theirs == [];
      assert Filter([head] + rest, keep) == Filter(rest, keep);
      assert Filter([head] + tail, keep) == Filter(tail, keep);
    } else {
      assert mine == [];
      assert Filter(rest, keep) == Filter(tail, keep);
    }
  }

  /** Insertion keeps the inserted request ahead of the requests of its own date. */
  lemma {:induction false} InsertKeepsDateOrder(r: CustomerRequest, sorted: seq<CustomerRequest>, d: int)
    requires NewestFirst(sorted)
    ensures Filter(InsertByDate(r, sorted), DatedOn(d))
      == (if r.date == d then [r] else []) + Filter(sorted, DatedOn(d))
    decreases |sorted|
  {
    var keep := DatedOn(d);
    var mine: seq<CustomerRequest> := if r.date == d then [r] else [];
    var out := InsertByDate(r, sorted);
    if sorted == [] || sorted[0].date <= r.date {
      assert out == [r] + sorted;
      assert Filter(out, keep) == mine + Filter(sorted, keep) by {
        FilterCons(r, sorted, keep);
        assert keep(r) <==> r.date == d;
      }
    } else {
      var head, tail := sorted[0], sorted[1..];
      var rest := InsertByDate(r, tail);
      assert out == [head] + rest;
      assert sorted == [head] + tail;
      assert Filter(rest, keep) == mine + Filter(tail, keep) by {
        InsertKeepsDateOrder(r, tail, d);
      }
      DateOrderStep(head, r, rest, tail, d);
    }
  }

  /** The sort is stable: requests of the same date keep their order in the list. */
  lemma {:induction false} SortKeepsDateOrder(rs: seq<CustomerRequest>, d: int)
    ensures Filter(SortNewestFirst(rs), DatedOn(d)) == Filter(rs, DatedOn(d))
    decreases |rs|
  {
    if rs != [] {
      SortKeepsDateOrder(rs[1..], d);
      InsertKeepsDateOrder(rs[0], SortNewestFirst(rs[1..]), d);
    }
  }

  /** `filteredRequests`: the matching requests, newest first. */
  function FilteredRequests(rs: seq<CustomerRequest>, query: string): (out: seq<CustomerRequest>)
    ensures NewestFirst(out)
    ensures multiset(out) == multiset(Filter(rs, Matching(query)))
    ensures forall r :: r in out <==> r in rs && RequestMatches(r, query)
  {
    var kept := Filter(rs, Matching(query));
    var out := SortNewestFirst(kept);
    assert forall r :: r in out <==> r in kept by {
      forall r ensures r in out <==> r in kept {
        assert r in out <==> r in multiset(out);
        assert r in kept <==> r in multiset(kept);
      }
    }
    out
  }

  /** With an empty query the list holds every request, newest first. */
  lemma EmptyQueryKeepsAll(rs: seq<CustomerRequest>)
    ensures multiset(FilteredRequests(rs, "")) == multiset(rs)
  {
    forall i | 0 <= i < |rs| ensures Matching("")(rs[i]) {
      EmptyQueryMatchesAll(rs[i]);
    }
    FilterAll(rs, Matching(""));
  }

  /** The `map` in `handleStatusChange`: the request with that id gets the new status. */
  function SetStatusById(rs: seq<CustomerRequest>, id: string, status: string): (out: seq<CustomerRequest>)
    ensures |out| == |rs|
    ensures forall i :: 0 <= i < |rs| && rs[i].id != id ==> out[i] == rs[i]
    ensures forall i :: 0 <= i < |rs| && rs[i].id == id ==> out[i] == rs[i].(status := status)
  {
    seq(|rs|, i requires 0 <= i < |rs| => if rs[i].id == id then rs[i].(status := status) else rs[i])
  }

  /** The list change mirrors the stored change: re-reading the patched document gives the
      list entry with the new status. */
  lemma StatusChangeMatchesStore(docId: string, s: StoredRequest, status: string)
    ensures Materialize(docId, ApplyPatch(s, StatusPatch(status)))
      == Materialize(docId, s).(status := status)
  {
  }

  /** The key `handleDeleteRequest` filters on. */
  function RequestKey(r: CustomerRequest): string
  {
    r.id
  }

  /** One row of the spreadsheet export. The date column is kept as the timestamp; its
      locale formatting is not modelled. */
  datatype ExportRow = ExportRow(
    id: string,
    client: string,
    email: string,
    phone: string,
    message: string,
    date: int,
    status: string,
    product: string,
    size: string,
    area: string,
    windowType: string,
    material: string,
    glazing: string,
    features: string,
    quantity: string)

  /** The row `exportToExcel` builds for one request. */
  function ExportRowOf(r: CustomerRequest): (row: ExportRow)
    ensures row.id == r.id && row.client == r.name && row.date == r.date
    ensures row.email == r.email && row.phone == r.phone && row.message == r.message
    ensures row.status == StatusLabel(r.status)
    ensures r.calculatorData.None? ==>
      row.product == "-" && row.size == "-" && row.area == "-" && row.windowType == "-"
      && row.material == "-" && row.glazing == "-" && row.features == "-" && row.quantity == "-"
    ensures r.calculatorData.Some? ==>
      var c := r.calculatorData.value.config;
      && row.product == ProductText(c.selectedProduct)
      && row.size == IntToString(c.width) + " × " + IntToString(c.height) + " см"
      && row.area == AreaLine(r.calculatorData.value.area)
      && (row.area == "-" <==> r.calculatorData.value.area == "")
      && row.features == FeaturesText(c.additionalFeatures)
      && (c.additionalFeatures == [] ==> row.features == "-")
      && row.quantity == QuantityText(c.quantity)
      && (row.quantity == "-" <==> c.quantity == 0)
      && row.windowType == WindowTypeLabel(c.windowType)
      && row.material == MaterialLabel(c.material)
      && row.glazing == GlazingLabel(c.glazingType)
  {
    var cd := r.calculatorData;
    ExportRow(
      r.id, r.name, r.email, r.phone, r.message, r.date, StatusLabel(r.status),
      if cd.Some? then ProductText(cd.value.config.selectedProduct) else "-",
      if cd.Some?
      then IntToString(cd.value.config.width) + " × " + IntToString(cd.value.config.height) + " см"
      else "-",
      if cd.Some? then AreaLine(cd.value.area) else "-",
      if cd.Some? then WindowTypeLabel(cd.value.config.windowType) else "-",
      if cd.Some? then MaterialLabel(cd.value.config.material) else "-",
      if cd.Some? then GlazingLabel(cd.value.config.glazingType) else "-",
      if cd.Some? then FeaturesText(cd.value.config.additionalFeatures) else "-",
      if cd.Some? then QuantityText(cd.value.config.quantity) else "-")
  }

  /** The admin view's state. */
  class RequestPanel {
    var requests: seq<CustomerRequest>
    var current: Option<CustomerRequest>
    var query: string

    constructor ()
      ensures requests == [] && current == None && query == ""
    {
      requests := [];
      current := None;
      query := "";
    }

    /** The list on screen. */
    function Visible(): seq<CustomerRequest>
      reads this
    {
      FilteredRequests(requests, query)
    }

    /** The rows exported: one per visible request, in the visible order. */
    function ExportRows(): (rows: seq<ExportRow>)
      reads this
      ensures |rows| == |Visible()|
      ensures forall i :: 0 <= i < |rows| ==> rows[i] == ExportRowOf(Visible()[i])
    {
      var v := Visible();
      seq(|v|, i requires 0 <= i < |v| => ExportRowOf(v[i]))
    }

    /** The mount effect: the list becomes what the store returns. */
    method Load(store: RequestStore) returns (ids: seq<string>)
      modifies this
      ensures query == old(query) && current == old(current)
      ensures |ids| == |requests| == |store.docs| && NoDup(ids)
      ensures forall k :: k in store.docs <==> k in ids
      ensures forall i :: 0 <= i < |ids| ==>
        ids[i] in store.docs && requests[i] == Materialize(ids[i], store.docs[ids[i]])
    {
      var rs;
      ids, rs := store.Fetch();
      requests := rs;
    }

    method Search(q: string)
      modifies this
      ensures query == q && requests == old(requests) && current == old(current)
    {
      query := q;
    }

    /** `openViewDialog` / `openDeleteDialog`. */
    method Open(r: CustomerRequest)
      modifies this
      ensures current == Some(r) && requests == old(requests) && query == old(query)
    {
      current := Some(r);
    }

    /** `handleStatusChange`: after the store accepts `{ status }`, the list entry with that id
        and the open request, if it is that one, get the new status. If the store rejects the
        update, nothing changes. */
    method ChangeStatus(store: RequestStore, id: string, status: string)
      requires store.Valid() && IsStatus(status)
      modifies this, store
      ensures store.Valid() && query == old(query)
      ensures id in old(store.docs) ==>
        && store.docs == old(store.docs)[id := old(store.docs)[id].(status := status)]
        && requests == SetStatusById(old(requests), id, status)
        && current == if old(current).Some? && old(current).value.id == id
                      then Some(old(current).value.(status := status)) else old(current)
      ensures id !in old(store.docs) ==>
        store.docs == old(store.docs) && requests == old(requests) && current == old(current)
    {
      var res := store.Edit(id, StatusPatch(status));
      if res.Ok? {
        StatusPatchChangesOnlyStatus(old(store.docs)[id], status);
        requests := SetStatusById(requests, id, status);
        if current.Some? && current.value.id == id {
          current := Some(current.value.(status := status));
        }
      }
    }

    /** `handleDeleteRequest`: removes the open request from the store and from the list, then
        closes it; with no open request nothing happens. */
    method DeleteCurrent(store: RequestStore)
      requires store.Valid()
      modifies this, store
      ensures store.Valid() && query == old(query)
      ensures old(current).None? ==>
        store.docs == old(store.docs) && requests == old(requests) && current == None
      ensures old(current).Some? ==>
        && store.docs == old(store.docs) - {old(current).value.id}
        && requests == RemoveByKey(old(requests), RequestKey, old(current).value.id)
        && current == None
    {
      if current.None? {
        return;
      }
      var id := current.value.id;
      var ok := store.Remove(id);
      if ok {
        requests := RemoveByKey(requests, RequestKey, id);
      }
      current := None;
    }
  }
}
