/** The data-access functions over the "requests" collection (src/api/requests.ts), with the
    collection as a map from document id to stored fields. */
module RequestApi {
  import opened Wrappers
  import opened Types
  import opened Text
  import opened Seqs

  /** What a caller hands to `createRequest`. The type excludes `date` and `status`, but
      callers may still pass them; they are overwritten. */
  datatype RequestDraft = RequestDraft(
    name: string,
    email: string,
    phone: string,
    message: string,
    calculatorData: Option<CalculatorSnapshot>,
    date: Option<int>,
    status: Option<string>)

  /** The fields of a stored document. `idField` is an `id` written into the document itself,
      which only a partial update can put there. */
  datatype StoredRequest = StoredRequest(
    idField: Option<string>,
    name: string,
    email: string,
    phone: string,
    message: string,
    date: int,
    status: string,
    calculatorData: Option<CalculatorSnapshot>)

  /** A `Partial<CustomerRequest>`: only the present fields are written. */
  datatype RequestPatch = RequestPatch(
    id: Option<string>,
    name: Option<string>,
    email: Option<string>,
    phone: Option<string>,
    message: Option<string>,
    date: Option<int>,
    status: Option<string>,
    calculatorData: Option<CalculatorSnapshot>)

  /** The only patch the admin panel sends: `{ status }`. */
  function StatusPatch(status: string): RequestPatch
  {
    RequestPatch(None, None, None, None, None, None, Some(status), None)
  }

  /** `updateDoc` on an id with no document fails. */
  datatype StoreError = NoDocumentToUpdate(id: string)

  /** The document ids the store hands out, one per creation. */
  function DocId(n: nat): string
  {
    "req-" + NatToString(n)
  }

  lemma DocIdInjective(a: nat, b: nat)
    ensures DocId(a) == DocId(b) ==> a == b
  {
    if DocId(a) == DocId(b) {
      assert NatToString(a) == DocId(a)[4..];
      assert NatToString(b) == DocId(b)[4..];
      NatToStringInjective(a, b);
    }
  }

  /** `{ ...request, date: now, status: "new" }`: the fields written by `createRequest`. */
  function Stamp(d: RequestDraft, now: int): (s: StoredRequest)
    ensures s.status == "new" && s.date == now && s.idField == None
    ensures s.name == d.name && s.email == d.email && s.phone == d.phone && s.message == d.message
    ensures s.calculatorData == d.calculatorData
  {
    StoredRequest(None, d.name, d.email, d.phone, d.message, now, "new", d.calculatorData)
  }

  /** `{ ...fields, id }`: the returned id overrides any stored one. */
  function WithId(s: StoredRequest, id: string): CustomerRequest
  {
    CustomerRequest(id, s.name, s.email, s.phone, s.message, s.date, s.status, s.calculatorData)
  }

  /** `{ id: doc.id, ...doc.data() }`: an `id` stored in the document overrides the document id. */
  function Materialize(docId: string, s: StoredRequest): (r: CustomerRequest)
    ensures r.id == s.idField.GetOr(docId)
    ensures r == WithId(s, r.id)
  {
    CustomerRequest(s.idField.GetOr(docId), s.name, s.email, s.phone, s.message, s.date, s.status,
      s.calculatorData)
  }

  /** A fetched document that was created and never patched with an `id` reads back exactly as
      `createRequest` returned it. */
  lemma FetchAgreesWithCreate(d: RequestDraft, now: int, id: string)
    ensures Materialize(id, Stamp(d, now)) == WithId(Stamp(d, now), id)
  {
  }

  /** `updateDoc`: the fields present in the patch replace the stored ones. */
  function ApplyPatch(s: StoredRequest, p: RequestPatch): (r: StoredRequest)
    ensures p == RequestPatch(None, None, None, None, None, None, None, None) ==> r == s
    ensures p.id.Some? ==> r.idField == p.id
    ensures p.id.None? ==> r.idField == s.idField
    ensures p.name.Some? ==> r.name == p.name.value
    ensures p.name.None? ==> r.name == s.name
    ensures p.email.Some? ==> r.email == p.email.value
    ensures p.email.None? ==> r.email == s.email
    ensures p.phone.Some? ==> r.phone == p.phone.value
    ensures p.phone.None? ==> r.phone == s.phone
    ensures p.message.Some? ==> r.message == p.message.value
    ensures p.message.None? ==> r.message == s.message
    ensures p.date.Some? ==> r.date == p.date.value
    ensures p.date.None? ==> r.date == s.date
    ensures p.status.Some? ==> r.status == p.status.value
    ensures p.status.None? ==> r.status == s.status
    ensures p.calculatorData.Some? ==> r.calculatorData == p.calculatorData
    ensures p.calculatorData.None? ==> r.calculatorData == s.calculatorData
  {
    StoredRequest(
      if p.id.Some? then p.id else s.idField,
      p.name.GetOr(s.name),
      p.email.GetOr(s.email),
      p.phone.GetOr(s.phone),
      p.message.GetOr(s.message),
      p.date.GetOr(s.date),
      p.status.GetOr(s.status),
      if p.calculatorData.Some? then p.calculatorData else s.calculatorData)
  }

  /** Sending the same patch twice leaves the document as sending it once. */
  lemma ApplyPatchIdempotent(s: StoredRequest, p: RequestPatch)
    ensures ApplyPatch(ApplyPatch(s, p), p) == ApplyPatch(s, p)
  {
  }

  /** A status patch rewrites the status and nothing else. */
  lemma StatusPatchChangesOnlyStatus(s: StoredRequest, status: string)
    ensures ApplyPatch(s, StatusPatch(status)) == s.(status := status)
  {
  }

  /** The "requests" collection. */
  class RequestStore {
    var docs: map<string, StoredRequest>
    var nextId: nat

    /** No id the store will still hand out is taken. */
    ghost predicate Valid()
      reads this
    {
      forall n: nat :: n >= nextId ==> DocId(n) !in docs
    }

    constructor ()
      ensures Valid() && docs == map[]
    {
      docs := map[];
      nextId := 0;
    }

    /** `createRequest`: a new document under a fresh id, dated `now`, with status "new". */
    method Create(d: RequestDraft, now: int) returns (r: CustomerRequest)
      requires Valid()
      modifies this
      ensures Valid()
      ensures r.id !in old(docs)
      ensures docs == old(docs)[r.id := Stamp(d, now)]
      ensures r == WithId(Stamp(d, now), r.id)
      ensures r.status == "new" && r.date == now
    {
      var id := DocId(nextId);
      var stored := Stamp(d, now);
      docs := docs[id := stored];
      forall n: nat | n >= nextId + 1 ensures DocId(n) !in docs {
        DocIdInjective(n, nextId);
      }
      nextId := nextId + 1;
      r := WithId(stored, id);
    }

    /** `editRequest`: patches an existing document and returns the patch with the id, not the
        merged document; a missing document is an error and nothing changes. */
    method Edit(id: string, p: RequestPatch) returns (res: Result<RequestPatch, StoreError>)
      requires Valid()
      modifies this
      ensures Valid() && nextId == old(nextId)
      ensures id in old(docs) ==>
        res == Ok(p.(id := Some(id))) && docs == old(docs)[id := ApplyPatch(old(docs)[id], p)]
      ensures id !in old(docs) ==> res == Err(NoDocumentToUpdate(id)) && docs == old(docs)
    {
      if id in docs {
        docs := docs[id := ApplyPatch(docs[id], p)];
        res := Ok(p.(id := Some(id)));
      } else {
        res := Err(NoDocumentToUpdate(id));
      }
    }

    /** `removeRequest`: deleting succeeds whether or not the document exists. */
    method Remove(id: string) returns (ok: bool)
      requires Valid()
      modifies this
      ensures Valid() && nextId == old(nextId)
      ensures ok
      ensures docs == old(docs) - {id}
    {
      docs := docs - {id};
      ok := true;
    }

    /** `fetchRequests`: one record per document, in the order the ids are listed. */
    method Fetch() returns (ids: seq<string>, rs: seq<CustomerRequest>)
      ensures |ids| == |rs| == |docs|
      ensures NoDup(ids)
      ensures forall k :: k in docs <==> k in ids
      ensures forall i :: 0 <= i < |ids| ==> ids[i] in docs && rs[i] == Materialize(ids[i], docs[ids[i]])
    {
      var rest := docs.Keys;
      ids, rs := [], [];
      while rest != {}
        invariant rest <= docs.Keys
        invariant |ids| == |rs| && |ids| + |rest| == |docs.Keys|
        invariant NoDup(ids)
        invariant forall k :: k in docs ==> (k in ids <==> k !in rest)
        invariant forall i :: 0 <= i < |ids| ==> ids[i] in docs && rs[i] == Materialize(ids[i], docs[ids[i]])
        decreases |rest|
      {
        var k :| k in rest;
        ids, rs := ids + [k], rs + [Materialize(k, docs[k])];
        rest := rest - {k};
      }
    }
  }
}
