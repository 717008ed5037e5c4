/** `StoreModel`: one Firestore collection, held as a map from document id to
    fields, and the operations that read and change it. Every operation
    resolves to a `QueryReturn`; a `fault` argument says whether the Firestore
    library throws during the call (a failed read or write, a rejected filter
    or document path), which the operation catches. */
module Store {
  import opened Datatypes
  import opened Filters

  /** `{...doc, reference: id}`: the fields read back, with the id attached. */
  function WithReference(doc: Record, id: string): (r: Record)
    ensures r.Keys == doc.Keys + {Reference}
    ensures r[Reference] == Str(id)
    ensures forall k :: k in doc && k != Reference ==> r[k] == doc[k]
  {
    doc[Reference := Str(id)]
  }

  /** The envelope `find` resolves with for a document that exists. */
  function Found(docs: map<string, Record>, id: string): QueryReturn
    requires id in docs
  {
    QueryReturn(Success, "Document found", DocData(WithReference(docs[id], id)))
  }

  /** `ids` lists every document id of the collection once, in some order. */
  predicate Enumerates(ids: seq<string>, docs: map<string, Record>) {
    && |ids| == |docs|
    && (forall i :: 0 <= i < |ids| ==> ids[i] in docs)
    && (forall k :: k in docs ==> k in ids)
    && (forall i, j :: 0 <= i < j < |ids| ==> ids[i] != ids[j])
  }

  /** `snapshot.docs.map(d => ({...d.data(), reference: d.id}))` */
  function Referenced(docs: map<string, Record>, ids: seq<string>): (recs: seq<Record>)
    requires forall i :: 0 <= i < |ids| ==> ids[i] in docs
    ensures |recs| == |ids|
  {
    seq(|ids|, i requires 0 <= i < |ids| => WithReference(docs[ids[i]], ids[i]))
  }

  /** Distinct ids give distinct records, since each carries its own id. */
  lemma ReferencedDistinct(docs: map<string, Record>, ids: seq<string>)
    requires forall i :: 0 <= i < |ids| ==> ids[i] in docs
    requires forall i, j :: 0 <= i < j < |ids| ==> ids[i] != ids[j]
    ensures forall i, j :: 0 <= i < j < |ids| ==> Referenced(docs, ids)[i] != Referenced(docs, ids)[j]
  {
    var recs := Referenced(docs, ids);
    forall i, j | 0 <= i < j < |ids|
      ensures recs[i] != recs[j]
    {
      assert recs[i][Reference] == Str(ids[i]);
      assert recs[j][Reference] == Str(ids[j]);
    }
  }

  /** `rec` is a document `f` matches, with its id attached. */
  predicate MatchedDoc(docs: map<string, Record>, f: Filter, rec: Record) {
    exists id :: id in docs && Eval(f, docs[id]) && rec == WithReference(docs[id], id)
  }

  /** Every matching document is in the listing of the selected ids. */
  lemma MatchingComplete(docs: map<string, Record>, ids: seq<string>, f: Filter)
    requires Enumerates(ids, docs)
    ensures forall id :: id in docs && Eval(f, docs[id]) ==>
      WithReference(docs[id], id) in Referenced(docs, Selected(docs, ids, f))
  {
    var sel := Selected(docs, ids, f);
    var recs := Referenced(docs, sel);
    forall id | id in docs && Eval(f, docs[id])
      ensures WithReference(docs[id], id) in recs
    {
      assert id in ids;
      var j :| 0 <= j < |sel| && sel[j] == id;
      assert recs[j] == WithReference(docs[id], id);
    }
  }

  /** Every record in the listing of the selected ids is a matching document. */
  lemma MatchingSound(docs: map<string, Record>, ids: seq<string>, f: Filter)
    requires Enumerates(ids, docs)
    ensures var recs := Referenced(docs, Selected(docs, ids, f));
      forall i :: 0 <= i < |recs| ==> MatchedDoc(docs, f, recs[i])
  {
    var sel := Selected(docs, ids, f);
    var recs := Referenced(docs, sel);
    forall i | 0 <= i < |recs|
      ensures MatchedDoc(docs, f, recs[i])
    {
      var id := sel[i];
      assert id in docs && Eval(f, docs[id]);
      assert recs[i] == WithReference(docs[id], id);
    }
  }

  /** The listing of the selected ids is empty exactly when nothing matches. */
  lemma MatchingEmpty(docs: map<string, Record>, ids: seq<string>, f: Filter)
    requires Enumerates(ids, docs)
    ensures Referenced(docs, Selected(docs, ids, f)) == [] <==> forall id :: id in docs ==> !Eval(f, docs[id])
  {
    var recs := Referenced(docs, Selected(docs, ids, f));
    MatchingComplete(docs, ids, f);
    if recs != [] {
      MatchingSound(docs, ids, f);
      assert MatchedDoc(docs, f, recs[0]);
    }
  }

  /** `recs` is what fetching the whole collection gives: every document once,
      each with its own id attached. Firestore's order (by id) is not modelled. */
  ghost predicate IsListing(docs: map<string, Record>, recs: seq<Record>) {
    exists ids :: Enumerates(ids, docs) && recs == Referenced(docs, ids)
  }

  /** The envelopes `findAll(ids)` keeps: the `find` result of every id, in
      input order, that came back with data. Position `i` is in `readFaults`
      when the read of `ids[i]` throws; `find` catches it and returns no data. */
  function Kept(docs: map<string, Record>, ids: seq<string>, readFaults: set<nat>): (r: seq<QueryReturn>)
    ensures |r| <= |ids|
    ensures forall i :: 0 <= i < |r| ==> r[i].status == Success && r[i].data.DocData?
    decreases |ids|
  {
    if ids == [] then []
    else
      var n := |ids| - 1;
      Kept(docs, ids[..n], readFaults)
        + (if n !in readFaults && ids[n] in docs then [Found(docs, ids[n])] else [])
  }

  /** The ids of `ids` whose stored document `f` matches, in order. */
  function Selected(docs: map<string, Record>, ids: seq<string>, f: Filter): (r: seq<string>)
    requires forall i :: 0 <= i < |ids| ==> ids[i] in docs
    ensures forall i :: 0 <= i < |r| ==> r[i] in ids && r[i] in docs && Eval(f, docs[r[i]])
    ensures forall id :: id in ids && Eval(f, docs[id]) ==> id in r
    ensures (forall i, j :: 0 <= i < j < |ids| ==> ids[i] != ids[j]) ==>
      forall i, j :: 0 <= i < j < |r| ==> r[i] != r[j]
    decreases |ids|
  {
    if ids == [] then []
    else
      var n := |ids| - 1;
      var init := ids[..n];
      assert forall id :: id in ids ==> id in init || id == ids[n];
      assert forall id :: id in init ==> id in ids;
      assert (forall i, j :: 0 <= i < j < |ids| ==> ids[i] != ids[j]) ==> ids[n] !in init;
      Selected(docs, init, f) + (if Eval(f, docs[ids[n]]) then [ids[n]] else [])
  }

  /** What `findWhere` evidently means to return: the documents every clause
      matches, each with its id attached. */
  predicate WhereSelects(ws: Option<seq<WhereClause>>, doc: Record) {
    ws.Some? ==> forall i :: 0 <= i < |ws.value| ==> Holds(ws.value[i], doc)
  }

  /** What `findWhereOrAnd` evidently means to return: the documents the
      filter built from `wh` matches, every document when there is none. */
  predicate OrAndSelects(wh: Option<AndOrWhere>, doc: Record) {
    wh.Some? ==> Eval(BuildWhereOrAnd(wh.value), doc)
  }

  /** Atomic `FieldValue.increment(delta)` on field `key`: a missing or
      non-numeric field is set to `delta`. */
  function Bump(doc: Record, key: string, delta: int): (r: Record)
    ensures r.Keys == doc.Keys + {key}
    ensures forall k :: k in doc && k != key ==> r[k] == doc[k]
    ensures key in doc && doc[key].Num? ==> r[key] == Num(doc[key].n + delta)
    ensures !(key in doc && doc[key].Num?) ==> r[key] == Num(delta)
  {
    if key in doc && doc[key].Num? then doc[key := Num(doc[key].n + delta)]
    else doc[key := Num(delta)]
  }

  /** `isIncrement ? incrementalValue ?? 1 : (incrementalValue ?? 1) * -1`:
      only a present `true` increments. */
  function Delta(isIncrement: Option<bool>, incrementalValue: Option<int>): (d: int)
    ensures isIncrement == Some(true) ==> d == incrementalValue.GetOr(1)
    ensures isIncrement != Some(true) ==> d == -incrementalValue.GetOr(1)
    ensures incrementalValue.None? ==> d == 1 || d == -1
  {
    var step := incrementalValue.GetOr(1);
    if isIncrement == Some(true) then step else step * -1
  }

  /** `findWhereOrAnd` with type 'or' or 'and' assigns the bare filter to
      `queryRef`, which has no `orderBy`, `startAfter` or `limit`: calling any
      of them throws. */
  predicate FilterUsedAsQuery(wh: Option<AndOrWhere>, lim: Option<int>, order: Option<string>, offset: Option<string>) {
    && wh.Some?
    && wh.value.kind != CombineAndOr
    && (TruthyString(order) || TruthyString(offset) || TruthyNumber(lim))
  }

  const NotImplemented: string := "Method not implemented."

  /** The caller's `data` object, which `save` and `update` change in place. */
  class DocObject {
    var fields: Record

    constructor (fields: Record)
      ensures this.fields == fields
    {
      this.fields := fields;
    }
  }

  class StoreModel {
    /** The collection name `_table` is bound to. */
    const table: string
    /** The documents of that collection. */
    var docs: map<string, Record>

    constructor (table: string, existing: map<string, Record>)
      ensures this.table == table && docs == existing
    {
      this.table := table;
      docs := existing;
    }

    /** `this._table.get()` followed by the reference merge. */
    method FetchAll() returns (recs: seq<Record>)
      ensures IsListing(docs, recs)
      ensures recs == [] <==> docs == map[]
    {
      ghost var some := EnumerationExists(docs);
      var ids: seq<string> :| Enumerates(ids, docs);
      assert Enumerates(ids, docs);
      recs := Referenced(docs, ids);
      assert docs != map[] ==> exists k :: k in docs;
    }

    method Find(id: string, fault: bool) returns (r: QueryReturn)
      ensures fault ==> r == QueryReturn(Error, "Document does not exist", NoData)
      ensures !fault && id in docs ==>
        r == QueryReturn(Success, "Document found", DocData(WithReference(docs[id], id)))
      ensures !fault && id !in docs ==> r == QueryReturn(Success, "Document does not exist", NoData)
    {
      if fault {
        return QueryReturn(Error, "Document does not exist", NoData);
      }
      if id in docs {
        r := Found(docs, id);
      } else {
        r := QueryReturn(Success, "Document does not exist", NoData);
      }
    }

    method FindAll(ids: Option<seq<string>>, readFaults: set<nat>, fault: bool) returns (r: QueryReturn)
      ensures ids.Some? ==>
        r == QueryReturn(Success, "Documents found", EnvelopesData(Kept(docs, ids.value, readFaults)))
      ensures ids.None? && fault ==> r == QueryReturn(Error, "Document does not exist", NoData)
      ensures ids.None? && !fault && docs == map[] ==> r == QueryReturn(Success, "Documents empty", NoData)
      ensures ids.None? && !fault && docs != map[] ==>
        && r.status == Success && r.message == "Documents found"
        && r.data.DocsData? && IsListing(docs, r.data.docs)
    {
      if ids.Some? {
        var results: seq<QueryReturn> := [];
        var i := 0;
        while i < |ids.value|
          invariant 0 <= i <= |ids.value|
          invariant results == Kept(docs, ids.value[..i], readFaults)
        {
          assert ids.value[..i + 1][..i] == ids.value[..i];
          var item := Find(ids.value[i], i in readFaults);
          if item.data != NoData {
            results := results + [item];
          }
          i := i + 1;
        }
        assert ids.value[..i] == ids.value;
        return QueryReturn(Success, "Documents found", EnvelopesData(results));
      }
      if fault {
        return QueryReturn(Error, "Document does not exist", NoData);
      }
      var data := FetchAll();
      if data != [] {
        r := QueryReturn(Success, "Documents found", DocsData(data));
      } else {
        r := QueryReturn(Success, "Documents empty", NoData);
      }
    }

    /** The filter is built and then discarded: the fetch reads `this._table`. */
    method FindWhereOrAnd(wh: Option<AndOrWhere>, lim: Option<int>, order: Option<string>,
                          offset: Option<string>, fault: bool) returns (r: QueryReturn)
      ensures r.status == Error <==> fault || FilterUsedAsQuery(wh, lim, order, offset)
      ensures r.status == Error ==> r == QueryReturn(Error, "No Documents found", NoData)
      ensures r.status == Success && docs == map[] ==> r == QueryReturn(Success, "No Documents found", NoData)
      ensures r.status == Success && docs != map[] ==>
        r.message == "Documents found" && r.data.DocsData? && IsListing(docs, r.data.docs)
    {
      if wh.Some? {
        var andWhere, orWhere := Partition(wh.value.parameter);
        var query :=
          match wh.value.kind
          case CombineAndOr => All(andWhere + [Any(orWhere)])
          case CombineOr => Any(orWhere)
          case CombineAnd => All(andWhere);
        assert query == BuildWhereOrAnd(wh.value);
      }
      if fault || FilterUsedAsQuery(wh, lim, order, offset) {
        return QueryReturn(Error, "No Documents found", NoData);
      }
      var data := FetchAll();
      if data != [] {
        r := QueryReturn(Success, "Documents found", DocsData(data));
      } else {
        r := QueryReturn(Success, "No Documents found", NoData);
      }
    }

    /** The conjunction is built and then discarded: the fetch reads `this._table`. */
    method FindWhere(wh: Option<seq<WhereClause>>, lim: Option<int>, order: Option<string>,
                     offset: Option<string>, fault: bool) returns (r: QueryReturn)
      ensures r.status == Error <==> fault
      ensures fault ==> r == QueryReturn(Error, "No Documents found", NoData)
      ensures !fault && docs == map[] ==> r == QueryReturn(Success, "No Documents found", NoData)
      ensures !fault && docs != map[] ==>
        && r.status == Success && r.message == "Documents found"
        && r.data.DocsData? && IsListing(docs, r.data.docs)
    {
      if wh.Some? {
        var andWhere := Conjuncts(wh.value);
        var query := All(andWhere);
        assert query == BuildWhere(wh.value);
      }
      if fault {
        return QueryReturn(Error, "No Documents found", NoData);
      }
      var data := FetchAll();
      if data != [] {
        r := QueryReturn(Success, "Documents found", DocsData(data));
      } else {
        r := QueryReturn(Success, "No Documents found", NoData);
      }
    }

    /** The fetch of a built query: the documents `query` matches, each once
        and with its id attached, in some order. */
    method FetchMatching(query: Filter) returns (recs: seq<Record>)
      ensures forall id :: id in docs && Eval(query, docs[id]) ==> WithReference(docs[id], id) in recs
      ensures forall i :: 0 <= i < |recs| ==> MatchedDoc(docs, query, recs[i])
      ensures forall i, j :: 0 <= i < j < |recs| ==> recs[i] != recs[j]
      ensures recs == [] <==> forall id :: id in docs ==> !Eval(query, docs[id])
    {
      ghost var some := EnumerationExists(docs);
      var ids: seq<string> :| Enumerates(ids, docs);
      assert Enumerates(ids, docs);
      recs := Referenced(docs, Selected(docs, ids, query));
      MatchingComplete(docs, ids, query);
      MatchingSound(docs, ids, query);
      ReferencedDistinct(docs, Selected(docs, ids, query));
      MatchingEmpty(docs, ids, query);
    }

    /** `findWhere` fetching the conjunction it builds instead of the whole
        collection. */
    method FindWhereFiltered(wh: Option<seq<WhereClause>>, fault: bool) returns (r: QueryReturn)
      ensures r.status == Error <==> fault
      ensures fault ==> r == QueryReturn(Error, "No Documents found", NoData)
      ensures !fault && (forall id :: id in docs ==> !WhereSelects(wh, docs[id])) ==>
        r == QueryReturn(Success, "No Documents found", NoData)
      ensures !fault && (exists id :: id in docs && WhereSelects(wh, docs[id])) ==>
        && r.status == Success && r.message == "Documents found" && r.data.DocsData?
        && (forall id :: id in docs && WhereSelects(wh, docs[id]) ==> WithReference(docs[id], id) in r.data.docs)
        && (forall d :: d in r.data.docs ==>
              exists id :: id in docs && WhereSelects(wh, docs[id]) && d == WithReference(docs[id], id))
        && (forall i, j :: 0 <= i < j < |r.data.docs| ==> r.data.docs[i] != r.data.docs[j])
    {
      var query := if wh.Some? then BuildWhere(wh.value) else All([]);
      forall doc: Record
        ensures Eval(query, doc) <==> WhereSelects(wh, doc)
      {
        if wh.Some? {
          BuildWhereMeaning(wh.value, doc);
        }
      }
      if fault {
        return QueryReturn(Error, "No Documents found", NoData);
      }
      var data := FetchMatching(query);
      if data != [] {
        r := QueryReturn(Success, "Documents found", DocsData(data));
      } else {
        r := QueryReturn(Success, "No Documents found", NoData);
      }
    }

    /** `findWhereOrAnd` fetching `this._table.where(filter)` with the filter it
        builds, for every combinator, instead of the whole collection: only a
        fault gives `error`. */
    method FindWhereOrAndFiltered(wh: Option<AndOrWhere>, fault: bool) returns (r: QueryReturn)
      ensures r.status == Error <==> fault
      ensures fault ==> r == QueryReturn(Error, "No Documents found", NoData)
      ensures !fault && (forall id :: id in docs ==> !OrAndSelects(wh, docs[id])) ==>
        r == QueryReturn(Success, "No Documents found", NoData)
      ensures !fault && (exists id :: id in docs && OrAndSelects(wh, docs[id])) ==>
        && r.status == Success && r.message == "Documents found" && r.data.DocsData?
        && (forall id :: id in docs && OrAndSelects(wh, docs[id]) ==> WithReference(docs[id], id) in r.data.docs)
        && (forall d :: d in r.data.docs ==>
              exists id :: id in docs && OrAndSelects(wh, docs[id]) && d == WithReference(docs[id], id))
        && (forall i, j :: 0 <= i < j < |r.data.docs| ==> r.data.docs[i] != r.data.docs[j])
    {
      if fault {
        return QueryReturn(Error, "No Documents found", NoData);
      }
      var query := if wh.Some? then BuildWhereOrAnd(wh.value) else All([]);
      assert forall doc: Record :: Eval(query, doc) == OrAndSelects(wh, doc);
      var data := FetchMatching(query);
      if data != [] {
        r := QueryReturn(Success, "Documents found", DocsData(data));
      } else {
        r := QueryReturn(Success, "No Documents found", NoData);
      }
    }

    /** Upsert. `reference` is removed from the caller's object first, whatever
        happens to the write; without an id the store picks a fresh one. */
    method Save(data: DocObject, id: Option<string>, fault: bool) returns (r: QueryReturn)
      modifies this, data
      ensures data.fields == old(data.fields) - {Reference}
      ensures fault ==> r == QueryReturn(Error, "Unable to save document", NoData) && docs == old(docs)
      ensures !fault && id.None? ==>
        && r.status == Success && r.message == "Document added successfully!"
        && r.data.IdData? && r.data.id !in old(docs)
        && docs == old(docs)[r.data.id := data.fields]
      ensures !fault && id.Some? ==>
        && r == QueryReturn(Success, "Document updated successfully!", IdData(id.value))
        && docs == old(docs)[id.value := data.fields]
    {
      data.fields := data.fields - {Reference};
      if fault {
        return QueryReturn(Error, "Unable to save document", NoData);
      }
      if id.None? {
        FreshIdExists(docs.Keys);
        var newId :| newId !in docs;
        docs := docs[newId := data.fields];
        r := QueryReturn(Success, "Document added successfully!", IdData(newId));
      } else {
        docs := docs[id.value := data.fields];
        r := QueryReturn(Success, "Document updated successfully!", IdData(id.value));
      }
    }

    /** Reports `success` on both paths; a failed delete leaves the collection as it was. */
    method Delete(id: string, fault: bool) returns (r: QueryReturn)
      modifies this
      ensures r.status == Success
      ensures !fault ==> r.message == "Document deleted successfully!" && docs == old(docs) - {id}
      ensures fault ==> r.message == "Unable to delete document" && docs == old(docs)
      ensures r.data == NoData
    {
      if fault {
        return QueryReturn(Success, "Unable to delete document", NoData);
      }
      docs := docs - {id};
      r := QueryReturn(Success, "Document deleted successfully!", NoData);
    }

    /** Merge-update of an existing document; Firestore rejects it for a missing one. */
    method Update(data: DocObject, id: string, fault: bool) returns (r: QueryReturn)
      modifies this, data
      ensures data.fields == old(data.fields) - {Reference}
      ensures !fault && id in old(docs) ==>
        && r == QueryReturn(Success, "Data updated successfully", NoData)
        && docs == old(docs)[id := old(docs)[id] + data.fields]
      ensures fault || id !in old(docs) ==>
        r == QueryReturn(Error, "Unable to update document", NoData) && docs == old(docs)
    {
      data.fields := data.fields - {Reference};
      if fault || id !in docs {
        return QueryReturn(Error, "Unable to update document", NoData);
      }
      docs := docs[id := docs[id] + data.fields];
      r := QueryReturn(Success, "Data updated successfully", NoData);
    }

    /** Adds `Delta(isIncrement, incrementalValue)` to field `key` of document
        `dbReference`; nothing else changes. */
    method IncrementDecrement(dbReference: string, key: string, isIncrement: Option<bool>,
                              incrementalValue: Option<int>, fault: bool) returns (r: QueryReturn)
      modifies this
      ensures !fault && dbReference in old(docs) ==>
        && r == QueryReturn(Success, "Counter successful", NoData)
        && docs == old(docs)[dbReference := Bump(old(docs)[dbReference], key, Delta(isIncrement, incrementalValue))]
      ensures fault || dbReference !in old(docs) ==>
        r == QueryReturn(Error, "unable to count data", NoData) && docs == old(docs)
    {
      var value := Delta(isIncrement, incrementalValue);
      if fault || dbReference !in docs {
        return QueryReturn(Error, "unable to count data", NoData);
      }
      docs := docs[dbReference := Bump(docs[dbReference], key, value)];
      r := QueryReturn(Success, "Counter successful", NoData);
    }

    /** Declared but unimplemented: always throws. */
    function SaveBatch(data: seq<Record>): (r: Result<QueryReturn, string>)
      ensures r.Err? && r.error == NotImplemented
    {
      Err(NotImplemented)
    }

    function UpdateBatch(data: seq<Record>): (r: Result<QueryReturn, string>)
      ensures r.Err? && r.error == NotImplemented
    {
      Err(NotImplemented)
    }

    function DeleteBatch(ids: seq<string>): (r: Result<QueryReturn, string>)
      ensures r.Err? && r.error == NotImplemented
    {
      Err(NotImplemented)
    }
  }

  /** A document added without an id reads back with the fields as stored and
      its new id as `reference`. */
  method SaveThenFind(store: StoreModel, data: DocObject) returns (saved: QueryReturn, found: QueryReturn)
    modifies store, data
    ensures saved.status == Success && saved.data.IdData?
    ensures found == QueryReturn(Success, "Document found",
                                 DocData(WithReference(old(data.fields) - {Reference}, saved.data.id)))
  {
    saved := store.Save(data, None, false);
    found := store.Find(saved.data.id, false);
  }

  /** Deleting twice reports `success` both times, and the id is absent after. */
  method DeleteTwice(store: StoreModel, id: string) returns (first: QueryReturn, second: QueryReturn)
    modifies store
    ensures first.status == Success && second.status == Success
    ensures id !in store.docs && store.docs == old(store.docs) - {id}
  {
    first := store.Delete(id, false);
    second := store.Delete(id, false);
  }

  // Lemmas

  lemma {:induction false} LengthBound(keys: set<string>) returns (n: nat)
    ensures forall k :: k in keys ==> |k| < n
    decreases |keys|
  {
    if keys == {} {
      n := 0;
    } else {
      var k :| k in keys;
      var m := LengthBound(keys - {k});
      n := if |k| < m then m else |k| + 1;
    }
  }

  /** The store can always pick an id no document has yet. */
  lemma FreshIdExists(keys: set<string>)
    ensures exists s: string :: s !in keys
  {
    var n := LengthBound(keys);
    var s: string := seq(n, _ => 'x');
    assert s !in keys;
  }

  /** Every collection can be listed. */
  lemma {:induction false} EnumerationExists(docs: map<string, Record>) returns (ids: seq<string>)
    ensures Enumerates(ids, docs)
    decreases |docs|
  {
    if docs == map[] {
      ids := [];
    } else {
      var k :| k in docs;
      var rest := docs - {k};
      assert rest.Keys == docs.Keys - {k};
      var ids' := EnumerationExists(rest);
      ids := ids' + [k];
      forall j | j in docs
        ensures j in ids
      {
        if j != k {
          assert j in rest;
        }
      }
    }
  }

  /** A listing holds each document exactly once, with its own id as `reference`. */
  lemma ListingFacts(docs: map<string, Record>, recs: seq<Record>)
    requires IsListing(docs, recs)
    ensures |recs| == |docs|
    ensures forall id :: id in docs ==> WithReference(docs[id], id) in recs
    ensures forall i :: 0 <= i < |recs| ==>
      && Reference in recs[i] && recs[i][Reference].Str?
      && recs[i][Reference].s in docs
      && recs[i] == WithReference(docs[recs[i][Reference].s], recs[i][Reference].s)
  {
    var ids :| Enumerates(ids, docs) && recs == Referenced(docs, ids);
    forall id | id in docs
      ensures WithReference(docs[id], id) in recs
    {
      var i :| 0 <= i < |ids| && ids[i] == id;
      assert recs[i] == WithReference(docs[id], id);
    }
  }

  /** `findAll(ids)` keeps exactly the envelopes of the ids that were read
      successfully and exist, and each kept item is a whole `find` envelope. */
  lemma {:induction false} KeptMembers(docs: map<string, Record>, ids: seq<string>, readFaults: set<nat>, e: QueryReturn)
    ensures e in Kept(docs, ids, readFaults) <==>
      exists i :: 0 <= i < |ids| && i !in readFaults && ids[i] in docs && e == Found(docs, ids[i])
    ensures e in Kept(docs, ids, readFaults) ==>
      e.status == Success && e.message == "Document found" && e.data.DocData?
    ensures |Kept(docs, ids, readFaults)| <= |ids|
    decreases |ids|
  {
    if ids != [] {
      var n := |ids| - 1;
      var init := ids[..n];
      KeptMembers(docs, init, readFaults, e);
      if exists i :: 0 <= i < |ids| && i !in readFaults && ids[i] in docs && e == Found(docs, ids[i]) {
        var i :| 0 <= i < |ids| && i !in readFaults && ids[i] in docs && e == Found(docs, ids[i]);
        if i < n {
          assert init[i] == ids[i];
        }
      }
      if e in Kept(docs, init, readFaults) {
        var i :| 0 <= i < |init| && i !in readFaults && init[i] in docs && e == Found(docs, init[i]);
        assert ids[i] == init[i];
      }
    }
  }

  /** When every read succeeds and every id exists, `findAll(ids)` keeps one
      envelope per id, in input order. */
  lemma {:induction false} KeptInOrder(docs: map<string, Record>, ids: seq<string>, readFaults: set<nat>)
    requires forall i :: 0 <= i < |ids| ==> i !in readFaults && ids[i] in docs
    ensures |Kept(docs, ids, readFaults)| == |ids|
    ensures forall i :: 0 <= i < |ids| ==> Kept(docs, ids, readFaults)[i] == Found(docs, ids[i])
    decreases |ids|
  {
    if ids != [] {
      KeptInOrder(docs, ids[..|ids| - 1], readFaults);
    }
  }

  /** Faults at positions past the end of `ids` do not change what
      `findAll(ids)` keeps: only the reads it makes matter. */
  lemma {:induction false} KeptFaultsLocal(docs: map<string, Record>, ids: seq<string>, rf: set<nat>, rf': set<nat>)
    requires forall i: nat :: i < |ids| ==> (i in rf <==> i in rf')
    ensures Kept(docs, ids, rf) == Kept(docs, ids, rf')
    decreases |ids|
  {
    if ids != [] {
      KeptFaultsLocal(docs, ids[..|ids| - 1], rf, rf');
    }
  }

  /** The faults of `readFaults` that fall on positions `k .. k + len`,
      renumbered from 0. */
  function ShiftedFaults(readFaults: set<nat>, k: nat, len: nat): (r: set<nat>)
    ensures forall i: nat :: i in r <==> i < len && i + k in readFaults
  {
    var r := set j | j in readFaults && k <= j < k + len :: j - k;
    assert forall i: nat :: i < len && i + k in readFaults ==> i in r by {
      forall i: nat | i < len && i + k in readFaults ensures i in r {
        var j := i + k;
        assert j in readFaults && k <= j < k + len && j - k == i;
      }
    }
    r
  }

  /** `findAll` over `a + b` keeps what it keeps over `a`, followed by what it
      keeps over `b` with `b`'s own reads: one envelope per successful read of
      an existing document, in input order, whatever the other reads do. */
  lemma {:induction false} KeptAppend(docs: map<string, Record>, a: seq<string>, b: seq<string>, readFaults: set<nat>)
    ensures Kept(docs, a + b, readFaults)
      == Kept(docs, a, readFaults) + Kept(docs, b, ShiftedFaults(readFaults, |a|, |b|))
    decreases |b|
  {
    if b == [] {
      assert a + b == a;
    } else {
      var n := |b| - 1;
      var b' := b[..n];
      assert (a + b)[..|a + b| - 1] == a + b';
      assert (a + b)[|a + b| - 1] == b[n];
      KeptAppend(docs, a, b', readFaults);
      KeptFaultsLocal(docs, b', ShiftedFaults(readFaults, |a|, |b|), ShiftedFaults(readFaults, |a|, n));
      assert n in ShiftedFaults(readFaults, |a|, |b|) <==> |a| + n in readFaults;
    }
  }

  /** A read that misses or throws contributes nothing, and a successful read
      of an existing document contributes exactly its `find` envelope. */
  lemma KeptSingle(docs: map<string, Record>, id: string, readFaults: set<nat>)
    ensures Kept(docs, [id], readFaults)
      == if 0 !in readFaults && id in docs then [Found(docs, id)] else []
  {
    assert [id][..0] == [];
  }

  /** What `save` writes carries no `reference`, and removing the one `find`
      attaches gives back exactly what was written. */
  lemma ReferenceRoundTrip(doc: Record, id: string)
    ensures Reference !in doc - {Reference}
    ensures WithReference(doc - {Reference}, id) - {Reference} == doc - {Reference}
  {
    var stored := doc - {Reference};
    assert (WithReference(stored, id) - {Reference}).Keys == stored.Keys;
  }

  /** Incrementing and then decrementing by the same value restores a numeric field. */
  lemma IncrementThenDecrement(doc: Record, key: string, step: Option<int>)
    requires key in doc && doc[key].Num?
    ensures Bump(Bump(doc, key, Delta(Some(true), step)), key, Delta(Some(false), step)) == doc
  {
    var once := Bump(doc, key, Delta(Some(true), step));
    assert Bump(once, key, Delta(Some(false), step)).Keys == doc.Keys;
  }

  /** Omitting `isIncrement`, or passing `false`, decrements. */
  lemma OmittedIsIncrementDecrements(doc: Record, key: string, step: Option<int>)
    requires key in doc && doc[key].Num?
    ensures Bump(doc, key, Delta(None, step))[key] == Num(doc[key].n - step.GetOr(1))
    ensures Delta(None, step) == Delta(Some(false), step)
  {
  }

  /** Two increments commute and each is applied exactly once. */
  lemma BumpsCommute(doc: Record, key: string, a: int, b: int)
    requires key in doc && doc[key].Num?
    ensures Bump(Bump(doc, key, a), key, b) == Bump(Bump(doc, key, b), key, a)
    ensures Bump(Bump(doc, key, a), key, b)[key] == Num(doc[key].n + a + b)
  {
    var ab := Bump(Bump(doc, key, a), key, b);
    var ba := Bump(Bump(doc, key, b), key, a);
    assert ab.Keys == ba.Keys;
  }

  /** The built query is discarded: with one document `{a: 2}` and the clause
      `a == 1`, every listing `findWhere` or `findWhereOrAnd` can return holds a
      document the filter rejects, while the filtered fetch returns nothing. */
  lemma FilterDiscarded(recs: seq<Record>)
    requires IsListing(map["d1" := map["a" := Num(2)]], recs)
    ensures |recs| == 1
    ensures !Eval(BuildWhere([WhereClause("a", Eq, Num(1))]), recs[0])
    ensures !Eval(BuildWhereOrAnd(AndOrWhere(CombineAnd, [AndOrClause("a", Eq, Num(1), TagAnd)])), recs[0])
    ensures forall id :: id in map["d1" := map["a" := Num(2)]] ==>
      !WhereSelects(Some([WhereClause("a", Eq, Num(1))]), map["d1" := map["a" := Num(2)]][id])
  {
    var docs := map["d1" := map["a" := Num(2)]];
    ListingFacts(docs, recs);
    var id := recs[0][Reference].s;
    assert id == "d1";
    assert recs[0]["a"] == Num(2);
    var ws := [WhereClause("a", Eq, Num(1))];
    BuildWhereMeaning(ws, recs[0]);
    var wh := AndOrWhere(CombineAnd, [AndOrClause("a", Eq, Num(1), TagAnd)]);
    BuildWhereOrAndMeaning(wh, recs[0]);
    assert wh.parameter[0] in wh.parameter;
  }
}
