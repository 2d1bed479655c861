/** Uploading the ground-truth questions dataset into the
    "questions_dataset" collection. The service as written calls a
    `create_collection` that the vector service does not have, so after
    deleting the collection it always fails; `UploadIntended` is the
    delete, create, index sequence the code evidently means. */
module QuestionsDataset {
  import opened Common
  import VectorService

  /** One item of the uploaded JSON list. */
  datatype QuestionItem = QuestionItem(question: string, answer: Value, id: Value)

  /** The store calls an upload makes, in order. */
  datatype StoreCall =
    | DeleteCollection
    | CreateCollection
    | AddDocuments(documents: seq<Document>, ids: seq<Value>)

  /** What an upload did to the store and what it returned. */
  datatype Upload = Upload(calls: seq<StoreCall>, result: Outcome)

  const NoCreateCollection := "'VectorService' object has no attribute 'create_collection'"

  /** One document per item, in order: the question as content and
      {answer, id} as metadata. */
  function DatasetDocuments(items: seq<QuestionItem>): (r: seq<Document>)
    ensures |r| == |items|
    ensures forall i :: 0 <= i < |items| ==>
      r[i].content == items[i].question &&
      r[i].metadata == map["answer" := items[i].answer, "id" := items[i].id]
  {
    seq(|items|, i requires 0 <= i < |items| =>
      Document(items[i].question, map["answer" := items[i].answer, "id" := items[i].id]))
  }

  function DatasetIds(items: seq<QuestionItem>): (r: seq<Value>)
    ensures |r| == |items|
    ensures forall i :: 0 <= i < |items| ==> r[i] == items[i].id
  {
    seq(|items|, i requires 0 <= i < |items| => items[i].id)
  }

  /** The explicit id list is exactly what the vector service would read
      from the documents' metadata: the two ways of indexing agree. */
  lemma DatasetIdsAreMetadataIds(store: VectorService.Store, items: seq<QuestionItem>)
    requires items != []
    ensures VectorService.IdsFor(DatasetDocuments(items), None) == DatasetIds(items)
    ensures VectorService.IndexDocuments(store, DatasetDocuments(items), None) ==
            VectorService.IndexDocuments(store, DatasetDocuments(items), Some(DatasetIds(items)))
  {
    VectorService.DefaultIdsAgree(store, DatasetDocuments(items), DatasetIds(items));
  }

  /** Any failure inside the upload becomes a 500 carrying `str(e)`. */
  function AsServerError(e: Error): Error
  {
    HttpError(500, Describe(e))
  }

  /** `upload_questions_dataset` as written: the collection is deleted, then
      the missing `create_collection` raises; nothing is ever indexed. */
  function UploadAsWritten(store: VectorService.Store, items: seq<QuestionItem>): (u: Upload)
    ensures u.calls == [DeleteCollection]
    ensures u.result.Fail? && u.result.error.HttpError? && u.result.error.status == 500
    ensures store.deleteCollection.Pass? ==>
      u.result.error == HttpError(500, NoCreateCollection)
  {
    match VectorService.DeleteCollection(store)
    case Fail(e) => Upload([DeleteCollection], Fail(AsServerError(e)))
    case Pass => Upload([DeleteCollection], Fail(AsServerError(AttributeError(NoCreateCollection))))
  }

  /** The corrected upload: delete, create, then index the dataset with its
      ids; the first failing call ends it with a 500. */
  function UploadIntended(store: VectorService.Store, create: Outcome, items: seq<QuestionItem>): (u: Upload)
    ensures u.result.Pass? ==>
      u.calls == [DeleteCollection, CreateCollection, AddDocuments(DatasetDocuments(items), DatasetIds(items))]
    ensures u.result.Pass? <==>
      store.deleteCollection.Pass? && create.Pass? &&
      VectorService.IndexDocuments(store, DatasetDocuments(items), Some(DatasetIds(items))).Pass?
  {
    match VectorService.DeleteCollection(store)
    case Fail(e) => Upload([DeleteCollection], Fail(AsServerError(e)))
    case Pass =>
      match create
      case Fail(e) => Upload([DeleteCollection, CreateCollection], Fail(AsServerError(e)))
      case Pass =>
        var documents := DatasetDocuments(items);
        var ids := DatasetIds(items);
        var calls := [DeleteCollection, CreateCollection, AddDocuments(documents, ids)];
        match VectorService.IndexDocuments(store, documents, Some(ids))
        case Fail(e) => Upload(calls, Fail(AsServerError(e)))
        case Pass => Upload(calls, Pass)
  }

  // A collection as a list of (id, document) entries, None when it does not exist.

  type Entries = seq<(Value, Document)>

  /** `add_documents` with ids: each pair replaces the entry with its id or is appended. */
  function Upsert(entries: Entries, id: Value, d: Document): Entries
  {
    RemoveId(entries, id) + [(id, d)]
  }

  function RemoveId(entries: Entries, id: Value): (r: Entries)
    ensures forall e :: e in r <==> e in entries && e.0 != id
    ensures (forall e :: e in entries ==> e.0 != id) ==> r == entries
  {
    if entries == [] then []
    else if entries[0].0 == id then RemoveId(entries[1..], id)
    else [entries[0]] + RemoveId(entries[1..], id)
  }

  function AddAll(entries: Entries, documents: seq<Document>, ids: seq<Value>): Entries
    requires |documents| == |ids|
    decreases |ids|
  {
    if ids == [] then entries
    else AddAll(Upsert(entries, ids[0], documents[0]), documents[1..], ids[1..])
  }

  function Zip(ids: seq<Value>, documents: seq<Document>): (r: Entries)
    requires |ids| == |documents|
    ensures |r| == |ids|
    ensures forall i :: 0 <= i < |r| ==> r[i] == (ids[i], documents[i])
  {
    seq(|ids|, i requires 0 <= i < |ids| => (ids[i], documents[i]))
  }

  /** The effect of one call on the collection. */
  function Step(collection: Option<Entries>, call: StoreCall): Option<Entries>
  {
    match call
    case DeleteCollection => None
    case CreateCollection => Some(if collection.Some? then collection.value else [])
    case AddDocuments(documents, ids) =>
      if collection.Some? && |documents| == |ids| then Some(AddAll(collection.value, documents, ids))
      else collection
  }

  /** The effect of the calls, in order, on the collection. */
  function Replay(collection: Option<Entries>, calls: seq<StoreCall>): Option<Entries>
    decreases |calls|
  {
    if calls == [] then collection
    else Replay(Step(collection, calls[0]), calls[1..])
  }

  ghost predicate DistinctIds(ids: seq<Value>)
  {
    forall i, j :: 0 <= i < j < |ids| ==> ids[i] != ids[j]
  }

  /** None of `ids` is already the id of an entry. */
  ghost predicate AllNew(entries: Entries, ids: seq<Value>)
  {
    forall e :: e in entries ==> e.0 !in ids
  }

  /** Adding a pair whose id is new appends it. */
  lemma AddAllStep(entries: Entries, documents: seq<Document>, ids: seq<Value>)
    requires |documents| == |ids| && ids != []
    requires forall e :: e in entries ==> e.0 != ids[0]
    ensures AddAll(entries, documents, ids) ==
            AddAll(entries + [(ids[0], documents[0])], documents[1..], ids[1..])
  {
    assert Upsert(entries, ids[0], documents[0]) == entries + [(ids[0], documents[0])];
  }

  lemma AllNewAfterUpsert(entries: Entries, documents: seq<Document>, ids: seq<Value>)
    requires |documents| == |ids| && ids != [] && DistinctIds(ids) && AllNew(entries, ids)
    ensures AllNew(entries + [(ids[0], documents[0])], ids[1..])
    ensures DistinctIds(ids[1..])
  {
    forall x | x in ids[1..] ensures x in ids && x != ids[0] {
      var i :| 0 <= i < |ids[1..]| && ids[1..][i] == x;
      assert ids[i + 1] == x;
    }
    forall i, j | 0 <= i < j < |ids[1..]| ensures ids[1..][i] != ids[1..][j] {
      assert ids[1..][i] == ids[i + 1] && ids[1..][j] == ids[j + 1];
    }
  }

  /** Adding entries whose ids are new and distinct appends them in order. */
  lemma {:induction false} AddAllFresh(entries: Entries, documents: seq<Document>, ids: seq<Value>)
    requires |documents| == |ids| && DistinctIds(ids) && AllNew(entries, ids)
    ensures AddAll(entries, documents, ids) == entries + Zip(ids, documents)
    decreases |ids|
  {
    if ids != [] {
      var first := (ids[0], documents[0]);
      var next := entries + [first];
      assert ids[0] in ids;
      AddAllStep(entries, documents, ids);
      AllNewAfterUpsert(entries, documents, ids);
      AddAllFresh(next, documents[1..], ids[1..]);
      var rest := Zip(ids[1..], documents[1..]);
      ZipCons(ids, documents);
      AppendAssoc(entries, [first], rest);
    }
  }

  lemma ZipCons(ids: seq<Value>, documents: seq<Document>)
    requires |ids| == |documents| && ids != []
    ensures Zip(ids, documents) == [(ids[0], documents[0])] + Zip(ids[1..], documents[1..])
  {
  }

  /** A successful corrected upload of a dataset with distinct ids leaves the
      collection holding exactly the dataset's entries, in order, whatever
      it held before. */
  lemma UploadIntendedReplacesCollection(
    store: VectorService.Store, create: Outcome, items: seq<QuestionItem>, before: Option<Entries>)
    requires DistinctIds(DatasetIds(items))
    requires UploadIntended(store, create, items).result.Pass?
    ensures Replay(before, UploadIntended(store, create, items).calls) ==
            Some(Zip(DatasetIds(items), DatasetDocuments(items)))
  {
    var documents := DatasetDocuments(items);
    var ids := DatasetIds(items);
    var calls := UploadIntended(store, create, items).calls;
    var add := AddDocuments(documents, ids);
    assert calls == [DeleteCollection, CreateCollection, add];
    assert calls[1..] == [CreateCollection, add];
    assert calls[1..][1..] == [add];
    assert Step(Step(before, DeleteCollection), CreateCollection) == Some([]);
    var empty: Entries := [];
    AddAllFresh(empty, documents, ids);
    assert empty + Zip(ids, documents) == Zip(ids, documents);
    assert Step(Some(empty), add) == Some(Zip(ids, documents));
    calc {
      Replay(before, calls);
      Replay(Step(before, DeleteCollection), calls[1..]);
      Replay(Step(None, CreateCollection), calls[1..][1..]);
      Replay(Some(empty), [add]);
      Replay(Step(Some(empty), add), [add][1..]);
      Some(Zip(ids, documents));
    }
  }

  /** The upload as written leaves no collection behind, whatever there
      was before and whatever the dataset: the ground truth is lost. */
  lemma UploadAsWrittenLosesCollection(store: VectorService.Store, items: seq<QuestionItem>,
                                       before: Option<Entries>)
    ensures Replay(before, UploadAsWritten(store, items).calls) == None
    ensures UploadAsWritten(store, items).result.Fail?
  {
    assert [DeleteCollection][1..] == [];
  }

  /** Between the delete and the create the collection is gone, and right
      after the create it is empty. */
  lemma RecreatedCollectionIsEmpty(before: Option<Entries>)
    ensures Replay(before, [DeleteCollection]) == None
    ensures Replay(before, [DeleteCollection, CreateCollection]) == Some([])
  {
    assert [DeleteCollection, CreateCollection][1..] == [CreateCollection];
  }
}
