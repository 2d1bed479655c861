/** The thin layer over one collection of the vector store: id defaulting
    when indexing, the filter argument of the two searches, and the wrapping
    of store failures into HTTP 500 errors with one message per operation.
    The store itself (embedding, similarity ranking, persistence) is the
    `Store` record of functions. */
module VectorService {
  import opened Common

  type Filter = map<string, Value>

  /** A document with its similarity score. */
  datatype Scored = Scored(doc: Document, score: real)

  /** The store calls the service makes, each of which may raise. */
  datatype Store = Store(
    addDocuments: (seq<Document>, seq<Value>) -> Outcome,
    similaritySearch: (string, int, Option<Filter>) -> Result<seq<Document>>,
    similaritySearchWithScore: (string, int, Option<Filter>) -> Result<seq<Scored>>,
    delete: seq<Value> -> Outcome,
    deleteCollection: Outcome)

  const IndexingFailed := "Error at indexing the documents: "
  const SearchFailed := "An error occurred while searching documents: "
  const ScoredSearchFailed := "An error occurred during search with score: "
  const DeleteFailed := "Error deleting documents: "

  /** The ids handed to the store: the caller's list when it is non-empty,
      otherwise each document's metadata "id", None where it has none. */
  function IdsFor(documents: seq<Document>, ids: Option<seq<Value>>): (r: seq<Value>)
    ensures ids.Some? && ids.value != [] ==> r == ids.value
    ensures (ids.None? || ids.value == []) ==>
      |r| == |documents| &&
      forall i :: 0 <= i < |r| ==> r[i] == Get(documents[i].metadata, "id")
  {
    if ids.Some? && ids.value != [] then ids.value
    else seq(|documents|, i requires 0 <= i < |documents| => Get(documents[i].metadata, "id"))
  }

  /** A store failure as the 500 error the service raises instead. */
  function Wrapped(prefix: string, e: Error): Error
  {
    HttpError(500, prefix + Describe(e))
  }

  /** `index_documents`: one `add_documents` call with the defaulted ids. */
  function IndexDocuments(store: Store, documents: seq<Document>, ids: Option<seq<Value>>): (r: Outcome)
    ensures r.Pass? <==> store.addDocuments(documents, IdsFor(documents, ids)).Pass?
    ensures r.Fail? ==> r.error == Wrapped(IndexingFailed, store.addDocuments(documents, IdsFor(documents, ids)).error)
  {
    match store.addDocuments(documents, IdsFor(documents, ids))
    case Pass => Pass
    case Fail(e) => Fail(Wrapped(IndexingFailed, e))
  }

  /** The filter forwarded to the store: present only when non-empty. */
  function FilterArgument(filter: Option<Filter>): (r: Option<Filter>)
    ensures r.Some? <==> filter.Some? && |filter.value| > 0
    ensures r.Some? ==> r == filter
  {
    if filter.Some? && |filter.value| > 0 then filter else None
  }

  function Search(store: Store, query: string, k: int, filter: Option<Filter>): (r: Result<seq<Document>>)
    ensures store.similaritySearch(query, k, FilterArgument(filter)).Ok? ==>
      r == store.similaritySearch(query, k, FilterArgument(filter))
    ensures store.similaritySearch(query, k, FilterArgument(filter)).Err? ==>
      r == Err(Wrapped(SearchFailed, store.similaritySearch(query, k, FilterArgument(filter)).error))
  {
    match store.similaritySearch(query, k, FilterArgument(filter))
    case Ok(docs) => Ok(docs)
    case Err(e) => Err(Wrapped(SearchFailed, e))
  }

  function SearchWithScore(store: Store, query: string, k: int, filter: Option<Filter>): (r: Result<seq<Scored>>)
    ensures store.similaritySearchWithScore(query, k, FilterArgument(filter)).Ok? ==>
      r == store.similaritySearchWithScore(query, k, FilterArgument(filter))
    ensures store.similaritySearchWithScore(query, k, FilterArgument(filter)).Err? ==>
      r == Err(Wrapped(ScoredSearchFailed, store.similaritySearchWithScore(query, k, FilterArgument(filter)).error))
  {
    match store.similaritySearchWithScore(query, k, FilterArgument(filter))
    case Ok(scored) => Ok(scored)
    case Err(e) => Err(Wrapped(ScoredSearchFailed, e))
  }

  function DeleteDocuments(store: Store, ids: seq<Value>): (r: Outcome)
    ensures r.Pass? <==> store.delete(ids).Pass?
    ensures r.Fail? ==> r.error == Wrapped(DeleteFailed, store.delete(ids).error)
  {
    match store.delete(ids)
    case Pass => Pass
    case Fail(e) => Fail(Wrapped(DeleteFailed, e))
  }

  /** `delete_collection` lets the store's own error through unwrapped. */
  function DeleteCollection(store: Store): (r: Outcome)
    ensures r == store.deleteCollection
  {
    store.deleteCollection
  }

  /** The same store error reaches the caller unchanged from
      `delete_collection`, but as a different, wrapped 500 from `delete_documents`. */
  lemma OnlyDeleteCollectionUnwrapped(store: Store, ids: seq<Value>, e: Error)
    requires store.delete(ids) == Fail(e) && store.deleteCollection == Fail(e)
    ensures DeleteCollection(store) == Fail(e)
    ensures DeleteDocuments(store, ids).Fail? && DeleteDocuments(store, ids).error != e
    ensures DeleteDocuments(store, ids).error == HttpError(500, DeleteFailed + Describe(e))
  {
    if e.HttpError? {
      assert |DeleteFailed + Describe(e)| > |e.detail|;
    }
  }

  /** Both searches without a filter, with None and with an empty filter make
      the same store call, and a non-empty filter is forwarded unchanged. */
  lemma SearchFilterDispatch(store: Store, query: string, k: int, filter: Filter)
    ensures Search(store, query, k, Some(map[])) == Search(store, query, k, None)
    ensures SearchWithScore(store, query, k, Some(map[])) == SearchWithScore(store, query, k, None)
    ensures |filter| > 0 ==>
      FilterArgument(Some(filter)) == Some(filter) &&
      Search(store, query, k, Some(filter)) == Search(store, query, k, FilterArgument(Some(filter)))
  {
  }

  /** Indexing with an explicit id list and indexing with every document
      carrying that id in its metadata make the same store call. */
  lemma {:induction false} DefaultIdsAgree(store: Store, documents: seq<Document>, ids: seq<Value>)
    requires |ids| == |documents| && ids != []
    requires forall i :: 0 <= i < |documents| ==> "id" in documents[i].metadata && documents[i].metadata["id"] == ids[i]
    ensures IndexDocuments(store, documents, None) == IndexDocuments(store, documents, Some(ids))
  {
    assert IdsFor(documents, None) == ids;
  }
}
