/** The retrieval service: it is built with an optional TF-IDF index name
    (loaded at once) and an optional vector collection, and answers a query
    by retrieving passages the requested way and handing them to the
    retrieval agent. */
module RetrievalService {
  import opened Common
  import IndexService
  import VectorService
  import RetrievalAgent

  /** The wired service: the loaded retriever, if an index name was given,
      and the collection's store, if a collection was given. The agent's
      model is a parameter of each query. */
  datatype Service = Service(retriever: Option<IndexService.Retriever>, vector: Option<VectorService.Store>)

  const NoVectorService := "'RetrievalService' object has no attribute 'vector_service'"

  /** Python truthiness of an optional string argument. */
  predicate Given(s: Option<string>)
  {
    s.Some? && s.value != ""
  }

  /** `RetrievalService.__init__`: a given index name is loaded immediately,
      so a missing or unreadable index fails construction. */
  function NewService(indexName: Option<string>, collection: Option<string>,
                      disk: IndexService.Entries, storeFor: string -> VectorService.Store)
    : (r: Result<Service>)
    ensures Given(indexName) && IndexService.LoadFrom(disk, indexName.value).Err? ==>
      r == Err(IndexService.LoadFrom(disk, indexName.value).error)
    ensures r.Ok? <==> !Given(indexName) || IndexService.LoadFrom(disk, indexName.value).Ok?
    ensures r.Ok? ==>
      r.value.retriever == (if Given(indexName) then Some(IndexService.LoadFrom(disk, indexName.value).value) else None) &&
      r.value.vector == (if Given(collection) then Some(storeFor(collection.value)) else None)
  {
    var vector := if Given(collection) then Some(storeFor(collection.value)) else None;
    if Given(indexName) then
      match IndexService.LoadFrom(disk, indexName.value)
      case Err(e) => Err(e)
      case Ok(retriever) => Ok(Service(Some(retriever), vector))
    else Ok(Service(None, vector))
  }

  /** The passages for a query, by retrieval type. */
  function Retrieve(service: Service, query: string, retrievalType: string, k: int,
                    rank: IndexService.Rank): (r: Result<seq<Document>>)
    ensures retrievalType == "tfidf" ==> r == IndexService.SearchWith(service.retriever, query, k, rank)
    ensures retrievalType == "vector" && service.vector.None? ==> r == Err(AttributeError(NoVectorService))
    ensures retrievalType == "vector" && service.vector.Some? ==>
      r == VectorService.Search(service.vector.value, query, k, None)
    ensures retrievalType != "tfidf" && retrievalType != "vector" ==>
      r == Err(Failure("Unsupported retrieval type: " + retrievalType))
  {
    if retrievalType == "tfidf" then IndexService.SearchWith(service.retriever, query, k, rank)
    else if retrievalType == "vector" then
      if service.vector.None? then Err(AttributeError(NoVectorService))
      else VectorService.Search(service.vector.value, query, k, None)
    else Err(Failure("Unsupported retrieval type: " + retrievalType))
  }

  /** `retrieve_information`: a failed retrieval is raised as it is; passages
      go with the original query to the agent and its result is returned
      unchanged. */
  function RetrieveInformation(service: Service, query: string, retrievalType: string, k: int,
                               rank: IndexService.Rank,
                               llm: map<string, string> -> Result<RetrievalAgent.ModelResponse>)
    : (r: Result<map<string, string>>)
    ensures Retrieve(service, query, retrievalType, k, rank).Err? ==>
      r == Err(Retrieve(service, query, retrievalType, k, rank).error)
    ensures Retrieve(service, query, retrievalType, k, rank).Ok? ==>
      r == RetrievalAgent.GenerateResponse(query, Retrieve(service, query, retrievalType, k, rank).value, llm)
  {
    match Retrieve(service, query, retrievalType, k, rank)
    case Err(e) => Err(e)
    case Ok(docs) => RetrievalAgent.GenerateResponse(query, docs, llm)
  }

  /** An unsupported type fails the same way whatever the index, the store
      and the model: nothing is searched and nothing generated. */
  lemma UnsupportedTypeFails(service: Service, query: string, retrievalType: string, k: int,
                             rank: IndexService.Rank,
                             llm: map<string, string> -> Result<RetrievalAgent.ModelResponse>)
    requires retrievalType != "tfidf" && retrievalType != "vector"
    ensures RetrieveInformation(service, query, retrievalType, k, rank, llm) ==
            Err(Failure("Unsupported retrieval type: " + retrievalType))
  {
  }

  /** The two mismatched combinations: "tfidf" on a service built without
      an index name, and "vector" on one built without a collection. */
  lemma MismatchedTypeFails(query: string, k: int, disk: IndexService.Entries,
                            storeFor: string -> VectorService.Store, rank: IndexService.Rank,
                            llm: map<string, string> -> Result<RetrievalAgent.ModelResponse>,
                            indexName: Option<string>, collection: Option<string>)
    requires NewService(indexName, collection, disk, storeFor).Ok?
    ensures var service := NewService(indexName, collection, disk, storeFor).value;
      !Given(indexName) ==>
        RetrieveInformation(service, query, "tfidf", k, rank, llm) == Err(IndexService.NoIndex)
    ensures var service := NewService(indexName, collection, disk, storeFor).value;
      !Given(collection) ==>
        RetrieveInformation(service, query, "vector", k, rank, llm) == Err(AttributeError(NoVectorService))
  {
  }

  /** A service built on an index that was just saved searches the saved
      retriever's corpus with the requested `k`. */
  lemma BuiltOnSavedIndex(disk: IndexService.Entries, name: string, retriever: IndexService.Retriever,
                          collection: Option<string>, storeFor: string -> VectorService.Store,
                          query: string, k: int, rank: IndexService.Rank)
    requires name != ""
    ensures var saved := IndexService.SaveTo(disk, name, Some(retriever), None).value;
      NewService(Some(name), collection, saved, storeFor).Ok? &&
      Retrieve(NewService(Some(name), collection, saved, storeFor).value, query, "tfidf", k, rank) ==
        IndexService.SearchWith(Some(retriever), query, k, rank)
  {
    IndexService.SaveThenLoad(disk, name, retriever);
  }
}
