/** The TF-IDF index lifecycle: the service holds at most one retriever,
    built from a corpus, and saves, loads and removes retrievers under
    "./app/indexes/<name>.pkl" on a disk. The TF-IDF model and its ranking
    are the `Rank` parameter; the disk is a map from paths to entries. */
module IndexService {
  import opened Common

  /** A TF-IDF retriever: the corpus it was built from and its `k` (None is
      the library's default). */
  datatype Retriever = Retriever(corpus: seq<Document>, k: Option<int>)

  /** What the disk holds at a path: a saved retriever, or something
      `load_local` cannot read (its error message). */
  datatype DiskEntry = SavedIndex(retriever: Retriever) | Unreadable(reason: string)

  type Entries = map<string, DiskEntry>

  /** `retriever.invoke(query)`: the ranked passages, or a failure. */
  type Rank = (Retriever, string) -> Result<seq<Document>>

  const NoIndex := HttpError(400, "No index has been created yet")

  function IndexPath(name: string): string
  {
    "./app/indexes/" + name + ".pkl"
  }

  /** Different names address different files. */
  lemma IndexPathInjective(a: string, b: string)
    requires IndexPath(a) == IndexPath(b)
    ensures a == b
  {
    var n := |"./app/indexes/"|;
    assert |a| == |b|;
    assert a == IndexPath(a)[n..n + |a|];
    assert b == IndexPath(b)[n..n + |b|];
  }

  function NotFound(name: string): Error
  {
    HttpError(404, "Index " + name + " not found")
  }

  /** `save_index` on the disk: without a retriever it fails with 400; a
      write failure is a 500; otherwise the retriever is stored at the
      name's path, replacing what was there. */
  function SaveTo(entries: Entries, name: string, retriever: Option<Retriever>, fault: Option<Error>)
    : (r: Result<Entries>)
    ensures retriever.None? ==> r == Err(NoIndex)
    ensures retriever.Some? && fault.Some? ==>
      r == Err(HttpError(500, "Error saving index: " + Describe(fault.value)))
    ensures retriever.Some? && fault.None? ==>
      r == Ok(entries[IndexPath(name) := SavedIndex(retriever.value)])
  {
    if retriever.None? then Err(NoIndex)
    else if fault.Some? then Err(HttpError(500, "Error saving index: " + Describe(fault.value)))
    else Ok(entries[IndexPath(name) := SavedIndex(retriever.value)])
  }

  /** `load_index` from the disk: a missing path is a 404; an unreadable
      entry lets the library's error through unwrapped. */
  function LoadFrom(entries: Entries, name: string): (r: Result<Retriever>)
    ensures IndexPath(name) !in entries <==> r == Err(NotFound(name))
    ensures r.Ok? <==> IndexPath(name) in entries && entries[IndexPath(name)].SavedIndex?
    ensures r.Ok? ==> r.value == entries[IndexPath(name)].retriever
    ensures IndexPath(name) in entries && entries[IndexPath(name)].Unreadable? ==>
      r == Err(Failure(entries[IndexPath(name)].reason))
  {
    if IndexPath(name) !in entries then Err(NotFound(name))
    else match entries[IndexPath(name)]
      case SavedIndex(retriever) => Ok(retriever)
      case Unreadable(reason) => Err(Failure(reason))
  }

  /** `remove_index` on the disk: a missing path is a 404, a removal
      failure a 500; otherwise the path is gone. */
  function RemoveFrom(entries: Entries, name: string, fault: Option<Error>): (r: Result<Entries>)
    ensures IndexPath(name) !in entries ==> r == Err(NotFound(name))
    ensures IndexPath(name) in entries && fault.Some? ==>
      r == Err(HttpError(500, "Error removing index: " + Describe(fault.value)))
    ensures IndexPath(name) in entries && fault.None? ==>
      r == Ok(map p | p in entries && p != IndexPath(name) :: entries[p])
  {
    if IndexPath(name) !in entries then Err(NotFound(name))
    else if fault.Some? then Err(HttpError(500, "Error removing index: " + Describe(fault.value)))
    else Ok(map p | p in entries && p != IndexPath(name) :: entries[p])
  }

  /** `search`: 400 without a retriever; otherwise the retriever's `k` is
      set to the requested one, then it is invoked. */
  function SearchWith(retriever: Option<Retriever>, query: string, k: int, rank: Rank)
    : (r: Result<seq<Document>>)
    ensures retriever.None? ==> r == Err(NoIndex)
    ensures retriever.Some? && rank(retriever.value.(k := Some(k)), query).Ok? ==>
      r == rank(retriever.value.(k := Some(k)), query)
    ensures retriever.Some? && rank(retriever.value.(k := Some(k)), query).Err? ==>
      r == Err(HttpError(500, "Error performing search: " + Describe(rank(retriever.value.(k := Some(k)), query).error)))
  {
    if retriever.None? then Err(NoIndex)
    else
      match rank(retriever.value.(k := Some(k)), query)
      case Ok(docs) => Ok(docs)
      case Err(e) => Err(HttpError(500, "Error performing search: " + Describe(e)))
  }

  /** Saving then loading the same name gives back the saved retriever. */
  lemma SaveThenLoad(entries: Entries, name: string, retriever: Retriever)
    ensures SaveTo(entries, name, Some(retriever), None).Ok?
    ensures LoadFrom(SaveTo(entries, name, Some(retriever), None).value, name) == Ok(retriever)
  {
  }

  /** Saving under one name does not change what loading another gives. */
  lemma SaveKeepsOthers(entries: Entries, name: string, retriever: Retriever, other: string)
    requires other != name
    ensures LoadFrom(SaveTo(entries, name, Some(retriever), None).value, other) == LoadFrom(entries, other)
  {
    if IndexPath(other) == IndexPath(name) {
      IndexPathInjective(other, name);
    }
  }

  /** After a successful removal, loading the name is a 404; removing it a
      second time is a 404 too. */
  lemma RemoveThenLoad(entries: Entries, name: string, fault: Option<Error>)
    requires RemoveFrom(entries, name, fault).Ok?
    ensures LoadFrom(RemoveFrom(entries, name, fault).value, name) == Err(NotFound(name))
    ensures RemoveFrom(RemoveFrom(entries, name, fault).value, name, None) == Err(NotFound(name))
  {
  }

  /** Because `search` sets `k` before every invocation, the retriever's
      previous `k` never matters. */
  lemma SearchIgnoresPreviousK(retriever: Retriever, previous: Option<int>, query: string, k: int, rank: Rank)
    ensures SearchWith(Some(retriever.(k := previous)), query, k, rank) == SearchWith(Some(retriever), query, k, rank)
  {
    assert retriever.(k := previous).(k := Some(k)) == retriever.(k := Some(k));
  }

  /** The local directory of saved indexes. */
  class Disk {
    var entries: Entries

    constructor (entries: Entries)
      ensures this.entries == entries
    {
      this.entries := entries;
    }
  }

  class IndexService {
    var retriever: Option<Retriever>

    /** A retriever is built exactly when a non-empty corpus is given. */
    constructor (documents: seq<Document>)
      ensures retriever.Some? <==> documents != []
      ensures retriever.Some? ==> retriever.value == Retriever(documents, None)
    {
      if documents != [] {
        retriever := Some(Retriever(documents, None));
      } else {
        retriever := None;
      }
    }

    /** `index_documents` replaces the retriever wholesale. */
    method IndexDocuments(documents: seq<Document>)
      modifies this
      ensures retriever == Some(Retriever(documents, None))
    {
      retriever := Some(Retriever(documents, None));
    }

    method SaveIndex(name: string, disk: Disk, fault: Option<Error>) returns (r: Outcome)
      modifies disk
      ensures var saved := SaveTo(old(disk.entries), name, retriever, fault);
        (r.Pass? <==> saved.Ok?) &&
        (saved.Ok? ==> disk.entries == saved.value) &&
        (saved.Err? ==> r == Fail(saved.error) && disk.entries == old(disk.entries))
    {
      var saved := SaveTo(disk.entries, name, retriever, fault);
      match saved
      case Err(e) => r := Fail(e);
      case Ok(entries) =>
        disk.entries := entries;
        r := Pass;
    }

    /** On failure the current retriever is kept. */
    method LoadIndex(name: string, disk: Disk) returns (r: Outcome)
      modifies this
      ensures var loaded := LoadFrom(disk.entries, name);
        (r.Pass? <==> loaded.Ok?) &&
        (loaded.Ok? ==> retriever == Some(loaded.value)) &&
        (loaded.Err? ==> r == Fail(loaded.error) && retriever == old(retriever))
    {
      var loaded := LoadFrom(disk.entries, name);
      match loaded
      case Err(e) => r := Fail(e);
      case Ok(x) =>
        retriever := Some(x);
        r := Pass;
    }

    /** The retriever keeps the requested `k` afterwards, even when the
        invocation fails. */
    method Search(query: string, k: int, rank: Rank) returns (r: Result<seq<Document>>)
      modifies this
      ensures r == SearchWith(old(retriever), query, k, rank)
      ensures old(retriever).None? ==> retriever == None
      ensures old(retriever).Some? ==> retriever == Some(old(retriever).value.(k := Some(k)))
    {
      if retriever.None? {
        return Err(NoIndex);
      }
      retriever := Some(retriever.value.(k := Some(k)));
      match rank(retriever.value, query)
      case Ok(docs) => r := Ok(docs);
      case Err(e) => r := Err(HttpError(500, "Error performing search: " + Describe(e)));
    }

    method RemoveIndex(name: string, disk: Disk, fault: Option<Error>) returns (r: Outcome)
      modifies disk
      ensures var removed := RemoveFrom(old(disk.entries), name, fault);
        (r.Pass? <==> removed.Ok?) &&
        (removed.Ok? ==> disk.entries == removed.value) &&
        (removed.Err? ==> r == Fail(removed.error) && disk.entries == old(disk.entries))
    {
      var removed := RemoveFrom(disk.entries, name, fault);
      match removed
      case Err(e) => r := Fail(e);
      case Ok(entries) =>
        disk.entries := entries;
        r := Pass;
    }
  }

  /** Saving an index and loading it into a fresh service restores it. */
  method SaveAndReload(documents: seq<Document>, name: string, disk: Disk) returns (restored: IndexService)
    requires documents != []
    modifies disk
    ensures restored.retriever == Some(Retriever(documents, None))
  {
    var source := new IndexService(documents);
    var saved := source.SaveIndex(name, disk, None);
    restored := new IndexService([]);
    var loaded := restored.LoadIndex(name, disk);
    assert loaded.Pass?;
  }
}
