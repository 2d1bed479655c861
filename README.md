# A verified model of the RAG service core

This project models the bookkeeping core of a retrieval-augmented question
answering service, written in Python on FastAPI. The service:

- keeps a `session_overview` table of per-session quality scores, which are
  filled by a language-model evaluation and by human reviewers;
- reads a session's stored chat history and assembles the evaluation input
  from it;
- answers questions from a TF-IDF index or a vector store, through a
  retrieval agent that formats the retrieved passages into a prompt;
- manages saved TF-IDF indexes on disk;
- turns uploaded PDFs into labelled page chunks through temporary files.

Everything heavy lives outside the core and appears in the model as a
function-typed parameter: the language model, the vector store, TF-IDF
ranking, the PDF parser, the text splitter, the uuid5 hash and the random part
of temporary file names. The database table, the disk of saved indexes and the
temporary directory are explicit state (`seq` and `map` fields of classes).

One module per source file:

| module | file |
|---|---|
| `OverviewRecord` | `app/models/session_overview.py` |
| `OverviewService`, `QuestionsDataset` | `app/services/session_overview_service.py` |
| `SessionKeys`, `SessionAnalysis` | `app/core/agents/session_analysis_agent.py` |
| `ChatHistory` | `app/services/chat_history_service.py` |
| `RetrievalService` | `app/services/retrieval_service.py` |
| `RetrievalAgent` | `app/core/agents/retrieval_agent.py` |
| `IndexService` | `app/services/index_service.py` |
| `VectorService` | `app/services/vector_service.py` |
| `PdfLoader` | `app/services/pdf_loader_service.py` |

Three support modules sit alongside these:

- `Common` holds results, errors, metadata values and documents.
- `Text` holds the Python string operations the core uses.
- `Sorting` holds an insertion sort by an integer key, which stands for
  `ORDER BY`.

Errors are values. `HttpError(status, detail)` is FastAPI's
`HTTPException`, `ZeroDivision` is the division error and `KeyError` is a
missing dictionary key. `AttributeError` is a missing attribute and
`Failure` is any other exception. `Common.Describe` is `str(e)` for each of
them.

## Model

| member | source | states |
|---|---|---|
| Common.DecimalString | app/services/vector_service.py:100-103 | the status code in an error's text is written in decimal digits that read back as the code, with "-" exactly for a negative one |
| Common.Get | app/services/vector_service.py:38 | `metadata.get(key)` is the stored value when the key is present and None when it is missing |
| OverviewRecord.FindSession | app/services/session_overview_service.py:53-57 | the `.first()` row for a session: its index, with no earlier row for that session; None exactly when no row has the session |
| OverviewRecord.UniqueSessionCount | app/models/session_overview.py:15 | when `session_id` is unique, a session has one row if it is found and none otherwise |
| OverviewService.Ratio | app/services/session_overview_service.py:61-64 | `positive / total` fails with a division error exactly when total is 0; otherwise the ratio times total is positive |
| OverviewService.EvaluationScores | app/services/session_overview_service.py:61-72 | the three ratios fail exactly when one of the three totals is 0; each score times its total is its positive count |
| OverviewService.ToxicityAndSentimentUnused | app/services/session_overview_service.py:61-93 | the toxicity counts and the sentiment do not affect the stored scores |
| OverviewService.Touched | app/models/session_overview.py:24-25 | `created_at` is kept; `updated_at` moves to now exactly when some other column changed |
| OverviewService.NewOverview | app/services/session_overview_service.py:80-93 | an inserted row has the three auto ratios and the comments; all four human fields are absent and both timestamps are now |
| OverviewService.WithAutoScores | app/services/session_overview_service.py:61-76 | only the four auto fields change; id, session id, `created_at` and the human fields are kept |
| OverviewService.WithHumanScores | app/services/session_overview_service.py:173-176 | the human fields take the update's values, None included; id, session id, `created_at` and the auto fields are kept |
| OverviewService.ReplaceKeepsInvariant | app/models/session_overview.py:14-15 | overwriting a row without changing its id or session keeps the table constraints, and the session keeps exactly one row |
| OverviewService.AppendKeepsInvariant | app/models/session_overview.py:14-15 | inserting a row for a new session under the next id keeps the table constraints, and the session then has exactly one row |
| OverviewService.OverviewTable.constructor | app/models/session_overview.py:11-25 | the empty table satisfies the constraints |
| OverviewService.OverviewTable.Evaluate | app/services/session_overview_service.py:25-99 | error cases: no analysis agent without a session id, the agent's error, or a zero total. On error the table is unchanged. On success a known session's auto fields are overwritten (created=false), otherwise one row is inserted (created=true); the session then has exactly one row and the constraints hold |
| OverviewService.OverviewTable.UpdateHumanFields | app/services/session_overview_service.py:162-179 | 404 "Session overview not found" exactly for an unknown session, with nothing changed; otherwise only that row's human fields change and the updated row is returned |
| OverviewService.Matching | app/services/session_overview_service.py:133-137 | exactly the rows passing the session and cursor filters; a cursor of 0 and an empty session id filter nothing; ids stay unique |
| OverviewService.SelectedSortStrict | app/services/session_overview_service.py:138 | ordering the selected rows by id gives strictly increasing ids |
| OverviewService.PageSelectedInOrder | app/services/session_overview_service.py:133-139 | a page holds min(limit, number selected) rows; each is a table row passing the filters; ids strictly increase along the page |
| OverviewService.PageIsFirstSelected | app/services/session_overview_service.py:138 | a selected row missing from the page has a larger id than every row of the page, and the page is full |
| Sorting.SortBy | app/services/session_overview_service.py:138 | `ORDER BY`: the result is sorted by the key and is a permutation of the input |
| Sorting.SortStrict | app/services/session_overview_service.py:138 | with distinct keys the sorted result is strictly increasing |
| Sorting.OmittedComesAfter | app/services/session_overview_service.py:138 | in a strictly sorted sequence, an entry left out of the first `limit` entries comes after all of them, and there are `limit` of them |
| QuestionsDataset.DatasetDocuments | app/services/session_overview_service.py:196-202 | one document per item, in order, with the question as content and exactly {answer, id} as metadata |
| QuestionsDataset.DatasetIds | app/services/session_overview_service.py:203 | one id per item, in order |
| QuestionsDataset.DatasetIdsAreMetadataIds | app/services/session_overview_service.py:203-204 | the explicit id list equals the ids the vector service would default to from the metadata, so both calls index the same way |
| QuestionsDataset.UploadAsWritten | app/services/session_overview_service.py:191-209 | as written: the only store call is the delete; the result is always a 500, with the missing `create_collection` as its detail when the delete succeeds |
| QuestionsDataset.UploadAsWrittenLosesCollection | app/services/session_overview_service.py:193-195 | as written, no collection is left after the upload, whatever was there before |
| QuestionsDataset.UploadIntended | app/services/session_overview_service.py:191-209 | the corrected upload succeeds exactly when delete, create and indexing all succeed, and its calls are then delete, create and add with the dataset's documents and ids |
| QuestionsDataset.UploadIntendedReplacesCollection | app/services/session_overview_service.py:193-204 | a successful corrected upload of a dataset with distinct ids leaves the collection holding exactly the dataset's (id, document) pairs, in order |
| QuestionsDataset.RecreatedCollectionIsEmpty | app/services/session_overview_service.py:193-195 | after the delete no collection exists; right after the create it is empty |
| SessionAnalysis.HumanContents | app/core/agents/session_analysis_agent.py:82-83 | the human turns' contents, at most one per message |
| SessionAnalysis.HumanContentsAppend | app/core/agents/session_analysis_agent.py:82-83 | the human contents of a concatenation are the concatenation of the two parts' human contents |
| SessionAnalysis.HumanContentsOfOne | app/core/agents/session_analysis_agent.py:83 | a system or AI message contributes nothing; a human message contributes exactly its content |
| SessionAnalysis.HumanContentsMembers | app/core/agents/session_analysis_agent.py:82-83 | a string is among the human contents exactly when some message is a human message with that content |
| SessionAnalysis.GroundTruth | app/core/agents/session_analysis_agent.py:81-87 | one result per human turn; the i-th is the k=2 search of the i-th human content; it succeeds exactly when every search succeeds, and otherwise fails with some search's error |
| SessionAnalysis.GroundTruthOfEmpty | app/core/agents/session_analysis_agent.py:81-87 | an empty transcript gives an empty ground truth without error |
| SessionAnalysis.GroundTruthFailurePropagates | app/core/agents/session_analysis_agent.py:82-86 | a search failure within a prefix of the transcript is the failure of the whole transcript |
| SessionAnalysis.SharedHistoryKey | app/services/chat_history_service.py:9-20 | the agent (app/core/agents/session_analysis_agent.py:37) and the history read use the same key, uuid5 of the session id under the DNS namespace `6ba7b810-9dad-11d1-80b4-00c04fd430c8`: a successful read returns one entry per stored row of the agent's key, and each entry carries that key |
| SessionAnalysis.SessionAnalysisAgent.constructor | app/core/agents/session_analysis_agent.py:37-53 | the agent's key is the session's uuid5 key, and its messages are the history stored under that key, read once |
| SessionAnalysis.SessionAnalysisAgent.GetGroundTruth | app/core/agents/session_analysis_agent.py:74-87 | the loop computes exactly `GroundTruth` of the snapshot |
| SessionAnalysis.SessionAnalysisAgent.EvaluateSession | app/core/agents/session_analysis_agent.py:89-101 | the model receives the whole snapshot (every role) and the ground truth, and its answer is returned; a ground-truth failure is returned instead |
| ChatHistory.Lookup | app/services/chat_history_service.py:26-27 | `dict.get`: the stored value when the key is present, otherwise None |
| ChatHistory.Stored | app/services/chat_history_service.py:25 | the writer's message shape has a "data" object |
| ChatHistory.DecodeRow | app/services/chat_history_service.py:24-39 | with a "data" object, type and content come from it (None when missing). Without "data", both are None. A non-object "data" raises the `.get` AttributeError. created and session_id are always copied |
| ChatHistory.DecodeStored | app/services/chat_history_service.py:25-27 | a message stored in the writer's shape decodes back to its type and content |
| ChatHistory.RowsOf | app/services/chat_history_service.py:15 | exactly the rows whose session id is the key, each as many times as the table holds it |
| ChatHistory.Selected | app/services/chat_history_service.py:11-20 | the session's rows, and only those, each as many times as the table holds it, in ascending `created_at` |
| ChatHistory.GetChatHistoryBySession | app/services/chat_history_service.py:7-41 | one entry per selected row with the same index, in order; it succeeds exactly when every row decodes, and otherwise returns the first failing row's error |
| ChatHistory.DecodeAll | app/services/chat_history_service.py:22-41 | the loop: one entry per row with the same index, or the first failing row's error |
| ChatHistory.HistoryOrderAndKey | app/services/chat_history_service.py:16-39 | entries carry the session's key and ascending creation times; a session without rows reads as empty |
| RetrievalService.NewService | app/services/retrieval_service.py:18-34 | a given index name is loaded at construction, and its load error (such as the 404) fails construction; a store exists exactly when a collection is given |
| RetrievalService.Retrieve | app/services/retrieval_service.py:53-58 | "tfidf" searches the index with the same query and k; "vector" searches the store with them, or fails with the missing attribute; any other type fails with "Unsupported retrieval type: ..." |
| RetrievalService.RetrieveInformation | app/services/retrieval_service.py:36-59 | a retrieval error is raised as is; otherwise the agent gets the original query and exactly the retrieved passages, and its result is returned unchanged |
| RetrievalService.UnsupportedTypeFails | app/services/retrieval_service.py:57-58 | an unsupported type fails the same way whatever the index, store and model; nothing is searched or generated |
| RetrievalService.MismatchedTypeFails | app/services/retrieval_service.py:26-34 | "tfidf" without an index name fails with 400 "No index has been created yet"; "vector" without a collection fails with the missing `vector_service` |
| RetrievalService.BuiltOnSavedIndex | app/services/retrieval_service.py:28-29 | a service built on a just-saved index searches the saved retriever with the requested k |
| RetrievalAgent.DocumentBlock | app/core/agents/retrieval_agent.py:86 | a passage renders as "Page: ...\nSource: ...\n<content>\n-----------\n" exactly when it has both keys; a missing 'page' is reported before a missing 'file_name' |
| RetrievalAgent.Blocks | app/core/agents/retrieval_agent.py:84-89 | one block per passage, the same index, in order; it fails exactly when some passage fails, and then with the first failing passage's error |
| RetrievalAgent.FormatDocuments | app/core/agents/retrieval_agent.py:74-89 | the blocks joined by "\n", or the first passage's error |
| RetrievalAgent.FormatNothing | app/core/agents/retrieval_agent.py:84-89 | no passages give the empty string |
| RetrievalAgent.FormatOne | app/core/agents/retrieval_agent.py:86 | one passage gives exactly its block text |
| RetrievalAgent.FormatSnoc | app/core/agents/retrieval_agent.py:84-89 | appending a passage appends one "\n" and its block |
| RetrievalAgent.ModelInput | app/core/agents/retrieval_agent.py:57-60 | the model input has exactly the keys query and documents, holding the query and the formatted passages |
| RetrievalAgent.GenerateResponse | app/core/agents/retrieval_agent.py:37-72 | the result's only key is "ai_response", holding the reply's content or the bare reply; a formatting or model failure becomes "Failed to generate response: " followed by its message |
| RetrievalAgent.MissingMetadataFailsGeneration | app/core/agents/retrieval_agent.py:70-72 | a passage without 'page' or 'file_name' fails generation before the model is called, naming one of those two keys |
| IndexService.IndexPathInjective | app/services/index_service.py:52 | different names have different paths "./app/indexes/<name>.pkl" |
| IndexService.SaveTo | app/services/index_service.py:37-57 | 400 without a retriever, and 500 "Error saving index: ..." on a write failure; otherwise the retriever is stored at the name's path |
| IndexService.LoadFrom | app/services/index_service.py:59-77 | 404 "Index <name> not found" exactly when the path is missing; it succeeds exactly when a saved index is there; an unreadable file's error passes through unwrapped |
| IndexService.RemoveFrom | app/services/index_service.py:106-130 | 404 for a missing path, 500 "Error removing index: ..." on failure; otherwise exactly that path is gone |
| IndexService.SearchWith | app/services/index_service.py:79-104 | 400 without a retriever; otherwise the ranking runs with k set to the requested k, and its failure becomes 500 "Error performing search: ..." |
| IndexService.SaveThenLoad | app/services/index_service.py:52-72 | saving and then loading a name gives back the saved retriever |
| IndexService.SaveKeepsOthers | app/services/index_service.py:52 | saving under one name does not change what loading another name gives |
| IndexService.RemoveThenLoad | app/services/index_service.py:115-125 | after a successful removal, loading or removing the name again is a 404 |
| IndexService.SearchIgnoresPreviousK | app/services/index_service.py:98 | because k is set before each call, the retriever's earlier k never matters |
| IndexService.IndexService.constructor | app/services/index_service.py:19-27 | a retriever exists exactly when a non-empty corpus is given |
| IndexService.IndexService.IndexDocuments | app/services/index_service.py:29-35 | the retriever is replaced by one built from the new corpus alone |
| IndexService.IndexService.SaveIndex | app/services/index_service.py:37-57 | the disk becomes `SaveTo`'s result, or is unchanged on failure, and the error is returned |
| IndexService.IndexService.LoadIndex | app/services/index_service.py:59-77 | the retriever becomes the loaded one; on failure the current retriever is kept and the error is returned |
| IndexService.IndexService.Search | app/services/index_service.py:79-104 | the result is `SearchWith`; the retriever keeps the requested k afterwards, even when the search fails |
| IndexService.IndexService.RemoveIndex | app/services/index_service.py:106-130 | the disk becomes `RemoveFrom`'s result, or is unchanged on failure |
| IndexService.SaveAndReload | app/services/index_service.py:19-77 | saving an index and loading it into a new service restores the retriever |
| VectorService.IdsFor | app/services/vector_service.py:37-38 | a non-empty id list is passed on unchanged; otherwise there is one id per document, its metadata "id", or None when it has none |
| VectorService.IndexDocuments | app/services/vector_service.py:33-44 | one `add_documents` call with the defaulted ids; its failure becomes 500 "Error at indexing the documents: ..." |
| VectorService.FilterArgument | app/services/vector_service.py:50 | a filter reaches the store exactly when it is non-empty, and then unchanged |
| VectorService.Search | app/services/vector_service.py:46-60 | the store's results, or 500 "An error occurred while searching documents: ..." |
| VectorService.SearchWithScore | app/services/vector_service.py:62-89 | the store's scored results, or 500 "An error occurred during search with score: ..." |
| VectorService.DeleteDocuments | app/services/vector_service.py:91-104 | the store's delete, with failure as 500 "Error deleting documents: ..." |
| VectorService.OnlyDeleteCollectionUnwrapped | app/services/vector_service.py:91-110 | the same store error reaches the caller unchanged from `delete_collection`, but from `delete_documents` as a different error, the 500 "Error deleting documents: ..." |
| VectorService.SearchFilterDispatch | app/services/vector_service.py:50-55 | no filter and an empty filter make the same store call for both searches; a non-empty filter is forwarded |
| VectorService.DefaultIdsAgree | app/services/vector_service.py:37-39 | indexing with an explicit id list equals indexing documents that carry those ids in their metadata |
| Text.LastSegment | app/services/pdf_loader_service.py:91 | `split("/")[-1]` has no "/", is a suffix of its input, and is the whole input when there is no "/" |
| Text.FirstPiece | app/services/pdf_loader_service.py:92 | `split("_temp_")[0]` is a prefix of its input |
| Text.FirstPieceWhole | app/services/pdf_loader_service.py:92 | without an occurrence of the separator, the first piece is the whole string |
| Text.JoinSnoc | app/core/agents/retrieval_agent.py:85 | joining one more part appends the separator and the part |
| PdfLoader.Rejection | app/services/pdf_loader_service.py:33-44 | 400 "No files provided" for no files; otherwise a 400 naming the first non-PDF file; none exactly when every file is a PDF |
| PdfLoader.NotPdf | app/services/pdf_loader_service.py:39-44 | the first non-PDF file from a position on, named in the 400 |
| PdfLoader.ValidateUploads | app/services/pdf_loader_service.py:33-44 | the validation loop passes exactly when `Rejection` finds nothing, and otherwise fails with its error |
| PdfLoader.FileNameOf | app/services/pdf_loader_service.py:89-93 | the extracted file name contains neither "/" nor "_temp_" |
| PdfLoader.ExtractAfterDirectory | app/services/pdf_loader_service.py:91 | on a temporary path only the part after the directory matters |
| PdfLoader.CleanNameRecovered | app/services/pdf_loader_service.py:92 | a name that neither contains "_temp_" nor ends in "_temp" is recovered exactly |
| PdfLoader.MarkerInNameCuts | app/services/pdf_loader_service.py:92 | a name containing "_temp_" is cut short |
| PdfLoader.TempSuffixCuts | app/services/pdf_loader_service.py:92 | a name ending in "_temp" is cut short |
| PdfLoader.TempNameRoundTrip | app/services/pdf_loader_service.py:57-61 | for a name and random part without "/", the extracted name is the upload's name exactly when the name neither contains "_temp_" nor ends in "_temp" |
| PdfLoader.TempSuffixCounterexample | app/services/pdf_loader_service.py:89-93 | an upload named "notes_temp" is labelled "notes" |
| PdfLoader.DeleteAllRemovesListed | app/services/pdf_loader_service.py:107-111 | removal is attempted for every listed path: exactly the listed paths whose removal succeeds are gone, and nothing else changes |
| PdfLoader.WriteThenDeleteRestores | app/services/pdf_loader_service.py:95 | files written to fresh paths and then all removed leave the directory as it was |
| PdfLoader.CreatedPaths | app/services/pdf_loader_service.py:56-65 | one temporary path per copied upload, in file order |
| PdfLoader.FirstFault | app/services/pdf_loader_service.py:56-66 | the number of uploads copied before the first fault |
| PdfLoader.Label | app/services/pdf_loader_service.py:88-93 | every page gets `file_name` and keeps its content and other metadata |
| PdfLoader.PagesLabelled | app/services/pdf_loader_service.py:88-96 | every loaded page carries the recorded name of one of the temporary files |
| PdfLoader.PagesByFile | app/services/pdf_loader_service.py:82-96 | a successful load loaded every temporary file, and its result is each file's own pages, in path order, each labelled with the name recorded for that file's path |
| PdfLoader.PagesCarryUploadNames | app/services/pdf_loader_service.py:56-96 | with the names recorded at creation, the loaded pages are each upload's pages in upload order, each page labelled with its own upload's file name, whatever that name is |
| PdfLoader.PagesFailurePropagates | app/services/pdf_loader_service.py:98-103 | a loading failure on one temporary file is the failure of the whole load |
| PdfLoader.PdfLoaderService.constructor | app/services/pdf_loader_service.py:26-28 | the files are kept, and no temporary paths or documents exist yet |
| PdfLoader.PdfLoaderService.DeleteTempFiles | app/services/pdf_loader_service.py:105-111 | the directory after attempting to remove every recorded path, with failures swallowed |
| PdfLoader.PdfLoaderService.CopyUntilFault | app/services/pdf_loader_service.py:56-65 | copies and records the uploads up to the first fault, in order |
| PdfLoader.PdfLoaderService.CopyOne | app/services/pdf_loader_service.py:57-65 | one upload is written to its path, and the path and name are recorded |
| PdfLoader.PdfLoaderService.CreateTempFiles | app/services/pdf_loader_service.py:48-71 | everything is copied, or on the first fault the recorded files are removed and 500 "Error processing uploaded files: ..." is returned; a file whose write failed stays behind |
| PdfLoader.PdfLoaderService.LoadPdfs | app/services/pdf_loader_service.py:73-103 | the split of all labelled pages, or 500 "Error loading PDF documents: ..."; the temporary files are removed in both cases |
| PdfLoader.NewPdfLoader | app/services/pdf_loader_service.py:16-46 | a refused upload returns its 400 and writes nothing. Otherwise the loader exists exactly when no copy faults: it then has one temporary file per upload, in order, holding that upload's bytes, with that upload's name recorded. At the first fault the 500 "Error processing uploaded files: ..." is returned and the directory is what the cleanup leaves |
| PdfLoader.RecordedNames | app/services/pdf_loader_service.py:57-65 | the name recorded for each temporary path is its upload's name, while extraction from the path agrees only for names that neither contain "_temp_" nor end in "_temp" |

## Left out

- The language model (`run` in `app/core/agents/base_agent.py`, ChatOpenAI, Langfuse tracing) is an uninterpreted `llm` parameter, and so are the prompt templates.
- The `SessionAnalysisAgent` constructor passes keyword arguments that the base agent does not accept. The model supplies the transcript through a `history` parameter instead of modelling that construction.
- PGVector, the OpenAI embeddings and similarity ranking are the `Store` record of functions. The store's `add_documents` is given upsert-by-id semantics only for the collection-replacement lemma.
- The vector service's own construction failure (the 500 raised when the store cannot be initialised) is not modelled: a store is always available once a collection is given.
- Cohere reranking (`app/services/rerank_service.py`) is not part of this model.
- TF-IDF scoring is the `Rank` parameter. The library's error when a retriever is built from an empty corpus in `index_documents` is not modelled.
- The pickle format is not modelled, and neither is the `isdir`/`rmtree` distinction in `remove_index`: a saved index is one disk entry.
- The SHA-1 inside uuid5 is the `NameUuid` parameter, so only determinism of the key is modelled.
- The SQL text, database sessions, commits and migrations are not modelled. The table is in-memory state; committing is the method's effect, and no effect on error stands for the rollback.
- `ORDER BY created_at` ties: the model's sort puts rows with equal times in one fixed order, and the database promises none.
- `limit` is a `nat`: a negative SQL limit is not modelled.
- HTTP routers and status-code mapping (`app/routers/**`, `app/main.py`) are not part of this model.
- Clock values are abstract `Timestamp` integers. Scores are exact `real` ratios rather than IEEE floats.
- Dataset items are typed records, so an item missing "question", "answer" or "id" (a KeyError in the comprehension) is not modelled.
- Temporary file names: the random part is the `token` parameter. Name collisions and the library's retries are not modelled; a later write to the same path overwrites.
- Partial writes: a failed copy leaves an empty file behind.
- Logging (failed removals, errors) is left out; a failed removal is swallowed.
- PDF parsing and chunking are the `Loader` and `Splitter` parameters. A fault inside the splitter is not modelled.
- PdfLoader.PdfLoaderService.LoadPdfs: labels pages with the file name recorded when the temporary file was created, which is the corrected behaviour (see Findings). It therefore does not read a page's "source" metadata, and cannot model the KeyError when "source" is missing.
- RetrievalService.Retrieve: the service is a value, so the TF-IDF search's update of the retriever's `k` is not kept between queries. `IndexService.SearchIgnoresPreviousK` shows that this update never affects a later search.

## Findings

| source | as written | input that shows it | evidently intended | confidence | as-written member | corrected member |
|---|---|---|---|---|---|---|
| app/services/session_overview_service.py:193-204 | the collection is deleted, then `create_collection` is called, a method the vector service does not have (app/services/vector_service.py only defines `delete_collection`); the AttributeError becomes a 500, so the dataset is never indexed and the old ground truth is gone | any dataset, for example a single item `{"question": "q", "answer": "a", "id": 1}` | delete the collection, recreate it, and index the dataset with its ids, so the collection then holds exactly the dataset | not executed | QuestionsDataset.UploadAsWritten | QuestionsDataset.UploadIntended |
| app/services/pdf_loader_service.py:89-93 | the file name is recovered from the temporary path by cutting at the first "_temp_"; a name ending in "_temp" or containing "_temp_" loses its tail, because the marker overlaps the name | an upload named "notes_temp" gets the temporary path "/tmp/notes_temp_temp_<random>.pdf", and its pages are labelled "notes" | every page labelled with the uploaded file name | not executed | PdfLoader.TempSuffixCounterexample | PdfLoader.PdfLoaderService.LoadPdfs |

For the first row, `QuestionsDataset.UploadAsWrittenLosesCollection` also shows that
the as-written upload leaves no collection behind. The corrected upload is
proved to leave the collection holding exactly the dataset
(`QuestionsDataset.UploadIntendedReplacesCollection`).

For the second row, the exact condition under which the as-written
extraction is wrong is `PdfLoader.TempNameRoundTrip`. The corrected loader
labels pages with the name recorded at copy time. `PdfLoader.RecordedNames`
proves that name is the upload's own. `PdfLoader.NewPdfLoader` records
exactly those names. `PdfLoader.PagesCarryUploadNames` proves, end to end,
that each upload's pages come out labelled with that upload's file name.
