/** The retrieval agent: the retrieved passages are rendered into one prompt
    string, the language model answers the query from them, and the answer
    is returned under "ai_response"; any failure becomes one exception whose
    message starts "Failed to generate response: ". */
module RetrievalAgent {
  import opened Common
  import Text

  const GenerationFailed := "Failed to generate response: "

  /** The rendering of a passage whose metadata has a page and a file name. */
  function BlockText(page: Value, fileName: Value, content: string): string
  {
    "Page: " + Render(page) + "\nSource: " + Render(fileName) + "\n" + content + "\n-----------\n"
  }

  /** One passage's block; 'page' is read before 'file_name', so a passage
      lacking both reports 'page'. */
  function DocumentBlock(d: Document): (r: Result<string>)
    ensures r.Ok? <==> "page" in d.metadata && "file_name" in d.metadata
    ensures r.Ok? ==> r.value == BlockText(d.metadata["page"], d.metadata["file_name"], d.content)
    ensures "page" !in d.metadata ==> r == Err(KeyError("page"))
    ensures "page" in d.metadata && "file_name" !in d.metadata ==> r == Err(KeyError("file_name"))
  {
    if "page" !in d.metadata then Err(KeyError("page"))
    else if "file_name" !in d.metadata then Err(KeyError("file_name"))
    else Ok(BlockText(d.metadata["page"], d.metadata["file_name"], d.content))
  }

  /** The blocks of all passages, in order, or the first passage's error. */
  function Blocks(documents: seq<Document>): (r: Result<seq<string>>)
    ensures r.Ok? <==> forall i :: 0 <= i < |documents| ==> DocumentBlock(documents[i]).Ok?
    ensures r.Ok? ==> |r.value| == |documents|
    ensures r.Ok? ==> forall i :: 0 <= i < |documents| ==> DocumentBlock(documents[i]) == Ok(r.value[i])
    ensures r.Err? ==>
      exists i :: 0 <= i < |documents| && DocumentBlock(documents[i]) == Err(r.error) &&
        (forall j :: 0 <= j < i ==> DocumentBlock(documents[j]).Ok?)
  {
    if documents == [] then Ok([])
    else
      match DocumentBlock(documents[0])
      case Err(e) => Err(e)
      case Ok(block) =>
        match Blocks(documents[1..])
        case Err(e) =>
          assert forall j :: 1 <= j < |documents| ==> documents[1..][j - 1] == documents[j];
          Err(e)
        case Ok(rest) =>
          assert forall j :: 1 <= j < |documents| ==> documents[1..][j - 1] == documents[j];
          Ok([block] + rest)
  }

  /** `_format_documents`: the blocks joined by a single newline. */
  function FormatDocuments(documents: seq<Document>): (r: Result<string>)
    ensures r.Ok? <==> Blocks(documents).Ok?
    ensures r.Ok? ==> r.value == Text.Join("\n", Blocks(documents).value)
    ensures r.Err? ==> r.error == Blocks(documents).error
  {
    match Blocks(documents)
    case Err(e) => Err(e)
    case Ok(blocks) => Ok(Text.Join("\n", blocks))
  }

  /** No passages render as the empty string. */
  lemma FormatNothing()
    ensures FormatDocuments([]) == Ok("")
  {
  }

  /** A single passage renders as exactly its block. */
  lemma FormatOne(d: Document)
    requires "page" in d.metadata && "file_name" in d.metadata
    ensures FormatDocuments([d]) ==
      Ok("Page: " + Render(d.metadata["page"]) + "\nSource: " + Render(d.metadata["file_name"]) +
         "\n" + d.content + "\n-----------\n")
  {
    var block := BlockText(d.metadata["page"], d.metadata["file_name"], d.content);
    assert [d][0] == d && [d][1..] == [];
    assert DocumentBlock(d) == Ok(block);
    assert Blocks([]) == Ok([]);
    assert Blocks([d]) == Ok([block] + []);
    assert [block] + [] == [block];
    assert Text.Join("\n", [block]) == block;
  }

  /** Appending a passage appends a newline and its block: blocks follow the
      input order, separated by one newline. */
  lemma FormatSnoc(documents: seq<Document>, d: Document)
    requires documents != []
    requires FormatDocuments(documents).Ok? && DocumentBlock(d).Ok?
    ensures FormatDocuments(documents + [d]) ==
            Ok(FormatDocuments(documents).value + "\n" + DocumentBlock(d).value)
  {
    var all := documents + [d];
    var blocks := Blocks(documents).value;
    forall i | 0 <= i < |all| ensures DocumentBlock(all[i]).Ok? {
      if i < |documents| {
        assert all[i] == documents[i];
      }
    }
    var allBlocks := Blocks(all).value;
    assert allBlocks == blocks + [DocumentBlock(d).value] by {
      forall i | 0 <= i < |allBlocks| ensures allBlocks[i] == (blocks + [DocumentBlock(d).value])[i] {
        if i < |documents| {
          assert all[i] == documents[i];
        }
      }
    }
    Text.JoinSnoc("\n", blocks, DocumentBlock(d).value);
  }

  /** What the model answers: a message with content, or a bare value. */
  datatype ModelResponse = WithContent(content: string) | Bare(text: string)

  /** `{"query": query, "documents": documents_str}`. */
  function ModelInput(query: string, documents: string): (input: map<string, string>)
    ensures input.Keys == {"query", "documents"}
    ensures input["query"] == query && input["documents"] == documents
  {
    map["query" := query, "documents" := documents]
  }

  /** `generate_response`. The model itself is `llm`. */
  function GenerateResponse(query: string, documents: seq<Document>,
                            llm: map<string, string> -> Result<ModelResponse>): (r: Result<map<string, string>>)
    ensures r.Ok? ==> r.value.Keys == {"ai_response"}
    ensures r.Ok? <==>
      FormatDocuments(documents).Ok? && llm(ModelInput(query, FormatDocuments(documents).value)).Ok?
    ensures FormatDocuments(documents).Err? ==>
      r == Err(Failure(GenerationFailed + Describe(FormatDocuments(documents).error)))
    ensures FormatDocuments(documents).Ok? ==>
      var answer := llm(ModelInput(query, FormatDocuments(documents).value));
      (answer.Err? ==> r == Err(Failure(GenerationFailed + Describe(answer.error)))) &&
      (answer.Ok? && answer.value.WithContent? ==> r.value["ai_response"] == answer.value.content) &&
      (answer.Ok? && answer.value.Bare? ==> r.value["ai_response"] == answer.value.text)
  {
    match FormatDocuments(documents)
    case Err(e) => Err(Failure(GenerationFailed + Describe(e)))
    case Ok(text) =>
      match llm(ModelInput(query, text))
      case Err(e) => Err(Failure(GenerationFailed + Describe(e)))
      case Ok(WithContent(content)) => Ok(map["ai_response" := content])
      case Ok(Bare(value)) => Ok(map["ai_response" := value])
  }

  /** A passage missing its page or file name fails generation, naming a
      missing key, before the model is called. */
  lemma MissingMetadataFailsGeneration(query: string, documents: seq<Document>,
                                       llm: map<string, string> -> Result<ModelResponse>, i: int)
    requires 0 <= i < |documents|
    requires "page" !in documents[i].metadata || "file_name" !in documents[i].metadata
    ensures FormatDocuments(documents).Err?
    ensures FormatDocuments(documents).error in {KeyError("page"), KeyError("file_name")}
    ensures GenerateResponse(query, documents, llm) ==
            Err(Failure(GenerationFailed + Describe(FormatDocuments(documents).error)))
  {
    assert !DocumentBlock(documents[i]).Ok?;
    var e := Blocks(documents).error;
    var j :| 0 <= j < |documents| && DocumentBlock(documents[j]) == Err(e);
  }
}
