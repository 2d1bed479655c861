/** The session analysis agent: it reads one session's transcript once,
    looks up ground truth in the questions dataset for every human turn,
    and hands transcript and ground truth to the language model, which
    returns the structured evaluation. */
module SessionAnalysis {
  import opened Common
  import VectorService
  import SessionKeys
  import OverviewRecord
  import ChatHistory

  /** A transcript message by role. */
  datatype Message =
    | SystemMessage(content: string)
    | HumanMessage(content: string)
    | AIMessage(content: string)

  /** The model's input: {"chat_history", "ground_truth"}. */
  datatype EvaluationInput = EvaluationInput(chatHistory: seq<Message>, groundTruth: seq<seq<Document>>)

  /** The contents of the human turns, in transcript order. */
  function HumanContents(messages: seq<Message>): (r: seq<string>)
    ensures |r| <= |messages|
    decreases |messages|
  {
    if messages == [] then []
    else
      var last := messages[|messages| - 1];
      HumanContents(messages[..|messages| - 1]) + (if last.HumanMessage? then [last.content] else [])
  }

  lemma {:induction false} HumanContentsAppend(a: seq<Message>, b: seq<Message>)
    ensures HumanContents(a + b) == HumanContents(a) + HumanContents(b)
    decreases |b|
  {
    if b != [] {
      var b' := b[..|b| - 1];
      assert (a + b)[..|a + b| - 1] == a + b';
      HumanContentsAppend(a, b');
    } else {
      assert a + b == a;
    }
  }

  /** A transcript holding no human turn contributes nothing; a single human
      turn contributes exactly its content. */
  lemma HumanContentsOfOne(m: Message)
    ensures HumanContents([m]) == if m.HumanMessage? then [m.content] else []
  {
    assert [m][..0] == [];
  }

  /** `c` is the content of some human turn exactly when it is in the list. */
  lemma {:induction false} HumanContentsMembers(messages: seq<Message>, c: string)
    ensures c in HumanContents(messages) <==>
      exists i :: 0 <= i < |messages| && messages[i] == HumanMessage(c)
    decreases |messages|
  {
    if messages != [] {
      var init := messages[..|messages| - 1];
      HumanContentsMembers(init, c);
      if exists i :: 0 <= i < |init| && init[i] == HumanMessage(c) {
        var i :| 0 <= i < |init| && init[i] == HumanMessage(c);
        assert messages[i] == HumanMessage(c);
      }
      if exists i :: 0 <= i < |messages| && messages[i] == HumanMessage(c) {
        var i :| 0 <= i < |messages| && messages[i] == HumanMessage(c);
        if i < |init| {
          assert init[i] == HumanMessage(c);
        }
      }
    }
  }

  /** The reference for `get_ground_truth`: the k=2 search of each human
      turn, in order, or the first search failure. */
  function GroundTruth(store: VectorService.Store, messages: seq<Message>): (r: Result<seq<seq<Document>>>)
    ensures r.Ok? ==> |r.value| == |HumanContents(messages)|
    ensures r.Ok? ==> forall i :: 0 <= i < |r.value| ==>
      VectorService.Search(store, HumanContents(messages)[i], 2, None) == Ok(r.value[i])
    ensures r.Ok? <==> forall i :: 0 <= i < |HumanContents(messages)| ==>
      VectorService.Search(store, HumanContents(messages)[i], 2, None).Ok?
    ensures r.Err? ==>
      exists i :: 0 <= i < |HumanContents(messages)| &&
        VectorService.Search(store, HumanContents(messages)[i], 2, None) == Err(r.error)
    decreases |messages|
  {
    if messages == [] then Ok([])
    else
      var init := messages[..|messages| - 1];
      var last := messages[|messages| - 1];
      var humans := HumanContents(init);
      assert HumanContents(messages) == humans + (if last.HumanMessage? then [last.content] else []);
      assert forall i :: 0 <= i < |humans| ==> HumanContents(messages)[i] == humans[i];
      match GroundTruth(store, init)
      case Err(e) => Err(e)
      case Ok(found) =>
        if !last.HumanMessage? then Ok(found)
        else
          assert HumanContents(messages)[|humans|] == last.content;
          match VectorService.Search(store, last.content, 2, None)
          case Err(e) => Err(e)
          case Ok(docs) => Ok(found + [docs])
  }

  /** An empty transcript has an empty ground truth and cannot fail. */
  lemma GroundTruthOfEmpty(store: VectorService.Store)
    ensures GroundTruth(store, []) == Ok([])
  {
  }

  class SessionAnalysisAgent {
    /** uuid5 of the session id: the key of its chat history. */
    const sessionKey: string
    /** The transcript, read once at construction. */
    const messages: seq<Message>
    /** The "questions_dataset" collection. */
    const store: VectorService.Store

    /** `history` is the stored transcript of each key. */
    constructor (sessionId: string, uuid5: SessionKeys.NameUuid,
                 history: string -> seq<Message>, store: VectorService.Store)
      ensures sessionKey == SessionKeys.SessionKey(uuid5, sessionId)
      ensures messages == history(sessionKey)
      ensures this.store == store
    {
      sessionKey := SessionKeys.SessionKey(uuid5, sessionId);
      messages := history(SessionKeys.SessionKey(uuid5, sessionId));
      this.store := store;
    }

    /** `get_ground_truth`: one search per human turn of the transcript. */
    method GetGroundTruth() returns (r: Result<seq<seq<Document>>>)
      ensures r == GroundTruth(store, messages)
    {
      var groundTruth: seq<seq<Document>> := [];
      var i := 0;
      while i < |messages|
        invariant 0 <= i <= |messages|
        invariant GroundTruth(store, messages[..i]) == Ok(groundTruth)
      {
        assert messages[..i + 1][..i] == messages[..i];
        var message := messages[i];
        if message.HumanMessage? {
          var found := VectorService.Search(store, message.content, 2, None);
          if found.Err? {
            assert messages[..i + 1][i] == message;
            GroundTruthFailurePropagates(store, messages[..i + 1], messages);
            return Err(found.error);
          }
          groundTruth := groundTruth + [found.value];
        }
        i := i + 1;
      }
      assert messages[..i] == messages;
      return Ok(groundTruth);
    }

    /** `evaluate_session`: the whole transcript, every role included, and
        the ground truth go to the model, whose answer is returned. */
    method EvaluateSession(llm: EvaluationInput -> Result<OverviewRecord.Evaluation>)
      returns (r: Result<OverviewRecord.Evaluation>)
      ensures GroundTruth(store, messages).Err? ==> r == Err(GroundTruth(store, messages).error)
      ensures GroundTruth(store, messages).Ok? ==>
        r == llm(EvaluationInput(messages, GroundTruth(store, messages).value))
    {
      var groundTruth := GetGroundTruth();
      if groundTruth.Err? {
        return Err(groundTruth.error);
      }
      r := llm(EvaluationInput(messages, groundTruth.value));
    }
  }

  /** The agent reads its transcript and `get_chat_history_by_session` reads
      its rows under one and the same key: a successful read of the session
      returns one entry per stored row of the agent's key, and only those. */
  method SharedHistoryKey(sessionId: string, uuid5: SessionKeys.NameUuid, history: string -> seq<Message>,
                          store: VectorService.Store, rows: seq<ChatHistory.ChatRow>)
    returns (agent: SessionAnalysisAgent, entries: Result<seq<ChatHistory.ChatEntry>>)
    ensures agent.sessionKey == uuid5(SessionKeys.NamespaceDns, sessionId)
    ensures entries.Ok? ==>
      forall i :: 0 <= i < |entries.value| ==> entries.value[i].sessionId == agent.sessionKey
    ensures entries.Ok? ==> |entries.value| == |ChatHistory.RowsOf(rows, agent.sessionKey)|
  {
    agent := new SessionAnalysisAgent(sessionId, uuid5, history, store);
    entries := ChatHistory.GetChatHistoryBySession(rows, sessionId, uuid5);
    if entries.Ok? {
      var selected := ChatHistory.Selected(rows, agent.sessionKey);
      ChatHistory.HistoryOrderAndKey(rows, agent.sessionKey, entries.value);
      assert |multiset(selected)| == |multiset(ChatHistory.RowsOf(rows, agent.sessionKey))|;
    }
  }

  /** A search failure on a prefix of the transcript is the failure of the
      whole transcript. */
  lemma {:induction false} GroundTruthFailurePropagates(
    store: VectorService.Store, prefix: seq<Message>, messages: seq<Message>)
    requires prefix <= messages
    requires GroundTruth(store, prefix).Err?
    ensures GroundTruth(store, messages) == GroundTruth(store, prefix)
    decreases |messages|
  {
    if |messages| > |prefix| {
      var init := messages[..|messages| - 1];
      assert prefix <= init;
      GroundTruthFailurePropagates(store, prefix, init);
    } else {
      assert prefix == messages;
    }
  }
}
