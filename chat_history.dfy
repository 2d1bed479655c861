/** Reading one session's stored chat messages (`get_chat_history_by_session`):
    the rows under the session's key in ascending `created_at` order, each
    decoded into its message type, content, creation time and session key. */
module ChatHistory {
  import opened Common
  import Sorting
  import SessionKeys

  /** A JSON value as the `message` column holds it. */
  datatype Json =
    | JNull
    | JBool(b: bool)
    | JInt(i: int)
    | JStr(s: string)
    | JList(items: seq<Json>)
    | JObj(fields: map<string, Json>)

  /** One row of the `chat_history` table. */
  datatype ChatRow = ChatRow(sessionId: string, message: Json, createdAt: int)

  /** One decoded entry: {"type", "content", "created", "session_id"}. */
  datatype ChatEntry = ChatEntry(kind: Json, content: Json, created: int, sessionId: string)

  /** Python's type name of a decoded JSON value. */
  function TypeName(j: Json): string
  {
    match j
    case JNull => "NoneType"
    case JBool(_) => "bool"
    case JInt(_) => "int"
    case JStr(_) => "str"
    case JList(_) => "list"
    case JObj(_) => "dict"
  }

  /** `dict.get(key)`: None when the key is missing. */
  function Lookup(fields: map<string, Json>, key: string): (r: Json)
    ensures key in fields ==> r == fields[key]
    ensures key !in fields ==> r == JNull
  {
    if key in fields then fields[key] else JNull
  }

  /** The message has a "data" entry, so type and content are read from it. */
  predicate HasData(message: Json)
  {
    message.JObj? && "data" in message.fields
  }

  /** The message as the chat history writer stores it: its type and
      content under "data", next to a top-level "type". */
  function Stored(kind: Json, content: Json): (j: Json)
    ensures HasData(j)
  {
    JObj(map["type" := kind, "data" := JObj(map["type" := kind, "content" := content])])
  }

  /** Decoding one row. Type and content come from "data" when the message
      has it; calling `.get` on a "data" that is not an object raises. */
  function DecodeRow(row: ChatRow): (r: Result<ChatEntry>)
    ensures r.Err? <==> HasData(row.message) && !row.message.fields["data"].JObj?
    ensures r.Err? ==>
      r.error == AttributeError("'" + TypeName(row.message.fields["data"]) + "' object has no attribute 'get'")
    ensures r.Ok? ==> r.value.created == row.createdAt && r.value.sessionId == row.sessionId
    ensures r.Ok? && HasData(row.message) ==>
      r.value.kind == Lookup(row.message.fields["data"].fields, "type") &&
      r.value.content == Lookup(row.message.fields["data"].fields, "content")
    ensures !HasData(row.message) ==> r.Ok? && r.value.kind == JNull && r.value.content == JNull
  {
    if HasData(row.message) then
      var data := row.message.fields["data"];
      if data.JObj? then
        Ok(ChatEntry(Lookup(data.fields, "type"), Lookup(data.fields, "content"), row.createdAt, row.sessionId))
      else
        Err(AttributeError("'" + TypeName(data) + "' object has no attribute 'get'"))
    else
      Ok(ChatEntry(JNull, JNull, row.createdAt, row.sessionId))
  }

  /** A message stored by the writer decodes back to its type and content. */
  lemma DecodeStored(sessionId: string, kind: Json, content: Json, createdAt: int)
    ensures DecodeRow(ChatRow(sessionId, Stored(kind, content), createdAt)) ==
            Ok(ChatEntry(kind, content, createdAt, sessionId))
  {
  }

  function CreatedAt(row: ChatRow): int
  {
    row.createdAt
  }

  /** `WHERE session_id = :session_id`, in table order. */
  function RowsOf(rows: seq<ChatRow>, key: string): (r: seq<ChatRow>)
    ensures forall row :: row in r <==> row in rows && row.sessionId == key
    ensures forall row :: multiset(r)[row] == if row.sessionId == key then multiset(rows)[row] else 0
    ensures |r| <= |rows|
  {
    if rows == [] then []
    else
      assert rows == [rows[0]] + rows[1..];
      (if rows[0].sessionId == key then [rows[0]] else []) + RowsOf(rows[1..], key)
  }

  /** The query's result: the session's rows, `ORDER BY created_at ASC`. */
  function Selected(rows: seq<ChatRow>, key: string): (r: seq<ChatRow>)
    ensures Sorting.SortedBy(r, CreatedAt)
    ensures forall row :: row in r <==> row in rows && row.sessionId == key
    ensures multiset(r) == multiset(RowsOf(rows, key))
  {
    var s := RowsOf(rows, key);
    forall row ensures row in Sorting.SortBy(s, CreatedAt) <==> row in s {
      Sorting.SortSameElements(s, CreatedAt, row);
    }
    Sorting.SortBy(s, CreatedAt)
  }

  /** `get_chat_history_by_session`: one decoded entry per selected row, in
      the selected order; the first row that cannot be decoded ends it. */
  method GetChatHistoryBySession(rows: seq<ChatRow>, sessionId: string, uuid5: SessionKeys.NameUuid)
    returns (r: Result<seq<ChatEntry>>)
    ensures var selected := Selected(rows, SessionKeys.SessionKey(uuid5, sessionId));
      r.Ok? <==> forall i :: 0 <= i < |selected| ==> DecodeRow(selected[i]).Ok?
    ensures var selected := Selected(rows, SessionKeys.SessionKey(uuid5, sessionId));
      r.Ok? ==>
        |r.value| == |selected| &&
        forall i :: 0 <= i < |selected| ==> DecodeRow(selected[i]) == Ok(r.value[i])
    ensures var selected := Selected(rows, SessionKeys.SessionKey(uuid5, sessionId));
      r.Err? ==>
        exists i :: 0 <= i < |selected| && DecodeRow(selected[i]) == Err(r.error) &&
          (forall j :: 0 <= j < i ==> DecodeRow(selected[j]).Ok?)
  {
    var key := SessionKeys.SessionKey(uuid5, sessionId);
    var result := Selected(rows, key);
    r := DecodeAll(result);
  }

  /** The loop over the query's result: decode each row in turn. */
  method DecodeAll(result: seq<ChatRow>) returns (r: Result<seq<ChatEntry>>)
    ensures r.Ok? <==> forall i :: 0 <= i < |result| ==> DecodeRow(result[i]).Ok?
    ensures r.Ok? ==>
      |r.value| == |result| && forall i :: 0 <= i < |result| ==> DecodeRow(result[i]) == Ok(r.value[i])
    ensures r.Err? ==>
      exists i :: 0 <= i < |result| && DecodeRow(result[i]) == Err(r.error) &&
        (forall j :: 0 <= j < i ==> DecodeRow(result[j]).Ok?)
  {
    var messages: seq<ChatEntry> := [];
    var i := 0;
    while i < |result|
      invariant 0 <= i <= |result|
      invariant |messages| == i
      invariant forall j :: 0 <= j < i ==> DecodeRow(result[j]) == Ok(messages[j])
    {
      var entry := DecodeRow(result[i]);
      if entry.Err? {
        return Err(entry.error);
      }
      messages := messages + [entry.value];
      i := i + 1;
    }
    return Ok(messages);
  }

  /** Entries of a successful read belong to the session's key and come in
      ascending creation time; a session with no rows reads as empty. */
  lemma HistoryOrderAndKey(rows: seq<ChatRow>, key: string, entries: seq<ChatEntry>)
    requires |entries| == |Selected(rows, key)|
    requires forall i :: 0 <= i < |entries| ==> DecodeRow(Selected(rows, key)[i]) == Ok(entries[i])
    ensures forall i :: 0 <= i < |entries| ==> entries[i].sessionId == key
    ensures forall i, j :: 0 <= i < j < |entries| ==> entries[i].created <= entries[j].created
    ensures (forall row :: row in rows ==> row.sessionId != key) ==> entries == []
  {
    var selected := Selected(rows, key);
    forall i | 0 <= i < |entries| ensures entries[i].sessionId == key {
      assert selected[i] in selected;
    }
    forall i, j | 0 <= i < j < |entries| ensures entries[i].created <= entries[j].created {
      assert CreatedAt(selected[i]) <= CreatedAt(selected[j]);
    }
  }
}
