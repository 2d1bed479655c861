/** The `session_overview` table row and the inputs that fill it: the
    language model's evaluation counts and a reviewer's human scores. */
module OverviewRecord {
  import opened Common

  /** A clock reading (`datetime.now()`), left abstract. */
  type Timestamp = int

  /** One row. `id` is the integer primary key; `sessionId` is unique and not
      nullable; every score and comment column may be NULL; `createdAt` is
      set on insert and `updatedAt` on insert and on every UPDATE. Scores are
      exact reals where the table stores floats. */
  datatype Overview = Overview(
    id: int,
    sessionId: string,
    autoFaithfulness: Option<real>,
    autoRelevance: Option<real>,
    autoCorrectness: Option<real>,
    autoComments: Option<string>,
    humanFaithfulness: Option<real>,
    humanRelevance: Option<real>,
    humanCorrectness: Option<real>,
    humanComments: Option<string>,
    createdAt: Timestamp,
    updatedAt: Timestamp)

  /** The structured answer the session analysis model returns. */
  datatype Evaluation = Evaluation(
    faithfulnessTotal: int,
    faithfulnessPositive: int,
    relevanceTotal: int,
    relevancePositive: int,
    correctnessTotal: int,
    correctnessPositive: int,
    toxicityTotal: int,
    toxicityPositive: int,
    sentiment: string,
    autoComments: string)

  /** The body of a human review; every field defaults to None. */
  datatype HumanUpdate = HumanUpdate(
    faithfulness: Option<real>,
    relevance: Option<real>,
    correctness: Option<real>,
    comments: Option<string>)

  /** The same row with its timestamps ignored: two rows agree here exactly
      when saving one over the other changes no column. */
  predicate SameColumns(a: Overview, b: Overview)
  {
    a.(createdAt := 0, updatedAt := 0) == b.(createdAt := 0, updatedAt := 0)
  }

  /** The `id` primary key is unique. */
  ghost predicate UniqueIds(rows: seq<Overview>)
  {
    forall i, j :: 0 <= i < j < |rows| ==> rows[i].id != rows[j].id
  }

  /** The `session_id` column is unique. */
  ghost predicate UniqueSessions(rows: seq<Overview>)
  {
    forall i, j :: 0 <= i < j < |rows| ==> rows[i].sessionId != rows[j].sessionId
  }

  /** The number of rows for one session. */
  function CountSession(rows: seq<Overview>, sessionId: string): nat
  {
    if rows == [] then 0
    else (if rows[0].sessionId == sessionId then 1 else 0) + CountSession(rows[1..], sessionId)
  }

  /** The index of the row for `sessionId`, the `.first()` of a filter on it. */
  function FindSession(rows: seq<Overview>, sessionId: string): (r: Option<nat>)
    ensures r.Some? ==> r.value < |rows| && rows[r.value].sessionId == sessionId
    ensures r.Some? ==> forall j :: 0 <= j < r.value ==> rows[j].sessionId != sessionId
    ensures r.None? <==> forall j :: 0 <= j < |rows| ==> rows[j].sessionId != sessionId
  {
    if rows == [] then None
    else if rows[0].sessionId == sessionId then Some(0)
    else match FindSession(rows[1..], sessionId)
      case None => None
      case Some(i) => Some(i + 1)
  }

  /** With `session_id` unique, a session has one row when it has any and
      none otherwise. */
  lemma {:induction false} UniqueSessionCount(rows: seq<Overview>, sessionId: string)
    requires UniqueSessions(rows)
    ensures CountSession(rows, sessionId) == if FindSession(rows, sessionId).Some? then 1 else 0
    decreases |rows|
  {
    if rows != [] {
      assert UniqueSessions(rows[1..]) by {
        forall i, j | 0 <= i < j < |rows[1..]|
          ensures rows[1..][i].sessionId != rows[1..][j].sessionId
        {
          assert rows[1..][i] == rows[i + 1] && rows[1..][j] == rows[j + 1];
        }
      }
      UniqueSessionCount(rows[1..], sessionId);
      if rows[0].sessionId == sessionId {
        forall j | 0 <= j < |rows[1..]| ensures rows[1..][j].sessionId != sessionId {
          assert rows[1..][j] == rows[j + 1];
        }
      }
    }
  }
}
