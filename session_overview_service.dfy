/** The session overview table and its three operations: the evaluation
    upsert, the human review update and the paginated listing. */
module OverviewService {
  import opened Common
  import opened OverviewRecord
  import Sorting

  const NoAnalysisAgent := "'SessionOverviewService' object has no attribute 'session_analysis_agent'"
  const OverviewNotFound := "Session overview not found"

  /** Python's `positive / total` on two ints. */
  function Ratio(positive: int, total: int): (r: Result<real>)
    ensures r.Err? <==> total == 0
    ensures r.Err? ==> r.error == ZeroDivision
    ensures r.Ok? ==> r.value * (total as real) == positive as real
  {
    if total == 0 then Err(ZeroDivision) else Ok(positive as real / total as real)
  }

  datatype Scores = Scores(faithfulness: real, relevance: real, correctness: real)

  /** The three ratios, computed in the order the service computes them. */
  function EvaluationScores(e: Evaluation): (r: Result<Scores>)
    ensures r.Err? <==> e.faithfulnessTotal == 0 || e.relevanceTotal == 0 || e.correctnessTotal == 0
    ensures r.Err? ==> r.error == ZeroDivision
    ensures r.Ok? ==>
      && r.value.faithfulness * (e.faithfulnessTotal as real) == e.faithfulnessPositive as real
      && r.value.relevance * (e.relevanceTotal as real) == e.relevancePositive as real
      && r.value.correctness * (e.correctnessTotal as real) == e.correctnessPositive as real
  {
    match Ratio(e.faithfulnessPositive, e.faithfulnessTotal)
    case Err(x) => Err(x)
    case Ok(f) =>
      match Ratio(e.relevancePositive, e.relevanceTotal)
      case Err(x) => Err(x)
      case Ok(rel) =>
        match Ratio(e.correctnessPositive, e.correctnessTotal)
        case Err(x) => Err(x)
        case Ok(c) => Ok(Scores(f, rel, c))
  }

  /** The toxicity counts and the sentiment play no part in the scores. */
  lemma ToxicityAndSentimentUnused(e: Evaluation, toxicityTotal: int, toxicityPositive: int, sentiment: string)
    ensures EvaluationScores(e) ==
      EvaluationScores(e.(toxicityTotal := toxicityTotal, toxicityPositive := toxicityPositive, sentiment := sentiment))
  {
  }

  /** `updated_at` moves to `now` only when some other column changed,
      because the ORM issues no UPDATE for a row with no net change. */
  function Touched(before: Overview, after: Overview, now: Timestamp): (r: Overview)
    ensures SameColumns(r, after) && r.createdAt == before.createdAt
    ensures r.updatedAt == if SameColumns(before, after) then before.updatedAt else now
  {
    after.(createdAt := before.createdAt,
           updatedAt := if SameColumns(before, after) then before.updatedAt else now)
  }

  /** The row a first evaluation inserts. */
  function NewOverview(id: int, sessionId: string, s: Scores, comments: string, now: Timestamp): (o: Overview)
    ensures o.id == id && o.sessionId == sessionId
    ensures o.autoFaithfulness == Some(s.faithfulness) && o.autoRelevance == Some(s.relevance)
    ensures o.autoCorrectness == Some(s.correctness) && o.autoComments == Some(comments)
    ensures o.humanFaithfulness.None? && o.humanRelevance.None?
    ensures o.humanCorrectness.None? && o.humanComments.None?
    ensures o.createdAt == now && o.updatedAt == now
  {
    Overview(id, sessionId, Some(s.faithfulness), Some(s.relevance), Some(s.correctness), Some(comments),
             None, None, None, None, now, now)
  }

  /** A re-evaluation: only the four auto_* columns change. */
  function WithAutoScores(o: Overview, s: Scores, comments: string, now: Timestamp): (r: Overview)
    ensures r.id == o.id && r.sessionId == o.sessionId && r.createdAt == o.createdAt
    ensures r.autoFaithfulness == Some(s.faithfulness) && r.autoRelevance == Some(s.relevance)
    ensures r.autoCorrectness == Some(s.correctness) && r.autoComments == Some(comments)
    ensures r.humanFaithfulness == o.humanFaithfulness && r.humanRelevance == o.humanRelevance
    ensures r.humanCorrectness == o.humanCorrectness && r.humanComments == o.humanComments
  {
    Touched(o, o.(autoFaithfulness := Some(s.faithfulness), autoRelevance := Some(s.relevance),
                  autoCorrectness := Some(s.correctness), autoComments := Some(comments)), now)
  }

  /** A human review: the four human_* columns take the update's values,
      None included, and nothing else changes. */
  function WithHumanScores(o: Overview, u: HumanUpdate, now: Timestamp): (r: Overview)
    ensures r.id == o.id && r.sessionId == o.sessionId && r.createdAt == o.createdAt
    ensures r.humanFaithfulness == u.faithfulness && r.humanRelevance == u.relevance
    ensures r.humanCorrectness == u.correctness && r.humanComments == u.comments
    ensures r.autoFaithfulness == o.autoFaithfulness && r.autoRelevance == o.autoRelevance
    ensures r.autoCorrectness == o.autoCorrectness && r.autoComments == o.autoComments
  {
    Touched(o, o.(humanFaithfulness := u.faithfulness, humanRelevance := u.relevance,
                  humanCorrectness := u.correctness, humanComments := u.comments), now)
  }

  /** The table's constraints: ids are positive, at most the last id
      handed out and increasing in insertion order; session ids are unique. */
  ghost predicate TableInvariant(rows: seq<Overview>, lastId: nat)
  {
    && (forall i, j :: 0 <= i < j < |rows| ==> rows[i].id < rows[j].id)
    && (forall i :: 0 <= i < |rows| ==> 0 < rows[i].id <= lastId)
    && UniqueSessions(rows)
  }

  /** Overwriting a row's other columns keeps the constraints, and its
      session still has exactly one row. */
  lemma ReplaceKeepsInvariant(rows: seq<Overview>, lastId: nat, i: nat, o: Overview)
    requires TableInvariant(rows, lastId) && i < |rows|
    requires o.id == rows[i].id && o.sessionId == rows[i].sessionId
    ensures TableInvariant(rows[i := o], lastId)
    ensures CountSession(rows[i := o], o.sessionId) == 1
  {
    var next := rows[i := o];
    assert forall j :: 0 <= j < |rows| ==> next[j].id == rows[j].id && next[j].sessionId == rows[j].sessionId;
    assert UniqueSessions(next);
    assert next[i].sessionId == o.sessionId;
    UniqueSessionCount(next, o.sessionId);
  }

  /** Inserting a row for a new session under the next id keeps the
      constraints, and that session then has exactly one row. */
  lemma AppendKeepsInvariant(rows: seq<Overview>, lastId: nat, o: Overview)
    requires TableInvariant(rows, lastId)
    requires FindSession(rows, o.sessionId).None? && o.id == lastId + 1
    ensures TableInvariant(rows + [o], lastId + 1)
    ensures CountSession(rows + [o], o.sessionId) == 1
  {
    var next := rows + [o];
    assert forall j :: 0 <= j < |rows| ==> next[j] == rows[j];
    assert UniqueSessions(next);
    assert next[|rows|].sessionId == o.sessionId;
    UniqueSessionCount(next, o.sessionId);
  }

  /** The table. Rows are kept in insertion order; `lastId` is the last value
      the id sequence handed out, so ids grow with insertion order. */
  class OverviewTable {
    var rows: seq<Overview>
    var lastId: nat

    ghost predicate Valid()
      reads this
    {
      TableInvariant(rows, lastId)
    }

    constructor ()
      ensures Valid() && rows == [] && lastId == 0
    {
      rows := [];
      lastId := 0;
    }

    /** `create_session_overview`: the evaluation comes in as the analysis
        agent's result; nothing is committed unless every ratio exists. */
    method Evaluate(sessionId: string, evaluation: Result<Evaluation>, now: Timestamp)
      returns (r: Result<(Overview, bool)>)
      requires Valid()
      modifies this
      ensures Valid()
      ensures r.Err? <==>
        sessionId == "" || evaluation.Err? || EvaluationScores(evaluation.value).Err?
      ensures r.Err? ==> rows == old(rows) && lastId == old(lastId)
      ensures sessionId == "" ==> r == Err(AttributeError(NoAnalysisAgent))
      ensures sessionId != "" && evaluation.Err? ==> r == Err(evaluation.error)
      ensures sessionId != "" && evaluation.Ok? && EvaluationScores(evaluation.value).Err? ==>
        r == Err(ZeroDivision)
      ensures r.Ok? ==>
        var s := EvaluationScores(evaluation.value).value;
        var comments := evaluation.value.autoComments;
        match FindSession(old(rows), sessionId)
        case Some(i) =>
          && rows == old(rows)[i := WithAutoScores(old(rows)[i], s, comments, now)]
          && lastId == old(lastId)
          && r.value == (rows[i], false)
        case None =>
          && rows == old(rows) + [NewOverview(old(lastId) + 1, sessionId, s, comments, now)]
          && lastId == old(lastId) + 1
          && r.value == (rows[|rows| - 1], true)
      ensures r.Ok? ==> |rows| == |old(rows)| + (if r.value.1 then 1 else 0)
      ensures r.Ok? ==> CountSession(rows, sessionId) == 1
    {
      if sessionId == "" {
        return Err(AttributeError(NoAnalysisAgent));
      }
      if evaluation.Err? {
        return Err(evaluation.error);
      }
      var existing := FindSession(rows, sessionId);
      var scores := EvaluationScores(evaluation.value);
      if scores.Err? {
        return Err(scores.error);
      }
      var comments := evaluation.value.autoComments;
      match existing {
        case Some(i) =>
          var o := WithAutoScores(rows[i], scores.value, comments, now);
          ReplaceKeepsInvariant(rows, lastId, i, o);
          rows := rows[i := o];
          r := Ok((o, false));
        case None =>
          var o := NewOverview(lastId + 1, sessionId, scores.value, comments, now);
          AppendKeepsInvariant(rows, lastId, o);
          lastId := lastId + 1;
          rows := rows + [o];
          r := Ok((o, true));
      }
    }

    /** `update_human_fields`: NotFound for an unknown session. */
    method UpdateHumanFields(sessionId: string, update: HumanUpdate, now: Timestamp)
      returns (r: Result<Overview>)
      requires Valid()
      modifies this
      ensures Valid() && lastId == old(lastId)
      ensures r.Err? <==> FindSession(old(rows), sessionId).None?
      ensures r.Err? ==> r.error == HttpError(404, OverviewNotFound) && rows == old(rows)
      ensures r.Ok? ==>
        var i := FindSession(old(rows), sessionId).value;
        rows == old(rows)[i := WithHumanScores(old(rows)[i], update, now)] && r.value == rows[i]
    {
      var existing := FindSession(rows, sessionId);
      if existing.None? {
        return Err(HttpError(404, OverviewNotFound));
      }
      var i := existing.value;
      rows := rows[i := WithHumanScores(rows[i], update, now)];
      r := Ok(rows[i]);
    }
  }

  function IdOf(o: Overview): int { o.id }

  /** The filters of `get_session_overviews`; a cursor of None or 0 and a
      session id of None or "" are no filter at all. */
  predicate Selected(o: Overview, cursor: Option<int>, sessionId: Option<string>)
  {
    && (sessionId.None? || sessionId.value == "" || o.sessionId == sessionId.value)
    && (cursor.None? || cursor.value == 0 || o.id > cursor.value)
  }

  function Matching(rows: seq<Overview>, cursor: Option<int>, sessionId: Option<string>): (r: seq<Overview>)
    ensures forall o :: o in r <==> o in rows && Selected(o, cursor, sessionId)
    ensures UniqueIds(rows) ==> UniqueIds(r)
  {
    if rows == [] then []
    else
      var rest := Matching(rows[1..], cursor, sessionId);
      assert UniqueIds(rows) ==> UniqueIds(rows[1..]) by {
        if UniqueIds(rows) {
          forall i, j | 0 <= i < j < |rows[1..]| ensures rows[1..][i].id != rows[1..][j].id {
            assert rows[1..][i] == rows[i + 1] && rows[1..][j] == rows[j + 1];
          }
        }
      }
      assert UniqueIds(rows) ==> forall o :: o in rest ==> o.id != rows[0].id by {
        if UniqueIds(rows) {
          forall o | o in rest ensures o.id != rows[0].id {
            var j :| 0 <= j < |rows[1..]| && rows[1..][j] == o;
            assert rows[j + 1] == o;
          }
        }
      }
      assert rows == [rows[0]] + rows[1..];
      if Selected(rows[0], cursor, sessionId) then [rows[0]] + rest else rest
  }

  function Min(a: int, b: int): int { if a < b then a else b }

  /** `get_session_overviews`: the selected rows ordered by id, at most `limit`. */
  function Page(rows: seq<Overview>, limit: nat, cursor: Option<int>, sessionId: Option<string>): seq<Overview>
  {
    var sorted := Sorting.SortBy(Matching(rows, cursor, sessionId), IdOf);
    sorted[..Min(limit, |sorted|)]
  }

  /** With unique ids, the selected rows sort into strictly increasing ids. */
  lemma SelectedSortStrict(rows: seq<Overview>, cursor: Option<int>, sessionId: Option<string>)
    requires UniqueIds(rows)
    ensures Sorting.StrictlySortedBy(Sorting.SortBy(Matching(rows, cursor, sessionId), IdOf), IdOf)
  {
    var m := Matching(rows, cursor, sessionId);
    assert Sorting.KeysDistinct(m, IdOf) by {
      forall i, j | 0 <= i < j < |m| ensures IdOf(m[i]) != IdOf(m[j]) {
      }
    }
    Sorting.SortStrict(m, IdOf);
  }

  /** A page holds selected rows of the table, strictly increasing in id,
      and as many of them as the limit allows. */
  lemma PageSelectedInOrder(rows: seq<Overview>, limit: nat, cursor: Option<int>, sessionId: Option<string>)
    requires UniqueIds(rows)
    ensures var r := Page(rows, limit, cursor, sessionId);
      && |r| == Min(limit, |Matching(rows, cursor, sessionId)|)
      && (forall o :: o in r ==> o in rows && Selected(o, cursor, sessionId))
      && (forall i, j :: 0 <= i < j < |r| ==> r[i].id < r[j].id)
  {
    var m := Matching(rows, cursor, sessionId);
    var sorted := Sorting.SortBy(m, IdOf);
    var r := sorted[..Min(limit, |sorted|)];
    SelectedSortStrict(rows, cursor, sessionId);
    forall o | o in r ensures o in rows && Selected(o, cursor, sessionId) {
      Sorting.SortSameElements(m, IdOf, o);
    }
    forall i, j | 0 <= i < j < |r| ensures r[i].id < r[j].id {
      assert r[i] == sorted[i] && r[j] == sorted[j];
      assert IdOf(sorted[i]) < IdOf(sorted[j]);
    }
  }

  /** A page is the first of the selected rows: a selected row it leaves
      out comes after every row of a full page. */
  lemma PageIsFirstSelected(rows: seq<Overview>, limit: nat, cursor: Option<int>, sessionId: Option<string>, o: Overview)
    requires UniqueIds(rows)
    requires o in rows && Selected(o, cursor, sessionId)
    ensures var r := Page(rows, limit, cursor, sessionId);
      o !in r ==> |r| == limit && forall p :: p in r ==> p.id < o.id
  {
    var m := Matching(rows, cursor, sessionId);
    SelectedSortStrict(rows, cursor, sessionId);
    Sorting.SortSameElements(m, IdOf, o);
    Sorting.OmittedComesAfter(Sorting.SortBy(m, IdOf), IdOf, limit, o);
  }
}
