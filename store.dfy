/** The back end's match lifecycle (match-tracker-backend/main.py) over an in-memory copy of its
    two tables: `matches` and `scores` (one row per line of a match). Each endpoint is a method
    that either changes the tables or answers with an HTTP error status. */
module Store {
  import opened Wrappers
  import opened Text
  import opened Json
  import opened Normalise

  /** A row of the `matches` table. `date` is the instant the match starts, or `None` when the
      column is empty or does not parse as an ISO date. */
  datatype MatchRow = MatchRow(
    date: Option<int>,
    gender: string,
    opponent: string,
    location: string,
    status: string,
    matchNumber: int,
    winner: Option<string>)

  /** A row of the `scores` table: one singles or doubles line of a match. `winner` is 0 for the
      team, 1 for the opponent. */
  datatype ScoreRow = ScoreRow(
    matchId: int,
    lineNo: int,
    matchType: string,
    player1: string,
    player2: Option<string>,
    opponent1: string,
    opponent2: Option<string>,
    sets: seq<SetPair>,
    currentGame: SetPair,
    status: string,
    started: bool,
    currentServe: Option<int>,
    winner: Option<int>)

  /** The body of `POST /scores/{id}/start` after validation of the field types. */
  datatype StartScoreBody = StartScoreBody(
    player1: string,
    opponent1: string,
    player2: Option<string>,
    opponent2: Option<string>,
    currentServe: Option<int>)

  /** The body of `PUT /scores/{id}` after validation: every field is optional. */
  datatype UpdateScoreBody = UpdateScoreBody(
    player1: Option<string>,
    player2: Option<string>,
    opponent1: Option<string>,
    opponent2: Option<string>,
    matchType: Option<string>,
    status: Option<string>,
    winner: Option<string>,
    lineNo: Option<int>,
    sets: Option<seq<seq<int>>>,
    currentGame: Option<seq<int>>,
    started: Option<bool>,
    currentServe: Option<string>)

  // ---------------------------------------------------------------- the lines a match starts with

  /** Line `i` (1 to 9) of the batch `start_match` creates: doubles 1-3, then singles 1-6. */
  function LineTemplate(matchId: int, i: nat): ScoreRow
    requires 1 <= i <= 9
  {
    if i <= 3 then
      var n := NatToString(i);
      ScoreRow(matchId, i, "doubles",
               "Doubles Player " + n + "A", Some("Doubles Player " + n + "B"),
               "Doubles Opponent " + n + "A", Some("Doubles Opponent " + n + "B"),
               [], (0, 0), "Scheduled", true, Some(0), None)
    else
      var n := NatToString(i - 3);
      ScoreRow(matchId, i - 3, "singles",
               "Singles Player " + n, None, "Singles Opponent " + n, None,
               [], (0, 0), "Scheduled", true, Some(0), None)
  }

  /** The whole batch, in creation order. */
  function Lineup(matchId: int): seq<ScoreRow> {
    seq(9, k requires 0 <= k < 9 => LineTemplate(matchId, k + 1))
  }

  /** Rows inserted one after another from identifier `base` on. */
  function NewRows(base: int, rows: seq<ScoreRow>): (m: map<int, ScoreRow>)
    ensures forall j :: j in m <==> base <= j < base + |rows|
    ensures forall k :: 0 <= k < |rows| ==> m[base + k] == rows[k]
    decreases |rows|
  {
    if rows == [] then map[]
    else NewRows(base, rows[..|rows| - 1])[base + |rows| - 1 := rows[|rows| - 1]]
  }

  /** The lines of match `matchId`. */
  function LinesOf(scores: map<int, ScoreRow>, matchId: int): set<int> {
    set id | id in scores && scores[id].matchId == matchId
  }

  /** What `delete ... where match_id == m` leaves of the scores table. */
  function WithoutMatch(scores: map<int, ScoreRow>, matchId: int): map<int, ScoreRow> {
    map id | id in scores && scores[id].matchId != matchId :: scores[id]
  }

  /** `get_upcoming_match`'s filter: not completed (in any letter case), dated, not yet begun. */
  predicate IsUpcoming(row: MatchRow, now: int) {
    Lower(row.status) != "completed" && row.date.Some? && row.date.value >= now
  }

  /** Position `p` of `order` holds the upcoming match with the earliest date, and no earlier
      position holds one with the same date: the first element after a stable sort by date. */
  predicate EarliestFirst(rows: map<int, MatchRow>, order: seq<int>, now: int, p: int)
    requires forall k :: 0 <= k < |order| ==> order[k] in rows
  {
    0 <= p < |order| && IsUpcoming(rows[order[p]], now)
    && (forall k :: 0 <= k < |order| && IsUpcoming(rows[order[k]], now) ==>
          rows[order[p]].date.value <= rows[order[k]].date.value)
    && (forall k :: 0 <= k < p && IsUpcoming(rows[order[k]], now) ==>
          rows[order[k]].date.value > rows[order[p]].date.value)
  }

  /** `(line_no, id)` order of `_fetch_match_scores`. */
  predicate LineBefore(scores: map<int, ScoreRow>, a: int, b: int)
    requires a in scores && b in scores
  {
    scores[a].lineNo < scores[b].lineNo || (scores[a].lineNo == scores[b].lineNo && a < b)
  }

  predicate LineOrdered(scores: map<int, ScoreRow>, ids: seq<int>)
    requires forall k :: 0 <= k < |ids| ==> ids[k] in scores
  {
    forall i, j :: 0 <= i < j < |ids| ==> LineBefore(scores, ids[i], ids[j])
  }

  /** The row `_score_row_to_dict` renders, with its sets as `{team, opp}` objects. */
  function ScoreDict(id: int, row: ScoreRow, loads: string -> Option<Json>): (d: map<string, Json>)
    ensures "sets" in d && d["sets"] == SetsResponse(row.sets)
    ensures "id" in d && "match_id" in d && "line_no" in d
    ensures d["id"] == JInt(id) && d["match_id"] == JInt(row.matchId) && d["line_no"] == JInt(row.lineNo)
  {
    SetsForResponseOfStored(row.sets, loads);
    var sets := SetsForResponse(PairsJson(row.sets), loads);
    map[
      "match_type" := JStr(row.matchType),
      "player1" := JStr(row.player1),
      "player2" := if row.player2.Some? then JStr(row.player2.value) else JNull,
      "opponent1" := JStr(row.opponent1),
      "opponent2" := if row.opponent2.Some? then JStr(row.opponent2.value) else JNull,
      "current_game" := JArr([JInt(row.currentGame.0), JInt(row.currentGame.1)]),
      "status" := JStr(row.status),
      "started" := JBool(row.started),
      "current_serve" := if row.currentServe.Some? then JInt(row.currentServe.value) else JNull,
      "winner" := if row.winner.Some? then JInt(row.winner.value) else JNull,
      "id" := JInt(id),
      "match_id" := JInt(row.matchId),
      "line_no" := JInt(row.lineNo),
      "sets" := if sets.Ok? then sets.value else JArr([])]
  }

  // ---------------------------------------------------------------- the store

  class MatchStore {
    var matches: map<int, MatchRow>
    var scores: map<int, ScoreRow>
    /** The identifier the next inserted line receives. */
    var nextScoreId: int

    /** Every line has an identifier below `nextScoreId` and belongs to an existing match. */
    predicate Valid()
      reads this
    {
      Consistent(matches, scores, nextScoreId)
    }

    constructor (initial: map<int, MatchRow>)
      ensures Valid()
      ensures matches == initial && scores == map[]
    {
      matches := initial;
      scores := map[];
      nextScoreId := 1;
    }

    /** `POST /schedule/{match_id}/start`: 404 for an unknown match; otherwise the match
        becomes "live" and nine new lines are inserted, whatever lines the match had before. */
    method StartMatch(matchId: int) returns (r: Result<seq<int>, int>)
      requires Valid()
      modifies this
      ensures Valid()
      ensures matchId !in old(matches) ==>
                r == Err(404) && matches == old(matches) && scores == old(scores)
                && nextScoreId == old(nextScoreId)
      ensures matchId in old(matches) ==>
                && r.Ok? && |r.value| == 9 && (forall k :: 0 <= k < 9 ==> r.value[k] == old(nextScoreId) + k)
                && matches == old(matches)[matchId := old(matches)[matchId].(status := "live")]
                && scores == old(scores) + NewRows(old(nextScoreId), Lineup(matchId))
                && nextScoreId == old(nextScoreId) + 9
    {
      if matchId !in matches {
        return Err(404);
      }
      matches := matches[matchId := matches[matchId].(status := "live")];
      var batch: seq<ScoreRow> := [];
      var i := 1;
      while i < 10
        invariant 1 <= i <= 10
        invariant batch == seq(i - 1, k requires 0 <= k < i - 1 => LineTemplate(matchId, k + 1))
      {
        batch := batch + [LineTemplate(matchId, i)];
        i := i + 1;
      }
      var ids := InsertLines(batch);
      return Ok(ids);
    }

    /** `execute_many(scores.insert(), batch)`: each row gets the next identifier. */
    method InsertLines(batch: seq<ScoreRow>) returns (ids: seq<int>)
      requires Valid()
      requires forall k :: 0 <= k < |batch| ==> batch[k].matchId in matches
      modifies this
      ensures Valid()
      ensures matches == old(matches)
      ensures |ids| == |batch| && forall k :: 0 <= k < |batch| ==> ids[k] == old(nextScoreId) + k
      ensures scores == old(scores) + NewRows(old(nextScoreId), batch)
      ensures nextScoreId == old(nextScoreId) + |batch|
    {
      var base := nextScoreId;
      var rows := NewRows(base, batch);
      ConsistentInsertAll(matches, scores, base, batch);
      scores := scores + rows;
      ids := seq(|batch|, k requires 0 <= k < |batch| => base + k);
      nextScoreId := base + |batch|;
    }

    /** `POST /schedule/{match_id}/complete`: the match becomes "completed" with the winner text
        as given; 404 when no match row was updated. */
    method CompleteMatch(matchId: int, winner: string) returns (r: Result<MatchRow, int>)
      requires Valid()
      modifies this
      ensures Valid()
      ensures scores == old(scores) && nextScoreId == old(nextScoreId)
      ensures matchId !in old(matches) ==> r == Err(404) && matches == old(matches)
      ensures matchId in old(matches) ==>
                var row := old(matches)[matchId].(status := "completed", winner := Some(winner));
                r == Ok(row) && matches == old(matches)[matchId := row]
    {
      if matchId !in matches {
        return Err(404);
      }
      var row := matches[matchId].(status := "completed", winner := Some(winner));
      matches := matches[matchId := row];
      return Ok(row);
    }

    /** `DELETE /schedule/{match_id}`: 404 for an unknown match; otherwise the match and every
        line of it are deleted, and nothing else. */
    method DeleteMatch(matchId: int) returns (status: int)
      requires Valid()
      modifies this
      ensures Valid()
      ensures nextScoreId == old(nextScoreId)
      ensures matchId !in old(matches) ==>
                status == 404 && matches == old(matches) && scores == old(scores)
      ensures matchId in old(matches) ==>
                status == 200 && matches == old(matches) - {matchId}
                && scores == WithoutMatch(old(scores), matchId)
    {
      if matchId !in matches {
        return 404;
      }
      scores := WithoutMatch(scores, matchId);
      matches := matches - {matchId};
      return 200;
    }

    /** `POST /scores/{score_id}/start`. The names are stripped and must not be empty (422);
        then 404 for an unknown line, 409 for a line whose status is exactly "finished" or
        "cancelled", 422 for doubles without both partners. Singles drop the partners; a
        missing serve keeps the stored one. Sets and game score are kept. */
    method StartScore(scoreId: int, body: StartScoreBody) returns (r: Result<ScoreRow, int>)
      requires Valid()
      modifies this
      ensures Valid()
      ensures matches == old(matches) && nextScoreId == old(nextScoreId)
      ensures r.Err? ==> scores == old(scores)
      ensures r == StartScoreOutcome(old(scores), scoreId, body)
      ensures r.Ok? ==> scores == old(scores)[scoreId := r.value]
    {
      r := StartScoreOutcome(scores, scoreId, body);
      if r.Ok? {
        ConsistentReplace(matches, scores, nextScoreId, scoreId, r.value);
        scores := scores[scoreId := r.value];
      }
    }

    /** `POST /scores/{score_id}/complete`: a winner other than "team", "opponent" or
        "unfinished" is refused (422); then 404 for an unknown line, 409 when the line is already
        completed or cancelled in any letter case; otherwise the line is completed with the
        winner as 0, 1 or `None`. */
    method CompleteScore(scoreId: int, winner: string) returns (r: Result<ScoreRow, int>)
      requires Valid()
      modifies this
      ensures Valid()
      ensures matches == old(matches) && nextScoreId == old(nextScoreId)
      ensures r.Err? ==> scores == old(scores)
      ensures r == CompleteScoreOutcome(old(scores), scoreId, winner)
      ensures r.Ok? ==> scores == old(scores)[scoreId := r.value]
    {
      r := CompleteScoreOutcome(scores, scoreId, winner);
      if r.Ok? {
        ConsistentReplace(matches, scores, nextScoreId, scoreId, r.value);
        scores := scores[scoreId := r.value];
      }
    }

    /** `PUT /scores/{scores_id}`: only `sets` is written, normalised by `_coerce_sets`; a body
        without sets is refused (400) and an unknown line gives 404. */
    method UpdateScores(scoreId: int, body: UpdateScoreBody, loads: string -> Option<Json>)
      returns (r: Result<ScoreRow, int>)
      requires Valid()
      modifies this
      ensures Valid()
      ensures matches == old(matches) && nextScoreId == old(nextScoreId)
      ensures body.sets.None? ==> r == Err(400) && scores == old(scores)
      ensures body.sets.Some? && scoreId !in old(scores) ==> r == Err(404) && scores == old(scores)
      ensures body.sets.Some? && scoreId in old(scores) ==>
                var row := old(scores)[scoreId].(sets := PairsOfIntLists(body.sets.value));
                r == Ok(row) && scores == old(scores)[scoreId := row]
    {
      if body.sets.None? {
        return Err(400);
      }
      var coerced := CoerceSets(IntListsJson(body.sets.value), loads);
      CoercedSetsOfIntLists(body.sets.value, loads);
      var pairs := coerced.value;
      if scoreId !in scores {
        return Err(404);
      }
      var row := scores[scoreId].(sets := pairs);
      ConsistentReplace(matches, scores, nextScoreId, scoreId, row);
      scores := scores[scoreId := row];
      return Ok(row);
    }

    /** `POST /scores/match/{match_id}/complete`: a winner other than "team" or "opponent" is
        refused (422); a match without lines gives 404, and unless every line's status is
        exactly "completed" the answer is 400. Otherwise only the match changes: it becomes
        "completed" with the winner text. */
    method CompleteScoresMatch(matchId: int, winner: string) returns (status: int)
      requires Valid()
      modifies this
      ensures Valid()
      ensures scores == old(scores) && nextScoreId == old(nextScoreId)
      ensures status == CompleteScoresMatchStatus(old(scores), matchId, winner)
      ensures status != 200 ==> matches == old(matches)
      ensures status == 200 ==>
                matchId in old(matches)
                && matches == old(matches)[matchId := old(matches)[matchId].(status := "completed", winner := Some(winner))]
    {
      status := CompleteScoresMatchStatus(scores, matchId, winner);
      if status == 200 {
        var id :| id in scores && scores[id].matchId == matchId;
        matches := matches[matchId := matches[matchId].(status := "completed", winner := Some(winner))];
      }
    }

    /** `_fetch_match_scores(match_id)`: the identifiers of the match's lines, each once, in
        `(line_no, id)` order. */
    method FetchMatchScores(matchId: int) returns (ids: seq<int>)
      ensures forall k :: 0 <= k < |ids| ==> ids[k] in scores
      ensures forall id :: id in ids <==> id in LinesOf(scores, matchId)
      ensures LineOrdered(scores, ids)
      ensures forall i, j :: 0 <= i < j < |ids| ==> ids[i] != ids[j]
    {
      var remaining := LinesOf(scores, matchId);
      ids := [];
      while remaining != {}
        invariant remaining <= LinesOf(scores, matchId)
        invariant forall k :: 0 <= k < |ids| ==> ids[k] in scores
        invariant forall id :: id in ids <==> id in LinesOf(scores, matchId) && id !in remaining
        invariant LineOrdered(scores, ids)
        decreases |remaining|
      {
        NonEmptyHasElement(remaining);
        var id :| id in remaining;
        ids := InsertLine(scores, ids, id);
        remaining := remaining - {id};
      }
    }

    /** `GET /schedule/upcoming`: among the matches in fetch order `order`, the first one with
        the earliest date that is upcoming, or `None`. */
    method GetUpcomingMatch(now: int, order: seq<int>) returns (r: Option<int>)
      requires forall k :: 0 <= k < |order| ==> order[k] in matches
      requires forall id :: id in matches ==> id in order
      ensures r.None? <==> forall id :: id in matches ==> !IsUpcoming(matches[id], now)
      ensures r.Some? ==> exists p :: EarliestFirst(matches, order, now, p) && order[p] == r.value
    {
      var best := -1;
      var k := 0;
      while k < |order|
        invariant 0 <= k <= |order|
        invariant -1 <= best < k
        invariant best == -1 <==> forall m :: 0 <= m < k ==> !IsUpcoming(matches[order[m]], now)
        invariant best >= 0 ==> EarliestFirst(matches, order[..k], now, best)
      {
        var row := matches[order[k]];
        if IsUpcoming(row, now) && (best == -1 || row.date.value < matches[order[best]].date.value) {
          best := k;
        }
        k := k + 1;
      }
      assert order[..k] == order;
      if best == -1 {
        forall id | id in matches ensures !IsUpcoming(matches[id], now) {
          var m :| 0 <= m < |order| && order[m] == id;
        }
        return None;
      }
      var w := order[best];
      assert w in matches && IsUpcoming(matches[w], now);
      return Some(w);
    }
  }

  // ---------------------------------------------------------------- endpoint outcomes

  /** The answer `start_score` gives: the started line, or an error status. */
  function StartScoreOutcome(scores: map<int, ScoreRow>, scoreId: int, body: StartScoreBody): (r: Result<ScoreRow, int>)
    ensures r == Err(422) <==>
              PyStrip(body.player1) == "" || PyStrip(body.opponent1) == ""
              || (scoreId in scores && scores[scoreId].status !in {"finished", "cancelled"}
                  && scores[scoreId].matchType == "doubles"
                  && (!PyStrTruthy(body.player2) || !PyStrTruthy(body.opponent2)))
    ensures r == Err(404) <==> PyStrip(body.player1) != "" && PyStrip(body.opponent1) != "" && scoreId !in scores
    ensures r == Err(409) <==>
              PyStrip(body.player1) != "" && PyStrip(body.opponent1) != "" && scoreId in scores
              && scores[scoreId].status in {"finished", "cancelled"}
    ensures r.Ok? ==>
              scoreId in scores
              && r.value == scores[scoreId].(player1 := PyStrip(body.player1), opponent1 := PyStrip(body.opponent1),
                                             player2 := r.value.player2, opponent2 := r.value.opponent2,
                                             currentServe := r.value.currentServe, status := "live", started := true)
              && (scores[scoreId].matchType == "doubles" ==>
                    PyStrTruthy(r.value.player2) && PyStrTruthy(r.value.opponent2)
                    && r.value.player2 == body.player2 && r.value.opponent2 == body.opponent2)
              && (scores[scoreId].matchType != "doubles" ==> r.value.player2 == None && r.value.opponent2 == None)
              && r.value.currentServe == (if body.currentServe.Some? then body.currentServe else scores[scoreId].currentServe)
  {
    var p1 := PyStrip(body.player1);
    var o1 := PyStrip(body.opponent1);
    if p1 == "" || o1 == "" then Err(422)
    else if scoreId !in scores then Err(404)
    else
      var row := scores[scoreId];
      if row.status in {"finished", "cancelled"} then Err(409)
      else if row.matchType == "doubles" && (!PyStrTruthy(body.player2) || !PyStrTruthy(body.opponent2)) then Err(422)
      else
        var doubles := row.matchType == "doubles";
        Ok(row.(player1 := p1, opponent1 := o1,
                player2 := if doubles then body.player2 else None,
                opponent2 := if doubles then body.opponent2 else None,
                currentServe := if body.currentServe.Some? then body.currentServe else row.currentServe,
                status := "live", started := true))
  }

  /** Python truthiness of an optional string. */
  predicate PyStrTruthy(s: Option<string>) { s.Some? && s.value != "" }

  /** The answer `complete_score` gives: 422 for a token `CompleteScorePayload` refuses, 404 for
      an unknown line, 409 for a line already completed or cancelled, and otherwise the line
      completed with the winner its token names. */
  function CompleteScoreOutcome(scores: map<int, ScoreRow>, scoreId: int, winner: string): (r: Result<ScoreRow, int>)
    ensures r == Err(422) <==> winner !in {"team", "opponent", "unfinished"}
    ensures r == Err(404) <==> winner in {"team", "opponent", "unfinished"} && scoreId !in scores
    ensures r == Err(409) <==>
              winner in {"team", "opponent", "unfinished"} && scoreId in scores
              && Lower(scores[scoreId].status) in {"completed", "cancelled"}
    ensures r.Ok? <==>
              winner in {"team", "opponent", "unfinished"} && scoreId in scores
              && Lower(scores[scoreId].status) !in {"completed", "cancelled"}
    ensures r.Ok? ==>
              (r.value.winner.None? || r.value.winner.value in {0, 1})
              && WinnerToken(r.value.winner) == winner
              && r.value == scores[scoreId].(status := "completed", winner := r.value.winner)
  {
    if winner !in {"team", "opponent", "unfinished"} then Err(422)
    else if scoreId !in scores then Err(404)
    else
      CoercedWinnerOfPayloadToken(winner);
      match CoercedWinner(Some(winner))
      case Err(e) => Err(e)
      case Ok(v) =>
        if Lower(scores[scoreId].status) in {"completed", "cancelled"} then Err(409)
        else Ok(scores[scoreId].(status := "completed", winner := v))
  }

  /** Each token `CompleteScorePayload` admits is read by `_coerce_winner` as the winner it names. */
  lemma CoercedWinnerOfPayloadToken(winner: string)
    requires winner in {"team", "opponent", "unfinished"}
    ensures CoercedWinner(Some(winner)).Ok?
    ensures var v := CoercedWinner(Some(winner)).value;
            (v.None? || v.value in {0, 1}) && WinnerToken(v) == winner
  {
    var v: Option<int> := if winner == "team" then Some(0) else if winner == "opponent" then Some(1) else None;
    assert WinnerToken(v) == winner;
    CoercedWinnerOfToken(v);
  }

  /** The status `complete_scores_match` answers with. */
  function CompleteScoresMatchStatus(scores: map<int, ScoreRow>, matchId: int, winner: string): int {
    if winner !in {"team", "opponent"} then 422
    else if !exists id :: id in scores && scores[id].matchId == matchId then 404
    else if exists id :: id in scores && scores[id].matchId == matchId && scores[id].status != "completed" then 400
    else 200
  }

  // ---------------------------------------------------------------- helpers for the methods

  /** Every line has an identifier below the next one handed out and belongs to a stored match. */
  predicate Consistent(matches: map<int, MatchRow>, scores: map<int, ScoreRow>, next: int) {
    (forall id :: id in scores ==> id < next)
    && (forall id :: id in scores ==> scores[id].matchId in matches)
  }

  /** Inserting a batch of rows for known matches, with fresh identifiers, keeps the tables
      consistent. */
  lemma ConsistentInsertAll(matches: map<int, MatchRow>, scores: map<int, ScoreRow>, next: int, batch: seq<ScoreRow>)
    requires Consistent(matches, scores, next)
    requires forall k :: 0 <= k < |batch| ==> batch[k].matchId in matches
    ensures Consistent(matches, scores + NewRows(next, batch), next + |batch|)
  {
    var rows := NewRows(next, batch);
    forall id | id in rows ensures rows[id].matchId in matches {
      assert rows[id] == batch[id - next];
    }
  }

  /** Rewriting a line, keeping its match, keeps the tables consistent. */
  lemma ConsistentReplace(matches: map<int, MatchRow>, scores: map<int, ScoreRow>, next: int, id: int, row: ScoreRow)
    requires Consistent(matches, scores, next)
    requires id in scores && row.matchId == scores[id].matchId
    ensures Consistent(matches, scores[id := row], next)
  {
  }

  lemma NonEmptyHasElement(s: set<int>)
    requires s != {}
    ensures exists x :: x in s
  {
    if forall x :: x !in s {
      assert false;
    }
  }

  /** Inserts `id` into `ids`, which is in `(line_no, id)` order, keeping that order. */
  function InsertLine(scores: map<int, ScoreRow>, ids: seq<int>, id: int): (r: seq<int>)
    requires id in scores && id !in ids
    requires forall k :: 0 <= k < |ids| ==> ids[k] in scores
    requires LineOrdered(scores, ids)
    ensures forall k :: 0 <= k < |r| ==> r[k] in scores
    ensures forall x :: x in r <==> x in ids || x == id
    ensures LineOrdered(scores, r)
    decreases |ids|
  {
    if ids == [] then [id]
    else if LineBefore(scores, id, ids[0]) then
      assert forall k :: 0 <= k < |ids| ==> LineBefore(scores, id, ids[k]) by {
        forall k | 0 <= k < |ids| ensures LineBefore(scores, id, ids[k]) {
          if k > 0 { assert LineBefore(scores, ids[0], ids[k]); }
        }
      }
      [id] + ids
    else
      var rest := InsertLine(scores, ids[1..], id);
      assert LineBefore(scores, ids[0], id);
      assert forall k :: 0 <= k < |rest| ==> LineBefore(scores, ids[0], rest[k]) by {
        forall k | 0 <= k < |rest| ensures LineBefore(scores, ids[0], rest[k]) {
          assert rest[k] in ids[1..] || rest[k] == id;
          if rest[k] != id {
            var m :| 1 <= m < |ids| && ids[m] == rest[k];
          }
        }
      }
      [ids[0]] + rest
  }
}
