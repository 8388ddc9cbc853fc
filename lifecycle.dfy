/** What the back end's endpoints promise when they are used one after another: the lines a
    started match receives, the guards on starting and completing a line, and the guard on
    completing a match through its lines. */
module Lifecycle {
  import opened Wrappers
  import opened Text
  import opened Json
  import opened Normalise
  import opened Store

  /** The column values every line `start_match` creates shares. */
  predicate FreshLine(row: ScoreRow, matchId: int) {
    row.matchId == matchId && row.sets == [] && row.currentGame == (0, 0)
    && row.status == "Scheduled" && row.started && row.currentServe == Some(0) && row.winner == None
  }

  /** The batch holds three doubles lines numbered 1 to 3, then six singles lines numbered 1 to
      6 without partners; no two lines share a type and a number, and all start out alike. */
  lemma LineupShape(matchId: int)
    ensures |Lineup(matchId)| == 9
    ensures forall k :: 0 <= k < 3 ==>
              Lineup(matchId)[k].matchType == "doubles" && Lineup(matchId)[k].lineNo == k + 1
              && Lineup(matchId)[k].player2.Some? && Lineup(matchId)[k].opponent2.Some?
    ensures forall k :: 3 <= k < 9 ==>
              Lineup(matchId)[k].matchType == "singles" && Lineup(matchId)[k].lineNo == k - 2
              && Lineup(matchId)[k].player2 == None && Lineup(matchId)[k].opponent2 == None
    ensures forall i, j :: 0 <= i < j < 9 ==>
              (Lineup(matchId)[i].matchType, Lineup(matchId)[i].lineNo)
              != (Lineup(matchId)[j].matchType, Lineup(matchId)[j].lineNo)
    ensures forall k :: 0 <= k < 9 ==> FreshLine(Lineup(matchId)[k], matchId)
  {
    var l := Lineup(matchId);
    forall i, j | 0 <= i < j < 9
      ensures (l[i].matchType, l[i].lineNo) != (l[j].matchType, l[j].lineNo)
    {
      if j < 3 || 3 <= i {
        assert l[i].lineNo < l[j].lineNo;
      } else {
        assert l[i].matchType == "doubles" && l[j].matchType == "singles";
        assert l[i].matchType[0] != l[j].matchType[0];
      }
    }
  }

  /** After `start_match` the match has exactly its earlier lines plus the nine identifiers
      handed out from `base` on. */
  lemma StartedMatchLines(scores: map<int, ScoreRow>, base: int, matchId: int)
    requires forall id :: id in scores ==> id < base
    ensures forall id :: id in LinesOf(scores + NewRows(base, Lineup(matchId)), matchId) <==>
              id in LinesOf(scores, matchId) || base <= id < base + 9
  {
    var after := scores + NewRows(base, Lineup(matchId));
    forall id | base <= id < base + 9 ensures id in LinesOf(after, matchId) {
      var k := id - base;
      assert after[base + k] == Lineup(matchId)[k];
    }
  }

  /** Every freshly created line passes `_looks_live`: `started` is 1 and the status
      "Scheduled" is not "completed". */
  lemma FreshLinesLookLive(matchId: int, k: nat)
    requires k < 9
    ensures LooksLive(Some(Lineup(matchId)[k].status), JBool(Lineup(matchId)[k].started))
  {
    LowerUnchanged("scheduled");
    assert Lower("Scheduled") == "scheduled";
  }

  /** A match whose lines were all just created cannot be completed through its lines: they
      read "Scheduled", and `complete_scores_match` wants exactly "completed". */
  lemma FreshMatchCannotComplete(scores: map<int, ScoreRow>, base: int, matchId: int, winner: string)
    requires forall id :: id in scores ==> id < base
    requires winner in {"team", "opponent"}
    ensures CompleteScoresMatchStatus(scores + NewRows(base, Lineup(matchId)), matchId, winner) == 400
  {
    var after := scores + NewRows(base, Lineup(matchId));
    assert after[base + 0] == Lineup(matchId)[0];
    assert base in after && after[base].matchId == matchId && after[base].status != "completed";
  }

  /** `complete_scores_match` compares the status exactly: one line marked "Completed" blocks
      the match. */
  lemma CompletionIsCaseSensitive(scores: map<int, ScoreRow>, id: int, winner: string)
    requires id in scores && scores[id].status == "Completed"
    requires winner in {"team", "opponent"}
    ensures CompleteScoresMatchStatus(scores, scores[id].matchId, winner) == 400
  {
    assert scores[id].status[0] != "completed"[0];
  }

  /** `complete_scores_match` succeeds exactly when the match has a line and every line of it
      reads "completed". */
  lemma MatchCompletionGuard(scores: map<int, ScoreRow>, matchId: int, winner: string)
    requires winner in {"team", "opponent"}
    ensures CompleteScoresMatchStatus(scores, matchId, winner) == 200 <==>
              LinesOf(scores, matchId) != {}
              && forall id :: id in LinesOf(scores, matchId) ==> scores[id].status == "completed"
  {
    if CompleteScoresMatchStatus(scores, matchId, winner) == 200 {
      var id :| id in scores && scores[id].matchId == matchId;
      assert id in LinesOf(scores, matchId);
    }
    if LinesOf(scores, matchId) != {} {
      NonEmptyHasElement(LinesOf(scores, matchId));
      var id :| id in LinesOf(scores, matchId);
      assert id in scores && scores[id].matchId == matchId;
    }
  }

  /** `start_score` does not block a completed line: with names given it is started again and
      its winner is kept. */
  lemma CompletedLineRestarts(scores: map<int, ScoreRow>, id: int, body: StartScoreBody)
    requires id in scores && scores[id].status == "completed" && scores[id].matchType == "singles"
    requires PyStrip(body.player1) != "" && PyStrip(body.opponent1) != ""
    ensures StartScoreOutcome(scores, id, body).Ok?
    ensures StartScoreOutcome(scores, id, body).value.status == "live"
    ensures StartScoreOutcome(scores, id, body).value.winner == scores[id].winner
  {
    assert "completed"[0] != "finished"[0] && "completed"[1] != "cancelled"[1];
  }

  /** `complete_score` with the token of winner `v` on a line that is not yet completed or
      cancelled completes it with winner `v`; the three accepted tokens never reach the 422 of
      `_coerce_winner`. */
  lemma CompleteScoreWithToken(scores: map<int, ScoreRow>, id: int, v: Option<int>)
    requires v.None? || v.value in {0, 1}
    requires id in scores && Lower(scores[id].status) !in {"completed", "cancelled"}
    ensures CompleteScoreOutcome(scores, id, WinnerToken(v))
            == Ok(scores[id].(status := "completed", winner := v))
  {
    CoercedWinnerOfToken(v);
  }

  /** A line completed once cannot be completed again: the second `complete_score` answers 409,
      whichever accepted token it carries, so the winner stored first stays. */
  lemma CompleteTwice(scores: map<int, ScoreRow>, id: int, w: string, v: Option<int>)
    requires v.None? || v.value in {0, 1}
    requires CompleteScoreOutcome(scores, id, w).Ok?
    ensures var row := CompleteScoreOutcome(scores, id, w).value;
            CompleteScoreOutcome(scores[id := row], id, WinnerToken(v)) == Err(409)
  {
    var row := CompleteScoreOutcome(scores, id, w).value;
    var after := scores[id := row];
    var token := WinnerToken(v);
    assert token in {"team", "opponent", "unfinished"};
    CoercedWinnerOfToken(v);
    LowerCompleted();
    assert Lower(after[id].status) == "completed";
  }

  lemma LowerCompleted()
    ensures Lower("completed") == "completed"
  {
    LowerUnchanged("completed");
  }

  /** The cascade of `delete_match_and_scores`: no line of the deleted match is left, and every
      other match keeps exactly its lines. */
  lemma DeleteRemovesLines(scores: map<int, ScoreRow>, matchId: int, other: int)
    requires other != matchId
    ensures LinesOf(WithoutMatch(scores, matchId), matchId) == {}
    ensures LinesOf(WithoutMatch(scores, matchId), other) == LinesOf(scores, other)
  {
    var after := WithoutMatch(scores, matchId);
    forall id | id in LinesOf(scores, other) ensures id in LinesOf(after, other) {
      assert id in after;
    }
  }

  /** At most one position is the first of the earliest upcoming matches, so the match
      `get_upcoming_match` answers with does not depend on how ties are broken elsewhere. */
  lemma EarliestFirstUnique(rows: map<int, MatchRow>, order: seq<int>, now: int, p: int, q: int)
    requires forall k :: 0 <= k < |order| ==> order[k] in rows
    requires EarliestFirst(rows, order, now, p) && EarliestFirst(rows, order, now, q)
    ensures p == q
  {
    if p < q {
      assert false;
    } else if q < p {
      assert false;
    }
  }
}
