/** The live score board (match-tracker-frontend/src/components/LiveScore.js): nine lines kept
    in the page, started by assigning players, edited cell by cell, and ended with a tally of
    the lines each side has won. */
module LiveScore {
  import opened Wrappers
  import opened Text
  import opened JsValues
  import Store

  // ---------------------------------------------------------------- ScoreInput

  /** A score cell: a whole number of games, or `null`. */
  type Cell = Option<nat>

  /** What `ScoreInput` reports for the typed text: `parseInt(text)` when the text is one or more
      decimal digits (`/^\d+$/`), `null` otherwise. */
  function ScoreInput(text: string): Cell {
    if text != "" && AllDigits(text) then
      match ParseInt(text)
      case Finite(n) => if n >= 0 then Some(n) else None
      case NaN => None
    else None
  }

  /** The text `ScoreInput` shows for a cell: the number, or "" while focused and "–" otherwise
      for `null`. */
  function CellText(v: Cell, focused: bool): string {
    if v.None? then (if focused then "" else "–") else NatToString(v.value)
  }

  /** Digits are read as their decimal value. */
  lemma ScoreInputOfDigits(text: string)
    requires text != "" && AllDigits(text)
    ensures ScoreInput(text) == Some(DigitsValue(text))
  {
    assert !JsWhitespace(text[0]);
    assert TrimStart(text, JsWhitespace) == text;
    DigitPrefixOfDigits(text);
  }

  /** Whatever the field shows while focused reads back as the same cell. */
  lemma CellTextRoundTrip(v: Cell)
    ensures ScoreInput(CellText(v, true)) == v
  {
    if v.Some? {
      ScoreInputOfDigits(NatToString(v.value));
      NatToStringValue(v.value);
    }
  }

  /** Text with anything but digits, an empty text, and the dash shown for `null` give `null`. */
  lemma ScoreInputRejects(text: string)
    requires exists k :: 0 <= k < |text| && !IsDigit(text[k])
    ensures ScoreInput(text) == None
    ensures ScoreInput("") == None && ScoreInput(CellText(None, false)) == None
  {
    assert !IsDigit(CellText(None, false)[0]);
  }

  // ---------------------------------------------------------------- the lines

  /** A line of the board. `player1` plays for the team, `player2` for the opponent. */
  datatype LiveLine = LiveLine(
    matchType: string,
    matchNumber: nat,
    player1: Option<string>,
    player2: Option<string>,
    sets: seq<seq<Cell>>,
    currentGame: seq<Cell>,
    status: string,
    started: bool)

  /** Line `k` (from 0) of the template `fetchScore` builds. */
  function TemplateLine(k: nat): LiveLine
    requires k < 9
  {
    LiveLine(if k < 3 then "Doubles" else "Singles", if k < 3 then k + 1 else k - 2,
             None, None, [], [], "pending", false)
  }

  /** `fetchScore`: Doubles #1 to #3, then Singles #1 to #6, nobody assigned, nothing started. */
  function Template(): seq<LiveLine> {
    seq(9, k requires 0 <= k < 9 => TemplateLine(k))
  }

  /** A line before it starts, or a started line with two cells per set and per game. */
  predicate WellFormed(l: LiveLine) {
    || (!l.started && l.status == "pending" && l.sets == [] && l.currentGame == [])
    || (l.started && (l.status == "live" || l.status == "completed") && |l.currentGame| == 2
        && forall j :: 0 <= j < |l.sets| ==> |l.sets[j]| == 2)
  }

  /** The number of completed lines. */
  function Completed(lines: seq<LiveLine>): nat
    decreases |lines|
  {
    if lines == [] then 0
    else Completed(lines[..|lines| - 1]) + (if lines[|lines| - 1].status == "completed" then 1 else 0)
  }

  /** A set that has not started: `[0, 0]`. */
  function NewSet(): seq<Cell> { [Some(0), Some(0)] }

  /** The line once players are assigned: three sets for singles, one for doubles. */
  function Started(l: LiveLine, p1: string, p2: string): LiveLine {
    l.(player1 := Some(p1), player2 := Some(p2), started := true, status := "live",
       sets := if l.matchType == "Singles" then [NewSet(), NewSet(), NewSet()] else [NewSet()],
       currentGame := NewSet())
  }

  /** The side an answer to "Who won? (A or B)" names, upper-cased: 0 for A, 1 for B; a
      cancelled prompt is `None`. */
  function AnswerSide(answer: Option<string>): Option<nat> {
    if answer.Some? && Upper(answer.value) == "A" then Some(0)
    else if answer.Some? && Upper(answer.value) == "B" then Some(1)
    else None
  }

  /** `prev.filter((i) => i !== idx)`. */
  function Without(xs: seq<int>, x: int): (r: seq<int>)
    ensures x !in r
    ensures forall y :: y != x ==> (y in r <==> y in xs)
    decreases |xs|
  {
    if xs == [] then []
    else (if xs[0] == x then [] else [xs[0]]) + Without(xs[1..], x)
  }

  // ---------------------------------------------------------------- the serve marker

  /** `set.reduce((a, b) => a + b, 0)`: `null` adds nothing. */
  function RowGames(row: seq<Cell>): nat
    decreases |row|
  {
    if row == [] then 0
    else RowGames(row[..|row| - 1]) + (if row[|row| - 1].Some? then row[|row| - 1].value else 0)
  }

  /** All games played in the sets of a line. */
  function TotalGames(sets: seq<seq<Cell>>): nat
    decreases |sets|
  {
    if sets == [] then 0 else TotalGames(sets[..|sets| - 1]) + RowGames(sets[|sets| - 1])
  }

  /** The row the serve marker is drawn on: 0 after an even number of games, 1 after an odd. */
  function ServerIndex(sets: seq<seq<Cell>>): nat {
    if TotalGames(sets) % 2 == 0 then 0 else 1
  }

  // ---------------------------------------------------------------- the board

  class LiveBoard {
    /** `scores`: the lines of the board. */
    var lines: seq<LiveLine>
    /** `teamScore`: lines won by the team and by the opponent. */
    var tally: (nat, nat)
    /** `showScore`: whether the board has been shown (and the template built). */
    var shown: bool
    /** `editableMatches`: the lines whose cells are open for editing. */
    var editing: seq<int>

    /** The tally counts exactly the completed lines; lines exist once the board is shown, and
        only started lines are open for editing. */
    predicate Valid()
      reads this
    {
      && (if shown then |lines| == 9 else lines == [])
      && (forall k :: 0 <= k < |lines| ==> WellFormed(lines[k]))
      && tally.0 + tally.1 == Completed(lines)
      && (forall k :: 0 <= k < |editing| ==> 0 <= editing[k] < |lines| && lines[editing[k]].started)
    }

    constructor()
      ensures Valid()
      ensures lines == [] && tally == (0, 0) && !shown && editing == []
    {
      lines := [];
      tally := (0, 0);
      shown := false;
      editing := [];
    }

    /** `handleShowScore`: the button is there only while the board is hidden. */
    method ShowScore()
      requires Valid() && !shown
      modifies this
      ensures Valid()
      ensures shown && lines == Template()
      ensures tally == old(tally) == (0, 0) && editing == old(editing)
    {
      shown := true;
      lines := Template();
      NoneCompleted(lines);
    }

    /** `onSave` of `PlayerAssignment`: offered only for a line that has not started; an index
        with no line is reported and changes nothing. */
    method Assign(idx: int, p1: string, p2: string)
      requires Valid()
      requires 0 <= idx < |lines| ==> !lines[idx].started
      modifies this
      ensures Valid()
      ensures !(0 <= idx < |old(lines)|) ==> lines == old(lines)
      ensures 0 <= idx < |old(lines)| ==> lines == old(lines)[idx := Started(old(lines)[idx], p1, p2)]
      ensures tally == old(tally) && shown == old(shown) && editing == old(editing)
    {
      if !(0 <= idx < |lines|) {
        return;
      }
      var l := lines[idx];
      var sets := if l.matchType == "Singles" then [NewSet(), NewSet(), NewSet()] else [NewSet()];
      CompletedUpdate(lines, idx, Started(l, p1, p2));
      lines := lines[idx := l.(player1 := Some(p1), player2 := Some(p2), started := true,
                               status := "live", sets := sets, currentGame := NewSet())];
    }

    /** "End Match", offered only for a live line: an answer naming A or B in either case adds
        the line to that side's tally and completes it; any other answer changes nothing. */
    method EndLine(idx: int, answer: Option<string>)
      requires Valid() && 0 <= idx < |lines| && lines[idx].status == "live"
      modifies this
      ensures Valid()
      ensures AnswerSide(answer) == Some(0) ==>
                tally == (old(tally).0 + 1, old(tally).1)
                && lines == old(lines)[idx := old(lines)[idx].(status := "completed")]
      ensures AnswerSide(answer) == Some(1) ==>
                tally == (old(tally).0, old(tally).1 + 1)
                && lines == old(lines)[idx := old(lines)[idx].(status := "completed")]
      ensures AnswerSide(answer) == None ==> tally == old(tally) && lines == old(lines)
      ensures shown == old(shown) && editing == old(editing)
    {
      var winner := if answer.Some? then Some(Upper(answer.value)) else None;
      if winner == Some("A") {
        tally := (tally.0 + 1, tally.1);
      } else if winner == Some("B") {
        tally := (tally.0, tally.1 + 1);
      } else {
        return;
      }
      CompletedUpdate(lines, idx, lines[idx].(status := "completed"));
      lines := lines[idx := lines[idx].(status := "completed")];
    }

    /** "Edit Score", offered for a started line not yet open for editing. */
    method BeginEdit(idx: int)
      requires Valid() && 0 <= idx < |lines| && lines[idx].started && idx !in editing
      modifies this
      ensures Valid()
      ensures editing == old(editing) + [idx]
      ensures lines == old(lines) && tally == old(tally) && shown == old(shown)
    {
      editing := editing + [idx];
    }

    /** `handleSave`: the line is no longer open for editing (posting it is outside the model). */
    method SaveLine(idx: int)
      requires Valid() && idx in editing
      modifies this
      ensures Valid()
      ensures editing == Without(old(editing), idx)
      ensures lines == old(lines) && tally == old(tally) && shown == old(shown)
    {
      editing := Without(editing, idx);
      forall k | 0 <= k < |editing|
        ensures 0 <= editing[k] < |lines| && lines[editing[k]].started
      {
        assert editing[k] in old(editing);
      }
    }

    /** An edit of cell `i` of set `j` of an open line: that cell takes the value typed, and
        nothing else changes. */
    method EditSet(idx: int, j: int, i: int, val: Cell)
      requires Valid() && idx in editing
      requires 0 <= idx < |lines| && 0 <= j < |lines[idx].sets| && 0 <= i < 2
      modifies this
      ensures Valid()
      ensures |lines| == |old(lines)|
      ensures forall k :: 0 <= k < |lines| && k != idx ==> lines[k] == old(lines)[k]
      ensures lines[idx].(sets := old(lines)[idx].sets) == old(lines)[idx]
      ensures |lines[idx].sets| == |old(lines)[idx].sets|
      ensures forall s :: 0 <= s < |lines[idx].sets| ==> |lines[idx].sets[s]| == 2
      ensures forall s, c :: 0 <= s < |lines[idx].sets| && 0 <= c < 2 ==>
                lines[idx].sets[s][c] == if s == j && c == i then val else old(lines)[idx].sets[s][c]
      ensures tally == old(tally) && shown == old(shown) && editing == old(editing)
    {
      var l := lines[idx];
      var row := l.sets[j][i := val];
      CompletedUpdate(lines, idx, l.(sets := l.sets[j := row]));
      lines := lines[idx := l.(sets := l.sets[j := row])];
    }

    /** An edit of cell `i` of the current game of an open line. */
    method EditGame(idx: int, i: int, val: Cell)
      requires Valid() && idx in editing
      requires 0 <= idx < |lines| && 0 <= i < 2
      modifies this
      ensures Valid()
      ensures |lines| == |old(lines)|
      ensures forall k :: 0 <= k < |lines| && k != idx ==> lines[k] == old(lines)[k]
      ensures lines[idx].(currentGame := old(lines)[idx].currentGame) == old(lines)[idx]
      ensures |lines[idx].currentGame| == 2
      ensures forall c :: 0 <= c < 2 ==>
                lines[idx].currentGame[c] == if c == i then val else old(lines)[idx].currentGame[c]
      ensures tally == old(tally) && shown == old(shown) && editing == old(editing)
    {
      var l := lines[idx];
      CompletedUpdate(lines, idx, l.(currentGame := l.currentGame[i := val]));
      lines := lines[idx := l.(currentGame := l.currentGame[i := val])];
    }
  }

  // ---------------------------------------------------------------- lemmas

  /** Replacing one line changes the count of completed lines by what the two lines differ in. */
  lemma {:induction false} CompletedUpdate(lines: seq<LiveLine>, idx: int, l: LiveLine)
    requires 0 <= idx < |lines|
    ensures Completed(lines[idx := l]) + (if lines[idx].status == "completed" then 1 else 0)
            == Completed(lines) + (if l.status == "completed" then 1 else 0)
    decreases |lines|
  {
    var n := |lines| - 1;
    var after := lines[idx := l];
    assert after[..n] == if idx == n then lines[..n] else lines[..n][idx := l];
    if idx < n {
      CompletedUpdate(lines[..n], idx, l);
    }
  }

  lemma {:induction false} NoneCompleted(lines: seq<LiveLine>)
    requires forall k :: 0 <= k < |lines| ==> lines[k].status != "completed"
    ensures Completed(lines) == 0
    decreases |lines|
  {
    if lines != [] {
      NoneCompleted(lines[..|lines| - 1]);
    }
  }

  /** Only "a" and "A" name the team, and only "b" and "B" the opponent. */
  lemma AnswerSideExact(answer: Option<string>)
    ensures AnswerSide(answer) == Some(0) <==> answer == Some("a") || answer == Some("A")
    ensures AnswerSide(answer) == Some(1) <==> answer == Some("b") || answer == Some("B")
  {
    if answer.Some? {
      var s := answer.value;
      if |s| == 1 {
        assert Upper(s) == [UpperChar(s[0])];
        assert s == [s[0]];
      } else {
        assert |Upper(s)| != 1;
      }
    }
  }

  /** The template the board starts from lists the lines in the order, and with the numbers,
      of the lines `start_match` creates in the back end. */
  lemma TemplateFollowsLineup(matchId: int)
    ensures |Template()| == |Store.Lineup(matchId)|
    ensures forall k :: 0 <= k < 9 ==>
              Lower(Template()[k].matchType) == Store.Lineup(matchId)[k].matchType
              && Template()[k].matchNumber == Store.Lineup(matchId)[k].lineNo
    ensures forall k :: 0 <= k < 9 ==> !Template()[k].started && Template()[k].status == "pending"
  {
    assert Lower("Doubles") == "doubles";
    assert Lower("Singles") == "singles";
  }

  /** One more game in any cell moves the serve marker to the other row. */
  lemma ServerAfterGame(sets: seq<seq<Cell>>, j: nat, i: nat, n: nat)
    requires j < |sets| && i < |sets[j]|
    requires sets[j][i] == Some(n) || (sets[j][i] == None && n == 0)
    ensures ServerIndex(sets[j := sets[j][i := Some(n + 1)]]) == 1 - ServerIndex(sets)
  {
    RowGamesUpdate(sets[j], i, Some(n + 1));
    TotalGamesUpdate(sets, j, sets[j][i := Some(n + 1)]);
  }

  /** A freshly started line has played no game: the team's row serves. */
  lemma StartedLineTeamServes(l: LiveLine, p1: string, p2: string)
    ensures ServerIndex(Started(l, p1, p2).sets) == 0
  {
    assert RowGames(NewSet()) == 0 by {
      assert NewSet()[..1] == [Some(0)];
    }
    NewSetsNoGames(Started(l, p1, p2).sets);
  }

  lemma {:induction false} NewSetsNoGames(sets: seq<seq<Cell>>)
    requires RowGames(NewSet()) == 0
    requires forall k :: 0 <= k < |sets| ==> sets[k] == NewSet()
    ensures TotalGames(sets) == 0
    decreases |sets|
  {
    if sets != [] {
      NewSetsNoGames(sets[..|sets| - 1]);
    }
  }

  lemma {:induction false} RowGamesUpdate(row: seq<Cell>, i: nat, v: Cell)
    requires i < |row|
    ensures RowGames(row[i := v]) + (if row[i].Some? then row[i].value else 0)
            == RowGames(row) + (if v.Some? then v.value else 0)
    decreases |row|
  {
    var n := |row| - 1;
    assert row[i := v][..n] == if i == n then row[..n] else row[..n][i := v];
    if i < n {
      RowGamesUpdate(row[..n], i, v);
    }
  }

  lemma {:induction false} TotalGamesUpdate(sets: seq<seq<Cell>>, j: nat, row: seq<Cell>)
    requires j < |sets|
    ensures TotalGames(sets[j := row]) + RowGames(sets[j]) == TotalGames(sets) + RowGames(row)
    decreases |sets|
  {
    var n := |sets| - 1;
    assert sets[j := row][..n] == if j == n then sets[..n] else sets[..n][j := row];
    if j < n {
      TotalGamesUpdate(sets[..n], j, row);
    }
  }
}
