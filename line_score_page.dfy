/** The line score page (match-tracker-frontend/src/components/LineScorePage.js): the set
    columns, the game label, the status chip, the serve marker and the cumulative-games chart of
    one line as `GET /scores/{id}` hands it over. */
module LineScorePage {
  import opened Wrappers
  import opened Text
  import opened Json
  import opened JsValues
  import opened Normalise

  // ---------------------------------------------------------------- normalizeSets

  /** One set column `{team, opp, super}`; `super` is false where the entry carries none. */
  datatype SetCol = SetCol(team: Num, opp: Num, super: bool)

  /** The column `normalizeSets` pads with: `{team: 0, opp: 0}`. */
  const Blank := SetCol(Finite(0), Finite(0), false)

  /** `a ?? b` on two possibly missing values. */
  function Either(a: Option<Json>, b: Option<Json>): Option<Json> { if Nullish(a) then b else a }

  /** `Number(v ?? 0)`. */
  function NumberOr0(v: Option<Json>): Num { ToNumber(Some(Coalesce(v, JInt(0)))) }

  /** The mapping of one entry of `sets`: an array gives its first two elements, anything else
      its `team ?? a ?? team_score` and `opp ?? b ?? opp_score` properties; `null` has no
      properties to read. */
  function Entry(x: Json): Result<SetCol, JsError> {
    match x
    case JNull => Err(JsTypeError)
    case JArr(_) => Ok(SetCol(NumberOr0(Index(Some(x), 0)), NumberOr0(Index(Some(x), 1)), false))
    case _ =>
      var v := Some(x);
      var team := Either(Either(Prop(v, "team"), Prop(v, "a")), Prop(v, "team_score"));
      var opp := Either(Either(Prop(v, "opp"), Prop(v, "b")), Prop(v, "opp_score"));
      Ok(SetCol(NumberOr0(team), NumberOr0(opp), Truthy(Prop(v, "super"))))
  }

  /** `items.map(entry)`: a `TypeError` as soon as one element is `null`. */
  function Entries(items: seq<Json>): (r: Result<seq<SetCol>, JsError>)
    ensures r.Err? <==> exists k :: 0 <= k < |items| && items[k] == JNull
    ensures r.Ok? ==> |r.value| == |items|
    ensures r.Ok? ==> forall k :: 0 <= k < |items| ==> Entry(items[k]) == Ok(r.value[k])
  {
    if items == [] then Ok([])
    else
      var rest := Entries(items[1..]);
      match Entry(items[0])
      case Err(e) => Err(e)
      case Ok(c) =>
        if rest.Err? then
          var k :| 0 <= k < |items[1..]| && items[1..][k] == JNull;
          assert items[k + 1] == JNull;
          Err(rest.error)
        else
          assert forall k :: 1 <= k < |items| ==> items[k] == items[1..][k - 1];
          Ok([c] + rest.value)
  }

  /** The entries `(sets || []).map(...)` reads: those of an array; none for a falsy value. */
  function Items(sets: Option<Json>): seq<Json> {
    if Truthy(sets) && sets.value.JArr? then sets.value.items else []
  }

  /** `normalizeSets(sets, n)` fails exactly when `sets` is truthy but not an array, or holds a
      `null`; otherwise it has exactly `n` columns: the first entries mapped, then zero columns. */
  function Columns(sets: Option<Json>, n: nat): (r: Result<seq<SetCol>, JsError>)
    ensures r.Err? <==> Truthy(sets) && (!sets.value.JArr? || exists k :: 0 <= k < |Items(sets)| && Items(sets)[k] == JNull)
    ensures r.Ok? ==> |r.value| == n
    ensures r.Ok? ==> forall k :: 0 <= k < n && k < |Items(sets)| ==> Entry(Items(sets)[k]) == Ok(r.value[k])
    ensures r.Ok? ==> forall k :: |Items(sets)| <= k < n ==> r.value[k] == Blank
  {
    if !Truthy(sets) then Ok(Padded([], n))
    else if !sets.value.JArr? then Err(JsTypeError)
    else
      var e := Entries(sets.value.items);
      assert Items(sets) == sets.value.items;
      if e.Err? then Err(e.error) else Ok(Padded(e.value, n))
  }

  /** `while (s.length < n) s.push(Blank); s.slice(0, n)` as a value. */
  function Padded(s: seq<SetCol>, n: nat): (r: seq<SetCol>)
    ensures |r| == n
    ensures forall k :: 0 <= k < n ==> r[k] == if k < |s| then s[k] else Blank
  {
    if |s| >= n then s[..n] else s + seq(n - |s|, _ => Blank)
  }

  /** `normalizeSets(sets, n)`: the entries mapped, padded by a loop and cut to `n`. */
  method NormalizeSets(sets: Option<Json>, n: nat) returns (r: Result<seq<SetCol>, JsError>)
    ensures r == Columns(sets, n)
  {
    var s: seq<SetCol> := [];
    if Truthy(sets) {
      if !sets.value.JArr? {
        return Err(JsTypeError);
      }
      var e := Entries(sets.value.items);
      if e.Err? {
        return Err(e.error);
      }
      s := e.value;
    }
    ghost var mapped := s;
    while |s| < n
      invariant |mapped| <= |s| && s[..|mapped|] == mapped
      invariant |s| > |mapped| ==> |s| <= n
      invariant forall k :: |mapped| <= k < |s| ==> s[k] == Blank
      decreases n - |s|
    {
      s := s + [Blank];
    }
    r := Ok(s[..n]);
    assert s[..n] == Padded(mapped, n);
  }

  // ---------------------------------------------------------------- gameLabel

  /** `gameLabel(cg)`: "—" unless `cg` is an array of at least two entries, otherwise the two
      entries (missing ones as 0) joined by an en dash. */
  function GameLabel(cg: Option<Json>): string {
    if !IsArray(cg) || |cg.value.items| < 2 then "—"
    else
      ToStr(Coalesce(Some(cg.value.items[0]), JInt(0))) + "–"
      + ToStr(Coalesce(Some(cg.value.items[1]), JInt(0)))
  }

  /** The game score `[a, b]` is labelled "a–b", and that label, read as text by
      `_coerce_current_game`, gives back the same game. */
  lemma GameLabelRoundTrip(a: nat, b: nat, loads: string -> Option<Json>)
    requires loads(NatToString(a) + "–" + NatToString(b)) == None
    ensures GameLabel(Some(JArr([JInt(a), JInt(b)]))) == NatToString(a) + "–" + NatToString(b)
    ensures CoercedCurrentGame(JStr(GameLabel(Some(JArr([JInt(a), JInt(b)])))), loads) == Ok((a, b))
  {
    GameLabelOfPair(a, b);
    ScoreTextRoundTrip(a, b, loads);
  }

  lemma GameLabelOfPair(a: nat, b: nat)
    ensures GameLabel(Some(JArr([JInt(a), JInt(b)]))) == NatToString(a) + "–" + NatToString(b)
  {
    assert ToStr(JInt(a)) == NatToString(a) && ToStr(JInt(b)) == NatToString(b);
  }

  lemma ScoreTextRoundTrip(a: nat, b: nat, loads: string -> Option<Json>)
    requires loads(NatToString(a) + "–" + NatToString(b)) == None
    ensures CoercedCurrentGame(JStr(NatToString(a) + "–" + NatToString(b)), loads) == Ok((a, b))
  {
    assert NatToString(a) + "–" + NatToString(b) == NatToString(a) + ['–'] + NatToString(b);
    CurrentGameOfScoreText(a, b, '–', loads);
  }

  /** Different game scores get different labels. */
  lemma GameLabelInjective(a: nat, b: nat, c: nat, d: nat)
    requires GameLabel(Some(JArr([JInt(a), JInt(b)]))) == GameLabel(Some(JArr([JInt(c), JInt(d)])))
    ensures a == c && b == d
  {
    var text := (t: string) => None;
    GameLabelRoundTrip(a, b, text);
    GameLabelRoundTrip(c, d, text);
  }

  /** A game score that is missing, null, empty or a single entry shows as "—". */
  lemma GameLabelOfShortScore(v: Json)
    ensures GameLabel(Some(JArr([v]))) == "—" && GameLabel(Some(JArr([]))) == "—"
    ensures GameLabel(None) == "—" && GameLabel(Some(JNull)) == "—"
  {
  }

  // ---------------------------------------------------------------- StatusChip

  /** The chip `StatusChip` renders: its text and whether it has the live style. */
  datatype Chip = Chip(caption: string, live: bool)

  /** `StatusChip({status})`. */
  function StatusChip(status: Option<Json>): Chip {
    var text := if Truthy(status) then StringOf(status) else "";
    var st := Lower(text);
    if st == "live" then Chip("LIVE", true)
    else if st == "completed" then Chip("COMPLETED", false)
    else if st == "scheduled" then Chip("SCHEDULED", false)
    else Chip(Upper(if Truthy(status) then text else "STATUS"), false)
  }

  /** Whatever the branch, the chip shows the status upper-cased, or "STATUS" when there is
      none; only a status reading "live" in any letter case gets the live style. */
  lemma StatusChipLabel(status: Option<Json>)
    ensures StatusChip(status).caption == if Truthy(status) then Upper(StringOf(status)) else "STATUS"
    ensures StatusChip(status).live <==> Truthy(status) && Lower(StringOf(status)) == "live"
  {
    var text := if Truthy(status) then StringOf(status) else "";
    var st := Lower(text);
    if !Truthy(status) {
      assert st == "";
      UpperWord("STATUS");
    } else if st == "live" {
      UpperWord("LIVE");
      CaptionOfKey(text, "LIVE");
    } else if st == "completed" {
      UpperWord("COMPLETED");
      CaptionOfKey(text, "COMPLETED");
    } else if st == "scheduled" {
      UpperWord("SCHEDULED");
      CaptionOfKey(text, "SCHEDULED");
    }
  }

  /** An upper-case word is its own upper case. */
  lemma UpperWord(w: string)
    requires forall k :: 0 <= k < |w| ==> 'A' <= w[k] <= 'Z'
    ensures Upper(w) == w
  {
  }

  /** A text whose lower case is that of an upper-case word has the word as its upper case. */
  lemma CaptionOfKey(text: string, word: string)
    requires Lower(text) == Lower(word) && Upper(word) == word
    ensures Upper(text) == word
  {
    UpperOfLower(text);
    UpperOfLower(word);
  }


  // ---------------------------------------------------------------- serveSide

  /** The side the serve marker is drawn on. */
  datatype Side = TeamSide | OppSide

  /** `serveSide` as written: `String(current_serve)` compared with `===` to the numbers 0 and 1.
      A string is never strictly equal to a number, so no marker is ever drawn. */
  function ServeSideAsWritten(serve: Option<Json>): Option<Side> {
    var cs := PStr(StringOf(serve));
    if cs == PNum(0) then Some(TeamSide) else if cs == PNum(1) then Some(OppSide) else None
  }

  /** The serve the back end stores and serves: 0, 1, or `null`. */
  function ServeJson(serve: Option<int>): Json {
    if serve.Some? then JInt(serve.value) else JNull
  }

  /** The line with serve 0 gets no marker as written, while the corrected rule marks the team. */
  lemma ServeMarkerNeverDrawn(serve: Option<Json>)
    ensures ServeSideAsWritten(serve) == None
    ensures ServeSideAsWritten(Some(ServeJson(Some(0)))) == None
    ensures ServeSide(Some(ServeJson(Some(0)))) == Some(TeamSide)
  {
    assert IntToString(0) == "0";
  }

  /** The evident intent: compare the text with "0" and "1". */
  function ServeSide(serve: Option<Json>): Option<Side> {
    var cs := StringOf(serve);
    if cs == "0" then Some(TeamSide) else if cs == "1" then Some(OppSide) else None
  }

  /** With the corrected comparison, the marker follows the stored serve: the team for 0, the
      opponent for 1, and no marker for any other value or `null`. */
  lemma ServeSideOfStored(serve: Option<int>)
    ensures ServeSide(Some(ServeJson(serve))) == Some(TeamSide) <==> serve == Some(0)
    ensures ServeSide(Some(ServeJson(serve))) == Some(OppSide) <==> serve == Some(1)
  {
    if serve.Some? {
      NumeralOfDigit(serve.value);
    }
  }

  /** Only 0 prints as "0" and only 1 prints as "1". */
  lemma NumeralOfDigit(i: int)
    ensures IntToString(i) == "0" <==> i == 0
    ensures IntToString(i) == "1" <==> i == 1
  {
    if i < 0 {
      assert IntToString(i)[0] == '-';
    } else if i >= 10 {
      assert |NatToString(i)| >= 2;
    }
  }

  // ---------------------------------------------------------------- buildCumulativeSeries

  /** A point of the chart: its name on the axis and the running totals of the team's ("lions")
      and the opponent's games. */
  datatype Point = Point(name: string, lions: Num, opp: Num)

  /** The running totals after the given columns, NaN absorbing as in `+=`. */
  function Totals(cols: seq<SetCol>): (Num, Num)
    decreases |cols|
  {
    if cols == [] then (Finite(0), Finite(0))
    else
      var t := Totals(cols[..|cols| - 1]);
      var c := cols[|cols| - 1];
      (Add(t.0, c.team), Add(t.1, c.opp))
  }

  /** The name of the point of set `k` (from 0): "Set 1", "Set 2", ... */
  function SetName(k: nat): string { "Set " + NatToString(k + 1) }

  /** The status as the chart reads it: `String(line?.status ?? "").toLowerCase().trim()`. */
  function ChartStatus(line: Option<Json>): string {
    JsTrim(Lower(ToStr(Coalesce(Prop(line, "status"), JStr("")))))
  }

  /** The game the "Now" point adds, `(Number(cg[0]) || 0, Number(cg[1]) || 0)`: only for a live
      line whose `current_game` is an array of at least two entries, one a non-zero number. */
  function LiveGame(line: Option<Json>): Option<(int, int)> {
    var cg := Prop(line, "current_game");
    if ChartStatus(line) == "live" && IsArray(cg) && |cg.value.items| >= 2 then
      var t := ToNumber(Some(cg.value.items[0]));
      var o := ToNumber(Some(cg.value.items[1]));
      if NumTruthy(t) || NumTruthy(o) then Some((OrZero(t), OrZero(o))) else None
    else None
  }

  /** `points` is the chart of `cols`: one point per set holding the totals up to that set, then
      a "Now" point adding `game` to the final totals when there is a game to show. */
  predicate SeriesOf(cols: seq<SetCol>, game: Option<(int, int)>, points: seq<Point>) {
    && |points| == |cols| + (if game.Some? then 1 else 0)
    && (forall k :: 0 <= k < |cols| ==> points[k] == PointAt(cols, k))
    && (game.Some? ==>
          points[|cols|] == Point("Now", Add(Totals(cols).0, Finite(game.value.0)),
                                         Add(Totals(cols).1, Finite(game.value.1))))
  }

  /** The point of set `k`: the totals of the sets up to and including it. */
  function PointAt(cols: seq<SetCol>, k: nat): Point
    requires k < |cols|
  {
    Point(SetName(k), Totals(cols[..k + 1]).0, Totals(cols[..k + 1]).1)
  }

  /** The points of the first `n` sets. */
  function PointsUpTo(cols: seq<SetCol>, n: nat): (ps: seq<Point>)
    requires n <= |cols|
    ensures |ps| == n
  {
    if n == 0 then [] else PointsUpTo(cols, n - 1) + [PointAt(cols, n - 1)]
  }

  /** One more set adds its scores to the totals. */
  lemma PointStep(cols: seq<SetCol>, idx: nat)
    requires idx < |cols|
    ensures PointAt(cols, idx)
            == Point(SetName(idx), Add(Totals(cols[..idx]).0, cols[idx].team), Add(Totals(cols[..idx]).1, cols[idx].opp))
  {
    assert cols[..idx + 1][..idx] == cols[..idx];
  }

  lemma {:induction false} PointsUpToAt(cols: seq<SetCol>, n: nat)
    requires n <= |cols|
    ensures forall k :: 0 <= k < n ==> PointsUpTo(cols, n)[k] == PointAt(cols, k)
  {
    if n > 0 {
      PointsUpToAt(cols, n - 1);
    }
  }

  /** `buildCumulativeSeries(line)`: the three normalised sets accumulated in a loop, then the
      optional "Now" point. */
  method BuildCumulativeSeries(line: Option<Json>) returns (r: Result<seq<Point>, JsError>)
    ensures r.Err? <==> Columns(Prop(line, "sets"), 3).Err?
    ensures r.Ok? ==> |r.value| >= 3
    ensures r.Ok? ==> SeriesOf(Columns(Prop(line, "sets"), 3).value, LiveGame(line), r.value)
  {
    var setCols := NormalizeSets(Prop(line, "sets"), 3);
    if setCols.Err? {
      return Err(setCols.error);
    }
    var cols := setCols.value;
    var points, teamTotal, oppTotal := Accumulate(cols);
    var game := LiveGame(line);
    SeriesComplete(cols, game);
    if game.Some? {
      points := points + [Point("Now", Add(teamTotal, Finite(game.value.0)), Add(oppTotal, Finite(game.value.1)))];
    }
    return Ok(points);
  }

  /** The loop of `buildCumulativeSeries`: running totals, one point per set. */
  method Accumulate(cols: seq<SetCol>) returns (points: seq<Point>, teamTotal: Num, oppTotal: Num)
    ensures points == PointsUpTo(cols, |cols|)
    ensures (teamTotal, oppTotal) == Totals(cols)
  {
    teamTotal, oppTotal := Finite(0), Finite(0);
    points := [];
    var idx := 0;
    while idx < |cols|
      invariant 0 <= idx <= |cols|
      invariant (teamTotal, oppTotal) == Totals(cols[..idx])
      invariant points == PointsUpTo(cols, idx)
    {
      PointStep(cols, idx);
      teamTotal := Add(teamTotal, cols[idx].team);
      oppTotal := Add(oppTotal, cols[idx].opp);
      points := points + [Point(SetName(idx), teamTotal, oppTotal)];
      idx := idx + 1;
    }
    assert cols[..idx] == cols;
  }

  /** The set points followed by the "Now" point, when there is one, make the chart. */
  lemma SeriesComplete(cols: seq<SetCol>, game: Option<(int, int)>)
    ensures game.None? ==> SeriesOf(cols, game, PointsUpTo(cols, |cols|))
    ensures game.Some? ==>
              SeriesOf(cols, game, PointsUpTo(cols, |cols|)
                                   + [Point("Now", Add(Totals(cols).0, Finite(game.value.0)),
                                                   Add(Totals(cols).1, Finite(game.value.1)))])
  {
    PointsUpToAt(cols, |cols|);
  }

  /** Every column holds two finite, non-negative scores. */
  predicate NonNegative(cols: seq<SetCol>) {
    forall k :: 0 <= k < |cols| ==>
      cols[k].team.Finite? && cols[k].team.n >= 0 && cols[k].opp.Finite? && cols[k].opp.n >= 0
  }

  /** With non-negative scores the totals never decrease from one set to a later one. */
  lemma {:induction false} TotalsMonotone(cols: seq<SetCol>, i: nat, j: nat)
    requires NonNegative(cols) && i <= j <= |cols|
    ensures Totals(cols[..i]).0.Finite? && Totals(cols[..j]).0.Finite?
    ensures Totals(cols[..i]).1.Finite? && Totals(cols[..j]).1.Finite?
    ensures Totals(cols[..i]).0.n <= Totals(cols[..j]).0.n
    ensures Totals(cols[..i]).1.n <= Totals(cols[..j]).1.n
    decreases j
  {
    if j == 0 {
      assert cols[..0] == [];
    } else {
      TotalsMonotone(cols, if i == j then j - 1 else i, j - 1);
      assert cols[..j][..j - 1] == cols[..j - 1];
    }
  }

  /** The set points of the chart never go down when the set scores are non-negative. */
  lemma SeriesNonDecreasing(cols: seq<SetCol>, game: Option<(int, int)>, points: seq<Point>, i: nat, j: nat)
    requires SeriesOf(cols, game, points) && NonNegative(cols)
    requires i <= j < |cols|
    ensures points[i].lions.Finite? && points[j].lions.Finite? && points[i].lions.n <= points[j].lions.n
    ensures points[i].opp.Finite? && points[j].opp.Finite? && points[i].opp.n <= points[j].opp.n
  {
    TotalsMonotone(cols, i + 1, j + 1);
  }

  /** The "Now" point, when drawn for a game with non-negative scores, is at or above the last
      set point. */
  lemma NowPointAhead(cols: seq<SetCol>, game: Option<(int, int)>, points: seq<Point>)
    requires SeriesOf(cols, game, points) && NonNegative(cols) && cols != []
    requires game.Some? && game.value.0 >= 0 && game.value.1 >= 0
    ensures points[|cols| - 1].lions.Finite? && points[|cols|].lions.Finite?
    ensures points[|cols| - 1].lions.n <= points[|cols|].lions.n
    ensures points[|cols| - 1].opp.Finite? && points[|cols|].opp.Finite?
    ensures points[|cols| - 1].opp.n <= points[|cols|].opp.n
  {
    var n := |cols|;
    TotalsMonotone(cols, n, n);
    assert cols[..n] == cols;
  }

  // ---------------------------------------------------------------- the chart of a stored line

  /** A stored pair as a column. */
  function ColOf(p: SetPair): SetCol { SetCol(Finite(p.0), Finite(p.1), false) }

  /** The first `n` stored pairs, missing sets as `(0, 0)`. */
  function Fill(ps: seq<SetPair>, n: nat): (r: seq<SetPair>)
    ensures |r| == n
  {
    seq(n, k requires 0 <= k < n => if k < |ps| then ps[k] else (0, 0))
  }

  /** Games won by the team and by the opponent over the given sets. */
  function SumTeam(ps: seq<SetPair>): int {
    if ps == [] then 0 else SumTeam(ps[..|ps| - 1]) + ps[|ps| - 1].0
  }

  function SumOpp(ps: seq<SetPair>): int {
    if ps == [] then 0 else SumOpp(ps[..|ps| - 1]) + ps[|ps| - 1].1
  }

  /** The `{team, opp}` objects the back end serves normalise to the stored pairs, cut or padded
      to three sets. */
  lemma StoredColumns(ps: seq<SetPair>)
    ensures Columns(Some(SetsResponse(ps)), 3).Ok?
    ensures forall k :: 0 <= k < 3 ==> Columns(Some(SetsResponse(ps)), 3).value[k] == ColOf(Fill(ps, 3)[k])
  {
    var j := SetsResponse(ps);
    forall k | 0 <= k < |ps| ensures Entry(j.items[k]) == Ok(ColOf(ps[k])) {
      assert j.items[k] == SetObject(ps[k]);
    }
    if ps == [] {
      assert !Truthy(Some(j)) || Items(Some(j)) == [];
    } else {
      assert Items(Some(j)) == j.items;
    }
  }

  /** Totals over columns made from pairs are the sums of the pairs. */
  lemma {:induction false} TotalsOfPairs(cols: seq<SetCol>, ps: seq<SetPair>)
    requires |cols| == |ps| && forall k :: 0 <= k < |ps| ==> cols[k] == ColOf(ps[k])
    ensures Totals(cols) == (Finite(SumTeam(ps)), Finite(SumOpp(ps)))
    decreases |ps|
  {
    if ps != [] {
      TotalsOfPairs(cols[..|cols| - 1], ps[..|ps| - 1]);
    }
  }

  /** For a stored line the last set point of the chart holds the games each side won over the
      first three sets. */
  lemma ChartOfStoredLine(ps: seq<SetPair>, points: seq<Point>, game: Option<(int, int)>)
    requires SeriesOf(Columns(Some(SetsResponse(ps)), 3).value, game, points)
    ensures points[2] == Point("Set 3", Finite(SumTeam(Fill(ps, 3))), Finite(SumOpp(Fill(ps, 3))))
  {
    StoredColumns(ps);
    var cols := Columns(Some(SetsResponse(ps)), 3).value;
    assert cols[..3] == cols;
    TotalsOfPairs(cols, Fill(ps, 3));
    assert NatToString(3) == "3";
  }
}
