/** The admin page's helpers (match-tracker-frontend/src/Admin.js): the set-score text the line
    editor shows and reads back, the live check, the payload a line is saved with, and the edits
    of the list of lines. JavaScript values are `Option<Json>`, `None` being `undefined`. */
module Admin {
  import opened Wrappers
  import opened Text
  import opened Json
  import opened JsValues
  import opened Normalise

  /** A line of the editor: a plain object. */
  type Line = map<string, Json>

  // ---------------------------------------------------------------- setsToString

  /** `` `${p?.[0] ?? 0}-${p?.[1] ?? 0}` `` for an element of an array of pairs. */
  function PairLabel(p: Option<Json>): string {
    ToStr(Coalesce(Index(p, 0), JInt(0))) + "-" + ToStr(Coalesce(Index(p, 1), JInt(0)))
  }

  /** The same text for an element `s` read as `[s.team, s.opp]`; `s` is not `null`. */
  function ObjectLabel(s: Json): string
    requires s != JNull
  {
    ToStr(Coalesce(Prop(Some(s), "team"), JInt(0))) + "-" + ToStr(Coalesce(Prop(Some(s), "opp"), JInt(0)))
  }

  /** `setsToString(sets)`: `""` for a non-array; pairs when the first element is an array,
      `{team, opp}` objects otherwise (a `null` element then throws); joined by `", "`. */
  function SetsToString(sets: Option<Json>): Result<string, JsError> {
    if !IsArray(sets) then Ok("")
    else
      var items := sets.value.items;
      if IsArray(Index(sets, 0)) then
        Ok(Join(seq(|items|, k requires 0 <= k < |items| => PairLabel(Some(items[k]))), ", "))
      else if exists k :: 0 <= k < |items| && items[k] == JNull then Err(JsTypeError)
      else Ok(Join(seq(|items|, k requires 0 <= k < |items| => ObjectLabel(items[k])), ", "))
  }

  lemma NumeralOfNat(n: int)
    requires n >= 0
    ensures ToStr(JInt(n)) == NatToString(n)
  {
  }

  /** Stored pairs print as the set text: `[[6, 4], [3, 6]]` gives `"6-4, 3-6"`. */
  lemma SetsToStringOfPairs(ps: seq<SetPair>)
    requires NonNegativePairs(ps)
    ensures SetsToString(Some(PairsJson(ps))) == Ok(SetsText(ps))
  {
    var items := PairsJson(ps).items;
    if ps != [] {
      var labels := seq(|items|, k requires 0 <= k < |items| => PairLabel(Some(items[k])));
      forall k | 0 <= k < |ps| ensures labels[k] == PairTexts(ps)[k] {
        NumeralOfNat(ps[k].0);
        NumeralOfNat(ps[k].1);
      }
      assert labels == PairTexts(ps);
    }
  }

  /** The `{team, opp}` objects the back end answers with print as the same set text. */
  lemma SetsToStringOfResponse(ps: seq<SetPair>)
    requires NonNegativePairs(ps)
    ensures SetsToString(Some(SetsResponse(ps))) == Ok(SetsText(ps))
  {
    var items := SetsResponse(ps).items;
    var labels := seq(|items|, k requires 0 <= k < |items| => ObjectLabel(items[k]));
    forall k | 0 <= k < |ps| ensures labels[k] == PairTexts(ps)[k] {
      NumeralOfNat(ps[k].0);
      NumeralOfNat(ps[k].1);
    }
    assert labels == PairTexts(ps);
  }

  // ---------------------------------------------------------------- stringToSets

  /** `.map(s => s.trim()).filter(Boolean)`. */
  function Trimmed(pieces: seq<string>): (r: seq<string>)
    ensures |r| <= |pieces|
    ensures forall k :: 0 <= k < |r| ==> r[k] != ""
  {
    if pieces == [] then []
    else
      var t := JsTrim(pieces[0]);
      (if t != "" then [t] else []) + Trimmed(pieces[1..])
  }

  /** `isFinite(x) ? x : 0`. */
  function FiniteOr0(x: Num): int { if x.Finite? then x.n else 0 }

  /** One comma token: `pair.split(/[-–]/)`, each side `parseInt`-ed after trimming, a side
      that is missing or does not parse being 0. */
  function TokenPair(token: string): SetPair {
    var parts := Split(token, IsDash);
    (FiniteOr0(ParseInt(JsTrim(parts[0]))),
     if |parts| >= 2 then FiniteOr0(ParseInt(JsTrim(parts[1]))) else 0)
  }

  /** `stringToSets(txt)`: `[]` for falsy input, else one pair per non-blank comma token. */
  function StringToSets(txt: Option<Json>): (r: seq<SetPair>)
    ensures Truthy(txt) ==> |r| == |Trimmed(Split(StringOf(txt), IsComma))|
  {
    if !Truthy(txt) then []
    else
      var tokens := Trimmed(Split(StringOf(txt), IsComma));
      seq(|tokens|, k requires 0 <= k < |tokens| => TokenPair(tokens[k]))
  }

  /** Pieces that trim to the given non-empty texts are exactly those texts after the filter. */
  lemma {:induction false} TrimmedAll(pieces: seq<string>, texts: seq<string>)
    requires |pieces| == |texts|
    requires forall k :: 0 <= k < |texts| ==> JsTrim(pieces[k]) == texts[k] && texts[k] != ""
    ensures Trimmed(pieces) == texts
  {
    if texts != [] {
      TrimmedAll(pieces[1..], texts[1..]);
      assert [texts[0]] + texts[1..] == texts;
    }
  }

  lemma TrimPairText(a: nat, b: nat, lead: string)
    requires lead == "" || lead == " "
    ensures JsTrim(lead + PairText(a, b)) == PairText(a, b)
  {
    var t := PairText(a, b);
    var sa, sb := NatToString(a), NatToString(b);
    assert t == sa + ['-'] + sb;
    assert t[0] == sa[0] && t[|t| - 1] == sb[|sb| - 1];
    StripUnchanged(t, JsWhitespace);
    if lead == " " {
      assert lead + t == [' '] + t;
      StripLeading(' ', t, JsWhitespace);
    } else {
      assert lead + t == t;
    }
  }

  /** Comma-splitting set text gives the pair texts, each later one behind a space. */
  lemma SetsTextPieces(ps: seq<SetPair>)
    requires NonNegativePairs(ps) && ps != []
    ensures var pieces := Split(SetsText(ps), IsComma);
            |pieces| == |ps|
            && forall k :: 0 <= k < |ps| ==> pieces[k] == (if k == 0 then "" else " ") + PairText(ps[k].0, ps[k].1)
  {
    var texts := PairTexts(ps);
    forall k | 0 <= k < |ps| ensures NoneOf(texts[k], IsComma) {
      assert texts[k] == NatToString(ps[k].0) + "-" + NatToString(ps[k].1);
    }
    assert NoneOf(" ", IsComma);
    assert ", " == [','] + " ";
    SplitJoined(texts, ',', " ", IsComma);
  }

  lemma TokenPairOfPairText(a: nat, b: nat)
    ensures TokenPair(PairText(a, b)) == (a, b)
  {
    SplitPairText(a, b);
    StripDigits(NatToString(a));
    StripDigits(NatToString(b));
    ParseIntOfNumeral(a);
    ParseIntOfNumeral(b);
  }

  /** Set text reads back as the sets it shows. */
  lemma StringToSetsOfSetsText(ps: seq<SetPair>)
    requires NonNegativePairs(ps)
    ensures StringToSets(Some(JStr(SetsText(ps)))) == ps
  {
    if ps != [] {
      var text := SetsText(ps);
      SetsTextStripped(ps);
      assert Truthy(Some(JStr(text)));
      var pieces := Split(text, IsComma);
      var texts := PairTexts(ps);
      SetsTextPieces(ps);
      forall k | 0 <= k < |ps| ensures JsTrim(pieces[k]) == texts[k] && texts[k] != "" {
        TrimPairText(ps[k].0, ps[k].1, if k == 0 then "" else " ");
      }
      TrimmedAll(pieces, texts);
      TokenPairsOfPairTexts(ps);
    }
  }

  lemma TokenPairsOfPairTexts(ps: seq<SetPair>)
    requires NonNegativePairs(ps)
    ensures var texts := PairTexts(ps);
            seq(|texts|, k requires 0 <= k < |texts| => TokenPair(texts[k])) == ps
  {
    var texts := PairTexts(ps);
    var r := seq(|texts|, k requires 0 <= k < |texts| => TokenPair(texts[k]));
    forall k | 0 <= k < |ps| ensures r[k] == ps[k] {
      TokenPairOfPairText(ps[k].0, ps[k].1);
    }
  }

  /** The editor round trip: the text shown for stored sets saves back as those sets. */
  lemma SetsTextRoundTrip(ps: seq<SetPair>)
    requires NonNegativePairs(ps)
    ensures SetsToString(Some(PairsJson(ps))).Ok?
    ensures StringToSets(Some(JStr(SetsToString(Some(PairsJson(ps))).value))) == ps
  {
    SetsToStringOfPairs(ps);
    StringToSetsOfSetsText(ps);
  }

  /** A lone number is a set with the opponent at 0 here, while the back end's `_coerce_sets`
      drops it. */
  lemma LoneNumber(n: nat, loads: string -> Option<Json>)
    requires loads(NatToString(n)) == None || loads(NatToString(n)) == Some(JInt(n))
    ensures StringToSets(Some(JStr(NatToString(n)))) == [(n, 0)]
    ensures CoercedSets(JStr(NatToString(n)), loads) == Ok([])
  {
    LoneNumberHere(n);
    LoneNumberInBackEnd(n, loads);
  }

  lemma LoneNumberHere(n: nat)
    ensures StringToSets(Some(JStr(NatToString(n)))) == [(n, 0)]
  {
    var s := NatToString(n);
    var txt := Some(JStr(s));
    LoneTokens(n);
    assert Truthy(txt) && StringOf(txt) == s;
    LoneToken(n);
  }

  lemma LoneTokens(n: nat)
    ensures Trimmed(Split(NatToString(n), IsComma)) == [NatToString(n)]
  {
    var s := NatToString(n);
    NumeralNoneOf(n);
    DigitsAlone(s);
  }

  lemma DigitsAlone(s: string)
    requires s != [] && AllDigits(s) && NoneOf(s, IsComma)
    ensures Trimmed(Split(s, IsComma)) == [s]
  {
    SplitNoSeparator(s, IsComma);
    StripDigits(s);
    var pieces := Split(s, IsComma);
    assert pieces[1..] == [];
    assert Trimmed(pieces) == [s] + Trimmed([]);
  }

  lemma NumeralNoneOf(n: nat)
    ensures NoneOf(NatToString(n), IsComma) && NoneOf(NatToString(n), IsDash)
  {
  }

  lemma SplitNumeral(n: nat)
    ensures Split(NatToString(n), IsComma) == [NatToString(n)]
    ensures Split(NatToString(n), IsDash) == [NatToString(n)]
  {
    NumeralNoneOf(n);
    SplitNoSeparator(NatToString(n), IsComma);
    SplitNoSeparator(NatToString(n), IsDash);
  }

  lemma LoneToken(n: nat)
    ensures TokenPair(NatToString(n)) == (n, 0)
  {
    var s := NatToString(n);
    SplitNumeral(n);
    StripDigits(s);
    ParseIntOfNumeral(n);
  }

  lemma LoneNumberInBackEnd(n: nat, loads: string -> Option<Json>)
    requires loads(NatToString(n)) == None || loads(NatToString(n)) == Some(JInt(n))
    ensures CoercedSets(JStr(NatToString(n)), loads) == Ok([])
  {
    LoneDigitsInBackEnd(NatToString(n), n, loads);
  }

  lemma LoneDigitsInBackEnd(s: string, n: int, loads: string -> Option<Json>)
    requires s != [] && AllDigits(s)
    requires loads(s) == None || loads(s) == Some(JInt(n))
    ensures CoercedSets(JStr(s), loads) == Ok([])
  {
    if loads(s) == None {
      DigitsNoSeparator(s);
      CoercedSetsOfDashlessText(s, loads);
    } else {
      ParsedNumberInBackEnd(s, n, loads);
    }
  }

  lemma DigitsNoSeparator(s: string)
    requires s != [] && AllDigits(s)
    ensures NoneOf(s, IsComma) && NoneOf(s, IsDash)
    ensures !PyWhitespace(s[0]) && !PyWhitespace(s[|s| - 1])
  {
    var a, z := s[0] as int, s[|s| - 1] as int;
    assert 48 <= a <= 57 && 48 <= z <= 57;
  }

  lemma ParsedNumberInBackEnd(s: string, n: int, loads: string -> Option<Json>)
    requires s != [] && AllDigits(s) && loads(s) == Some(JInt(n))
    ensures CoercedSets(JStr(s), loads) == Ok([])
  {
    StripDigits(s);
    assert StructuredSets(JInt(n)) == Ok([]);
  }

  // ---------------------------------------------------------------- looksLive

  /** `looksLive(m)` for the status and started fields of `m`. */
  predicate JsLooksLive(status: Option<Json>, started: Option<Json>) {
    var st := Lower(ToStr(Coalesce(status, JStr(""))));
    (st == "live" || st == "in_progress" || st == "in-progress" || Truthy(started)) && st != "completed"
  }

  /** The page's live check agrees with the back end's `_looks_live` on text statuses and on
      every `started` value that is not an array or an object. */
  lemma LooksLiveAgrees(status: Option<string>, started: Json)
    requires !started.JArr? && !started.JObj?
    ensures LooksLive(status, started)
            == JsLooksLive(if status.None? then None else Some(JStr(status.value)), Some(started))
  {
  }

  /** An empty list in `started` is where they part: falsy in Python, truthy in JavaScript. */
  lemma LooksLiveDiffersOnEmptyList()
    ensures !LooksLive(None, JArr([]))
    ensures JsLooksLive(None, Some(JArr([])))
  {
    assert Lower("") == "";
  }

  // ---------------------------------------------------------------- saveScoreLine

  /** A property of a line, `undefined` when absent. */
  function Field(row: Line, k: string): Option<Json> { if k in row then Some(row[k]) else None }

  /** `{..., k: v}` under `JSON.stringify`: an `undefined` value leaves the key out. */
  function Put(m: map<string, Json>, k: string, v: Option<Json>): map<string, Json> {
    if v.Some? then m[k := v.value] else m
  }

  /** `x || d`. */
  function OrElse(v: Option<Json>, d: Json): Json { if Truthy(v) then v.value else d }

  /** The JSON body `saveScoreLine(matchId, row)` posts. */
  function SaveScorePayload(matchId: Json, row: Line): (p: map<string, Json>)
    ensures "match_id" in p && p["match_id"] == matchId
    ensures "sets" in p && p["sets"].JArr?
    ensures forall k :: k in p ==> k in {"match_id", "match_type", "line_no", "player1", "player2", "opponent1",
                                         "opponent2", "sets", "current_game", "current_serve", "status", "winner"}
  {
    var sets := if IsArray(Field(row, "sets")) then row["sets"] else PairsJson(StringToSets(Field(row, "setsText")));
    PayloadHead(matchId, row)
      ["player2" := OrElse(Field(row, "player2"), JNull)]
      ["opponent2" := OrElse(Field(row, "opponent2"), JNull)]
      ["sets" := sets]
      ["current_game" := OrElse(Field(row, "current_game"), JArr([JInt(0), JInt(0)]))]
      ["current_serve" := Coalesce(Field(row, "current_serve"), JInt(0))]
      ["status" := OrElse(Field(row, "status"), JStr("live"))]
      ["winner" := OrElse(Field(row, "winner"), JNull)]
  }

  /** Blank second players are posted as `null`, and only they are. */
  lemma SaveScorePayloadSecondPlayers(matchId: Json, row: Line)
    ensures var p := SaveScorePayload(matchId, row);
            "player2" in p && (p["player2"] == JNull <==> !Truthy(Field(row, "player2")) || row["player2"] == JNull)
    ensures var p := SaveScorePayload(matchId, row);
            "opponent2" in p && (p["opponent2"] == JNull <==> !Truthy(Field(row, "opponent2")) || row["opponent2"] == JNull)
  {
  }

  /** The fields a blank form leaves empty are posted with the defaults of a fresh line: game
      `[0, 0]`, team serving, status `live`, no winner. */
  lemma SaveScorePayloadFreshDefaults(matchId: Json, row: Line)
    ensures var p := SaveScorePayload(matchId, row);
            "current_game" in p && (!Truthy(Field(row, "current_game")) ==> p["current_game"] == JArr([JInt(0), JInt(0)]))
    ensures var p := SaveScorePayload(matchId, row);
            "current_serve" in p && (Nullish(Field(row, "current_serve")) ==> p["current_serve"] == JInt(0))
    ensures var p := SaveScorePayload(matchId, row);
            "status" in p && (!Truthy(Field(row, "status")) ==> p["status"] == JStr("live"))
    ensures var p := SaveScorePayload(matchId, row);
            "winner" in p && (!Truthy(Field(row, "winner")) ==> p["winner"] == JNull)
  {
  }

  /** The leading fields of the payload, each left out when the row lacks it. */
  function PayloadHead(matchId: Json, row: Line): (m: map<string, Json>)
    ensures "match_id" in m && m["match_id"] == matchId
    ensures forall k :: k in m ==> k in {"match_id", "match_type", "line_no", "player1", "opponent1"}
  {
    var m := Put(Put(map["match_id" := matchId], "match_type", Field(row, "match_type")),
                 "line_no", Field(row, "line_no"));
    Put(Put(m, "player1", Field(row, "player1")), "opponent1", Field(row, "opponent1"))
  }

  /** A line edited as text is saved with the sets the text shows, as pairs that the back end's
      `_coerce_sets` would keep unchanged. */
  lemma SavedTextSetsCoerce(matchId: Json, row: Line, ps: seq<SetPair>, loads: string -> Option<Json>)
    requires NonNegativePairs(ps)
    requires !IsArray(Field(row, "sets")) && Field(row, "setsText") == Some(JStr(SetsText(ps)))
    ensures SaveScorePayload(matchId, row)["sets"] == PairsJson(ps)
    ensures CoercedSets(SaveScorePayload(matchId, row)["sets"], loads) == Ok(ps)
  {
    StringToSetsOfSetsText(ps);
    CoercedSetsOfPairs(ps, loads);
  }

  // ---------------------------------------------------------------- the list of lines

  /** The blank singles line `addLine` appends as line `lineNo`. */
  function NewLine(matchId: Json, lineNo: int): Line {
    map["match_id" := matchId, "match_type" := JStr("singles"), "line_no" := JInt(lineNo),
        "player1" := JStr(""), "player2" := JStr(""), "opponent1" := JStr(""), "opponent2" := JStr(""),
        "setsText" := JStr(""), "current_game" := JArr([JInt(0), JInt(0)]), "current_serve" := JInt(0),
        "status" := JStr("live"), "winner" := JNull]
  }

  /** `addLine()`: nothing without a live match; otherwise one new line numbered one past the
      current count. */
  function AddLine(lines: seq<Line>, liveId: Option<Json>): (r: seq<Line>)
    ensures !Truthy(liveId) ==> r == lines
    ensures Truthy(liveId) ==>
              |r| == |lines| + 1 && r[..|lines|] == lines
              && Field(r[|lines|], "line_no") == Some(JInt(|lines| + 1))
              && Field(r[|lines|], "status") == Some(JStr("live"))
              && Field(r[|lines|], "current_game") == Some(JArr([JInt(0), JInt(0)]))
              && Field(r[|lines|], "current_serve") == Some(JInt(0)) && Field(r[|lines|], "id") == None
  {
    if !Truthy(liveId) then lines else lines + [NewLine(liveId.value, |lines| + 1)]
  }

  /** Lines numbered 1, 2, ... in list order. */
  predicate NumberedInOrder(lines: seq<Line>) {
    forall k :: 0 <= k < |lines| ==> "line_no" in lines[k] && lines[k]["line_no"] == JInt(k + 1)
  }

  /** `addLine` keeps lines numbered in list order. */
  lemma AddLineKeepsNumbering(lines: seq<Line>, liveId: Option<Json>)
    requires NumberedInOrder(lines)
    ensures NumberedInOrder(AddLine(lines, liveId))
  {
    var r := AddLine(lines, liveId);
    if Truthy(liveId) {
      forall k | 0 <= k < |r| ensures "line_no" in r[k] && r[k]["line_no"] == JInt(k + 1) {
        if k < |lines| {
          assert r[k] == r[..|lines|][k];
        }
      }
    }
  }

  /** `updateLine(idx, patch)`: element `idx` becomes `{...r, ...patch}`; nothing else changes. */
  function UpdateLine(lines: seq<Line>, idx: int, patch: Line): (r: seq<Line>)
    ensures |r| == |lines|
    ensures forall i :: 0 <= i < |lines| && i != idx ==> r[i] == lines[i]
    ensures 0 <= idx < |lines| ==> r[idx] == lines[idx] + patch && forall k :: k in patch ==> k in r[idx] && r[idx][k] == patch[k]
  {
    seq(|lines|, i requires 0 <= i < |lines| => if i == idx then lines[i] + patch else lines[i])
  }

  /** Two edits of one line are one edit with the later patch winning. */
  lemma UpdateLineTwice(lines: seq<Line>, idx: int, p: Line, q: Line)
    ensures UpdateLine(UpdateLine(lines, idx, p), idx, q) == UpdateLine(lines, idx, p + q)
  {
    var a, b := UpdateLine(UpdateLine(lines, idx, p), idx, q), UpdateLine(lines, idx, p + q);
    if 0 <= idx < |lines| {
      assert a[idx] == (lines[idx] + p) + q;
      assert (lines[idx] + p) + q == lines[idx] + (p + q);
    }
    assert forall i :: 0 <= i < |lines| ==> a[i] == b[i];
  }

  /** `removeLine(idx)`: a saved line (one with an id) stays when the server refuses to delete
      it; otherwise exactly element `idx` is dropped. */
  function RemoveLine(lines: seq<Line>, idx: int, serverOk: bool): (r: seq<Line>)
    ensures 0 <= idx < |lines| && (serverOk || !Truthy(Field(lines[idx], "id"))) ==>
              |r| == |lines| - 1
              && (forall i :: 0 <= i < idx ==> r[i] == lines[i])
              && (forall i :: idx <= i < |r| ==> r[i] == lines[i + 1])
    ensures !(0 <= idx < |lines|) || (!serverOk && Truthy(Field(lines[idx], "id"))) ==> r == lines
  {
    if 0 <= idx < |lines| && Truthy(Field(lines[idx], "id")) && !serverOk then lines
    else if 0 <= idx < |lines| then lines[..idx] + lines[idx + 1..]
    else lines
  }

  /** Removing a line that was just added, before it is saved, gives the list back. */
  lemma RemoveAddedLine(lines: seq<Line>, liveId: Option<Json>, serverOk: bool)
    requires Truthy(liveId)
    ensures RemoveLine(AddLine(lines, liveId), |lines|, serverOk) == lines
  {
    var r := AddLine(lines, liveId);
    assert r[..|lines|] == lines;
  }
}
