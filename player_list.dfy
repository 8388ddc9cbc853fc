/** The roster page (match-tracker-frontend/src/components/PlayerList.js): how a win or loss
    count typed into the edit form is converted for saving, how a win-loss record is shown, and
    the order of the roster by class year. `normGender` is the one of module Gender. */
module PlayerList {
  import opened Wrappers
  import opened Text
  import opened Json
  import opened JsValues
  import opened Sorting

  // ---------------------------------------------------------------- toIntOrNull

  /** The three values the page treats as "no count": `""`, `null` and `undefined`. */
  predicate Blank(v: Option<Json>) { v == None || v == Some(JNull) || v == Some(JStr("")) }

  /** `toIntOrNull(v)`: no count for a blank value, otherwise `Number(v)` when it is finite. */
  function ToIntOrNull(v: Option<Json>): (r: Option<int>)
    ensures Blank(v) ==> r == None
  {
    if Blank(v) then None
    else
      var n := ToNumber(v);
      if n.Finite? then Some(n.n) else None
  }

  /** A count typed as its numeral converts back to the count. */
  lemma ToIntOrNullOfNumeral(i: int)
    ensures ToIntOrNull(Some(JStr(IntToString(i)))) == Some(i)
  {
    NumberOfIntText(i);
    ToIntOrNullOfText(IntToString(i), i);
  }

  lemma ToIntOrNullOfText(s: string, i: int)
    requires s != "" && StrToNumber(s) == Finite(i)
    ensures ToIntOrNull(Some(JStr(s))) == Some(i)
  {
  }

  lemma NumberOfIntText(i: int)
    ensures StrToNumber(IntToString(i)) == Finite(i)
  {
    var s := IntToString(i);
    if i < 0 {
      var n: nat := -i;
      assert s == "-" + NatToString(n);
      NumberOfNegNumeral(n);
    } else {
      assert s == NatToString(i);
      NatToStringValue(i);
      NumberOfDigits(s);
    }
  }

  lemma NumberOfNegNumeral(n: nat)
    ensures StrToNumber("-" + NatToString(n)) == Finite(-(n as int))
  {
    NumberOfNegative(NatToString(n));
    NatToStringValue(n);
  }

  lemma NumberOfDigits(ds: string)
    requires ds != [] && AllDigits(ds)
    ensures StrToNumber(ds) == Finite(DigitsValue(ds))
  {
    StripDigits(ds);
    assert IsDigit(ds[0]);
  }

  lemma NumberOfNegative(ds: string)
    requires ds != [] && AllDigits(ds)
    ensures StrToNumber("-" + ds) == Finite(-(DigitsValue(ds) as int))
  {
    var s := "-" + ds;
    assert s[1..] == ds && s[0] == '-' && s[|s| - 1] == ds[|ds| - 1];
    assert IsDigit(ds[|ds| - 1]);
    StripUnchanged(s, JsWhitespace);
  }

  /** Text of spaces only is not blank to `toIntOrNull`: `Number` reads it as 0. */
  lemma ToIntOrNullOfSpaces(s: string)
    requires s != "" && JsTrim(s) == ""
    ensures ToIntOrNull(Some(JStr(s))) == Some(0)
  {
  }

  predicate IsLetter(c: char) { 'a' <= c <= 'z' || 'A' <= c <= 'Z' }

  /** Text that starts with a letter, once trimmed, is no number: it is saved as no count. */
  lemma ToIntOrNullRejectsWords(s: string)
    requires JsTrim(s) != "" && IsLetter(JsTrim(s)[0])
    ensures ToIntOrNull(Some(JStr(s))) == None
  {
  }

  /** A count stored on the server (absent, `null` or an integer), as the page loads it
      (`p.x ?? ""`). */
  function Loaded(stored: Option<Json>): Option<Json> { Some(Coalesce(stored, JStr(""))) }

  function StoredCount(c: Option<int>): Option<Json> { if c.Some? then Some(JInt(c.value)) else Some(JNull) }

  /** Loading a stored count into the edit form and saving it unedited stores the same count. */
  lemma LoadSaveRoundTrip(c: Option<int>)
    ensures ToIntOrNull(Loaded(StoredCount(c))) == c
  {
    if c.Some? {
      assert Loaded(StoredCount(c)) == Some(JInt(c.value));
    }
  }

  // ---------------------------------------------------------------- fmtRecord

  /** One side of a record: `"—"` for a blank value, otherwise the value as a template string
      prints it. */
  function RecordSide(v: Option<Json>): string { if Blank(v) then "—" else StringOf(v) }

  /** `fmtRecord(w, l)`. */
  function FmtRecord(w: Option<Json>, l: Option<Json>): string { RecordSide(w) + "-" + RecordSide(l) }

  /** A record of two counts reads `"w-l"`, a zero included. */
  lemma FmtRecordOfCounts(w: nat, l: nat)
    ensures FmtRecord(Some(JInt(w)), Some(JInt(l))) == PairText(w, l)
  {
    RecordSideOfCount(w);
    RecordSideOfCount(l);
    assert FmtRecord(Some(JInt(w)), Some(JInt(l))) == PairText(w, l);
  }

  lemma RecordSideOfCount(n: nat)
    ensures RecordSide(Some(JInt(n))) == NatToString(n)
  {
    assert !Blank(Some(JInt(n)));
  }

  /** A blank side shows as the dash, whatever the other side is. */
  lemma FmtRecordBlankSides(w: Option<Json>, l: Option<Json>)
    requires Blank(w) || Blank(l)
    ensures Blank(w) ==> FmtRecord(w, l)[..2] == "—-"
    ensures Blank(l) ==> FmtRecord(w, l)[|FmtRecord(w, l)| - 2..] == "-—"
  {
  }

  // ---------------------------------------------------------------- the roster order

  /** A roster entry; `year` is the class year text as loaded. */
  datatype Player = Player(id: int, name: string, year: Option<Json>)

  /** `YEAR_ORDER[year?.trim?.()] || 0`: only text has a `trim` method; after trimming, the
      four class names rank 4 down to 1 and anything else 0. */
  function YearRank(year: Option<Json>): (r: nat)
    ensures r <= 4
    ensures r > 0 ==> year.Some? && year.value.JStr?
  {
    match year
    case Some(JStr(s)) => RankOf(JsTrim(s))
    case _ => 0
  }

  function RankOf(t: string): nat {
    if t == "Senior" then 4
    else if t == "Junior" then 3
    else if t == "Sophomore" then 2
    else if t == "Freshman" then 1
    else 0
  }

  /** Surrounding whitespace does not change a rank. */
  lemma YearRankTrimmed(s: string)
    ensures YearRank(Some(JStr(JsTrim(s)))) == YearRank(Some(JStr(s)))
  {
    StripUnchanged(JsTrim(s), JsWhitespace);
  }

  /** The sort key: ascending `-rank` is descending rank. */
  function SeniorFirst(p: Player): int { -(YearRank(p.year) as int) }

  /** `sorted`: a copy of the roster, seniors first down to freshmen, then the rest. */
  function Roster(players: seq<Player>): (r: seq<Player>)
    ensures multiset(r) == multiset(players)
    ensures forall i, j :: 0 <= i < j < |r| ==> YearRank(r[i].year) >= YearRank(r[j].year)
  {
    var r := SortBy(players, SeniorFirst);
    assert forall i, j :: 0 <= i < j < |r| ==> SeniorFirst(r[i]) <= SeniorFirst(r[j]);
    r
  }

  /** Players of the same rank keep the order the server sent them in (the rank-`r` players are
      those whose key is `-r`). */
  lemma RosterStable(players: seq<Player>, k: int)
    ensures WithKey(Roster(players), SeniorFirst, k) == WithKey(players, SeniorFirst, k)
  {
    RosterIsSort(players);
    SortByStable(players, SeniorFirst, k);
  }

  lemma RosterIsSort(players: seq<Player>)
    ensures Roster(players) == SortBy(players, SeniorFirst)
  {
  }
}
