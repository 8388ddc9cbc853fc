/** The schedule page (match-tracker-frontend/src/components/Schedule.js): the countdown to the
    next match, and the live, next, upcoming and past matches derived from the fetched list.
    Instants are whole milliseconds; `Date.now()` is the parameter `now`. */
module Schedule {
  import opened Wrappers
  import opened Text
  import opened Json
  import opened JsValues
  import opened Sorting

  // ---------------------------------------------------------------- useCountdown

  const DayMs: nat := 86400000
  const HourMs: nat := 3600000
  const MinuteMs: nat := 60000
  const SecondMs: nat := 1000

  datatype Clock = Clock(days: nat, hours: nat, minutes: nat, seconds: nat)

  /** `Math.max(0, target - now)`, the target being 0 when there is no match date. */
  function Remaining(target: Option<int>, now: int): nat {
    var t := if target.Some? then target.value else 0;
    if t - now > 0 then t - now else 0
  }

  /** `useCountdown(iso)` at instant `now`: whole days, then the hours, minutes and seconds left
      over, each below its unit's range, together making up the time left to the second. */
  function Countdown(target: Option<int>, now: int): (c: Clock)
    ensures c.hours < 24 && c.minutes < 60 && c.seconds < 60
    ensures var shown := c.days * DayMs + c.hours * HourMs + c.minutes * MinuteMs + c.seconds * SecondMs;
            shown <= Remaining(target, now) < shown + SecondMs
  {
    var diff := Remaining(target, now);
    Decompose(diff);
    Clock(diff / DayMs, (diff % DayMs) / HourMs, (diff % HourMs) / MinuteMs, (diff % MinuteMs) / SecondMs)
  }

  lemma Decompose(diff: nat)
    ensures (diff % DayMs) / HourMs < 24
    ensures (diff % HourMs) / MinuteMs < 60
    ensures (diff % MinuteMs) / SecondMs < 60
    ensures var shown := (diff / DayMs) * DayMs + ((diff % DayMs) / HourMs) * HourMs
                         + ((diff % HourMs) / MinuteMs) * MinuteMs + ((diff % MinuteMs) / SecondMs) * SecondMs;
            shown <= diff < shown + SecondMs
  {
    var r1 := diff % 86400000;
    assert diff == (diff / 86400000) * 86400000 + r1;
    assert r1 % 3600000 == diff % 3600000;
    assert r1 == (r1 / 3600000) * 3600000 + diff % 3600000;
    var r2 := diff % 3600000;
    assert r2 % 60000 == diff % 60000;
    assert r2 == (r2 / 60000) * 60000 + diff % 60000;
    var r3 := diff % 60000;
    assert r3 == (r3 / 1000) * 1000 + r3 % 1000;
  }

  /** A match that has begun, or no match at all, shows a zero countdown. */
  lemma CountdownOver(target: Option<int>, now: int)
    requires (if target.Some? then target.value else 0) <= now
    ensures Countdown(target, now) == Clock(0, 0, 0, 0)
  {
  }

  // ---------------------------------------------------------------- the match lists

  /** A match as the schedule endpoint lists it. */
  datatype Fixture = Fixture(id: int, date: int, status: Option<Json>, opponent: string, location: string)

  function DateOf(m: Fixture): int { m.date }

  function LaterFirst(m: Fixture): int { -m.date }

  /** `String(m.status).toLowerCase()`. */
  function StatusKey(m: Fixture): string { Lower(StringOf(m.status)) }

  predicate IsLive(m: Fixture) { StatusKey(m) == "live" }

  predicate IsScheduled(m: Fixture) { StatusKey(m) == "scheduled" }

  predicate IsCompleted(m: Fixture) { StatusKey(m) == "completed" }

  /** `sorted`: a copy of the matches in ascending date order. */
  function Sorted(ms: seq<Fixture>): (r: seq<Fixture>)
    ensures multiset(r) == multiset(ms)
    ensures forall i, j :: 0 <= i < j < |r| ==> r[i].date <= r[j].date
  {
    SortBy(ms, DateOf)
  }

  /** `liveMatch`, as its position in `sorted`. */
  function LiveMatch(sorted: seq<Fixture>): Option<nat> {
    Find(sorted, IsLive)
  }

  /** `nextMatch`, as its position in `sorted`. */
  function NextMatch(sorted: seq<Fixture>, now: int): Option<nat> {
    Find(sorted, (m: Fixture) => Ahead(m, now))
  }

  /** A scheduled match dated after `now`. */
  predicate Ahead(m: Fixture, now: int) { IsScheduled(m) && m.date > now }

  /** `upcoming`: the scheduled matches other than `nextMatch` itself (compared by identity,
      hence by position). */
  function Upcoming(sorted: seq<Fixture>, now: int): seq<Fixture> {
    var n := NextMatch(sorted, now);
    Filter(if n.Some? then RemoveAt(sorted, n.value) else sorted, IsScheduled)
  }

  /** `past`: the completed matches, latest first. */
  function Past(sorted: seq<Fixture>): seq<Fixture> {
    SortBy(Filter(sorted, IsCompleted), LaterFirst)
  }

  /** A match of the list sits at some position of `sorted`. */
  lemma PositionInSorted(ms: seq<Fixture>, m: Fixture) returns (j: nat)
    requires m in ms
    ensures j < |Sorted(ms)| && Sorted(ms)[j] == m
  {
    var r := Sorted(ms);
    assert m in multiset(ms);
    assert m in multiset(r);
    j :| 0 <= j < |r| && r[j] == m;
  }

  /** Every match of `sorted` comes from the list. */
  lemma FromList(ms: seq<Fixture>)
    ensures forall j :: 0 <= j < |Sorted(ms)| ==> Sorted(ms)[j] in ms
  {
    var r := Sorted(ms);
    forall j | 0 <= j < |r| ensures r[j] in ms {
      assert r[j] in multiset(r);
    }
  }

  /** `liveMatch` is a live match dated no later than any other live match, and there is one
      exactly when some match is live. */
  lemma LiveMatchEarliest(ms: seq<Fixture>)
    ensures LiveMatch(Sorted(ms)).None? <==> forall m :: m in ms ==> !IsLive(m)
    ensures LiveMatch(Sorted(ms)).Some? ==>
              var l := Sorted(ms)[LiveMatch(Sorted(ms)).value];
              IsLive(l) && forall m :: m in ms && IsLive(m) ==> l.date <= m.date
  {
    var r := Sorted(ms);
    FromList(ms);
    forall m | m in ms && IsLive(m)
      ensures LiveMatch(r).Some? && r[LiveMatch(r).value].date <= m.date
    {
      var j := PositionInSorted(ms, m);
      assert IsLive(r[j]);
    }
  }

  /** `nextMatch` is a scheduled match dated after `now`, the earliest such; there is one exactly
      when some scheduled match lies in the future. */
  lemma NextMatchEarliest(ms: seq<Fixture>, now: int)
    ensures NextMatch(Sorted(ms), now).None? <==> forall m :: m in ms ==> !Ahead(m, now)
    ensures NextMatch(Sorted(ms), now).Some? ==>
              var x := Sorted(ms)[NextMatch(Sorted(ms), now).value];
              IsScheduled(x) && x.date > now
              && forall m :: m in ms && Ahead(m, now) ==> x.date <= m.date
  {
    var r := Sorted(ms);
    FromList(ms);
    forall m | m in ms && Ahead(m, now)
      ensures NextMatch(r, now).Some? && r[NextMatch(r, now).value].date <= m.date
    {
      var j := PositionInSorted(ms, m);
      assert Ahead(r[j], now);
    }
  }

  /** `upcoming` holds every scheduled match but `nextMatch`, once each, in ascending date
      order; `nextMatch` and `upcoming` together are exactly the scheduled matches. */
  lemma UpcomingContents(ms: seq<Fixture>, now: int)
    ensures var u := Upcoming(Sorted(ms), now);
            && (forall k :: 0 <= k < |u| ==> IsScheduled(u[k]))
            && (forall i, j :: 0 <= i < j < |u| ==> u[i].date <= u[j].date)
    ensures var r := Sorted(ms);
            var n := NextMatch(r, now);
            multiset(Upcoming(r, now)) + (if n.Some? then multiset{r[n.value]} else multiset{})
            == multiset(Filter(r, IsScheduled))
  {
    var r := Sorted(ms);
    var n := NextMatch(r, now);
    assert SortedBy(r, DateOf);
    var rest := if n.Some? then RemoveAt(r, n.value) else r;
    if n.Some? {
      RemoveAtSorted(r, n.value, DateOf);
      FilterRemoveAt(r, n.value, IsScheduled);
    }
    FilterSorted(rest, IsScheduled, DateOf);
  }

  /** `upcoming` keeps a scheduled match whose date has passed: only `nextMatch` must lie in the
      future, and every past-dated match sorts before it. */
  lemma UpcomingKeepsPastDated(ms: seq<Fixture>, now: int, k: nat)
    requires k < |Sorted(ms)| && IsScheduled(Sorted(ms)[k]) && Sorted(ms)[k].date <= now
    ensures Sorted(ms)[k] in Upcoming(Sorted(ms), now)
  {
    var r := Sorted(ms);
    var n := NextMatch(r, now);
    if n.Some? {
      var x := n.value;
      assert k < x;
      assert r[k] == RemoveAt(r, x)[k];
    }
  }

  /** `past` holds exactly the completed matches, latest first. */
  lemma PastContents(ms: seq<Fixture>)
    ensures forall k :: 0 <= k < |Past(Sorted(ms))| ==> IsCompleted(Past(Sorted(ms))[k])
    ensures forall i, j :: 0 <= i < j < |Past(Sorted(ms))| ==>
              Past(Sorted(ms))[i].date >= Past(Sorted(ms))[j].date
    ensures multiset(Past(Sorted(ms))) == multiset(Filter(Sorted(ms), IsCompleted))
    ensures forall m :: m in ms && IsCompleted(m) ==> m in Past(Sorted(ms))
  {
    var r := Sorted(ms);
    var p := Past(r);
    var f := Filter(r, IsCompleted);
    forall k | 0 <= k < |p| ensures IsCompleted(p[k]) {
      assert p[k] in multiset(f);
      assert p[k] in f;
    }
    forall i, j | 0 <= i < j < |p| ensures p[i].date >= p[j].date {
      assert LaterFirst(p[i]) <= LaterFirst(p[j]);
    }
    forall m | m in ms && IsCompleted(m) ensures m in p {
      var j := PositionInSorted(ms, m);
      assert m in f;
      assert m in multiset(p);
    }
  }
}
