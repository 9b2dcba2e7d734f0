/**
 The time range of a call-history request (app/bss/adapters/portaswitch/adapter.py:182-185,
 1890-1956, 1989-1992; api/account.py:239-240). Times are whole microseconds since year 1 began,
 as far as the datetime type reaches.
 */
module CallHistory {
  import opened Prelude

  const SECOND: int := 1_000_000
  const HOUR: int := 3600 * SECOND
  const DAY: int := 24 * HOUR
  /** The type's last microsecond, and the whole second it belongs to. */
  const LAST: int := 3652059 * DAY - 1
  const LAST_SECOND: int := 3652059 * DAY - SECOND
  /** 1970-01-01 and 9000-01-01. */
  const MIN_DATE: int := 719162 * DAY
  const MAX_DATE: int := 3286817 * DAY
  const MAX_WINDOW_HOURS: nat := 100 * 365 * 24

  type Time = t: int | 0 <= t <= LAST
  type Offset = o: int | -DAY < o < DAY
  type Hours = h: nat | h <= MAX_WINDOW_HOURS

  /** A bound as a client gives it: without a zone, or with its distance from UTC. */
  datatype Bound = Naive(wall: Time) | Aware(wall: Time, offset: Offset)

  datatype Range = Range(from: Time, to: Time)

  predicate Whole(t: int) {
    t % SECOND == 0
  }

  function AsNaiveUtc(b: Bound): Time {
    match b
    case Naive(wall) => wall
    case Aware(wall, offset) => if 0 <= wall - offset <= LAST then wall - offset else wall
  }

  function WindowStart(to: Time, hours: Hours): Time {
    if hours == 0 then MIN_DATE
    else if to - MIN_DATE <= hours * HOUR then MIN_DATE
    else to - hours * HOUR
  }

  /** A floor between two whole seconds moves up to the next one, where the type has one. */
  function Raised(floor: Time): Time {
    if floor % SECOND != 0 && floor < LAST_SECOND then floor - floor % SECOND + SECOND else floor
  }

  function CallHistoryRange(
      from: Option<Bound>, to: Option<Bound>, floor: Option<Bound>, now: Time, hours: Hours): Range {
    var end := match to
      case Some(b) => AsNaiveUtc(b)
      case None => if hours != 0 then now else MAX_DATE;
    var start := match from
      case Some(b) => AsNaiveUtc(b)
      case None => WindowStart(end, hours);
    match floor
    case None => Range(start, end)
    case Some(b) => Range(Max(start, Raised(AsNaiveUtc(b))), end)
  }

  /** A bound as it is written into the request: its fraction of a second is dropped. */
  function Sent(t: Time): Time {
    t - t % SECOND
  }

  /** The range asked of the switch, or None when the answer is empty without asking. */
  function Query(r: Range, floored: bool): Option<Range> {
    if floored && r.from >= r.to then None else Some(Range(Sent(r.from), Sent(r.to)))
  }

  /** The switch serves the calls from the lower bound on, up to the upper one; whether a call exactly
      on the upper bound is among them is not known. */
  predicate Served(q: Option<Range>, inclusive: bool, call: Time) {
    q.Some? && q.value.from <= call && (call < q.value.to || (inclusive && call == q.value.to))
  }

  lemma SentIsTheLastWholeSecond(t: Time, s: Time)
    requires Whole(s)
    ensures Whole(Sent(t)) && Sent(t) <= t < Sent(t) + SECOND
    ensures s <= t <==> s <= Sent(t)
  {
  }

  /** The floor never widens the range and never moves its end; without it explicit bounds are the
      ones given, the same moment in UTC. */
  lemma FloorOnlyNarrows(from: Option<Bound>, to: Option<Bound>, floor: Bound, now: Time, hours: Hours)
    ensures var without, r := CallHistoryRange(from, to, None, now, hours), CallHistoryRange(from, to, Some(floor), now, hours);
      && r.to == without.to
      && r.from >= without.from && r.from >= AsNaiveUtc(floor)
      && (r.from == without.from || AsNaiveUtc(floor) <= r.from < AsNaiveUtc(floor) + SECOND)
      && (from.Some? ==> without.from == AsNaiveUtc(from.value))
      && (to.Some? ==> without.to == AsNaiveUtc(to.value))
  {
  }

  /** The lower bound sent respects the floor exactly when the floor is a whole second or lies
      before the type's last one. */
  lemma SentRespectsTheFloorIff(from: Option<Bound>, to: Option<Bound>, floor: Bound, now: Time, hours: Hours)
    ensures Sent(CallHistoryRange(from, to, Some(floor), now, hours).from) >= AsNaiveUtc(floor)
            <==> Whole(AsNaiveUtc(floor)) || AsNaiveUtc(floor) < LAST_SECOND
  {
    var f := AsNaiveUtc(floor);
    var start := CallHistoryRange(from, to, None, now, hours).from;
    assert Whole(LAST_SECOND);
    SentIsTheLastWholeSecond(f, LAST_SECOND);
    SentIsTheLastWholeSecond(Max(start, Raised(f)), Raised(f) - Raised(f) % SECOND);
  }

  lemma FloorSplitsSeconds(floor: Time, call: Time)
    requires Whole(call) && (Whole(floor) || floor < LAST_SECOND)
    ensures call >= floor <==> call >= Raised(floor)
  {
  }

  /** For every floor, against the calls that the request would serve without it and that are not
      before it: with an exclusive upper bound the calls served are exactly these. With an inclusive one
      there are two differences. A floor that reaches the end is answered empty without asking, and loses
      a call exactly on the end; and a floor between the type's last whole second and an end behind it
      lets that second's call through. Calls are stamped in whole seconds. */
  lemma FloorFiltersExactly(
      from: Option<Bound>, to: Option<Bound>, floor: Bound, now: Time, hours: Hours, inclusive: bool, call: Time)
    requires Whole(call)
    ensures var without, r := CallHistoryRange(from, to, None, now, hours), CallHistoryRange(from, to, Some(floor), now, hours);
      var f := AsNaiveUtc(floor);
      var kept := Served(Query(without, false), inclusive, call) && call >= f;
      && (!inclusive ==> (Served(Query(r, true), inclusive, call) <==> kept))
      && (inclusive && r.from < r.to ==>
            (Served(Query(r, true), inclusive, call) <==> kept || (call == LAST_SECOND < f)))
      && (inclusive && r.from >= r.to ==>
            !Served(Query(r, true), inclusive, call)
            && (kept <==> call == Sent(r.to) && call >= Sent(without.from) && call >= f))
  {
    var without, r := CallHistoryRange(from, to, None, now, hours), CallHistoryRange(from, to, Some(floor), now, hours);
    var f := AsNaiveUtc(floor);
    if Whole(f) || f < LAST_SECOND {
      RaisedFilters(without, f, inclusive, call);
    } else {
      LastSecondFilters(without, f, inclusive, call);
    }
  }

  /** The two cases, for the range without the floor. */
  predicate Filters(without: Range, f: Time, inclusive: bool, call: Time) {
    var r := Range(Max(without.from, Raised(f)), without.to);
    var kept := Served(Query(without, false), inclusive, call) && call >= f;
    && (!inclusive ==> (Served(Query(r, true), inclusive, call) <==> kept))
    && (inclusive && r.from < r.to ==>
          (Served(Query(r, true), inclusive, call) <==> kept || (call == LAST_SECOND < f)))
    && (inclusive && r.from >= r.to ==>
          !Served(Query(r, true), inclusive, call)
          && (kept <==> call == Sent(r.to) && call >= Sent(without.from) && call >= f))
  }

  lemma RaisedFilters(without: Range, f: Time, inclusive: bool, call: Time)
    requires Whole(call) && (Whole(f) || f < LAST_SECOND)
    ensures Filters(without, f, inclusive, call)
  {
    FloorSplitsSeconds(f, call);
    SentOfMax(without.from, Raised(f));
    if Max(without.from, Raised(f)) >= without.to {
      SentKeepsOrder(without.to, Max(without.from, Raised(f)));
    }
  }

  lemma LastSecondFilters(without: Range, f: Time, inclusive: bool, call: Time)
    requires Whole(call) && !Whole(f) && f >= LAST_SECOND
    ensures Filters(without, f, inclusive, call)
  {
    var start := Max(without.from, f);
    SentInTheLastSecond(call, f);
    SentInTheLastSecond(start, f);
    SentInTheLastSecond(without.to, f);
    SentKeepsOrder(without.from, start);
  }

  /** Nothing is sent beyond the type's last whole second, and everything behind a floor in it as it. */
  lemma SentInTheLastSecond(t: Time, floor: Time)
    requires !Whole(floor) && floor >= LAST_SECOND
    ensures Sent(t) <= LAST_SECOND < floor && (t >= floor ==> Sent(t) == LAST_SECOND)
  {
    assert Whole(LAST_SECOND);
    SentIsTheLastWholeSecond(t, LAST_SECOND);
  }

  lemma SentOfMax(t: Time, s: Time)
    requires Whole(s)
    ensures Sent(Max(t, s)) == Max(Sent(t), s)
  {
    SentIsTheLastWholeSecond(t, s);
  }

  lemma SentKeepsOrder(a: Time, b: Time)
    requires a <= b
    ensures Sent(a) <= Sent(b)
  {
  }

  /** A bound in UTC: without a zone it is taken as it stands; otherwise it lies the zone's distance from
      UTC before its wall clock, unless that leaves the type, and then it is its wall clock. */
  lemma UtcIs(wall: Time, offset: Offset)
    ensures AsNaiveUtc(Naive(wall)) == wall
    ensures 0 <= wall - offset <= LAST ==> AsNaiveUtc(Aware(wall, offset)) + offset == wall
    ensures wall - offset < 0 || wall - offset > LAST ==> AsNaiveUtc(Aware(wall, offset)) == wall
    ensures LAST == 3652059 * 24 * 3600 * 1_000_000 - 1
  {
  }

  /** The end of the range: the bound given; otherwise now, or the year 9000 with the window off. */
  lemma EndIs(from: Option<Bound>, to: Option<Bound>, floor: Option<Bound>, now: Time, hours: Hours)
    ensures var r := CallHistoryRange(from, to, floor, now, hours);
      && (to.Some? ==> r.to == AsNaiveUtc(to.value))
      && (to == None && hours > 0 ==> r.to == now)
      && (to == None && hours == 0 ==> r.to == 3286817 * DAY)
  {
  }

  /** The start: the bound given or the default window's, or the floor where that is later, moved up to the
      next whole second unless the type has none. */
  lemma StartIs(from: Option<Bound>, to: Option<Bound>, floor: Option<Bound>, now: Time, hours: Hours)
    ensures var r := CallHistoryRange(from, to, floor, now, hours);
      var asked := if from.Some? then AsNaiveUtc(from.value)
                   else if hours == 0 || r.to - hours * HOUR < 719162 * DAY then 719162 * DAY
                   else r.to - hours * HOUR;
      && (floor == None ==> r.from == asked)
      && (floor.Some? ==>
            var f := AsNaiveUtc(floor.value);
            exists raised :: f <= raised < f + 1_000_000 && (raised % 1_000_000 == 0 || raised == f)
              && (raised == f <==> f % 1_000_000 == 0 || f >= 3652059 * DAY - 1_000_000)
              && r.from == (if asked < raised then raised else asked))
  {
    if floor.Some? {
      var f := AsNaiveUtc(floor.value);
      var raised := Raised(f);
      assert f <= raised < f as int + 1_000_000;
      assert raised % 1_000_000 == 0 || raised == f;
    }
  }

  /** What is asked of the switch: both ends with their fractions of a second dropped; nothing is asked
      exactly when there is a floor and the range is empty. */
  lemma QueryIs(r: Range, floored: bool)
    ensures Query(r, floored) == None <==> floored && r.from >= r.to
    ensures var q := Query(r, floored);
      q.Some? ==>
        && q.value.from % 1_000_000 == 0 && 0 <= r.from - q.value.from < 1_000_000
        && q.value.to % 1_000_000 == 0 && 0 <= r.to - q.value.to < 1_000_000
  {
  }

  /** The default window ends at the upper bound, stays inside the type, and is the configured one
      cut at 1970; switched off, the pair is the fixed one. */
  lemma DefaultWindow(to: Option<Bound>, now: Time, hours: Hours)
    ensures var r := CallHistoryRange(None, to, None, now, hours);
      && MIN_DATE <= r.from
      && (hours > 0 ==> r.to - r.from <= hours * HOUR)
      && (hours > 0 && r.to - hours * HOUR >= MIN_DATE ==> r.to - r.from == hours * HOUR)
      && (hours > 0 && r.to - hours * HOUR < MIN_DATE ==> r.from == MIN_DATE)
      && (hours == 0 ==> r.from == MIN_DATE && (to == None ==> r.to == MAX_DATE))
  {
    assert hours * HOUR >= 0;
  }
}
