/** What ingestion, correction and the points column of the standings promise together. */
module CareerStandings {
  import opened Python
  import opened FiniteSums
  import opened Career

  // ---------- Ingesting twice ----------

  lemma OtherResultsStay(t: Tables, a: Ingestion, now: Clock)
    requires Ingest(t, a, now).Ok?
    ensures WithoutEvent(Ingest(t, a, now).value.0.results, IdOf(t, a)) == WithoutEvent(t.results, IdOf(t, a))
  {
    var t', id := Ingest(t, a, now).value.0, IdOf(t, a);
    forall r: (int, string) | r.0 != id
      ensures r in t'.results <==> r in t.results
      ensures r in t.results ==> t'.results[r] == t.results[r]
    {
      IngestMembers(t, a, now, r);
    }
  }

  /** Ingesting an event again leaves exactly what the second call alone would have left,
      whatever the time of either call and whenever the event was observed. */
  lemma IngestTwice(t: Tables, a: Ingestion, observedBefore: Option<int>, first: Clock, second: Clock)
    requires Ingest(t, a.(observedAt := observedBefore), first).Ok?
    ensures Ingest(Ingest(t, a.(observedAt := observedBefore), first).value.0, a, second) == Ingest(t, a, second)
  {
    var before := a.(observedAt := observedBefore);
    var t' := Ingest(t, before, first).value.0;
    assert IdOf(t', a) == IdOf(t, a);
    OtherResultsStay(t, before, first);
    UpsertTwice(t.drivers, a.career, a.results);
    var k, row := KeyOf(a), RowOfEvent(a, IdOf(t, a), second);
    var career := t.careers[a.career];
    var stamped := career.(currentRound := MaxRound(career.currentRound, a.round), updatedAt := second.updated);
    assert t'.events[k := row] == t.events[k := row];
    assert t'.careers[a.career := stamped] == t.careers[a.career := stamped];
  }

  function UntimedCareers(careers: map<int, CareerRow>): map<int, CareerRow> {
    map c | c in careers :: careers[c].(updatedAt := 0)
  }

  function UntimedEvents(events: map<EventKey, EventRow>): map<EventKey, EventRow> {
    map k | k in events :: events[k].(observedAt := 0)
  }

  /** The tables with every time stamp blanked. */
  function Untimed(t: Tables): Tables {
    t.(careers := UntimedCareers(t.careers), events := UntimedEvents(t.events))
  }

  lemma UntimedUpdates(t: Tables, c: int, career: CareerRow, career': CareerRow, k: EventKey, row: EventRow,
                       row': EventRow)
    requires career.(updatedAt := 0) == career'.(updatedAt := 0) && row.(observedAt := 0) == row'.(observedAt := 0)
    ensures UntimedCareers(t.careers[c := career]) == UntimedCareers(t.careers[c := career'])
    ensures UntimedEvents(t.events[k := row]) == UntimedEvents(t.events[k := row'])
  {
  }

  lemma IngestAnytime(t: Tables, a: Ingestion, first: Clock, second: Clock)
    requires Ingest(t, a, first).Ok?
    ensures Ingest(t, a, second).Ok? && Ingest(t, a, first).value.1 == Ingest(t, a, second).value.1
    ensures Untimed(Ingest(t, a, first).value.0) == Untimed(Ingest(t, a, second).value.0)
  {
    hide InsertResults, UpsertDrivers, WithoutEvent, UntimedCareers, UntimedEvents;
    var id, career := IdOf(t, a), t.careers[a.career];
    var advanced := career.(currentRound := MaxRound(career.currentRound, a.round));
    UntimedUpdates(t, a.career, advanced.(updatedAt := first.updated), advanced.(updatedAt := second.updated),
                   KeyOf(a), RowOfEvent(a, id, first), RowOfEvent(a, id, second));
  }

  /** Calling twice with the same arguments equals calling once, time stamps apart; both calls
      return the same event. */
  lemma IngestAgain(t: Tables, a: Ingestion, first: Clock, second: Clock)
    requires Ingest(t, a, first).Ok?
    ensures var (once, id) := Ingest(t, a, first).value;
            var again := Ingest(once, a, second);
            again.Ok? && again.value.1 == id && Untimed(again.value.0) == Untimed(once)
  {
    hide Ingest, Untimed;
    assert a.(observedAt := a.observedAt) == a;
    IngestTwice(t, a, a.observedAt, first, second);
    IngestAnytime(t, a, first, second);
  }

  /** The team a list of results leaves a driver with. */
  function LastTeam(rs: seq<CareerResult>, driver: string, before: Option<string>): Option<string> {
    if rs == [] then before
    else
      var last := rs[|rs| - 1];
      if last.key == driver && last.team.Some? then last.team else LastTeam(rs[..|rs| - 1], driver, before)
  }

  function LastName(rs: seq<CareerResult>, driver: string, before: string): string {
    if rs == [] then before
    else if rs[|rs| - 1].key == driver then rs[|rs| - 1].name
    else LastName(rs[..|rs| - 1], driver, before)
  }

  lemma {:induction false} UnlistedLast(rs: seq<CareerResult>, driver: string, team: Option<string>, name: string)
    requires !Lists(rs, driver)
    ensures LastTeam(rs, driver, team) == team && LastName(rs, driver, name) == name
  {
    if rs != [] {
      ListsSplit(rs, driver);
      UnlistedLast(rs[..|rs| - 1], driver, team, name);
    }
  }

  /** What is stored of one driver after the results of one event. */
  lemma {:induction false} UpsertRow(drivers: Drivers, career: int, rs: seq<CareerResult>, k: (int, string))
    requires k in UpsertDrivers(drivers, career, rs)
    ensures var row := if k in drivers then drivers[k] else DriverRow("", None, 0);
            UpsertDrivers(drivers, career, rs)[k]
            == if k.0 != career then row
               else DriverRow(LastName(rs, k.1, row.name), LastTeam(rs, k.1, row.team), row.starting)
  {
    if rs != [] {
      var before := rs[..|rs| - 1];
      UpsertDriversMeaning(drivers, career, before);
      if k in UpsertDrivers(drivers, career, before) {
        UpsertRow(drivers, career, before, k);
      } else {
        UnlistedLast(before, k.1, None, "");
      }
    }
  }

  lemma {:induction false} LastAgain(rs: seq<CareerResult>, driver: string, team: Option<string>, name: string)
    ensures LastTeam(rs, driver, LastTeam(rs, driver, team)) == LastTeam(rs, driver, team)
    ensures LastName(rs, driver, LastName(rs, driver, name)) == LastName(rs, driver, name)
  {
    if rs != [] {
      var last := rs[|rs| - 1];
      LastTeamOf(rs, driver, LastTeam(rs, driver, team), team);
      LastNameOf(rs, driver, LastName(rs, driver, name), name);
    }
  }

  /** Either the results name the driver's team and what was before does not matter, or they
      leave it alone. */
  lemma {:induction false} LastTeamOf(rs: seq<CareerResult>, driver: string, x: Option<string>, y: Option<string>)
    ensures LastTeam(rs, driver, x) == LastTeam(rs, driver, y)
            || (LastTeam(rs, driver, x) == x && LastTeam(rs, driver, y) == y)
  {
    if rs != [] {
      LastTeamOf(rs[..|rs| - 1], driver, x, y);
    }
  }

  lemma {:induction false} LastNameOf(rs: seq<CareerResult>, driver: string, x: string, y: string)
    ensures LastName(rs, driver, x) == LastName(rs, driver, y)
            || (LastName(rs, driver, x) == x && LastName(rs, driver, y) == y)
  {
    if rs != [] {
      LastNameOf(rs[..|rs| - 1], driver, x, y);
    }
  }

  lemma UpsertTwice(drivers: Drivers, career: int, rs: seq<CareerResult>)
    ensures UpsertDrivers(UpsertDrivers(drivers, career, rs), career, rs) == UpsertDrivers(drivers, career, rs)
  {
    var once := UpsertDrivers(drivers, career, rs);
    var twice := UpsertDrivers(once, career, rs);
    UpsertDriversMeaning(drivers, career, rs);
    UpsertDriversMeaning(once, career, rs);
    forall k | k in once ensures twice[k] == once[k] {
      var row := if k in drivers then drivers[k] else DriverRow("", None, 0);
      UpsertRow(drivers, career, rs, k);
      UpsertRow(once, career, rs, k);
      LastAgain(rs, k.1, row.team, row.name);
    }
    assert twice.Keys == once.Keys;
  }

  // ---------- Standings ----------

  ghost function EventsOf(t: Tables, career: int): set<EventKey> {
    set k | k in t.events && k.career == career
  }

  function EventPoints(t: Tables, k: EventKey, driver: string): int {
    if k in t.events && (t.events[k].id, driver) in t.results then t.results[(t.events[k].id, driver)].points else 0
  }

  /** The points column of the standings: starting points plus the driver's results in every
      event of the career. */
  ghost function DriverPoints(t: Tables, career: int, driver: string): int
    requires (career, driver) in t.drivers
  {
    t.drivers[(career, driver)].starting + SumOver(EventsOf(t, career), (k: EventKey) => EventPoints(t, k, driver))
  }

  /** What one ingestion gives a driver: its event's list decides that event, and no other
      event changes. */
  lemma IngestPoints(t: Tables, a: Ingestion, now: Clock, k: EventKey, driver: string)
    requires Good(t) && Ingest(t, a, now).Ok?
    ensures EventPoints(Ingest(t, a, now).value.0, k, driver)
            == if k == KeyOf(a) then ListedPoints(t.careers[a.career].rules, a.kind, a.results, driver)
               else EventPoints(t, k, driver)
  {
    var (t', id) := Ingest(t, a, now).value;
    if k == KeyOf(a) {
      NoResultsLeft(t.results, id);
      InsertPoints(WithoutEvent(t.results, id), id, t.careers[a.career].rules, a.kind, a.results, driver);
    } else if k in t.events {
      IngestMembers(t, a, now, (t.events[k].id, driver));
    }
  }

  /** The same drivers with the same points. */
  ghost predicate SameStandings(t: Tables, u: Tables) {
    && t.drivers.Keys == u.drivers.Keys
    && forall k | k in t.drivers :: DriverPoints(t, k.0, k.1) == DriverPoints(u, k.0, k.1)
  }

  // ---------- Many events ----------

  /** A call with the clock readings it makes. */
  datatype Arrival = Arrival(a: Ingestion, at: Clock)

  function IngestAll(t: Tables, events: seq<Arrival>): Tables {
    if events == [] then t
    else
      var before := IngestAll(t, events[..|events| - 1]);
      match Ingest(before, events[|events| - 1].a, events[|events| - 1].at) case Ok((u, _)) => u case Err(_) => before
  }

  /** Different events of known careers, none listing a driver twice. */
  predicate Ingestible(t: Tables, events: seq<Arrival>) {
    && (forall x | x in events :: x.a.career in t.careers && DistinctKeys(x.a.results))
    && (forall i, j | 0 <= i < j < |events| :: KeyOf(events[i].a) != KeyOf(events[j].a))
  }

  ghost predicate Covers(events: seq<Arrival>, e: EventKey) {
    exists x | x in events :: KeyOf(x.a) == e
  }

  ghost predicate Enters(events: seq<Arrival>, k: (int, string)) {
    exists x | x in events :: x.a.career == k.0 && Lists(x.a.results, k.1)
  }

  /** What any number of ingestions does to the other tables. */
  ghost predicate SeenAfter(t: Tables, events: seq<Arrival>, u: Tables) {
    && Good(u) && u.careers.Keys == t.careers.Keys
    && (forall k | k in t.careers :: u.careers[k].rules == t.careers[k].rules)
    && (forall e :: e in u.events <==> e in t.events || Covers(events, e))
    && DriversSeen(t.drivers, events, u.drivers)
  }

  ghost predicate DriversSeen(before: Drivers, events: seq<Arrival>, after: Drivers) {
    && (forall k :: k in after <==> k in before || Enters(events, k))
    && (forall k | k in after :: after[k].starting == if k in before then before[k].starting else 0)
  }

  lemma DriversStep(before: Drivers, events: seq<Arrival>, after: Drivers, x: Arrival)
    requires DriversSeen(before, events, after)
    ensures DriversSeen(before, events + [x], UpsertDrivers(after, x.a.career, x.a.results))
  {
    hide Enters, Lists;
    CoverageAppend(events, x);
    UpsertDriversMeaning(after, x.a.career, x.a.results);
  }

  lemma IngestibleFront(t: Tables, events: seq<Arrival>)
    requires events != [] && Ingestible(t, events)
    ensures var n := |events| - 1;
            Ingestible(t, events[..n]) && !Covers(events[..n], KeyOf(events[n].a))
            && events[n].a.career in t.careers && DistinctKeys(events[n].a.results)
  {
    var n := |events| - 1;
    assert events[n] in events && forall x | x in events[..n] :: x in events;
    forall x | x in events[..n] ensures KeyOf(x.a) != KeyOf(events[n].a) {
      var i :| 0 <= i < n && events[i] == x;
    }
  }

  lemma IngestAllStep(t: Tables, events: seq<Arrival>)
    requires events != [] && Ingestible(t, events)
    requires SeenAfter(t, events[..|events| - 1], IngestAll(t, events[..|events| - 1]))
    ensures var last, before := events[|events| - 1], IngestAll(t, events[..|events| - 1]);
            Ingest(before, last.a, last.at).Ok? && IngestAll(t, events) == Ingest(before, last.a, last.at).value.0
  {
    IngestibleFront(t, events);
    hide Ingest, Good, DistinctKeys, Ingestible;
    IngestSucceeds(IngestAll(t, events[..|events| - 1]), events[|events| - 1].a, events[|events| - 1].at);
  }

  lemma SeenStep(t: Tables, events: seq<Arrival>, u: Tables, x: Arrival)
    requires SeenAfter(t, events, u) && Ingest(u, x.a, x.at).Ok?
    ensures SeenAfter(t, events + [x], Ingest(u, x.a, x.at).value.0)
  {
    hide Good, Lists, Covers, DriversSeen, DistinctKeys;
    IngestKeepsGood(u, x.a, x.at);
    DriversStep(t.drivers, events, u.drivers, x);
    CoverageAppend(events, x);
  }

  lemma CoverageAppend(events: seq<Arrival>, x: Arrival)
    ensures forall e :: Covers(events + [x], e) <==> Covers(events, e) || KeyOf(x.a) == e
    ensures forall k :: Enters(events + [x], k) <==> Enters(events, k) || (x.a.career == k.0 && Lists(x.a.results, k.1))
  {
    hide Lists;
    var all := events + [x];
    assert forall y :: y in all <==> y in events || y == x;
  }

  lemma SeenNone(t: Tables)
    requires Good(t)
    ensures SeenAfter(t, [], t)
  {
    hide Good, Lists;
  }

  lemma {:induction false} IngestAllSeen(t: Tables, events: seq<Arrival>)
    requires Good(t) && Ingestible(t, events)
    ensures SeenAfter(t, events, IngestAll(t, events))
  {
    hide Ingest, Good, DistinctKeys, SeenAfter, Ingestible, Covers;
    if events == [] {
      SeenNone(t);
    } else {
      var n := |events| - 1;
      IngestibleFront(t, events);
      IngestAllSeen(t, events[..n]);
      IngestAllStep(t, events);
      SeenStep(t, events[..n], IngestAll(t, events[..n]), events[n]);
      assert events == events[..n] + [events[n]];
    }
  }

  /** The last ingestion of a list meets a good database with the same rules. */
  lemma IngestAllLast(t: Tables, events: seq<Arrival>)
    requires events != [] && Good(t) && Ingestible(t, events)
    ensures var n := |events| - 1;
            var last, before := events[n], IngestAll(t, events[..n]);
            && Ingestible(t, events[..n]) && !Covers(events[..n], KeyOf(last.a))
            && Good(before) && last.a.career in t.careers && last.a.career in before.careers
            && before.careers[last.a.career].rules == t.careers[last.a.career].rules
            && Ingest(before, last.a, last.at).Ok? && IngestAll(t, events) == Ingest(before, last.a, last.at).value.0
  {
    hide Ingest, IngestAll, Good, Ingestible, Covers, DistinctKeys;
    IngestibleFront(t, events);
    IngestAllSeen(t, events[..|events| - 1]);
    IngestAllStep(t, events);
  }

  /** An event ingested among others gives each driver what its own list says. */
  lemma {:induction false} IngestAllPoints(t: Tables, events: seq<Arrival>, x: Arrival, driver: string)
    requires Good(t) && Ingestible(t, events) && x in events
    ensures x.a.career in t.careers
    ensures EventPoints(IngestAll(t, events), KeyOf(x.a), driver)
            == ListedPoints(t.careers[x.a.career].rules, x.a.kind, x.a.results, driver)
  {
    hide Ingest, IngestAll, Good, Ingestible, EventPoints, ListedPoints;
    var n := |events| - 1;
    var last, before := events[n], IngestAll(t, events[..n]);
    IngestAllLast(t, events);
    IngestPoints(before, last.a, last.at, KeyOf(x.a), driver);
    assert events == events[..n] + [last];
    if x != last {
      IngestAllPoints(t, events[..n], x, driver);
    }
  }

  lemma {:induction false} IngestAllOthers(t: Tables, events: seq<Arrival>, e: EventKey, driver: string)
    requires Good(t) && Ingestible(t, events) && !Covers(events, e)
    ensures EventPoints(IngestAll(t, events), e, driver) == EventPoints(t, e, driver)
  {
    if events != [] {
      hide Ingest, IngestAll, Good, Ingestible, EventPoints, ListedPoints;
      var n := |events| - 1;
      var last, before := events[n], IngestAll(t, events[..n]);
      assert last in events && forall x | x in events[..n] :: x in events;
      IngestAllLast(t, events);
      IngestPoints(before, last.a, last.at, e, driver);
      IngestAllOthers(t, events[..n], e, driver);
    }
  }

  lemma SamePoints(t: Tables, u: Tables)
    requires t.events.Keys == u.events.Keys && t.drivers.Keys == u.drivers.Keys
    requires forall k | k in t.drivers :: t.drivers[k].starting == u.drivers[k].starting
    requires forall e, driver :: EventPoints(t, e, driver) == EventPoints(u, e, driver)
    ensures SameStandings(t, u)
  {
    forall k | k in t.drivers ensures DriverPoints(t, k.0, k.1) == DriverPoints(u, k.0, k.1) {
      assert EventsOf(t, k.0) == EventsOf(u, k.0);
      SumEqual(EventsOf(t, k.0), (e: EventKey) => EventPoints(t, e, k.1), (e: EventKey) => EventPoints(u, e, k.1));
    }
  }

  /** What was ingested, whenever it was observed. */
  function Undated(events: seq<Arrival>): (r: seq<Ingestion>)
    ensures |r| == |events|
    ensures forall i | 0 <= i < |events| :: r[i] == events[i].a.(observedAt := None)
  {
    seq(|events|, i requires 0 <= i < |events| => events[i].a.(observedAt := None))
  }

  /** Everybody's points are the same whatever the order in which different events arrive, and
      whatever the times of the calls and of the observations. */
  lemma OrderIrrelevant(t: Tables, events: seq<Arrival>, others: seq<Arrival>)
    requires Good(t) && Ingestible(t, events) && Ingestible(t, others)
    requires multiset(Undated(events)) == multiset(Undated(others))
    ensures SameStandings(IngestAll(t, events), IngestAll(t, others))
  {
    hide IngestAll, Good, Ingestible, EventPoints, DriverPoints, Covers, Enters;
    var u, v := IngestAll(t, events), IngestAll(t, others);
    IngestAllSeen(t, events);
    IngestAllSeen(t, others);
    SameCoverage(events, others);
    assert u.events.Keys == v.events.Keys && u.drivers.Keys == v.drivers.Keys;
    forall e, driver ensures EventPoints(u, e, driver) == EventPoints(v, e, driver) {
      SameEventPoints(t, events, others, e, driver);
    }
    SamePoints(u, v);
  }

  lemma SameEventPoints(t: Tables, events: seq<Arrival>, others: seq<Arrival>, e: EventKey, driver: string)
    requires Good(t) && Ingestible(t, events) && Ingestible(t, others)
    requires multiset(Undated(events)) == multiset(Undated(others))
    ensures EventPoints(IngestAll(t, events), e, driver) == EventPoints(IngestAll(t, others), e, driver)
  {
    hide IngestAll, Good, Ingestible, EventPoints, ListedPoints, Enters;
    if Covers(events, e) {
      var x :| x in events && KeyOf(x.a) == e;
      var y := Counterpart(events, others, x);
      IngestAllPoints(t, events, x, driver);
      IngestAllPoints(t, others, y, driver);
    } else {
      SameCoverage(events, others);
      IngestAllOthers(t, events, e, driver);
      IngestAllOthers(t, others, e, driver);
    }
  }

  /** The other list's arrival of the same event. */
  lemma Counterpart(events: seq<Arrival>, others: seq<Arrival>, x: Arrival) returns (y: Arrival)
    requires multiset(Undated(events)) == multiset(Undated(others)) && x in events
    ensures y in others && y.a.(observedAt := None) == x.a.(observedAt := None)
  {
    var i :| 0 <= i < |events| && events[i] == x;
    var undated := Undated(others);
    assert Undated(events)[i] in multiset(undated);
    var j :| 0 <= j < |others| && undated[j] == x.a.(observedAt := None);
    y := others[j];
  }

  lemma SameCoverage(events: seq<Arrival>, others: seq<Arrival>)
    requires multiset(Undated(events)) == multiset(Undated(others))
    ensures forall e :: Covers(events, e) <==> Covers(others, e)
    ensures forall k :: Enters(events, k) <==> Enters(others, k)
  {
    CoverageWithin(events, others);
    CoverageWithin(others, events);
  }

  lemma CoverageWithin(events: seq<Arrival>, others: seq<Arrival>)
    requires multiset(Undated(events)) == multiset(Undated(others))
    ensures forall e | Covers(events, e) :: Covers(others, e)
    ensures forall k | Enters(events, k) :: Enters(others, k)
  {
    hide Lists;
    forall e | Covers(events, e) ensures Covers(others, e) {
      var x :| x in events && KeyOf(x.a) == e;
      var y := Counterpart(events, others, x);
    }
    forall k | Enters(events, k) ensures Enters(others, k) {
      var x :| x in events && x.a.career == k.0 && Lists(x.a.results, k.1);
      var y := Counterpart(events, others, x);
    }
  }

  /** A correction moves the points of its own driver in its own career by what it changed,
      and nobody else's. */
  lemma CorrectionMovesPoints(t: Tables, k: EventKey, driver: string, c: Changes, other: (int, string))
    requires Good(t) && k in t.events && Correct(t, t.events[k].id, driver, c).Ok? && other in t.drivers
    ensures var t' := Correct(t, t.events[k].id, driver, c).value;
            var r := (t.events[k].id, driver);
            DriverPoints(t', other.0, other.1) ==
            DriverPoints(t, other.0, other.1) +
            if other == (k.career, driver) then t'.results[r].points - t.results[r].points else 0
  {
    var t' := Correct(t, t.events[k].id, driver, c).value;
    var es := EventsOf(t, other.0);
    assert EventsOf(t', other.0) == es;
    if other == (k.career, driver) {
      SumDiffer(es, (e: EventKey) => EventPoints(t', e, driver), (e: EventKey) => EventPoints(t, e, driver), k);
    } else {
      forall e | e in es ensures EventPoints(t', e, other.1) == EventPoints(t, e, other.1) {
      }
      SumEqual(es, (e: EventKey) => EventPoints(t', e, other.1), (e: EventKey) => EventPoints(t, e, other.1));
    }
  }

  // ---------- Conservation ----------

  ghost function DriversOf(t: Tables, career: int): set<string> {
    set k | k in t.drivers && k.0 == career :: k.1
  }

  /** The stored results of a career's events. */
  ghost function ResultsOf(t: Tables, career: int): set<(int, string)> {
    set r | r in t.results && (exists k | k in EventsOf(t, career) :: t.events[k].id == r.0)
  }

  function PointsIn(t: Tables, r: (int, string)): int {
    if r in t.results then t.results[r].points else 0
  }

  function Starting(t: Tables, career: int, driver: string): int {
    if (career, driver) in t.drivers then t.drivers[(career, driver)].starting else 0
  }

  ghost function PointsOrZero(t: Tables, career: int, driver: string): int {
    if (career, driver) in t.drivers then DriverPoints(t, career, driver) else 0
  }

  /** What event k gives the driver, counting only the results in rs. */
  ghost function Share(t: Tables, rs: set<(int, string)>, k: EventKey, driver: string): int {
    if k in t.events && (t.events[k].id, driver) in rs then PointsIn(t, (t.events[k].id, driver)) else 0
  }

  ghost function Shares(t: Tables, rs: set<(int, string)>, career: int, driver: string): int {
    SumOver(EventsOf(t, career), (k: EventKey) => Share(t, rs, k, driver))
  }

  /** Summing drivers' shares of a set of results counts each result exactly once. */
  lemma {:induction false} SharesCountOnce(t: Tables, career: int, rs: set<(int, string)>)
    requires Good(t) && rs <= ResultsOf(t, career)
    ensures SumOver(DriversOf(t, career), (d: string) => Shares(t, rs, career, d))
            == SumOver(rs, (r: (int, string)) => PointsIn(t, r))
    decreases rs
  {
    var ds := DriversOf(t, career);
    if rs == {} {
      forall d | d in ds ensures Shares(t, rs, career, d) == 0 {
        SumZero(EventsOf(t, career), (k: EventKey) => Share(t, rs, k, d));
      }
      SumZero(ds, (d: string) => Shares(t, rs, career, d));
    } else {
      var r :| r in rs;
      SharesCountOnce(t, career, rs - {r});
      SumRemove(rs, (q: (int, string)) => PointsIn(t, q), r);
      SharesStep(t, career, rs, r);
    }
  }

  /** Taking one result out of the set takes its points out of its driver's shares. */
  lemma SharesStep(t: Tables, career: int, rs: set<(int, string)>, r: (int, string))
    requires Good(t) && rs <= ResultsOf(t, career) && r in rs
    ensures SumOver(DriversOf(t, career), (d: string) => Shares(t, rs, career, d))
            == SumOver(DriversOf(t, career), (d: string) => Shares(t, rs - {r}, career, d)) + PointsIn(t, r)
  {
    var es, ds, rest := EventsOf(t, career), DriversOf(t, career), rs - {r};
    var e :| e in es && t.events[e].id == r.0;
    assert r.1 in ds by {
      assert Owned(t, r);
      assert (career, r.1) in t.drivers;
    }
    forall d | d in ds && d != r.1 ensures Shares(t, rs, career, d) == Shares(t, rest, career, d) {
      SumEqual(es, (k: EventKey) => Share(t, rs, k, d), (k: EventKey) => Share(t, rest, k, d));
    }
    SumDiffer(es, (k: EventKey) => Share(t, rs, k, r.1), (k: EventKey) => Share(t, rest, k, r.1), e);
    SumDiffer(ds, (d: string) => Shares(t, rs, career, d), (d: string) => Shares(t, rest, career, d), r.1);
  }

  /** The drivers' points add up to their starting points plus the points of every stored
      result of the career: the join neither loses nor repeats one. */
  lemma StandingsConserve(t: Tables, career: int)
    requires Good(t)
    ensures SumOver(DriversOf(t, career), (d: string) => PointsOrZero(t, career, d))
            == SumOver(DriversOf(t, career), (d: string) => Starting(t, career, d))
               + SumOver(ResultsOf(t, career), (r: (int, string)) => PointsIn(t, r))
  {
    var ds, rs := DriversOf(t, career), ResultsOf(t, career);
    SharesCountOnce(t, career, rs);
    forall d | d in ds ensures PointsOrZero(t, career, d) == Starting(t, career, d) + Shares(t, rs, career, d) {
      forall k | k in EventsOf(t, career) ensures EventPoints(t, k, d) == Share(t, rs, k, d) {
      }
      SumEqual(EventsOf(t, career), (k: EventKey) => EventPoints(t, k, d), (k: EventKey) => Share(t, rs, k, d));
    }
    SumAdd(ds, (d: string) => Starting(t, career, d), (d: string) => Shares(t, rs, career, d),
           (d: string) => PointsOrZero(t, career, d));
  }
}
