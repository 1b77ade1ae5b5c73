/** The career database: tables as maps keyed by their primary or unique keys, and the
    operations that fill them. */
module Career {
  import opened Python
  import opened Championship

  // ---------- Tables ----------

  datatype CareerRow = CareerRow(rules: PointsRules, currentRound: int, updatedAt: int)
  datatype DriverRow = DriverRow(name: string, team: Option<string>, starting: int)

  /** The unique key of an event; the kind is case-folded. */
  datatype EventKey = EventKey(career: int, uid: string, kind: string)
  datatype EventRow = EventRow(
    id: int, round: int, track: string, observedAt: int, source: string, raw: seq<CareerResult>)

  datatype CareerResult = CareerResult(
    key: string, name: string, position: int, team: Option<string>, grid: Option<int>,
    classified: bool, fastest: bool, dnf: bool, qualifyingGap: Option<real>, paceGap: Option<real>)

  datatype ResultRow = ResultRow(
    name: string, team: Option<string>, position: int, grid: Option<int>, points: int,
    classified: bool, fastest: bool, dnf: bool, qualifyingGap: Option<real>, paceGap: Option<real>, manual: bool)

  type Drivers = map<(int, string), DriverRow>
  type Results = map<(int, string), ResultRow> // keyed by event id and driver

  datatype Tables = Tables(
    careers: map<int, CareerRow>, drivers: Drivers, bases: map<(int, string), int>,
    events: map<EventKey, EventRow>, results: Results, lastId: int)

  function EmptyTables(): Tables {
    Tables(map[], map[], map[], map[], map[], 0)
  }

  function CreateCareer(t: Tables, id: int, rules: PointsRules, now: int): Tables {
    if id in t.careers then t else t.(careers := t.careers[id := CareerRow(rules, 0, now)])
  }

  // ---------- Importing standings ----------

  datatype DriverImport = DriverImport(key: string, name: string, team: Option<string>, points: int)

  function ImportDrivers(drivers: Drivers, career: int, rows: seq<DriverImport>): Drivers {
    if rows == [] then drivers
    else
      var d := rows[|rows| - 1];
      ImportDrivers(drivers, career, rows[..|rows| - 1])[(career, d.key) := DriverRow(d.name, d.team, d.points)]
  }

  function ImportBases(bases: map<(int, string), int>, career: int, rows: seq<(string, int)>): map<(int, string), int> {
    if rows == [] then bases
    else
      var row := rows[|rows| - 1];
      ImportBases(bases, career, rows[..|rows| - 1])[(career, row.0) := row.1]
  }

  function Import(t: Tables, career: int, drivers: seq<DriverImport>, constructors: seq<(string, int)>,
                  round: int, now: int): Result<Tables> {
    if round < 0 then Err(ValueError)
    else if career !in t.careers then Err(KeyError)
    else Ok(t.(drivers := ImportDrivers(t.drivers, career, drivers),
               bases := ImportBases(t.bases, career, constructors),
               careers := t.careers[career := t.careers[career].(currentRound := round, updatedAt := now)]))
  }

  // ---------- Ingesting an event ----------

  datatype Ingestion = Ingestion(
    career: int, uid: string, kind: string, round: int, track: string, source: string,
    observedAt: Option<int>, results: seq<CareerResult>)

  /** The two clock readings of one ingestion: the first stands in for a missing observation
      time, the second stamps the career. */
  datatype Clock = Clock(observed: int, updated: int)

  function KeyOf(a: Ingestion): EventKey {
    EventKey(a.career, a.uid, a.kind)
  }

  function ResultPoints(rules: PointsRules, kind: string, r: CareerResult): int {
    if r.classified && (kind == "race" || kind == "sprint") then PointsFor(rules, r.position, kind, r.fastest) else 0
  }

  /** Only the name and a known team replace what is stored; starting points stay. */
  function UpsertDriver(drivers: Drivers, career: int, r: CareerResult): Drivers {
    var k := (career, r.key);
    if k in drivers then
      drivers[k := DriverRow(r.name, if r.team.Some? then r.team else drivers[k].team, drivers[k].starting)]
    else drivers[k := DriverRow(r.name, r.team, 0)]
  }

  function UpsertDrivers(drivers: Drivers, career: int, rs: seq<CareerResult>): Drivers {
    if rs == [] then drivers
    else UpsertDriver(UpsertDrivers(drivers, career, rs[..|rs| - 1]), career, rs[|rs| - 1])
  }

  function RowOf(rules: PointsRules, kind: string, r: CareerResult): ResultRow {
    ResultRow(r.name, r.team, r.position, r.grid, ResultPoints(rules, kind, r), r.classified, r.fastest, r.dnf,
              r.qualifyingGap, r.paceGap, false)
  }

  /** Plain inserts: a driver listed twice violates the primary key. */
  function InsertResults(results: Results, id: int, rules: PointsRules, kind: string,
                         rs: seq<CareerResult>): (r: Result<Results>)
    ensures r.Err? ==> r.error == IntegrityError
  {
    if rs == [] then Ok(results)
    else
      var before :- InsertResults(results, id, rules, kind, rs[..|rs| - 1]);
      var last := rs[|rs| - 1];
      if (id, last.key) in before then Err(IntegrityError) else Ok(before[(id, last.key) := RowOf(rules, kind, last)])
  }

  function WithoutEvent(results: Results, id: int): Results {
    map k | k in results && k.0 != id :: results[k]
  }

  function MaxRound(x: int, y: int): int {
    if x < y then y else x
  }

  function Or<T>(o: Option<T>, x: T): T {
    if o.Some? then o.value else x
  }

  function RowOfEvent(a: Ingestion, id: int, now: Clock): EventRow {
    EventRow(id, a.round, a.track, Or(a.observedAt, now.observed), a.source, a.results)
  }

  /** The event's row is inserted or updated in place, its old results are deleted, and the
      new ones inserted; a failed insert rolls everything back. */
  function Ingest(t: Tables, a: Ingestion, now: Clock): Result<(Tables, int)> {
    if a.career !in t.careers then Err(KeyError)
    else
      var career, k := t.careers[a.career], KeyOf(a);
      var id := if k in t.events then t.events[k].id else t.lastId + 1;
      var results :- InsertResults(WithoutEvent(t.results, id), id, career.rules, a.kind, a.results);
      Ok((t.(events := t.events[k := RowOfEvent(a, id, now)],
             lastId := if k in t.events then t.lastId else id,
             drivers := UpsertDrivers(t.drivers, a.career, a.results),
             results := results,
             careers := t.careers[a.career := career.(currentRound := MaxRound(career.currentRound, a.round),
                                                      updatedAt := now.updated)]),
          id))
  }

  // ---------- Correcting a result ----------

  datatype Changes = Changes(
    name: Option<string>, team: Option<Option<string>>, position: Option<int>, grid: Option<Option<int>>,
    points: Option<int>, classified: Option<bool>, fastest: Option<bool>, dnf: Option<bool>,
    qualifyingGap: Option<Option<real>>, paceGap: Option<Option<real>>)

  predicate NoChange(c: Changes) {
    && c.name.None? && c.team.None? && c.position.None? && c.grid.None? && c.points.None?
    && c.classified.None? && c.fastest.None? && c.dnf.None? && c.qualifyingGap.None? && c.paceGap.None?
  }

  function Corrected(r: ResultRow, c: Changes): ResultRow {
    ResultRow(Or(c.name, r.name), Or(c.team, r.team), Or(c.position, r.position), Or(c.grid, r.grid),
              Or(c.points, r.points), Or(c.classified, r.classified), Or(c.fastest, r.fastest), Or(c.dnf, r.dnf),
              Or(c.qualifyingGap, r.qualifyingGap), Or(c.paceGap, r.paceGap), true)
  }

  function Correct(t: Tables, id: int, driver: string, c: Changes): Result<Tables> {
    if NoChange(c) then Err(ValueError)
    else if (id, driver) !in t.results then Err(KeyError)
    else Ok(t.(results := t.results[(id, driver) := Corrected(t.results[(id, driver)], c)]))
  }

  // ---------- Referential integrity ----------

  /** Event ids are distinct and already issued, every event belongs to a known career, and
      every stored result belongs to an event whose career has that driver. */
  ghost predicate Good(t: Tables) {
    && (forall k | k in t.events :: t.events[k].id <= t.lastId && k.career in t.careers)
    && (forall k, l | k in t.events && l in t.events && t.events[k].id == t.events[l].id :: k == l)
    && (forall r | r in t.results :: Owned(t, r))
  }

  ghost predicate Owned(t: Tables, r: (int, string)) {
    exists k | k in t.events :: t.events[k].id == r.0 && (k.career, r.1) in t.drivers
  }

  predicate DistinctKeys(rs: seq<CareerResult>) {
    forall i, j | 0 <= i < j < |rs| :: rs[i].key != rs[j].key
  }

  predicate Lists(rs: seq<CareerResult>, driver: string) {
    exists i | 0 <= i < |rs| :: rs[i].key == driver
  }

  lemma ListsSplit(rs: seq<CareerResult>, driver: string)
    requires rs != []
    ensures Lists(rs, driver) <==> Lists(rs[..|rs| - 1], driver) || rs[|rs| - 1].key == driver
  {
    if Lists(rs, driver) {
      var i :| 0 <= i < |rs| && rs[i].key == driver;
      assert i < |rs| - 1 ==> rs[..|rs| - 1][i].key == driver;
    }
    if Lists(rs[..|rs| - 1], driver) {
      var i :| 0 <= i < |rs| - 1 && rs[..|rs| - 1][i].key == driver;
      assert rs[i].key == driver;
    }
  }

  /** The points the listed entries give a driver, none if the driver is not listed. */
  function ListedPoints(rules: PointsRules, kind: string, rs: seq<CareerResult>, driver: string): int {
    if rs == [] then 0
    else if rs[|rs| - 1].key == driver then ResultPoints(rules, kind, rs[|rs| - 1])
    else ListedPoints(rules, kind, rs[..|rs| - 1], driver)
  }

  lemma {:induction false} InsertMembers(results: Results, id: int, rules: PointsRules, kind: string,
                                         rs: seq<CareerResult>, k: (int, string))
    requires InsertResults(results, id, rules, kind, rs).Ok?
    ensures var r := InsertResults(results, id, rules, kind, rs).value;
            && (k in r <==> k in results || (k.0 == id && Lists(rs, k.1)))
            && (k in results ==> r[k] == results[k])
  {
    if rs != [] {
      InsertMembers(results, id, rules, kind, rs[..|rs| - 1], k);
      ListsSplit(rs, k.1);
    }
  }

  lemma DistinctSplit(rs: seq<CareerResult>)
    requires rs != []
    ensures DistinctKeys(rs) <==> DistinctKeys(rs[..|rs| - 1]) && !Lists(rs[..|rs| - 1], rs[|rs| - 1].key)
  {
    var before, last := rs[..|rs| - 1], rs[|rs| - 1];
    if Lists(before, last.key) {
      var i :| 0 <= i < |before| && before[i].key == last.key;
      assert rs[i].key == rs[|rs| - 1].key;
    }
    if DistinctKeys(before) && !Lists(before, last.key) {
      forall i, j | 0 <= i < j < |rs| ensures rs[i].key != rs[j].key {
        assert rs[i] == before[i];
      }
    }
  }

  /** Inserting succeeds exactly when no driver is listed twice. */
  lemma {:induction false} InsertSucceeds(results: Results, id: int, rules: PointsRules, kind: string,
                                          rs: seq<CareerResult>)
    requires forall d: string :: (id, d) !in results
    ensures InsertResults(results, id, rules, kind, rs).Ok? <==> DistinctKeys(rs)
  {
    if rs != [] {
      var before, last := rs[..|rs| - 1], rs[|rs| - 1];
      InsertSucceeds(results, id, rules, kind, before);
      DistinctSplit(rs);
      if InsertResults(results, id, rules, kind, before).Ok? {
        InsertMembers(results, id, rules, kind, before, (id, last.key));
      }
    }
  }

  lemma {:induction false} InsertPoints(results: Results, id: int, rules: PointsRules, kind: string,
                                        rs: seq<CareerResult>, driver: string)
    requires (id, driver) !in results && InsertResults(results, id, rules, kind, rs).Ok?
    ensures var r := InsertResults(results, id, rules, kind, rs).value;
            ListedPoints(rules, kind, rs, driver) == if (id, driver) in r then r[(id, driver)].points else 0
  {
    if rs != [] {
      InsertPoints(results, id, rules, kind, rs[..|rs| - 1], driver);
    }
  }

  lemma {:induction false} UpsertDriversMeaning(drivers: Drivers, career: int, rs: seq<CareerResult>)
    ensures var r := UpsertDrivers(drivers, career, rs);
            && (forall k: (int, string) :: k in r <==> k in drivers || (k.0 == career && Lists(rs, k.1)))
            && (forall k | k in r :: r[k].starting == if k in drivers then drivers[k].starting else 0)
  {
    if rs != [] {
      UpsertDriversMeaning(drivers, career, rs[..|rs| - 1]);
      forall d: string ensures Lists(rs, d) <==> Lists(rs[..|rs| - 1], d) || rs[|rs| - 1].key == d {
        ListsSplit(rs, d);
      }
    }
  }

  lemma NoResultsLeft(results: Results, id: int)
    ensures forall d: string :: (id, d) !in WithoutEvent(results, id)
  {
  }

  function IdOf(t: Tables, a: Ingestion): int {
    if KeyOf(a) in t.events then t.events[KeyOf(a)].id else t.lastId + 1
  }

  /** Ingestion fails only for an unknown career or a driver listed twice. */
  lemma IngestSucceeds(t: Tables, a: Ingestion, now: Clock)
    ensures Ingest(t, a, now).Ok? <==> a.career in t.careers && DistinctKeys(a.results)
  {
    if a.career in t.careers {
      NoResultsLeft(t.results, IdOf(t, a));
      InsertSucceeds(WithoutEvent(t.results, IdOf(t, a)), IdOf(t, a), t.careers[a.career].rules, a.kind, a.results);
    }
  }

  /** Which results are stored after an ingestion. */
  lemma IngestMembers(t: Tables, a: Ingestion, now: Clock, r: (int, string))
    requires Ingest(t, a, now).Ok?
    ensures var (t', id) := Ingest(t, a, now).value;
            && id == IdOf(t, a)
            && (r in t'.results <==> if r.0 == id then Lists(a.results, r.1) else r in t.results)
            && (r.0 != id && r in t.results ==> t'.results[r] == t.results[r])
  {
    NoResultsLeft(t.results, IdOf(t, a));
    InsertMembers(WithoutEvent(t.results, IdOf(t, a)), IdOf(t, a), t.careers[a.career].rules, a.kind, a.results, r);
  }

  lemma IngestKeepsGood(t: Tables, a: Ingestion, now: Clock)
    requires Good(t) && Ingest(t, a, now).Ok?
    ensures Good(Ingest(t, a, now).value.0)
  {
    var (t', id) := Ingest(t, a, now).value;
    forall r | r in t'.results ensures Owned(t', r) {
      IngestMembers(t, a, now, r);
      if r.0 == id {
        UpsertDriversMeaning(t.drivers, a.career, a.results);
        assert t'.events[KeyOf(a)].id == r.0 && (a.career, r.1) in t'.drivers;
      } else {
        IngestKeepsOwned(t, a, now, r);
      }
    }
  }

  lemma IngestKeepsOwned(t: Tables, a: Ingestion, now: Clock, r: (int, string))
    requires Good(t) && Ingest(t, a, now).Ok? && r in t.results && r.0 != IdOf(t, a)
    ensures Owned(Ingest(t, a, now).value.0, r)
  {
    var t' := Ingest(t, a, now).value.0;
    assert Owned(t, r);
    var k :| k in t.events && t.events[k].id == r.0 && (k.career, r.1) in t.drivers;
    UpsertDriversMeaning(t.drivers, a.career, a.results);
    assert k in t'.events && t'.events[k].id == r.0 && (k.career, r.1) in t'.drivers;
  }

  lemma {:induction false} ImportDriversMeaning(drivers: Drivers, career: int, rows: seq<DriverImport>)
    ensures drivers.Keys <= ImportDrivers(drivers, career, rows).Keys
  {
    if rows != [] {
      ImportDriversMeaning(drivers, career, rows[..|rows| - 1]);
    }
  }

  /** A driver imported more than once is stored as the last row says. */
  lemma {:induction false} ImportIsLast(drivers: Drivers, career: int, rows: seq<DriverImport>, i: nat)
    requires i < |rows| && forall j | i < j < |rows| :: rows[j].key != rows[i].key
    ensures var r, k := ImportDrivers(drivers, career, rows), (career, rows[i].key);
            k in r && r[k] == DriverRow(rows[i].name, rows[i].team, rows[i].points)
  {
    if i < |rows| - 1 {
      ImportIsLast(drivers, career, rows[..|rows| - 1], i);
    }
  }

  /** Drivers that are not imported, and other careers' drivers, stay as they are. */
  lemma {:induction false} ImportOthers(drivers: Drivers, career: int, rows: seq<DriverImport>, k: (int, string))
    requires k.0 != career || forall i | 0 <= i < |rows| :: rows[i].key != k.1
    ensures var r := ImportDrivers(drivers, career, rows);
            (k in r <==> k in drivers) && (k in drivers ==> r[k] == drivers[k])
  {
    if rows != [] {
      assert k != (career, rows[|rows| - 1].key);
      ImportOthers(drivers, career, rows[..|rows| - 1], k);
    }
  }

  lemma ImportKeepsGood(t: Tables, career: int, drivers: seq<DriverImport>, constructors: seq<(string, int)>,
                        round: int, now: int)
    requires Good(t) && Import(t, career, drivers, constructors, round, now).Ok?
    ensures Good(Import(t, career, drivers, constructors, round, now).value)
  {
    var t' := Import(t, career, drivers, constructors, round, now).value;
    ImportDriversMeaning(t.drivers, career, drivers);
    forall r | r in t'.results ensures Owned(t', r) {
      assert Owned(t, r);
      var k :| k in t.events && t.events[k].id == r.0 && (k.career, r.1) in t.drivers;
      assert k in t'.events && (k.career, r.1) in t'.drivers;
    }
  }

  lemma CorrectKeepsGood(t: Tables, id: int, driver: string, c: Changes)
    requires Good(t) && Correct(t, id, driver, c).Ok?
    ensures Good(Correct(t, id, driver, c).value)
  {
    var t' := Correct(t, id, driver, c).value;
    forall r | r in t'.results ensures Owned(t', r) {
      assert Owned(t, r);
      var k :| k in t.events && t.events[k].id == r.0 && (k.career, r.1) in t.drivers;
      assert k in t'.events;
    }
  }

  // ---------- Whole runs ----------

  datatype Call =
    | CreateCall(id: int, rules: PointsRules, now: int)
    | ImportCall(career: int, drivers: seq<DriverImport>, constructors: seq<(string, int)>, round: int, now: int)
    | IngestCall(a: Ingestion, at: Clock)
    | CorrectCall(id: int, driver: string, changes: Changes)

  /** A failing call changes nothing. */
  function Step(t: Tables, c: Call): Tables {
    match c
    case CreateCall(id, rules, now) => CreateCareer(t, id, rules, now)
    case ImportCall(career, drivers, constructors, round, now) =>
      (match Import(t, career, drivers, constructors, round, now) case Ok(u) => u case Err(_) => t)
    case IngestCall(a, at) => (match Ingest(t, a, at) case Ok((u, _)) => u case Err(_) => t)
    case CorrectCall(id, driver, changes) => (match Correct(t, id, driver, changes) case Ok(u) => u case Err(_) => t)
  }

  function Run(calls: seq<Call>): Tables {
    if calls == [] then EmptyTables() else Step(Run(calls[..|calls| - 1]), calls[|calls| - 1])
  }

  lemma CreateKeepsGood(t: Tables, id: int, rules: PointsRules, now: int)
    requires Good(t)
    ensures Good(CreateCareer(t, id, rules, now))
  {
    forall r | r in t.results ensures Owned(CreateCareer(t, id, rules, now), r) {
      assert Owned(t, r);
    }
  }

  lemma StepKeepsGood(t: Tables, c: Call)
    requires Good(t)
    ensures Good(Step(t, c))
  {
    hide Good, Import, Ingest, Correct, CreateCareer;
    match c {
      case CreateCall(id, rules, now) =>
        CreateKeepsGood(t, id, rules, now);
      case ImportCall(career, drivers, constructors, round, now) =>
        if Import(t, career, drivers, constructors, round, now).Ok? {
          ImportKeepsGood(t, career, drivers, constructors, round, now);
        }
      case IngestCall(a, at) =>
        if Ingest(t, a, at).Ok? {
          IngestKeepsGood(t, a, at);
        }
      case CorrectCall(id, driver, changes) =>
        if Correct(t, id, driver, changes).Ok? {
          CorrectKeepsGood(t, id, driver, changes);
        }
    }
  }

  /** Referential integrity holds in every reachable database. */
  lemma {:induction false} RunGood(calls: seq<Call>)
    ensures Good(Run(calls))
  {
    if calls != [] {
      RunGood(calls[..|calls| - 1]);
      StepKeepsGood(Run(calls[..|calls| - 1]), calls[|calls| - 1]);
    }
  }

  // ---------- The object ----------

  class CareerDatabase {
    var careers: map<int, CareerRow>
    var drivers: Drivers
    var bases: map<(int, string), int>
    var events: map<EventKey, EventRow>
    var results: Results
    var lastId: int

    function Contents(): Tables
      reads this
    {
      Tables(careers, drivers, bases, events, results, lastId)
    }

    ghost predicate Valid()
      reads this
    {
      Good(Contents())
    }

    constructor ()
      ensures Valid() && Contents() == EmptyTables()
    {
      careers, drivers, bases, events, results, lastId := map[], map[], map[], map[], map[], 0;
    }

    method ImportStandings(career: int, rows: seq<DriverImport>, constructors: seq<(string, int)>, round: int, now: int)
      returns (r: Result<()>)
      requires Valid()
      modifies this
      ensures Valid()
      ensures match Import(old(Contents()), career, rows, constructors, round, now)
              case Err(e) => r == Err(e) && Contents() == old(Contents())
              case Ok(t) => r == Ok(()) && Contents() == t
    {
      hide Good, ImportDrivers, ImportBases;
      if round < 0 {
        return Err(ValueError);
      }
      if career !in careers {
        return Err(KeyError);
      }
      ImportKeepsGood(Contents(), career, rows, constructors, round, now);
      drivers := ImportRows(drivers, career, rows);
      bases := ImportConstructors(bases, career, constructors);
      careers := careers[career := careers[career].(currentRound := round, updatedAt := now)];
      return Ok(());
    }

    static method ImportRows(before: Drivers, career: int, rows: seq<DriverImport>) returns (drivers: Drivers)
      ensures drivers == ImportDrivers(before, career, rows)
    {
      drivers := before;
      for i := 0 to |rows|
        invariant drivers == ImportDrivers(before, career, rows[..i])
      {
        assert rows[..i + 1][..i] == rows[..i];
        drivers := drivers[(career, rows[i].key) := DriverRow(rows[i].name, rows[i].team, rows[i].points)];
      }
      assert rows[..|rows|] == rows;
    }

    static method ImportConstructors(before: map<(int, string), int>, career: int, rows: seq<(string, int)>)
      returns (bases: map<(int, string), int>)
      ensures bases == ImportBases(before, career, rows)
    {
      bases := before;
      for i := 0 to |rows|
        invariant bases == ImportBases(before, career, rows[..i])
      {
        assert rows[..i + 1][..i] == rows[..i];
        bases := bases[(career, rows[i].0) := rows[i].1];
      }
      assert rows[..|rows|] == rows;
    }

    /** One transaction: on an integrity error the tables are left as they were. */
    method IngestEvent(a: Ingestion, now: Clock) returns (r: Result<int>)
      requires Valid()
      modifies this
      ensures Valid()
      ensures match Ingest(old(Contents()), a, now)
              case Err(e) => r == Err(e) && Contents() == old(Contents())
              case Ok((t, id)) => r == Ok(id) && Contents() == t
    {
      hide Good, InsertResults, UpsertDrivers, WithoutEvent;
      if a.career !in careers {
        return Err(KeyError);
      }
      var k, career := KeyOf(a), careers[a.career];
      var id := if k in events then events[k].id else lastId + 1;
      var rows, upserted := StoreResults(WithoutEvent(results, id), drivers, id, career.rules, a);
      if rows.Err? {
        return Err(IntegrityError);
      }
      IngestKeepsGood(Contents(), a, now);
      CommitEvent(k, RowOfEvent(a, id, now), upserted, rows.value);
      careers := careers[a.career := career.(currentRound := MaxRound(career.currentRound, a.round),
                                             updatedAt := now.updated)];
      return Ok(id);
    }

    method CommitEvent(k: EventKey, row: EventRow, upserted: Drivers, rows: Results)
      modifies this
      ensures Contents() == old(Contents()).(events := old(events)[k := row], drivers := upserted, results := rows,
                                             lastId := if k in old(events) then old(lastId) else row.id)
    {
      lastId := if k in events then lastId else row.id;
      events := events[k := row];
      drivers, results := upserted, rows;
    }

    /** The loop over the results: upsert the driver, insert the row. */
    static method StoreResults(before: Results, drivers: Drivers, id: int, rules: PointsRules, a: Ingestion)
      returns (r: Result<Results>, upserted: Drivers)
      ensures r == InsertResults(before, id, rules, a.kind, a.results)
      ensures r.Ok? ==> upserted == UpsertDrivers(drivers, a.career, a.results)
    {
      hide InsertResults, UpsertDrivers, UpsertDriver, RowOf;
      var rows := before;
      upserted := drivers;
      NothingStored(before, drivers, id, rules, a);
      for i := 0 to |a.results|
        invariant InsertResults(before, id, rules, a.kind, a.results[..i]) == Ok(rows)
        invariant upserted == UpsertDrivers(drivers, a.career, a.results[..i])
      {
        var result := a.results[i];
        StoreNext(before, drivers, id, rules, a, i);
        upserted := UpsertDriver(upserted, a.career, result);
        if (id, result.key) in rows {
          InsertPrefix(before, id, rules, a.kind, a.results, i + 1);
          return Err(IntegrityError), upserted;
        }
        rows := rows[(id, result.key) := RowOf(rules, a.kind, result)];
      }
      assert a.results[..|a.results|] == a.results;
      r := Ok(rows);
    }

    method CorrectResult(id: int, driver: string, c: Changes) returns (r: Result<()>)
      requires Valid()
      modifies this
      ensures Valid()
      ensures match Correct(old(Contents()), id, driver, c)
              case Err(e) => r == Err(e) && Contents() == old(Contents())
              case Ok(t) => r == Ok(()) && Contents() == t
    {
      if NoChange(c) {
        return Err(ValueError);
      }
      if (id, driver) !in results {
        return Err(KeyError);
      }
      CorrectKeepsGood(Contents(), id, driver, c);
      results := results[(id, driver) := Corrected(results[(id, driver)], c)];
      return Ok(());
    }
  }

  lemma NothingStored(before: Results, drivers: Drivers, id: int, rules: PointsRules, a: Ingestion)
    ensures InsertResults(before, id, rules, a.kind, a.results[..0]) == Ok(before)
    ensures UpsertDrivers(drivers, a.career, a.results[..0]) == drivers
  {
  }

  lemma StoreNext(before: Results, drivers: Drivers, id: int, rules: PointsRules, a: Ingestion, i: nat)
    requires i < |a.results| && InsertResults(before, id, rules, a.kind, a.results[..i]).Ok?
    ensures var rows, result := InsertResults(before, id, rules, a.kind, a.results[..i]).value, a.results[i];
            InsertResults(before, id, rules, a.kind, a.results[..i + 1])
            == if (id, result.key) in rows then Err(IntegrityError)
               else Ok(rows[(id, result.key) := RowOf(rules, a.kind, result)])
    ensures UpsertDrivers(drivers, a.career, a.results[..i + 1])
            == UpsertDriver(UpsertDrivers(drivers, a.career, a.results[..i]), a.career, a.results[i])
  {
    hide UpsertDriver, RowOf;
    assert a.results[..i + 1][..i] == a.results[..i];
  }

  lemma {:induction false} InsertPrefix(results: Results, id: int, rules: PointsRules, kind: string,
                                        rs: seq<CareerResult>, i: nat)
    requires i <= |rs| && InsertResults(results, id, rules, kind, rs[..i]).Err?
    ensures InsertResults(results, id, rules, kind, rs).Err?
    decreases |rs|
  {
    if i < |rs| {
      assert rs[..|rs| - 1][..i] == rs[..i];
      InsertPrefix(results, id, rules, kind, rs[..|rs| - 1], i);
    } else {
      assert rs[..i] == rs;
    }
  }
}
