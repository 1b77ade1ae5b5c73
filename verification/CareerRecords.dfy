/** What the career tables hold after one call, column by column. */
module CareerRecords {
  import opened Python
  import opened Championship
  import opened Career

  lemma {:induction false} InsertedRow(results: Results, id: int, rules: PointsRules, kind: string,
                                       rs: seq<CareerResult>, i: nat)
    requires InsertResults(results, id, rules, kind, rs).Ok? && i < |rs|
    ensures (id, rs[i].key) in InsertResults(results, id, rules, kind, rs).value
    ensures InsertResults(results, id, rules, kind, rs).value[(id, rs[i].key)] == RowOf(rules, kind, rs[i])
  {
    hide RowOf;
    if i < |rs| - 1 {
      InsertedRow(results, id, rules, kind, rs[..|rs| - 1], i);
    }
  }

  /** After an ingestion every listed result is stored as listed, not as a manual one; only a
      classified driver of a race or sprint gets points, by the career's rules. */
  lemma IngestStoresResult(t: Tables, a: Ingestion, now: Clock, i: nat)
    requires Ingest(t, a, now).Ok? && i < |a.results|
    ensures var (t', id) := Ingest(t, a, now).value;
            var r := a.results[i];
            && (id, r.key) in t'.results
            && var row := t'.results[(id, r.key)];
               && row.name == r.name && row.team == r.team && row.position == r.position && row.grid == r.grid
               && row.classified == r.classified && row.fastest == r.fastest && row.dnf == r.dnf
               && row.qualifyingGap == r.qualifyingGap && row.paceGap == r.paceGap && !row.manual
               && row.points == if !r.classified || (a.kind != "race" && a.kind != "sprint") then 0
                                else PointsFor(t.careers[a.career].rules, r.position, a.kind, r.fastest)
  {
    InsertedRow(WithoutEvent(t.results, IdOf(t, a)), IdOf(t, a), t.careers[a.career].rules, a.kind, a.results, i);
  }

  /** The event itself is stored as observed, under its own id or one never used before; the round
      of its career never falls; and no other event or career changes. */
  lemma IngestStoresEvent(t: Tables, a: Ingestion, now: Clock)
    requires Good(t) && Ingest(t, a, now).Ok?
    ensures var (t', id) := Ingest(t, a, now).value;
            var k := EventKey(a.career, a.uid, a.kind);
            && k in t'.events
            && (k in t.events ==> id == t.events[k].id && t'.lastId == t.lastId)
            && (k !in t.events ==> t'.lastId == id && forall l | l in t.events :: t.events[l].id < id)
            && var row := t'.events[k];
               && row.id == id && row.round == a.round && row.track == a.track && row.source == a.source
               && row.raw == a.results
               && row.observedAt == (match a.observedAt case Some(at) => at case None => now.observed)
    ensures var (t', id) := Ingest(t, a, now).value;
            && (forall l | l in t.events && l != EventKey(a.career, a.uid, a.kind) ::
                  l in t'.events && t'.events[l] == t.events[l])
            && (forall l | l in t'.events && l != EventKey(a.career, a.uid, a.kind) :: l in t.events)
    ensures var t' := Ingest(t, a, now).value.0;
            && t'.careers.Keys == t.careers.Keys && t'.bases == t.bases
            && (forall c | c in t.careers && c != a.career :: t'.careers[c] == t.careers[c])
            && var before, after := t.careers[a.career], t'.careers[a.career];
               && after.rules == before.rules && after.updatedAt == now.updated
               && before.currentRound <= after.currentRound && a.round <= after.currentRound
               && (after.currentRound == before.currentRound || after.currentRound == a.round)
  {
    hide InsertResults, UpsertDrivers, WithoutEvent, Owned;
  }

  /** What the listed drivers' rows become: the last listed name, the last known team, or the stored
      one when none is listed; a new driver starts from zero points. */
  lemma {:induction false} UpsertedDriver(drivers: Drivers, career: int, rs: seq<CareerResult>, i: nat)
    requires i < |rs| && DistinctKeys(rs)
    ensures var k, after := (career, rs[i].key), UpsertDrivers(drivers, career, rs);
            && k in after && after[k].name == rs[i].name
            && (rs[i].team.Some? ==> after[k].team == rs[i].team)
            && (rs[i].team.None? ==> after[k].team == if k in drivers then drivers[k].team else None)
            && after[k].starting == if k in drivers then drivers[k].starting else 0
  {
    var front, last := rs[..|rs| - 1], rs[|rs| - 1];
    DistinctSplit(rs);
    UpsertDriversMeaning(drivers, career, front);
    if i < |rs| - 1 {
      UpsertedDriver(drivers, career, front, i);
      assert Lists(front, rs[i].key) by {
        assert front[i].key == rs[i].key;
      }
    } else {
      UpsertOthers(drivers, career, front, (career, last.key));
    }
  }

  lemma {:induction false} UpsertOthers(drivers: Drivers, career: int, rs: seq<CareerResult>, k: (int, string))
    requires k.0 != career || !Lists(rs, k.1)
    ensures var after := UpsertDrivers(drivers, career, rs);
            (k in after <==> k in drivers) && (k in drivers ==> after[k] == drivers[k])
  {
    if rs != [] {
      ListsSplit(rs, k.1);
      UpsertOthers(drivers, career, rs[..|rs| - 1], k);
    }
  }

  /** After an ingestion each listed driver has the listed name and, if the list gives one, the
      listed team; starting points and all other drivers stay as they were. */
  lemma IngestStoresDriver(t: Tables, a: Ingestion, now: Clock, i: nat, other: (int, string))
    requires Ingest(t, a, now).Ok? && i < |a.results|
    ensures var k, after := (a.career, a.results[i].key), Ingest(t, a, now).value.0.drivers;
            && k in after && after[k].name == a.results[i].name
            && (a.results[i].team.Some? ==> after[k].team == a.results[i].team)
            && (a.results[i].team.None? ==> after[k].team == if k in t.drivers then t.drivers[k].team else None)
            && after[k].starting == if k in t.drivers then t.drivers[k].starting else 0
    ensures other.0 != a.career || (forall j | 0 <= j < |a.results| :: a.results[j].key != other.1) ==>
              var after := Ingest(t, a, now).value.0.drivers;
              (other in after <==> other in t.drivers) && (other in t.drivers ==> after[other] == t.drivers[other])
  {
    IngestSucceeds(t, a, now);
    UpsertedDriver(t.drivers, a.career, a.results, i);
    if other.0 != a.career || forall j | 0 <= j < |a.results| :: a.results[j].key != other.1 {
      UpsertOthers(t.drivers, a.career, a.results, other);
    }
  }

  /** A correction succeeds exactly when it names a column and the result exists. It sets the named
      columns of that result and marks it manual; every other column, result and table stays. */
  lemma CorrectStores(t: Tables, id: int, driver: string, c: Changes)
    ensures Correct(t, id, driver, c).Ok? <==>
            && (id, driver) in t.results
            && (c.name.Some? || c.team.Some? || c.position.Some? || c.grid.Some? || c.points.Some? || c.classified.Some?
                || c.fastest.Some? || c.dnf.Some? || c.qualifyingGap.Some? || c.paceGap.Some?)
    ensures Correct(t, id, driver, c).Ok? ==>
              var t', r := Correct(t, id, driver, c).value, t.results[(id, driver)];
              && t' == t.(results := t'.results) && t'.results.Keys == t.results.Keys
              && (forall k | k in t.results && k != (id, driver) :: t'.results[k] == t.results[k])
              && var row := t'.results[(id, driver)];
                 && row.manual
                 && row.name == (match c.name case Some(x) => x case None => r.name)
                 && row.team == (match c.team case Some(x) => x case None => r.team)
                 && row.position == (match c.position case Some(x) => x case None => r.position)
                 && row.grid == (match c.grid case Some(x) => x case None => r.grid)
                 && row.points == (match c.points case Some(x) => x case None => r.points)
                 && row.classified == (match c.classified case Some(x) => x case None => r.classified)
                 && row.fastest == (match c.fastest case Some(x) => x case None => r.fastest)
                 && row.dnf == (match c.dnf case Some(x) => x case None => r.dnf)
                 && row.qualifyingGap == (match c.qualifyingGap case Some(x) => x case None => r.qualifyingGap)
                 && row.paceGap == (match c.paceGap case Some(x) => x case None => r.paceGap)
  {
  }

  /** A new career starts before its first round, with the given rules; one that exists stays. */
  lemma CreateStores(t: Tables, id: int, rules: PointsRules, now: int)
    ensures var t' := CreateCareer(t, id, rules, now);
            && t' == t.(careers := t'.careers) && t'.careers.Keys == t.careers.Keys + {id}
            && (forall c | c in t.careers :: t'.careers[c] == t.careers[c])
            && (id !in t.careers ==> t'.careers[id] == CareerRow(rules, 0, now))
  {
  }

  lemma {:induction false} BaseIsLast(bases: map<(int, string), int>, career: int, rows: seq<(string, int)>, i: nat)
    requires i < |rows| && forall j | i < j < |rows| :: rows[j].0 != rows[i].0
    ensures var after, k := ImportBases(bases, career, rows), (career, rows[i].0); k in after && after[k] == rows[i].1
  {
    if i < |rows| - 1 {
      BaseIsLast(bases, career, rows[..|rows| - 1], i);
    }
  }

  lemma {:induction false} BaseOthers(bases: map<(int, string), int>, career: int, rows: seq<(string, int)>,
                                      k: (int, string))
    requires k.0 != career || forall i | 0 <= i < |rows| :: rows[i].0 != k.1
    ensures var after := ImportBases(bases, career, rows);
            (k in after <==> k in bases) && (k in bases ==> after[k] == bases[k])
  {
    if rows != [] {
      assert k != (career, rows[|rows| - 1].0);
      BaseOthers(bases, career, rows[..|rows| - 1], k);
    }
  }

  /** An import sets the career's round and the constructors' starting points, the last row of each
      counting; everything else, the drivers apart, stays. */
  lemma ImportStores(t: Tables, career: int, drivers: seq<DriverImport>, constructors: seq<(string, int)>,
                     round: int, now: int, i: nat, other: (int, string))
    ensures Import(t, career, drivers, constructors, round, now).Ok? <==> round >= 0 && career in t.careers
    ensures Import(t, career, drivers, constructors, round, now).Ok? ==>
              var t' := Import(t, career, drivers, constructors, round, now).value;
              && t'.events == t.events && t'.results == t.results && t'.lastId == t.lastId
              && t'.careers.Keys == t.careers.Keys
              && (forall c | c in t.careers && c != career :: t'.careers[c] == t.careers[c])
              && t'.careers[career] == CareerRow(t.careers[career].rules, round, now)
              && (i < |constructors|
                  && (forall j | i < j < |constructors| :: constructors[j].0 != constructors[i].0) ==>
                    var k := (career, constructors[i].0); k in t'.bases && t'.bases[k] == constructors[i].1)
              && (other.0 != career || (forall j | 0 <= j < |constructors| :: constructors[j].0 != other.1) ==>
                    && (other in t'.bases <==> other in t.bases)
                    && (other in t.bases ==> t'.bases[other] == t.bases[other]))
  {
    hide ImportDrivers, ImportBases;
    if i < |constructors| && forall j | i < j < |constructors| :: constructors[j].0 != constructors[i].0 {
      BaseIsLast(t.bases, career, constructors, i);
    }
    if other.0 != career || forall j | 0 <= j < |constructors| :: constructors[j].0 != other.1 {
      BaseOthers(t.bases, career, constructors, other);
    }
  }
}
