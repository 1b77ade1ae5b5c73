/** Projecting driver standings as if the race ended now. Dictionaries are
    kept as insertion-ordered lists with distinct keys. */
module Championship {
  import opened Python
  import opened Sorting

  // ---------- Points ----------

  datatype PointsRules = PointsRules(race: seq<int>, sprint: seq<int>, bonus: int, bonusTop: int)

  /** `kind` is the case-folded session type. */
  function PointsFor(rules: PointsRules, position: int, kind: string, fastest: bool): int {
    var table := if kind == "sprint" then rules.sprint else rules.race;
    var base := if 1 <= position <= |table| then table[position - 1] else 0;
    base + if fastest && position <= rules.bonusTop then rules.bonus else 0
  }

  /** A position in the table earns what the table says and any other nothing; the fastest lap adds
      the bonus exactly down to the bonus position. */
  lemma PointsForMeaning(rules: PointsRules, position: int, kind: string)
    ensures var table := if kind == "sprint" then rules.sprint else rules.race;
            && (1 <= position <= |table| ==> PointsFor(rules, position, kind, false) == table[position - 1])
            && (position < 1 || |table| < position ==> PointsFor(rules, position, kind, false) == 0)
            && (position <= rules.bonusTop ==>
                  PointsFor(rules, position, kind, true) == PointsFor(rules, position, kind, false) + rules.bonus)
            && (position > rules.bonusTop ==>
                  PointsFor(rules, position, kind, true) == PointsFor(rules, position, kind, false))
  {
  }

  /** With a table that never rises and never goes below zero, a better position never earns less. */
  lemma BetterPositionEarnsMore(rules: PointsRules, kind: string, p: int, q: int)
    requires var table := if kind == "sprint" then rules.sprint else rules.race;
             && (forall i, j | 0 <= i <= j < |table| :: table[i] >= table[j] >= 0)
    requires 1 <= p <= q
    ensures PointsFor(rules, p, kind, false) >= PointsFor(rules, q, kind, false)
  {
    var table := if kind == "sprint" then rules.sprint else rules.race;
    assert p <= |table| ==> table[p - 1] >= 0;
  }

  datatype ClassificationEntry = ClassificationEntry(
    id: string, name: string, position: int, team: Option<string>, classified: bool, fastest: bool)

  datatype Standing = Standing(id: string, name: string, points: int, delta: int, rank: int, team: Option<string>)

  function EntryPoints(rules: PointsRules, kind: string, e: ClassificationEntry): int {
    if e.classified then PointsFor(rules, e.position, kind, e.fastest) else 0
  }

  // ---------- The driver table ----------

  predicate Distinct(table: seq<Standing>) {
    forall i, j | 0 <= i < j < |table| :: table[i].id != table[j].id
  }

  predicate Has(table: seq<Standing>, id: string) {
    exists i | 0 <= i < |table| :: table[i].id == id
  }

  /** table[item.id] = item */
  function Put(table: seq<Standing>, item: Standing): (r: seq<Standing>)
    ensures Has(r, item.id)
    ensures forall id :: Has(r, id) <==> Has(table, id) || id == item.id
  {
    if table == [] then
      assert [item][0].id == item.id;
      [item]
    else if table[0].id == item.id then
      assert forall id :: Has([item] + table[1..], id) <==> Has(table, id) by {
        HasSplit(table);
        HasSplit([item] + table[1..]);
      }
      [item] + table[1..]
    else
      var rest := Put(table[1..], item);
      assert forall id :: Has([table[0]] + rest, id) <==> Has(table, id) || id == item.id by {
        HasSplit(table);
        HasSplit([table[0]] + rest);
      }
      [table[0]] + rest
  }

  lemma HasSplit(table: seq<Standing>)
    requires table != []
    ensures forall id :: Has(table, id) <==> table[0].id == id || Has(table[1..], id)
  {
    forall id ensures Has(table, id) <==> table[0].id == id || Has(table[1..], id) {
      if Has(table, id) {
        var i :| 0 <= i < |table| && table[i].id == id;
        assert i > 0 ==> table[1..][i - 1].id == id;
      }
      if Has(table[1..], id) {
        var i :| 0 <= i < |table[1..]| && table[1..][i].id == id;
        assert table[i + 1].id == id;
      }
    }
  }

  function TableOf(existing: seq<Standing>): seq<Standing> {
    if existing == [] then [] else Put(TableOf(existing[..|existing| - 1]), existing[|existing| - 1])
  }

  /** A classified driver not yet in the table starts from zero points. */
  function WithEntry(table: seq<Standing>, e: ClassificationEntry): seq<Standing> {
    if e.classified && !Has(table, e.id) then table + [Standing(e.id, e.name, 0, 0, 0, e.team)] else table
  }

  function WithEntries(table: seq<Standing>, entries: seq<ClassificationEntry>): seq<Standing> {
    if entries == [] then table else WithEntry(WithEntries(table, entries[..|entries| - 1]), entries[|entries| - 1])
  }

  /** What each driver earned: the points of the driver's last entry. */
  function Earned(rules: PointsRules, kind: string, entries: seq<ClassificationEntry>): map<string, int> {
    if entries == [] then map[]
    else
      var e := entries[|entries| - 1];
      Earned(rules, kind, entries[..|entries| - 1])[e.id := EntryPoints(rules, kind, e)]
  }

  function Gain(earned: map<string, int>, id: string): int {
    if id in earned then earned[id] else 0
  }

  function Projected(table: seq<Standing>, earned: map<string, int>): (r: seq<Standing>)
    ensures |r| == |table|
    ensures forall i | 0 <= i < |table| ::
              r[i] == Standing(table[i].id, table[i].name, table[i].points + Gain(earned, table[i].id),
                               Gain(earned, table[i].id), 0, table[i].team)
  {
    seq(|table|, i requires 0 <= i < |table| =>
      Standing(table[i].id, table[i].name, table[i].points + Gain(earned, table[i].id),
               Gain(earned, table[i].id), 0, table[i].team))
  }

  // ---------- Ranking ----------

  /** Most points first, then by case-folded name, then by id. */
  predicate StandingLe(fold: string -> string, a: Standing, b: Standing) {
    a.points > b.points ||
    (a.points == b.points &&
     ((fold(a.name) != fold(b.name) && StringLe(fold(a.name), fold(b.name))) ||
      (fold(a.name) == fold(b.name) && StringLe(a.id, b.id))))
  }

  function ByRank(fold: string -> string): (Standing, Standing) -> bool {
    (a, b) => StandingLe(fold, a, b)
  }

  function Ranked(sorted: seq<Standing>): (r: seq<Standing>)
    ensures |r| == |sorted|
    ensures forall i | 0 <= i < |sorted| :: r[i] == sorted[i].(rank := i + 1)
  {
    seq(|sorted|, i requires 0 <= i < |sorted| => sorted[i].(rank := i + 1))
  }

  function Projection(fold: string -> string, rules: PointsRules, kind: string,
                      existing: seq<Standing>, entries: seq<ClassificationEntry>): seq<Standing> {
    Ranked(Sort(ByRank(fold), Projected(WithEntries(TableOf(existing), entries), Earned(rules, kind, entries))))
  }

  lemma ByRankTotal(fold: string -> string)
    ensures TotalPreorder(ByRank(fold))
  {
    forall a: Standing, b: Standing ensures StandingLe(fold, a, b) || StandingLe(fold, b, a) {
      StringLeTotal(fold(a.name), fold(b.name));
      StringLeTotal(a.id, b.id);
    }
    forall a: Standing, b: Standing, c: Standing | StandingLe(fold, a, b) && StandingLe(fold, b, c)
      ensures StandingLe(fold, a, c)
    {
      ByRankTransitive(fold, a, b, c);
    }
  }

  lemma ByRankTransitive(fold: string -> string, a: Standing, b: Standing, c: Standing)
    requires StandingLe(fold, a, b) && StandingLe(fold, b, c)
    ensures StandingLe(fold, a, c)
  {
    var x, y, z := fold(a.name), fold(b.name), fold(c.name);
    if a.points == b.points == c.points {
      if x == y && y == z {
        StringLeTransitive(a.id, b.id, c.id);
      } else if x != y && y != z {
        StringLeTransitive(x, y, z);
        StringLeTotal(x, y);
      }
    }
  }

  // ---------- Totals ----------

  function TotalPoints(table: seq<Standing>): int {
    if table == [] then 0 else table[0].points + TotalPoints(table[1..])
  }

  function TotalGain(table: seq<Standing>, earned: map<string, int>): int {
    if table == [] then 0 else Gain(earned, table[0].id) + TotalGain(table[1..], earned)
  }

  function ClassifiedPoints(rules: PointsRules, kind: string, entries: seq<ClassificationEntry>): int {
    if entries == [] then 0
    else ClassifiedPoints(rules, kind, entries[..|entries| - 1]) + EntryPoints(rules, kind, entries[|entries| - 1])
  }

  predicate DistinctEntries(entries: seq<ClassificationEntry>) {
    forall i, j | 0 <= i < j < |entries| :: entries[i].id != entries[j].id
  }

  lemma {:induction false} TotalsAppend(table: seq<Standing>, earned: map<string, int>, item: Standing)
    ensures TotalPoints(table + [item]) == TotalPoints(table) + item.points
    ensures TotalGain(table + [item], earned) == TotalGain(table, earned) + Gain(earned, item.id)
  {
    if table == [] {
      assert table + [item] == [item];
    } else {
      assert (table + [item])[1..] == table[1..] + [item];
      TotalsAppend(table[1..], earned, item);
    }
  }

  lemma {:induction false} InsertTotal(le: (Standing, Standing) -> bool, x: Standing, s: seq<Standing>)
    ensures TotalPoints(Insert(le, x, s)) == x.points + TotalPoints(s)
  {
    if s != [] && !le(x, s[0]) {
      InsertTotal(le, x, s[1..]);
    }
  }

  lemma {:induction false} SortTotal(le: (Standing, Standing) -> bool, s: seq<Standing>)
    ensures TotalPoints(Sort(le, s)) == TotalPoints(s)
  {
    if s != [] {
      SortTotal(le, s[1..]);
      InsertTotal(le, s[0], Sort(le, s[1..]));
    }
  }

  lemma {:induction false} TotalOfProjected(table: seq<Standing>, earned: map<string, int>)
    ensures TotalPoints(Projected(table, earned)) == TotalPoints(table) + TotalGain(table, earned)
  {
    if table != [] {
      assert Projected(table, earned)[1..] == Projected(table[1..], earned);
      TotalOfProjected(table[1..], earned);
    }
  }

  lemma {:induction false} RankedSamePoints(s: seq<Standing>, t: seq<Standing>)
    requires |s| == |t| && forall i | 0 <= i < |s| :: s[i].points == t[i].points
    ensures TotalPoints(s) == TotalPoints(t)
  {
    if s != [] {
      RankedSamePoints(s[1..], t[1..]);
    }
  }

  // ---------- What the table and the gains amount to ----------

  lemma {:induction false} PutNew(table: seq<Standing>, item: Standing)
    requires !Has(table, item.id)
    ensures Put(table, item) == table + [item]
  {
    if table != [] {
      HasSplit(table);
      PutNew(table[1..], item);
    }
  }

  lemma {:induction false} TableOfDistinct(existing: seq<Standing>)
    requires Distinct(existing)
    ensures TableOf(existing) == existing
  {
    if existing != [] {
      var n := |existing| - 1;
      TableOfDistinct(existing[..n]);
      PutNew(existing[..n], existing[n]);
    }
  }

  lemma {:induction false} WithEntriesShape(table: seq<Standing>, entries: seq<ClassificationEntry>)
    requires Distinct(table)
    ensures var r := WithEntries(table, entries);
            Distinct(r) && TotalPoints(r) == TotalPoints(table)
  {
    if entries != [] {
      var before, e := entries[..|entries| - 1], entries[|entries| - 1];
      var r := WithEntries(table, before);
      WithEntriesShape(table, before);
      TotalsAppend(r, map[], Standing(e.id, e.name, 0, 0, 0, e.team));
      WithEntryHas(r, e);
    }
  }

  lemma WithEntryHas(table: seq<Standing>, e: ClassificationEntry)
    requires Distinct(table)
    ensures Distinct(WithEntry(table, e))
    ensures forall id :: Has(WithEntry(table, e), id) <==> Has(table, id) || (e.classified && id == e.id)
  {
    var r := WithEntry(table, e);
    forall id ensures Has(r, id) <==> Has(table, id) || (e.classified && id == e.id) {
      if Has(table, id) {
        var i :| 0 <= i < |table| && table[i].id == id;
        assert r[i].id == id;
      }
      if e.classified && !Has(table, e.id) {
        assert r[|table|].id == e.id;
      }
    }
  }

  lemma {:induction false} GainUpdate(table: seq<Standing>, earned: map<string, int>, id: string, points: int)
    requires Distinct(table) && id !in earned
    ensures TotalGain(table, earned[id := points]) == TotalGain(table, earned) + if Has(table, id) then points else 0
  {
    if table != [] {
      HasSplit(table);
      GainUpdate(table[1..], earned, id, points);
      if table[0].id == id {
        assert !Has(table[1..], id);
      }
    }
  }

  lemma {:induction false} EarnedIds(rules: PointsRules, kind: string, entries: seq<ClassificationEntry>)
    ensures forall id :: id in Earned(rules, kind, entries) <==> exists e | e in entries :: e.id == id
  {
    if entries != [] {
      EarnedIds(rules, kind, entries[..|entries| - 1]);
      assert entries == entries[..|entries| - 1] + [entries[|entries| - 1]];
    }
  }

  /** A driver entered more than once keeps what the last entry earns. */
  lemma {:induction false} EarnedIsLast(rules: PointsRules, kind: string, entries: seq<ClassificationEntry>, k: nat)
    requires k < |entries| && forall i | k < i < |entries| :: entries[i].id != entries[k].id
    ensures entries[k].id in Earned(rules, kind, entries)
    ensures Earned(rules, kind, entries)[entries[k].id] == EntryPoints(rules, kind, entries[k])
  {
    if k < |entries| - 1 {
      EarnedIsLast(rules, kind, entries[..|entries| - 1], k);
    }
  }

  lemma {:induction false} GainsAddUp(rules: PointsRules, kind: string, table: seq<Standing>,
                                      entries: seq<ClassificationEntry>)
    requires Distinct(table) && DistinctEntries(entries)
    ensures TotalGain(WithEntries(table, entries), Earned(rules, kind, entries))
            == ClassifiedPoints(rules, kind, entries)
  {
    if entries == [] {
      NoGain(table);
    } else {
      var before, e := entries[..|entries| - 1], entries[|entries| - 1];
      var r, earned := WithEntries(table, before), Earned(rules, kind, before);
      GainsAddUp(rules, kind, table, before);
      WithEntriesShape(table, before);
      EarnedIds(rules, kind, before);
      assert e.id !in earned;
      WithEntryHas(r, e);
      TotalsAppend(r, earned, Standing(e.id, e.name, 0, 0, 0, e.team));
      GainUpdate(WithEntry(r, e), earned, e.id, EntryPoints(rules, kind, e));
    }
  }

  lemma {:induction false} NoGain(table: seq<Standing>)
    ensures TotalGain(table, map[]) == 0
  {
    if table != [] {
      NoGain(table[1..]);
    }
  }

  // ---------- The projection ----------

  /** With distinct drivers, the projection is ranked 1..n in a strict order, lists each driver
      of the table and each classified driver once, and adds exactly the points of the
      classified entries to the total. */
  lemma ProjectionConserves(fold: string -> string, rules: PointsRules, kind: string,
                            existing: seq<Standing>, entries: seq<ClassificationEntry>)
    requires Distinct(existing) && DistinctEntries(entries)
    ensures var r := Projection(fold, rules, kind, existing, entries);
            TotalPoints(r) == TotalPoints(existing) + ClassifiedPoints(rules, kind, entries)
  {
    var table, earned := WithEntries(existing, entries), Earned(rules, kind, entries);
    var projected := Projected(table, earned);
    TableOfDistinct(existing);
    WithEntriesShape(existing, entries);
    GainsAddUp(rules, kind, existing, entries);
    TotalOfProjected(table, earned);
    var sorted := Sort(ByRank(fold), projected);
    SortTotal(ByRank(fold), projected);
    RankedSamePoints(sorted, Ranked(sorted));
  }

  /** The order of the result: ranks count from 1; more points come first, then the lower
      case-folded name, then the lower id; and the rows are exactly the projected ones. */
  lemma ProjectionRanks(fold: string -> string, rules: PointsRules, kind: string,
                        existing: seq<Standing>, entries: seq<ClassificationEntry>)
    ensures var r := Projection(fold, rules, kind, existing, entries);
            var projected := Projected(WithEntries(TableOf(existing), entries), Earned(rules, kind, entries));
            && |r| == |projected|
            && (forall i | 0 <= i < |r| :: r[i].rank == i + 1)
            && (forall i, j | 0 <= i < j < |r| ::
                  && r[i].points >= r[j].points
                  && (r[i].points == r[j].points ==> StringLe(fold(r[i].name), fold(r[j].name)))
                  && (r[i].points == r[j].points && fold(r[i].name) == fold(r[j].name) ==> StringLe(r[i].id, r[j].id)))
            && multiset(Unranked(r)) == multiset(projected)
  {
    var projected := Projected(WithEntries(TableOf(existing), entries), Earned(rules, kind, entries));
    var sorted := Sort(ByRank(fold), projected);
    ByRankTotal(fold);
    SortSorts(ByRank(fold), projected);
    SortContents(ByRank(fold), projected);
    SortMembers(ByRank(fold), projected);
    forall i | 0 <= i < |sorted| ensures sorted[i].rank == 0 {
      assert sorted[i] in projected;
    }
    assert Unranked(Ranked(sorted)) == sorted;
    forall i, j | 0 <= i < j < |sorted| ensures StandingLe(fold, sorted[i], sorted[j]) {
      assert ByRank(fold)(sorted[i], sorted[j]);
    }
    forall i: nat, j: nat | i < j < |sorted|
      ensures StringLe(fold(sorted[i].name), fold(sorted[j].name)) || sorted[i].points > sorted[j].points
    {
      StringLeTotal(fold(sorted[i].name), fold(sorted[j].name));
    }
  }

  lemma {:induction false} InsertDrivers(le: (Standing, Standing) -> bool, x: Standing, s: seq<Standing>)
    requires Distinct(s) && !Has(s, x.id)
    ensures var r := Insert(le, x, s);
            Distinct(r) && forall id :: Has(r, id) <==> Has(s, id) || id == x.id
  {
    var r := Insert(le, x, s);
    HasSplit(r);
    if s == [] || le(x, s[0]) {
      assert r[1..] == s;
      assert forall j | 0 <= j < |s| :: Has(s, s[j].id);
    } else {
      HasSplit(s);
      InsertDrivers(le, x, s[1..]);
      assert r[1..] == Insert(le, x, s[1..]);
      assert forall j | 0 <= j < |r[1..]| :: Has(r[1..], r[1..][j].id);
      assert !Has(s[1..], s[0].id);
    }
  }

  lemma {:induction false} SortDrivers(le: (Standing, Standing) -> bool, s: seq<Standing>)
    requires Distinct(s)
    ensures Distinct(Sort(le, s)) && forall id :: Has(Sort(le, s), id) <==> Has(s, id)
  {
    if s != [] {
      HasSplit(s);
      SortDrivers(le, s[1..]);
      assert !Has(s[1..], s[0].id);
      InsertDrivers(le, s[0], Sort(le, s[1..]));
    }
  }

  lemma SameDrivers(s: seq<Standing>, t: seq<Standing>)
    requires |s| == |t| && forall i | 0 <= i < |s| :: s[i].id == t[i].id
    ensures Distinct(s) ==> Distinct(t)
    ensures forall id :: Has(s, id) <==> Has(t, id)
  {
    forall id ensures Has(s, id) <==> Has(t, id) {
      if Has(s, id) {
        HasToo(s, t, id);
      }
      if Has(t, id) {
        HasToo(t, s, id);
      }
    }
  }

  lemma HasToo(s: seq<Standing>, t: seq<Standing>, id: string)
    requires |s| == |t| && forall i | 0 <= i < |s| :: s[i].id == t[i].id
    requires Has(s, id)
    ensures Has(t, id)
  {
    var i :| 0 <= i < |s| && s[i].id == id;
    assert t[i].id == id;
  }

  /** The projection lists exactly the drivers of the table and the classified ones, each
      once. */
  lemma ProjectionDrivers(fold: string -> string, rules: PointsRules, kind: string,
                          existing: seq<Standing>, entries: seq<ClassificationEntry>)
    requires Distinct(existing)
    ensures var r := Projection(fold, rules, kind, existing, entries);
            && Distinct(r)
            && forall id :: Has(r, id) <==> Has(existing, id) || exists e | e in entries :: e.classified && e.id == id
  {
    var table := WithEntries(existing, entries);
    var projected := Projected(table, Earned(rules, kind, entries));
    var sorted := Sort(ByRank(fold), projected);
    TableOfDistinct(existing);
    WithEntriesDrivers(existing, entries);
    SameDrivers(table, projected);
    SortDrivers(ByRank(fold), projected);
    SameDrivers(sorted, Ranked(sorted));
  }

  lemma {:induction false} WithEntriesDrivers(table: seq<Standing>, entries: seq<ClassificationEntry>)
    requires Distinct(table)
    ensures var r := WithEntries(table, entries);
            && Distinct(r)
            && forall id :: Has(r, id) <==> Has(table, id) || exists e | e in entries :: e.classified && e.id == id
  {
    if entries != [] {
      var before, e := entries[..|entries| - 1], entries[|entries| - 1];
      WithEntriesDrivers(table, before);
      WithEntryHas(WithEntries(table, before), e);
      assert entries == before + [e];
    }
  }

  function Unranked(r: seq<Standing>): (s: seq<Standing>)
    ensures |s| == |r|
    ensures forall i | 0 <= i < |r| :: s[i] == r[i].(rank := 0)
  {
    seq(|r|, i requires 0 <= i < |r| => r[i].(rank := 0))
  }

  lemma {:induction false} WithEntriesRows(table: seq<Standing>, entries: seq<ClassificationEntry>, x: Standing)
    requires x in WithEntries(table, entries)
    ensures x in table || (!Has(table, x.id) && exists e | e in entries ::
                             e.classified && x == Standing(e.id, e.name, 0, 0, 0, e.team))
  {
    if entries != [] {
      var front, e := entries[..|entries| - 1], entries[|entries| - 1];
      assert entries == front + [e];
      if x in WithEntries(table, front) {
        WithEntriesRows(table, front, x);
      } else {
        WithEntriesHas(table, front, e.id);
      }
    }
  }

  lemma {:induction false} WithEntriesHas(table: seq<Standing>, entries: seq<ClassificationEntry>, id: string)
    ensures Has(table, id) ==> Has(WithEntries(table, entries), id)
  {
    if entries != [] && Has(table, id) {
      var front := entries[..|entries| - 1];
      WithEntriesHas(table, front, id);
      var i :| 0 <= i < |WithEntries(table, front)| && WithEntries(table, front)[i].id == id;
      assert WithEntries(table, entries)[i].id == id;
    }
  }

  /** Where a row of the projection comes from: the table's row of that driver or, for a driver not
      in the table, a classified entry that starts from zero. */
  lemma RowOrigin(fold: string -> string, rules: PointsRules, kind: string, existing: seq<Standing>,
                  entries: seq<ClassificationEntry>, i: nat) returns (x: Standing)
    requires Distinct(existing) && i < |Projection(fold, rules, kind, existing, entries)|
    ensures var row, gain := Projection(fold, rules, kind, existing, entries)[i], Earned(rules, kind, entries);
            && row.id == x.id && row.name == x.name && row.team == x.team
            && row.delta == Gain(gain, x.id) && row.points == x.points + Gain(gain, x.id)
    ensures x in existing || (!Has(existing, x.id) && x.points == 0 && exists e | e in entries ::
                                e.classified && e.id == x.id && e.name == x.name && e.team == x.team)
  {
    var table, gain := WithEntries(existing, entries), Earned(rules, kind, entries);
    var projected := Projected(table, gain);
    var sorted := Sort(ByRank(fold), projected);
    TableOfDistinct(existing);
    SortMembers(ByRank(fold), projected);
    assert sorted[i] in projected;
    var k :| 0 <= k < |projected| && projected[k] == sorted[i];
    x := table[k];
    WithEntriesRows(existing, entries, x);
  }

  /** A row of the projection: its delta is what the driver's last entry earns, nothing without an
      entry; its points are the driver's earlier ones, or none for a new driver, plus the delta;
      and name and team are those of the table, or for a new driver of a classified entry. */
  lemma ProjectionRow(fold: string -> string, rules: PointsRules, kind: string, existing: seq<Standing>,
                      entries: seq<ClassificationEntry>, i: nat, k: nat)
    requires Distinct(existing) && i < |Projection(fold, rules, kind, existing, entries)|
    ensures var row := Projection(fold, rules, kind, existing, entries)[i];
            && ((forall e | e in entries :: e.id != row.id) ==> row.delta == 0)
            && (k < |entries| && entries[k].id == row.id
                && (forall l | k < l < |entries| :: entries[l].id != row.id) ==>
                  row.delta == if entries[k].classified
                               then PointsFor(rules, entries[k].position, kind, entries[k].fastest) else 0)
            && (forall s | s in existing && s.id == row.id ::
                  row.points == s.points + row.delta && row.name == s.name && row.team == s.team)
            && (!Has(existing, row.id) ==>
                  && row.points == row.delta
                  && exists e | e in entries ::
                       e.classified && e.id == row.id && e.name == row.name && e.team == row.team)
  {
    hide Projection;
    var row := Projection(fold, rules, kind, existing, entries)[i];
    var x := RowOrigin(fold, rules, kind, existing, entries, i);
    EarnedIds(rules, kind, entries);
    if k < |entries| && entries[k].id == row.id && forall l | k < l < |entries| :: entries[l].id != row.id {
      EarnedIsLast(rules, kind, entries, k);
    }
    forall s | s in existing && s.id == row.id ensures s == x {
      var a :| 0 <= a < |existing| && existing[a] == s;
      assert existing[a].id == x.id;
      if x in existing {
        var b :| 0 <= b < |existing| && existing[b] == x;
      }
    }
    if x in existing {
      var b :| 0 <= b < |existing| && existing[b] == x;
      assert existing[b].id == row.id;
    }
  }

  method ProjectStandings(fold: string -> string, rules: PointsRules, kind: string,
                          existing: seq<Standing>, entries: seq<ClassificationEntry>) returns (r: seq<Standing>)
    ensures r == Projection(fold, rules, kind, existing, entries)
  {
    var table: seq<Standing> := [];
    for i := 0 to |existing|
      invariant table == TableOf(existing[..i])
    {
      assert existing[..i + 1][..i] == existing[..i];
      table := Put(table, existing[i]);
    }
    assert existing[..|existing|] == existing;
    var earned: map<string, int> := map[];
    for i := 0 to |entries|
      invariant table == WithEntries(TableOf(existing), entries[..i])
      invariant earned == Earned(rules, kind, entries[..i])
    {
      var e := entries[i];
      assert entries[..i + 1][..i] == entries[..i];
      if !e.classified {
        earned := earned[e.id := 0];
        continue;
      }
      earned := earned[e.id := PointsFor(rules, e.position, kind, e.fastest)];
      if !Has(table, e.id) {
        table := table + [Standing(e.id, e.name, 0, 0, 0, e.team)];
      }
    }
    assert entries[..|entries|] == entries;
    r := Ranked(Sort(ByRank(fold), Projected(table, earned)));
  }
}
