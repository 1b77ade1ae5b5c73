/** Projecting the constructor standings, and how both projections agree. */
module Constructors {
  import opened Python
  import opened Sorting
  import opened Championship

  type Teams = seq<(string, int)>

  /** points[team] = points.get(team, 0) + n */
  function AddTo(points: Teams, team: string, n: int): Teams {
    if points == [] then [(team, n)]
    else if points[0].0 == team then [(team, points[0].1 + n)] + points[1..]
    else [points[0]] + AddTo(points[1..], team, n)
  }

  predicate Scores(e: ClassificationEntry) {
    e.team.Some? && e.team.value != "" && e.classified
  }

  function TeamTable(rules: PointsRules, kind: string, existing: Teams, entries: seq<ClassificationEntry>): Teams {
    if entries == [] then existing
    else
      var before, e := TeamTable(rules, kind, existing, entries[..|entries| - 1]), entries[|entries| - 1];
      if Scores(e) then AddTo(before, e.team.value, PointsFor(rules, e.position, kind, e.fastest)) else before
  }

  predicate TeamLe(fold: string -> string, a: (string, int), b: (string, int)) {
    a.1 > b.1 || (a.1 == b.1 && StringLe(fold(a.0), fold(b.0)))
  }

  function ByPoints(fold: string -> string): ((string, int), (string, int)) -> bool {
    (a, b) => TeamLe(fold, a, b)
  }

  function ConstructorProjection(fold: string -> string, rules: PointsRules, kind: string,
                                 existing: Teams, entries: seq<ClassificationEntry>): Teams {
    Sort(ByPoints(fold), TeamTable(rules, kind, existing, entries))
  }

  function PointsOfTeam(points: Teams, team: string): Option<int> {
    if points == [] then None
    else if points[0].0 == team then Some(points[0].1) else PointsOfTeam(points[1..], team)
  }

  lemma {:induction false} AddToTeam(points: Teams, team: string, n: int, other: string)
    ensures PointsOfTeam(AddTo(points, team, n), other) ==
            if other != team then PointsOfTeam(points, other)
            else if PointsOfTeam(points, team).Some? then Some(PointsOfTeam(points, team).value + n) else Some(n)
  {
    hide AddTo;
    if points == [] {
      AddToEmpty(team, n);
    } else {
      AddToSplit(points, team, n);
      if points[0].0 != team {
        AddToTeam(points[1..], team, n, other);
      }
    }
  }

  lemma AddToEmpty(team: string, n: int)
    ensures AddTo([], team, n) == [(team, n)]
  {
  }

  lemma AddToSplit(points: Teams, team: string, n: int)
    requires points != []
    ensures var r := AddTo(points, team, n);
            && |r| > 0 && r[0].0 == points[0].0
            && (if points[0].0 == team then r[0].1 == points[0].1 + n && r[1..] == points[1..]
                else r[0] == points[0] && r[1..] == AddTo(points[1..], team, n))
  {
  }

  /** What one team's classified cars earn. */
  function TeamEarned(rules: PointsRules, kind: string, entries: seq<ClassificationEntry>, team: string): int {
    if entries == [] then 0
    else
      var e := entries[|entries| - 1];
      TeamEarned(rules, kind, entries[..|entries| - 1], team) +
      if e.classified && e.team == Some(team) && team != "" then PointsFor(rules, e.position, kind, e.fastest) else 0
  }

  /** A team has a row exactly when it had one or one of its cars is classified, and the row
      holds its earlier points plus what all its classified cars earn. */
  lemma {:induction false} TeamRows(rules: PointsRules, kind: string, existing: Teams,
                                    entries: seq<ClassificationEntry>, team: string)
    ensures var row := PointsOfTeam(TeamTable(rules, kind, existing, entries), team);
            var before := PointsOfTeam(existing, team);
            && (row.Some? <==> before.Some? ||
                               (team != "" && exists e | e in entries :: e.classified && e.team == Some(team)))
            && (row.Some? ==>
                  row.value == (if before.Some? then before.value else 0) + TeamEarned(rules, kind, entries, team))
            && (row.None? ==> TeamEarned(rules, kind, entries, team) == 0)
  {
    if entries != [] {
      var front, e := entries[..|entries| - 1], entries[|entries| - 1];
      TeamRows(rules, kind, existing, front, team);
      assert entries == front + [e];
      if Scores(e) {
        AddToTeam(TeamTable(rules, kind, existing, front), e.team.value,
                  PointsFor(rules, e.position, kind, e.fastest), team);
      }
    }
  }

  lemma ByPointsTotal(fold: string -> string)
    ensures TotalPreorder(ByPoints(fold))
  {
    forall a: (string, int), b: (string, int) ensures TeamLe(fold, a, b) || TeamLe(fold, b, a) {
      StringLeTotal(fold(a.0), fold(b.0));
    }
    forall a: (string, int), b: (string, int), c: (string, int) | TeamLe(fold, a, b) && TeamLe(fold, b, c)
      ensures TeamLe(fold, a, c)
    {
      if a.1 == b.1 == c.1 {
        StringLeTransitive(fold(a.0), fold(b.0), fold(c.0));
      }
    }
  }

  /** The constructors' order: the team rows, most points first, then by case-folded name. */
  lemma ConstructorsRanked(fold: string -> string, rules: PointsRules, kind: string, existing: Teams,
                           entries: seq<ClassificationEntry>)
    ensures var r := ConstructorProjection(fold, rules, kind, existing, entries);
            && (forall i, j | 0 <= i < j < |r| ::
                  && r[i].1 >= r[j].1 && (r[i].1 == r[j].1 ==> StringLe(fold(r[i].0), fold(r[j].0))))
            && multiset(r) == multiset(TeamTable(rules, kind, existing, entries))
  {
    var table := TeamTable(rules, kind, existing, entries);
    ByPointsTotal(fold);
    SortSorts(ByPoints(fold), table);
    SortContents(ByPoints(fold), table);
    var r := ConstructorProjection(fold, rules, kind, existing, entries);
    forall i, j | 0 <= i < j < |r| ensures TeamLe(fold, r[i], r[j]) {
      assert ByPoints(fold)(r[i], r[j]);
    }
  }

  function TeamTotal(points: Teams): int {
    if points == [] then 0 else points[0].1 + TeamTotal(points[1..])
  }

  lemma {:induction false} AddToTotal(points: Teams, team: string, n: int)
    ensures TeamTotal(AddTo(points, team, n)) == TeamTotal(points) + n
  {
    if points != [] && points[0].0 != team {
      AddToTotal(points[1..], team, n);
    }
  }

  lemma {:induction false} TeamTableTotal(rules: PointsRules, kind: string, existing: Teams,
                                          entries: seq<ClassificationEntry>)
    requires forall e | e in entries :: e.team.Some? && e.team.value != ""
    ensures TeamTotal(TeamTable(rules, kind, existing, entries))
            == TeamTotal(existing) + ClassifiedPoints(rules, kind, entries)
  {
    if entries != [] {
      var before, e := entries[..|entries| - 1], entries[|entries| - 1];
      assert e in entries && forall x | x in before :: x in entries;
      TeamTableTotal(rules, kind, existing, before);
      if e.classified {
        AddToTotal(TeamTable(rules, kind, existing, before), e.team.value,
                   PointsFor(rules, e.position, kind, e.fastest));
      }
    }
  }

  lemma {:induction false} TeamTotalConcat(s: Teams, t: Teams)
    ensures TeamTotal(s + t) == TeamTotal(s) + TeamTotal(t)
  {
    if s == [] {
      assert s + t == t;
    } else {
      assert (s + t)[1..] == s[1..] + t;
      TeamTotalConcat(s[1..], t);
    }
  }

  lemma {:induction false} InsertTeamTotal(le: ((string, int), (string, int)) -> bool, x: (string, int), s: Teams)
    ensures TeamTotal(Insert(le, x, s)) == x.1 + TeamTotal(s)
  {
    if s != [] && !le(x, s[0]) {
      InsertTeamTotal(le, x, s[1..]);
    }
  }

  lemma {:induction false} SortTeamTotal(le: ((string, int), (string, int)) -> bool, s: Teams)
    ensures TeamTotal(Sort(le, s)) == TeamTotal(s)
  {
    if s != [] {
      SortTeamTotal(le, s[1..]);
      InsertTeamTotal(le, s[0], Sort(le, s[1..]));
    }
  }

  /** Both projections grow by the same amount when every entry names a team and the drivers
      are distinct. */
  lemma ProjectionsAgree(fold: string -> string, rules: PointsRules, kind: string,
                         existing: seq<Standing>, teams: Teams, entries: seq<ClassificationEntry>)
    requires Distinct(existing) && DistinctEntries(entries)
    requires forall e | e in entries :: e.team.Some? && e.team.value != ""
    ensures TeamTotal(ConstructorProjection(fold, rules, kind, teams, entries)) - TeamTotal(teams)
            == TotalPoints(Projection(fold, rules, kind, existing, entries)) - TotalPoints(existing)
            == ClassifiedPoints(rules, kind, entries)
  {
    ProjectionConserves(fold, rules, kind, existing, entries);
    TeamTableTotal(rules, kind, teams, entries);
    SortTeamTotal(ByPoints(fold), TeamTable(rules, kind, teams, entries));
  }

  method ProjectConstructorStandings(fold: string -> string, rules: PointsRules, kind: string,
                                     existing: Teams, entries: seq<ClassificationEntry>) returns (r: Teams)
    ensures r == ConstructorProjection(fold, rules, kind, existing, entries)
  {
    var points := existing;
    for i := 0 to |entries|
      invariant points == TeamTable(rules, kind, existing, entries[..i])
    {
      var e := entries[i];
      assert entries[..i + 1][..i] == entries[..i];
      if e.team.Some? && e.team.value != "" && e.classified {
        points := AddTo(points, e.team.value, PointsFor(rules, e.position, kind, e.fastest));
      }
    }
    assert entries[..|entries|] == entries;
    r := Sort(ByPoints(fold), points);
  }
}
