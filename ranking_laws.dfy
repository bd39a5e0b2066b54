/**
 * What `calculateRanking` guarantees: the table is a sorted, stable permutation of
 * the roster; unscored fixtures change nothing; every scored fixture adds one
 * game to each side, four points in all and no net goal difference; and it throws
 * exactly when a scored fixture names a team outside the roster.
 */
module RankingLaws {
  import opened Common
  import opened Fixtures
  import opened Ranking

  /** Rows in comparator order: no row ranks strictly ahead of a row above it. */
  predicate SortedDesc(s: seq<Entry>) {
    forall i, j :: 0 <= i < j < |s| ==> Compare(s[i], s[j]) <= 0
  }

  /** The rows whose (points, goal difference) equal k, in order. */
  function KeyFilter(k: (int, int), s: seq<Entry>): seq<Entry> {
    if s == [] then [] else (if Key(s[0]) == k then [s[0]] else []) + KeyFilter(k, s[1..])
  }

  /** The team column of a table. */
  function Teams(s: seq<Entry>): (r: seq<string>)
    ensures |r| == |s|
  {
    if s == [] then [] else [s[0].0] + Teams(s[1..])
  }

  /** The sum of one column of a table. */
  function Total(s: seq<Entry>, f: Stats -> int): int {
    if s == [] then 0 else f(s[0].1) + Total(s[1..], f)
  }

  /** The number of fixtures with both scores set. */
  function ScoredCount(ms: seq<Match>): nat {
    |Filter(Scored, ms)|
  }

  /** How many sides of scored fixtures team t took (twice for a fixture against itself). */
  function Appearances(ms: seq<Match>, t: string): nat {
    if ms == [] then 0
    else
      (if Scored(ms[0]) then (if ms[0].equipe1 == t then 1 else 0) + (if ms[0].equipe2 == t then 1 else 0) else 0)
      + Appearances(ms[1..], t)
  }

  /** A scored fixture naming a team that is not a key of the table. */
  predicate Unknown(p: Table, m: Match) {
    Scored(m) && (m.equipe1 !in p || m.equipe2 !in p)
  }

  // ---- The stable sort ----

  lemma {:induction false} InsertPermutes(x: Entry, s: seq<Entry>)
    ensures multiset(Insert(x, s)) == multiset([x] + s)
  {
    if s != [] && Compare(x, s[0]) > 0 {
      InsertPermutes(x, s[1..]);
      assert s == [s[0]] + s[1..];
    }
  }

  lemma {:induction false} InsertTeams(x: Entry, s: seq<Entry>)
    ensures multiset(Teams(Insert(x, s))) == multiset([x.0] + Teams(s))
  {
    if s != [] && Compare(x, s[0]) > 0 {
      InsertTeams(x, s[1..]);
      assert ([s[0]] + Insert(x, s[1..]))[1..] == Insert(x, s[1..]);
    }
  }

  lemma {:induction false} InsertTotal(x: Entry, s: seq<Entry>, f: Stats -> int)
    ensures Total(Insert(x, s), f) == f(x.1) + Total(s, f)
  {
    if s != [] && Compare(x, s[0]) > 0 {
      InsertTotal(x, s[1..], f);
      assert ([s[0]] + Insert(x, s[1..]))[1..] == Insert(x, s[1..]);
    } else {
      assert ([x] + s)[1..] == s;
    }
  }

  lemma {:induction false} InsertSorted(x: Entry, s: seq<Entry>)
    requires SortedDesc(s)
    ensures SortedDesc(Insert(x, s))
  {
    if s != [] && Compare(x, s[0]) > 0 {
      var t := s[1..];
      InsertSorted(x, t);
      InsertPermutes(x, t);
      var r := Insert(x, t);
      forall j | 0 <= j < |r| ensures Compare(s[0], r[j]) <= 0 {
        assert r[j] in multiset([x] + t);
        if r[j] != x {
          assert r[j] in t;
        }
      }
      assert Insert(x, s) == [s[0]] + r;
    }
  }

  lemma {:induction false} InsertKeyFilter(x: Entry, s: seq<Entry>, k: (int, int))
    ensures KeyFilter(k, Insert(x, s)) == KeyFilter(k, [x] + s)
  {
    if s != [] && Compare(x, s[0]) > 0 {
      InsertKeyFilter(x, s[1..], k);
      assert Key(x) != Key(s[0]);
      assert ([x] + s)[1..] == s;
      assert ([x] + s[1..])[1..] == s[1..];
    }
  }

  /** The sort orders the rows: points descending, then goal difference descending. */
  lemma {:induction false} SortStandingsSorted(s: seq<Entry>)
    ensures SortedDesc(SortStandings(s))
  {
    if s != [] {
      SortStandingsSorted(s[1..]);
      InsertSorted(s[0], SortStandings(s[1..]));
    }
  }

  /** The sort only reorders: same rows, same team column. */
  lemma {:induction false} SortStandingsPermutes(s: seq<Entry>)
    ensures multiset(SortStandings(s)) == multiset(s)
    ensures |SortStandings(s)| == |s|
    ensures multiset(Teams(SortStandings(s))) == multiset(Teams(s))
  {
    if s != [] {
      SortStandingsPermutes(s[1..]);
      InsertPermutes(s[0], SortStandings(s[1..]));
      InsertTeams(s[0], SortStandings(s[1..]));
      assert s == [s[0]] + s[1..];
    }
    assert |multiset(SortStandings(s))| == |SortStandings(s)|;
  }

  /** The sort keeps every column total. */
  lemma {:induction false} SortStandingsTotal(s: seq<Entry>, f: Stats -> int)
    ensures Total(SortStandings(s), f) == Total(s, f)
  {
    if s != [] {
      SortStandingsTotal(s[1..], f);
      InsertTotal(s[0], SortStandings(s[1..]), f);
    }
  }

  /** The sort is stable: the rows sharing any one key keep their input order. */
  lemma {:induction false} SortStandingsStable(s: seq<Entry>, k: (int, int))
    ensures KeyFilter(k, SortStandings(s)) == KeyFilter(k, s)
  {
    if s != [] {
      SortStandingsStable(s[1..], k);
      InsertKeyFilter(s[0], SortStandings(s[1..]), k);
      assert ([s[0]] + SortStandings(s[1..]))[1..] == SortStandings(s[1..]);
    }
  }

  /** Rows that all share one key are left exactly where they are. */
  lemma {:induction false} SortStandingsEqualKeys(s: seq<Entry>)
    requires forall i :: 0 <= i < |s| ==> Key(s[i]) == Key(s[0])
    ensures SortStandings(s) == s
  {
    if s != [] {
      assert forall i :: 0 <= i < |s[1..]| ==> Key(s[1..][i]) == Key(s[1..][0]);
      SortStandingsEqualKeys(s[1..]);
      assert s == [s[0]] + s[1..];
    }
  }

  // ---- The table of one roster ----

  lemma DistinctTail(roster: seq<string>)
    requires Distinct(roster) && roster != []
    ensures Distinct(roster[1..]) && roster[0] !in roster[1..]
  {
    assert forall a :: 0 <= a < |roster[1..]| ==> roster[1..][a] == roster[a + 1];
  }

  lemma {:induction false} TeamsOfEntries(p: Table, roster: seq<string>)
    requires forall k :: 0 <= k < |roster| ==> roster[k] in p
    ensures Teams(Entries(p, roster)) == roster
  {
    if roster != [] {
      TeamsOfEntries(p, roster[1..]);
    }
  }

  /** Changing one roster team's row changes a column total by the difference. */
  lemma {:induction false} TotalUpdate(p: Table, roster: seq<string>, t: string, v: Stats, f: Stats -> int)
    requires Distinct(roster) && t in roster
    requires forall k :: 0 <= k < |roster| ==> roster[k] in p
    ensures Total(Entries(p[t := v], roster), f) == Total(Entries(p, roster), f) - f(p[t]) + f(v)
  {
    var rest := roster[1..];
    DistinctTail(roster);
    assert Entries(p, roster) == [(roster[0], p[roster[0]])] + Entries(p, rest);
    assert Entries(p[t := v], roster) == [(roster[0], p[t := v][roster[0]])] + Entries(p[t := v], rest);
    if roster[0] == t {
      assert Entries(p[t := v], rest) == Entries(p, rest);
    } else {
      TotalUpdate(p, rest, t, v, f);
    }
  }

  /** Two successive row updates, as one fixture makes them. */
  lemma TotalTwoUpdates(p: Table, roster: seq<string>, e1: string, v1: Stats, e2: string, v2: Stats, f: Stats -> int)
    requires Distinct(roster) && e1 in roster && e2 in roster
    requires forall k :: 0 <= k < |roster| ==> roster[k] in p
    ensures Total(Entries(p[e1 := v1][e2 := v2], roster), f)
      == Total(Entries(p, roster), f) - f(p[e1]) + f(v1) - f(p[e1 := v1][e2]) + f(v2)
  {
    TotalUpdate(p, roster, e1, v1, f);
    TotalUpdate(p[e1 := v1], roster, e2, v2, f);
  }

  lemma StepUnfold(p: Table, m: Match)
    requires Scored(m) && m.equipe1 in p && m.equipe2 in p
    ensures var s1, s2 := m.score1.value, m.score2.value;
      var c1 := Credit(p[m.equipe1], Award(s1, s2), s1 - s2);
      var p1 := p[m.equipe1 := c1];
      Step(p, m) == Some(p1[m.equipe2 := Credit(p1[m.equipe2], Award(s2, s1), s2 - s1)])
  {
  }

  /** One scored fixture changes a column total by what it credits to each side. */
  lemma StepColumn(p: Table, m: Match, roster: seq<string>, f: Stats -> int)
    requires Distinct(roster) && forall k :: 0 <= k < |roster| ==> roster[k] in p
    requires Scored(m) && m.equipe1 in roster && m.equipe2 in roster
    ensures var s1, s2 := m.score1.value, m.score2.value;
      var c1 := Credit(p[m.equipe1], Award(s1, s2), s1 - s2);
      var p1 := p[m.equipe1 := c1];
      var c2 := Credit(p1[m.equipe2], Award(s2, s1), s2 - s1);
      Total(Entries(Step(p, m).value, roster), f)
        == Total(Entries(p, roster), f) - f(p[m.equipe1]) + f(c1) - f(p1[m.equipe2]) + f(c2)
  {
    var e1, e2, s1, s2 := m.equipe1, m.equipe2, m.score1.value, m.score2.value;
    assert e1 in p by {
      var i :| 0 <= i < |roster| && roster[i] == e1;
    }
    assert e2 in p by {
      var i :| 0 <= i < |roster| && roster[i] == e2;
    }
    var c1 := Credit(p[e1], Award(s1, s2), s1 - s2);
    var c2 := Credit(p[e1 := c1][e2], Award(s2, s1), s2 - s1);
    StepUnfold(p, m);
    TotalTwoUpdates(p, roster, e1, c1, e2, c2, f);
  }

  lemma StepTotals(p: Table, m: Match, roster: seq<string>)
    requires Distinct(roster) && p.Keys == set t | t in roster
    requires Step(p, m).Some?
    ensures Total(Entries(Step(p, m).value, roster), Pts) == Total(Entries(p, roster), Pts) + (if Scored(m) then 4 else 0)
    ensures Total(Entries(Step(p, m).value, roster), Played) == Total(Entries(p, roster), Played) + (if Scored(m) then 2 else 0)
    ensures Total(Entries(Step(p, m).value, roster), GoalsDiff) == Total(Entries(p, roster), GoalsDiff)
  {
    if Scored(m) {
      assert Award(m.score1.value, m.score2.value) + Award(m.score2.value, m.score1.value) == 4;
      assert m.equipe1 in roster && m.equipe2 in roster;
      assert forall k :: 0 <= k < |roster| ==> roster[k] in p;
      StepColumn(p, m, roster, Pts);
      StepColumn(p, m, roster, Played);
      StepColumn(p, m, roster, GoalsDiff);
    }
  }

  /**
   * Conservation over a run of fixtures: each scored fixture adds 4 points and 2
   * games played to the table's totals and leaves the goal-difference total alone.
   */
  lemma {:induction false} AccumulateTotals(p: Table, ms: seq<Match>, roster: seq<string>)
    requires Distinct(roster) && p.Keys == set t | t in roster
    requires Accumulate(p, ms).Some?
    ensures Total(Entries(Accumulate(p, ms).value, roster), Pts) == Total(Entries(p, roster), Pts) + 4 * ScoredCount(ms)
    ensures Total(Entries(Accumulate(p, ms).value, roster), Played) == Total(Entries(p, roster), Played) + 2 * ScoredCount(ms)
    ensures Total(Entries(Accumulate(p, ms).value, roster), GoalsDiff) == Total(Entries(p, roster), GoalsDiff)
  {
    if ms != [] {
      StepTotals(p, ms[0], roster);
      AccumulateTotals(Step(p, ms[0]).value, ms[1..], roster);
    }
  }

  /** The fold throws exactly when some scored fixture names a team outside the table. */
  lemma {:induction false} AccumulateFails(p: Table, ms: seq<Match>)
    ensures Accumulate(p, ms).None? <==> exists k :: 0 <= k < |ms| && Unknown(p, ms[k])
  {
    if ms != [] {
      if Step(p, ms[0]).Some? {
        var q := Step(p, ms[0]).value;
        AccumulateFails(q, ms[1..]);
        assert forall m :: Unknown(q, m) == Unknown(p, m);
        if exists k :: 0 <= k < |ms[1..]| && Unknown(q, ms[1..][k]) {
          var k :| 0 <= k < |ms[1..]| && Unknown(q, ms[1..][k]);
          assert Unknown(p, ms[k + 1]);
        }
        if exists k :: 0 <= k < |ms| && Unknown(p, ms[k]) {
          var k :| 0 <= k < |ms| && Unknown(p, ms[k]);
          assert k != 0 && ms[1..][k - 1] == ms[k];
        }
      }
    }
  }

  /** Removing the fixtures that lack a score changes nothing. */
  lemma {:induction false} AccumulateIgnoresUnscored(p: Table, ms: seq<Match>)
    ensures Accumulate(p, ms) == Accumulate(p, Filter(Scored, ms))
  {
    if ms != [] {
      var f := Filter(Scored, ms);
      if Scored(ms[0]) {
        assert f == [ms[0]] + Filter(Scored, ms[1..]);
        assert f[1..] == Filter(Scored, ms[1..]);
        if Step(p, ms[0]).Some? {
          AccumulateIgnoresUnscored(Step(p, ms[0]).value, ms[1..]);
        }
      } else {
        assert f == Filter(Scored, ms[1..]);
        AccumulateIgnoresUnscored(p, ms[1..]);
      }
    }
  }

  /**
   * A team's games played grow by the number of scored sides it took; a team that
   * took none keeps its row unchanged.
   */
  lemma {:induction false} AccumulateRow(p: Table, ms: seq<Match>, t: string)
    requires t in p && Accumulate(p, ms).Some?
    ensures Accumulate(p, ms).value[t].played == p[t].played + Appearances(ms, t)
    ensures Appearances(ms, t) == 0 ==> Accumulate(p, ms).value[t] == p[t]
  {
    if ms != [] {
      var q := Step(p, ms[0]).value;
      AccumulateRow(q, ms[1..], t);
    }
  }

  // ---- calculateRanking ----

  /** Ranking succeeds and fails with the fold; on success it is the sorted roster-ordered rows. */
  lemma RankingUnfold(ms: seq<Match>, roster: seq<string>)
    ensures Accumulate(InitialPoints(roster), ms).Some? <==> Standings(ms, roster).Some?
    ensures Standings(ms, roster).Some? ==>
      Standings(ms, roster).value == SortStandings(Entries(Accumulate(InitialPoints(roster), ms).value, roster))
  {
  }

  /** calculateRanking throws exactly when a scored fixture names a team outside the roster. */
  lemma RankingFails(ms: seq<Match>, roster: seq<string>)
    ensures Standings(ms, roster).None? <==>
      exists k :: 0 <= k < |ms| && Scored(ms[k]) && (ms[k].equipe1 !in roster || ms[k].equipe2 !in roster)
  {
    AccumulateFails(InitialPoints(roster), ms);
    assert forall m :: Unknown(InitialPoints(roster), m) <==> Scored(m) && (m.equipe1 !in roster || m.equipe2 !in roster);
  }

  /** The table holds exactly one row per roster team. */
  lemma RankingCoversRoster(ms: seq<Match>, roster: seq<string>)
    requires Standings(ms, roster).Some?
    ensures |Standings(ms, roster).value| == |roster|
    ensures multiset(Teams(Standings(ms, roster).value)) == multiset(roster)
  {
    var p := Accumulate(InitialPoints(roster), ms).value;
    SortStandingsPermutes(Entries(p, roster));
    TeamsOfEntries(p, roster);
  }

  /** The rows are ordered by points descending and, among equal points, goal difference descending. */
  lemma RankingSorted(ms: seq<Match>, roster: seq<string>)
    requires Standings(ms, roster).Some?
    ensures var r := Standings(ms, roster).value;
      forall i, j :: 0 <= i < j < |r| ==>
        r[i].1.pts > r[j].1.pts || (r[i].1.pts == r[j].1.pts && r[i].1.goalsDiff >= r[j].1.goalsDiff)
  {
    var p := Accumulate(InitialPoints(roster), ms).value;
    SortStandingsSorted(Entries(p, roster));
  }

  /** Teams level on points and goal difference appear in roster order. */
  lemma RankingStable(ms: seq<Match>, roster: seq<string>, k: (int, int))
    requires Standings(ms, roster).Some?
    ensures var p := Accumulate(InitialPoints(roster), ms).value;
      KeyFilter(k, Standings(ms, roster).value) == KeyFilter(k, Entries(p, roster))
  {
    var p := Accumulate(InitialPoints(roster), ms).value;
    SortStandingsStable(Entries(p, roster), k);
  }

  /** Sorting brings in no row that was not there. */
  lemma SortedMember(s: seq<Entry>, e: Entry)
    requires e in SortStandings(s)
    ensures e in s
  {
    SortStandingsPermutes(s);
    assert e in multiset(SortStandings(s));
  }

  /** Row k of the unsorted table is roster team k, credited with its scored sides. */
  lemma EntryRow(ms: seq<Match>, roster: seq<string>, k: nat)
    requires Accumulate(InitialPoints(roster), ms).Some? && k < |roster|
    ensures var e := Entries(Accumulate(InitialPoints(roster), ms).value, roster)[k];
      e.0 == roster[k] && e.1.played == Appearances(ms, e.0) && (Appearances(ms, e.0) == 0 ==> e.1 == Fresh)
  {
    var t := roster[k];
    assert t in InitialPoints(roster);
    AccumulateRow(InitialPoints(roster), ms, t);
  }

  /** Each row: a roster team whose games played count its scored sides, and all zeros if it had none. */
  lemma RankingRows(ms: seq<Match>, roster: seq<string>)
    requires Standings(ms, roster).Some?
    ensures forall e :: e in Standings(ms, roster).value ==>
      e.0 in roster && e.1.played == Appearances(ms, e.0) && (Appearances(ms, e.0) == 0 ==> e.1 == Fresh)
  {
    RankingUnfold(ms, roster);
    var es := Entries(Accumulate(InitialPoints(roster), ms).value, roster);
    var sorted := SortStandings(es);
    forall e | e in sorted
      ensures e.0 in roster && e.1.played == Appearances(ms, e.0) && (Appearances(ms, e.0) == 0 ==> e.1 == Fresh)
    {
      SortedMember(es, e);
      var k :| 0 <= k < |es| && es[k] == e;
      EntryRow(ms, roster, k);
    }
  }

  /** Totals: 4 points and 2 games per scored fixture, and a goal-difference total of 0. */
  lemma RankingTotals(ms: seq<Match>, roster: seq<string>)
    requires Distinct(roster) && Standings(ms, roster).Some?
    ensures Total(Standings(ms, roster).value, Pts) == 4 * ScoredCount(ms)
    ensures Total(Standings(ms, roster).value, Played) == 2 * ScoredCount(ms)
    ensures Total(Standings(ms, roster).value, GoalsDiff) == 0
  {
    var p0 := InitialPoints(roster);
    var p := Accumulate(p0, ms).value;
    AccumulateTotals(p0, ms, roster);
    SortStandingsTotal(Entries(p, roster), Pts);
    SortStandingsTotal(Entries(p, roster), Played);
    SortStandingsTotal(Entries(p, roster), GoalsDiff);
    FreshTotals(roster);
  }

  lemma {:induction false} FreshTotals(roster: seq<string>)
    ensures Total(Entries(InitialPoints(roster), roster), Pts) == 0
    ensures Total(Entries(InitialPoints(roster), roster), Played) == 0
    ensures Total(Entries(InitialPoints(roster), roster), GoalsDiff) == 0
  {
    if roster != [] {
      var p := InitialPoints(roster);
      var q := InitialPoints(roster[1..]);
      FreshTotals(roster[1..]);
      EntriesAgree(p, q, roster[1..]);
    }
  }

  lemma {:induction false} EntriesAgree(p: Table, q: Table, roster: seq<string>)
    requires forall k :: 0 <= k < |roster| ==> roster[k] in p && roster[k] in q && p[roster[k]] == q[roster[k]]
    ensures Entries(p, roster) == Entries(q, roster)
  {
  }

  /** Fixtures without both scores have no effect on the table. */
  lemma RankingIgnoresUnscored(ms: seq<Match>, roster: seq<string>)
    ensures Standings(ms, roster) == Standings(Filter(Scored, ms), roster)
  {
    AccumulateIgnoresUnscored(InitialPoints(roster), ms);
  }

  /** With no scored fixture every team shows 0/0/0, in roster order. */
  lemma RankingWithoutResults(ms: seq<Match>, roster: seq<string>)
    requires forall k :: 0 <= k < |ms| ==> !Scored(ms[k])
    ensures Standings(ms, roster) == Some(seq(|roster|, k requires 0 <= k < |roster| => (roster[k], Fresh)))
  {
    var p0 := InitialPoints(roster);
    AccumulateIgnoresUnscored(p0, ms);
    FilterNone(Scored, ms);
    assert Accumulate(p0, []) == Some(p0);
    var es := Entries(p0, roster);
    assert forall k :: 0 <= k < |es| ==> es[k] == (roster[k], Fresh);
    SortStandingsEqualKeys(es);
    assert es == seq(|roster|, k requires 0 <= k < |roster| => (roster[k], Fresh));
  }

  /** A fixture built from two team names and two scores. */
  function Result(e1: string, e2: string, s1: int, s2: int): Match {
    Match(None, "U11", e1, e2, None, None, None, None, None, Some(s1), Some(s2))
  }

  /** A 3-1 win is worth 3 points and +2 to the winner, 1 point and -2 to the loser. */
  lemma WinExample()
    ensures Standings([Result("A", "B", 3, 1)], ["A", "B"]) == Some([("A", Stats(3, 1, 2)), ("B", Stats(1, 1, -2))])
  {
    var p0 := InitialPoints(["A", "B"]);
    var p1 := p0["A" := Stats(3, 1, 2)]["B" := Stats(1, 1, -2)];
    assert Accumulate(p0, [Result("A", "B", 3, 1)]) == Some(p1);
    assert Entries(p1, ["A", "B"]) == [("A", Stats(3, 1, 2)), ("B", Stats(1, 1, -2))];
  }

  /** A 2-2 draw is worth 2 points and 0 to both sides; level teams keep roster order. */
  lemma DrawExample()
    ensures Standings([Result("A", "B", 2, 2)], ["B", "A"]) == Some([("B", Stats(2, 1, 0)), ("A", Stats(2, 1, 0))])
  {
    var p0 := InitialPoints(["B", "A"]);
    var p1 := p0["A" := Stats(2, 1, 0)]["B" := Stats(2, 1, 0)];
    assert Accumulate(p0, [Result("A", "B", 2, 2)]) == Some(p1);
    assert Entries(p1, ["B", "A"]) == [("B", Stats(2, 1, 0)), ("A", Stats(2, 1, 0))];
  }

  /** A fixture with only score1 set is not yet played. */
  lemma HalfScoredExample()
    ensures Standings([Result("A", "B", 3, 1).(score2 := None)], ["A", "B"]) == Some([("A", Fresh), ("B", Fresh)])
  {
    RankingWithoutResults([Result("A", "B", 3, 1).(score2 := None)], ["A", "B"]);
    var roster := ["A", "B"];
    assert seq(|roster|, k requires 0 <= k < |roster| => (roster[k], Fresh)) == [("A", Fresh), ("B", Fresh)];
  }
}
