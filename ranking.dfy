/**
 * The league table of one category, `calculateRanking`: every roster team starts
 * at zero, each fully scored fixture credits both of its teams, and the rows are
 * sorted by points and then goal difference, both descending.
 */
module Ranking {
  import opened Common
  import opened Fixtures

  /** One team's row: points, fixtures played and goal difference. */
  datatype Stats = Stats(pts: int, played: int, goalsDiff: int)

  /** An `[team, stats]` pair of `Object.entries(points)`. */
  type Entry = (string, Stats)

  /** The `points` object, keyed by team name. */
  type Table = map<string, Stats>

  const Fresh: Stats := Stats(0, 0, 0)

  function Pts(s: Stats): int { s.pts }
  function Played(s: Stats): int { s.played }
  function GoalsDiff(s: Stats): int { s.goalsDiff }

  /** The table after `teams[category].forEach(team => points[team] = {0, 0, 0})`. */
  function InitialPoints(roster: seq<string>): Table {
    map t | t in roster :: Fresh
  }

  /** A fixture counts only when neither score is null: `score1 == null || score2 == null` skips it. */
  predicate Scored(m: Match) {
    m.score1.Some? && m.score2.Some?
  }

  /** Points a side earns against the other side's score. */
  function Award(own: int, other: int): (r: int)
    ensures r == 3 <==> own > other
    ensures r == 1 <==> own < other
    ensures r == 2 <==> own == other
  {
    if own > other then 3 else if own < other then 1 else 2
  }

  /** One more fixture played, with the points and goal difference it brought. */
  function Credit(s: Stats, pts: int, diff: int): Stats {
    Stats(s.pts + pts, s.played + 1, s.goalsDiff + diff)
  }

  /**
   * The effect of one fixture on the table. None when a scored fixture names a
   * team that is not in the table: `points[equipe]` is then undefined and the
   * increment throws. The source performs six field increments in turn; they are
   * additions, so crediting `equipe1` and then `equipe2` has the same result even
   * when both name the same team.
   */
  function Step(p: Table, m: Match): (r: Option<Table>)
    ensures r.Some? ==> r.value.Keys == p.Keys
  {
    if !Scored(m) then Some(p)
    else if m.equipe1 !in p || m.equipe2 !in p then None
    else
      var s1, s2 := m.score1.value, m.score2.value;
      var p1 := p[m.equipe1 := Credit(p[m.equipe1], Award(s1, s2), s1 - s2)];
      Some(p1[m.equipe2 := Credit(p1[m.equipe2], Award(s2, s1), s2 - s1)])
  }

  /** The `matches.forEach` loop: the fixtures folded into the table in order, None once one throws. */
  function Accumulate(p: Table, ms: seq<Match>): (r: Option<Table>)
    ensures r.Some? ==> r.value.Keys == p.Keys
    decreases |ms|
  {
    if ms == [] then Some(p)
    else
      match Step(p, ms[0])
      case None => None
      case Some(p') => Accumulate(p', ms[1..])
  }

  /** `Object.entries(points)`: the rows in key insertion order, which is roster order. */
  function Entries(p: Table, roster: seq<string>): (r: seq<Entry>)
    requires forall k :: 0 <= k < |roster| ==> roster[k] in p
    ensures |r| == |roster|
    ensures forall k :: 0 <= k < |r| ==> r[k] == (roster[k], p[roster[k]])
  {
    if roster == [] then [] else [(roster[0], p[roster[0]])] + Entries(p, roster[1..])
  }

  /** The comparator passed to `sort`: negative when a belongs before b. */
  function Compare(a: Entry, b: Entry): int {
    if b.1.pts != a.1.pts then b.1.pts - a.1.pts else b.1.goalsDiff - a.1.goalsDiff
  }

  /** The sort keys. */
  function Key(e: Entry): (int, int) {
    (e.1.pts, e.1.goalsDiff)
  }

  /** x placed before the first row it does not rank strictly behind. */
  function Insert(x: Entry, s: seq<Entry>): seq<Entry> {
    if s == [] || Compare(x, s[0]) <= 0 then [x] + s else [s[0]] + Insert(x, s[1..])
  }

  /**
   * `Array.prototype.sort` with the comparator above, which is stable (ECMAScript
   * 2019 and later): an insertion sort that keeps rows with equal keys in input order.
   */
  function SortStandings(s: seq<Entry>): seq<Entry> {
    if s == [] then [] else Insert(s[0], SortStandings(s[1..]))
  }

  /** The whole of `calculateRanking(matches, category)` for the roster `teams[category]`. */
  function Standings(matches: seq<Match>, roster: seq<string>): Option<seq<Entry>> {
    match Accumulate(InitialPoints(roster), matches)
    case None => None
    case Some(p) => Some(SortStandings(Entries(p, roster)))
  }

  /** The body of the `matches.forEach` callback, applied to the table in place. */
  method RecordResult(points: Table, m: Match) returns (r: Option<Table>)
    ensures r == Step(points, m)
  {
    if m.score1.None? || m.score2.None? {
      return Some(points);
    }
    var e1, e2, s1, s2 := m.equipe1, m.equipe2, m.score1.value, m.score2.value;
    var p := points;
    if e1 !in p {
      return None;
    }
    p := p[e1 := p[e1].(played := p[e1].played + 1)];
    if e2 !in p {
      return None;
    }
    p := p[e2 := p[e2].(played := p[e2].played + 1)];
    p := p[e1 := p[e1].(goalsDiff := p[e1].goalsDiff + (s1 - s2))];
    p := p[e2 := p[e2].(goalsDiff := p[e2].goalsDiff + (s2 - s1))];
    if s1 > s2 {
      p := p[e1 := p[e1].(pts := p[e1].pts + 3)];
      p := p[e2 := p[e2].(pts := p[e2].pts + 1)];
    } else if s1 < s2 {
      p := p[e1 := p[e1].(pts := p[e1].pts + 1)];
      p := p[e2 := p[e2].(pts := p[e2].pts + 3)];
    } else {
      p := p[e1 := p[e1].(pts := p[e1].pts + 2)];
      p := p[e2 := p[e2].(pts := p[e2].pts + 2)];
    }
    var a1, a2 := Award(s1, s2), Award(s2, s1);
    if e1 == e2 {
      var s := points[e1];
      assert p == points[e1 := Stats(s.pts + a1 + a2, s.played + 2, s.goalsDiff)];
      assert Credit(Credit(s, a1, s1 - s2), a2, s2 - s1) == Stats(s.pts + a1 + a2, s.played + 2, s.goalsDiff);
      var p1 := points[e1 := Credit(s, a1, s1 - s2)];
      assert p1[e2] == Credit(s, a1, s1 - s2);
      assert p1[e2 := Credit(p1[e2], a2, s2 - s1)] == points[e1 := Credit(Credit(s, a1, s1 - s2), a2, s2 - s1)];
    } else {
      assert p == points[e1 := Credit(points[e1], a1, s1 - s2)][e2 := Credit(points[e2], a2, s2 - s1)];
      assert Step(points, m) == Some(points[e1 := Credit(points[e1], a1, s1 - s2)][e2 := Credit(points[e2], a2, s2 - s1)]);
    }
    return Some(p);
  }

  /** `calculateRanking` as the source writes it: a table filled by loops, then sorted. */
  method CalculateRanking(matches: seq<Match>, roster: seq<string>) returns (r: Option<seq<Entry>>)
    requires Distinct(roster)
    ensures r == Standings(matches, roster)
  {
    var points: Table := map[];
    for t := 0 to |roster|
      invariant points == InitialPoints(roster[..t])
    {
      assert roster[..t + 1] == roster[..t] + [roster[t]];
      points := points[roster[t] := Fresh];
    }
    assert roster[..|roster|] == roster;
    ghost var init := points;
    for k := 0 to |matches|
      invariant Accumulate(points, matches[k..]) == Accumulate(init, matches)
    {
      assert matches[k..][0] == matches[k] && matches[k..][1..] == matches[k + 1..];
      var next := RecordResult(points, matches[k]);
      if next.None? {
        return None;
      }
      points := next.value;
    }
    r := Some(SortStandings(Entries(points, roster)));
  }
}
