/**
 * The original tournament page: one round robin per category, a score input
 * per fixture, and a league table per category.
 */
module TournamentPage {
  import opened Common
  import opened RoundRobin
  import opened Fixtures
  import Ranking
  import RankingLaws

  /** The `teams` object: four teams per category. */
  function Teams(c: Category): seq<string> {
    match c
    case U11 => ["U11 Forges", "U11 Aumale", "U11 Londini\U{E8}res", "U11 Grandvilliers"]
    case U13 => ["U13 Forges", "U13 Aumale", "U13 Londini\U{E8}res", "U13 Gournay"]
  }

  lemma TeamsDistinct(c: Category)
    ensures |Teams(c)| == 4 && Distinct(Teams(c))
  {
  }

  /** `Object.keys(teams)`, in declaration order. */
  const Categories: seq<Category> := [U11, U13]

  // ---- Fixture generation ----

  /** The body posted for the pairing (i, j): category, both teams and null scores. */
  function Body(teams: seq<string>, categorie: string, pr: Pair): Match
    requires pr.0 < |teams| && pr.1 < |teams|
  {
    Match(None, categorie, teams[pr.0], teams[pr.1], None, None, None, None, None, None, None)
  }

  predicate InRoster(teams: seq<string>, ps: seq<Pair>) {
    forall k :: 0 <= k < |ps| ==> ps[k].0 < |teams| && ps[k].1 < |teams|
  }

  /** The bodies for a run of pairings. */
  function Bodies(teams: seq<string>, categorie: string, ps: seq<Pair>): (r: seq<Match>)
    requires InRoster(teams, ps)
    ensures |r| == |ps|
  {
    seq(|ps|, k requires 0 <= k < |ps| => Body(teams, categorie, ps[k]))
  }

  /** Every pairing of a roster, in loop order. */
  function RoundRobinOf(teams: seq<string>, categorie: string): (r: seq<Match>)
    ensures |r| == |Pairs(|teams|)|
  {
    PairsEnumeration(|teams|);
    Bodies(teams, categorie, Pairs(|teams|))
  }

  /** The bodies one category contributes. */
  function CategoryFixtures(c: Category): seq<Match> {
    RoundRobinOf(Teams(c), CategoryName(c))
  }

  /** The bodies the outer loop posts for the categories cs, in order. */
  function FixturesOf(cs: seq<Category>): seq<Match> {
    if cs == [] then [] else FixturesOf(cs[..|cs| - 1]) + CategoryFixtures(cs[|cs| - 1])
  }

  /** Everything `generateMatches` posts. */
  function Generated(): seq<Match> {
    FixturesOf(Categories)
  }

  /** The inner `for (j ...)` loop of `generateMatches`: team i against every later team. */
  method PostRow(list: seq<string>, categorie: string, i: nat, posted0: seq<Match>, ghost emitted0: seq<Pair>)
    returns (posted: seq<Match>, ghost emitted: seq<Pair>)
    requires i < |list| && InRoster(list, emitted0) && posted0 == Bodies(list, categorie, emitted0)
    ensures emitted == emitted0 + Row(i, i + 1, |list|)
    ensures InRoster(list, emitted) && posted == Bodies(list, categorie, emitted)
  {
    var n := |list|;
    posted, emitted := posted0, emitted0;
    var j: nat := i + 1;
    while j < n
      invariant i + 1 <= j <= n
      invariant emitted == emitted0 + Row(i, i + 1, j)
      invariant InRoster(list, emitted) && posted == Bodies(list, categorie, emitted)
      decreases n - j
    {
      var body := Match(None, categorie, list[i], list[j], None, None, None, None, None, None, None);
      BodiesSnoc(list, categorie, emitted, (i, j));
      RowSnoc(i, i + 1, j);
      emitted := emitted + [(i, j)];
      posted := posted + [body];
      j := j + 1;
    }
  }

  lemma BodiesSnoc(teams: seq<string>, categorie: string, ps: seq<Pair>, pr: Pair)
    requires InRoster(teams, ps) && pr.0 < |teams| && pr.1 < |teams|
    ensures InRoster(teams, ps + [pr])
    ensures Bodies(teams, categorie, ps + [pr]) == Bodies(teams, categorie, ps) + [Body(teams, categorie, pr)]
  {
  }

  /**
   * The two nested loops of `generateMatches` for one roster. The outcome of
   * each POST is only logged, so it does not change what is posted next.
   */
  method PostRoundRobin(list: seq<string>, categorie: string) returns (posted: seq<Match>)
    ensures posted == RoundRobinOf(list, categorie)
  {
    var n := |list|;
    posted := [];
    ghost var emitted: seq<Pair> := [];
    for i := 0 to n
      invariant Pairs(n) == emitted + PairsFrom(i, n)
      invariant InRoster(list, emitted) && posted == Bodies(list, categorie, emitted)
    {
      ghost var before := emitted;
      posted, emitted := PostRow(list, categorie, i, posted, emitted);
      PairsAdvance(n, i, before, emitted);
    }
    PairsAdvance(n, n, emitted, emitted);
  }

  /** `generateMatches`: the loop over the categories, posting each one's round robin. */
  method GenerateMatches() returns (posted: seq<Match>)
    ensures posted == Generated()
  {
    posted := [];
    for k := 0 to |Categories|
      invariant posted == FixturesOf(Categories[..k])
    {
      assert Categories[..k + 1][..k] == Categories[..k];
      var c := Categories[k];
      var bodies := PostRoundRobin(Teams(c), CategoryName(c));
      posted := posted + bodies;
    }
    assert Categories[..|Categories|] == Categories;
  }

  /** Twelve bodies: the six U11 pairings, then the six U13 ones. */
  lemma GeneratedShape()
    ensures Generated() == CategoryFixtures(U11) + CategoryFixtures(U13)
    ensures |CategoryFixtures(U11)| == 6 && |CategoryFixtures(U13)| == 6 && |Generated()| == 12
  {
    assert Categories[..1] == [U11] && Categories[1] == U13;
    assert FixturesOf([U11]) == FixturesOf([]) + CategoryFixtures(U11);
    CategorySize(U11);
    CategorySize(U13);
  }

  /** Four teams give six pairings. */
  lemma CategorySize(c: Category)
    ensures |CategoryFixtures(c)| == 6
  {
    TeamsDistinct(c);
    PairsCount(4);
  }

  /**
   * A roster's bodies are unscored fixtures of the category, each between two
   * roster positions with the earlier one listed first, and every two positions
   * meet in one of them.
   */
  lemma RoundRobinCovers(teams: seq<string>, categorie: string)
    ensures var fs := RoundRobinOf(teams, categorie);
      forall k :: 0 <= k < |fs| ==>
        fs[k].categorie == categorie && fs[k].score1.None? && fs[k].score2.None? &&
        exists a, b :: 0 <= a < b < |teams| && fs[k].equipe1 == teams[a] && fs[k].equipe2 == teams[b]
    ensures var fs := RoundRobinOf(teams, categorie);
      forall a: nat, b: nat :: a < b < |teams| ==> MeetIn(fs, teams[a], teams[b])
  {
    var ps, fs := Pairs(|teams|), RoundRobinOf(teams, categorie);
    PairsEnumeration(|teams|);
    forall k | 0 <= k < |fs|
      ensures fs[k].categorie == categorie && fs[k].score1.None? && fs[k].score2.None?
      ensures exists a, b :: 0 <= a < b < |teams| && fs[k].equipe1 == teams[a] && fs[k].equipe2 == teams[b]
    {
      assert fs[k] == Body(teams, categorie, ps[k]);
    }
    forall a: nat, b: nat | a < b < |teams|
      ensures MeetIn(fs, teams[a], teams[b])
    {
      assert (a, b) in ps;
      var k :| 0 <= k < |ps| && ps[k] == (a, b);
      assert fs[k].equipe1 == teams[a] && fs[k].equipe2 == teams[b];
    }
  }

  /** With distinct team names no pairing is posted twice. */
  lemma RoundRobinNoRematch(teams: seq<string>, categorie: string)
    requires Distinct(teams)
    ensures forall k1, k2 :: 0 <= k1 < k2 < |RoundRobinOf(teams, categorie)| ==>
      (RoundRobinOf(teams, categorie)[k1].equipe1, RoundRobinOf(teams, categorie)[k1].equipe2)
        != (RoundRobinOf(teams, categorie)[k2].equipe1, RoundRobinOf(teams, categorie)[k2].equipe2)
    ensures forall k1, k2 :: 0 <= k1 < |RoundRobinOf(teams, categorie)| && 0 <= k2 < |RoundRobinOf(teams, categorie)| ==>
      (RoundRobinOf(teams, categorie)[k1].equipe1, RoundRobinOf(teams, categorie)[k1].equipe2)
        != (RoundRobinOf(teams, categorie)[k2].equipe2, RoundRobinOf(teams, categorie)[k2].equipe1)
  {
    var ps, fs := Pairs(|teams|), RoundRobinOf(teams, categorie);
    PairsEnumeration(|teams|);
    forall k1, k2 | 0 <= k1 < k2 < |fs|
      ensures (fs[k1].equipe1, fs[k1].equipe2) != (fs[k2].equipe1, fs[k2].equipe2)
    {
      assert ps[k1] != ps[k2];
      if ps[k1].0 != ps[k2].0 {
        assert teams[ps[k1].0] != teams[ps[k2].0];
      } else {
        assert teams[ps[k1].1] != teams[ps[k2].1];
      }
    }    forall k1, k2 | 0 <= k1 < |fs| && 0 <= k2 < |fs|
      ensures (fs[k1].equipe1, fs[k1].equipe2) != (fs[k2].equipe2, fs[k2].equipe1)
    {
      assert ps[k1].0 < ps[k1].1 && ps[k2].0 < ps[k2].1;
      if ps[k1].0 != ps[k2].1 {
        assert teams[ps[k1].0] != teams[ps[k2].1];
      } else {
        assert teams[ps[k1].1] != teams[ps[k2].0];
      }
    }
  }

  /** When the store returns exactly the generated bodies, each tab receives its own category's six. */
  lemma FetchGenerated()
    ensures Grouped(Generated()) == Some((CategoryFixtures(U11), CategoryFixtures(U13)))
  {
    GeneratedShape();
    RoundRobinCovers(Teams(U11), "U11");
    RoundRobinCovers(Teams(U13), "U13");
    GroupedConcat(CategoryFixtures(U11), CategoryFixtures(U13));
  }

  /** Records of U11 followed by records of U13 group back into the two runs. */
  lemma GroupedConcat(a: seq<Match>, b: seq<Match>)
    requires forall k :: 0 <= k < |a| ==> a[k].categorie == "U11"
    requires forall k :: 0 <= k < |b| ==> b[k].categorie == "U13"
    ensures Grouped(a + b) == Some((a, b))
  {
    ConcatFilters(a, b);
    ConcatKnown(a, b);
  }

  lemma ConcatFilters(a: seq<Match>, b: seq<Match>)
    requires forall k :: 0 <= k < |a| ==> a[k].categorie == "U11"
    requires forall k :: 0 <= k < |b| ==> b[k].categorie == "U13"
    ensures OfCategory(U11, a + b) == a && OfCategory(U13, a + b) == b
  {
    FilterConcat(InU11, a, b);
    FilterConcat(InU13, a, b);
    FilterAll(InU11, a);
    FilterNone(InU11, b);
    FilterNone(InU13, a);
    FilterAll(InU13, b);
    assert a + [] == a;
    assert [] + b == b;
  }

  lemma ConcatKnown(a: seq<Match>, b: seq<Match>)
    requires forall k :: 0 <= k < |a| ==> a[k].categorie == "U11"
    requires forall k :: 0 <= k < |b| ==> b[k].categorie == "U13"
    ensures forall k :: 0 <= k < |a + b| ==> InU11((a + b)[k]) || InU13((a + b)[k])
  {
    forall k | 0 <= k < |a + b| ensures InU11((a + b)[k]) || InU13((a + b)[k]) {
      if k < |a| {
        assert (a + b)[k] == a[k];
      } else {
        assert (a + b)[k] == b[k - |a|];
      }
    }
  }

  // ---- Scores and ranking ----

  /** Every fixture of ms is between roster teams. */
  predicate OnRoster(ms: seq<Match>, roster: seq<string>) {
    forall k :: 0 <= k < |ms| ==> ms[k].equipe1 in roster && ms[k].equipe2 in roster
  }

  /** A roster's bodies are on the roster, and entering a score keeps a list on it. */
  lemma RoundRobinOnRoster(teams: seq<string>, categorie: string, ms: seq<Match>, index: nat, team: ScoreField, v: int)
    ensures OnRoster(RoundRobinOf(teams, categorie), teams)
    ensures OnRoster(ms, teams) && index < |ms| ==> OnRoster(ms[index := WithScore(ms[index], team, v)], teams)
  {
    var fs := RoundRobinOf(teams, categorie);
    PairsEnumeration(|teams|);
    forall k | 0 <= k < |fs| ensures fs[k].equipe1 in teams && fs[k].equipe2 in teams {
      assert fs[k] == Body(teams, categorie, Pairs(|teams|)[k]);
    }
  }

  /** A table over fixtures on the roster is always shown: the ranking never throws. */
  lemma RankingDefinedOnRoster(ms: seq<Match>, roster: seq<string>)
    requires OnRoster(ms, roster)
    ensures Ranking.Standings(ms, roster).Some?
  {
    RankingLaws.RankingFails(ms, roster);
  }

  /** Right after generation every team stands at zero, in roster order. */
  lemma FreshTable(teams: seq<string>, categorie: string)
    ensures Ranking.Standings(RoundRobinOf(teams, categorie), teams)
      == Some(seq(|teams|, k requires 0 <= k < |teams| => (teams[k], Ranking.Fresh)))
  {
    RoundRobinCovers(teams, categorie);
    RankingLaws.RankingWithoutResults(RoundRobinOf(teams, categorie), teams);
  }

  /** The page state: the fixtures of each category as last fetched. */
  class ScoreBoard {
    var u11: seq<Match>
    var u13: seq<Match>

    constructor()
      ensures u11 == [] && u13 == []
    {
      u11 := [];
      u13 := [];
    }

    function Scores(c: Category): seq<Match>
      reads this
    {
      match c
      case U11 => u11
      case U13 => u13
    }

    /** `fetchData`: the grouped records replace the state, unless the grouping throws. */
    method FetchData(data: seq<Match>)
      modifies this
      ensures Grouped(data).None? ==> u11 == old(u11) && u13 == old(u13)
      ensures Grouped(data).Some? ==> (u11, u13) == Grouped(data).value
    {
      var g := GroupByCategory(data);
      if g.Some? {
        u11, u13 := g.value.0, g.value.1;
      }
    }

    /**
     * `updateScore`: the fixture at `index` of the category gets the score and
     * is posted; the other category is untouched. An index with no fixture
     * makes `updated[index][team]` throw, so nothing changes and nothing is posted.
     */
    method UpdateScore(c: Category, index: int, team: ScoreField, v: int) returns (posted: Option<Match>)
      modifies this
      ensures !(0 <= index < |old(Scores(c))|) ==> posted.None? && u11 == old(u11) && u13 == old(u13)
      ensures 0 <= index < |old(Scores(c))| ==>
        posted == Some(WithScore(old(Scores(c))[index], team, v)) &&
        Scores(c) == old(Scores(c))[index := posted.value]
      ensures c == U11 ==> u13 == old(u13)
      ensures c == U13 ==> u11 == old(u11)
    {
      var updated := Scores(c);
      if !(0 <= index < |updated|) {
        return None;
      }
      var m := WithScore(updated[index], team, v);
      updated := updated[index := m];
      if c == U11 {
        u11 := updated;
      } else {
        u13 := updated;
      }
      return Some(m);
    }

    /**
     * `clearDatabase`: unless the user confirms, nothing happens; otherwise the
     * store is emptied and re-fetched, so both lists become empty.
     */
    method ClearDatabase(confirmed: bool) returns (deleted: bool)
      modifies this
      ensures deleted == confirmed
      ensures confirmed ==> u11 == [] && u13 == []
      ensures !confirmed ==> u11 == old(u11) && u13 == old(u13)
    {
      if !confirmed {
        return false;
      }
      deleted := true;
      FetchData([]);
    }

    /** The table shown for a category. */
    method CalculateRanking(c: Category) returns (r: Option<seq<Ranking.Entry>>)
      ensures r == Ranking.Standings(Scores(c), Teams(c))
    {
      TeamsDistinct(c);
      r := Ranking.CalculateRanking(Scores(c), Teams(c));
    }
  }
}
