/**
 * The fixture record exchanged with /api/scores and the grouping of fetched
 * records by category that both score pages perform.
 */
module Fixtures {
  import opened Common

  /**
   * A fixture as a JSON object. Fields that are null or missing are None; the
   * persisted field names are kept.
   */
  datatype Match = Match(
    id: Option<int>,
    categorie: string,
    equipe1: string,
    equipe2: string,
    phase: Option<string>,
    terrain: Option<int>,
    heure: Option<string>,
    miTemps1: Option<int>,
    miTemps2: Option<int>,
    score1: Option<int>,
    score2: Option<int>)

  /** The two score fields a score input writes to. */
  datatype ScoreField = Score1 | Score2

  /** `match[team] = v`. */
  function WithScore(m: Match, team: ScoreField, v: int): Match {
    match team
    case Score1 => m.(score1 := Some(v))
    case Score2 => m.(score2 := Some(v))
  }

  /** The keys of the `teams` and `scoresByCat` objects. */
  datatype Category = U11 | U13

  function CategoryName(c: Category): string {
    match c
    case U11 => "U11"
    case U13 => "U13"
  }

  predicate InU11(m: Match) {
    m.categorie == "U11"
  }

  predicate InU13(m: Match) {
    m.categorie == "U13"
  }

  /** Some fixture of fs has e1 listed first against e2. */
  predicate MeetIn(fs: seq<Match>, e1: string, e2: string) {
    exists k :: 0 <= k < |fs| && fs[k].equipe1 == e1 && fs[k].equipe2 == e2
  }

  /** The records of one category, in the order they were fetched. */
  function OfCategory(c: Category, data: seq<Match>): seq<Match> {
    match c
    case U11 => Filter(InU11, data)
    case U13 => Filter(InU13, data)
  }

  /**
   * What `fetchData` stores: for each category its records in fetched order, or
   * None when some record names another category, because then
   * `scoresByCat[match.categorie]` is undefined and the `push` throws before the
   * state is set.
   */
  function Grouped(data: seq<Match>): Option<(seq<Match>, seq<Match>)> {
    if forall k :: 0 <= k < |data| ==> InU11(data[k]) || InU13(data[k])
    then Some((OfCategory(U11, data), OfCategory(U13, data)))
    else None
  }

  /** One more record pushed: onto the U11 list or the U13 list, never both. */
  lemma GroupStep(data: seq<Match>, k: nat)
    requires k < |data|
    ensures InU11(data[k]) ==>
      Filter(InU11, data[..k + 1]) == Filter(InU11, data[..k]) + [data[k]] &&
      Filter(InU13, data[..k + 1]) == Filter(InU13, data[..k])
    ensures InU13(data[k]) ==>
      Filter(InU13, data[..k + 1]) == Filter(InU13, data[..k]) + [data[k]] &&
      Filter(InU11, data[..k + 1]) == Filter(InU11, data[..k])
  {
    FilterSnoc(InU11, data, k);
    FilterSnoc(InU13, data, k);
    assert "U11"[2] != "U13"[2];
  }

  /** The `forEach` loop of `fetchData` that pushes each record onto its category's list. */
  method GroupByCategory(data: seq<Match>) returns (r: Option<(seq<Match>, seq<Match>)>)
    ensures r == Grouped(data)
  {
    var u11: seq<Match> := [];
    var u13: seq<Match> := [];
    for k := 0 to |data|
      invariant u11 == Filter(InU11, data[..k]) && u13 == Filter(InU13, data[..k])
      invariant forall j :: 0 <= j < k ==> InU11(data[j]) || InU13(data[j])
    {
      GroupStep(data, k);
      if InU11(data[k]) {
        u11 := u11 + [data[k]];
      } else if InU13(data[k]) {
        u13 := u13 + [data[k]];
      } else {
        return None;
      }
    }
    assert data[..|data|] == data;
    return Some((u11, u13));
  }

  /**
   * A successful grouping loses and duplicates nothing: the two lists together
   * hold exactly the fetched records, each in the list of its own category.
   */
  lemma GroupedPartition(data: seq<Match>)
    requires Grouped(data).Some?
    ensures multiset(Grouped(data).value.0) + multiset(Grouped(data).value.1) == multiset(data)
    ensures |Grouped(data).value.0| + |Grouped(data).value.1| == |data|
    ensures forall m :: m in Grouped(data).value.0 ==> m.categorie == "U11"
    ensures forall m :: m in Grouped(data).value.1 ==> m.categorie == "U13"
  {
    FilterSplit(InU11, InU13, data);
    FilterMembers(InU11, data);
    FilterMembers(InU13, data);
  }
}
