/**
 * The administration page: it generates the day's fixtures (a morning round robin
 * per category on two fields, then one afternoon fixture per category), holds the
 * fetched fixtures split by phase, and writes scores back one field at a time.
 */
module AdminPage {
  import opened Common
  import opened Clock
  import opened Text
  import opened RoundRobin
  import opened Fixtures

  const TeamsU11: seq<string> := ["Forges 1", "Forges 2", "Foucarmont 1", "Foucarmont 2"]
  const TeamsU13: seq<string> := ["Forges 1", "Forges 2", "Gournay 1", "Gournay 2"]

  /** The first morning kick-off, 10h00. */
  const MorningStart: nat := 600

  /** Six minutes of play and four of rest between two kick-offs. */
  const SlotMinutes: nat := 10

  // ---- Logos ----

  // `getLogoSrc`: the lower-cased name with `/ .*/` deleted, as a path under /logos.
  function LogoSrc(teamName: string): string {
    "/logos/" + DeleteFromFirstSpace(Lower(teamName)) + ".png"
  }

  /** On a one-line name the logo is the lower-cased first word, which holds no space. */
  lemma LogoSrcFirstWord(teamName: string)
    requires forall k :: 0 <= k < |teamName| ==> !IsLineTerminator(teamName[k])
    ensures LogoSrc(teamName) == "/logos/" + Lower(FirstWord(teamName)) + ".png"
    ensures ' ' !in Lower(FirstWord(teamName))
  {
    var l := Lower(teamName);
    assert forall k :: 0 <= k < |l| ==> !IsLineTerminator(l[k]);
    DeleteFromFirstSpaceOneLine(l);
    IndexOfLower(teamName);
    LowerFacts(teamName);
    match IndexOf(teamName, ' ')
    case None =>
    case Some(p) =>
      assert Lower(teamName)[..p] == Lower(teamName[..p]);
  }

  /** The text before the first space, or all of it. */
  function FirstWord(s: string): (r: string)
    ensures ' ' !in r
    ensures r == s || (|r| < |s| && s[|r|] == ' ' && s[..|r|] == r)
  {
    match IndexOf(s, ' ')
    case None => s
    case Some(p) => s[..p]
  }

  /** Both squads of a club share the club's logo, and so does the club's bare name. */
  lemma LogoSameClub(club: string, squad1: string, squad2: string)
    requires ' ' !in club
    requires forall k :: 0 <= k < |club + " " + squad1| ==> !IsLineTerminator((club + " " + squad1)[k])
    requires forall k :: 0 <= k < |club + " " + squad2| ==> !IsLineTerminator((club + " " + squad2)[k])
    ensures LogoSrc(club + " " + squad1) == LogoSrc(club + " " + squad2) == LogoSrc(club)
  {
    FirstWordOfSquad(club, squad1);
    FirstWordOfSquad(club, squad2);
    LogoSrcFirstWord(club + " " + squad1);
    LogoSrcFirstWord(club + " " + squad2);
    assert forall k :: 0 <= k < |club| ==> club[k] == (club + " " + squad1)[k];
    LogoSrcFirstWord(club);
    assert IndexOf(club, ' ').None?;
  }

  /** Any one-line name that starts "Forges ", "Forges 1" included, shows "/logos/forges.png". */
  lemma LogoOfForgesSquad(name: string)
    requires |name| >= 7 && name[..7] == "Forges "
    requires forall k :: 0 <= k < |name| ==> !IsLineTerminator(name[k])
    ensures LogoSrc(name) == "/logos/forges.png"
  {
    var club, squad := "Forges", name[7..];
    assert name == name[..7] + squad;
    assert name == club + " " + squad;
    FirstWordOfSquad(club, squad);
    LogoSrcFirstWord(name);
    ForgesLogo();
  }

  lemma FirstWordOfSquad(club: string, squad: string)
    requires ' ' !in club
    ensures FirstWord(club + " " + squad) == club
  {
    var s := club + " " + squad;
    assert s[|club|] == ' ' && s[..|club|] == club;
  }

  // ---- The morning round robin ----

  /** The field of the k-th fixture: the fields alternate, starting with field 1. */
  function Field(k: nat): int {
    if k % 2 == 0 then 1 else 2
  }

  /** The kick-off of the k-th fixture: the clock advances after every second fixture. */
  function KickOff(k: nat): nat {
    MorningStart + SlotMinutes * (k / 2)
  }

  /** After fixture k the field toggles, and the clock advances when k + 1 is even. */
  lemma ClockStep(k: nat)
    ensures Field(k + 1) == if Field(k) == 1 then 2 else 1
    ensures KickOff(k + 1) == KickOff(k) + (if (k + 1) % 2 == 0 then SlotMinutes else 0)
  {
    if (k + 1) % 2 == 0 {
      assert (k + 1) / 2 == k / 2 + 1;
    } else {
      assert (k + 1) / 2 == k / 2;
    }
  }

  /** The k-th morning fixture, between the teams at the positions of the pair. */
  function MorningMatch(teams: seq<string>, categorie: string, k: nat, pr: Pair): Match
    requires pr.0 < |teams| && pr.1 < |teams|
  {
    Match(None, categorie, teams[pr.0], teams[pr.1], Some("matin"), Some(Field(k)),
          Some(Label(KickOff(k))), None, None, None, None)
  }

  /** The fixtures for a run of pairs, numbered from 0. */
  function MorningPrefix(teams: seq<string>, categorie: string, ps: seq<Pair>): (r: seq<Match>)
    requires forall k :: 0 <= k < |ps| ==> ps[k].0 < |teams| && ps[k].1 < |teams|
    ensures |r| == |ps|
  {
    seq(|ps|, k requires 0 <= k < |ps| => MorningMatch(teams, categorie, k, ps[k]))
  }

  lemma MorningPrefixSnoc(teams: seq<string>, categorie: string, ps: seq<Pair>, pr: Pair)
    requires forall k :: 0 <= k < |ps| ==> ps[k].0 < |teams| && ps[k].1 < |teams|
    requires pr.0 < |teams| && pr.1 < |teams|
    ensures MorningPrefix(teams, categorie, ps + [pr])
      == MorningPrefix(teams, categorie, ps) + [MorningMatch(teams, categorie, |ps|, pr)]
  {
  }

  /** What `generateMorningMatches(teams, categorie)` returns. */
  function MorningFixtures(teams: seq<string>, categorie: string): (r: seq<Match>)
    ensures |r| == |Pairs(|teams|)|
  {
    MorningPrefix(teams, categorie, Pairs(|teams|))
  }

  /** Where the generator stands after emitting the fixtures of `emitted`. */
  ghost predicate Scheduled(teams: seq<string>, categorie: string, emitted: seq<Pair>,
                            matchs: seq<Match>, terrain: int, horaire: nat)
  {
    (forall k :: 0 <= k < |emitted| ==> emitted[k].0 < |teams| && emitted[k].1 < |teams|) &&
    matchs == MorningPrefix(teams, categorie, emitted) &&
    terrain == Field(|emitted|) && horaire == KickOff(|emitted|)
  }

  /** Emitting one more fixture moves to the other field, and the clock on after every second fixture. */
  lemma ScheduledSnoc(teams: seq<string>, categorie: string, emitted: seq<Pair>,
                      matchs: seq<Match>, terrain: int, horaire: nat, pr: Pair)
    requires Scheduled(teams, categorie, emitted, matchs, terrain, horaire)
    requires pr.0 < |teams| && pr.1 < |teams|
    ensures Scheduled(teams, categorie, emitted + [pr], matchs + [MorningMatch(teams, categorie, |emitted|, pr)],
                      if terrain == 1 then 2 else 1,
                      if (|emitted| + 1) % 2 == 0 then horaire + SlotMinutes else horaire)
  {
    MorningPrefixSnoc(teams, categorie, emitted, pr);
    ClockStep(|emitted|);
  }

  /**
   * One pass of the inner `for (j ...)` loop of `generateMorningMatches`: the
   * fixtures of team i against every later team, with the field toggle and the
   * clock carried through.
   */
  method ScheduleRow(teams: seq<string>, categorie: string, i: nat, matchs0: seq<Match>,
                     terrain0: int, horaire0: nat, ghost emitted0: seq<Pair>)
    returns (matchs: seq<Match>, terrain: int, horaire: nat, ghost emitted: seq<Pair>)
    requires i < |teams|
    requires Scheduled(teams, categorie, emitted0, matchs0, terrain0, horaire0)
    ensures emitted == emitted0 + Row(i, i + 1, |teams|)
    ensures Scheduled(teams, categorie, emitted, matchs, terrain, horaire)
  {
    var n := |teams|;
    matchs, terrain, horaire, emitted := matchs0, terrain0, horaire0, emitted0;
    var matchNumber: nat := |matchs|;
    var j: nat := i + 1;
    while j < n
      invariant i + 1 <= j <= n
      invariant emitted == emitted0 + Row(i, i + 1, j)
      invariant Scheduled(teams, categorie, emitted, matchs, terrain, horaire)
      invariant matchNumber == |emitted|
      decreases n - j
    {
      var h := Pad2(Hours(horaire));
      var m := Pad2(Minutes(horaire));
      var fixture := Match(None, categorie, teams[i], teams[j], Some("matin"), Some(terrain),
                           Some(h + "h" + m), None, None, None, None);
      LabelParts(horaire);
      assert fixture == MorningMatch(teams, categorie, matchNumber, (i, j));
      ScheduledSnoc(teams, categorie, emitted, matchs, terrain, horaire, (i, j));
      matchs := matchs + [fixture];
      RowSnoc(i, i + 1, j);
      emitted := emitted + [(i, j)];
      matchNumber := matchNumber + 1;
      terrain := if terrain == 1 then 2 else 1;
      if matchNumber % 2 == 0 {
        horaire := horaire + SlotMinutes;
      }
      j := j + 1;
    }
  }

  /** `generateMorningMatches`: the outer loop over the roster, starting at 10h00 on field 1. */
  method GenerateMorningMatches(teams: seq<string>, categorie: string) returns (matchs: seq<Match>)
    ensures matchs == MorningFixtures(teams, categorie)
  {
    var n := |teams|;
    matchs := [];
    var horaire: nat := MorningStart;
    var terrain := 1;
    ghost var emitted: seq<Pair> := [];
    var i := 0;
    while i < n
      invariant 0 <= i <= n
      invariant Pairs(n) == emitted + PairsFrom(i, n)
      invariant Scheduled(teams, categorie, emitted, matchs, terrain, horaire)
      decreases n - i
    {
      ghost var before := emitted;
      matchs, terrain, horaire, emitted := ScheduleRow(teams, categorie, i, matchs, terrain, horaire, emitted);
      PairsAdvance(n, i, before, emitted);
      i := i + 1;
    }
    PairsAdvance(n, n, emitted, emitted);
  }

  /** An n-team roster plays n(n-1)/2 morning fixtures: six for each of the two rosters. */
  lemma MorningCount(teams: seq<string>, categorie: string)
    ensures |MorningFixtures(teams, categorie)| == |teams| * (|teams| - 1) / 2
    ensures |MorningFixtures(TeamsU11, categorie)| == 6 && |MorningFixtures(TeamsU13, categorie)| == 6
  {
    PairsCount(|teams|);
    PairsCount(4);
  }

  /**
   * Every morning fixture is an unscored fixture of the category, between two
   * roster positions, the earlier one listed first.
   */
  lemma MorningFixturesWellFormed(teams: seq<string>, categorie: string)
    ensures var fs := MorningFixtures(teams, categorie);
      forall k :: 0 <= k < |fs| ==>
        fs[k].categorie == categorie && fs[k].phase == Some("matin") &&
        fs[k].score1.None? && fs[k].score2.None? &&
        exists a, b :: 0 <= a < b < |teams| && fs[k].equipe1 == teams[a] && fs[k].equipe2 == teams[b]
  {
    var ps := Pairs(|teams|);
    var fs := MorningFixtures(teams, categorie);
    forall k | 0 <= k < |fs|
      ensures exists a, b :: 0 <= a < b < |teams| && fs[k].equipe1 == teams[a] && fs[k].equipe2 == teams[b]
    {
      assert fs[k].equipe1 == teams[ps[k].0] && fs[k].equipe2 == teams[ps[k].1];
    }
  }

  /** Every two roster positions meet in some morning fixture. */
  lemma MorningEveryPairMeets(teams: seq<string>, categorie: string)
    ensures forall a: nat, b: nat :: a < b < |teams| ==> MeetIn(MorningFixtures(teams, categorie), teams[a], teams[b])
  {
    var ps := Pairs(|teams|);
    var fs := MorningFixtures(teams, categorie);
    PairsEnumeration(|teams|);
    forall a: nat, b: nat | a < b < |teams|
      ensures MeetIn(fs, teams[a], teams[b])
    {
      assert (a, b) in ps;
      var k :| 0 <= k < |ps| && ps[k] == (a, b);
      assert fs[k].equipe1 == teams[a] && fs[k].equipe2 == teams[b];
    }
  }

  /** With distinct team names no two morning fixtures repeat a pairing. */
  lemma MorningNoRematch(teams: seq<string>, categorie: string)
    requires Distinct(teams)
    ensures var fs := MorningFixtures(teams, categorie);
      forall k1, k2 :: 0 <= k1 < k2 < |fs| ==> (fs[k1].equipe1, fs[k1].equipe2) != (fs[k2].equipe1, fs[k2].equipe2)
    ensures var fs := MorningFixtures(teams, categorie);
      forall k1, k2 :: 0 <= k1 < |fs| && 0 <= k2 < |fs| ==>
        (fs[k1].equipe1, fs[k1].equipe2) != (fs[k2].equipe2, fs[k2].equipe1)
  {
    var ps := Pairs(|teams|);
    var fs := MorningFixtures(teams, categorie);
    PairsEnumeration(|teams|);
    forall k1, k2 | 0 <= k1 < k2 < |fs|
      ensures (fs[k1].equipe1, fs[k1].equipe2) != (fs[k2].equipe1, fs[k2].equipe2)
    {
      assert ps[k1] != ps[k2];
      if ps[k1].0 != ps[k2].0 {
        assert teams[ps[k1].0] != teams[ps[k2].0];
      } else {
        assert teams[ps[k1].1] != teams[ps[k2].1];
      }
    }
    forall k1, k2 | 0 <= k1 < |fs| && 0 <= k2 < |fs|
      ensures (fs[k1].equipe1, fs[k1].equipe2) != (fs[k2].equipe2, fs[k2].equipe1)
    {
      assert ps[k1].0 < ps[k1].1 && ps[k2].0 < ps[k2].1;
      if ps[k1].0 != ps[k2].1 {
        assert teams[ps[k1].0] != teams[ps[k2].1];
      } else {
        assert teams[ps[k1].1] != teams[ps[k2].0];
      }
    }
  }

  lemma RosterSizeBound(n: nat)
    requires n <= 18
    ensures n * (n - 1) / 2 <= 153
  {
    if n > 0 {
      assert n * (n - 1) <= 18 * (n - 1) <= 18 * 17;
    }
  }

  /**
   * The timetable: fixtures 2m and 2m+1 kick off together, on fields 1 and 2, and
   * no other two fixtures share a kick-off. Up to 18 teams every kick-off is before
   * midnight, so the labels also increase strictly from one pair of fixtures to the next.
   */
  lemma MorningTimetable(teams: seq<string>, categorie: string)
    requires |teams| <= 18
    ensures var fs := MorningFixtures(teams, categorie);
      forall k :: 0 <= k < |fs| ==> fs[k].terrain == Some(if k % 2 == 0 then 1 else 2)
    ensures var fs := MorningFixtures(teams, categorie);
      forall k1, k2 :: 0 <= k1 < k2 < |fs| ==> (fs[k1].heure == fs[k2].heure <==> k1 % 2 == 0 && k2 == k1 + 1)
    ensures var fs := MorningFixtures(teams, categorie);
      forall k1, k2 :: 0 <= k1 < k2 < |fs| && k1 / 2 < k2 / 2 ==> LexLess(fs[k1].heure.value, fs[k2].heure.value)
    ensures var fs := MorningFixtures(teams, categorie);
      forall k1, k2 :: 0 <= k1 < k2 < |fs| ==> fs[k1].terrain != fs[k2].terrain || fs[k1].heure != fs[k2].heure
  {
    var fs := MorningFixtures(teams, categorie);
    PairsCount(|teams|);
    RosterSizeBound(|teams|);
    assert |fs| <= 153;
    forall k1, k2 | 0 <= k1 < k2 < |fs|
      ensures fs[k1].heure == fs[k2].heure <==> k1 % 2 == 0 && k2 == k1 + 1
      ensures k1 / 2 < k2 / 2 ==> LexLess(fs[k1].heure.value, fs[k2].heure.value)
    {
      assert fs[k1].heure == Some(Label(KickOff(k1))) && fs[k2].heure == Some(Label(KickOff(k2)));
      KickOffLabels(k1, k2);
    }
  }

  /** Among the first 153 fixtures, two share a label exactly when they are 2m and 2m+1. */
  lemma KickOffLabels(k1: nat, k2: nat)
    requires k1 < k2 < 153
    ensures Label(KickOff(k1)) == Label(KickOff(k2)) <==> k1 % 2 == 0 && k2 == k1 + 1
    ensures k1 / 2 < k2 / 2 ==> LexLess(Label(KickOff(k1)), Label(KickOff(k2)))
  {
    assert KickOff(k2) < MinutesPerDay;
    LabelOrder(KickOff(k1), KickOff(k2));
    if k1 / 2 < k2 / 2 {
      LexLessIrreflexive(Label(KickOff(k1)));
    }
  }

  /**
   * With three or more teams the first kick-off holds (0,1) and (0,2), so the
   * roster's first team is scheduled on both fields at once.
   */
  lemma MorningFirstTeamDoubleBooked(teams: seq<string>, categorie: string)
    requires |teams| >= 3
    ensures var fs := MorningFixtures(teams, categorie);
      |fs| >= 2 && fs[0].equipe1 == teams[0] && fs[1].equipe1 == teams[0] &&
      fs[0].heure == fs[1].heure == Some("10h00") && fs[0].terrain != fs[1].terrain
  {
    var n := |teams|;
    assert Row(0, 1, n)[0] == (0, 1) && Row(0, 1, n)[1] == (0, 2);
    assert Pairs(n)[0] == (0, 1) && Pairs(n)[1] == (0, 2);
    assert Label(600) == "10h00";
  }

  /** The U11 morning as generated. */
  lemma MorningU11Example()
    ensures var fs := MorningFixtures(TeamsU11, "U11");
      |fs| == 6 &&
      [fs[0].heure, fs[1].heure, fs[2].heure, fs[3].heure, fs[4].heure, fs[5].heure]
        == [Some("10h00"), Some("10h00"), Some("10h10"), Some("10h10"), Some("10h20"), Some("10h20")] &&
      [fs[0].terrain, fs[1].terrain, fs[2].terrain, fs[3].terrain, fs[4].terrain, fs[5].terrain]
        == [Some(1), Some(2), Some(1), Some(2), Some(1), Some(2)] &&
      (fs[0].equipe1, fs[0].equipe2) == ("Forges 1", "Forges 2") &&
      (fs[5].equipe1, fs[5].equipe2) == ("Foucarmont 1", "Foucarmont 2")
  {
    PairsOfFour();
    FirstKickOffs();
  }

  /** The first three kick-offs of the morning. */
  lemma FirstKickOffs()
    ensures Label(KickOff(0)) == "10h00" && Label(KickOff(2)) == "10h10" && Label(KickOff(4)) == "10h20"
  {
    assert Label(600) == "10h00" && Label(610) == "10h10" && Label(620) == "10h20";
  }

  // ---- The afternoon and the whole day ----

  /** One afternoon fixture: a single field, no field number, halves and scores empty. */
  function AfternoonMatch(categorie: string, e1: string, e2: string, heure: string): Match {
    Match(None, categorie, e1, e2, Some("apresmidi"), None, Some(heure), None, None, None, None)
  }

  /** `getAfternoonMatches()`: U11 at 14h00 and then U13 at 15h00. */
  const AfternoonMatches: seq<Match> := [
    AfternoonMatch("U11", "Forges", "Foucarmont", "14h00"),
    AfternoonMatch("U13", "Forges", "Gournay", "15h00")
  ]

  /** The bodies `generateAllMatches` posts, in order, after emptying the store; nothing when not confirmed. */
  function AllMatches(confirmed: bool): seq<Match> {
    if confirmed then MorningFixtures(TeamsU11, "U11") + MorningFixtures(TeamsU13, "U13") + AfternoonMatches else []
  }

  /** The phase filters of `fetchData`. */
  predicate IsMorning(m: Match) {
    m.phase == Some("matin")
  }

  predicate IsAfternoon(m: Match) {
    m.phase == Some("apresmidi")
  }

  predicate HasKnownPhase(m: Match) {
    IsMorning(m) || IsAfternoon(m)
  }

  /** What `fetchData` stores in `scoresMatin` and `scoresAprem`. */
  function PartitionByPhase(data: seq<Match>): (seq<Match>, seq<Match>) {
    (Filter(IsMorning, data), Filter(IsAfternoon, data))
  }

  /** The two tabs hold exactly the records of a known phase, once each; the rest is not shown. */
  lemma {:induction false} PartitionByPhaseFacts(data: seq<Match>)
    ensures multiset(PartitionByPhase(data).0) + multiset(PartitionByPhase(data).1) == multiset(Filter(HasKnownPhase, data))
    ensures forall m :: m in PartitionByPhase(data).0 ==> m.phase == Some("matin")
    ensures forall m :: m in PartitionByPhase(data).1 ==> m.phase == Some("apresmidi")
  {
    if data != [] {
      PartitionByPhaseFacts(data[1..]);
    }
  }

  /** A confirmed generation posts 6 + 6 + 2 bodies, none of them scored; an unconfirmed one posts nothing. */
  lemma AllMatchesShape()
    ensures |AllMatches(true)| == 14 && AllMatches(false) == []
    ensures forall m :: m in AllMatches(true) ==> m.score1.None? && m.score2.None?
  {
    var mu11, mu13 := MorningFixtures(TeamsU11, "U11"), MorningFixtures(TeamsU13, "U13");
    MorningCount(TeamsU11, "U11");
    MorningFixturesWellFormed(TeamsU11, "U11");
    MorningFixturesWellFormed(TeamsU13, "U13");
    forall m | m in AllMatches(true) ensures m.score1.None? && m.score2.None? {
      if m in mu11 {
        var k :| 0 <= k < |mu11| && mu11[k] == m;
      } else if m in mu13 {
        var k :| 0 <= k < |mu13| && mu13[k] == m;
      }
    }
  }

  /** Morning fixtures followed by afternoon fixtures split back into the two runs. */
  lemma PhaseSplit(morning: seq<Match>, afternoon: seq<Match>)
    requires forall k :: 0 <= k < |morning| ==> IsMorning(morning[k])
    requires forall k :: 0 <= k < |afternoon| ==> IsAfternoon(afternoon[k])
    ensures PartitionByPhase(morning + afternoon) == (morning, afternoon)
  {
    assert |"matin"| != |"apresmidi"|;
    assert forall k :: 0 <= k < |morning| ==> !IsAfternoon(morning[k]);
    assert forall k :: 0 <= k < |afternoon| ==> !IsMorning(afternoon[k]);
    FilterConcat(IsMorning, morning, afternoon);
    FilterConcat(IsAfternoon, morning, afternoon);
    FilterAll(IsMorning, morning);
    FilterNone(IsAfternoon, morning);
    FilterNone(IsMorning, afternoon);
    FilterAll(IsAfternoon, afternoon);
    assert morning + [] == morning && [] + afternoon == afternoon;
  }

  /** Fetched back, the generated bodies fill the morning tab with the 12 round-robin fixtures and the afternoon tab with the 2 others. */
  lemma AllMatchesPhases()
    ensures PartitionByPhase(AllMatches(true)) ==
      (MorningFixtures(TeamsU11, "U11") + MorningFixtures(TeamsU13, "U13"), AfternoonMatches)
  {
    var morning := MorningFixtures(TeamsU11, "U11") + MorningFixtures(TeamsU13, "U13");
    MorningFixturesWellFormed(TeamsU11, "U11");
    MorningFixturesWellFormed(TeamsU13, "U13");
    assert forall k :: 0 <= k < |morning| ==> IsMorning(morning[k]);
    assert forall k :: 0 <= k < |AfternoonMatches| ==> IsAfternoon(AfternoonMatches[k]);
    PhaseSplit(morning, AfternoonMatches);
  }

  /** `generateAllMatches`: emptied-store flag and the bodies posted, in order. */
  method GenerateAllMatches(confirmed: bool) returns (emptied: bool, posted: seq<Match>)
    ensures emptied == confirmed
    ensures posted == AllMatches(confirmed)
  {
    if !confirmed {
      return false, [];
    }
    emptied := true;
    var u11 := GenerateMorningMatches(TeamsU11, "U11");
    var u13 := GenerateMorningMatches(TeamsU13, "U13");
    posted := u11 + u13 + AfternoonMatches;
  }

  // ---- Score entry ----

  /** The first record whose id is `id`: `find((m) => m.id === id)`. */
  function FindById(s: seq<Match>, id: int): (r: Option<nat>)
    ensures r.None? <==> forall k :: 0 <= k < |s| ==> s[k].id != Some(id)
    ensures r.Some? ==> r.value < |s| && s[r.value].id == Some(id)
    ensures r.Some? ==> forall k :: 0 <= k < r.value ==> s[k].id != Some(id)
  {
    if s == [] then None
    else if s[0].id == Some(id) then Some(0)
    else match FindById(s[1..], id)
      case None => None
      case Some(k) => Some(k + 1)
  }

  /** The two half-time fields an afternoon input writes to. */
  datatype HalfField = MiTemps1 | MiTemps2

  function WithHalf(m: Match, field: HalfField, v: int): Match {
    match field
    case MiTemps1 => m.(miTemps1 := Some(v))
    case MiTemps2 => m.(miTemps2 := Some(v))
  }

  /**
   * The total the afternoon handler stores as written: `+` binds tighter than
   * `??`, so it reads `(miTemps1 ?? (0 + miTemps2)) ?? 0`; an absent half counts as `null`, for
   * which `0 + null` is 0.
   */
  function AfternoonTotalAsWritten(m: Match): int {
    m.miTemps1.GetOr(m.miTemps2.GetOr(0))
  }

  /** The total the afternoon tab displays: `(miTemps1 ?? 0) + (miTemps2 ?? 0)`. */
  function DisplayedTotal(m: Match): int {
    m.miTemps1.GetOr(0) + m.miTemps2.GetOr(0)
  }

  /** The stored total agrees with the displayed one exactly when the first half is empty or the second scoreless. */
  lemma AfternoonTotalAsWrittenDisagrees(m: Match)
    ensures AfternoonTotalAsWritten(m) == DisplayedTotal(m) <==> m.miTemps1.None? || m.miTemps2.GetOr(0) == 0
  {
  }

  /** Halves of 3 and 4 store 3 while the tab shows 7. */
  lemma AfternoonTotalCounterexample()
    ensures var m := AfternoonMatch("U11", "Forges", "Foucarmont", "14h00").(miTemps1 := Some(3), miTemps2 := Some(4));
      AfternoonTotalAsWritten(m) == 3 && DisplayedTotal(m) == 7
  {
  }

  /** The intended total, `(miTemps1 ?? 0) + (miTemps2 ?? 0)`. */
  function AfternoonTotal(m: Match): (r: int)
    ensures r == DisplayedTotal(m)
    ensures m.miTemps1.Some? && m.miTemps2.Some? ==> r == m.miTemps1.value + m.miTemps2.value
    ensures m.miTemps2.None? ==> r == m.miTemps1.GetOr(0)
    ensures m.miTemps1.None? ==> r == m.miTemps2.GetOr(0)
  {
    (if m.miTemps1.Some? then m.miTemps1.value else 0) + (if m.miTemps2.Some? then m.miTemps2.value else 0)
  }

  /** Entering a half stores it plus the other half, an empty other half counting 0. */
  lemma AfternoonTotalMatchesDisplay(m: Match, field: HalfField, v: int)
    ensures field == MiTemps1 ==> AfternoonTotal(WithHalf(m, field, v)) == v + m.miTemps2.GetOr(0)
    ensures field == MiTemps2 ==> AfternoonTotal(WithHalf(m, field, v)) == m.miTemps1.GetOr(0) + v
  {
  }

  /** The page state: the fixtures of each tab as last fetched. */
  class AdminBoard {
    var scoresMatin: seq<Match>
    var scoresAprem: seq<Match>

    constructor()
      ensures scoresMatin == [] && scoresAprem == []
    {
      scoresMatin := [];
      scoresAprem := [];
    }

    /** A successful `fetchData`: each tab receives the records of its phase, in order. */
    method ApplyFetch(data: seq<Match>)
      modifies this
      ensures (scoresMatin, scoresAprem) == PartitionByPhase(data)
    {
      scoresMatin := Filter(IsMorning, data);
      scoresAprem := Filter(IsAfternoon, data);
    }

    /**
     * `generateAllMatches` followed by its `fetchData`, for a store that after the
     * DELETE holds exactly the bodies posted: the morning tab receives the twelve
     * round-robin fixtures and the afternoon tab the two others. Without
     * confirmation nothing changes.
     */
    method GenerateAll(confirmed: bool) returns (posted: seq<Match>)
      modifies this
      ensures posted == AllMatches(confirmed)
      ensures confirmed ==> scoresMatin == MorningFixtures(TeamsU11, "U11") + MorningFixtures(TeamsU13, "U13")
      ensures confirmed ==> scoresAprem == AfternoonMatches
      ensures !confirmed ==> scoresMatin == old(scoresMatin) && scoresAprem == old(scoresAprem)
    {
      var emptied;
      emptied, posted := GenerateAllMatches(confirmed);
      if emptied {
        ApplyFetch(posted);
        AllMatchesPhases();
      }
    }

    /**
     * The clear button: unless the user confirms nothing happens; otherwise the
     * store is emptied and re-fetched, so both tabs become empty.
     */
    method ClearDatabase(confirmed: bool) returns (deleted: bool)
      modifies this
      ensures deleted == confirmed
      ensures confirmed ==> scoresMatin == [] && scoresAprem == []
      ensures !confirmed ==> scoresMatin == old(scoresMatin) && scoresAprem == old(scoresAprem)
    {
      if !confirmed {
        return false;
      }
      deleted := true;
      ApplyFetch([]);
    }

    /**
     * `updateScoreMatin`: an unknown id changes nothing and posts nothing; otherwise
     * the first record with that id gets the score in place and is posted.
     */
    method UpdateScoreMatin(matchId: int, team: ScoreField, v: int) returns (posted: Option<Match>)
      modifies this
      ensures scoresAprem == old(scoresAprem)
      ensures FindById(old(scoresMatin), matchId).None? ==> posted.None? && scoresMatin == old(scoresMatin)
      ensures FindById(old(scoresMatin), matchId).Some? ==>
        var k := FindById(old(scoresMatin), matchId).value;
        posted == Some(WithScore(old(scoresMatin)[k], team, v)) &&
        scoresMatin == old(scoresMatin)[k := posted.value]
    {
      var found := FindById(scoresMatin, matchId);
      if found.None? {
        return None;
      }
      var k := found.value;
      var m := WithScore(scoresMatin[k], team, v);
      scoresMatin := scoresMatin[k := m];
      return Some(m);
    }

    /**
     * `updateScoreAprem`: like the morning handler, but it sets a half and then
     * stores the total of both halves into `score1`, with the corrected sum
     * rather than the one the source writes.
     */
    method UpdateScoreAprem(matchId: int, field: HalfField, v: int) returns (posted: Option<Match>)
      modifies this
      ensures scoresMatin == old(scoresMatin)
      ensures FindById(old(scoresAprem), matchId).None? ==> posted.None? && scoresAprem == old(scoresAprem)
      ensures FindById(old(scoresAprem), matchId).Some? ==>
        var k := FindById(old(scoresAprem), matchId).value;
        var m := WithHalf(old(scoresAprem)[k], field, v);
        posted == Some(m.(score1 := Some(AfternoonTotal(m)))) &&
        scoresAprem == old(scoresAprem)[k := posted.value]
    {
      var found := FindById(scoresAprem, matchId);
      if found.None? {
        return None;
      }
      var k := found.value;
      var m := WithHalf(scoresAprem[k], field, v);
      m := m.(score1 := Some(AfternoonTotal(m)));
      scoresAprem := scoresAprem[k := m];
      return Some(m);
    }
  }
}
