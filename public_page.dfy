/**
 * The public results page: the fixtures fetched and grouped by category, a
 * league table per category, and kick-off times dealt from one shared timetable.
 */
module PublicPage {
  import opened Common
  import opened Clock
  import opened Text
  import opened Fixtures
  import Ranking
  import RankingLaws

  function Roster(c: Category): seq<string> {
    match c
    case U11 => ["U11 Forges", "U11 Aumale", "U11 Foucarmont"]
    case U13 => ["U13 Forges", "U13 Aumale", "U13 Gournay"]
  }

  lemma RosterDistinct(c: Category)
    ensures Distinct(Roster(c))
  {
    assert "U11 Forges"[4] != "U11 Aumale"[4] && "U11 Forges"[4] != "U11 Foucarmont"[5];
    assert "U11 Aumale"[4] != "U11 Foucarmont"[4];
    assert "U13 Forges"[4] != "U13 Aumale"[4] && "U13 Forges"[4] != "U13 Gournay"[4];
    assert "U13 Aumale"[4] != "U13 Gournay"[4];
  }

  /** Every roster name starts with its category, so with `U`. */
  lemma RosterInitial(c: Category, name: string)
    requires name in Roster(c)
    ensures |name| > 0 && name[0] == 'U'
  {
    assert "U11 Forges"[0] == "U11 Aumale"[0] == "U11 Foucarmont"[0] == 'U';
    assert "U13 Forges"[0] == "U13 Aumale"[0] == "U13 Gournay"[0] == 'U';
  }

  /**
   * A scored fixture naming a team outside these rosters makes the table fail,
   * as `points[name].played++` throws. The administration page names its teams
   * without the category (`Forges 1`), so one such fixture scored is enough.
   */
  lemma ForeignTeamFailsTable(ms: seq<Match>, c: Category, k: nat)
    requires k < |ms| && Ranking.Scored(ms[k])
    requires |ms[k].equipe1| > 0 && ms[k].equipe1[0] != 'U'
    ensures Ranking.Standings(ms, Roster(c)).None?
  {
    if ms[k].equipe1 in Roster(c) {
      RosterInitial(c, ms[k].equipe1);
    }
    RankingLaws.RankingFails(ms, Roster(c));
  }

  // ---- Logos ----

  /** `getLogoSrc`: the words after the first, joined by '-', lower-cased, as a path under /logos. */
  function LogoSrc(teamName: string): string {
    "/logos/" + Lower(Join(Split(teamName, ' ')[1..], '-')) + ".png"
  }

  /** The text after the first space, or nothing when there is none. */
  function AfterFirstWord(s: string): (r: string)
    ensures |r| < |s| || r == s == []
  {
    match IndexOf(s, ' ')
    case None => []
    case Some(p) => s[p + 1..]
  }

  /**
   * The club part of the path is the text after the first space with every
   * further space turned into '-', lower-cased; a name without a space gives
   * the empty club name.
   */
  lemma LogoSrcClub(teamName: string)
    ensures LogoSrc(teamName) == "/logos/" + Lower(ReplaceChar(AfterFirstWord(teamName), ' ', '-')) + ".png"
    ensures ' ' !in teamName ==> LogoSrc(teamName) == "/logos/.png"
  {
    match IndexOf(teamName, ' ')
    case None =>
      assert Split(teamName, ' ')[1..] == [];
      assert ReplaceChar([], ' ', '-') == [];
    case Some(p) =>
      var rest := teamName[p + 1..];
      assert Split(teamName, ' ') == [teamName[..p]] + Split(rest, ' ');
      assert Split(teamName, ' ')[1..] == Split(rest, ' ');
      JoinSplit(rest, ' ', '-');
  }

  /** A category prefix and a one-word club give the club's logo. */
  lemma LogoSrcOfRosterName(prefix: string, club: string)
    requires ' ' !in prefix && ' ' !in club
    ensures LogoSrc(prefix + " " + club) == "/logos/" + Lower(club) + ".png"
  {
    var s := prefix + " " + club;
    assert s[|prefix|] == ' ' && s[..|prefix|] == prefix;
    assert IndexOf(s, ' ') == Some(|prefix|);
    assert s[|prefix| + 1..] == club;
    LogoSrcClub(s);
    assert ReplaceChar(club, ' ', '-') == club;
  }

  /** Under any one-word category prefix, "U11 Forges" included, the club Forges shows "/logos/forges.png". */
  lemma LogoOfForges(prefix: string)
    requires ' ' !in prefix
    ensures LogoSrc(prefix + " Forges") == "/logos/forges.png"
  {
    var club := "Forges";
    var name := prefix + " " + club;
    assert name == prefix + " Forges";
    LogoSrcOfRosterName(prefix, club);
    ForgesLogo();
  }

  // ---- The timetable ----

  /** The first kick-off, 9h30. */
  const ScheduleStart: nat := 570

  /** Ten minutes of play and five of rest. */
  const ScheduleStep: nat := 15

  /** `generateMatchSchedule(n)`: n kick-offs, 15 minutes apart from 9h30. */
  function Schedule(n: nat): (r: seq<string>)
    ensures |r| == n
  {
    seq(n, k requires 0 <= k < n => Label(ScheduleStart + ScheduleStep * k))
  }

  /** `generateMatchSchedule`: a clock advanced by 15 minutes after each label. */
  method GenerateMatchSchedule(totalMatches: nat) returns (horaires: seq<string>)
    ensures horaires == Schedule(totalMatches)
  {
    horaires := [];
    var start: nat := ScheduleStart;
    for i := 0 to totalMatches
      invariant start == ScheduleStart + ScheduleStep * i
      invariant horaires == Schedule(i)
    {
      var h := Pad2(Hours(start));
      var m := Pad2(Minutes(start));
      LabelParts(start);
      horaires := horaires + [h + "h" + m];
      start := start + ScheduleStep;
    }
  }

  /**
   * Each label reads back as its kick-off time of day; up to 58 kick-offs (the
   * last at 23h45) the labels strictly increase in string order.
   */
  lemma ScheduleIncreasing(n: nat)
    ensures forall k :: 0 <= k < n ==> ParseLabel(Schedule(n)[k]) == (ScheduleStart + ScheduleStep * k) % MinutesPerDay
    ensures n <= 58 ==> forall a, b :: 0 <= a < b < n ==> LexLess(Schedule(n)[a], Schedule(n)[b])
  {
    forall k | 0 <= k < n
      ensures ParseLabel(Schedule(n)[k]) == (ScheduleStart + ScheduleStep * k) % MinutesPerDay
    {
      ScheduleAt(n, k);
      ParseLabelOfLabel(ScheduleStart + ScheduleStep * k);
    }
    if n <= 58 {
      forall a, b | 0 <= a < b < n ensures LexLess(Schedule(n)[a], Schedule(n)[b]) {
        ScheduleAt(n, a);
        ScheduleAt(n, b);
        LabelLess(ScheduleStart + ScheduleStep * a, ScheduleStart + ScheduleStep * b);
      }
    }
  }

  // ---- Dealing the timetable to the two categories ----

  /** Who receives a slot of the shared timetable. */
  datatype Owner = ToU11 | ToU13 | Unused

  /** U11 slots among the first i: the even slots, until n11 are taken. */
  function Count11(i: nat, n11: nat): nat {
    if (i + 1) / 2 < n11 then (i + 1) / 2 else n11
  }

  /** U13 slots among the first i: the others, until n13 are taken. */
  function Count13(i: nat, n11: nat, n13: nat): nat {
    if i - Count11(i, n11) < n13 then i - Count11(i, n11) else n13
  }

  /** The owner of slot i under the loop as written. */
  function SlotOwner(i: nat, n11: nat, n13: nat): Owner {
    if i % 2 == 0 && Count11(i, n11) < n11 then ToU11
    else if Count13(i, n11, n13) < n13 then ToU13
    else Unused
  }

  /** The counts grow by one exactly at the slots each category receives. */
  lemma CountStep(i: nat, n11: nat, n13: nat)
    ensures Count11(i + 1, n11) == Count11(i, n11) + (if SlotOwner(i, n11, n13) == ToU11 then 1 else 0)
    ensures Count13(i + 1, n11, n13) == Count13(i, n11, n13) + (if SlotOwner(i, n11, n13) == ToU13 then 1 else 0)
  {
    if i % 2 == 0 {
      assert (i + 2) / 2 == (i + 1) / 2 + 1;
    } else {
      assert (i + 2) / 2 == (i + 1) / 2;
    }
  }

  /** The slots among the first k that go to `who`, in timetable order. */
  function SlotsOf(full: seq<string>, who: Owner, n11: nat, n13: nat, k: nat): seq<string>
    requires k <= |full|
  {
    if k == 0 then []
    else SlotsOf(full, who, n11, n13, k - 1) + (if SlotOwner(k - 1, n11, n13) == who then [full[k - 1]] else [])
  }

  /** The counts are the list lengths: U11 gets min((k+1)/2, n11) slots, U13 the rest up to n13. */
  lemma {:induction false} SlotsOfLength(full: seq<string>, n11: nat, n13: nat, k: nat)
    requires k <= |full|
    ensures |SlotsOf(full, ToU11, n11, n13, k)| == Count11(k, n11)
    ensures |SlotsOf(full, ToU13, n11, n13, k)| == Count13(k, n11, n13)
  {
    if k > 0 {
      var i := k - 1;
      SlotsOfLength(full, n11, n13, i);
      CountStep(i, n11, n13);
      var o := SlotOwner(i, n11, n13);
      var d11, d13 := if o == ToU11 then 1 else 0, if o == ToU13 then 1 else 0;
      assert Count11(k, n11) == Count11(i, n11) + d11 && Count13(k, n11, n13) == Count13(i, n11, n13) + d13;
      assert |SlotsOf(full, ToU11, n11, n13, k)| == |SlotsOf(full, ToU11, n11, n13, i)| + d11;
      assert |SlotsOf(full, ToU13, n11, n13, k)| == |SlotsOf(full, ToU13, n11, n13, i)| + d13;
    } else {
      assert Count11(0, n11) == 0;
    }
  }

  /** Slot k - 1 joins the list of its owner and no other. */
  lemma SlotsOfUnfold(full: seq<string>, who: Owner, n11: nat, n13: nat, k: nat)
    requires 0 < k <= |full|
    ensures SlotsOf(full, who, n11, n13, k)
      == SlotsOf(full, who, n11, n13, k - 1) + (if SlotOwner(k - 1, n11, n13) == who then [full[k - 1]] else [])
  {
  }

  /** The three lists together take k slots. */
  lemma {:induction false} SlotsOfCover(full: seq<string>, n11: nat, n13: nat, k: nat)
    requires k <= |full|
    ensures |SlotsOf(full, ToU11, n11, n13, k)| + |SlotsOf(full, ToU13, n11, n13, k)|
      + |SlotsOf(full, Unused, n11, n13, k)| == k
  {
    if k > 0 {
      SlotsOfCover(full, n11, n13, k - 1);
    }
  }

  /** Appending x to exactly one of three lists appends it once to their union. */
  lemma AppendToOne(o: Owner, x: string, p11: seq<string>, p13: seq<string>, pun: seq<string>,
                    s11: seq<string>, s13: seq<string>, sun: seq<string>, pre: seq<string>, whole: seq<string>)
    requires s11 == p11 + (if o == ToU11 then [x] else [])
    requires s13 == p13 + (if o == ToU13 then [x] else [])
    requires sun == pun + (if o == Unused then [x] else [])
    requires multiset(p11) + multiset(p13) + multiset(pun) == multiset(pre)
    requires whole == pre + [x]
    ensures multiset(s11) + multiset(s13) + multiset(sun) == multiset(whole)
  {
    match o
    case ToU11 => assert multiset(s11) == multiset(p11) + multiset{x};
    case ToU13 => assert multiset(s13) == multiset(p13) + multiset{x};
    case Unused => assert multiset(sun) == multiset(pun) + multiset{x};
  }

  /**
   * Each of the first k slots goes to exactly one of U11, U13 and nobody: the
   * three lists together are the first k slots, counted with multiplicity.
   */
  lemma {:induction false} SlotsOfPartition(full: seq<string>, n11: nat, n13: nat, k: nat)
    requires k <= |full|
    ensures multiset(SlotsOf(full, ToU11, n11, n13, k)) + multiset(SlotsOf(full, ToU13, n11, n13, k))
      + multiset(SlotsOf(full, Unused, n11, n13, k)) == multiset(full[..k])
  {
    if k > 0 {
      SlotsOfPartition(full, n11, n13, k - 1);
      SlotsOfUnfold(full, ToU11, n11, n13, k);
      SlotsOfUnfold(full, ToU13, n11, n13, k);
      SlotsOfUnfold(full, Unused, n11, n13, k);
      TakeSnoc(full, k);
      AppendToOne(SlotOwner(k - 1, n11, n13), full[k - 1],
        SlotsOf(full, ToU11, n11, n13, k - 1), SlotsOf(full, ToU13, n11, n13, k - 1),
        SlotsOf(full, Unused, n11, n13, k - 1),
        SlotsOf(full, ToU11, n11, n13, k), SlotsOf(full, ToU13, n11, n13, k), SlotsOf(full, Unused, n11, n13, k),
        full[..k - 1], full[..k]);
    }
  }

  /** The first k elements are the first k - 1 and element k - 1. */
  lemma TakeSnoc(full: seq<string>, k: nat)
    requires 0 < k <= |full|
    ensures full[..k] == full[..k - 1] + [full[k - 1]]
  {
  }

  /** The same, counted with multiplicity. */
  lemma PrefixSnoc(full: seq<string>, k: nat)
    requires 0 < k <= |full|
    ensures multiset(full[..k]) == multiset(full[..k - 1]) + multiset{full[k - 1]}
  {
    TakeSnoc(full, k);
  }

  /** Every dealt label comes from the first k slots. */
  lemma {:induction false} SlotsOfFrom(full: seq<string>, who: Owner, n11: nat, n13: nat, k: nat)
    requires k <= |full|
    ensures forall x :: x in SlotsOf(full, who, n11, n13, k) ==> x in full[..k]
  {
    if k > 0 {
      SlotsOfFrom(full, who, n11, n13, k - 1);
      assert full[..k] == full[..k - 1] + [full[k - 1]];
    }
  }

  /** Labels in strictly increasing string order. */
  predicate Increasing(s: seq<string>) {
    forall a, b :: 0 <= a < b < |s| ==> LexLess(s[a], s[b])
  }

  lemma ScheduleAt(n: nat, k: nat)
    requires k < n
    ensures Schedule(n)[k] == Label(ScheduleStart + ScheduleStep * k)
  {
  }

  /** A label among the first k of the day's timetable comes before label k. */
  lemma EarlierSlot(n: nat, x: string, k: nat)
    requires k < n <= 58 && x in Schedule(n)[..k]
    ensures LexLess(x, Schedule(n)[k])
  {
    var i :| 0 <= i < k && Schedule(n)[..k][i] == x;
    var t1, t2 := ScheduleStart + ScheduleStep * i, ScheduleStart + ScheduleStep * k;
    ScheduleAt(n, i);
    ScheduleAt(n, k);
    assert t1 < t2 < MinutesPerDay;
    LabelLess(t1, t2);
  }

  /** Appending the slot k of the day's timetable keeps a list of earlier slots increasing. */
  lemma AppendIncreasing(n: nat, prev: seq<string>, k: nat)
    requires k < n <= 58
    requires Increasing(prev) && forall x :: x in prev ==> x in Schedule(n)[..k]
    ensures Increasing(prev + [Schedule(n)[k]])
  {
    var full := Schedule(n);
    var r := prev + [full[k]];
    forall a | 0 <= a < |prev| ensures LexLess(prev[a], full[k]) {
      EarlierSlot(n, prev[a], k);
    }
    forall a, b | 0 <= a < b < |r| ensures LexLess(r[a], r[b]) {
      if b < |prev| {
        assert r[a] == prev[a] && r[b] == prev[b];
      } else {
        assert r[a] == prev[a] && r[b] == full[k];
      }
    }
  }

  /** Dealt from the day's timetable, each category's kick-offs strictly increase. */
  lemma {:induction false} SlotsOfIncreasing(n: nat, who: Owner, n11: nat, n13: nat, k: nat)
    requires k <= n <= 58
    ensures Increasing(SlotsOf(Schedule(n), who, n11, n13, k))
  {
    if k > 0 {
      var full := Schedule(n);
      SlotsOfIncreasing(n, who, n11, n13, k - 1);
      var prev := SlotsOf(full, who, n11, n13, k - 1);
      if SlotOwner(k - 1, n11, n13) == who {
        SlotsOfFrom(full, who, n11, n13, k - 1);
        AppendIncreasing(n, prev, k - 1);
        assert SlotsOf(full, who, n11, n13, k) == prev + [full[k - 1]];
      } else {
        assert SlotsOf(full, who, n11, n13, k) == prev + [] == prev;
      }
    }
  }

  /** The `for` loop that deals `fullSchedule` to `horairesU11` and `horairesU13`, as written. */
  method DealSlots(fullSchedule: seq<string>, n11: nat, n13: nat) returns (horairesU11: seq<string>, horairesU13: seq<string>)
    requires |fullSchedule| == n11 + n13
    ensures horairesU11 == SlotsOf(fullSchedule, ToU11, n11, n13, n11 + n13)
    ensures horairesU13 == SlotsOf(fullSchedule, ToU13, n11, n13, n11 + n13)
  {
    horairesU11, horairesU13 := [], [];
    var iU11, iU13 := 0, 0;
    for i := 0 to n11 + n13
      invariant horairesU11 == SlotsOf(fullSchedule, ToU11, n11, n13, i)
      invariant horairesU13 == SlotsOf(fullSchedule, ToU13, n11, n13, i)
      invariant iU11 == Count11(i, n11) && iU13 == Count13(i, n11, n13)
    {
      CountStep(i, n11, n13);
      var slot := fullSchedule[i];
      if i % 2 == 0 && iU11 < n11 {
        horairesU11 := horairesU11 + [slot];
        iU11 := iU11 + 1;
      } else if iU13 < n13 {
        horairesU13 := horairesU13 + [slot];
        iU13 := iU13 + 1;
      }
    }
  }

  /**
   * Dealing as written: U13 always receives all its slots, while U11 receives
   * min((n11+n13+1)/2, n11) of them, which is all of them exactly when n11 <= n13 + 1.
   */
  lemma DealAsWrittenCounts(full: seq<string>, n11: nat, n13: nat)
    requires |full| == n11 + n13
    ensures |SlotsOf(full, ToU13, n11, n13, n11 + n13)| == n13
    ensures |SlotsOf(full, ToU11, n11, n13, n11 + n13)| == Count11(n11 + n13, n11)
    ensures |SlotsOf(full, ToU11, n11, n13, n11 + n13)| == n11 <==> n11 <= n13 + 1
  {
    SlotsOfLength(full, n11, n13, n11 + n13);
  }

  /**
   * The whole timetable dealt as written: every slot goes to U11, to U13 or to
   * nobody, and to only one of them.
   */
  lemma DealAsWrittenPartition(full: seq<string>, n11: nat, n13: nat)
    requires |full| == n11 + n13
    ensures multiset(SlotsOf(full, ToU11, n11, n13, n11 + n13)) + multiset(SlotsOf(full, ToU13, n11, n13, n11 + n13))
      + multiset(SlotsOf(full, Unused, n11, n13, n11 + n13)) == multiset(full)
  {
    SlotsOfPartition(full, n11, n13, n11 + n13);
    assert full[..n11 + n13] == full;
  }

  /** Two U11 fixtures and no U13 fixture: the second U11 fixture gets no kick-off. */
  lemma DealAsWrittenCounterexample()
    ensures |SlotsOf(Schedule(2), ToU11, 2, 0, 2)| == 1
  {
    SlotsOfLength(Schedule(2), 2, 0, 2);
  }

  /** The owner of slot i when a slot nobody else can take falls back to U11. */
  function SlotOwnerCorrected(i: nat, c11: nat, c13: nat, n11: nat, n13: nat): (r: Owner)
    ensures r == Unused <==> c11 >= n11 && c13 >= n13
  {
    if i % 2 == 0 && c11 < n11 then ToU11
    else if c13 < n13 then ToU13
    else if c11 < n11 then ToU11
    else Unused
  }

  /** The evidently intended dealing of the first k slots: U11's list and U13's list. */
  function DealCorrected(full: seq<string>, n11: nat, n13: nat, k: nat): (r: (seq<string>, seq<string>))
    requires k <= |full|
  {
    if k == 0 then ([], [])
    else
      var prev := DealCorrected(full, n11, n13, k - 1);
      match SlotOwnerCorrected(k - 1, |prev.0|, |prev.1|, n11, n13)
      case ToU11 => (prev.0 + [full[k - 1]], prev.1)
      case ToU13 => (prev.0, prev.1 + [full[k - 1]])
      case Unused => prev
  }

  /** Up to n11 + n13 slots, every slot goes to a category and neither exceeds its fixture count. */
  lemma {:induction false} DealCorrectedLengths(full: seq<string>, n11: nat, n13: nat, k: nat)
    requires k <= |full| && k <= n11 + n13
    ensures var r := DealCorrected(full, n11, n13, k);
      |r.0| <= n11 && |r.1| <= n13 && |r.0| + |r.1| == k
  {
    if k > 0 {
      DealCorrectedLengths(full, n11, n13, k - 1);
      var prev := DealCorrected(full, n11, n13, k - 1);
      match SlotOwnerCorrected(k - 1, |prev.0|, |prev.1|, n11, n13)
      case ToU11 =>
        assert DealCorrected(full, n11, n13, k) == (prev.0 + [full[k - 1]], prev.1);
      case ToU13 =>
        assert DealCorrected(full, n11, n13, k) == (prev.0, prev.1 + [full[k - 1]]);
      case Unused =>
        assert false;
    }
  }

  /**
   * Up to n11 + n13 slots, every slot goes to exactly one category and neither
   * exceeds its fixture count; the two lists together are the slots dealt.
   */
  lemma {:induction false} DealCorrectedFacts(full: seq<string>, n11: nat, n13: nat, k: nat)
    requires k <= |full| && k <= n11 + n13
    ensures var r := DealCorrected(full, n11, n13, k);
      |r.0| <= n11 && |r.1| <= n13 && |r.0| + |r.1| == k &&
      multiset(r.0) + multiset(r.1) == multiset(full[..k])
  {
    DealCorrectedLengths(full, n11, n13, k);
    DealCorrectedSlots(full, n11, n13, k);
  }

  /** Up to n11 + n13 slots, the two corrected lists together are the slots dealt. */
  lemma {:induction false} DealCorrectedSlots(full: seq<string>, n11: nat, n13: nat, k: nat)
    requires k <= |full| && k <= n11 + n13
    ensures var r := DealCorrected(full, n11, n13, k); multiset(r.0) + multiset(r.1) == multiset(full[..k])
  {
    if k > 0 {
      DealCorrectedSlots(full, n11, n13, k - 1);
      DealCorrectedStep(full, n11, n13, k);
      PrefixSnoc(full, k);
    }
  }

  /** Up to n11 + n13 slots, slot k - 1 joins exactly one of the two corrected lists. */
  lemma DealCorrectedStep(full: seq<string>, n11: nat, n13: nat, k: nat)
    requires 0 < k <= |full| && k <= n11 + n13
    ensures var r, prev := DealCorrected(full, n11, n13, k), DealCorrected(full, n11, n13, k - 1);
      multiset(r.0) + multiset(r.1) == multiset(prev.0) + multiset(prev.1) + multiset{full[k - 1]}
  {
    DealCorrectedLengths(full, n11, n13, k - 1);
    var prev, x := DealCorrected(full, n11, n13, k - 1), full[k - 1];
    match SlotOwnerCorrected(k - 1, |prev.0|, |prev.1|, n11, n13)
    case ToU11 =>
      assert DealCorrected(full, n11, n13, k) == (prev.0 + [x], prev.1);
      assert multiset(prev.0 + [x]) == multiset(prev.0) + multiset{x};
    case ToU13 =>
      assert DealCorrected(full, n11, n13, k) == (prev.0, prev.1 + [x]);
      assert multiset(prev.1 + [x]) == multiset(prev.1) + multiset{x};
    case Unused =>
      assert false;
  }

  /** The whole timetable dealt: each category gets one kick-off per fixture, and every slot is used. */
  lemma DealCorrectedComplete(full: seq<string>, n11: nat, n13: nat)
    requires |full| == n11 + n13
    ensures var r := DealCorrected(full, n11, n13, n11 + n13);
      |r.0| == n11 && |r.1| == n13 && multiset(r.0) + multiset(r.1) == multiset(full)
  {
    DealCorrectedFacts(full, n11, n13, n11 + n13);
    assert full[..n11 + n13] == full;
  }

  /** Dealt from the day's timetable, both corrected lists are in kick-off order. */
  lemma {:induction false} DealCorrectedIncreasing(n: nat, n11: nat, n13: nat, k: nat)
    requires k <= n <= 58
    ensures Increasing(DealCorrected(Schedule(n), n11, n13, k).0)
    ensures Increasing(DealCorrected(Schedule(n), n11, n13, k).1)
    ensures forall x :: x in DealCorrected(Schedule(n), n11, n13, k).0 ==> x in Schedule(n)[..k]
    ensures forall x :: x in DealCorrected(Schedule(n), n11, n13, k).1 ==> x in Schedule(n)[..k]
  {
    if k > 0 {
      var full := Schedule(n);
      DealCorrectedIncreasing(n, n11, n13, k - 1);
      var prev := DealCorrected(full, n11, n13, k - 1);
      assert full[..k] == full[..k - 1] + [full[k - 1]];
      match SlotOwnerCorrected(k - 1, |prev.0|, |prev.1|, n11, n13)
      case ToU11 =>
        AppendIncreasing(n, prev.0, k - 1);
      case ToU13 =>
        AppendIncreasing(n, prev.1, k - 1);
      case Unused =>
    }
  }

  /** Where the as-written loop already deals every slot, the two owners agree slot by slot. */
  lemma OwnerAgrees(i: nat, n11: nat, n13: nat)
    requires n11 <= n13 + 1 && i < n11 + n13
    ensures SlotOwnerCorrected(i, Count11(i, n11), Count13(i, n11, n13), n11, n13) == SlotOwner(i, n11, n13)
  {
  }

  /** The correction changes nothing when U11 has at most one fixture more than U13. */
  lemma {:induction false} DealCorrectedAgrees(full: seq<string>, n11: nat, n13: nat, k: nat)
    requires k <= |full| && k <= n11 + n13 && n11 <= n13 + 1
    ensures DealCorrected(full, n11, n13, k)
      == (SlotsOf(full, ToU11, n11, n13, k), SlotsOf(full, ToU13, n11, n13, k))
  {
    if k > 0 {
      var i := k - 1;
      DealCorrectedAgrees(full, n11, n13, i);
      SlotsOfLength(full, n11, n13, i);
      OwnerAgrees(i, n11, n13);
      DealCorrectedLengths(full, n11, n13, i);
      var prev, x := DealCorrected(full, n11, n13, i), full[i];
      var o := SlotOwner(i, n11, n13);
      assert SlotOwnerCorrected(i, |prev.0|, |prev.1|, n11, n13) == o;
      if o == ToU11 {
        assert DealCorrected(full, n11, n13, k) == (prev.0 + [x], prev.1);
        assert SlotsOf(full, ToU11, n11, n13, k) == prev.0 + [x];
        assert SlotsOf(full, ToU13, n11, n13, k) == prev.1 + [] == prev.1;
      } else if o == ToU13 {
        assert DealCorrected(full, n11, n13, k) == (prev.0, prev.1 + [x]);
        assert SlotsOf(full, ToU11, n11, n13, k) == prev.0 + [] == prev.0;
        assert SlotsOf(full, ToU13, n11, n13, k) == prev.1 + [x];
      } else {
        assert false;
      }
    }
  }

  /**
   * The evidently intended `for` loop: the source's two branches and a final
   * `else if` that gives a slot nobody else can take to U11.
   */
  method DealSlotsCorrected(fullSchedule: seq<string>, n11: nat, n13: nat) returns (horairesU11: seq<string>, horairesU13: seq<string>)
    requires |fullSchedule| == n11 + n13
    ensures (horairesU11, horairesU13) == DealCorrected(fullSchedule, n11, n13, n11 + n13)
  {
    horairesU11, horairesU13 := [], [];
    var iU11, iU13 := 0, 0;
    for i := 0 to n11 + n13
      invariant (horairesU11, horairesU13) == DealCorrected(fullSchedule, n11, n13, i)
      invariant iU11 == |horairesU11| && iU13 == |horairesU13|
    {
      var slot := fullSchedule[i];
      if i % 2 == 0 && iU11 < n11 {
        horairesU11 := horairesU11 + [slot];
        iU11 := iU11 + 1;
      } else if iU13 < n13 {
        horairesU13 := horairesU13 + [slot];
        iU13 := iU13 + 1;
      } else if iU11 < n11 {
        horairesU11 := horairesU11 + [slot];
        iU11 := iU11 + 1;
      }
    }
  }

  // ---- The page ----

  /** The page state: the fetched fixtures of each category. */
  class PublicBoard {
    var u11: seq<Match>
    var u13: seq<Match>

    constructor()
      ensures u11 == [] && u13 == []
    {
      u11 := [];
      u13 := [];
    }

    function Scores(c: Category): seq<Match>
      reads this
    {
      match c
      case U11 => u11
      case U13 => u13
    }

    /** `fetchData`: the grouped records replace the state, unless the grouping throws. */
    method FetchData(data: seq<Match>)
      modifies this
      ensures Grouped(data).None? ==> u11 == old(u11) && u13 == old(u13)
      ensures Grouped(data).Some? ==> (u11, u13) == Grouped(data).value
    {
      var g := GroupByCategory(data);
      if g.Some? {
        u11, u13 := g.value.0, g.value.1;
      }
    }

    /** The table shown for a category. */
    method CalculateRanking(c: Category) returns (r: Option<seq<Ranking.Entry>>)
      ensures r == Ranking.Standings(Scores(c), Roster(c))
    {
      RosterDistinct(c);
      r := Ranking.CalculateRanking(Scores(c), Roster(c));
    }

    /**
     * The kick-off labels shown beside each category's fixtures, dealt with the
     * corrected loop: one label per fixture, every slot of the timetable used once.
     */
    method KickOffs() returns (horairesU11: seq<string>, horairesU13: seq<string>)
      ensures (horairesU11, horairesU13) == DealCorrected(Schedule(|u11| + |u13|), |u11|, |u13|, |u11| + |u13|)
      ensures |horairesU11| == |u11| && |horairesU13| == |u13|
      ensures multiset(horairesU11) + multiset(horairesU13) == multiset(Schedule(|u11| + |u13|))
    {
      var totalMatches := |u11| + |u13|;
      var fullSchedule := GenerateMatchSchedule(totalMatches);
      horairesU11, horairesU13 := DealSlotsCorrected(fullSchedule, |u11|, |u13|);
      DealCorrectedComplete(fullSchedule, |u11|, |u13|);
    }
  }
}
