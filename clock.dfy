/**
 * Kick-off times. The pages keep a JavaScript `Date`, set it to a time of day and
 * add minutes to it; here a time is the number of minutes since that day's midnight.
 * The label is the `HHhMM` text built from `getHours()` and `getMinutes()`, each
 * rendered with `toString().padStart(2, "0")`.
 */
module Clock {

  const MinutesPerDay: nat := 1440

  /** The decimal digit character of d. */
  function Digit(d: nat): char
    requires d < 10
  {
    (48 + d) as char
  }

  /** The numeric value of a digit character. */
  function DigitValue(c: char): int {
    c as int - 48
  }

  /** `n.toString().padStart(2, "0")` for 0 <= n < 100. */
  function Pad2(n: nat): (r: string)
    requires n < 100
    ensures |r| == 2
  {
    [Digit(n / 10), Digit(n % 10)]
  }

  /** The hour a Date shows: past midnight it rolls into the next day. */
  function Hours(t: nat): nat {
    t / 60 % 24
  }

  /** The minutes a Date shows. */
  function Minutes(t: nat): nat {
    t % 60
  }

  /** The `${h}h${m}` label of the time t. */
  function Label(t: nat): string {
    Pad2(Hours(t)) + (['h'] + Pad2(Minutes(t)))
  }

  /** The template literal's three parts, concatenated left to right, form the label. */
  lemma LabelParts(t: nat)
    ensures Pad2(Hours(t)) + "h" + Pad2(Minutes(t)) == Label(t)
  {
    assert Pad2(Hours(t)) + "h" + Pad2(Minutes(t)) == Pad2(Hours(t)) + ("h" + Pad2(Minutes(t)));
  }

  /** Reads a five-character `HHhMM` label back as minutes since midnight. */
  function ParseLabel(s: string): int
    requires |s| == 5
  {
    (10 * DigitValue(s[0]) + DigitValue(s[1])) * 60 + 10 * DigitValue(s[3]) + DigitValue(s[4])
  }

  /** JavaScript's `<` on strings: lexicographic comparison of the characters. */
  predicate LexLess(a: string, b: string)
    decreases |a|
  {
    if |a| == 0 then |b| > 0
    else if |b| == 0 then false
    else if a[0] < b[0] then true
    else a[0] == b[0] && LexLess(a[1..], b[1..])
  }

  /** A label is two digits, the letter h, and two digits. */
  lemma LabelShape(t: nat)
    ensures |Label(t)| == 5 && Label(t)[2] == 'h'
    ensures forall k :: 0 <= k < 5 && k != 2 ==> '0' <= Label(t)[k] <= '9'
  {
  }

  /** Minute overflow carries into the hour: ten minutes after 10h50 is 11h00. */
  lemma LabelCarry()
    ensures Label(650) == "10h50" && Label(650 + 10) == "11h00"
  {
  }

  lemma DayDecomposition(t: nat)
    ensures Hours(t) * 60 + Minutes(t) == t % MinutesPerDay
  {
    var h := t / 60;
    var m := t % 60;
    assert t == 60 * h + m;
    var q := h / 24;
    var r := h % 24;
    assert h == 24 * q + r;
    assert t == 1440 * q + (60 * r + m);
    assert 0 <= 60 * r + m < 1440;
    ModOfDay(t, q, 60 * r + m);
  }

  /** A time written as whole days plus a remainder within a day has that remainder as its time of day. */
  lemma ModOfDay(t: int, q: int, x: int)
    requires t == MinutesPerDay * q + x && 0 <= x < MinutesPerDay
    ensures t % MinutesPerDay == x
  {
  }

  /** Reading a label back gives the time of day it was made from: minute overflow has carried into the hour. */
  lemma {:induction false} ParseLabelOfLabel(t: nat)
    ensures |Label(t)| == 5 && ParseLabel(Label(t)) == t % MinutesPerDay
  {
    var s := Label(t);
    var h, m := Hours(t), Minutes(t);
    assert s[0] == Digit(h / 10) && s[1] == Digit(h % 10);
    assert s[3] == Digit(m / 10) && s[4] == Digit(m % 10);
    assert 10 * DigitValue(s[0]) + DigitValue(s[1]) == h;
    assert 10 * DigitValue(s[3]) + DigitValue(s[4]) == m;
    DayDecomposition(t);
  }

  /** Two times of day get the same label only if they are the same time of day. */
  lemma LabelInjective(t1: nat, t2: nat)
    requires Label(t1) == Label(t2)
    ensures t1 % MinutesPerDay == t2 % MinutesPerDay
  {
    ParseLabelOfLabel(t1);
    ParseLabelOfLabel(t2);
  }

  /** No string is below itself. */
  lemma {:induction false} LexLessIrreflexive(a: string)
    ensures !LexLess(a, a)
  {
    if |a| > 0 {
      LexLessIrreflexive(a[1..]);
    }
  }

  lemma {:induction false} LexLessTransitive(a: string, b: string, c: string)
    requires LexLess(a, b) && LexLess(b, c)
    ensures LexLess(a, c)
  {
    if |a| > 0 && |b| > 0 && |c| > 0 && a[0] == b[0] && b[0] == c[0] {
      LexLessTransitive(a[1..], b[1..], c[1..]);
    }
  }

  /** A common prefix does not change the comparison. */
  lemma {:induction false} LexLessPrefix(p: string, x: string, y: string)
    requires LexLess(x, y)
    ensures LexLess(p + x, p + y)
  {
    if |p| == 0 {
      assert p + x == x && p + y == y;
    } else {
      assert (p + x)[1..] == p[1..] + x;
      assert (p + y)[1..] == p[1..] + y;
      LexLessPrefix(p[1..], x, y);
    }
  }

  /** Two-digit renderings compare like the numbers they render, whatever follows them. */
  lemma Pad2Less(a: nat, b: nat, x: string, y: string)
    requires a < b < 100
    ensures LexLess(Pad2(a) + x, Pad2(b) + y)
  {
    var s, u := Pad2(a) + x, Pad2(b) + y;
    assert s[0] == Digit(a / 10) && u[0] == Digit(b / 10);
    if a / 10 == b / 10 {
      assert a % 10 < b % 10;
      assert s[1..][0] == Digit(a % 10) && u[1..][0] == Digit(b % 10);
    }
  }

  /** Within a day, an earlier time has a lexicographically smaller label. */
  lemma LabelLess(t1: nat, t2: nat)
    requires t1 < t2 < MinutesPerDay
    ensures LexLess(Label(t1), Label(t2))
  {
    if Hours(t1) < Hours(t2) {
      Pad2Less(Hours(t1), Hours(t2), ['h'] + Pad2(Minutes(t1)), ['h'] + Pad2(Minutes(t2)));
    } else {
      assert Hours(t1) == Hours(t2);
      Pad2Less(Minutes(t1), Minutes(t2), [], []);
      assert Pad2(Minutes(t1)) + [] == Pad2(Minutes(t1));
      assert Pad2(Minutes(t2)) + [] == Pad2(Minutes(t2));
      assert LexLess(['h'] + Pad2(Minutes(t1)), ['h'] + Pad2(Minutes(t2))) by {
        LexLessPrefix(['h'], Pad2(Minutes(t1)), Pad2(Minutes(t2)));
      }
      LexLessPrefix(Pad2(Hours(t1)), ['h'] + Pad2(Minutes(t1)), ['h'] + Pad2(Minutes(t2)));
    }
  }

  /** Label order and time order agree within a day, in both directions. */
  lemma LabelOrder(t1: nat, t2: nat)
    requires t1 < MinutesPerDay && t2 < MinutesPerDay
    ensures LexLess(Label(t1), Label(t2)) <==> t1 < t2
  {
    if t1 < t2 {
      LabelLess(t1, t2);
    } else if t1 == t2 {
      LexLessIrreflexive(Label(t1));
    } else {
      LabelLess(t2, t1);
      if LexLess(Label(t1), Label(t2)) {
        LexLessTransitive(Label(t1), Label(t2), Label(t1));
        LexLessIrreflexive(Label(t1));
      }
    }
  }
}
