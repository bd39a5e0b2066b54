// The string operations the logo paths are built from: `toLowerCase`, `split` on a
// one-character separator, `join`, and `replace` with the regular expression `/ .*/`.
module Text {
  import opened Common

  /** `toLowerCase` on one character, for the ASCII and Latin-1 capitals. */
  function LowerChar(c: char): char {
    if 'A' <= c <= 'Z' then (c as int + 32) as char
    else if '\U{C0}' <= c <= '\U{DE}' && c != '\U{D7}' then (c as int + 32) as char
    else c
  }

  /** `s.toLowerCase()`, character by character. */
  function Lower(s: string): (r: string)
    ensures |r| == |s|
  {
    seq(|s|, i requires 0 <= i < |s| => LowerChar(s[i]))
  }

  /** Lower-casing a second time changes nothing, and spaces are exactly where they were. */
  lemma LowerFacts(s: string)
    ensures Lower(Lower(s)) == Lower(s)
    ensures forall i :: 0 <= i < |s| ==> (Lower(s)[i] == ' ' <==> s[i] == ' ')
  {
  }

  /** The Forges club lower-cased, and the logo path the score pages build from it. */
  lemma ForgesLogo()
    ensures Lower("Forges") == "forges"
    ensures "/logos/" + Lower("Forges") + ".png" == "/logos/forges.png"
  {
    assert LowerChar('F') == 'f';
  }

  /** The position of the first c in s, if any. */
  function IndexOf(s: string, c: char): (r: Option<nat>)
    ensures r.None? <==> c !in s
    ensures r.Some? ==> r.value < |s| && s[r.value] == c && c !in s[..r.value]
  {
    if |s| == 0 then None
    else if s[0] == c then Some(0)
    else
      var r := IndexOf(s[1..], c);
      assert s == [s[0]] + s[1..];
      if r.None? then None
      else
        assert s[..r.value + 1] == [s[0]] + s[1..][..r.value];
        Some(r.value + 1)
  }

  /** Lower-casing keeps the first space where it was. */
  lemma {:induction false} IndexOfLower(s: string)
    ensures IndexOf(Lower(s), ' ') == IndexOf(s, ' ')
  {
    LowerFacts(s);
    var l := Lower(s);
    if |s| > 0 && s[0] != ' ' {
      assert Lower(s)[1..] == Lower(s[1..]);
      IndexOfLower(s[1..]);
    }
  }

  /** `s.split(sep)`: the pieces between separators, empty pieces included. */
  function Split(s: string, sep: char): (parts: seq<string>)
    ensures |parts| >= 1
    ensures forall k :: 0 <= k < |parts| ==> sep !in parts[k]
    decreases |s|
  {
    match IndexOf(s, sep)
    case None => [s]
    case Some(i) => [s[..i]] + Split(s[i + 1..], sep)
  }

  /** `parts.join(sep)`. */
  function Join(parts: seq<string>, sep: char): string {
    if |parts| == 0 then ""
    else if |parts| == 1 then parts[0]
    else parts[0] + [sep] + Join(parts[1..], sep)
  }

  /** Every occurrence of `from` replaced by `to`. */
  function ReplaceChar(s: string, from: char, to: char): (r: string)
    ensures |r| == |s|
  {
    seq(|s|, i requires 0 <= i < |s| => if s[i] == from then to else s[i])
  }

  lemma ReplaceCharConcat(a: string, b: string, from: char, to: char)
    ensures ReplaceChar(a + b, from, to) == ReplaceChar(a, from, to) + ReplaceChar(b, from, to)
  {
  }

  /** Splitting at a separator and joining with another replaces the one by the other. */
  lemma {:induction false} JoinSplit(s: string, sep: char, glue: char)
    ensures Join(Split(s, sep), glue) == ReplaceChar(s, sep, glue)
    decreases |s|
  {
    var found := IndexOf(s, sep);
    if found.None? {
      assert Split(s, sep) == [s];
      assert ReplaceChar(s, sep, glue) == s;
    } else {
      var i := found.value;
      var head, rest := s[..i], s[i + 1..];
      var tail := Split(rest, sep);
      calc {
        Join(Split(s, sep), glue);
        == Join([head] + tail, glue);
        == { JoinCons(head, tail, glue); }
        head + [glue] + Join(tail, glue);
        == { JoinSplit(rest, sep, glue); }
        head + [glue] + ReplaceChar(rest, sep, glue);
        == { assert s == head + [sep] + rest; ReplaceAround(head, rest, sep, glue); }
        ReplaceChar(s, sep, glue);
      }
    }
  }

  lemma JoinCons(head: string, tail: seq<string>, glue: char)
    requires |tail| >= 1
    ensures Join([head] + tail, glue) == head + [glue] + Join(tail, glue)
  {
    var parts := [head] + tail;
    assert parts[0] == head && parts[1..] == tail;
  }

  lemma ReplaceAround(head: string, rest: string, sep: char, glue: char)
    requires sep !in head
    ensures ReplaceChar(head + [sep] + rest, sep, glue) == head + [glue] + ReplaceChar(rest, sep, glue)
  {
    ReplaceCharConcat(head + [sep], rest, sep, glue);
    ReplaceCharConcat(head, [sep], sep, glue);
    assert ReplaceChar(head, sep, glue) == head;
    assert ReplaceChar([sep], sep, glue) == [glue];
  }

  /** Splitting and joining with the same separator gives the original string back. */
  lemma JoinSplitRoundTrip(s: string, sep: char)
    ensures Join(Split(s, sep), sep) == s
  {
    JoinSplit(s, sep, sep);
    assert ReplaceChar(s, sep, sep) == s;
  }

  /** The characters at which JavaScript's `.` stops matching. */
  predicate IsLineTerminator(c: char) {
    c == '\n' || c == '\r' || c == '\U{2028}' || c == '\U{2029}'
  }

  /** The length of the longest prefix of s free of line terminators: what a greedy `.*` consumes. */
  function DotStarLength(s: string): (n: nat)
    ensures n <= |s|
    ensures forall k :: 0 <= k < n ==> !IsLineTerminator(s[k])
    ensures n < |s| ==> IsLineTerminator(s[n])
  {
    if |s| == 0 || IsLineTerminator(s[0]) then 0 else 1 + DotStarLength(s[1..])
  }

  // `s.replace(/ .*/, "")`: the first space and the rest of its line are deleted.
  function DeleteFromFirstSpace(s: string): string {
    match IndexOf(s, ' ')
    case None => s
    case Some(p) => s[..p] + s[p + 1 + DotStarLength(s[p + 1..])..]
  }

  /** On one line the deletion keeps exactly the text before the first space, which holds no space. */
  lemma DeleteFromFirstSpaceOneLine(s: string)
    requires forall k :: 0 <= k < |s| ==> !IsLineTerminator(s[k])
    ensures DeleteFromFirstSpace(s) == (match IndexOf(s, ' ') case None => s case Some(p) => s[..p])
    ensures ' ' !in DeleteFromFirstSpace(s)
  {
    match IndexOf(s, ' ')
    case None =>
    case Some(p) =>
      var rest := s[p + 1..];
      assert forall k :: 0 <= k < |rest| ==> !IsLineTerminator(rest[k]);
      assert DotStarLength(rest) == |rest|;
      assert s[p + 1 + |rest|..] == [];
  }
}
