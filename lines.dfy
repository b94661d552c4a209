/**
 * Splitting a text into lines that keep their line feeds, as
 * `t.splitlines(keepends=True)` does for a text whose only line boundary is
 * the line feed, and joining texts back together.
 */
module Lines {

  /** The texts joined back together (`"".join(ls)`). */
  function Join(ls: seq<string>): string {
    if ls == [] then "" else ls[0] + Join(ls[1..])
  }

  lemma {:induction false} JoinSnoc(ls: seq<string>, x: string)
    ensures Join(ls + [x]) == Join(ls) + x
    decreases |ls|
  {
    if ls == [] {
      assert [] + [x] == [x];
    } else {
      assert (ls + [x])[1..] == ls[1..] + [x];
      JoinSnoc(ls[1..], x);
    }
  }

  /** Joining the lines `p[i..e]` is joining `p[i..e-1]` and then `p[e-1]`. */
  lemma JoinSliceSnoc(p: seq<string>, i: nat, e: nat)
    requires i < e <= |p|
    ensures Join(p[i..e]) == Join(p[i..e - 1]) + p[e - 1]
  {
    assert p[i..e] == p[i..e - 1] + [p[e - 1]];
    JoinSnoc(p[i..e - 1], p[e - 1]);
  }

  /** The index just past the line that starts at `i`: past its line feed, or the end of the text. */
  function LineEnd(t: string, i: nat): (e: nat)
    requires i < |t|
    ensures i < e <= |t|
    ensures forall j :: i <= j < e - 1 ==> t[j] != '\n'
    ensures e < |t| ==> t[e - 1] == '\n'
    decreases |t| - i
  {
    if t[i] == '\n' || i + 1 == |t| then i + 1 else LineEnd(t, i + 1)
  }

  function SplitFrom(t: string, i: nat): seq<string>
    requires i <= |t|
    decreases |t| - i
  {
    if i == |t| then [] else [t[i..LineEnd(t, i)]] + SplitFrom(t, LineEnd(t, i))
  }

  /** `t.splitlines(keepends=True)`. */
  function SplitLines(t: string): seq<string> {
    SplitFrom(t, 0)
  }

  /** A piece of the split: not empty, with a line feed at most at its end. */
  ghost predicate IsLine(l: string) {
    l != [] && forall j :: 0 <= j < |l| - 1 ==> l[j] != '\n'
  }

  /** The piece ends with a line feed. */
  predicate EndsLine(l: string) {
    l != [] && l[|l| - 1] == '\n'
  }

  lemma {:induction false} SplitFromJoin(t: string, i: nat)
    requires i <= |t|
    ensures Join(SplitFrom(t, i)) == t[i..]
    ensures forall j :: 0 <= j < |SplitFrom(t, i)| ==> IsLine(SplitFrom(t, i)[j])
    ensures forall j :: 0 <= j < |SplitFrom(t, i)| - 1 ==> EndsLine(SplitFrom(t, i)[j])
    decreases |t| - i
  {
    if i < |t| {
      var e := LineEnd(t, i);
      var rest := SplitFrom(t, e);
      SplitFromJoin(t, e);
      var ls := SplitFrom(t, i);
      assert ls == [t[i..e]] + rest;
      assert ls[1..] == rest;
      assert t[i..] == t[i..e] + t[e..];
      assert IsLine(t[i..e]);
      if e < |t| {
        assert EndsLine(t[i..e]);
      }
    }
  }

  /** Splitting loses nothing, and cuts only just after line feeds: every
      line but the last ends with one, and no line holds one elsewhere. */
  lemma SplitLinesJoin(t: string)
    ensures Join(SplitLines(t)) == t
    ensures forall j :: 0 <= j < |SplitLines(t)| ==> IsLine(SplitLines(t)[j])
    ensures forall j :: 0 <= j < |SplitLines(t)| - 1 ==> EndsLine(SplitLines(t)[j])
  {
    SplitFromJoin(t, 0);
  }

}
