/** Python's `str.split`, `str.join` and `str.rsplit` with a one-character separator. */
module Strings {

  /** `s.split(sep)`: the pieces between separators, always at least one. */
  function Split(s: string, sep: char): (parts: seq<string>)
    ensures |parts| >= 1
    ensures forall j :: 0 <= j < |parts| ==> sep !in parts[j]
  {
    if |s| == 0 then [""]
    else
      var rest := Split(s[1..], sep);
      if s[0] == sep then [""] + rest
      else [[s[0]] + rest[0]] + rest[1..]
  }

  /** A string without the separator splits into itself alone. */
  lemma {:induction false} SplitWithoutSep(s: string, sep: char)
    requires sep !in s
    ensures Split(s, sep) == [s]
  {
    if |s| > 0 {
      assert sep !in s[1..];
      SplitWithoutSep(s[1..], sep);
      assert [s[0]] + s[1..] == s;
    }
  }

  /** The piece before the first separator comes first; the rest splits on its own. */
  lemma {:induction false} SplitAtFirst(a: string, sep: char, b: string)
    requires sep !in a
    ensures Split(a + [sep] + b, sep) == [a] + Split(b, sep)
  {
    if |a| == 0 {
      assert (a + [sep] + b)[1..] == b;
    } else {
      assert (a + [sep] + b)[1..] == a[1..] + [sep] + b;
      SplitAtFirst(a[1..], sep, b);
      assert [a[0]] + a[1..] == a;
    }
  }

  /** Joining the pieces of a split gives the string back, so with the pieces being free
      of the separator, `Split` is exactly the inverse of `Join`. */
  lemma {:induction false} JoinSplit(s: string, sep: char)
    ensures Join(Split(s, sep), sep) == s
  {
    if |s| > 0 {
      var rest := Split(s[1..], sep);
      JoinSplit(s[1..], sep);
      if s[0] == sep {
        JoinCons("", rest, sep);
      } else {
        JoinPrepend(s[0], rest, sep);
      }
      assert [s[0]] + s[1..] == s;
    }
  }

  /** Joining a first piece before at least one more. */
  lemma {:induction false} JoinCons(a: string, rest: seq<string>, sep: char)
    requires |rest| >= 1
    ensures Join([a] + rest, sep) == a + [sep] + Join(rest, sep)
    decreases |rest|
  {
    var parts := [a] + rest;
    if |rest| > 1 {
      var init := rest[..|rest| - 1];
      assert parts[..|parts| - 1] == [a] + init;
      JoinCons(a, init, sep);
    } else {
      assert parts[..1] == [a];
    }
  }

  /** A character put in front of the first piece comes first in the join. */
  lemma {:induction false} JoinPrepend(c: char, parts: seq<string>, sep: char)
    requires |parts| >= 1
    ensures Join([[c] + parts[0]] + parts[1..], sep) == [c] + Join(parts, sep)
    decreases |parts|
  {
    var moved := [[c] + parts[0]] + parts[1..];
    if |parts| > 1 {
      var init := parts[..|parts| - 1];
      assert moved[..|moved| - 1] == [[c] + init[0]] + init[1..];
      JoinPrepend(c, init, sep);
    }
  }

  /** `sep.join(parts)`. */
  function Join(parts: seq<string>, sep: char): string
  {
    if |parts| == 0 then ""
    else if |parts| == 1 then parts[0]
    else Join(parts[..|parts| - 1], sep) + [sep] + parts[|parts| - 1]
  }

  /** The index of the last occurrence of `c` in `s`. */
  function LastIndexOf(s: string, c: char): (k: nat)
    requires c in s
    ensures k < |s| && s[k] == c
    ensures forall j :: k < j < |s| ==> s[j] != c
  {
    if s[|s| - 1] == c then |s| - 1
    else
      assert c in s[..|s| - 1] by {
        var j :| 0 <= j < |s| && s[j] == c;
        assert s[..|s| - 1][j] == c;
      }
      LastIndexOf(s[..|s| - 1], c)
  }

  /** `s.rsplit(sep, maxsplit)`: splits at the last `maxsplit` separators, so the
      first piece keeps every separator left of them. */
  function RSplit(s: string, sep: char, maxsplit: nat): (parts: seq<string>)
    ensures 1 <= |parts| <= maxsplit + 1
    decreases maxsplit
  {
    if maxsplit == 0 || sep !in s then [s]
    else
      var k := LastIndexOf(s, sep);
      RSplit(s[..k], sep, maxsplit - 1) + [s[k + 1..]]
  }

  /** Joining what `rsplit` gives puts the string back together. */
  lemma {:induction false} JoinRSplit(s: string, sep: char, maxsplit: nat)
    ensures Join(RSplit(s, sep, maxsplit), sep) == s
    decreases maxsplit
  {
    if maxsplit > 0 && sep in s {
      var k := LastIndexOf(s, sep);
      var init := RSplit(s[..k], sep, maxsplit - 1);
      var parts := init + [s[k + 1..]];
      JoinRSplit(s[..k], sep, maxsplit - 1);
      assert parts[..|parts| - 1] == init;
      assert s == s[..k] + [sep] + s[k + 1..];
    }
  }

  /** Every piece of an `rsplit` after the first is free of the separator. */
  lemma {:induction false} RSplitTailFree(s: string, sep: char, maxsplit: nat)
    ensures forall j :: 1 <= j < |RSplit(s, sep, maxsplit)| ==> sep !in RSplit(s, sep, maxsplit)[j]
    decreases maxsplit
  {
    if maxsplit > 0 && sep in s {
      var k := LastIndexOf(s, sep);
      var init := RSplit(s[..k], sep, maxsplit - 1);
      var last := s[k + 1..];
      var parts := init + [last];
      RSplitTailFree(s[..k], sep, maxsplit - 1);
      assert sep !in last by {
        forall i | 0 <= i < |last| ensures last[i] != sep { assert last[i] == s[k + 1 + i]; }
      }
      forall j | 1 <= j < |parts| ensures sep !in parts[j] {
        if j < |init| { assert parts[j] == init[j]; }
      }
    }
  }

  /** The last separator of `x + [sep] + y` is the one after `x` when `y` has none. */
  lemma LastIndexAfterPrefix(x: string, sep: char, y: string)
    requires sep !in y
    ensures sep in x + [sep] + y
    ensures LastIndexOf(x + [sep] + y, sep) == |x|
  {
    var s := x + [sep] + y;
    assert s[|x|] == sep;
    forall j | |x| < j < |s| ensures s[j] != sep {
      assert s[j] == y[j - |x| - 1];
    }
  }

  /** Round trip: splitting a join from the right at `|parts| - 1` separators gives the
      parts back, even when the first part contains the separator, provided the others
      do not. */
  lemma {:induction false} RSplitJoin(parts: seq<string>, sep: char)
    requires |parts| >= 1
    requires forall j :: 1 <= j < |parts| ==> sep !in parts[j]
    ensures RSplit(Join(parts, sep), sep, |parts| - 1) == parts
  {
    if |parts| > 1 {
      var n := |parts|;
      var init := parts[..n - 1];
      var x := Join(init, sep);
      var s := Join(parts, sep);
      assert s == x + [sep] + parts[n - 1];
      RSplitLast(x, sep, parts[n - 1], n - 1);
      RSplitJoin(init, sep);
      assert init + [parts[n - 1]] == parts;
    }
  }

  /** Splitting from the right cuts first at the separator before a last piece free of it. */
  lemma RSplitLast(x: string, sep: char, y: string, maxsplit: nat)
    requires sep !in y && maxsplit >= 1
    ensures RSplit(x + [sep] + y, sep, maxsplit) == RSplit(x, sep, maxsplit - 1) + [y]
  {
    LastIndexAfterPrefix(x, sep, y);
    AroundSeparator(x, sep, y);
  }

  /** The pieces either side of a separator placed between `x` and `y`. */
  lemma AroundSeparator(x: string, sep: char, y: string)
    ensures (x + [sep] + y)[..|x|] == x
    ensures (x + [sep] + y)[|x| + 1..] == y
  {
    var s := x + [sep] + y;
    assert forall i :: 0 <= i < |y| ==> s[|x| + 1 + i] == y[i];
  }
}
