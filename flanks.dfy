/** Flank extractor: cuts, around every difference of the dnadiff report, a window of
    `flankLength` bases each side out of the assembly (first sequence) and out of the
    query (second sequence), and names both fragments `index.refPos`. */
module Flanks {
  import opened Wrappers
  import Numerals

  /** One row of the difference report as `itertuples` yields it: the row index, the
      1-based position in the assembly, the assembly allele, the query allele (either
      allele may be the gap marker "."), and the 1-based position in the query. */
  datatype DiffRow = DiffRow(index: nat, refPos: int, refAllele: string, queryAllele: string, queryPos: int)

  /** A named sequence written to a fragment file. */
  datatype Fragment = Fragment(name: string, bases: string)

  /** How far before `pos - flankLength` the window starts: one base, unless the allele
      on this side is the gap marker. */
  function Lead(allele: string): nat
  {
    if allele == "." then 0 else 1
  }

  /** A slice bound as Python reads it: a negative bound counts from the end, then the
      bound is clamped to [0, n]. */
  function PyBound(n: nat, x: int): (y: nat)
    ensures y <= n
    ensures x >= 0 ==> y == Min(x, n)
  {
    if x < 0 then (if x + n < 0 then 0 else x + n)
    else if x > n then n
    else x
  }

  /** Python's `s[a:b]`. */
  function PySlice(s: string, a: int, b: int): string
  {
    var lo := PyBound(|s|, a);
    var hi := PyBound(|s|, b);
    if lo < hi then s[lo..hi] else []
  }

  /** The fragment exactly as the source cuts it (lines 96-104), negative start and all. */
  function FlankAsWritten(s: string, pos: int, allele: string, flankLength: nat): string
  {
    PySlice(s, pos - flankLength - Lead(allele), pos + flankLength)
  }

  /** A bound clamped to [0, n]: what truncation at the sequence ends means. */
  function Clamp(n: nat, x: int): (y: nat)
    ensures y <= n
  {
    if x < 0 then 0 else if x > n then n else x
  }

  /** The first index of the window in the sequence. */
  function FlankStart(s: string, pos: int, allele: string, flankLength: nat): nat
  {
    Clamp(|s|, pos - flankLength - Lead(allele))
  }

  /** The fragment as intended: the window `[pos - flankLength - lead, pos + flankLength)`
      truncated at both ends of the sequence, never padded. */
  function Flank(s: string, pos: int, allele: string, flankLength: nat): (r: string)
    ensures |r| <= 2 * flankLength + Lead(allele)
    ensures |r| <= |s|
  {
    Slice(s, pos - flankLength - Lead(allele), pos + flankLength)
  }

  /** Away from both ends the fragment is the whole window: 2L+1 bases around a base, or
      2L around a gap. */
  lemma FlankInRange(s: string, pos: int, allele: string, flankLength: nat)
    requires 0 <= pos - flankLength - Lead(allele)
    requires pos + flankLength <= |s|
    ensures Flank(s, pos, allele, flankLength) == s[pos - flankLength - Lead(allele)..pos + flankLength]
    ensures |Flank(s, pos, allele, flankLength)| == 2 * flankLength + Lead(allele)
    ensures allele != "." ==> |Flank(s, pos, allele, flankLength)| == 2 * flankLength + 1
    ensures allele == "." ==> |Flank(s, pos, allele, flankLength)| == 2 * flankLength
  {
  }

  /** Near an end the fragment is truncated, and it always holds the variant's base
      `s[pos - 1]`, at offset `pos - 1 - FlankStart`. */
  lemma FlankHoldsVariant(s: string, pos: int, allele: string, flankLength: nat)
    requires 1 <= pos <= |s|
    requires flankLength >= 1
    ensures var r := Flank(s, pos, allele, flankLength);
            var lo := FlankStart(s, pos, allele, flankLength);
            && |r| == Min(pos + flankLength, |s|) - lo
            && lo <= pos - 1 < lo + |r|
            && r[pos - 1 - lo] == s[pos - 1]
  {
  }

  /** With a non-negative start the source's slice and the intended one agree. */
  lemma FlankAsWrittenAgrees(s: string, pos: int, allele: string, flankLength: nat)
    requires pos - flankLength - Lead(allele) >= 0
    ensures FlankAsWritten(s, pos, allele, flankLength) == Flank(s, pos, allele, flankLength)
  {
  }

  /** Finding: within `flankLength` bases of the start of the sequence, the source's slice
      start is negative and Python wraps it to the end of the sequence, so the fragment
      is empty or starts after the variant: it never holds the variant's base. */
  lemma FlankAsWrittenMissesVariantNearStart(s: string, pos: int, allele: string, flankLength: nat)
    requires 1 <= pos
    requires pos - flankLength - Lead(allele) < 0
    requires pos + flankLength <= |s|
    ensures var r := FlankAsWritten(s, pos, allele, flankLength);
            r == [] || PyBound(|s|, pos - flankLength - Lead(allele)) > pos - 1
  {
  }

  /** The concrete case: a 40-base assembly, a SNP at position 5, flanks of 31. The source
      cuts bases 13..35, which miss the SNP; the intended fragment is bases 0..35. */
  lemma FlankAsWrittenExample(s: string)
    requires |s| == 40
    ensures FlankAsWritten(s, 5, "A", 31) == s[13..36]
    ensures Flank(s, 5, "A", 31) == s[..36]
  {
  }

  /** The fragment name `index.refPos`. */
  function DiffName(row: DiffRow): string
  {
    Numerals.NatToString(row.index) + "." + Numerals.IntToString(row.refPos)
  }

  /** Writes, for every report row, the assembly-side fragment to `out1` and the
      query-side fragment to `out2`, both under the row's name, in report order. */
  method WriteDiffPlusFlanks(rows: seq<DiffRow>, seq1: string, seq2: string, flankLength: nat)
    returns (out1: seq<Fragment>, out2: seq<Fragment>)
    ensures |out1| == |rows| && |out2| == |rows|
    ensures forall k :: 0 <= k < |rows| ==>
              out1[k] == Fragment(DiffName(rows[k]), Flank(seq1, rows[k].refPos, rows[k].refAllele, flankLength))
    ensures forall k :: 0 <= k < |rows| ==>
              out2[k] == Fragment(DiffName(rows[k]), Flank(seq2, rows[k].queryPos, rows[k].queryAllele, flankLength))
  {
    out1, out2 := [], [];
    for k := 0 to |rows|
      invariant out1 == RefFragments(rows[..k], seq1, flankLength)
      invariant out2 == QueryFragments(rows[..k], seq2, flankLength)
    {
      assert rows[..k + 1][..k] == rows[..k];
      var refFragment, queryFragment := CutFragments(rows[k], seq1, seq2, flankLength);
      out1 := out1 + [refFragment];
      out2 := out2 + [queryFragment];
    }
    assert rows[..|rows|] == rows;
    forall k | 0 <= k < |rows|
      ensures out1[k] == RefFragment(rows[k], seq1, flankLength)
      ensures out2[k] == QueryFragment(rows[k], seq2, flankLength)
    {
      RefFragmentAt(rows, seq1, flankLength, k);
      QueryFragmentAt(rows, seq2, flankLength, k);
    }
  }

  /** Fragment k of the assembly-side list is the one cut for report row k. */
  lemma RefFragmentAt(rows: seq<DiffRow>, seq1: string, flankLength: nat, k: nat)
    requires k < |rows|
    ensures RefFragments(rows, seq1, flankLength)[k] == RefFragment(rows[k], seq1, flankLength)
  {
    CutEachAt(rows, row => RefFragment(row, seq1, flankLength), k);
  }

  /** Fragment k of the query-side list is the one cut for report row k. */
  lemma QueryFragmentAt(rows: seq<DiffRow>, seq2: string, flankLength: nat, k: nat)
    requires k < |rows|
    ensures QueryFragments(rows, seq2, flankLength)[k] == QueryFragment(rows[k], seq2, flankLength)
  {
    CutEachAt(rows, row => QueryFragment(row, seq2, flankLength), k);
  }

  /** The fragments `cut` gives for the rows, in order. */
  function CutEach(rows: seq<DiffRow>, cut: DiffRow -> Fragment): (r: seq<Fragment>)
    ensures |r| == |rows|
  {
    if |rows| == 0 then []
    else CutEach(rows[..|rows| - 1], cut) + [cut(rows[|rows| - 1])]
  }

  /** Fragment k of the list is the one cut for row k. */
  lemma {:induction false} CutEachAt(rows: seq<DiffRow>, cut: DiffRow -> Fragment, k: nat)
    requires k < |rows|
    ensures CutEach(rows, cut)[k] == cut(rows[k])
  {
    var init := rows[..|rows| - 1];
    if k < |init| {
      CutEachAt(init, cut, k);
      assert init[k] == rows[k];
    }
  }

  /** The assembly-side fragments of the rows, in order. */
  function RefFragments(rows: seq<DiffRow>, seq1: string, flankLength: nat): (r: seq<Fragment>)
    ensures |r| == |rows|
  {
    CutEach(rows, row => RefFragment(row, seq1, flankLength))
  }

  /** The query-side fragments of the rows, in order. */
  function QueryFragments(rows: seq<DiffRow>, seq2: string, flankLength: nat): (r: seq<Fragment>)
    ensures |r| == |rows|
  {
    CutEach(rows, row => QueryFragment(row, seq2, flankLength))
  }

  /** The assembly-side fragment of a row. */
  function RefFragment(row: DiffRow, seq1: string, flankLength: nat): Fragment
  {
    Fragment(DiffName(row), Flank(seq1, row.refPos, row.refAllele, flankLength))
  }

  /** The query-side fragment of a row. */
  function QueryFragment(row: DiffRow, seq2: string, flankLength: nat): Fragment
  {
    Fragment(DiffName(row), Flank(seq2, row.queryPos, row.queryAllele, flankLength))
  }

  /** The body of the loop over the report: both fragments of one row. */
  method CutFragments(row: DiffRow, seq1: string, seq2: string, flankLength: nat)
    returns (refFragment: Fragment, queryFragment: Fragment)
    ensures refFragment == RefFragment(row, seq1, flankLength)
    ensures queryFragment == QueryFragment(row, seq2, flankLength)
  {
    var name := Numerals.NatToString(row.index) + "." + Numerals.IntToString(row.refPos);
    var bases := CutFlank(seq1, row.refPos, row.refAllele, flankLength);
    refFragment := Fragment(name, bases);
    bases := CutFlank(seq2, row.queryPos, row.queryAllele, flankLength);
    queryFragment := Fragment(name, bases);
  }

  /** Lines 97-100 (and 102-104 for the query side): the window one base wider on the
      left unless the allele is the gap marker. */
  method CutFlank(s: string, pos: int, allele: string, flankLength: nat) returns (bases: string)
    ensures bases == Flank(s, pos, allele, flankLength)
  {
    if allele == "." {
      bases := Slice(s, pos - flankLength, pos + flankLength);
    } else {
      bases := Slice(s, pos - flankLength - 1, pos + flankLength);
    }
  }

  /** The slice `s[a:b]` truncated at the ends of `s`. */
  function Slice(s: string, a: int, b: int): (r: string)
  {
    var lo := Clamp(|s|, a);
    var hi := Clamp(|s|, b);
    if lo < hi then s[lo..hi] else []
  }
}
