/** How the flank extractor and the match judge fit together: the judge looks for the
    variant of a fragment exactly where the extractor put it, except for a fragment cut
    short at the end of its sequence. */
module Pipeline {
  import Flanks
  import Judge

  /** For a single-base difference (the allele is not the gap marker), the window the judge
      computes for a fragment that reaches its full length on the right is the one query
      position holding the variant: when the fragment is whole, whatever the alignment
      start, and when it was cut short at the start of the sequence, since every alignment
      the judge reaches starts within the first five query bases
      (`Judge.ReachedWindowTakesLeftCut`). */
  lemma SnpWindowFindsVariant(s: string, pos: int, allele: string, flankLength: nat, alignmentStart: int)
    requires allele != "."
    requires 1 <= pos <= |s|
    requires pos + flankLength <= |s|
    requires pos - flankLength - 1 < 0 ==> alignmentStart < 5
    ensures var f := Flanks.Flank(s, pos, allele, flankLength);
            var offset := pos - 1 - Flanks.FlankStart(s, pos, allele, flankLength);
            var w := Judge.VariantWindow(|f|, flankLength, alignmentStart);
            && w == Judge.Window(offset, offset)
            && 0 <= offset < |f|
            && f[offset] == s[pos - 1]
  {
    if flankLength >= 1 {
      Flanks.FlankHoldsVariant(s, pos, allele, flankLength);
    }
  }

  /** As written (lines 231-233 for every alignment the judge reaches): a single-base
      fragment cut short at the end of its sequence holds its variant at offset
      `flankLength`, but the judge looks at `|s| - pos`, which lies before it. */
  lemma RightCutWindowMisses(s: string, pos: int, allele: string, flankLength: nat, alignmentStart: int)
    requires allele != "."
    requires 1 <= pos <= |s|
    requires pos - flankLength - 1 >= 0
    requires pos + flankLength > |s|
    requires alignmentStart < 5
    ensures var f := Flanks.Flank(s, pos, allele, flankLength);
            var offset := pos - 1 - Flanks.FlankStart(s, pos, allele, flankLength);
            && offset == flankLength
            && |f| == |s| - pos + flankLength + 1
            && f[offset] == s[pos - 1]
            && Judge.VariantWindow(|f|, flankLength, alignmentStart) == Judge.Window(|s| - pos, |s| - pos)
            && |s| - pos < offset
  {
    Flanks.FlankHoldsVariant(s, pos, allele, flankLength);
  }

  /** A 40-base sequence, a SNP at position 35 and flanks of 10: the fragment is the last
      16 bases, the variant at offset 10, and the judge checks offset 5. */
  lemma RightCutExample(s: string, allele: string, alignmentStart: int)
    requires |s| == 40 && allele != "." && alignmentStart < 5
    ensures Flanks.Flank(s, 35, allele, 10) == s[24..]
    ensures 35 - 1 - Flanks.FlankStart(s, 35, allele, 10) == 10
    ensures Judge.VariantWindow(16, 10, alignmentStart) == Judge.Window(5, 5)
  {
    RightCutWindowMisses(s, 35, allele, 10, alignmentStart);
    assert s[24..40] == s[24..];
  }

  /** The window intended for a query of `queryLength` bases: the variant sits `flankLength`
      bases from the start, unless the query was cut short at the start of its sequence,
      when it sits `flankLength` bases before the end. */
  function IntendedWindow(queryLength: nat, flankLength: nat, leftCut: bool): (w: Judge.Window)
    ensures queryLength >= 2 * flankLength + 1 ==> w == Judge.VariantWindow(queryLength, flankLength, 0)
    ensures leftCut ==> w == Judge.VariantWindow(queryLength, flankLength, 0)
  {
    if queryLength >= 2 * flankLength + 1 then Judge.Window(flankLength, queryLength - flankLength - 1)
    else if leftCut then Judge.Window(queryLength - flankLength - 1, queryLength - flankLength - 1)
    else Judge.Window(flankLength, flankLength)
  }

  /** The intended window is the variant's position in every single-base fragment not cut
      at both ends, given which end was cut. */
  lemma IntendedWindowFindsVariant(s: string, pos: int, allele: string, flankLength: nat)
    requires allele != "."
    requires 1 <= pos <= |s|
    requires pos + flankLength <= |s| || pos - flankLength - 1 >= 0
    ensures var f := Flanks.Flank(s, pos, allele, flankLength);
            var offset := pos - 1 - Flanks.FlankStart(s, pos, allele, flankLength);
            && IntendedWindow(|f|, flankLength, pos - flankLength - 1 < 0) == Judge.Window(offset, offset)
            && 0 <= offset < |f|
            && f[offset] == s[pos - 1]
  {
    if flankLength >= 1 {
      Flanks.FlankHoldsVariant(s, pos, allele, flankLength);
    }
  }
}
