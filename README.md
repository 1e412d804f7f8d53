# Dnadiff mapping-based verifier, modelled in Dafny

minos's dnadiff mapping-based verifier checks called variants against a dnadiff
difference report by matching sequences rather than coordinates:

1. **Flank extractor.** Around every dnadiff difference it cuts `flank_length` bases on
   each side out of both assemblies and names the fragments `index.refPos`.
2. **VCF pre-filter.** It skips VCF records that cannot be clustered. A kept record is
   collapsed to a single ALT with a homozygous GT, and GT_CONF is filled in when absent.
3. **Fragment naming.** Every VCF allele with its flanks is named
   `ref.start.recordIndex.alleleIndex`.
4. **Match judge.** It decides whether a difference's fragment, aligned onto a VCF
   allele's fragment, really matches it. A strict mode needs a perfect alignment. A
   tolerant mode rejects long soft clips, then scans the aligned pairs for the window
   holding the variant and checks that window base by base.
5. **Aggregation.** It judges the first alignment of every fragment and confirms the
   VCF call behind the allele. It records one found flag and one confidence per fragment.
6. **Stats tally.** It counts found and missed differences, plus a histogram of the
   best confidence of the found ones.

The Dafny modules follow these stages:

- `Flanks`, `PreFilter`, `FragmentNames`, `Judge`, `Aggregate` and `Stats` model the
  stages above.
- `Pipeline` connects the flank extractor to the judge's window.
- `Strings` models Python's `split`, `join` and `rsplit`.
- `Numerals` models `int()`, `str()` and the truncation of decimals.
- `Wrappers` holds `Option`, `Result`, `Min` and `Max`.

**How the source's behaviour is represented**

- **Per-record operations are functions.** Each is stated as a function (`FilterRecord`,
  `JudgeMatch`, `RecordOutcome`, `Tally`).
- **In-place updates are a class.** The source updates each VCF record in place, so the
  pre-filter works on a class `VcfRecord` whose methods are proved equal to those
  functions.
- **Loops are methods.** The scan, the per-alignment loop and the tally are methods with
  loop invariants.
- **Exceptions are values.** An exception the source raises is an `Err` value.
- **Files are sequences and maps.** Every file the source reads is given as a sequence of
  rows or records.
- **Alignments are inputs.** The aligner's output is a sequence of alignment records.

## Model

| member | source | states |
|---|---|---|
| Flanks.Flank | minos/dnadiff_mapping_based_verifier.py:96-104 | the fragment is never longer than 2L+1 bases (2L around a gap) nor than the sequence |
| Flanks.FlankInRange | minos/dnadiff_mapping_based_verifier.py:96-104 | away from both ends the fragment is `s[p-L-1:p+L]` (`s[p-L:p+L]` for a gap allele), of length exactly 2L+1 (2L) |
| Flanks.FlankHoldsVariant | minos/dnadiff_mapping_based_verifier.py:96-104 | truncated near an end, the fragment still holds the variant's base at offset `p-1-start`, and its length is what the truncation leaves |
| Flanks.FlankAsWrittenAgrees | minos/dnadiff_mapping_based_verifier.py:96-104 | with a non-negative start, the source's Python slice and the clamped slice agree |
| Flanks.FlankAsWrittenMissesVariantNearStart | minos/dnadiff_mapping_based_verifier.py:99 | as written, a negative start wraps to the end of the sequence, so the fragment is empty or begins after the variant |
| Flanks.FlankAsWrittenExample | minos/dnadiff_mapping_based_verifier.py:99 | on a 40-base sequence with a SNP at 5 and L=31, the source cuts bases 13..35 and the corrected slice cuts 0..35 |
| Flanks.WriteDiffPlusFlanks | minos/dnadiff_mapping_based_verifier.py:91-105 | one fragment per difference and per sequence, in row order, named `index.refPos` and cut with the allele-dependent window |
| Flanks.RefFragmentAt | minos/dnadiff_mapping_based_verifier.py:90-99 | the k-th fragment written to the assembly-side file is the one cut for the k-th report row |
| Flanks.QueryFragmentAt | minos/dnadiff_mapping_based_verifier.py:90-104 | the k-th fragment written to the query-side file is the one cut for the k-th report row |
| Flanks.CutFlank | minos/dnadiff_mapping_based_verifier.py:95-98 | one side's cut is the clamped window `Flank` describes for its allele |
| Flanks.CutFragments | minos/dnadiff_mapping_based_verifier.py:94-104 | the two fragments of one difference, each side's window depending on whether that side's allele is `.` |
| Strings.Split | minos/dnadiff_mapping_based_verifier.py:127 | `split` yields at least one part, and no part contains the separator |
| Strings.JoinSplit | minos/dnadiff_mapping_based_verifier.py:127 | joining the parts of `split` with the separator gives the text back |
| Strings.RSplitJoin | minos/dnadiff_mapping_based_verifier.py:285 | `rsplit(sep, n-1)` of a `join` of n parts gives the parts back when all but the first are free of the separator |
| Strings.JoinRSplit | minos/dnadiff_mapping_based_verifier.py:285 | joining the parts of `rsplit` with the separator gives the text back, whatever the split count |
| Strings.RSplitTailFree | minos/dnadiff_mapping_based_verifier.py:285 | every part of `rsplit` after the first is free of the separator |
| Numerals.ParseNatRoundTrip | minos/dnadiff_mapping_based_verifier.py:176 | reading back the decimal text of a number gives the number |
| Numerals.DecimalTruncRoundTrip | minos/dnadiff_mapping_based_verifier.py:337 | `int(float(str(x)))` is `x` for every integer |
| Numerals.DecimalTruncExamples | minos/dnadiff_mapping_based_verifier.py:154-159 | the truncating decimal reader: "0.75" scaled by 100 is 75, "-4.7" truncates toward zero to -4, "1.2.3" is no number |
| Numerals.DecimalTruncFraction | minos/dnadiff_mapping_based_verifier.py:154-159 | `[-]w.f` read and scaled by `10^k` is `w*10^k` plus the first k digits of `f` (zero-padded), negated for the minus sign: truncation toward zero |
| FragmentNames.DecodeName | minos/dnadiff_mapping_based_verifier.py:285 | a name decodes exactly when `rsplit('.', 3)` yields four parts and each of the last three reads as an integer; otherwise the unpacking or the conversion raises `ValueError` |
| FragmentNames.DecodeJoins | minos/dnadiff_mapping_based_verifier.py:285 | a decoded name is its reference name and three dot-free pieces joined by dots, and the pieces read as the decoded numbers: the converse of `DecodeEncode` |
| FragmentNames.DecodeEncode | minos/dnadiff_mapping_based_verifier.py:285 | decoding a name built at line 176 recovers the reference name (dots and all), the 1-based start, the record index and the allele index |
| FragmentNames.EncodeInjective | minos/dnadiff_mapping_based_verifier.py:176 | distinct alleles get distinct names |
| PreFilter.CalledAllelesSingleton | minos/dnadiff_mapping_based_verifier.py:127-129 | `len(set(genotypes)) == 1` holds exactly when all alleles are equal, and the set is `{'0'}` exactly when that allele is 0 |
| PreFilter.PyIndex | minos/dnadiff_mapping_based_verifier.py:136 | Python indexing succeeds exactly for `-len <= k < len`; a non-negative index picks `s[k]` and a negative one counts from the end, `s[len+k]` |
| PreFilter.EmitRequires | minos/dnadiff_mapping_based_verifier.py:118-130 | an emitted record was not MISMAPPED_UNPLACEABLE, had GT, a real REF, one called allele that is not `.`, and is no ref call when ref calls are discarded |
| PreFilter.EmittedIsNormalised | minos/dnadiff_mapping_based_verifier.py:118-148 | every emitted record has one ALT that is no placeholder, a homozygous GT without `.` that is not haploid 0 or 1, and is no ref call under `discard_ref_calls` |
| PreFilter.AltCallCollapses | minos/dnadiff_mapping_based_verifier.py:132-138 | a multi-ALT call of allele n keeps `ALT[n-1]` alone with GT 1/1; an index past the ALTs raises `Error` |
| PreFilter.RefCallCollapses | minos/dnadiff_mapping_based_verifier.py:139-141 | a multi-ALT ref call keeps `ALT[0]` alone with GT 0/0, and only when ref calls are kept |
| PreFilter.HaploidBecomesDiploid | minos/dnadiff_mapping_based_verifier.py:145-148 | GT 0 becomes 0/0 and 1 becomes 1/1, ALT unchanged |
| PreFilter.MultiAltNormalised | minos/dnadiff_mapping_based_verifier.py:132-148 | a collapsed multi-ALT call ends normalised, and is no ref call under `discard_ref_calls` |
| PreFilter.SingleAltNormalised | minos/dnadiff_mapping_based_verifier.py:143-148 | a single-ALT call ends normalised, and is no ref call under `discard_ref_calls` |
| PreFilter.CollapseKeepsRest | minos/dnadiff_mapping_based_verifier.py:132-141 | collapsing the ALTs changes only GT among the FORMAT values, and keeps INFO |
| PreFilter.ConfidenceKeepsRest | minos/dnadiff_mapping_based_verifier.py:150-159 | deriving a confidence changes GT_CONF only, and nothing when GT_CONF is present |
| PreFilter.ConfidenceNeverOverwritten | minos/dnadiff_mapping_based_verifier.py:150-159 | an existing GT_CONF survives the filter unchanged, whatever the verdict |
| PreFilter.ConfidenceFromGlAltCall | minos/dnadiff_mapping_based_verifier.py:150-156 | a missing GT_CONF of a call of allele g becomes `GL[g] - GL[0]` |
| PreFilter.AltCallLikelihoodOf | minos/dnadiff_mapping_based_verifier.py:156 | for a call of allele g whose likelihoods read as numbers, the confidence text is that of `GL[g] - GL[0]` |
| PreFilter.ConfidenceFromGlRefCall | minos/dnadiff_mapping_based_verifier.py:150-154 | a missing GT_CONF of a ref call becomes `GL[0] - GL[1]` |
| PreFilter.ConfidenceFromSupportFraction | minos/dnadiff_mapping_based_verifier.py:157-159 | without GL, a missing GT_CONF becomes SupportFraction * 100, or stays absent without SupportFraction |
| PreFilter.ConfidenceExample | minos/dnadiff_mapping_based_verifier.py:150-156 | GT 1/1 with GL "-5,-1,-3" and no GT_CONF is emitted with GT_CONF 4 |
| PreFilter.EmittedConfidence | minos/dnadiff_mapping_based_verifier.py:150-159 | an emitted record keeps its INFO and GL, and has GT_CONF whenever GL or SupportFraction was there |
| PreFilter.FilterIdempotent | minos/dnadiff_mapping_based_verifier.py:116-160 | an emitted record passes the filter again unchanged |
| PreFilter.VcfRecord.SetFormatKeyValue | minos/dnadiff_mapping_based_verifier.py:134 | sets one FORMAT key in place, nothing else changes |
| PreFilter.VcfRecord.FilterForClustering | minos/dnadiff_mapping_based_verifier.py:118-160 | the in-place rewrite leaves the record, and returns the verdict, that `FilterRecord` specifies |
| PreFilter.VcfRecord.AddConfidenceFromLikelihoods | minos/dnadiff_mapping_based_verifier.py:150-156 | sets GT_CONF from GL as `ConfidenceFromLikelihoods` says, or fails leaving the record as it was |
| PreFilter.VcfRecord.ReadLikelihoods | minos/dnadiff_mapping_based_verifier.py:151-156 | the confidence read from GL is `LikelihoodConfidence`: an `AssertionError` for two or fewer entries, else the difference for the call |
| PreFilter.VcfRecord.AddConfidenceFromSupport | minos/dnadiff_mapping_based_verifier.py:157-159 | sets GT_CONF from SupportFraction as `ConfidenceFromSupport` says, or fails leaving the record as it was |
| PreFilter.FilterVcfForClustering | minos/dnadiff_mapping_based_verifier.py:116-160 | the records written are those the per-record filter emits, in order; the first `Error` ends the run |
| PreFilter.FilterAllFailureSticks | minos/dnadiff_mapping_based_verifier.py:138 | once a record raises, the whole run fails with that error |
| PreFilter.FilterAllNormalised | minos/dnadiff_mapping_based_verifier.py:116-160 | the output has no more records than the input, all normalised |
| PreFilter.FilterAllIdempotent | minos/dnadiff_mapping_based_verifier.py:116-160 | filtering the filtered file again changes nothing |
| Judge.VariantWindow | minos/dnadiff_mapping_based_verifier.py:226-239 | the window is `[L, len-L-1]` for a full-length query; for a short one `min`/`max` keep start <= end, and it is the single position `len-L-1` (alignment start < 5) or `L` (otherwise) |
| Judge.ReachedWindowTakesLeftCut | minos/dnadiff_mapping_based_verifier.py:215-233 | an alignment that passes the soft-clip guard starts at most 3 bases into the query, so a short query is always given the window `len-L-1` of a fragment cut at the start |
| Judge.FirstStop | minos/dnadiff_mapping_based_verifier.py:250-251 | the scan stops at the first pair with a query position once the position reached is past the window's end |
| Judge.CheckIfSamMatchIsGood | minos/dnadiff_mapping_based_verifier.py:201-265 | the judge's verdict, or the error it raises, is `JudgeMatch` |
| Judge.ScanAlignedPairs | minos/dnadiff_mapping_based_verifier.py:241-257 | the scan collects exactly the pairs `Collected` describes, or hits the `IndexError` of a pair list shorter than the query |
| Judge.CheckAroundVariant | minos/dnadiff_mapping_based_verifier.py:226-265 | the window, scan and check of tolerant mode compute `JudgeAroundVariant` |
| Judge.WantedInRange | minos/dnadiff_mapping_based_verifier.py:247-255 | every collected pair with a query position has it in `[start-1, end+1]` |
| Judge.CheckWantedPairs | minos/dnadiff_mapping_based_verifier.py:261-265 | the per-pair check loop computes `CheckPairs` |
| Judge.StrictMode | minos/dnadiff_mapping_based_verifier.py:202-212 | unmapped is rejected; strict mode raises without NM and accepts exactly one match operation with NM 0 |
| Judge.SoftClipRejects | minos/dnadiff_mapping_based_verifier.py:215-216 | a leading or trailing soft clip over 3 bases rejects, whatever the bases |
| Judge.CheckPairsMeaning | minos/dnadiff_mapping_based_verifier.py:261-265 | the check accepts exactly when every collected pair is aligned on both sides, in range and equal; it rejects only for a gap or a mismatch |
| Judge.WantedMembers | minos/dnadiff_mapping_based_verifier.py:247-255 | a pair is collected exactly when its position (for a deletion, the one reached) lies in `[start-1, end+1]` |
| Judge.TolerantAccepts | minos/dnadiff_mapping_based_verifier.py:215-265 | a tolerant acceptance means mapped, no long soft clip, a non-empty collection, every collected pair in the widened window and matching |
| Judge.TolerantAcceptsWhen | minos/dnadiff_mapping_based_verifier.py:215-265 | conversely, such a record is accepted |
| Judge.BreakIsSafe | minos/dnadiff_mapping_based_verifier.py:250-251 | with increasing query positions, the early `break` loses no pair of the widened window |
| Pipeline.SnpWindowFindsVariant | minos/dnadiff_mapping_based_verifier.py:226-239 | for a SNP fragment that is whole, or cut only at the start of its sequence (alignment start below 5), the judge's window is the one position where the extractor put the variant |
| Pipeline.RightCutWindowMisses | minos/dnadiff_mapping_based_verifier.py:231-233 | as written, a SNP fragment cut at the end of its sequence holds the variant at offset L, while the judge checks offset `len(s)-pos`, which is smaller |
| Pipeline.RightCutExample | minos/dnadiff_mapping_based_verifier.py:231-233 | a 40-base sequence, SNP at 35, L=10: fragment bases 24..39, variant at offset 10, window at offset 5 |
| Pipeline.IntendedWindow | minos/dnadiff_mapping_based_verifier.py:226-239 | the intended window agrees with the judge's for a full-length query and for one cut at the start |
| Pipeline.IntendedWindowFindsVariant | minos/dnadiff_mapping_based_verifier.py:226-239 | the intended window, told which end was cut, is the variant's position in every SNP fragment not cut at both ends |
| Aggregate.Fetch | minos/dnadiff_mapping_based_verifier.py:287 | the fetch returns the contig's records overlapping the region, and raises for an unknown contig |
| Aggregate.OverlappingAppend | minos/dnadiff_mapping_based_verifier.py:287 | the fetch keeps file order: fetching from two runs of records is fetching from each in turn |
| Aggregate.OverlappingSingle | minos/dnadiff_mapping_based_verifier.py:287 | a single record is fetched exactly when it overlaps the region |
| Aggregate.OverlappingOnly | minos/dnadiff_mapping_based_verifier.py:287 | when only one record overlaps the region, the fetch returns at most that one |
| Aggregate.Confirm | minos/dnadiff_mapping_based_verifier.py:288-294 | only the record at the name's index is examined, and the outcome is that record's confirmation; past the end of the list nothing is found; a confidence comes only with a found allele |
| Aggregate.FetchAndConfirm | minos/dnadiff_mapping_based_verifier.py:286-294 | a known contig is confirmed at the name's index among all its records, the list the fragment writer numbered; an unknown contig raises |
| Aggregate.WindowIndexMisses | minos/dnadiff_mapping_based_verifier.py:287-288 | as written, a fragment of any record but the contig's first, alone in its region, is never found, while the lookup by the contig's numbering confirms that call |
| Aggregate.WindowIndexExample | minos/dnadiff_mapping_based_verifier.py:287-288 | SNPs at 10 and 500, L=31, the second homozygous for allele 1: as written not found, as intended found |
| Aggregate.LookUpFindsNamedRecord | minos/dnadiff_mapping_based_verifier.py:285-294 | the name written for allele a of record i of a contig leads the lookup back to that record's confirmation of allele a |
| Aggregate.VisitAlignment | minos/dnadiff_mapping_based_verifier.py:273-300 | one pass of the loop skips an alignment repeating the previous name and otherwise extends the lists as `ParseAll` of one more judged alignment, or ends the run with the error the whole file gives |
| Aggregate.AppendOutcome | minos/dnadiff_mapping_based_verifier.py:279-300 | one judged alignment extends both lists as `ParseAll` of the longer list says, or gives its error |
| Aggregate.JudgeAndConfirm | minos/dnadiff_mapping_based_verifier.py:279-299 | one judged alignment's outcome is `RecordOutcome`: judge, decode, fetch, confirm |
| Aggregate.ParseSamFileAndVcf | minos/dnadiff_mapping_based_verifier.py:268-301 | the two lists are `ParseAll` of the alignments kept by the dedup |
| Aggregate.ParseAllSucceeds | minos/dnadiff_mapping_based_verifier.py:268-301 | the run succeeds exactly when no judged alignment raises |
| Aggregate.ParseAllShape | minos/dnadiff_mapping_based_verifier.py:290-301 | `found` and `gt_conf` have one entry per judged alignment, entry k is its outcome, "1" or "0", and a confidence only beside a "1" |
| Aggregate.OutcomeConfImpliesFound | minos/dnadiff_mapping_based_verifier.py:290-299 | a confidence is recorded only for a found allele |
| Aggregate.RejectedFindsNothing | minos/dnadiff_mapping_based_verifier.py:284-299 | a rejected alignment records "0" and no confidence, whatever the calls |
| Aggregate.AcceptedFragmentFound | minos/dnadiff_mapping_based_verifier.py:284-294 | an accepted alignment whose reference name decodes to a fragment of a known contig yields an outcome, found exactly when the call at the name's record index among the contig's records is homozygous for the name's allele |
| Aggregate.AcceptedLooksUp | minos/dnadiff_mapping_based_verifier.py:284-299 | an accepted alignment's outcome depends only on its reference name: decode, fetch and confirm |
| Aggregate.LookUpDecoded | minos/dnadiff_mapping_based_verifier.py:285-294 | a decoded name of a known contig is confirmed against that contig's records; an unknown contig raises |
| Aggregate.ConfirmFound | minos/dnadiff_mapping_based_verifier.py:288-294 | the allele is found exactly when the call at the name's index has GT, is homozygous and its allele is the name's; the confidence recorded is that call's GT_CONF, present exactly when the allele is found and the call has one |
| Aggregate.LookUpFragment | minos/dnadiff_mapping_based_verifier.py:285-294 | the decode, fetch and per-record loop compute `LookUp` |
| Aggregate.FetchAndConfirmCall | minos/dnadiff_mapping_based_verifier.py:286-294 | fetching the contig's records and confirming the call compute `FetchAndConfirm`, raising for an unknown contig |
| Aggregate.ConfirmFetched | minos/dnadiff_mapping_based_verifier.py:287-294 | the loop over the fetched records examines only the one at the name's index, as `Confirm` says |
| Aggregate.KeptMembers | minos/dnadiff_mapping_based_verifier.py:273-276 | every judged alignment is one that starts a run of its query name |
| Aggregate.JudgedIndex | minos/dnadiff_mapping_based_verifier.py:273-276 | every query name of the file is judged, by the first alignment of its run |
| Aggregate.KeptSource | minos/dnadiff_mapping_based_verifier.py:273-276 | each judged alignment is an alignment of the file that starts a run of its query name |
| Aggregate.KeptLastName | minos/dnadiff_mapping_based_verifier.py:273-276 | the last judged alignment carries the file's last query name |
| Aggregate.KeptEarlierDiffer | minos/dnadiff_mapping_based_verifier.py:273-276 | in a grouped file, an alignment starting a run has a name no earlier judged alignment has |
| Aggregate.KeptNoRepeats | minos/dnadiff_mapping_based_verifier.py:273-276 | no two neighbouring judged alignments share a query name |
| Aggregate.KeptDistinct | minos/dnadiff_mapping_based_verifier.py:273-276 | when the file is grouped by query name, each query is judged exactly once |
| Stats.Bucket | minos/dnadiff_mapping_based_verifier.py:336-337 | the bucket is the largest truncated confidence present; none or a non-number raises `ValueError` |
| Stats.Bump | minos/dnadiff_mapping_based_verifier.py:338 | one bucket goes up by one, starting from 0, and the others stay |
| Stats.GatherStats | minos/dnadiff_mapping_based_verifier.py:327-341 | the counters and histogram are `Tally` of the rows |
| Stats.TallyCounts | minos/dnadiff_mapping_based_verifier.py:331-340 | total is the number of rows and equals found + missed; found counts the rows either VCF found |
| Stats.TallyHistogram | minos/dnadiff_mapping_based_verifier.py:334-338 | each bucket counts exactly the found rows falling in it, and a bucket exists only when one does |
| Stats.FoundAsWrittenReadsAltAndConf | minos/dnadiff_mapping_based_verifier.py:334 | as written, a row counts as found exactly when its ALT or its first confidence is the text "1" |
| Stats.FoundAsWrittenExample | minos/dnadiff_mapping_based_verifier.py:334 | a SNP A>T found by both VCFs with confidence 50 is missed as written, found with bucket 50 as intended |

## Left out

- **I/O is not modelled.** File reading and writing are left out: FASTA, the difference
  report, the VCF and SAM readers, `print` to handles and the summary TSV. Their contents
  are parameters: strings, sequences of rows, alignment records, and maps from contig to
  calls.
- **`_map_seqs_to_seqs` (bwa index and bwa mem) is not modelled.** It is an external
  aligner. Its output is taken as given alignment records. Their aligned pairs carry
  query positions that strictly increase, which `Judge.BreakIsSafe` assumes.
- **Library code is left out:**
  - `vcf_file_read.vcf_file_to_dict`;
  - `vcf_record.inferred_var_seqs_plus_flanks`, so the name's start position and allele
    index are parameters of `FragmentNames.EncodeName`;
  - `VcfClusterer`;
  - `pysam`'s tag lookup: the NM tag is an `Option`, and any failure of `get_tag` is that
    `None`.
- **`run()` is left out.** It is orchestration. That includes the `dnadiff_file1` passed
  for both assemblies at line 345, and `_parse_sam_files` beyond the row shape that
  `Stats.SummaryRow` gives.
- **Floating point is modelled as truncated integers.**
  - GL entries are truncated toward zero before subtraction.
  - SupportFraction * 100 is truncated toward zero.
  - `int(float(c))` is decimal truncation.
  - GT_CONF is written as the integer's text ("4"), where Python writes "4.0" or "4.5".
  - Fractional likelihoods therefore give a difference that can be one off the truncated
    float difference.
  - Binary rounding is lost. Python's `float("0.29") * 100` is 28.999999999999996, so the
    source's bucket is 28 where the model's decimal reading gives 29.
- **`int()` and `float()` accept less than Python.** `int()` here takes an optional sign
  and digits only: no whitespace, no underscores. The three numeric pieces of a fragment
  name (line 285) are read as digits only, with no sign, so a piece such as "-1", which
  Python's `int()` reads, fails to decode. Line 176 never writes a sign. `float()` takes
  `[+-]digits[.digits]` only: no exponent, no `inf`/`nan`, no leading `.`.
- **Python's `logging.warning` for a record without GT is left out.** The record is
  skipped, as modelled.
- **Four source defects are modelled as intended:**
  - Line 280 passes a list of names as `ref_seqs`. The judge takes the name-to-sequence
    map its own code indexes.
  - Lines 285-290 mix text and integers. The decoded start and record index are numbers,
    and the allele index is compared as its decimal text.
  - Lines 289-294 read `vcf_record.FORMAT['GT']` and `vcf_record.FORMAT['GT_CONF']` from
    a record fetched through `pysam.VariantFile` (lines 286-287). pysam's records have no
    `FORMAT` attribute: their sample values sit under `samples`, with GT a tuple of
    integers. The model reads FORMAT as the text map of the cluster_vcf_records record
    the pre-filter uses, with GT as text such as "1/1".
  - Line 336 calls `set(a, b).remove(None)`. Its intent, the maximum over the
    confidences present, is modelled instead.
- **pandas dtype inference is left out.** Summary cells are read back as their written
  text. pandas would read the found flags as the integers 0 and 1, which never equal
  "1".
- **Aggregate.ConfirmCall compares text.** It compares the GT allele with the decimal
  text of the decoded allele index. A name whose index is written with leading zeros
  would therefore differ from the source's text comparison. Names made by line 176 have
  none.
- **Judge.BreakIsSafe needs two assumptions.** Query positions must strictly increase
  and the window must not end before position 0. Without them the early `break` can
  drop pairs, as the source's would.
- Pipeline.SnpWindowFindsVariant excludes some fragments. It does not cover gap
  alleles, nor fragments cut short at both ends. For those the judge's guessed window
  can miss the variant, as the source's would. Fragments cut at the end of their
  sequence are a finding below.
- Judge.VariantWindow keeps the source's guess. An alignment record does not say which
  end of its sequence a short fragment was cut at, so the judge cannot use
  `Pipeline.IntendedWindow`. That window is proved correct beside it.
- Aggregate.FetchAndConfirm reads the name's record index among all the records of the
  contig. This assumes the VCF file lists a contig's records in the order
  `vcf_file_to_dict` gave them when the names were written.

## Findings

| source | as written | input that shows it | evidently intended | confidence | as-written member | corrected member |
|---|---|---|---|---|---|---|
| minos/dnadiff_mapping_based_verifier.py:97-104 | `seq[p-L-1:p+L]` with `p-L-1 < 0` wraps the start to the end of the sequence | 40-base sequence, SNP at position 5, L=31: the slice is bases 13..35, without the SNP (with 63 or more bases it is empty) | the window truncated at the sequence start, `seq[max(0, p-L-1):p+L]` | medium, not executed | Flanks.FlankAsWritten (Flanks.FlankAsWrittenMissesVariantNearStart, Flanks.FlankAsWrittenExample) | Flanks.Flank (Flanks.FlankHoldsVariant, Pipeline.SnpWindowFindsVariant) |
| minos/dnadiff_mapping_based_verifier.py:334 | `line[4] == "1" or line[6] == "1"` on `itertuples()` of the table read back; cells 0 and 1 are the index and the written row-number column, so cells 4 and 6 are ALT and ref_conf | row id 100, REF A, ALT T, found "1" with confidence 50 in both VCFs: counted as missed | test the found flags, `ref_found == "1" or query_found == "1"` | medium, not executed | Stats.FoundAsWritten (Stats.FoundAsWrittenReadsAltAndConf, Stats.FoundAsWrittenExample) | Stats.IsFound (Stats.TallyCounts, Stats.GatherStats) |
| minos/dnadiff_mapping_based_verifier.py:231-236 | a short query whose alignment starts below 5 is taken to be cut at the start of its sequence; every query that gets here starts at most 3 bases in (lines 215-216), so a query cut at the end is searched at offset `len-L-1` | 40-base sequence, SNP at position 35, L=10: the fragment is bases 24..39 with the variant at offset 10, the window checks offset 5 | search offset L in a query cut at the end of its sequence | medium, not executed | Pipeline.RightCutWindowMisses (Pipeline.RightCutExample, Judge.ReachedWindowTakesLeftCut) | Pipeline.IntendedWindow (Pipeline.IntendedWindowFindsVariant) |
| minos/dnadiff_mapping_based_verifier.py:287-288 | the position in the fetched window, which holds only the records overlapping four bases around the variant, is compared with the record index, which line 173 counts over all of the contig's records | one contig, SNPs at 10 and 500, L=31, the fragment of allele 1 of the second record, called 1/1: the fetch returns that record alone, at position 0, so it is not found | the record at the name's index among the contig's records | medium, not executed | Aggregate.FetchAndConfirmAsWritten (Aggregate.WindowIndexMisses, Aggregate.WindowIndexExample) | Aggregate.FetchAndConfirm (Aggregate.LookUpFindsNamedRecord, Aggregate.AcceptedFragmentFound) |
