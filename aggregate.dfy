/** Result aggregation: judges the first alignment of every fragment, decodes the fragment
    name into its VCF record, confirms the record calls that allele, and collects one
    `found` entry and one `gt_conf` entry per judged alignment. */
module Aggregate {
  import opened Wrappers
  import Strings
  import Numerals
  import FragmentNames
  import PreFilter
  import Judge

  /** The fields of a VCF record the lookup reads: the contig, the 1-based position, the
      length of REF and the FORMAT values of the one sample. */
  datatype VcfCall = VcfCall(chrom: string, pos: int, refLen: nat, format: map<string, string>)

  /** The outcome for one alignment: the allele was found, and the confidence of the call
      that confirmed it, when the call has one. */
  datatype Outcome = Outcome(found: bool, conf: Option<string>)

  /** A record overlaps the 0-based half-open region `[start, stop)`. */
  predicate Overlaps(c: VcfCall, start: int, stop: int)
  {
    c.pos - 1 < stop && start < c.pos - 1 + c.refLen
  }

  /** `VariantFile.fetch(contig, start, stop)`: the records of the contig that overlap the
      region, in file order; an unknown contig is an error. */
  function Fetch(vcf: map<string, seq<VcfCall>>, contig: string, start: int, stop: int): (r: Result<seq<VcfCall>>)
    ensures contig in vcf <==> r.Ok?
    ensures r.Ok? ==> forall c :: c in r.value <==> c in vcf[contig] && Overlaps(c, start, stop)
  {
    if contig !in vcf then Err("invalid contig")
    else Ok(Overlapping(vcf[contig], start, stop))
  }

  function Overlapping(calls: seq<VcfCall>, start: int, stop: int): (r: seq<VcfCall>)
    ensures |r| <= |calls|
    ensures forall c :: c in r <==> c in calls && Overlaps(c, start, stop)
  {
    if |calls| == 0 then []
    else Overlapping(calls[..|calls| - 1], start, stop)
         + (if Overlaps(calls[|calls| - 1], start, stop) then [calls[|calls| - 1]] else [])
  }

  /** The region searched for the call behind a fragment: two bases either side of where
      the variant sits once the flank is added to the fragment's 1-based start. */
  function SearchStart(n: FragmentNames.FragmentName, flankLength: nat): int
  {
    n.expectedStart + flankLength - 2
  }

  /** Lines 290-294: the call confirms the allele when its GT is present, homozygous and
      calls this allele; it then contributes its GT_CONF when it has one. */
  function ConfirmCall(c: VcfCall, alleleIndex: nat): Outcome
  {
    if CallsAllele(c, alleleIndex) then
      Outcome(true, if "GT_CONF" in c.format then Some(c.format["GT_CONF"]) else None)
    else Outcome(false, None)
  }

  /** The call's GT is present, homozygous, and calls allele `alleleIndex`. */
  predicate CallsAllele(c: VcfCall, alleleIndex: nat)
  {
    && "GT" in c.format
    && var gs := Strings.Split(c.format["GT"], '/');
       PreFilter.Homozygous(gs) && gs[0] == Numerals.NatToString(alleleIndex)
  }

  /** Lines 288-294: only the fetched record whose position in the fetch is the fragment's
      record index is examined. */
  function Confirm(calls: seq<VcfCall>, n: FragmentNames.FragmentName): (o: Outcome)
    ensures o.conf.Some? ==> o.found
    ensures n.vcfRecordIndex < |calls| ==> o == ConfirmCall(calls[n.vcfRecordIndex], n.alleleIndex)
    ensures n.vcfRecordIndex >= |calls| ==> o == Outcome(false, None)
  {
    if n.vcfRecordIndex < |calls| then ConfirmCall(calls[n.vcfRecordIndex], n.alleleIndex)
    else Outcome(false, None)
  }

  /** Lines 276-300 for one alignment that is judged: `Err` for what the judge, the name
      decoding or the lookup raises. */
  function RecordOutcome(rec: Judge.AlignmentRecord, refSeqs: map<string, string>,
                         vcf: map<string, seq<VcfCall>>, flankLength: nat, allowMismatches: bool): Result<Outcome>
  {
    match Judge.JudgeMatch(rec, refSeqs, flankLength, allowMismatches)
    case Err(e) => Err(e)
    case Ok(good) =>
      if !good then Ok(Outcome(false, None))
      else LookUp(rec.referenceName, vcf)
  }

  /** Lines 285-299 for an accepted alignment: the fragment's name decoded and the call it
      names confirmed. */
  function LookUp(fragmentName: string, vcf: map<string, seq<VcfCall>>): Result<Outcome>
  {
    match FragmentNames.DecodeName(fragmentName)
    case Err(e) => Err(e)
    case Ok(n) => FetchAndConfirm(n, vcf)
  }

  /** Lines 286-294 for a decoded name, with the index the name carries read against the
      list it was taken from: the contig's records, in the order the fragment writer
      numbered them (line 173). An unknown contig is the error the fetch raises. */
  function FetchAndConfirm(n: FragmentNames.FragmentName, vcf: map<string, seq<VcfCall>>): (r: Result<Outcome>)
    ensures n.refName in vcf <==> r.Ok?
    ensures r.Ok? ==> r.value == Confirm(vcf[n.refName], n)
  {
    if n.refName !in vcf then Err("invalid contig")
    else Ok(Confirm(vcf[n.refName], n))
  }

  /** Lines 286-294 as written: only the records overlapping four bases around the variant
      are fetched, and the name's index, which counts the contig's records, is compared with
      positions in that much shorter list. */
  function FetchAndConfirmAsWritten(n: FragmentNames.FragmentName, vcf: map<string, seq<VcfCall>>, flankLength: nat)
    : Result<Outcome>
  {
    var start := SearchStart(n, flankLength);
    match Fetch(vcf, n.refName, start, start + 4)
    case Err(e) => Err(e)
    case Ok(calls) => Ok(Confirm(calls, n))
  }

  /** Lines 274-276: an alignment is judged unless the one before it has the same query name. */
  predicate KeptAt(sam: seq<Judge.AlignmentRecord>, i: nat)
    requires i < |sam|
  {
    i == 0 || sam[i - 1].queryName != sam[i].queryName
  }

  /** The alignments that are judged, in file order. */
  function Kept(sam: seq<Judge.AlignmentRecord>): (r: seq<Judge.AlignmentRecord>)
    ensures |r| <= |sam|
  {
    if |sam| == 0 then []
    else Kept(sam[..|sam| - 1]) + (if KeptAt(sam, |sam| - 1) then [sam[|sam| - 1]] else [])
  }

  /** The two lists of lines 272-301 built from the judged alignments; the first error
      raised ends the run. */
  function ParseAll(kept: seq<Judge.AlignmentRecord>, refSeqs: map<string, string>,
                    vcf: map<string, seq<VcfCall>>, flankLength: nat, allowMismatches: bool)
    : Result<(seq<string>, seq<Option<string>>)>
  {
    if |kept| == 0 then Ok(([], []))
    else
      match ParseAll(kept[..|kept| - 1], refSeqs, vcf, flankLength, allowMismatches)
      case Err(e) => Err(e)
      case Ok(lists) =>
        match RecordOutcome(kept[|kept| - 1], refSeqs, vcf, flankLength, allowMismatches)
        case Err(e) => Err(e)
        case Ok(o) => Ok((lists.0 + [if o.found then "1" else "0"], lists.1 + [o.conf]))
  }

  /** `_parse_sam_file_and_vcf`, with the alignments and the calls given as sequences and
      the fragments' sequences as the map the judge indexes. */
  method ParseSamFileAndVcf(sam: seq<Judge.AlignmentRecord>, refSeqs: map<string, string>,
                            vcf: map<string, seq<VcfCall>>, flankLength: nat, allowMismatches: bool)
    returns (r: Result<(seq<string>, seq<Option<string>>)>)
    ensures r == ParseAll(Kept(sam), refSeqs, vcf, flankLength, allowMismatches)
  {
    var found: seq<string> := [];
    var gtConf: seq<Option<string>> := [];
    var previousName: Option<string> := None;
    for k := 0 to |sam|
      invariant previousName == (if k == 0 then None else Some(sam[k - 1].queryName))
      invariant ParseAll(Kept(sam[..k]), refSeqs, vcf, flankLength, allowMismatches) == Ok((found, gtConf))
    {
      var next;
      previousName, next := VisitAlignment(sam, k, previousName, found, gtConf, refSeqs, vcf, flankLength, allowMismatches);
      if next.Err? {
        return next;
      }
      found, gtConf := next.value.0, next.value.1;
    }
    assert sam[..|sam|] == sam;
    return Ok((found, gtConf));
  }

  /** One pass of the loop of lines 273-300: an alignment repeating the previous query name
      is skipped, any other is judged and its outcome appended, or its error ends the run. */
  method VisitAlignment(sam: seq<Judge.AlignmentRecord>, k: nat, previousName: Option<string>,
                        found: seq<string>, gtConf: seq<Option<string>>, refSeqs: map<string, string>,
                        vcf: map<string, seq<VcfCall>>, flankLength: nat, allowMismatches: bool)
    returns (name: Option<string>, r: Result<(seq<string>, seq<Option<string>>)>)
    requires k < |sam|
    requires previousName == (if k == 0 then None else Some(sam[k - 1].queryName))
    requires ParseAll(Kept(sam[..k]), refSeqs, vcf, flankLength, allowMismatches) == Ok((found, gtConf))
    ensures name == Some(sam[k].queryName)
    ensures r.Ok? ==> r == ParseAll(Kept(sam[..k + 1]), refSeqs, vcf, flankLength, allowMismatches)
    ensures r.Err? ==> r == ParseAll(Kept(sam), refSeqs, vcf, flankLength, allowMismatches)
  {
    KeptStep(sam, k);
    var rec := sam[k];
    name := Some(rec.queryName);
    if previousName == name {
      return name, Ok((found, gtConf));
    }
    r := AppendOutcome(Kept(sam[..k]), rec, found, gtConf, refSeqs, vcf, flankLength, allowMismatches);
    if r.Err? {
      KeptFails(sam, k + 1, refSeqs, vcf, flankLength, allowMismatches);
    }
  }

  /** One judged alignment appended to the two lists, or the error it raises. */
  method AppendOutcome(ghost kept: seq<Judge.AlignmentRecord>, rec: Judge.AlignmentRecord,
                       found: seq<string>, gtConf: seq<Option<string>>, refSeqs: map<string, string>,
                       vcf: map<string, seq<VcfCall>>, flankLength: nat, allowMismatches: bool)
    returns (r: Result<(seq<string>, seq<Option<string>>)>)
    requires ParseAll(kept, refSeqs, vcf, flankLength, allowMismatches) == Ok((found, gtConf))
    ensures r == ParseAll(kept + [rec], refSeqs, vcf, flankLength, allowMismatches)
  {
    var o := JudgeAndConfirm(rec, refSeqs, vcf, flankLength, allowMismatches);
    ParseAllAppend(kept, rec, refSeqs, vcf, flankLength, allowMismatches);
    if o.Err? {
      return Err(o.msg);
    }
    return Ok((found + [if o.value.found then "1" else "0"], gtConf + [o.value.conf]));
  }

  /** The body of the loop for one judged alignment (lines 279-300). */
  method JudgeAndConfirm(rec: Judge.AlignmentRecord, refSeqs: map<string, string>,
                         vcf: map<string, seq<VcfCall>>, flankLength: nat, allowMismatches: bool)
    returns (r: Result<Outcome>)
    ensures r == RecordOutcome(rec, refSeqs, vcf, flankLength, allowMismatches)
  {
    var good := Judge.CheckIfSamMatchIsGood(rec, refSeqs, flankLength, allowMismatches);
    if good.Err? {
      return Err(good.msg);
    }
    if !good.value {
      return Ok(Outcome(false, None));
    }
    r := LookUpFragment(rec.referenceName, vcf);
  }

  /** Lines 285-299: decode the name, fetch the contig's records, confirm the call. */
  method LookUpFragment(fragmentName: string, vcf: map<string, seq<VcfCall>>)
    returns (r: Result<Outcome>)
    ensures r == LookUp(fragmentName, vcf)
  {
    var name := FragmentNames.DecodeName(fragmentName);
    if name.Err? {
      return Err(name.msg);
    }
    r := FetchAndConfirmCall(name.value, vcf);
  }

  /** Lines 286-294: fetch the contig's records and run the loop over them. */
  method FetchAndConfirmCall(n: FragmentNames.FragmentName, vcf: map<string, seq<VcfCall>>)
    returns (r: Result<Outcome>)
    ensures r == FetchAndConfirm(n, vcf)
  {
    if n.refName !in vcf {
      return Err("invalid contig");
    }
    var o := ConfirmFetched(vcf[n.refName], n);
    return Ok(o);
  }

  /** Lines 288-294: the loop over the fetched records, which examines only the one at the
      fragment's record index. */
  method ConfirmFetched(calls: seq<VcfCall>, n: FragmentNames.FragmentName) returns (o: Outcome)
    ensures o == Confirm(calls, n)
  {
    var foundAllele := false;
    var conf: Option<string> := None;
    for i := 0 to |calls|
      invariant Outcome(foundAllele, conf) ==
                  (if n.vcfRecordIndex < i then ConfirmCall(calls[n.vcfRecordIndex], n.alleleIndex)
                   else Outcome(false, None))
    {
      if i == n.vcfRecordIndex {
        var c := ConfirmCall(calls[i], n.alleleIndex);
        foundAllele := c.found;
        conf := c.conf;
      }
    }
    return Outcome(foundAllele, conf);
  }

  /** One more alignment extends the judged ones by itself exactly when it is kept. */
  lemma KeptStep(sam: seq<Judge.AlignmentRecord>, k: nat)
    requires k < |sam|
    ensures KeptAt(sam, k) ==> Kept(sam[..k + 1]) == Kept(sam[..k]) + [sam[k]]
    ensures !KeptAt(sam, k) ==> Kept(sam[..k + 1]) == Kept(sam[..k])
  {
    assert sam[..k + 1][..k] == sam[..k];
    assert Kept(sam[..k]) + [] == Kept(sam[..k]);
  }

  /** One more judged alignment: an error so far stays, otherwise its outcome is appended
      or its error ends the run. */
  lemma ParseAllAppend(kept: seq<Judge.AlignmentRecord>, rec: Judge.AlignmentRecord, refSeqs: map<string, string>,
                       vcf: map<string, seq<VcfCall>>, flankLength: nat, allowMismatches: bool)
    ensures var before := ParseAll(kept, refSeqs, vcf, flankLength, allowMismatches);
            var o := RecordOutcome(rec, refSeqs, vcf, flankLength, allowMismatches);
            ParseAll(kept + [rec], refSeqs, vcf, flankLength, allowMismatches)
            == if before.Err? then before
               else if o.Err? then Err(o.msg)
               else Ok((before.value.0 + [if o.value.found then "1" else "0"], before.value.1 + [o.value.conf]))
  {
    assert (kept + [rec])[..|kept|] == kept;
  }

  /** An error stays the error whatever alignments follow. */
  lemma {:induction false} KeptFails(sam: seq<Judge.AlignmentRecord>, k: nat, refSeqs: map<string, string>,
                                     vcf: map<string, seq<VcfCall>>, flankLength: nat, allowMismatches: bool)
    requires k <= |sam|
    requires ParseAll(Kept(sam[..k]), refSeqs, vcf, flankLength, allowMismatches).Err?
    ensures ParseAll(Kept(sam), refSeqs, vcf, flankLength, allowMismatches)
            == ParseAll(Kept(sam[..k]), refSeqs, vcf, flankLength, allowMismatches)
    decreases |sam| - k
  {
    if k == |sam| {
      assert sam[..k] == sam;
    } else {
      KeptStep(sam, k);
      ParseAllAppend(Kept(sam[..k]), sam[k], refSeqs, vcf, flankLength, allowMismatches);
      KeptFails(sam, k + 1, refSeqs, vcf, flankLength, allowMismatches);
    }
  }

  /** The run succeeds exactly when no judged alignment raises. */
  lemma {:induction false} ParseAllSucceeds(kept: seq<Judge.AlignmentRecord>, refSeqs: map<string, string>,
                                            vcf: map<string, seq<VcfCall>>, flankLength: nat, allowMismatches: bool)
    ensures ParseAll(kept, refSeqs, vcf, flankLength, allowMismatches).Ok?
            <==> forall k :: 0 <= k < |kept| ==> RecordOutcome(kept[k], refSeqs, vcf, flankLength, allowMismatches).Ok?
  {
    if |kept| > 0 {
      var init := kept[..|kept| - 1];
      ParseAllSucceeds(init, refSeqs, vcf, flankLength, allowMismatches);
      assert kept == init + [kept[|kept| - 1]];
      ParseAllAppend(init, kept[|kept| - 1], refSeqs, vcf, flankLength, allowMismatches);
      assert forall k :: 0 <= k < |init| ==> init[k] == kept[k];
    }
  }

  /** The two lists have one entry per judged alignment, entry k being the outcome of the
      k-th one: "1" or "0", and a confidence only beside a "1". */
  lemma {:induction false} ParseAllShape(kept: seq<Judge.AlignmentRecord>, refSeqs: map<string, string>,
                                         vcf: map<string, seq<VcfCall>>, flankLength: nat, allowMismatches: bool)
    requires ParseAll(kept, refSeqs, vcf, flankLength, allowMismatches).Ok?
    ensures var (found, gtConf) := ParseAll(kept, refSeqs, vcf, flankLength, allowMismatches).value;
            && |found| == |gtConf| == |kept|
            && forall k :: 0 <= k < |kept| ==>
                 && RecordOutcome(kept[k], refSeqs, vcf, flankLength, allowMismatches) == Ok(Outcome(found[k] == "1", gtConf[k]))
                 && found[k] in {"0", "1"}
                 && (gtConf[k].Some? ==> found[k] == "1")
  {
    if |kept| > 0 {
      var init := kept[..|kept| - 1];
      var last := kept[|kept| - 1];
      assert kept == init + [last];
      ParseAllAppend(init, last, refSeqs, vcf, flankLength, allowMismatches);
      ParseAllShape(init, refSeqs, vcf, flankLength, allowMismatches);
      OutcomeConfImpliesFound(last, refSeqs, vcf, flankLength, allowMismatches);
      var (f0, c0) := ParseAll(init, refSeqs, vcf, flankLength, allowMismatches).value;
      var (found, gtConf) := ParseAll(kept, refSeqs, vcf, flankLength, allowMismatches).value;
      forall k | 0 <= k < |kept|
        ensures && RecordOutcome(kept[k], refSeqs, vcf, flankLength, allowMismatches) == Ok(Outcome(found[k] == "1", gtConf[k]))
                && found[k] in {"0", "1"}
                && (gtConf[k].Some? ==> found[k] == "1")
      {
        if k < |init| {
          assert kept[k] == init[k] && found[k] == f0[k] && gtConf[k] == c0[k];
        }
      }
    }
  }

  /** A confidence only ever comes with a found allele. */
  lemma OutcomeConfImpliesFound(rec: Judge.AlignmentRecord, refSeqs: map<string, string>,
                                vcf: map<string, seq<VcfCall>>, flankLength: nat, allowMismatches: bool)
    requires RecordOutcome(rec, refSeqs, vcf, flankLength, allowMismatches).Ok?
    ensures var o := RecordOutcome(rec, refSeqs, vcf, flankLength, allowMismatches).value;
            o.conf.Some? ==> o.found
  {
  }

  /** An alignment the judge rejects records nothing found, whatever the calls. */
  lemma RejectedFindsNothing(rec: Judge.AlignmentRecord, refSeqs: map<string, string>,
                             vcf: map<string, seq<VcfCall>>, flankLength: nat, allowMismatches: bool)
    requires Judge.JudgeMatch(rec, refSeqs, flankLength, allowMismatches) == Ok(false)
    ensures RecordOutcome(rec, refSeqs, vcf, flankLength, allowMismatches) == Ok(Outcome(false, None))
  {
  }

  /** An accepted alignment whose fragment name decodes (as every name the fragment writer
      builds does, see `FragmentNames.DecodeEncode`) finds the allele exactly when the call
      at the name's record index of its contig is homozygous for it. */
  lemma AcceptedFragmentFound(rec: Judge.AlignmentRecord, refSeqs: map<string, string>,
                              vcf: map<string, seq<VcfCall>>, flankLength: nat, allowMismatches: bool,
                              n: FragmentNames.FragmentName)
    requires Judge.JudgeMatch(rec, refSeqs, flankLength, allowMismatches) == Ok(true)
    requires FragmentNames.DecodeName(rec.referenceName) == Ok(n)
    requires n.refName in vcf
    ensures var calls := vcf[n.refName];
            var o := RecordOutcome(rec, refSeqs, vcf, flankLength, allowMismatches);
            && o.Ok?
            && (o.value.found <==> n.vcfRecordIndex < |calls| && CallsAllele(calls[n.vcfRecordIndex], n.alleleIndex))
  {
    AcceptedLooksUp(rec, refSeqs, vcf, flankLength, allowMismatches);
    LookUpDecoded(rec.referenceName, vcf, n);
    ConfirmFound(vcf[n.refName], n);
  }

  /** A name that decodes is looked up among the records of its contig; an unknown contig
      is an error. */
  lemma LookUpDecoded(fragmentName: string, vcf: map<string, seq<VcfCall>>, n: FragmentNames.FragmentName)
    requires FragmentNames.DecodeName(fragmentName) == Ok(n)
    ensures n.refName in vcf ==> LookUp(fragmentName, vcf) == Ok(Confirm(vcf[n.refName], n))
    ensures n.refName !in vcf ==> LookUp(fragmentName, vcf) == Err("invalid contig")
  {
  }

  /** The name the fragment writer gives the `alleleIndex`th allele of the `recordIndex`th
      record of a contig leads the lookup back to that record and that allele. */
  lemma LookUpFindsNamedRecord(refName: string, startPosition: nat, recordIndex: nat, alleleIndex: nat,
                               vcf: map<string, seq<VcfCall>>)
    requires refName in vcf && recordIndex < |vcf[refName]|
    ensures LookUp(FragmentNames.EncodeName(refName, startPosition, recordIndex, alleleIndex), vcf)
            == Ok(ConfirmCall(vcf[refName][recordIndex], alleleIndex))
  {
    FragmentNames.DecodeEncode(refName, startPosition, recordIndex, alleleIndex);
  }

  /** An accepted alignment's outcome is the lookup of its fragment. */
  lemma AcceptedLooksUp(rec: Judge.AlignmentRecord, refSeqs: map<string, string>,
                        vcf: map<string, seq<VcfCall>>, flankLength: nat, allowMismatches: bool)
    requires Judge.JudgeMatch(rec, refSeqs, flankLength, allowMismatches) == Ok(true)
    ensures RecordOutcome(rec, refSeqs, vcf, flankLength, allowMismatches) == LookUp(rec.referenceName, vcf)
  {
  }

  /** The allele is found exactly when the call at the fragment's index is homozygous for
      it, and the confidence recorded is that call's GT_CONF, present exactly when the call
      is found and carries one. */
  lemma ConfirmFound(calls: seq<VcfCall>, n: FragmentNames.FragmentName)
    ensures var o := Confirm(calls, n);
            && (o.found <==> n.vcfRecordIndex < |calls| && CallsAllele(calls[n.vcfRecordIndex], n.alleleIndex))
            && (o.conf.Some? <==> o.found && "GT_CONF" in calls[n.vcfRecordIndex].format)
            && (o.conf.Some? ==> o.conf.value == calls[n.vcfRecordIndex].format["GT_CONF"])
  {
  }

  /** Fetching from two lists of records one after the other is fetching from each in
      turn: the fetch keeps file order. */
  lemma {:induction false} OverlappingAppend(a: seq<VcfCall>, b: seq<VcfCall>, start: int, stop: int)
    ensures Overlapping(a + b, start, stop) == Overlapping(a, start, stop) + Overlapping(b, start, stop)
    decreases |b|
  {
    if |b| == 0 {
      assert a + b == a;
    } else {
      var init := b[..|b| - 1];
      assert (a + b)[..|a + b| - 1] == a + init;
      assert (a + b)[|a + b| - 1] == b[|b| - 1];
      OverlappingAppend(a, init, start, stop);
    }
  }

  /** A single record is fetched exactly when it overlaps the region. */
  lemma OverlappingSingle(c: VcfCall, start: int, stop: int)
    ensures Overlapping([c], start, stop) == if Overlaps(c, start, stop) then [c] else []
  {
    assert [c][..0] == [];
  }

  /** When no record but the `i`th overlaps the region, the fetch returns at most that one,
      and nothing at all when there is no `i`th record. */
  lemma {:induction false} OverlappingOnly(calls: seq<VcfCall>, i: int, start: int, stop: int)
    requires forall j :: 0 <= j < |calls| && j != i ==> !Overlaps(calls[j], start, stop)
    ensures |Overlapping(calls, start, stop)| <= 1
    ensures !(0 <= i < |calls|) ==> Overlapping(calls, start, stop) == []
  {
    if |calls| > 0 {
      var init := calls[..|calls| - 1];
      assert forall j :: 0 <= j < |init| ==> init[j] == calls[j];
      OverlappingOnly(init, i, start, stop);
    }
  }

  /** As written, a fragment of any record but the contig's first whose region holds no
      other record is never found, whatever its call: the fetch returns one record, at
      position 0, while the name's index is at least 1. The lookup by the name's index in
      the contig's records confirms that very call. */
  lemma WindowIndexMisses(n: FragmentNames.FragmentName, vcf: map<string, seq<VcfCall>>, flankLength: nat)
    requires n.refName in vcf && 1 <= n.vcfRecordIndex < |vcf[n.refName]|
    requires var start := SearchStart(n, flankLength);
             forall j :: 0 <= j < |vcf[n.refName]| && j != n.vcfRecordIndex ==>
               !Overlaps(vcf[n.refName][j], start, start + 4)
    ensures FetchAndConfirmAsWritten(n, vcf, flankLength) == Ok(Outcome(false, None))
    ensures FetchAndConfirm(n, vcf) == Ok(ConfirmCall(vcf[n.refName][n.vcfRecordIndex], n.alleleIndex))
  {
    var start := SearchStart(n, flankLength);
    OverlappingOnly(vcf[n.refName], n.vcfRecordIndex, start, start + 4);
  }

  /** A contig with SNPs at positions 10 and 500, flanks of 31 bases, and the fragment of
      allele 1 of the second record, which is homozygous for it: as written the allele is
      not found, by the contig's own numbering it is. */
  lemma WindowIndexExample(c0: VcfCall, c1: VcfCall, vcf: map<string, seq<VcfCall>>)
    requires c0.pos == 10 && c0.refLen == 1 && c1.pos == 500 && c1.refLen == 1
    requires CallsAllele(c1, 1)
    requires vcf == map["chr" := [c0, c1]]
    ensures var n := FragmentNames.FragmentName("chr", 469, 1, 1);
            && FetchAndConfirmAsWritten(n, vcf, 31) == Ok(Outcome(false, None))
            && FetchAndConfirm(n, vcf).Ok? && FetchAndConfirm(n, vcf).value.found
  {
    var n := FragmentNames.FragmentName("chr", 469, 1, 1);
    assert SearchStart(n, 31) == 498;
    WindowIndexMisses(n, vcf, 31);
  }

  /** Every judged alignment is an alignment of the file that is kept. */
  lemma {:induction false} KeptMembers(sam: seq<Judge.AlignmentRecord>)
    ensures forall x :: x in Kept(sam) ==> exists i :: 0 <= i < |sam| && KeptAt(sam, i) && sam[i] == x
  {
    if |sam| > 0 {
      var init := sam[..|sam| - 1];
      KeptMembers(init);
      forall x | x in Kept(sam) ensures exists i :: 0 <= i < |sam| && KeptAt(sam, i) && sam[i] == x {
        if x in Kept(init) {
          var i :| 0 <= i < |init| && KeptAt(init, i) && init[i] == x;
          assert KeptAt(sam, i) && sam[i] == x;
        } else {
          assert KeptAt(sam, |sam| - 1) && sam[|sam| - 1] == x;
        }
      }
    }
  }

  /** The alignment of the file that judged alignment `a` is. */
  function KeptSource(sam: seq<Judge.AlignmentRecord>, a: nat): (i: nat)
    requires a < |Kept(sam)|
    ensures i < |sam| && KeptAt(sam, i) && sam[i] == Kept(sam)[a]
    decreases |sam|
  {
    var init := sam[..|sam| - 1];
    if a < |Kept(init)| then
      var i := KeptSource(init, a);
      assert sam[i] == init[i];
      i
    else
      |sam| - 1
  }

  /** Every query name of the file is judged: alignment `i`'s name is that of the judged
      alignment at this index, the first alignment of its run. */
  function JudgedIndex(sam: seq<Judge.AlignmentRecord>, i: nat): (k: nat)
    requires i < |sam|
    ensures k < |Kept(sam)| && Kept(sam)[k].queryName == sam[i].queryName
    decreases |sam|
  {
    var init := sam[..|sam| - 1];
    var last := |sam| - 1;
    if i < last then
      var k := JudgedIndex(init, i);
      assert init[i] == sam[i];
      KeptExtends(sam);
      k
    else if KeptAt(sam, last) then
      KeptExtends(sam);
      |Kept(init)|
    else
      var k := JudgedIndex(init, last - 1);
      assert init[last - 1] == sam[last - 1];
      k
  }

  /** The judged alignments of a prefix are a prefix of the judged alignments. */
  lemma KeptExtends(sam: seq<Judge.AlignmentRecord>)
    requires |sam| > 0
    ensures var ki := Kept(sam[..|sam| - 1]);
            |ki| <= |Kept(sam)| && Kept(sam)[..|ki|] == ki
  {
  }

  /** The last judged alignment carries the query name of the last alignment. */
  lemma {:induction false} KeptLastName(sam: seq<Judge.AlignmentRecord>)
    requires |sam| > 0
    ensures |Kept(sam)| > 0 && Kept(sam)[|Kept(sam)| - 1].queryName == sam[|sam| - 1].queryName
  {
    var init := sam[..|sam| - 1];
    if !KeptAt(sam, |sam| - 1) {
      KeptLastName(init);
      assert init[|init| - 1] == sam[|sam| - 2];
    }
  }

  /** No two neighbouring judged alignments share a query name. */
  lemma {:induction false} KeptNoRepeats(sam: seq<Judge.AlignmentRecord>)
    ensures forall k :: 0 < k < |Kept(sam)| ==> Kept(sam)[k - 1].queryName != Kept(sam)[k].queryName
  {
    if |sam| > 0 {
      var init := sam[..|sam| - 1];
      KeptNoRepeats(init);
      if KeptAt(sam, |sam| - 1) && |sam| > 1 {
        KeptLastName(init);
      }
    }
  }

  /** The alignments of one query name lie next to each other, as the aligner writes them. */
  ghost predicate Grouped(sam: seq<Judge.AlignmentRecord>)
  {
    forall i, j, k :: StaysInRun(sam, i, j, k)
  }

  /** Alignment `j`, between two alignments of one query name, has that name too. */
  predicate StaysInRun(sam: seq<Judge.AlignmentRecord>, i: int, j: int, k: int)
  {
    0 <= i < j < k < |sam| && sam[i].queryName == sam[k].queryName ==> sam[j].queryName == sam[i].queryName
  }

  /** In a grouped file, an alignment that starts a run has a query name no earlier judged
      alignment has. */
  lemma KeptEarlierDiffer(sam: seq<Judge.AlignmentRecord>, a: nat)
    requires Grouped(sam) && |sam| > 0 && KeptAt(sam, |sam| - 1)
    requires a < |Kept(sam[..|sam| - 1])|
    ensures Kept(sam[..|sam| - 1])[a].queryName != sam[|sam| - 1].queryName
  {
    var init := sam[..|sam| - 1];
    var last := |sam| - 1;
    var i := KeptSource(init, a);
    assert sam[i] == Kept(init)[a];
    if i < last - 1 {
      assert StaysInRun(sam, i, last - 1, last);
    }
  }

  /** When the file is grouped by query name, every query is judged exactly once. */
  lemma {:induction false} KeptDistinct(sam: seq<Judge.AlignmentRecord>)
    requires Grouped(sam)
    ensures forall a, b :: 0 <= a < b < |Kept(sam)| ==> Kept(sam)[a].queryName != Kept(sam)[b].queryName
  {
    if |sam| > 0 {
      var init := sam[..|sam| - 1];
      var last := |sam| - 1;
      forall i, j, k ensures StaysInRun(init, i, j, k) {
        assert StaysInRun(sam, i, j, k);
        if 0 <= i < j < k < |init| {
          assert init[i] == sam[i] && init[j] == sam[j] && init[k] == sam[k];
        }
      }
      KeptDistinct(init);
      var ki := Kept(init);
      if KeptAt(sam, last) {
        var ks := Kept(sam);
        assert ks == ki + [sam[last]];
        forall a, b | 0 <= a < b < |ks| ensures ks[a].queryName != ks[b].queryName {
          assert ks[a] == ki[a];
          if b < |ki| {
            assert ks[b] == ki[b];
          } else {
            assert ks[b] == sam[last];
            KeptEarlierDiffer(sam, a);
          }
        }
      } else {
        assert Kept(sam) == ki;
      }
    }
  }
}
